/**
 * `extractRecipientCompanyFromPDFText`. The browser copy tries its three
 * patterns in turn and cleans up the capture of the first that matches: trim,
 * every white-space run made one space, and a result longer than 50 code units
 * cut to its first four space-separated words. The Apps Script copy has a single
 * pattern and only trims the capture. None stands for `null`.
 */
module Recipient {
  import opened Wrappers
  import opened Text
  import opened Search
  import opened RecipientPatterns

  /** The browser copy's patterns, in the order it tries them. */
  const AppRules: seq<Rule> := [UpToNewline, CapitalisedWords, BeforeAddress]

  /** The longest result kept whole. */
  const MaxLength := 50

  /** The most words a cut result keeps. */
  const MaxWords := 4

  /** `text.match(pattern)` for each pattern, as a function of the pattern. */
  function CaptureIn(s: string): Rule -> Option<string>
  {
    (rule: Rule) => Capture(rule, s)
  }

  /** The browser copy's clean-up of a capture. */
  function Cleanup(cap: string): string
  {
    Shorten(Collapse(Trim(cap)))
  }

  /** A result longer than 50 (in UTF-16 code units, as `length` counts) cut
      to its first four space-separated words. */
  function Shorten(r: string): string
  {
    if Utf16Length(r) > MaxLength then
      var words := Split(r, ' ');
      Join(words[..if MaxWords < |words| then MaxWords else |words|], ' ')
    else r
  }

  /** What the browser copy returns. */
  function AppRecipient(s: string): Option<string>
  {
    match FirstWith(AppRules, CaptureIn(s), 0)
    case None => None
    case Some((_, cap)) => Some(Cleanup(cap))
  }

  /** The browser copy's `for (const pattern of patterns)` loop, returning at
      the first pattern with a capture. */
  method ExtractRecipient(text: string) returns (recipient: Option<string>)
    ensures recipient == AppRecipient(text)
  {
    var k := 0;
    while k < |AppRules|
      invariant k <= |AppRules|
      invariant FirstWith(AppRules, CaptureIn(text), 0) == FirstWith(AppRules, CaptureIn(text), k)
      decreases |AppRules| - k
    {
      var m := Capture(AppRules[k], text);
      if m.Some? {
        return Some(Cleanup(m.value));
      }
      k := k + 1;
    }
    return None;
  }

  /** The result is null exactly when none of the three patterns matches
      anywhere in the text. */
  lemma AppRecipientNone(s: string)
    ensures AppRecipient(s).None? <==>
      forall k, i :: 0 <= k < |AppRules| && 0 <= i <= |s| ==> RuleAt(AppRules[k], s, i).None?
  {
    FirstWithIsFirst(AppRules, CaptureIn(s), 0);
    forall k | 0 <= k < |AppRules| {
      FindRuleIsLeftmost(AppRules[k], s);
    }
  }

  /** The first pattern that matches decides the result; the later ones are
      not consulted. */
  lemma AppRecipientFirstWins(s: string, k: nat)
    requires k < |AppRules| && Capture(AppRules[k], s).Some?
    requires forall j :: 0 <= j < k ==> Capture(AppRules[j], s).None?
    ensures AppRecipient(s) == Some(Cleanup(Capture(AppRules[k], s).value))
  {
    var F := CaptureIn(s);
    assert FirstWith(AppRules, F, 0) == Some((k, Capture(AppRules[k], s).value)) by {
      FirstWithIsFirst(AppRules, F, 0);
      assert F(AppRules[k]) == Capture(AppRules[k], s);
    }
  }

  /** The cleaned-up result is a prefix of the trimmed, collapsed capture: all
      of it when that is at most 50 code units long; otherwise its first four
      words, that is the prefix that ends at the end or where a space follows
      and holds three spaces, or every space when there are fewer. It has
      spaces as its only white space and never two in a row. */
  lemma CleanupShape(cap: string)
    ensures var r := Collapse(Trim(cap)); var c := Cleanup(cap);
      |c| <= |r| && c == r[..|c|] && (c == r || r[|c|] == ' ') &&
      (Utf16Length(r) <= MaxLength ==> c == r) &&
      (Utf16Length(r) > MaxLength ==>
        Occurrences(c, ' ') == if MaxWords - 1 < Occurrences(r, ' ') then MaxWords - 1 else Occurrences(r, ' ')) &&
      SpacesOnly(c) && NoDoubleSpace(c)
  {
    ShortenShape(Collapse(Trim(cap)));
  }

  lemma ShortenShape(r: string)
    requires SpacesOnly(r) && NoDoubleSpace(r)
    ensures var c := Shorten(r);
      |c| <= |r| && c == r[..|c|] && (c == r || r[|c|] == ' ') &&
      (Utf16Length(r) <= MaxLength ==> c == r) &&
      (Utf16Length(r) > MaxLength ==>
        Occurrences(c, ' ') == if MaxWords - 1 < Occurrences(r, ' ') then MaxWords - 1 else Occurrences(r, ' ')) &&
      SpacesOnly(c) && NoDoubleSpace(c)
  {
    if Utf16Length(r) > MaxLength {
      TakePieces(r, ' ', MaxWords);
      var c := Shorten(r);
      assert forall k :: 0 <= k < |c| ==> c[k] == r[k];
    }
  }

  /** A result kept whole has every character of the capture that is not white
      space, in order, and begins and ends with one of them. */
  lemma CleanupKeepsText(cap: string)
    requires Utf16Length(Collapse(Trim(cap))) <= MaxLength
    ensures NonWs(Cleanup(cap)) == NonWs(cap) && Trimmed(Cleanup(cap))
  {
    TrimKeepsText(cap);
    CollapseKeepsText(Trim(cap));
  }

  /** What the Apps Script copy returns. */
  function ScriptRecipient(s: string): Option<string>
  {
    match Capture(ScriptUpToNewline, s)
    case None => None
    case Some(cap) => Some(Trim(cap))
  }

  /** The Apps Script result is null exactly when its pattern matches nowhere;
      otherwise it is the capture trimmed, with all of its text. */
  lemma ScriptRecipientShape(s: string)
    ensures ScriptRecipient(s).None? <==> forall i :: 0 <= i <= |s| ==> RuleAt(ScriptUpToNewline, s, i).None?
    ensures ScriptRecipient(s).Some? ==>
      var cap := Capture(ScriptUpToNewline, s).value;
      Trimmed(ScriptRecipient(s).value) && NonWs(ScriptRecipient(s).value) == NonWs(cap)
  {
    FindRuleIsLeftmost(ScriptUpToNewline, s);
    if Capture(ScriptUpToNewline, s).Some? {
      TrimKeepsText(Capture(ScriptUpToNewline, s).value);
    }
  }
}
