/**
 * The recipient patterns. The browser copy tries three in turn:
 *   /til:\s+(.+?)\s*\n/s
 *   /til:\s+([A-ZÆØÅa-zæøå][a-zæøå]+(?:\s+[A-ZÆØÅa-zæøå][a-zæøå]+)*)/
 *   /til:\s+([A-ZÆØÅa-zæøå\s]+?)(?:\s{2,}[A-Z]|\s+\d)/i
 * and the Apps Script copy has the single pattern
 *   /til:\s+(.+?)\s\n/s
 * With the `s` flag `.` takes any character. Each pattern's capture is the
 * one a backtracking matcher reports for the leftmost start.
 */
module RecipientPatterns {
  import opened Wrappers
  import opened Text
  import opened Search

  /** The patterns, in the order the browser copy tries them, and the single
      pattern of the Apps Script copy. */
  datatype Rule = UpToNewline | CapitalisedWords | BeforeAddress | ScriptUpToNewline

  /** The Norwegian letters the classes name besides ASCII: `ÆØÅæøå`. */
  predicate IsNordicLetter(c: char) {
    c == '\U{C6}' || c == '\U{D8}' || c == '\U{C5}' || c == '\U{E6}' || c == '\U{F8}' || c == '\U{E5}'
  }

  /** `[A-ZÆØÅa-zæøå]` */
  predicate IsInitial(c: char) { IsAsciiLetter(c) || IsNordicLetter(c) }

  /** `[a-zæøå]` */
  predicate IsLower(c: char) {
    'a' <= c <= 'z' || c == '\U{E6}' || c == '\U{F8}' || c == '\U{E5}'
  }

  /** `[A-ZÆØÅa-zæøå\s]` under the `i` flag: both cases of every letter are in
      the class already, and no other character folds onto one of them. */
  predicate IsNameChar(c: char) { IsInitial(c) || IsWs(c) }

  /** `\s*\n` at `c`: the greedy white-space run gives back characters until a
      newline it took is next. */
  predicate NewlineTail(s: string, c: nat) {
    c <= |s| && '\n' in s[c..RunEnd(s, c, IsWs)]
  }

  /** `\s\n` at `c`. */
  predicate WsNewlineTail(s: string, c: nat) {
    c + 1 < |s| && IsWs(s[c]) && s[c + 1] == '\n'
  }

  /** `(?:\s{2,}[A-Z]|\s+\d)` at `c` under the `i` flag (`[A-Z]` then takes
      every ASCII letter). A letter or a digit cannot be white space, so both
      white-space runs must take the whole run. */
  predicate AddressTail(s: string, c: nat) {
    c <= |s| &&
    var v := RunEnd(s, c, IsWs);
    v < |s| && ((v >= c + 2 && IsAsciiLetter(s[v])) || (v >= c + 1 && IsDigit(s[v])))
  }

  /** `[A-ZÆØÅa-zæøå][a-zæøå]+` at `k`: where the word ends (its lower-case run
      is greedy and nothing after the capture can make it give back). */
  function WordEnd(s: string, k: nat): (r: Option<nat>)
    requires k <= |s|
    ensures r.Some? ==> k + 2 <= r.value <= |s| && IsInitial(s[k])
    ensures r.Some? ==> r.value == |s| || !IsLower(s[r.value])
  {
    if k < |s| && IsInitial(s[k]) then
      var m := RunEnd(s, k + 1, IsLower);
      if m >= k + 2 then Some(m) else None
    else None
  }

  /** `(?:\s+[A-ZÆØÅa-zæøå][a-zæøå]+)*` from `m`: the greedy repetition takes
      every further word it can, each one after the whole white-space run. */
  function MoreWords(s: string, m: nat): (r: nat)
    requires m <= |s|
    ensures m <= r <= |s|
    decreases |s| - m
  {
    var w := RunEnd(s, m, IsWs);
    if w == m then m
    else match WordEnd(s, w)
      case None => m
      case Some(m') => MoreWords(s, m')
  }

  /** The characters of the repetition are letters and white space. */
  lemma {:induction false} MoreWordsClass(s: string, m: nat)
    requires m <= |s|
    ensures forall k :: m <= k < MoreWords(s, m) ==> IsNameChar(s[k])
    decreases |s| - m
  {
    var w := RunEnd(s, m, IsWs);
    if w > m {
      match WordEnd(s, w)
      case None =>
      case Some(m') =>
        RunEndAll(s, m, IsWs);
        RunEndAll(s, w + 1, IsLower);
        MoreWordsClass(s, m');
    }
  }

  /** The repetition stops where no further word follows. */
  lemma {:induction false} MoreWordsStops(s: string, m: nat)
    requires m <= |s|
    ensures RunEnd(s, MoreWords(s, m), IsWs) == MoreWords(s, m) ||
            WordEnd(s, RunEnd(s, MoreWords(s, m), IsWs)).None?
    decreases |s| - m
  {
    var w := RunEnd(s, m, IsWs);
    if w > m {
      match WordEnd(s, w)
      case None =>
      case Some(m') => MoreWordsStops(s, m');
    }
  }

  /** `til:\s+(.+?)` followed by `Tail`, with `.` taking any character. */
  function LazyAt(s: string, i: nat, Tail: nat -> bool): (r: Option<string>)
    requires i <= |s|
    ensures r.Some? ==> LitAt(s, i, "til:") && |r.value| >= 1
  {
    if LitAt(s, i, "til:") then
      match WsThenLazy(s, i + 4, AnyChar, Tail)
      case None => None
      case Some((b, c)) => Some(s[b..c])
    else None
  }

  /** `til:\s+([A-ZÆØÅa-zæøå][a-zæøå]+(?:\s+[A-ZÆØÅa-zæøå][a-zæøå]+)*)`: `\s+`
      must take its whole run, since a letter follows it. */
  function WordsAt(s: string, i: nat): (r: Option<string>)
    requires i <= |s|
    ensures r.Some? ==> LitAt(s, i, "til:") && |r.value| >= 2
    ensures r.Some? ==> IsInitial(r.value[0]) && All(r.value, IsNameChar)
  {
    if LitAt(s, i, "til:") then
      var e := RunEnd(s, i + 4, IsWs);
      if e == i + 4 then None
      else match WordEnd(s, e)
        case None => None
        case Some(m) =>
          var f := MoreWords(s, m);
          RunEndAll(s, e + 1, IsLower);
          MoreWordsClass(s, m);
          RunSlice(s, e, f, IsNameChar);
          Some(s[e..f])
    else None
  }

  /** `til:\s+([A-ZÆØÅa-zæøå\s]+?)(?:\s{2,}[A-Z]|\s+\d)` under the `i` flag. */
  function AddressAt(s: string, i: nat): (r: Option<string>)
    requires i <= |s|
    ensures r.Some? ==> LitAtCI(s, i, "TIL:") && |r.value| >= 1 && All(r.value, IsNameChar)
  {
    if LitAtCI(s, i, "TIL:") then
      match WsThenLazy(s, i + 4, IsNameChar, (c: nat) => AddressTail(s, c))
      case None => None
      case Some((b, c)) =>
        RunEndAll(s, b, IsNameChar);
        RunSlice(s, b, c, IsNameChar);
        Some(s[b..c])
    else None
  }

  /** The capture of a rule at `i`, or None. */
  function RuleAt(rule: Rule, s: string, i: nat): (r: Option<string>)
    requires i <= |s|
    ensures r.Some? ==> |r.value| >= 1
  {
    match rule
    case UpToNewline => LazyAt(s, i, (c: nat) => NewlineTail(s, c))
    case ScriptUpToNewline => LazyAt(s, i, (c: nat) => WsNewlineTail(s, c))
    case CapitalisedWords => WordsAt(s, i)
    case BeforeAddress => AddressAt(s, i)
  }

  /** A rule tried at every position of `s`. */
  function RuleMatcher(rule: Rule, s: string): nat -> Option<string>
  {
    (i: nat) => if i <= |s| then RuleAt(rule, s, i) else None
  }

  /** `s.match(pattern)`: the leftmost start of a rule and its capture. */
  function FindRule(rule: Rule, s: string): (r: Option<(nat, string)>)
    ensures r.Some? ==> r.value.0 <= |s| && RuleAt(rule, s, r.value.0) == Some(r.value.1)
  {
    Leftmost(RuleMatcher(rule, s), 0, |s|)
  }

  /** No match starts before the one found, and there is none at all when the
      search returns None. */
  lemma FindRuleIsLeftmost(rule: Rule, s: string)
    ensures FindRule(rule, s).Some? ==> forall i :: 0 <= i < FindRule(rule, s).value.0 ==> RuleAt(rule, s, i).None?
    ensures FindRule(rule, s).None? <==> forall i :: 0 <= i <= |s| ==> RuleAt(rule, s, i).None?
  {
    LeftmostIsFirst(RuleMatcher(rule, s), 0, |s|);
    MatcherIsRuleAt(rule, s);
  }

  lemma MatcherIsRuleAt(rule: Rule, s: string)
    ensures forall i :: 0 <= i <= |s| ==> RuleMatcher(rule, s)(i) == RuleAt(rule, s, i)
  {
  }

  /** The capture of `s.match(pattern)`, or None. */
  function Capture(rule: Rule, s: string): (r: Option<string>)
    ensures r.Some? ==> |r.value| >= 1
  {
    match FindRule(rule, s)
    case None => None
    case Some((_, cap)) => Some(cap)
  }
}
