/**
 * JavaScript string primitives the settlement pipeline relies on: the character
 * classes of its regular expressions (`\s`, `\d`, `.`, `\b`), runs of a class,
 * literal and case-insensitive literal tests, `trim`, the `/\s+/g` collapse,
 * `split` and `join`. Strings are sequences of characters; every character the
 * patterns name lies in the Basic Multilingual Plane.
 */
module Text {

  /** ECMAScript WhiteSpace and LineTerminator: the set `\s` matches and `trim` removes. */
  predicate IsWs(c: char) {
    c == '\t' || c == '\n' || c == '\U{B}' || c == '\U{C}' || c == '\r' || c == ' ' ||
    c == '\U{A0}' || c == '\U{1680}' || ('\U{2000}' <= c <= '\U{200A}') ||
    c == '\U{2028}' || c == '\U{2029}' || c == '\U{202F}' || c == '\U{205F}' ||
    c == '\U{3000}' || c == '\U{FEFF}'
  }

  /** The characters `.` refuses without the `s` flag. */
  predicate IsLineTerminator(c: char) {
    c == '\n' || c == '\r' || c == '\U{2028}' || c == '\U{2029}'
  }

  /** What `.` matches without the `s` flag. */
  predicate NotLineTerminator(c: char) { !IsLineTerminator(c) }

  /** What `.` matches with the `s` flag. */
  predicate AnyChar(c: char) { true }

  predicate IsDigit(c: char) { '0' <= c <= '9' }

  /** `\D` */
  predicate NotDigit(c: char) { !IsDigit(c) }

  /** The class `[\d\s,.]` of every amount capture. */
  predicate IsAmountChar(c: char) { IsDigit(c) || IsWs(c) || c == ',' || c == '.' }

  predicate IsAsciiLetter(c: char) { 'A' <= c <= 'Z' || 'a' <= c <= 'z' }

  /** A word character for `\b` in a regular expression without the `u` flag. */
  predicate IsWordChar(c: char) { IsAsciiLetter(c) || IsDigit(c) || c == '_' }

  /** The end of the run of `P`-characters that starts at `i`. */
  function RunEnd(s: string, i: nat, P: char -> bool): (j: nat)
    requires i <= |s|
    ensures i <= j <= |s|
    ensures j == |s| || !P(s[j])
    decreases |s| - i
  {
    if i == |s| || !P(s[i]) then i else RunEnd(s, i + 1, P)
  }

  /** Every character of the run is a `P`-character. */
  lemma {:induction false} RunEndAll(s: string, i: nat, P: char -> bool)
    requires i <= |s|
    ensures forall k :: i <= k < RunEnd(s, i, P) ==> P(s[k])
    decreases |s| - i
  {
    if i < |s| && P(s[i]) {
      RunEndAll(s, i + 1, P);
    }
  }

  /** A run over characters that are all `P`-characters reaches the end. */
  lemma {:induction false} RunEndFull(s: string, i: nat, P: char -> bool)
    requires i <= |s| && forall k :: i <= k < |s| ==> P(s[k])
    ensures RunEnd(s, i, P) == |s|
    decreases |s| - i
  {
    if i < |s| {
      RunEndFull(s, i + 1, P);
    }
  }

  /** The run as a slice. */
  lemma RunEndSlice(s: string, i: nat, P: char -> bool)
    requires i <= |s|
    ensures All(s[i..RunEnd(s, i, P)], P)
  {
    RunEndAll(s, i, P);
  }

  /** A run that stops at `j`, where the `P`-characters from `i` end. */
  lemma {:induction false} RunEndAt(s: string, i: nat, j: nat, P: char -> bool)
    requires i <= j <= |s| && (forall k :: i <= k < j ==> P(s[k])) && (j == |s| || !P(s[j]))
    ensures RunEnd(s, i, P) == j
    decreases j - i
  {
    if i < j {
      RunEndAt(s, i + 1, j, P);
    }
  }

  /** Every character of `s` is a `P`-character. */
  predicate All(s: string, P: char -> bool) {
    forall k :: 0 <= k < |s| ==> P(s[k])
  }

  /** The slice between two positions of one run is all `P`-characters. */
  lemma RunSlice(s: string, i: nat, j: nat, P: char -> bool)
    requires i <= j <= |s| && forall k :: i <= k < j ==> P(s[k])
    ensures All(s[i..j], P)
  {
  }

  /** Any two positions inside one run lead to the same end. */
  lemma {:induction false} RunEndWithin(s: string, i: nat, k: nat, P: char -> bool)
    requires i <= |s| && i <= k <= RunEnd(s, i, P)
    ensures RunEnd(s, k, P) == RunEnd(s, i, P)
    decreases k - i
  {
    if i < k {
      assert RunEnd(s, i, P) == RunEnd(s, i + 1, P);
      RunEndWithin(s, i + 1, k, P);
    }
  }

  /** The literal `lit` occurs in `s` at `i`. */
  predicate LitAt(s: string, i: nat, lit: string) {
    i + |lit| <= |s| && s[i..i + |lit|] == lit
  }

  /** Case folding of the `i` flag restricted to ASCII: without the `u` flag
      a character outside ASCII never folds onto an ASCII letter. */
  function AsciiUpper(c: char): (u: char)
    ensures IsAsciiLetter(c) ==> 'A' <= u <= 'Z'
    ensures !IsAsciiLetter(c) ==> u == c
  {
    if 'a' <= c <= 'z' then (c as int - 32) as char else c
  }

  /** `AsciiUpper` on every character. */
  function AsciiUpperAll(t: string): (r: string)
    ensures |r| == |t|
  {
    if |t| == 0 then "" else [AsciiUpper(t[0])] + AsciiUpperAll(t[1..])
  }

  /** An ASCII literal occurs at `i` under the `i` flag; `upper` is the literal
      written in capitals (`AsciiUpperAll` of it). */
  predicate LitAtCI(s: string, i: nat, upper: string) {
    i + |upper| <= |s| && AsciiUpperAll(s[i..i + |upper|]) == upper
  }

  /** `s` contains `t` (`String.prototype.includes`). */
  predicate Contains(s: string, t: string) {
    exists i :: 0 <= i <= |s| && LitAt(s, i, t)
  }

  /** The characters of `s` that are not white space: `s.replace(/\s+/g, '')`. */
  function NonWs(s: string): (r: string)
    ensures |r| <= |s|
    ensures forall k :: 0 <= k < |r| ==> !IsWs(r[k])
  {
    if |s| == 0 then "" else (if IsWs(s[0]) then "" else [s[0]]) + NonWs(s[1..])
  }

  lemma {:induction false} NonWsAppend(a: string, b: string)
    ensures NonWs(a + b) == NonWs(a) + NonWs(b)
  {
    if |a| > 0 {
      assert (a + b)[1..] == a[1..] + b;
      NonWsAppend(a[1..], b);
    } else {
      assert a + b == b;
    }
  }

  lemma {:induction false} NonWsOfWs(a: string)
    requires forall k :: 0 <= k < |a| ==> IsWs(a[k])
    ensures NonWs(a) == ""
  {
    if |a| > 0 { NonWsOfWs(a[1..]); }
  }

  /** `String.prototype.trimStart`. */
  function TrimStart(s: string): (r: string)
    ensures |r| <= |s| && r == s[|s| - |r|..]
    ensures r == "" || !IsWs(r[0])
    ensures forall k :: 0 <= k < |s| - |r| ==> IsWs(s[k])
  {
    if |s| > 0 && IsWs(s[0]) then TrimStart(s[1..]) else s
  }

  /** `String.prototype.trimEnd`. */
  function TrimEnd(s: string): (r: string)
    ensures |r| <= |s| && r == s[..|r|]
    ensures r == "" || !IsWs(r[|r| - 1])
    ensures forall k :: |r| <= k < |s| ==> IsWs(s[k])
  {
    if |s| > 0 && IsWs(s[|s| - 1]) then TrimEnd(s[..|s| - 1]) else s
  }

  /** `String.prototype.trim`: `s` with its leading and trailing white space removed. */
  function Trim(s: string): (r: string)
    ensures r == "" || (!IsWs(r[0]) && !IsWs(r[|r| - 1]))
  {
    TrimEnd(TrimStart(s))
  }

  /** No white space at either end. */
  predicate Trimmed(s: string) {
    s == "" || (!IsWs(s[0]) && !IsWs(s[|s| - 1]))
  }

  /** Where the text that `trim` keeps begins. */
  function TrimOffset(s: string): nat
  {
    |s| - |TrimStart(s)|
  }

  /** What `trim` leaves: the slice of `s` from `TrimOffset(s)`, that neither
      begins nor ends with white space. */
  lemma TrimSpec(s: string)
    ensures TrimOffset(s) + |Trim(s)| <= |s|
    ensures Trim(s) == s[TrimOffset(s)..TrimOffset(s) + |Trim(s)|]
    ensures Trim(s) == "" || (!IsWs(Trim(s)[0]) && !IsWs(Trim(s)[|Trim(s)| - 1]))
  {
    SliceOfSlice(s, TrimOffset(s), |Trim(s)|);
  }

  lemma SliceOfSlice(s: string, i: nat, n: nat)
    requires i + n <= |s|
    ensures s[i..][..n] == s[i..i + n]
  {
  }

  /** `trim` cuts only white space, on either side of what it leaves. */
  lemma TrimCutsWs(s: string)
    ensures forall k :: 0 <= k < TrimOffset(s) ==> IsWs(s[k])
    ensures forall k :: TrimOffset(s) + |Trim(s)| <= k < |s| ==> IsWs(s[k])
  {
    WsInTail(s, TrimOffset(s), |Trim(s)|);
  }

  /** White space after `n` characters of `s[i..]` is white space of `s`. */
  lemma WsInTail(s: string, i: nat, n: nat)
    requires i <= |s| && n <= |s| - i
    requires forall k :: n <= k < |s[i..]| ==> IsWs(s[i..][k])
    ensures forall k :: i + n <= k < |s| ==> IsWs(s[k])
  {
    forall k | i + n <= k < |s|
      ensures IsWs(s[k])
    {
      assert s[k] == s[i..][k - i];
    }
  }

  lemma {:induction false} TrimStartKeepsText(s: string)
    ensures NonWs(TrimStart(s)) == NonWs(s)
  {
    if |s| > 0 && IsWs(s[0]) {
      TrimStartKeepsText(s[1..]);
    }
  }

  lemma {:induction false} TrimEndKeepsText(s: string)
    ensures NonWs(TrimEnd(s)) == NonWs(s)
  {
    if |s| > 0 && IsWs(s[|s| - 1]) {
      var u := s[..|s| - 1];
      TrimEndKeepsText(u);
      assert s == u + [s[|s| - 1]];
      NonWsAppend(u, [s[|s| - 1]]);
    }
  }

  /** `trim` keeps every character that is not white space, in order. */
  lemma TrimKeepsText(s: string)
    ensures NonWs(Trim(s)) == NonWs(s)
  {
    TrimStartKeepsText(s);
    TrimEndKeepsText(TrimStart(s));
  }

  /** Two trimmed parts joined by a space and trimmed again keep the text of
      both parts, in order. */
  lemma JoinTrimmedKeepsText(a: string, b: string)
    ensures NonWs(Trim(Trim(a) + " " + Trim(b))) == NonWs(a) + NonWs(b)
  {
    NonWsSpaced(Trim(a), Trim(b));
    TrimKeepsText(a);
    TrimKeepsText(b);
    TrimKeepsText(Trim(a) + " " + Trim(b));
  }

  /** Joining by a space adds no text. */
  lemma NonWsSpaced(a: string, b: string)
    ensures NonWs(a + " " + b) == NonWs(a) + NonWs(b)
  {
    NonWsAppend(a + " ", b);
    NonWsAppend(a, " ");
    assert NonWs(" ") == "";
  }

  /** The only white space in `s` is the plain space. */
  predicate SpacesOnly(s: string) {
    forall k :: 0 <= k < |s| && IsWs(s[k]) ==> s[k] == ' '
  }

  /** No two spaces in a row. */
  predicate NoDoubleSpace(s: string) {
    forall k :: 0 <= k < |s| - 1 ==> !(s[k] == ' ' && s[k + 1] == ' ')
  }

  /** `s.replace(/\s+/g, ' ')`: every maximal run of white space becomes one space. */
  function Collapse(s: string): (r: string)
    ensures SpacesOnly(r) && NoDoubleSpace(r)
    ensures |s| > 0 ==> |r| > 0 && r[0] == (if IsWs(s[0]) then ' ' else s[0])
    ensures |s| > 0 ==> r[|r| - 1] == (if IsWs(s[|s| - 1]) then ' ' else s[|s| - 1])
    decreases |s|
  {
    if |s| == 0 then ""
    else if IsWs(s[0]) then
      var t := TrimStart(s);
      assert |t| < |s|;
      " " + Collapse(t)
    else [s[0]] + Collapse(s[1..])
  }

  /** Collapsing keeps every character that is not white space, in order. */
  lemma {:induction false} CollapseKeepsText(s: string)
    ensures NonWs(Collapse(s)) == NonWs(s)
    decreases |s|
  {
    if |s| > 0 {
      if IsWs(s[0]) {
        var t := TrimStart(s);
        assert Collapse(s) == " " + Collapse(t);
        CollapseKeepsText(t);
        NonWsAppend(" ", Collapse(t));
        NonWsOfWs(" ");
        TrimStartKeepsText(s);
      } else {
        CollapseKeepsText(s[1..]);
        NonWsAppend([s[0]], Collapse(s[1..]));
      }
    }
  }

  /** A string in which spaces are the only white space and never come two in
      a row is its own collapse. */
  lemma {:induction false} CollapseOfCollapsed(s: string)
    requires SpacesOnly(s) && NoDoubleSpace(s)
    ensures Collapse(s) == s
    decreases |s|
  {
    if |s| > 0 {
      var t := s[1..];
      assert SpacesOnly(t) && NoDoubleSpace(t) by {
        forall k | 0 <= k < |t| && IsWs(t[k]) ensures t[k] == ' ' { assert t[k] == s[k + 1]; }
        forall k | 0 <= k < |t| - 1 ensures !(t[k] == ' ' && t[k + 1] == ' ') { assert t[k] == s[k + 1]; }
      }
      CollapseOfCollapsed(t);
      if IsWs(s[0]) {
        assert TrimStart(s) == t by {
          if |s| > 1 { assert !IsWs(s[1]); }
        }
        assert s == " " + t;
      } else {
        assert s == [s[0]] + t;
      }
    }
  }

  /** Trimming the start of `s + [x]`: what is left of `s`, then `x`, unless all
      of `s` and `x` itself are white space. */
  lemma {:induction false} TrimStartSnoc(s: string, x: char)
    ensures TrimStart(s + [x]) ==
      if TrimStart(s) != "" then TrimStart(s) + [x] else if IsWs(x) then "" else [x]
  {
    if |s| > 0 && IsWs(s[0]) {
      assert (s + [x])[1..] == s[1..] + [x];
      TrimStartSnoc(s[1..], x);
    } else if |s| == 0 {
      assert s + [x] == [x];
    }
  }

  /** Collapsing, one character at a time from the end: a character that is not
      white space is kept; a white-space character adds one space, unless the
      text before it already ends in white space. Together with
      `Collapse("") == ""` this determines `Collapse` on every string. */
  lemma {:induction false} CollapseSnoc(s: string, x: char)
    ensures !IsWs(x) ==> Collapse(s + [x]) == Collapse(s) + [x]
    ensures IsWs(x) ==>
      Collapse(s + [x]) == if |s| > 0 && IsWs(s[|s| - 1]) then Collapse(s) else Collapse(s) + " "
    decreases |s|
  {
    if |s| == 0 {
      assert s + [x] == [x];
      CollapseSingle(x);
    } else if !IsWs(s[0]) {
      CollapseSnoc(s[1..], x);
      CollapseSnocText(s, x);
    } else {
      var t := TrimStart(s);
      if t != "" {
        CollapseSnoc(t, x);
      }
      CollapseSnocWs(s, x);
    }
  }

  /** The step of `CollapseSnoc` past a first character that is not white space. */
  lemma CollapseSnocText(s: string, x: char)
    requires |s| > 0 && !IsWs(s[0])
    requires Collapse(s[1..] + [x]) == SnocCollapsed(s[1..], x)
    ensures Collapse(s + [x]) == SnocCollapsed(s, x)
  {
    var u := s[1..];
    DropSnoc(s, x);
    assert Collapse(s + [x]) == [s[0]] + Collapse(u + [x]);
    assert Collapse(s) == [s[0]] + Collapse(u);
    if |s| > 1 { LastOfDrop(s); }
    if !IsWs(x) {
      AppendAssoc([s[0]], Collapse(u), [x]);
    } else if !(|u| > 0 && IsWs(u[|u| - 1])) {
      AppendAssoc([s[0]], Collapse(u), " ");
    }
  }

  /** The step of `CollapseSnoc` past leading white space. */
  lemma CollapseSnocWs(s: string, x: char)
    requires |s| > 0 && IsWs(s[0])
    requires TrimStart(s) != "" ==> Collapse(TrimStart(s) + [x]) == SnocCollapsed(TrimStart(s), x)
    ensures Collapse(s + [x]) == SnocCollapsed(s, x)
  {
    var t := TrimStart(s);
    TrimStartSnoc(s, x);
    DropSnoc(s, x);
    assert Collapse(s) == " " + Collapse(t);
    if t != "" {
      assert Collapse(s + [x]) == " " + Collapse(t + [x]);
      TrimStartLast(s);
      if !IsWs(x) {
        AppendAssoc(" ", Collapse(t), [x]);
      } else if !IsWs(t[|t| - 1]) {
        AppendAssoc(" ", Collapse(t), " ");
      }
    } else if !IsWs(x) {
      assert Collapse(s + [x]) == " " + Collapse([x]);
      CollapseSingle(x);
      AppendEmpty(" ");
    } else {
      assert IsWs(s[|s| - 1]);
    }
  }

  lemma CollapseSingle(x: char)
    ensures Collapse([x]) == if IsWs(x) then " " else [x]
  {
    assert [x][1..] == "";
  }

  lemma TrimStartLast(s: string)
    requires TrimStart(s) != ""
    ensures TrimStart(s)[|TrimStart(s)| - 1] == s[|s| - 1]
  {
  }

  lemma DropSnoc(s: string, x: char)
    requires |s| > 0
    ensures (s + [x])[0] == s[0] && (s + [x])[1..] == s[1..] + [x]
  {
  }

  lemma LastOfDrop(s: string)
    requires |s| > 1
    ensures s[1..][|s| - 2] == s[|s| - 1]
  {
  }

  lemma AppendEmpty(a: string)
    ensures a + "" == a
  {
  }

  lemma AppendAssoc(a: string, b: string, c: string)
    ensures (a + b) + c == a + (b + c)
  {
  }

  /** What `CollapseSnoc` says `Collapse(s + [x])` is. */
  function SnocCollapsed(s: string, x: char): string
  {
    if !IsWs(x) then Collapse(s) + [x]
    else if |s| > 0 && IsWs(s[|s| - 1]) then Collapse(s)
    else Collapse(s) + " "
  }

  /** `parts.join(d)`. */
  function Join(parts: seq<string>, d: char): string
  {
    if |parts| == 0 then ""
    else if |parts| == 1 then parts[0]
    else parts[0] + [d] + Join(parts[1..], d)
  }

  /** `s.split(d)` for a one-character separator: the pieces between the separators. */
  function Split(s: string, d: char): (parts: seq<string>)
    ensures |parts| >= 1
    ensures forall k :: 0 <= k < |parts| ==> d !in parts[k]
  {
    if |s| == 0 then [""]
    else
      var rest := Split(s[1..], d);
      if s[0] == d then [""] + rest else [[s[0]] + rest[0]] + rest[1..]
  }

  /** Joining the pieces with the separator gives the text back. */
  lemma {:induction false} JoinSplit(s: string, d: char)
    ensures Join(Split(s, d), d) == s
  {
    if |s| > 0 {
      var rest := Split(s[1..], d);
      JoinSplit(s[1..], d);
      assert s == [s[0]] + s[1..];
      if s[0] == d {
        assert ([""] + rest)[1..] == rest;
      } else {
        var first := [s[0]] + rest[0];
        assert ([first] + rest[1..])[1..] == rest[1..];
        if |rest| > 1 {
          assert rest == [rest[0]] + rest[1..];
        }
      }
    }
  }

  /** A piece without the separator splits to itself. */
  lemma {:induction false} SplitWithout(a: string, d: char)
    requires d !in a
    ensures Split(a, d) == [a]
  {
    if |a| > 0 {
      SplitWithout(a[1..], d);
      assert [a[0]] + a[1..] == a;
    }
  }

  /** Splitting a separator-free head followed by the separator peels off that head. */
  lemma {:induction false} SplitAfter(a: string, d: char, b: string)
    requires d !in a
    ensures Split(a + [d] + b, d) == [a] + Split(b, d)
  {
    var s := a + [d] + b;
    if |a| == 0 {
      assert s[1..] == b;
    } else {
      assert s[1..] == a[1..] + [d] + b;
      SplitAfter(a[1..], d, b);
      assert [a[0]] + a[1..] == a;
    }
  }

  /** The parts, each followed by the separator: a file of lines. */
  function Terminated(parts: seq<string>, d: char): string
    decreases |parts|
  {
    if |parts| == 0 then "" else Terminated(parts[..|parts| - 1], d) + (parts[|parts| - 1] + [d])
  }

  /** Terminated parts followed by `tail` split back into those parts, then
      the pieces of `tail`. */
  lemma {:induction false} SplitTerminated(parts: seq<string>, d: char, tail: string)
    requires forall k :: 0 <= k < |parts| ==> d !in parts[k]
    ensures Split(Terminated(parts, d) + tail, d) == parts + Split(tail, d)
    decreases |parts|
  {
    if |parts| > 0 {
      var init, last := parts[..|parts| - 1], parts[|parts| - 1];
      assert forall k :: 0 <= k < |init| ==> init[k] == parts[k];
      SplitTerminated(init, d, last + [d] + tail);
      assert parts == init + [last];
      SplitTerminatedStep(init, last, d, tail);
    } else {
      assert Terminated(parts, d) + tail == tail;
    }
  }

  /** A separator-free head line, then terminated parts, then `tail`. */
  lemma SplitHeadThenTerminated(head: string, parts: seq<string>, d: char, tail: string)
    requires d !in head && forall k :: 0 <= k < |parts| ==> d !in parts[k]
    ensures Split(head + [d] + (Terminated(parts, d) + tail), d) == [head] + parts + Split(tail, d)
  {
    SplitTerminated(parts, d, tail);
    SplitAfter(head, d, Terminated(parts, d) + tail);
  }

  /** One more part: it splits off where its separator ends it. */
  lemma SplitTerminatedStep(init: seq<string>, last: string, d: char, tail: string)
    requires d !in last
    requires Split(Terminated(init, d) + (last + [d] + tail), d) == init + Split(last + [d] + tail, d)
    ensures Split(Terminated(init + [last], d) + tail, d) == init + [last] + Split(tail, d)
  {
    TerminatedSnoc(init, last, d, tail);
    SplitAfter(last, d, tail);
  }

  lemma TerminatedSnoc(init: seq<string>, last: string, d: char, tail: string)
    ensures Terminated(init + [last], d) + tail == Terminated(init, d) + (last + [d] + tail)
  {
    var parts := init + [last];
    assert parts[..|parts| - 1] == init;
  }

  /** The length JavaScript gives `s`: its UTF-16 code units, two for a
      character outside the Basic Multilingual Plane. */
  function Utf16Length(s: string): (n: nat)
    ensures |s| <= n <= 2 * |s|
  {
    if |s| == 0 then 0 else (if s[0] as int > 0xFFFF then 2 else 1) + Utf16Length(s[1..])
  }

  /** How many times `c` occurs in `s`. */
  function Occurrences(s: string, c: char): nat
  {
    if |s| == 0 then 0 else (if s[0] == c then 1 else 0) + Occurrences(s[1..], c)
  }

  lemma {:induction false} OccurrencesAppend(a: string, b: string, c: char)
    ensures Occurrences(a + b, c) == Occurrences(a, c) + Occurrences(b, c)
  {
    if |a| > 0 {
      assert (a + b)[1..] == a[1..] + b;
      OccurrencesAppend(a[1..], b, c);
    } else {
      assert a + b == b;
    }
  }

  lemma {:induction false} OccurrencesNone(a: string, c: char)
    requires c !in a
    ensures Occurrences(a, c) == 0
  {
    if |a| > 0 {
      assert a[0] != c;
      OccurrencesNone(a[1..], c);
    }
  }

  /** Joining separator-free parts puts one separator between each two. */
  lemma {:induction false} JoinOccurrences(parts: seq<string>, d: char)
    requires |parts| >= 1 && forall k :: 0 <= k < |parts| ==> d !in parts[k]
    ensures Occurrences(Join(parts, d), d) == |parts| - 1
  {
    OccurrencesNone(parts[0], d);
    if |parts| > 1 {
      JoinOccurrences(parts[1..], d);
      OccurrencesAppend(parts[0] + [d], Join(parts[1..], d), d);
      OccurrencesAppend(parts[0], [d], d);
    }
  }

  /** A join falls apart at any boundary between parts. */
  lemma {:induction false} JoinAt(parts: seq<string>, d: char, n: nat)
    requires 1 <= n < |parts|
    ensures Join(parts, d) == Join(parts[..n], d) + [d] + Join(parts[n..], d)
  {
    if n > 1 {
      JoinAt(parts[1..], d, n - 1);
      assert parts[1..][..n - 1] == parts[..n][1..];
      assert parts[1..][n - 1..] == parts[n..];
    } else {
      assert parts[..1] == [parts[0]];
      assert parts[1..] == parts[n..];
    }
  }

  /** `s.split(d).slice(0, n).join(d)`: the prefix of `s` holding its first `n`
      pieces. It is either all of `s` or is followed by a separator, and it has
      `n - 1` separators, or all of them when `s` has fewer. */
  lemma TakePieces(s: string, d: char, n: nat)
    requires n >= 1
    ensures var w := Split(s, d); var t := Join(w[..if n < |w| then n else |w|], d);
      |t| <= |s| && t == s[..|t|] && (t == s || s[|t|] == d) &&
      Occurrences(t, d) == if n - 1 < Occurrences(s, d) then n - 1 else Occurrences(s, d)
  {
    var w := Split(s, d);
    JoinSplit(s, d);
    JoinOccurrences(w, d);
    if n < |w| {
      JoinAt(w, d, n);
      JoinOccurrences(w[..n], d);
      var t := Join(w[..n], d);
      assert s == t + [d] + Join(w[n..], d);
      assert s[..|t|] == t;
    } else {
      assert w[..|w|] == w;
      JoinOccurrences(w, d);
    }
  }
}
