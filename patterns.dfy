/**
 * The regular expressions of the settlement pipeline, one model per pattern.
 * Each pattern is a shape predicate over the text plus the order in which a
 * backtracking matcher tries its choices (leftmost start first; greedy
 * quantifiers longest first; lazy ones shortest first). Working through the
 * quantifiers of each pattern leaves only a few real choices -- every other
 * quantifier has a single length that can lead to a match -- and the functions
 * below search exactly those choices in that order.
 *
 * The two copies of the pipeline (the browser's app.js and the Apps Script
 * Code.js) differ in the organisation-line pattern and in the literal of the
 * multi-line fallback; `Copy` selects one.
 */
module Patterns {
  import opened Wrappers
  import opened Text
  import opened Search

  datatype Copy = Browser | AppsScript

  /** The amount capture of `\s+([\d\s,.]+)` ended by a character outside the
      class at `p`, the white space beginning at `t`: the greedy `\s+` keeps the
      whole white-space prefix, unless that leaves the capture empty, when it
      hands the last white-space character to the capture. */
  function AmountSplit(s: string, t: nat, p: nat): (r: string)
    requires t < p <= |s|
    ensures |r| >= 1
  {
    var w := RunEnd(s, t, IsWs);
    if w < p then s[w..p] else s[p - 1..p]
  }

  /** Inside one run of `[\d\s,.]` the amount capture is of that class. */
  lemma AmountSplitClass(s: string, t: nat, p: nat)
    requires t <= |s| && t < p <= RunEnd(s, t, IsAmountChar)
    ensures All(AmountSplit(s, t, p), IsAmountChar)
  {
    RunEndAll(s, t, IsAmountChar);
    var w := RunEnd(s, t, IsWs);
    if w < p {
      RunSlice(s, w, p, IsAmountChar);
    } else {
      RunSlice(s, p - 1, p, IsAmountChar);
    }
  }

  // ---------------------------------------------------------------------------
  // Organisation lines.
  //   app.js:  /(\d+)\s+(.+?)\s+([\d\s,.]+)\s*kr\s*[,\-]+\s*(\d+)\s*%/gm
  //   Code.js: /(\d+)\s+(.+?)\s+([\d\s,.]+)\s+kr,-\s+(\d+)\s*%/gm
  // `(\d+)` must take the whole digit run (a `\s` follows), the first `\s+` and
  // the lazy name are real choices, and once the name ends at `c` the rest is
  // fixed: `kr` can only begin where the run of `[\d\s,.]` from `c` ends.
  // ---------------------------------------------------------------------------

  datatype LineMatch = LineMatch(start: nat, end: nat, gifts: string, name: string, amount: string, percent: string)

  predicate IsCommaOrDash(c: char) { c == ',' || c == '-' }

  /** `\s*[,\-]+\s*(\d+)\s*%` from `j`: the percentage digits and the end of the match. */
  function BrowserPercentTail(s: string, j: nat): (r: Option<(string, nat)>)
    requires j <= |s|
    ensures r.Some? ==> j < r.value.1 <= |s| && |r.value.0| >= 1
    ensures r.Some? ==> All(r.value.0, IsDigit)
  {
    var j1 := RunEnd(s, j, IsWs);
    var j2 := RunEnd(s, j1, IsCommaOrDash);
    var j3 := RunEnd(s, j2, IsWs);
    var j4 := RunEnd(s, j3, IsDigit);
    var j5 := RunEnd(s, j4, IsWs);
    if j2 > j1 && j4 > j3 && j5 < |s| && s[j5] == '%' then
      RunEndSlice(s, j3, IsDigit);
      Some((s[j3..j4], j5 + 1))
    else None
  }

  /** `\s+(\d+)\s*%` from `j`. */
  function ScriptPercentTail(s: string, j: nat): (r: Option<(string, nat)>)
    requires j <= |s|
    ensures r.Some? ==> j < r.value.1 <= |s| && |r.value.0| >= 1
    ensures r.Some? ==> All(r.value.0, IsDigit)
  {
    var j1 := RunEnd(s, j, IsWs);
    var j2 := RunEnd(s, j1, IsDigit);
    var j3 := RunEnd(s, j2, IsWs);
    if j1 > j && j2 > j1 && j3 < |s| && s[j3] == '%' then
      RunEndSlice(s, j1, IsDigit);
      Some((s[j1..j2], j3 + 1))
    else None
  }

  /** The rest of the line pattern once the lazy name ends at `c`: for app.js
      `\s+([\d\s,.]+)\s*kr` and the percentage tail, for Code.js
      `\s+([\d\s,.]+)\s+kr,-` and its tail. It gives where the run that holds
      the amount capture ends, the percentage digits and the end of the match. */
  function LineTail(copy: Copy, s: string, c: nat): (r: Option<(nat, string, nat)>)
    requires c <= |s|
    ensures r.Some? ==> c < |s| && IsWs(s[c]) && c + 2 <= r.value.0 <= RunEnd(s, c, IsAmountChar)
    ensures r.Some? ==> r.value.0 < r.value.2 <= |s| && |r.value.1| >= 1 && All(r.value.1, IsDigit)
  {
    if c < |s| && IsWs(s[c]) then
      var p := RunEnd(s, c, IsAmountChar);
      match copy
      case Browser =>
        if p >= c + 2 && LitAt(s, p, "kr") then
          match BrowserPercentTail(s, p + 2)
          case None => None
          case Some((pct, e)) => Some((p, pct, e))
        else None
      case AppsScript =>
        if p >= c + 3 && IsWs(s[p - 1]) && LitAt(s, p, "kr,-") then
          match ScriptPercentTail(s, p + 4)
          case None => None
          case Some((pct, e)) => Some((p - 1, pct, e))
        else None
    else None
  }

  /** Whether the rest of the line pattern matches once the name ends at `c`. */
  predicate LineTailAt(copy: Copy, s: string, c: nat) {
    c <= |s| && LineTail(copy, s, c).Some?
  }

  /** The match built once the name is known to run over `s[b..c]`. */
  function LineFrom(copy: Copy, s: string, i: nat, a: nat, b: nat, c: nat): (m: LineMatch)
    requires i <= a <= b <= c <= |s| && LineTailAt(copy, s, c)
    ensures m.start == i && c < m.end <= |s|
    ensures m.gifts == s[i..a] && m.name == s[b..c]
    ensures |m.percent| >= 1 && All(m.percent, IsDigit)
    ensures All(m.amount, IsAmountChar)
  {
    var (q, pct, e) := LineTail(copy, s, c).value;
    AmountSplitClass(s, c, q);
    LineMatch(i, e, s[i..a], s[b..c], AmountSplit(s, c, q), pct)
  }

  /** The split of a line match at `i` into its digit run `s[i..a]` and the
      first `(b, c)` (name `s[b..c]`) in backtracking order. */
  function LineSplit(copy: Copy, s: string, i: nat): (r: Option<(nat, nat)>)
    requires i <= |s|
    ensures r.Some? ==> i < RunEnd(s, i, IsDigit) < r.value.0 <= |s|
    ensures r.Some? ==> r.value.0 < r.value.1 <= RunEnd(s, r.value.0, NotLineTerminator)
    ensures r.Some? ==> LineTailAt(copy, s, r.value.1)
  {
    var a := RunEnd(s, i, IsDigit);
    if a == i then None else WsThenLazy(s, a, NotLineTerminator, (c: nat) => LineTailAt(copy, s, c))
  }

  /** The line pattern at `i`, or None. */
  function LineAt(copy: Copy, s: string, i: nat): (r: Option<LineMatch>)
    requires i <= |s|
    ensures r.Some? ==> r.value.start == i && i < r.value.end <= |s|
    ensures r.Some? ==> |r.value.gifts| >= 1 && All(r.value.gifts, IsDigit)
    ensures r.Some? ==> |r.value.percent| >= 1 && All(r.value.percent, IsDigit)
    ensures r.Some? ==> |r.value.name| >= 1 && All(r.value.name, NotLineTerminator)
    ensures r.Some? ==> All(r.value.amount, IsAmountChar)
    ensures r.None? <==> LineSplit(copy, s, i).None?
  {
    match LineSplit(copy, s, i)
    case None => None
    case Some((b, c)) =>
      var a := RunEnd(s, i, IsDigit);
      RunEndSlice(s, i, IsDigit);
      RunEndAll(s, b, NotLineTerminator);
      RunSlice(s, b, c, NotLineTerminator);
      Some(LineFrom(copy, s, i, a, b, c))
  }

  /** Where a line match ends: `lastIndex` after it. */
  function LineEnd(m: LineMatch): nat { m.end }

  /** The line pattern tried at every position of `s`. */
  function LineMatcher(copy: Copy, s: string): nat -> Option<LineMatch>
  {
    (i: nat) => if i <= |s| then LineAt(copy, s, i) else None
  }

  lemma MatcherIsLineAt(copy: Copy, s: string)
    ensures forall i :: 0 <= i <= |s| ==> LineMatcher(copy, s)(i) == LineAt(copy, s, i)
  {
  }

  /** Each line match ends after it starts, so a global scan moves on. */
  lemma LineMatcherAdvances(copy: Copy, s: string)
    ensures Advances(LineMatcher(copy, s), LineEnd, |s|)
  {
    MatcherIsLineAt(copy, s);
  }

  // ---------------------------------------------------------------------------
  // The multi-line fallback (both copies):
  //   /(?:%|\btotalbeløp)\s(\D+?)\n\d*\s\n(\D+?)\s+kr\s+([\d\s,.]+)-\s\d+\s/g
  // The lead is fixed by its first character, `\d*` and the `\s+` before `kr`
  // must take their whole runs, and the amount run must end at the dash, so the
  // two lazy names are the only choices.
  // ---------------------------------------------------------------------------

  datatype WrapMatch = WrapMatch(start: nat, end: nat, first: string, second: string, amount: string)

  /** The literal of the second lead alternative. The browser copy writes
      `totalbeløp`; the Apps Script copy holds the two characters that the UTF-8
      bytes of `ø` read as Latin-1 (`Ã` and `¸`). */
  function TotalLiteral(copy: Copy): (lit: string)
    ensures |lit| >= 1 && lit[0] == 't'
  {
    match copy
    case Browser => "totalbel\U{F8}p"
    case AppsScript => "totalbel\U{C3}\U{B8}p"
  }

  /** `\b` in front of a word character at `i`. */
  predicate WordStart(s: string, i: nat) {
    i == 0 || (i <= |s| && !IsWordChar(s[i - 1]))
  }

  /** The end of `(?:%|\btotalbeløp)` at `i`. */
  function LeadEnd(copy: Copy, s: string, i: nat): (r: Option<nat>)
    requires i <= |s|
    ensures r.Some? ==> i < r.value <= |s|
    ensures r.Some? <==> (i < |s| && s[i] == '%') || (WordStart(s, i) && LitAt(s, i, TotalLiteral(copy)))
  {
    if i < |s| && s[i] == '%' then Some(i + 1)
    else if WordStart(s, i) && LitAt(s, i, TotalLiteral(copy)) then Some(i + |TotalLiteral(copy)|)
    else None
  }

  /** `\s+kr\s+([\d\s,.]+)-\s\d+\s` from `e`: the start `t` of the white space
      after `kr`, the dash `p` that ends the amount run, and the end of the match. */
  function AmountTail(s: string, e: nat): (r: Option<(nat, nat, nat)>)
    requires e <= |s|
    ensures r.Some? ==> e < r.value.0 && r.value.0 + 2 <= r.value.1 < r.value.2 <= |s|
    ensures r.Some? ==> All(AmountSplit(s, r.value.0, r.value.1), IsAmountChar)
  {
    var q := RunEnd(s, e, IsWs);
    var t := q + 2;
    if q == e || !LitAt(s, q, "kr") || t >= |s| || !IsWs(s[t]) then None
    else
      var p := RunEnd(s, t, IsAmountChar);
      if p < t + 2 || p + 1 >= |s| || s[p] != '-' || !IsWs(s[p + 1]) then None
      else
        var d := RunEnd(s, p + 2, IsDigit);
        if d == p + 2 || d >= |s| || !IsWs(s[d]) then None
        else
          AmountSplitClass(s, t, p);
          Some((t, p, d + 1))
  }

  /** `\n\d*\s\n` from `e`: where the second name starts. */
  function BreakEnd(s: string, e: nat): (r: Option<nat>)
    requires e <= |s|
    ensures r.Some? ==> e + 2 <= r.value <= |s| && s[e] == '\n'
  {
    if e < |s| && s[e] == '\n' then
      var f := RunEnd(s, e + 1, IsDigit);
      if f + 1 < |s| && IsWs(s[f]) && s[f + 1] == '\n' then Some(f + 2) else None
    else None
  }

  /** Whether the amount tail matches from `c`. */
  predicate AmountTailAt(s: string, c: nat) {
    c <= |s| && AmountTail(s, c).Some?
  }

  /** The end of the lazy second name `(\D+?)` that starts at `g`. */
  function SecondEnd(s: string, g: nat): (r: Option<nat>)
    requires g <= |s|
    ensures r.Some? ==> g < r.value <= |s| && AmountTailAt(s, r.value)
    ensures r.Some? ==> All(s[g..r.value], NotDigit)
  {
    var r := LazyEnd(s, g, NotDigit, (c: nat) => AmountTailAt(s, c));
    if r.None? then r
    else
      RunEndAll(s, g, NotDigit);
      RunSlice(s, g, r.value, NotDigit);
      r
  }

  /** Whether everything after the first name matches once that name ends at `c`. */
  predicate BreakTailAt(s: string, c: nat) {
    c <= |s| && BreakEnd(s, c).Some? && SecondEnd(s, BreakEnd(s, c).value).Some?
  }

  /** The match built once the first name is known to run over `s[b..e1]`. */
  function WrapFrom(s: string, i: nat, b: nat, e1: nat): (m: WrapMatch)
    requires i < b < e1 <= |s| && BreakTailAt(s, e1) && All(s[b..e1], NotDigit)
    ensures m.start == i && e1 < m.end <= |s| && m.first == s[b..e1]
    ensures |m.second| >= 1 && All(m.second, NotDigit)
    ensures All(m.amount, IsAmountChar)
  {
    var g := BreakEnd(s, e1).value;
    var e2 := SecondEnd(s, g).value;
    var tail := AmountTail(s, e2).value;
    WrapMatch(i, tail.2, s[b..e1], s[g..e2], AmountSplit(s, tail.0, tail.1))
  }

  /** Where the first name of a fallback match at `i` starts and ends. */
  function WrapSplit(copy: Copy, s: string, i: nat): (r: Option<(nat, nat)>)
    requires i <= |s|
    ensures r.Some? ==> i < r.value.0 < r.value.1 <= |s| && BreakTailAt(s, r.value.1)
    ensures r.Some? ==> All(s[r.value.0..r.value.1], NotDigit)
  {
    match LeadEnd(copy, s, i)
    case None => None
    case Some(j) =>
      if j >= |s| || !IsWs(s[j]) then None
      else
        match LazyEnd(s, j + 1, NotDigit, (c: nat) => BreakTailAt(s, c))
        case None => None
        case Some(e1) =>
          RunEndAll(s, j + 1, NotDigit);
          RunSlice(s, j + 1, e1, NotDigit);
          Some((j + 1, e1))
  }

  /** The fallback pattern at `i`, or None. */
  function WrapAt(copy: Copy, s: string, i: nat): (r: Option<WrapMatch>)
    requires i <= |s|
    ensures r.Some? ==> r.value.start == i && i < r.value.end <= |s|
    ensures r.Some? ==> |r.value.first| >= 1 && All(r.value.first, NotDigit)
    ensures r.Some? ==> |r.value.second| >= 1 && All(r.value.second, NotDigit)
    ensures r.Some? ==> All(r.value.amount, IsAmountChar)
    ensures r.None? <==> WrapSplit(copy, s, i).None?
  {
    match WrapSplit(copy, s, i)
    case None => None
    case Some((b, e1)) => Some(WrapFrom(s, i, b, e1))
  }

  /** Where a fallback match ends: `lastIndex` after it. */
  function WrapEnd(m: WrapMatch): nat { m.end }

  /** The fallback pattern tried at every position of `s`. */
  function WrapMatcher(copy: Copy, s: string): nat -> Option<WrapMatch>
  {
    (i: nat) => if i <= |s| then WrapAt(copy, s, i) else None
  }

  lemma MatcherIsWrapAt(copy: Copy, s: string)
    ensures forall i :: 0 <= i <= |s| ==> WrapMatcher(copy, s)(i) == WrapAt(copy, s, i)
  {
  }

  /** Each fallback match ends after it starts, so a global scan moves on. */
  lemma WrapMatcherAdvances(copy: Copy, s: string)
    ensures Advances(WrapMatcher(copy, s), WrapEnd, |s|)
  {
    MatcherIsWrapAt(copy, s);
  }

  // ---------------------------------------------------------------------------
  // The cost contribution (both copies):
  //   /Kostnadsbidrag\stil\sGi\sGaven\sVidere\s+([\d\s,.]+)\s*kr/i
  // and, on the first line holding the exact name, /([\d\s,.]+)\s*kr/.
  // In both, `kr` can only begin where the run of `[\d\s,.]` ends.
  // ---------------------------------------------------------------------------

  const CostName := "Kostnadsbidrag til Gi Gaven Videre"

  /** What a character of the text must agree with under the cost pattern:
      white space stands for `\s`, and letters compare without case. */
  function PhraseKey(c: char): char {
    if IsWs(c) then ' ' else AsciiUpper(c)
  }

  /** The name from its `k`-th character on agrees with the text from `i + k` on. */
  predicate PhraseFrom(s: string, i: nat, k: nat)
    decreases |CostName| - k
  {
    k >= |CostName| || (i + k < |s| && PhraseKey(s[i + k]) == PhraseKey(CostName[k]) && PhraseFrom(s, i, k + 1))
  }

  /** The name at `i` under the `i` flag, every space of it standing for one `\s`
      (the name's only white space is its spaces, and its other characters are
      letters). */
  predicate CostPhraseAt(s: string, i: nat) {
    i + |CostName| <= |s| && PhraseFrom(s, i, 0)
  }

  /** The amount capture of the cost pattern at `i`, or None. */
  function CostAt(s: string, i: nat): (r: Option<string>)
    requires i <= |s|
    ensures r.Some? ==> CostPhraseAt(s, i) && |r.value| >= 1 && All(r.value, IsAmountChar)
  {
    var t := i + |CostName|;
    if CostPhraseAt(s, i) && t < |s| && IsWs(s[t]) then
      var p := RunEnd(s, t, IsAmountChar);
      if p >= t + 2 && LitAtCI(s, p, "KR") then
        AmountSplitClass(s, t, p);
        Some(AmountSplit(s, t, p))
      else None
    else None
  }

  /** The cost pattern tried at every position of `s`. */
  function CostMatcher(s: string): nat -> Option<string>
  {
    (i: nat) => if i <= |s| then CostAt(s, i) else None
  }

  /** `s.match(costPattern)`: the leftmost start of the cost pattern and its capture. */
  function FindCost(s: string): (r: Option<(nat, string)>)
    ensures r.Some? ==> r.value.0 <= |s| && CostAt(s, r.value.0) == Some(r.value.1)
  {
    Leftmost(CostMatcher(s), 0, |s|)
  }

  /** No match starts before the one found, and there is none at all when the
      search returns None. */
  lemma FindCostIsLeftmost(s: string)
    ensures FindCost(s).Some? ==> forall i :: 0 <= i < FindCost(s).value.0 ==> CostAt(s, i).None?
    ensures FindCost(s).None? <==> forall i :: 0 <= i <= |s| ==> CostAt(s, i).None?
  {
    LeftmostIsFirst(CostMatcher(s), 0, |s|);
    MatcherIsCostAt(s);
  }

  lemma MatcherIsCostAt(s: string)
    ensures forall i :: 0 <= i <= |s| ==> CostMatcher(s)(i) == CostAt(s, i)
  {
  }

  /** `([\d\s,.]+)\s*kr` at `i` of a line: the capture's end, right before `kr`. */
  function KrAmountAt(line: string, i: nat): (r: Option<nat>)
    requires i <= |line|
    ensures r.Some? ==> i < r.value <= |line| && LitAt(line, r.value, "kr")
    ensures r.Some? ==> All(line[i..r.value], IsAmountChar)
  {
    if i < |line| && IsAmountChar(line[i]) then
      var p := RunEnd(line, i, IsAmountChar);
      RunEndSlice(line, i, IsAmountChar);
      if LitAt(line, p, "kr") then Some(p) else None
    else None
  }

  /** `/([\d\s,.]+)\s*kr/` tried at every position of a line. */
  function KrAmountMatcher(line: string): nat -> Option<nat>
  {
    (i: nat) => if i <= |line| then KrAmountAt(line, i) else None
  }

  /** `line.match(/([\d\s,.]+)\s*kr/)`: the bounds of the leftmost capture. */
  function FindKrAmount(line: string): (r: Option<(nat, nat)>)
    ensures r.Some? ==> r.value.0 <= |line| && KrAmountAt(line, r.value.0) == Some(r.value.1)
  {
    Leftmost(KrAmountMatcher(line), 0, |line|)
  }

  /** No match starts before the one found, and there is none at all when the
      search returns None. */
  lemma FindKrAmountIsLeftmost(line: string)
    ensures FindKrAmount(line).Some? ==> forall i :: 0 <= i < FindKrAmount(line).value.0 ==> KrAmountAt(line, i).None?
    ensures FindKrAmount(line).None? <==> forall i :: 0 <= i <= |line| ==> KrAmountAt(line, i).None?
  {
    LeftmostIsFirst(KrAmountMatcher(line), 0, |line|);
    MatcherIsKrAmountAt(line);
  }

  lemma MatcherIsKrAmountAt(line: string)
    ensures forall i :: 0 <= i <= |line| ==> KrAmountMatcher(line)(i) == KrAmountAt(line, i)
  {
  }

  /** Whether line `k` holds the exact cost name. */
  function CostLineMatcher(lines: seq<string>): nat -> Option<string>
  {
    (k: nat) => if k < |lines| && Contains(lines[k], CostName) then Some(lines[k]) else None
  }

  /** `lines.find(line => line.includes(name))`: the first line holding the exact
      cost name, with its index. */
  function FindCostLine(lines: seq<string>): (r: Option<(nat, string)>)
    ensures r.Some? ==> r.value.0 < |lines| && r.value.1 == lines[r.value.0] && Contains(r.value.1, CostName)
  {
    Leftmost(CostLineMatcher(lines), 0, |lines|)
  }

  /** No earlier line holds the name, and None means that no line does. */
  lemma FindCostLineIsFirst(lines: seq<string>)
    ensures FindCostLine(lines).Some? ==> forall k :: 0 <= k < FindCostLine(lines).value.0 ==> !Contains(lines[k], CostName)
    ensures FindCostLine(lines).None? <==> forall k :: 0 <= k < |lines| ==> !Contains(lines[k], CostName)
  {
    LeftmostIsFirst(CostLineMatcher(lines), 0, |lines|);
    MatcherIsCostLine(lines);
  }

  lemma MatcherIsCostLine(lines: seq<string>)
    ensures forall k :: 0 <= k < |lines| ==> CostLineMatcher(lines)(k).Some? == Contains(lines[k], CostName)
  {
  }
}
