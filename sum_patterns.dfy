/**
 * The two patterns that find the settlement total (identical in both copies):
 *   /(Totalsum|Total)\s*(kr\s*)?(\d[\d\s,.]+)(\s*kr)?/i   over the whole text,
 *   /(\d[\d\s,.]+)\s*kr/                                  on one line.
 * In the first, `\s*` must take its whole run (what follows is a letter or a
 * digit), the optional `kr\s*` is tried before it is skipped, the greedy
 * capture takes the whole run of `[\d\s,.]`, and the trailing `(\s*kr)?` can
 * always match empty, so it never constrains the capture. In the second, `kr`
 * can only begin where the run of `[\d\s,.]` ends.
 */
module SumPatterns {
  import opened Wrappers
  import opened Text
  import opened Search

  /** `\d[\d\s,.]+` at `d`: the end of the capture, or None. */
  function DigitRunEnd(s: string, d: nat): (r: Option<nat>)
    requires d <= |s|
    ensures r.Some? ==> d + 2 <= r.value <= |s| && IsDigit(s[d])
    ensures r.Some? ==> All(s[d..r.value], IsAmountChar)
    ensures r.Some? ==> r.value == |s| || !IsAmountChar(s[r.value])
  {
    if d < |s| && IsDigit(s[d]) then
      var e := RunEnd(s, d + 1, IsAmountChar);
      RunEndAll(s, d + 1, IsAmountChar);
      RunSlice(s, d, e, IsAmountChar);
      if e >= d + 2 then Some(e) else None
    else None
  }

  /** `\s*(kr\s*)?(\d[\d\s,.]+)` from `x`: the bounds of the capture. */
  function AfterLabel(s: string, x: nat): (r: Option<(nat, nat)>)
    requires x <= |s|
    ensures r.Some? ==> x <= r.value.0 && r.value.0 + 2 <= r.value.1 <= |s| && IsDigit(s[r.value.0])
    ensures r.Some? ==> All(s[r.value.0..r.value.1], IsAmountChar)
  {
    var m := RunEnd(s, x, IsWs);
    if LitAtCI(s, m, "KR") && DigitRunEnd(s, RunEnd(s, m + 2, IsWs)).Some? then
      var d := RunEnd(s, m + 2, IsWs);
      Some((d, DigitRunEnd(s, d).value))
    else
      match DigitRunEnd(s, m)
      case None => None
      case Some(e) => Some((m, e))
  }

  /** The total pattern at `i`: `Totalsum` is tried before `Total`. */
  function TotalAt(s: string, i: nat): (r: Option<(nat, nat)>)
    requires i <= |s|
    ensures r.Some? ==> LitAtCI(s, i, "TOTAL") && i + 5 <= r.value.0
    ensures r.Some? ==> r.value.0 + 2 <= r.value.1 <= |s| && IsDigit(s[r.value.0])
    ensures r.Some? ==> All(s[r.value.0..r.value.1], IsAmountChar)
  {
    if LitAtCI(s, i, "TOTALSUM") && AfterLabel(s, i + 8).Some? then
      assert s[i..i + 5] == s[i..i + 8][..5];
      assert AsciiUpperAll(s[i..i + 5]) == AsciiUpperAll(s[i..i + 8])[..5] by {
        AsciiUpperAllPrefix(s[i..i + 8], 5);
      }
      AfterLabel(s, i + 8)
    else if LitAtCI(s, i, "TOTAL") then AfterLabel(s, i + 5)
    else None
  }

  lemma {:induction false} AsciiUpperAllPrefix(t: string, n: nat)
    requires n <= |t|
    ensures AsciiUpperAll(t[..n]) == AsciiUpperAll(t)[..n]
  {
    if n > 0 {
      assert t[..n][1..] == t[1..][..n - 1];
      AsciiUpperAllPrefix(t[1..], n - 1);
    }
  }

  /** The total pattern tried at every position of `s`. */
  function TotalMatcher(s: string): nat -> Option<(nat, nat)>
  {
    (i: nat) => if i <= |s| then TotalAt(s, i) else None
  }

  /** No match starts before `i`, and None means there is none at all. */
  lemma FindTotalIsLeftmost(s: string)
    ensures Leftmost(TotalMatcher(s), 0, |s|).Some? ==>
      var i := Leftmost(TotalMatcher(s), 0, |s|).value.0;
      i <= |s| && TotalAt(s, i).Some? && forall j :: 0 <= j < i ==> TotalAt(s, j).None?
    ensures Leftmost(TotalMatcher(s), 0, |s|).None? <==> forall i :: 0 <= i <= |s| ==> TotalAt(s, i).None?
  {
    LeftmostIsFirst(TotalMatcher(s), 0, |s|);
    MatcherIsTotalAt(s);
  }

  lemma MatcherIsTotalAt(s: string)
    ensures forall i :: 0 <= i <= |s| ==> TotalMatcher(s)(i) == TotalAt(s, i)
  {
  }

  /** The total capture of `s.match(sumPattern)`, or None. */
  function TotalCapture(s: string): (r: Option<string>)
    ensures r.Some? ==> |r.value| >= 2 && IsDigit(r.value[0]) && All(r.value, IsAmountChar)
  {
    match Leftmost(TotalMatcher(s), 0, |s|)
    case None => None
    case Some((i, de)) =>
      var (d, e) := TotalAt(s, i).value;
      Some(s[d..e])
  }

  /** The capture is None exactly when the pattern matches nowhere. */
  lemma TotalCaptureNone(s: string)
    ensures TotalCapture(s).None? <==> forall i :: 0 <= i <= |s| ==> TotalAt(s, i).None?
  {
    FindTotalIsLeftmost(s);
  }

  /** `(\d[\d\s,.]+)\s*kr` at `i` of a line: the capture's end, right before `kr`. */
  function LineTotalAt(line: string, i: nat): (r: Option<nat>)
    requires i <= |line|
    ensures r.Some? ==> DigitRunEnd(line, i) == r && LitAt(line, r.value, "kr")
  {
    var e := DigitRunEnd(line, i);
    if e.Some? && LitAt(line, e.value, "kr") then e else None
  }

  /** The line pattern tried at every position of a line. */
  function LineTotalMatcher(line: string): nat -> Option<nat>
  {
    (i: nat) => if i <= |line| then LineTotalAt(line, i) else None
  }

  /** No match starts before `i`, and None means there is none at all. */
  lemma FindLineTotalIsLeftmost(line: string)
    ensures Leftmost(LineTotalMatcher(line), 0, |line|).Some? ==>
      var i := Leftmost(LineTotalMatcher(line), 0, |line|).value.0;
      i <= |line| && LineTotalAt(line, i).Some? && forall j :: 0 <= j < i ==> LineTotalAt(line, j).None?
    ensures Leftmost(LineTotalMatcher(line), 0, |line|).None? <==> forall i :: 0 <= i <= |line| ==> LineTotalAt(line, i).None?
  {
    LeftmostIsFirst(LineTotalMatcher(line), 0, |line|);
    MatcherIsLineTotalAt(line);
  }

  lemma MatcherIsLineTotalAt(line: string)
    ensures forall i :: 0 <= i <= |line| ==> LineTotalMatcher(line)(i) == LineTotalAt(line, i)
  {
  }

  /** The capture of `line.match(/(\d[\d\s,.]+)\s*kr/)`, or None. */
  function LineTotalCapture(line: string): (r: Option<string>)
    ensures r.Some? ==> |r.value| >= 2 && IsDigit(r.value[0]) && All(r.value, IsAmountChar)
  {
    match Leftmost(LineTotalMatcher(line), 0, |line|)
    case None => None
    case Some((i, e)) => Some(line[i..e])
  }

  /** The capture is None exactly when the pattern matches nowhere in the line. */
  lemma LineTotalCaptureNone(line: string)
    ensures LineTotalCapture(line).None? <==> forall i :: 0 <= i <= |line| ==> LineTotalAt(line, i).None?
  {
    FindLineTotalIsLeftmost(line);
  }
}
