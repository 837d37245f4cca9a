/**
 * `extractSumFromPDFText` (the same in both copies): the total of the primary
 * `Totalsum|Total` pattern when it matches anywhere in the text; otherwise the
 * total on the last line that has a digit-led amount followed by `kr`;
 * otherwise null. The value is the capture with its white space removed and
 * its first comma made a point, read by `parseFloat`.
 */
module Totals {
  import opened Wrappers
  import opened Text
  import opened Numbers
  import opened Search
  import opened SumPatterns

  /** The last element, scanning from the end, on which `F` gives a value:
      its index and that value. */
  function LastWith<T>(lines: seq<string>, F: string -> Option<T>): (r: Option<(nat, T)>)
    ensures r.Some? ==> r.value.0 < |lines| && F(lines[r.value.0]) == Some(r.value.1)
    decreases |lines|
  {
    if |lines| == 0 then None
    else
      var k := |lines| - 1;
      match F(lines[k])
      case Some(x) => Some((k, x))
      case None => LastWith(lines[..k], F)
  }

  /** The element found is the last one with a value, and None means that no
      element has one. */
  lemma {:induction false} LastWithIsLast<T>(lines: seq<string>, F: string -> Option<T>)
    ensures LastWith(lines, F).Some? ==>
      forall j :: LastWith(lines, F).value.0 < j < |lines| ==> F(lines[j]).None?
    ensures LastWith(lines, F).None? <==> forall j :: 0 <= j < |lines| ==> F(lines[j]).None?
    decreases |lines|
  {
    if |lines| > 0 {
      var k := |lines| - 1;
      if F(lines[k]).None? {
        LastWithIsLast(lines[..k], F);
        assert forall j :: 0 <= j < k ==> lines[..k][j] == lines[j];
      }
    }
  }

  /** `for (const line of lines.reverse()) { const m = F(line); if (m) return m; }`:
      the elements from the last one back, stopping at the first with a value. */
  method FromEnd<T>(lines: seq<string>, F: string -> Option<T>) returns (r: Option<(nat, T)>)
    ensures r == LastWith(lines, F)
  {
    var k := |lines|;
    assert lines[..k] == lines;
    while k > 0
      invariant k <= |lines|
      invariant LastWith(lines, F) == LastWith(lines[..k], F)
      decreases k
    {
      var x := F(lines[k - 1]);
      if x.Some? {
        assert lines[..k][k - 1] == lines[k - 1];
        return Some((k - 1, x.value));
      }
      assert lines[..k][..k - 1] == lines[..k - 1];
      k := k - 1;
    }
    return None;
  }

  /** The last line that holds the line pattern: its index and its capture. */
  function LastLineTotal(lines: seq<string>): Option<(nat, string)>
  {
    LastWith(lines, LineTotalCapture)
  }

  /** What `extractSumFromPDFText` returns: None stands for `null`. */
  function Sum(s: string): Option<real>
  {
    match TotalCapture(s)
    case Some(cap) => SumValue(cap)
    case None =>
      match LastLineTotal(Split(s, '\n'))
      case None => None
      case Some((_, cap)) => SumValue(cap)
  }

  /** `extractSumFromPDFText`: the primary pattern, then the lines of the text
      from the last one back, returning at the first line that matches. */
  method ExtractSum(text: string) returns (sum: Option<real>)
    ensures sum == Sum(text)
  {
    var cap := TotalCapture(text);
    if cap.Some? {
      return SumValue(cap.value);
    }
    var alt := FromEnd(Split(text, '\n'), LineTotalCapture);
    if alt.Some? {
      return SumValue(alt.value.1);
    }
    return None;
  }

  /** The primary pattern matches nowhere in the text. */
  predicate NoTotalMatch(s: string) {
    forall i :: 0 <= i <= |s| ==> TotalAt(s, i).None?
  }

  /** The line pattern matches nowhere in any line. */
  predicate NoLineTotalMatch(lines: seq<string>) {
    forall j, i :: 0 <= j < |lines| && 0 <= i <= |lines[j]| ==> LineTotalAt(lines[j], i).None?
  }

  /** The result is null exactly when the primary pattern matches nowhere and
      no line holds the line pattern. */
  lemma SumNone(s: string)
    ensures Sum(s).None? <==> NoTotalMatch(s) && NoLineTotalMatch(Split(s, '\n'))
  {
    var lines := Split(s, '\n');
    assert Sum(s).None? <==> TotalCapture(s).None? && LastLineTotal(lines).None? by {
      match TotalCapture(s)
      case Some(cap) => SumValueOfDigitLed(cap);
      case None =>
        match LastLineTotal(lines)
        case None =>
        case Some((_, cap)) => SumValueOfDigitLed(cap);
    }
    assert TotalCapture(s).None? <==> NoTotalMatch(s) by {
      TotalCaptureNone(s);
    }
    assert LastLineTotal(lines).None? <==> NoLineTotalMatch(lines) by {
      LastWithIsLast(lines, LineTotalCapture);
      forall j | 0 <= j < |lines| {
        LineTotalCaptureNone(lines[j]);
      }
    }
  }

  /** A non-null result is at least zero: every capture starts with a digit. */
  lemma SumNonNegative(s: string)
    ensures Sum(s).Some? ==> Sum(s).value >= 0.0
  {
    match TotalCapture(s)
    case Some(cap) => SumValueOfDigitLed(cap);
    case None =>
      match LastLineTotal(Split(s, '\n'))
      case None =>
      case Some((_, cap)) => SumValueOfDigitLed(cap);
  }

  /** When the primary pattern matches nowhere, the total comes from the last
      line of the text that holds the line pattern. */
  lemma SumFromLastLine(s: string)
    requires TotalCapture(s).None? && LastLineTotal(Split(s, '\n')).Some?
    ensures var (k, cap) := LastLineTotal(Split(s, '\n')).value;
      Sum(s) == SumValue(cap) && LineTotalCapture(Split(s, '\n')[k]) == Some(cap) &&
      forall j :: k < j < |Split(s, '\n')| ==> LineTotalCapture(Split(s, '\n')[j]).None?
  {
    LastWithIsLast(Split(s, '\n'), LineTotalCapture);
  }
}
