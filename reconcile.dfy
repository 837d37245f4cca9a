/**
 * `calculateTotal` and the three-way verdict that compares it with the total
 * read from the text: the total missing, a difference above 0.01, or success.
 * The browser copy lets an empty `number` add 0 (`parseFloat(number || 0)`);
 * the Apps Script copy reads `parseFloat(number)`, and one NaN makes the whole
 * total NaN (None here).
 */
module Reconcile {
  import opened Wrappers
  import opened Text
  import opened Numbers
  import opened Patterns
  import opened Extraction
  import opened Totals
  import opened SumPatterns

  /** What one record adds to the total. */
  function Amount(copy: Copy, c: Company): Option<real>
  {
    if copy == Browser && c.number == "" then Some(0.0) else ParseFloat(c.number)
  }

  /** `companies.reduce((acc, c) => acc + amount(c), 0)` for the addend `F`,
      from the left; None once an addend is NaN. */
  function Fold(cs: seq<Company>, F: Company -> Option<real>): Option<real>
    decreases |cs|
  {
    if |cs| == 0 then Some(0.0)
    else
      match (Fold(cs[..|cs| - 1], F), F(cs[|cs| - 1]))
      case (Some(acc), Some(x)) => Some(acc + x)
      case _ => None
  }

  /** What one record adds, as a function of the record. */
  function AmountOf(copy: Copy): Company -> Option<real>
  {
    (c: Company) => Amount(copy, c)
  }

  /** `calculateTotal`. */
  function Total(copy: Copy, cs: seq<Company>): Option<real>
  {
    Fold(cs, AmountOf(copy))
  }

  /** The sum of the decimal values of digit-string numbers (an empty one is 0). */
  function DigitsSum(cs: seq<Company>): nat
    requires DigitNumbers(cs)
    decreases |cs|
  {
    if |cs| == 0 then 0 else DigitsSum(cs[..|cs| - 1]) + DigitsValue(cs[|cs| - 1].number)
  }

  /** A digit-string number adds its decimal value; an empty one adds 0 in the
      browser copy and is NaN in the Apps Script copy. */
  lemma AmountOfDigits(copy: Copy, c: Company)
    requires All(c.number, IsDigit)
    ensures Amount(copy, c) == if copy == AppsScript && c.number == "" then None else Some(DigitsValue(c.number) as real)
  {
    var n := c.number;
    ParseFloatOfDigits(n);
    if n == "" {
      assert DigitsValue(n) == 0;
    }
  }

  /** When every addend is NaN or the decimal value of its record's number, the
      fold exists exactly when no addend is NaN, and is then the sum of those
      values. */
  lemma {:induction false} FoldOfDigits(cs: seq<Company>, F: Company -> Option<real>)
    requires DigitNumbers(cs)
    requires forall k :: 0 <= k < |cs| ==> F(cs[k]).None? || F(cs[k]) == Some(DigitsValue(cs[k].number) as real)
    ensures Fold(cs, F).Some? <==> forall k :: 0 <= k < |cs| ==> F(cs[k]).Some?
    ensures Fold(cs, F).Some? ==> Fold(cs, F) == Some(DigitsSum(cs) as real)
    decreases |cs|
  {
    if |cs| > 0 {
      var init := cs[..|cs| - 1];
      assert forall k :: 0 <= k < |init| ==> init[k] == cs[k];
      FoldOfDigits(init, F);
    }
  }

  /** On digit-string numbers the browser total is always the sum of their
      values; the Apps Script total is that sum when no number is empty and NaN
      as soon as one is. */
  lemma TotalOfDigits(copy: Copy, cs: seq<Company>)
    requires DigitNumbers(cs)
    ensures copy == Browser ==> Total(copy, cs) == Some(DigitsSum(cs) as real)
    ensures copy == AppsScript ==> (Total(copy, cs).Some? <==> forall k :: 0 <= k < |cs| ==> cs[k].number != "")
    ensures Total(copy, cs).Some? ==> Total(copy, cs) == Some(DigitsSum(cs) as real)
  {
    var F := AmountOf(copy);
    forall k | 0 <= k < |cs|
      ensures F(cs[k]) == if copy == AppsScript && cs[k].number == "" then None else Some(DigitsValue(cs[k].number) as real)
    {
      AmountOfDigits(copy, cs[k]);
    }
    FoldOfDigits(cs, F);
  }

  /** The outcome of the comparison. */
  datatype Verdict =
    | SumMissing  // the total could not be read from the text
    | Mismatch    // the records add up to something else
    | Success

  /** The largest difference the comparison lets through. */
  const Tolerance: real := 0.01

  function Abs(x: real): real { if x < 0.0 then -x else x }

  /** `if (sum === null) … else if (Math.abs(sum - total) > 0.01) … else …`.
      A NaN total makes the comparison false. */
  function Check(sum: Option<real>, total: Option<real>): Verdict
  {
    if sum.None? then SumMissing
    else if total.Some? && Abs(sum.value - total.value) > Tolerance then Mismatch
    else Success
  }

  /** The total is tested first; then a mismatch is a difference strictly above
      0.01 either way, so a difference of exactly 0.01 passes; and a NaN total
      never shows a mismatch. */
  lemma CheckCases(sum: Option<real>, total: Option<real>)
    ensures Check(sum, total) == SumMissing <==> sum.None?
    ensures sum.Some? && total.Some? ==>
      (Check(sum, total) == Success <==> sum.value - Tolerance <= total.value <= sum.value + Tolerance)
    ensures sum.Some? && total.None? ==> Check(sum, total) == Success
  {
  }

  /** The verdict on one text: its total read by `extractSumFromPDFText`
      against the records `extractInformationFromPDFText` makes of it. */
  function Outcome(copy: Copy, s: string): Verdict
  {
    Check(Sum(s), Total(copy, Companies(copy, s)))
  }

  /** On digit-string numbers the browser verdict is a missing total exactly
      when the total is missing, and otherwise success exactly when the total
      lies within 0.01 of the sum of the numbers' values. */
  lemma BrowserCheck(sum: Option<real>, cs: seq<Company>)
    requires DigitNumbers(cs)
    ensures Total(Browser, cs).Some?
    ensures Check(sum, Total(Browser, cs)) == SumMissing <==> sum.None?
    ensures sum.Some? ==>
      (Check(sum, Total(Browser, cs)) == Success <==> Abs(sum.value - DigitsSum(cs) as real) <= Tolerance)
  {
    TotalOfDigits(Browser, cs);
  }

  /** In the browser copy the records' total always exists; the verdict is a
      missing total exactly when neither total pattern matches, and otherwise
      success exactly when the total read lies within 0.01 of the sum of the
      records' digit strings. */
  lemma BrowserOutcome(s: string)
    ensures Total(Browser, Companies(Browser, s)).Some?
    ensures Outcome(Browser, s) == SumMissing <==> NoTotalMatch(s) && NoLineTotalMatch(Split(s, '\n'))
    ensures Sum(s).Some? ==>
      DigitNumbers(Companies(Browser, s)) &&
      (Outcome(Browser, s) == Success <==> Abs(Sum(s).value - DigitsSum(Companies(Browser, s)) as real) <= Tolerance)
  {
    CompaniesDigits(Browser, s);
    BrowserCheck(Sum(s), Companies(Browser, s));
    SumNone(s);
  }

  /** A digit followed by three zeros reads as that digit times a thousand. */
  lemma Thousand(d: char)
    requires '1' <= d <= '9'
    ensures All([d, '0', '0', '0'], IsDigit) && DigitsValue([d, '0', '0', '0']) == DigitValue(d) * 1000
  {
    var s := [d, '0', '0', '0'];
    assert s[..3] == [d, '0', '0'];
    assert [d, '0', '0'][..2] == [d, '0'];
    assert [d, '0'][..1] == [d];
    assert [d][..0] == [];
    assert DigitValue('0') == 0;
    assert DigitsValue([d]) == DigitValue(d);
    assert DigitsValue([d, '0']) == DigitValue(d) * 10;
    assert DigitsValue([d, '0', '0']) == DigitValue(d) * 100;
  }

  /** Three records numbered 1000, 2000 and 3000 add up to 6000. */
  lemma TotalExample()
    ensures Total(Browser, [Company("a", "1000", None, None), Company("b", "2000", None, None), Company("c", "3000", None, None)]) == Some(6000.0)
  {
    var a, b, c := Company("a", "1000", None, None), Company("b", "2000", None, None), Company("c", "3000", None, None);
    var cs := [a, b, c];
    Thousand('1');
    Thousand('2');
    Thousand('3');
    assert DigitNumbers(cs);
    assert cs[..2] == [a, b];
    assert [a, b][..1] == [a];
    assert [a][..0] == [];
    assert DigitsSum([a]) == 1000;
    assert DigitsSum([a, b]) == 3000;
    assert DigitsSum(cs) == 6000;
    TotalOfDigits(Browser, cs);
  }
}
