/**
 * `extractInformationFromPDFText`: the organisation records read from the
 * settlement text. Three passes append to one list: every match of the
 * organisation-line pattern in text order, then every match of the multi-line
 * fallback in text order, then at most one cost-contribution entry.
 */
module Extraction {
  import opened Wrappers
  import opened Text
  import opened Numbers
  import opened Search
  import opened Patterns

  /** One record: `number` is the amount text, `gifts` and `percentage` are the
      `numberOfGifts` and `percentage` fields (None when the record has none). */
  datatype Company = Company(name: string, number: string, gifts: Option<nat>, percentage: Option<nat>)

  // ---------------------------------------------------------------------------
  // The global scans: `while ((m = pattern.exec(text)) !== null)`, each search
  // resuming at the end of the previous match.
  // ---------------------------------------------------------------------------

  /** The organisation-line matches, with their starts, that the global scan
      finds. */
  function LineScan(copy: Copy, s: string): seq<(nat, LineMatch)>
  {
    Scan(LineMatcher(copy, s), LineEnd, 0, |s|)
  }

  /** The multi-line fallback matches, with their starts, that the global
      scan finds. */
  function WrapScan(copy: Copy, s: string): seq<(nat, WrapMatch)>
  {
    Scan(WrapMatcher(copy, s), WrapEnd, 0, |s|)
  }

  /** The line scan reports matches of the pattern, in text order and
      without overlap. */
  lemma LineScanOrdered(copy: Copy, s: string)
    ensures forall k :: 0 <= k < |LineScan(copy, s)| ==>
      var (i, m) := LineScan(copy, s)[k];
      i <= |s| && LineAt(copy, s, i) == Some(m) && m.start == i
    ensures forall k :: 0 <= k < |LineScan(copy, s)| - 1 ==>
      LineScan(copy, s)[k].1.end <= LineScan(copy, s)[k + 1].0
  {
    ScanOrdered(LineMatcher(copy, s), LineEnd, 0, |s|);
    MatcherIsLineAt(copy, s);
  }

  /** The line scan misses no match: every position where the pattern
      matches starts a reported match or lies inside one. */
  lemma LineScanComplete(copy: Copy, s: string, i: nat)
    requires i <= |s| && LineAt(copy, s, i).Some?
    ensures exists k :: 0 <= k < |LineScan(copy, s)| && LineScan(copy, s)[k].0 <= i < LineScan(copy, s)[k].1.end
  {
    LineMatcherAdvances(copy, s);
    MatcherIsLineAt(copy, s);
    var ms := Scan(LineMatcher(copy, s), LineEnd, 0, |s|);
    ScanComplete(LineMatcher(copy, s), LineEnd, 0, |s|, i);
    var k :| 0 <= k < |ms| && ms[k].0 <= i < LineEnd(ms[k].1);
    assert LineScan(copy, s)[k].0 <= i < LineScan(copy, s)[k].1.end;
  }

  /** The fallback scan reports matches of its pattern, in text order and
      without overlap. */
  lemma WrapScanOrdered(copy: Copy, s: string)
    ensures forall k :: 0 <= k < |WrapScan(copy, s)| ==>
      var (i, m) := WrapScan(copy, s)[k];
      i <= |s| && WrapAt(copy, s, i) == Some(m) && m.start == i
    ensures forall k :: 0 <= k < |WrapScan(copy, s)| - 1 ==>
      WrapScan(copy, s)[k].1.end <= WrapScan(copy, s)[k + 1].0
  {
    ScanOrdered(WrapMatcher(copy, s), WrapEnd, 0, |s|);
    MatcherIsWrapAt(copy, s);
  }

  /** The fallback scan misses no match either. */
  lemma WrapScanComplete(copy: Copy, s: string, i: nat)
    requires i <= |s| && WrapAt(copy, s, i).Some?
    ensures exists k :: 0 <= k < |WrapScan(copy, s)| && WrapScan(copy, s)[k].0 <= i < WrapScan(copy, s)[k].1.end
  {
    WrapMatcherAdvances(copy, s);
    MatcherIsWrapAt(copy, s);
    var ms := Scan(WrapMatcher(copy, s), WrapEnd, 0, |s|);
    ScanComplete(WrapMatcher(copy, s), WrapEnd, 0, |s|, i);
    var k :| 0 <= k < |ms| && ms[k].0 <= i < WrapEnd(ms[k].1);
    assert WrapScan(copy, s)[k].0 <= i < WrapScan(copy, s)[k].1.end;
  }

  // ---------------------------------------------------------------------------
  // Records.
  // ---------------------------------------------------------------------------

  /** The record of an organisation line: the browser copy trims the name and
      collapses its white space, the Apps Script copy only trims it. */
  function LineCompany(copy: Copy, m: LineMatch): Company
  {
    var name := match copy
      case Browser => Collapse(Trim(m.name))
      case AppsScript => Trim(m.name);
    Company(name, AmountNumber(m.amount), ParseDigits(m.gifts), ParseDigits(m.percent))
  }

  /** The record of a fallback match: both name parts trimmed, joined by a space,
      trimmed again. */
  function WrapCompany(m: WrapMatch): Company
  {
    Company(Trim(Trim(m.first) + " " + Trim(m.second)), AmountNumber(m.amount), None, None)
  }

  /** The record the line scan makes of each match. */
  function LineRecord(copy: Copy): LineMatch -> Company
  {
    (m: LineMatch) => LineCompany(copy, m)
  }

  /** The cost-contribution entry: from the case-insensitive whole-text pattern
      when it matches, otherwise from the first line holding the exact name,
      when that line has an amount followed by `kr`. */
  function CostCompanies(s: string): seq<Company>
  {
    match FindCost(s)
    case Some((_, cap)) => [Company(CostName, AmountNumber(cap), None, None)]
    case None =>
      match FindCostLine(Split(s, '\n'))
      case None => []
      case Some((_, line)) =>
        match FindKrAmount(line)
        case None => []
        case Some((i, e)) => [Company(CostName, AmountNumber(line[i..e]), None, None)]
  }

  /** The whole list `extractInformationFromPDFText` returns. */
  function Companies(copy: Copy, s: string): seq<Company>
  {
    LineRecords(copy, s) + WrapRecords(copy, s) + CostCompanies(s)
  }

  /** The records of the first pass. */
  function LineRecords(copy: Copy, s: string): seq<Company>
  {
    Records(LineScan(copy, s), LineRecord(copy))
  }

  /** The records of the second pass. */
  function WrapRecords(copy: Copy, s: string): seq<Company>
  {
    Records(WrapScan(copy, s), WrapCompany)
  }

  // ---------------------------------------------------------------------------
  // What the records hold.
  // ---------------------------------------------------------------------------

  /** An organisation-line record keeps the name's text, trimmed: in the
      browser copy the trimmed name with every white-space run made one space
      (`Collapse`, which `CollapseSnoc` characterises), in the Apps Script copy
      the trimmed name as it is. It holds the amount's digits in order and the
      two counts as numbers. */
  lemma LineCompanyFields(copy: Copy, m: LineMatch)
    requires All(m.amount, IsAmountChar)
    requires All(m.gifts, IsDigit) && |m.gifts| >= 1 && All(m.percent, IsDigit) && |m.percent| >= 1
    ensures var c := LineCompany(copy, m);
      NonWs(c.name) == NonWs(m.name) && Trimmed(c.name) &&
      (copy == Browser ==> c.name == Collapse(Trim(m.name)) && SpacesOnly(c.name) && NoDoubleSpace(c.name)) &&
      (copy == AppsScript ==> c.name == Trim(m.name)) &&
      c.number == DigitsOf(m.amount) &&
      c.gifts == Some(DigitsValue(m.gifts)) && c.percentage == Some(DigitsValue(m.percent))
  {
    TrimKeepsText(m.name);
    CollapseKeepsText(Trim(m.name));
    AmountNumberIsDigits(m.amount);
  }

  /** A fallback record joins the text of both name parts, trimmed, holds the
      amount's digits in order, and has no counts. */
  lemma WrapCompanyFields(m: WrapMatch)
    requires All(m.amount, IsAmountChar)
    ensures var c := WrapCompany(m);
      NonWs(c.name) == NonWs(m.first) + NonWs(m.second) && Trimmed(c.name) &&
      c.number == DigitsOf(m.amount) && c.gifts.None? && c.percentage.None?
  {
    JoinTrimmedKeepsText(m.first, m.second);
    AmountNumberIsDigits(m.amount);
  }

  /** The first pass makes one record per organisation-line match, in order:
      record `k` comes from the `k`-th match. */
  lemma LineEntry(copy: Copy, s: string, k: nat)
    requires k < |LineScan(copy, s)|
    ensures var (i, m) := LineScan(copy, s)[k];
      i <= |s| && LineAt(copy, s, i) == Some(m) && |LineRecords(copy, s)| == |LineScan(copy, s)| &&
      LineRecords(copy, s)[k] == LineCompany(copy, m)
  {
    LineScanOrdered(copy, s);
    RecordsAt(LineScan(copy, s), LineRecord(copy), k);
  }

  /** The second pass makes one record per fallback match, in order. */
  lemma WrapEntry(copy: Copy, s: string, k: nat)
    requires k < |WrapScan(copy, s)|
    ensures var (i, m) := WrapScan(copy, s)[k];
      i <= |s| && WrapAt(copy, s, i) == Some(m) && |WrapRecords(copy, s)| == |WrapScan(copy, s)| &&
      WrapRecords(copy, s)[k] == WrapCompany(m)
  {
    WrapScanOrdered(copy, s);
    RecordsAt(WrapScan(copy, s), WrapCompany, k);
  }

  /** The list is the line records, then the fallback records, then at most
      one cost entry: no record is dropped or merged. */
  lemma CompaniesLength(copy: Copy, s: string)
    ensures |Companies(copy, s)| == |LineScan(copy, s)| + |WrapScan(copy, s)| + |CostCompanies(s)|
    ensures |CostCompanies(s)| <= 1
  {
  }

  /** The cost entry is named after the contribution, holds the amount's
      digits in order and has no counts. */
  lemma CostEntryFields(s: string)
    ensures CostCompanies(s) != [] ==>
      var c := CostCompanies(s)[0];
      c.name == CostName && All(c.number, IsDigit) && c.gifts.None? && c.percentage.None?
  {
    match FindCost(s)
    case Some((_, cap)) =>
      AmountNumberIsDigits(cap);
    case None =>
      match FindCostLine(Split(s, '\n'))
      case None =>
      case Some((_, line)) =>
        match FindKrAmount(line)
        case None =>
        case Some((i, e)) =>
          AmountNumberIsDigits(line[i..e]);
  }

  /** When the case-insensitive pattern matches anywhere in the text, the entry
      is always made, from that pattern's leftmost match. */
  lemma CostEntryFromPattern(s: string, i: nat)
    requires i <= |s| && CostAt(s, i).Some?
    ensures FindCost(s).Some? && FindCost(s).value.0 <= i
    ensures CostCompanies(s) == [Company(CostName, DigitsOf(FindCost(s).value.1), None, None)]
  {
    FindCostIsLeftmost(s);
    AmountNumberIsDigits(FindCost(s).value.1);
  }

  /** Without a match of the pattern, an entry needs a line holding the exact
      name. */
  lemma CostEntryNeedsName(s: string)
    requires CostCompanies(s) != [] && FindCost(s).None?
    ensures exists k :: 0 <= k < |Split(s, '\n')| && Contains(Split(s, '\n')[k], CostName)
  {
    var lines := Split(s, '\n');
    var r := FindCostLine(lines);
    assert r.Some?;
    assert Contains(lines[r.value.0], CostName);
  }

  /** What every organisation-line match holds: amount characters, and digit
      counts. */
  predicate LineShaped(m: LineMatch) {
    All(m.amount, IsAmountChar) &&
    All(m.gifts, IsDigit) && |m.gifts| >= 1 && All(m.percent, IsDigit) && |m.percent| >= 1
  }

  lemma LineScanShaped(copy: Copy, s: string)
    ensures forall k :: 0 <= k < |LineScan(copy, s)| ==> LineShaped(LineScan(copy, s)[k].1)
  {
    LineScanOrdered(copy, s);
  }

  lemma WrapScanShaped(copy: Copy, s: string)
    ensures forall k :: 0 <= k < |WrapScan(copy, s)| ==> All(WrapScan(copy, s)[k].1.amount, IsAmountChar)
  {
    WrapScanOrdered(copy, s);
  }

  /** Every record's number is a digit string. */
  predicate DigitNumbers(cs: seq<Company>) {
    forall k :: 0 <= k < |cs| ==> All(cs[k].number, IsDigit)
  }

  lemma DigitNumbersAppend(a: seq<Company>, b: seq<Company>, c: seq<Company>)
    requires DigitNumbers(a) && DigitNumbers(b) && DigitNumbers(c)
    ensures DigitNumbers(a + b + c)
  {
    forall k | 0 <= k < |a + b + c| ensures All((a + b + c)[k].number, IsDigit) {
      if k < |a| {
        assert (a + b + c)[k] == a[k];
      } else if k < |a| + |b| {
        assert (a + b + c)[k] == b[k - |a|];
      } else {
        assert (a + b + c)[k] == c[k - |a| - |b|];
      }
    }
  }

  /** Every organisation-line record's number is a digit string. */
  lemma LineRecordsDigits(copy: Copy, s: string)
    ensures DigitNumbers(LineRecords(copy, s))
  {
    var ms := LineScan(copy, s);
    LineScanShaped(copy, s);
    forall k | 0 <= k < |LineRecords(copy, s)| ensures All(LineRecords(copy, s)[k].number, IsDigit) {
      RecordsAt(ms, LineRecord(copy), k);
      AmountNumberIsDigits(ms[k].1.amount);
    }
  }

  /** Every fallback record's number is a digit string. */
  lemma WrapRecordsDigits(copy: Copy, s: string)
    ensures DigitNumbers(WrapRecords(copy, s))
  {
    var ms := WrapScan(copy, s);
    WrapScanShaped(copy, s);
    forall k | 0 <= k < |WrapRecords(copy, s)| ensures All(WrapRecords(copy, s)[k].number, IsDigit) {
      RecordsAt(ms, WrapCompany, k);
      AmountNumberIsDigits(ms[k].1.amount);
    }
  }

  lemma CostDigits(s: string)
    ensures DigitNumbers(CostCompanies(s))
  {
    CostEntryFields(s);
  }

  /** Every record's number is a digit string: the amount clean-up leaves
      nothing else. */
  lemma CompaniesDigits(copy: Copy, s: string)
    ensures DigitNumbers(Companies(copy, s))
  {
    LineRecordsDigits(copy, s);
    WrapRecordsDigits(copy, s);
    CostDigits(s);
    DigitNumbersAppend(LineRecords(copy, s), WrapRecords(copy, s), CostCompanies(s));
  }

  // ---------------------------------------------------------------------------
  // The extractor.
  // ---------------------------------------------------------------------------

  /** The first pass: a record per organisation-line match, in text order. */
  method ScanLines(copy: Copy, text: string) returns (companies: seq<Company>)
    ensures companies == LineRecords(copy, text)
  {
    LineMatcherAdvances(copy, text);
    companies := ScanRecords(LineMatcher(copy, text), LineEnd, |text|, LineRecord(copy), []);
    assert [] + companies == companies;
  }

  /** The second pass: a record per fallback match, in text order. */
  method ScanWraps(copy: Copy, text: string) returns (companies: seq<Company>)
    ensures companies == WrapRecords(copy, text)
  {
    WrapMatcherAdvances(copy, text);
    companies := ScanRecords(WrapMatcher(copy, text), WrapEnd, |text|, WrapCompany, []);
    assert [] + companies == companies;
  }

  /** The third pass: the cost-contribution entry, if any. */
  method CostEntry(text: string) returns (companies: seq<Company>)
    ensures companies == CostCompanies(text)
  {
    companies := [];
    var costMatch := FindCost(text);
    if costMatch.Some? {
      companies := companies + [Company(CostName, AmountNumber(costMatch.value.1), None, None)];
    } else {
      var lines := Split(text, '\n');
      var costLine := FindCostLine(lines);
      if costLine.Some? {
        var line := costLine.value.1;
        var alt := FindKrAmount(line);
        if alt.Some? {
          companies := companies + [Company(CostName, AmountNumber(line[alt.value.0..alt.value.1]), None, None)];
        }
      }
    }
  }

  /** `extractInformationFromPDFText`: the three passes append to one list. */
  method ExtractInformation(copy: Copy, text: string) returns (companies: seq<Company>)
    ensures companies == Companies(copy, text)
  {
    var lines := ScanLines(copy, text);
    var wraps := ScanWraps(copy, text);
    var cost := CostEntry(text);
    companies := lines + wraps + cost;
  }
}
