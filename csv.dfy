/**
 * `exportToCSV` (browser copy): the records, the recipient and the total as a
 * semicolon-separated file behind a byte-order mark. Each record is a line
 * `"name";number;gifts;percent`; a blank line and the two lines `"Mottaker"`
 * and `"Totalsum"` follow. Nothing is escaped. A count that is absent or zero
 * and a total that is absent or zero are written as empty fields, as
 * `x || ''` does; how JavaScript prints the total is the parameter `render`.
 */
module Csv {
  import opened Wrappers
  import opened Text
  import opened Numbers
  import opened Extraction

  /** The byte-order mark put before the file. */
  const Bom: char := '\U{FEFF}'

  const Header: string := "Organisasjon;Beløp (kr);Antall gaver;Prosent"

  /** `n || ''` on a count. */
  function CountField(n: Option<nat>): string
  {
    if n.None? || n.value == 0 then "" else NatToString(n.value)
  }

  /** `sum || ''` on the total. */
  function SumField(sum: Option<real>, render: real -> string): string
  {
    if sum.None? || sum.value == 0.0 then "" else render(sum.value)
  }

  /** `recipientCompany || ''`. */
  function RecipientField(recipient: Option<string>): string
  {
    if recipient.None? then "" else recipient.value
  }

  /** One record's line, without its line feed. */
  function RowLine(c: Company): string
  {
    "\"" + c.name + "\";" + c.number + ";" + CountField(c.gifts) + ";" + CountField(c.percentage)
  }

  function RecipientLine(recipient: Option<string>): string
  {
    "\"Mottaker\";\"" + RecipientField(recipient) + "\""
  }

  function SumLine(sum: Option<real>, render: real -> string): string
  {
    "\"Totalsum\";" + SumField(sum, render)
  }

  /** The blank line and the recipient and total lines. */
  function Trailer(recipient: Option<string>, sum: Option<real>, render: real -> string): string
  {
    "\n" + (RecipientLine(recipient) + "\n" + (SumLine(sum, render) + "\n"))
  }

  /** The file `exportToCSV` offers for download. */
  function CsvFile(cs: seq<Company>, sum: Option<real>, render: real -> string, recipient: Option<string>): string
  {
    ([Bom] + Header) + "\n" + (Terminated(RowLines(cs), '\n') + Trailer(recipient, sum, render))
  }

  /** `exportToCSV`: the header, then `csv +=` one line per record, then the
      trailer, behind the byte-order mark. */
  method ExportToCsv(companies: seq<Company>, sum: Option<real>, render: real -> string, recipient: Option<string>)
    returns (file: string)
    ensures file == CsvFile(companies, sum, render, recipient)
  {
    var rows := "";
    var k := 0;
    while k < |companies|
      invariant k <= |companies|
      invariant rows == Terminated(RowLines(companies[..k]), '\n')
      decreases |companies| - k
    {
      rows := rows + (RowLine(companies[k]) + "\n");
      assert companies[..k + 1][..k] == companies[..k];
      k := k + 1;
    }
    assert companies[..k] == companies;
    file := ([Bom] + Header) + "\n" + (rows + Trailer(recipient, sum, render));
  }

  /** A count's field is empty exactly when the count is absent or zero, and
      otherwise reads back as the count. */
  lemma CountFieldReads(n: Option<nat>)
    ensures CountField(n) == "" <==> n.None? || n.value == 0
    ensures n.Some? && n.value > 0 ==> All(CountField(n), IsDigit) && DigitsValue(CountField(n)) == n.value
  {
  }

  /** A record line splits at its semicolons into the quoted name, the number
      and the two count fields, when neither the name nor the number holds a
      semicolon. */
  lemma RowFields(c: Company)
    requires ';' !in c.name && ';' !in c.number
    ensures Split(RowLine(c), ';') == ["\"" + c.name + "\"", c.number, CountField(c.gifts), CountField(c.percentage)]
  {
    var q, g, p := "\"" + c.name + "\"", CountField(c.gifts), CountField(c.percentage);
    assert ';' !in g && ';' !in p by {
      assert All(g, IsDigit) && All(p, IsDigit);
    }
    assert RowLine(c) == q + [';'] + (c.number + [';'] + (g + [';'] + p));
    SplitAfter(q, ';', c.number + [';'] + (g + [';'] + p));
    SplitAfter(c.number, ';', g + [';'] + p);
    SplitAfter(g, ';', p);
    SplitWithout(p, ';');
  }

  /** The record lines, without their line feeds. */
  function RowLines(cs: seq<Company>): (lines: seq<string>)
    ensures |lines| == |cs|
    decreases |cs|
  {
    if |cs| == 0 then [] else RowLines(cs[..|cs| - 1]) + [RowLine(cs[|cs| - 1])]
  }

  lemma {:induction false} RowLinesAt(cs: seq<Company>, k: nat)
    requires k < |cs|
    ensures RowLines(cs)[k] == RowLine(cs[k])
    decreases |cs|
  {
    if k < |cs| - 1 {
      RowLinesAt(cs[..|cs| - 1], k);
    }
  }

  /** Only the line feed that ends it leaves a record line. */
  lemma RowLineHasNoLineFeed(c: Company)
    requires '\n' !in c.name && '\n' !in c.number
    ensures '\n' !in RowLine(c)
  {
    assert All(CountField(c.gifts), IsDigit) && All(CountField(c.percentage), IsDigit);
  }

  /** The recipient and total lines hold no line feed but their fields' own. */
  lemma TrailerLinesHaveNoLineFeed(recipient: Option<string>, sum: Option<real>, render: real -> string)
    requires '\n' !in RecipientField(recipient) && '\n' !in SumField(sum, render)
    ensures '\n' !in RecipientLine(recipient) && '\n' !in SumLine(sum, render)
  {
    var a, b, q := "\"Mottaker\";\"", "\"Totalsum\";", "\"";
    assert forall i :: 0 <= i < |a| ==> a[i] != '\n';
    assert forall i :: 0 <= i < |b| ==> b[i] != '\n';
    assert '\n' !in q;
  }

  /** The header line holds no line feed. */
  lemma HeaderHasNoLineFeed()
    ensures '\n' !in [Bom] + Header
  {
    assert forall i :: 0 <= i < |Header| ==> Header[i] != '\n';
  }

  /** Without line feeds in the names and numbers, no record line holds one. */
  lemma RowLinesHaveNoLineFeed(cs: seq<Company>)
    requires forall k :: 0 <= k < |cs| ==> '\n' !in cs[k].name && '\n' !in cs[k].number
    ensures forall k :: 0 <= k < |cs| ==> '\n' !in RowLines(cs)[k]
  {
    forall k | 0 <= k < |cs| ensures '\n' !in RowLines(cs)[k] {
      RowLinesAt(cs, k);
      RowLineHasNoLineFeed(cs[k]);
    }
  }

  /** Without line feeds in the names, numbers, recipient and printed total,
      the file's lines are the header, one line per record in order, the
      blank line, the recipient line and the total line, and the file ends
      with a line feed. */
  lemma CsvLines(cs: seq<Company>, sum: Option<real>, render: real -> string, recipient: Option<string>)
    requires forall k :: 0 <= k < |cs| ==> '\n' !in cs[k].name && '\n' !in cs[k].number
    requires '\n' !in RecipientField(recipient) && '\n' !in SumField(sum, render)
    ensures Split(CsvFile(cs, sum, render, recipient), '\n') ==
      [[Bom] + Header] + RowLines(cs) + ["", RecipientLine(recipient), SumLine(sum, render), ""]
  {
    var h, rows, tail := [Bom] + Header, RowLines(cs), Trailer(recipient, sum, render);
    assert Split(tail, '\n') == ["", RecipientLine(recipient), SumLine(sum, render), ""] by {
      TrailerLinesHaveNoLineFeed(recipient, sum, render);
      TrailerSplit(RecipientLine(recipient), SumLine(sum, render));
    }
    assert Split(h + "\n" + (Terminated(rows, '\n') + tail), '\n') == [h] + rows + Split(tail, '\n') by {
      RowLinesHaveNoLineFeed(cs);
      HeaderHasNoLineFeed();
      SplitHeadThenTerminated(h, rows, '\n', tail);
    }
  }

  lemma TrailerSplit(m: string, t: string)
    requires '\n' !in m && '\n' !in t
    ensures Split("\n" + (m + "\n" + (t + "\n")), '\n') == ["", m, t, ""]
  {
    SplitAfter(t, '\n', "");
    assert t + "\n" + "" == t + "\n";
    SplitAfter(m, '\n', t + "\n");
    SplitAfter("", '\n', m + "\n" + (t + "\n"));
    assert "" + "\n" + (m + "\n" + (t + "\n")) == "\n" + (m + "\n" + (t + "\n"));
  }
}
