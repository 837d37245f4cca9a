/**
 * The Apps Script copy's spreadsheet side: `writeToGoogleSheet` and
 * `resetButton` on the active sheet. The sheet is a grid of cell texts, row r
 * and column c counted from 1 as `getRange(row, column)` does; an empty cell
 * is "". Column A lists the organisations the sheet knows, column B their
 * amounts, B8 the recipient, C1 the total, and columns D and E from row 9 the
 * organisations the sheet did not know. A range written `B9:B5` is the range
 * between those rows, whichever comes first.
 */
module Sheet {
  import opened Wrappers
  import opened Extraction

  /** The cell texts, a sequence of rows; rows may be of any length. */
  type Grid = seq<seq<string>>

  const ColA: nat := 1
  const ColB: nat := 2
  const ColC: nat := 3
  const ColD: nat := 4
  const ColE: nat := 5

  /** The row of the recipient cell B8. */
  const RecipientRow: nat := 8

  /** The first row of the filled column-B block and of the new-organisation
      block. */
  const ListRow: nat := 9

  function Min(a: nat, b: nat): nat { if a <= b then a else b }

  function Max(a: nat, b: nat): nat { if a <= b then b else a }

  // ---------------------------------------------------------------------------
  // Cells.
  // ---------------------------------------------------------------------------

  /** The text of a cell; a cell outside the grid is empty. */
  function Get(g: Grid, col: nat, row: nat): string
  {
    if 1 <= row <= |g| && 1 <= col <= |g[row - 1]| then g[row - 1][col - 1] else ""
  }

  /** `s` extended with `x` up to length `n`. */
  function Pad<T>(s: seq<T>, n: nat, x: T): (r: seq<T>)
    ensures |r| == Max(|s|, n)
    ensures forall i :: 0 <= i < |s| ==> r[i] == s[i]
    ensures forall i :: |s| <= i < |r| ==> r[i] == x
  {
    if |s| >= n then s else s + seq(n - |s|, _ => x)
  }

  /** `setValue` on one cell; the grid grows to hold it. */
  function Put(g: Grid, col: nat, row: nat, v: string): Grid
    requires col >= 1 && row >= 1
  {
    var rows := Pad(g, row, []);
    var line := Pad(rows[row - 1], col, "");
    rows[row - 1 := line[col - 1 := v]]
  }

  /** A write changes its own cell and no other. */
  lemma GetPut(g: Grid, col: nat, row: nat, v: string, c: nat, r: nat)
    requires col >= 1 && row >= 1
    ensures Get(Put(g, col, row, v), c, r) == if c == col && r == row then v else Get(g, c, r)
  {
  }

  /** Every cell of the row is empty. */
  predicate RowEmpty(line: seq<string>) {
    forall k :: 0 <= k < |line| ==> line[k] == ""
  }

  /** `getLastRow`: the last row with a non-empty cell, 0 for an empty sheet. */
  function LastRow(g: Grid): (n: nat)
    ensures n <= |g| && (n > 0 ==> !RowEmpty(g[n - 1]))
    ensures forall k :: n <= k < |g| ==> RowEmpty(g[k])
    decreases |g|
  {
    if |g| == 0 then 0
    else if !RowEmpty(g[|g| - 1]) then |g|
    else
      var n := LastRow(g[..|g| - 1]);
      assert forall k :: n <= k < |g| - 1 ==> g[..|g| - 1][k] == g[k];
      n
  }

  /** Below the last row every cell is empty, and the last row has a cell
      that is not. */
  lemma LastRowCells(g: Grid)
    ensures forall c: nat, r: nat :: r > LastRow(g) ==> Get(g, c, r) == ""
    ensures LastRow(g) > 0 ==> exists c :: Get(g, c, LastRow(g)) != ""
  {
    var n := LastRow(g);
    forall c: nat, r: nat | r > n ensures Get(g, c, r) == "" {
      if 1 <= r <= |g| && 1 <= c <= |g[r - 1]| {
        assert RowEmpty(g[r - 1]);
      }
    }
    if n > 0 {
      var k :| 0 <= k < |g[n - 1]| && g[n - 1][k] != "";
      assert Get(g, k + 1, n) != "";
    }
  }

  // ---------------------------------------------------------------------------
  // `writeToGoogleSheet`, stage by stage.
  // ---------------------------------------------------------------------------

  /** `getRange('A1:A' + lastRow).getValues().flat()`. */
  function Existing(g: Grid, lastRow: nat): (ex: seq<string>)
    ensures |ex| == lastRow
    decreases lastRow
  {
    if lastRow == 0 then [] else Existing(g, lastRow - 1) + [Get(g, ColA, lastRow)]
  }

  /** The list holds column A, row by row. */
  lemma {:induction false} ExistingAt(g: Grid, lastRow: nat, i: nat)
    requires i < lastRow
    ensures Existing(g, lastRow)[i] == Get(g, ColA, i + 1)
    decreases lastRow
  {
    if i < lastRow - 1 {
      ExistingAt(g, lastRow - 1, i);
    }
  }

  /** `xs.indexOf(x)`, None for -1. */
  function IndexOf(xs: seq<string>, x: string): (r: Option<nat>)
    ensures r.Some? ==> r.value < |xs| && xs[r.value] == x && forall k :: 0 <= k < r.value ==> xs[k] != x
    ensures r.None? <==> x !in xs
    decreases |xs|
  {
    if |xs| == 0 then None
    else if xs[0] == x then Some(0)
    else
      match IndexOf(xs[1..], x)
      case None => None
      case Some(k) => Some(k + 1)
  }

  /** The last record with the given name. */
  function LastNamed(cs: seq<Company>, name: string): (r: Option<Company>)
    ensures r.Some? ==> r.value in cs && r.value.name == name
    ensures r.None? ==> forall k :: 0 <= k < |cs| ==> cs[k].name != name
    decreases |cs|
  {
    if |cs| == 0 then None
    else if cs[|cs| - 1].name == name then Some(cs[|cs| - 1])
    else LastNamed(cs[..|cs| - 1], name)
  }

  /** The `forEach`: a record whose name is in the list writes its number
      into column B of the row where the name first appears. */
  function PlaceKnown(g: Grid, ex: seq<string>, cs: seq<Company>): Grid
    decreases |cs|
  {
    if |cs| == 0 then g
    else
      var g' := PlaceKnown(g, ex, cs[..|cs| - 1]);
      var c := cs[|cs| - 1];
      match IndexOf(ex, c.name)
      case None => g'
      case Some(k) => Put(g', ColB, k + 1, c.number)
  }

  /** The records whose names are not in the list, in order: `newCompanies`. */
  function NewCompanies(ex: seq<string>, cs: seq<Company>): (news: seq<Company>)
    ensures |news| <= |cs|
    decreases |cs|
  {
    if |cs| == 0 then []
    else
      var c := cs[|cs| - 1];
      NewCompanies(ex, cs[..|cs| - 1]) + (if IndexOf(ex, c.name).None? then [c] else [])
  }

  /** `getRange(9, 4, n, 2).setValues(...)`: name and number of the j-th new
      record in D and E of row 9 + j. */
  function PlaceNew(g: Grid, news: seq<Company>): Grid
    decreases |news|
  {
    if |news| == 0 then g
    else
      var j := |news| - 1;
      Put(Put(PlaceNew(g, news[..j]), ColD, ListRow + j, news[j].name), ColE, ListRow + j, news[j].number)
  }

  /** The fill of `n` column-B cells from row `lo`: the i-th is made "-" when
      it is empty and cell A(9 + i) is not. Both are read from `g`. */
  function FillColumn(g: Grid, lo: nat, n: nat): Grid
    requires lo >= 1
    decreases n
  {
    if n == 0 then g
    else if Get(g, ColB, lo + n - 1) == "" && Get(g, ColA, ListRow + n - 1) != "" then Put(FillColumn(g, lo, n - 1), ColB, lo + n - 1, "-")
    else FillColumn(g, lo, n - 1)
  }

  /** What `setValue(sum)` leaves in C1: null clears it. */
  function SumCell(sum: Option<real>, render: real -> string): string
  {
    if sum.None? then "" else render(sum.value)
  }

  /** What `setValue(recipientCompany)` leaves in B8. */
  function RecipientCell(recipient: Option<string>): string
  {
    if recipient.None? then "" else recipient.value
  }

  /** The grid before the fill: the records placed, then C1 and B8 set. */
  function Staged(g: Grid, cs: seq<Company>, sumCell: string, recipientCell: string): Grid
  {
    var ex := Existing(g, LastRow(g));
    var g1 := PlaceNew(PlaceKnown(g, ex, cs), NewCompanies(ex, cs));
    Put(Put(g1, ColC, 1, sumCell), ColB, RecipientRow, recipientCell)
  }

  /** The first row of `B9:B<last>`. */
  function FillFrom(last: nat): nat { Min(ListRow, last) }

  /** The number of rows of `B9:B<last>`. */
  function FillCount(last: nat): nat { Max(ListRow, last) - Min(ListRow, last) + 1 }

  /** The grid after `writeToGoogleSheet`. */
  function Written(g: Grid, cs: seq<Company>, sumCell: string, recipientCell: string): Grid
    requires LastRow(g) >= 1
  {
    FillColumn(Staged(g, cs, sumCell, recipientCell), FillFrom(LastRow(g)), FillCount(LastRow(g)))
  }

  // ---------------------------------------------------------------------------
  // `resetButton`.
  // ---------------------------------------------------------------------------

  /** `clearContent` on `n` cells of a column from row `lo`. */
  function Clear(g: Grid, col: nat, lo: nat, n: nat): Grid
    requires col >= 1 && lo >= 1
    decreases n
  {
    if n == 0 then g else Put(Clear(g, col, lo, n - 1), col, lo + n - 1, "")
  }

  /** The grid after `resetButton`: B8 to B(last row), D9 to E(last row)
      and C1 cleared. */
  function Reset(g: Grid): Grid
    requires LastRow(g) >= 1
  {
    var last := LastRow(g);
    ResetRanges(g, Min(RecipientRow, last), Span(RecipientRow, last), Min(ListRow, last), Span(ListRow, last))
  }

  /** The number of rows from `a` to `b`, in either order. */
  function Span(a: nat, b: nat): nat
  {
    Max(a, b) - Min(a, b) + 1
  }

  // ---------------------------------------------------------------------------
  // What each stage leaves in each cell.
  // ---------------------------------------------------------------------------

  /** A record is left for the new block exactly when its name is not in
      the list (`NewCompaniesAppend` adds that the block keeps their order). */
  lemma {:induction false} NewCompaniesMembers(ex: seq<string>, cs: seq<Company>)
    ensures forall c :: c in NewCompanies(ex, cs) <==> c in cs && c.name !in ex
    decreases |cs|
  {
    if |cs| > 0 {
      var init, c := cs[..|cs| - 1], cs[|cs| - 1];
      NewCompaniesMembers(ex, init);
      assert cs == init + [c];
    }
  }

  /** The new block is a filter: the block of `a + b` is the block of `a`
      followed by the block of `b`, so no record is reordered, repeated or
      merged. */
  lemma {:induction false} NewCompaniesAppend(ex: seq<string>, a: seq<Company>, b: seq<Company>)
    ensures NewCompanies(ex, a + b) == NewCompanies(ex, a) + NewCompanies(ex, b)
    decreases |b|
  {
    if |b| == 0 {
      assert a + b == a;
    } else {
      var init, c := b[..|b| - 1], b[|b| - 1];
      assert (a + b)[..|a + b| - 1] == a + init;
      assert (a + b)[|a + b| - 1] == c;
      NewCompaniesAppend(ex, a, init);
    }
  }

  /** One record is in the new block exactly when its name is not in the list. */
  lemma NewCompaniesSingle(ex: seq<string>, c: Company)
    ensures NewCompanies(ex, [c]) == if c.name in ex then [] else [c]
  {
    assert [c][..0] == [];
  }

  /** What column B of row `r` holds after the `forEach`: the number of the
      last record with that row's name when the name first appears in that
      row, and otherwise what it held. */
  function Known(g: Grid, ex: seq<string>, cs: seq<Company>, r: nat): string
  {
    if 1 <= r <= |ex| && IndexOf(ex, ex[r - 1]) == Some(r - 1) && LastNamed(cs, ex[r - 1]).Some?
    then LastNamed(cs, ex[r - 1]).value.number
    else Get(g, ColB, r)
  }

  /** The `forEach` leaves column B as `Known` says and every other column
      as it was. */
  lemma {:induction false} PlaceKnownCells(g: Grid, ex: seq<string>, cs: seq<Company>, c: nat, r: nat)
    ensures Get(PlaceKnown(g, ex, cs), c, r) == if c == ColB then Known(g, ex, cs, r) else Get(g, c, r)
    decreases |cs|
  {
    if |cs| > 0 {
      var init, last := cs[..|cs| - 1], cs[|cs| - 1];
      PlaceKnownCells(g, ex, init, c, r);
      PlaceKnownStep(g, ex, cs, c, r);
      match IndexOf(ex, last.name)
      case None =>
        if 1 <= r <= |ex| && IndexOf(ex, ex[r - 1]) == Some(r - 1) {
          assert last.name != ex[r - 1];
        }
      case Some(k) =>
        if c == ColB && r == k + 1 {
          assert ex[r - 1] == last.name;
        } else if c == ColB && 1 <= r <= |ex| && IndexOf(ex, ex[r - 1]) == Some(r - 1) {
          assert last.name != ex[r - 1];
        }
    }
  }

  lemma PlaceKnownStep(g: Grid, ex: seq<string>, cs: seq<Company>, c: nat, r: nat)
    requires |cs| > 0
    ensures var last := cs[|cs| - 1]; var k := IndexOf(ex, last.name);
      Get(PlaceKnown(g, ex, cs), c, r) ==
        if k.Some? && c == ColB && r == k.value + 1 then last.number
        else Get(PlaceKnown(g, ex, cs[..|cs| - 1]), c, r)
  {
    var last := cs[|cs| - 1];
    match IndexOf(ex, last.name)
    case None =>
    case Some(k) =>
      GetPut(PlaceKnown(g, ex, cs[..|cs| - 1]), ColB, k + 1, last.number, c, r);
  }

  /** Row 9 + j of columns D and E holds the name and number of the j-th new
      record; nothing else changes. */
  lemma {:induction false} PlaceNewCells(g: Grid, news: seq<Company>, c: nat, r: nat)
    ensures Get(PlaceNew(g, news), c, r) ==
      if ListRow <= r < ListRow + |news| && c == ColD then news[r - ListRow].name
      else if ListRow <= r < ListRow + |news| && c == ColE then news[r - ListRow].number
      else Get(g, c, r)
    decreases |news|
  {
    if |news| > 0 {
      var j := |news| - 1;
      PlaceNewCells(g, news[..j], c, r);
      PlaceNewStep(g, news, c, r);
      if ListRow <= r < ListRow + j {
        assert news[..j][r - ListRow] == news[r - ListRow];
      }
    }
  }

  lemma PlaceNewStep(g: Grid, news: seq<Company>, c: nat, r: nat)
    requires |news| > 0
    ensures var j := |news| - 1;
      Get(PlaceNew(g, news), c, r) ==
        if r == ListRow + j && c == ColD then news[j].name
        else if r == ListRow + j && c == ColE then news[j].number
        else Get(PlaceNew(g, news[..j]), c, r)
  {
    var j := |news| - 1;
    var g1 := PlaceNew(g, news[..j]);
    GetPut(g1, ColD, ListRow + j, news[j].name, c, r);
    GetPut(Put(g1, ColD, ListRow + j, news[j].name), ColE, ListRow + j, news[j].number, c, r);
  }

  /** The fill makes a column-B cell "-" when it is empty and the column-A
      cell it is paired with is not; nothing else changes. */
  lemma {:induction false} FillColumnCells(g: Grid, lo: nat, n: nat, c: nat, r: nat)
    requires lo >= 1
    ensures Get(FillColumn(g, lo, n), c, r) ==
      if c == ColB && lo <= r < lo + n && Get(g, ColB, r) == "" && Get(g, ColA, ListRow + (r - lo)) != ""
      then "-"
      else Get(g, c, r)
    decreases n
  {
    if n > 0 {
      FillColumnCells(g, lo, n - 1, c, r);
      FillColumnStep(g, lo, n, c, r);
    }
  }

  lemma FillColumnStep(g: Grid, lo: nat, n: nat, c: nat, r: nat)
    requires lo >= 1 && n > 0
    ensures Get(FillColumn(g, lo, n), c, r) ==
      if c == ColB && r == lo + n - 1 && Get(g, ColB, r) == "" && Get(g, ColA, ListRow + n - 1) != ""
      then "-"
      else Get(FillColumn(g, lo, n - 1), c, r)
  {
    var i := n - 1;
    if Get(g, ColB, lo + i) == "" && Get(g, ColA, ListRow + i) != "" {
      GetPut(FillColumn(g, lo, i), ColB, lo + i, "-", c, r);
    }
  }

  /** `clearContent` empties its cells and no others. */
  lemma {:induction false} ClearCells(g: Grid, col: nat, lo: nat, n: nat, c: nat, r: nat)
    requires col >= 1 && lo >= 1
    ensures Get(Clear(g, col, lo, n), c, r) == if c == col && lo <= r < lo + n then "" else Get(g, c, r)
    decreases n
  {
    if n > 0 {
      ClearCells(g, col, lo, n - 1, c, r);
      ClearStep(g, col, lo, n, c, r);
    }
  }

  lemma ClearStep(g: Grid, col: nat, lo: nat, n: nat, c: nat, r: nat)
    requires col >= 1 && lo >= 1 && n > 0
    ensures Get(Clear(g, col, lo, n), c, r) == if c == col && r == lo + n - 1 then "" else Get(Clear(g, col, lo, n - 1), c, r)
  {
    var g' := Clear(g, col, lo, n - 1);
    GetPut(g', col, lo + n - 1, "", c, r);
    assert Clear(g, col, lo, n) == Put(g', col, lo + n - 1, "");
  }

  /** Every cell before the fill: C1 and B8 as set, column B of the other
      rows as the `forEach` left it, the new block in D and E, and the rest
      as it was. */
  lemma StagedCells(g: Grid, cs: seq<Company>, sumCell: string, recipientCell: string, c: nat, r: nat)
    ensures var ex := Existing(g, LastRow(g)); var news := NewCompanies(ex, cs);
      Get(Staged(g, cs, sumCell, recipientCell), c, r) ==
        if c == ColC && r == 1 then sumCell
        else if c == ColB && r == RecipientRow then recipientCell
        else if c == ColB then Known(g, ex, cs, r)
        else if ListRow <= r < ListRow + |news| && c == ColD then news[r - ListRow].name
        else if ListRow <= r < ListRow + |news| && c == ColE then news[r - ListRow].number
        else Get(g, c, r)
  {
    var ex := Existing(g, LastRow(g));
    var g0 := PlaceKnown(g, ex, cs);
    var g1 := PlaceNew(g0, NewCompanies(ex, cs));
    PlaceKnownCells(g, ex, cs, c, r);
    PlaceNewCells(g0, NewCompanies(ex, cs), c, r);
    GetPut(g1, ColC, 1, sumCell, c, r);
    GetPut(Put(g1, ColC, 1, sumCell), ColB, RecipientRow, recipientCell, c, r);
  }

  /** Column A is never written. */
  lemma WrittenKeepsNames(g: Grid, cs: seq<Company>, sumCell: string, recipientCell: string, r: nat)
    requires LastRow(g) >= 1
    ensures Get(Written(g, cs, sumCell, recipientCell), ColA, r) == Get(g, ColA, r)
  {
    FillColumnCells(Staged(g, cs, sumCell, recipientCell), FillFrom(LastRow(g)), FillCount(LastRow(g)), ColA, r);
    StagedCells(g, cs, sumCell, recipientCell, ColA, r);
  }

  /** C1 holds the total, D and E of row 9 + j the j-th record whose name is
      not in column A, and every other cell outside column B is as it was. */
  lemma WrittenOutsideColumnB(g: Grid, cs: seq<Company>, sumCell: string, recipientCell: string, c: nat, r: nat)
    requires LastRow(g) >= 1 && c != ColB
    ensures var news := NewCompanies(Existing(g, LastRow(g)), cs);
      Get(Written(g, cs, sumCell, recipientCell), c, r) ==
        if c == ColC && r == 1 then sumCell
        else if ListRow <= r < ListRow + |news| && c == ColD then news[r - ListRow].name
        else if ListRow <= r < ListRow + |news| && c == ColE then news[r - ListRow].number
        else Get(g, c, r)
  {
    FillColumnCells(Staged(g, cs, sumCell, recipientCell), FillFrom(LastRow(g)), FillCount(LastRow(g)), c, r);
    StagedCells(g, cs, sumCell, recipientCell, c, r);
  }

  /** Column B after `writeToGoogleSheet`: B8 holds the recipient and every
      other row what the `forEach` left there; then, within the fill range
      (row 9 to the last row, taken upwards when the last row is above row 9),
      an empty cell becomes "-" when the column-A cell as many rows below
      row 9 as this row is below the start of the range is not blank. */
  lemma WrittenColumnB(g: Grid, cs: seq<Company>, sumCell: string, recipientCell: string, r: nat)
    requires LastRow(g) >= 1
    ensures var lo, n := FillFrom(LastRow(g)), FillCount(LastRow(g));
      var v := if r == RecipientRow then recipientCell else Known(g, Existing(g, LastRow(g)), cs, r);
      Get(Written(g, cs, sumCell, recipientCell), ColB, r) ==
        if lo <= r < lo + n && v == "" && Get(g, ColA, ListRow + (r - lo)) != "" then "-" else v
  {
    var lo, n := FillFrom(LastRow(g)), FillCount(LastRow(g));
    FillColumnCells(Staged(g, cs, sumCell, recipientCell), lo, n, ColB, r);
    StagedCells(g, cs, sumCell, recipientCell, ColB, r);
    if lo <= r < lo + n {
      StagedCells(g, cs, sumCell, recipientCell, ColA, ListRow + (r - lo));
    }
  }

  /** The promise of the fill: from row 9 to the last row, no organisation
      named in column A is left with an empty column-B cell. */
  lemma WrittenFillsColumnB(g: Grid, cs: seq<Company>, sumCell: string, recipientCell: string, r: nat)
    requires LastRow(g) >= 1 && ListRow <= r <= LastRow(g)
    requires Get(Written(g, cs, sumCell, recipientCell), ColA, r) != ""
    ensures Get(Written(g, cs, sumCell, recipientCell), ColB, r) != ""
  {
    WrittenKeepsNames(g, cs, sumCell, recipientCell, r);
    WrittenListColumnB(g, cs, sumCell, recipientCell, r);
  }

  /** From row 9 to the last row, column B holds what the `forEach` left
      there, or "-" when that is empty and the row names an organisation. */
  lemma WrittenListColumnB(g: Grid, cs: seq<Company>, sumCell: string, recipientCell: string, r: nat)
    requires ListRow <= r <= LastRow(g)
    ensures var v := Known(g, Existing(g, LastRow(g)), cs, r);
      Get(Written(g, cs, sumCell, recipientCell), ColB, r) == if v == "" && Get(g, ColA, r) != "" then "-" else v
  {
    FillCoversList(LastRow(g), r);
    WrittenColumnB(g, cs, sumCell, recipientCell, r);
  }

  lemma FillCoversList(last: nat, r: nat)
    requires ListRow <= r <= last
    ensures FillFrom(last) == ListRow && FillFrom(last) <= r < FillFrom(last) + FillCount(last)
  {
  }

  /** `resetButton` empties column B from row 8 to the last row, columns D
      and E from row 9 to the last row (either range taken upwards when the
      last row is above it) and C1, and leaves every other cell. */
  lemma ResetCells(g: Grid, c: nat, r: nat)
    requires LastRow(g) >= 1
    ensures var last := LastRow(g);
      Get(Reset(g), c, r) ==
        if (c == ColB && Min(RecipientRow, last) <= r <= Max(RecipientRow, last)) ||
           ((c == ColD || c == ColE) && Min(ListRow, last) <= r <= Max(ListRow, last)) ||
           (c == ColC && r == 1)
        then ""
        else Get(g, c, r)
  {
    var last := LastRow(g);
    ResetRangesCells(g, Min(RecipientRow, last), Span(RecipientRow, last), Min(ListRow, last), Span(ListRow, last), c, r);
  }

  /** The clears of `resetButton`: `nb` cells of column B from row `b0`,
      `nd` cells of columns D and E from row `d0`, and C1. */
  function ResetRanges(g: Grid, b0: nat, nb: nat, d0: nat, nd: nat): Grid
    requires b0 >= 1 && d0 >= 1
  {
    Put(Clear(Clear(Clear(g, ColB, b0, nb), ColD, d0, nd), ColE, d0, nd), ColC, 1, "")
  }

  lemma ResetRangesCells(g: Grid, b0: nat, nb: nat, d0: nat, nd: nat, c: nat, r: nat)
    requires b0 >= 1 && d0 >= 1
    ensures Get(ResetRanges(g, b0, nb, d0, nd), c, r) ==
      if (c == ColB && b0 <= r < b0 + nb) || ((c == ColD || c == ColE) && d0 <= r < d0 + nd) || (c == ColC && r == 1)
      then ""
      else Get(g, c, r)
  {
    var g1 := Clear(g, ColB, b0, nb);
    var g2 := Clear(g1, ColD, d0, nd);
    var g3 := Clear(g2, ColE, d0, nd);
    ClearCells(g, ColB, b0, nb, c, r);
    ClearCells(g1, ColD, d0, nd, c, r);
    ClearCells(g2, ColE, d0, nd, c, r);
    GetPut(g3, ColC, 1, "", c, r);
  }

  // ---------------------------------------------------------------------------
  // The active sheet.
  // ---------------------------------------------------------------------------

  /** The sheet `SpreadsheetApp.getActiveSheet()` returns. */
  class Spreadsheet {
    var grid: Grid

    constructor (g: Grid)
      ensures grid == g
    {
      grid := g;
    }

    /** `getLastRow`. */
    method GetLastRow() returns (n: nat)
      ensures n == LastRow(grid)
    {
      n := |grid|;
      assert grid[..n] == grid;
      while n > 0 && RowEmpty(grid[n - 1])
        invariant n <= |grid|
        invariant LastRow(grid) == LastRow(grid[..n])
        decreases n
      {
        assert grid[..n - 1] == grid[..n][..n - 1];
        n := n - 1;
      }
      assert n > 0 ==> grid[..n][n - 1] == grid[n - 1];
    }

    /** `getRange(...).setValue(v)` on one cell. */
    method SetValue(col: nat, row: nat, v: string)
      requires col >= 1 && row >= 1
      modifies this
      ensures grid == Put(old(grid), col, row, v)
    {
      grid := Put(grid, col, row, v);
    }

    /** `writeToGoogleSheet` for the Apps Script copy's records, total and
        recipient. */
    method WriteToGoogleSheet(companies: seq<Company>, sum: Option<real>, render: real -> string, recipient: Option<string>)
      requires LastRow(grid) >= 1
      modifies this
      ensures grid == Written(old(grid), companies, SumCell(sum, render), RecipientCell(recipient))
    {
      var lastRow := GetLastRow();
      var existing := Existing(grid, lastRow);
      var newCompanies := PlaceCompanies(companies, existing);
      PlaceNewCompanies(newCompanies);
      SetValue(ColC, 1, SumCell(sum, render));
      SetValue(ColB, RecipientRow, RecipientCell(recipient));
      FillEmpty(FillFrom(lastRow), FillCount(lastRow));
    }

    /** The `companies.forEach`: a known name's number into column B, an
        unknown name onto `newCompanies`. */
    method PlaceCompanies(companies: seq<Company>, existing: seq<string>) returns (newCompanies: seq<Company>)
      modifies this
      ensures grid == PlaceKnown(old(grid), existing, companies)
      ensures newCompanies == NewCompanies(existing, companies)
    {
      newCompanies := [];
      var k := 0;
      while k < |companies|
        invariant k <= |companies|
        invariant grid == PlaceKnown(old(grid), existing, companies[..k])
        invariant newCompanies == NewCompanies(existing, companies[..k])
        decreases |companies| - k
      {
        var company := companies[k];
        assert companies[..k + 1][..k] == companies[..k];
        var rowIndex := IndexOf(existing, company.name);
        if rowIndex.Some? {
          SetValue(ColB, rowIndex.value + 1, company.number);
        } else {
          newCompanies := newCompanies + [company];
        }
        k := k + 1;
      }
      assert companies[..k] == companies;
    }

    /** `getRange(9, 4, n, 2).setValues(...)`. */
    method PlaceNewCompanies(newCompanies: seq<Company>)
      modifies this
      ensures grid == PlaceNew(old(grid), newCompanies)
    {
      var j := 0;
      while j < |newCompanies|
        invariant j <= |newCompanies|
        invariant grid == PlaceNew(old(grid), newCompanies[..j])
        decreases |newCompanies| - j
      {
        assert newCompanies[..j + 1][..j] == newCompanies[..j];
        SetValue(ColD, ListRow + j, newCompanies[j].name);
        SetValue(ColE, ListRow + j, newCompanies[j].number);
        j := j + 1;
      }
      assert newCompanies[..j] == newCompanies;
    }

    /** The fill: read the column-B values of the range, then make each empty
        one "-" when the column-A cell of row 9 + its index is not blank. */
    method FillEmpty(lo: nat, n: nat)
      requires lo >= 1
      modifies this
      ensures grid == FillColumn(old(grid), lo, n)
    {
      ghost var g0 := grid;
      var values := ColumnValues(ColB, lo, n);
      var i := 0;
      while i < n
        invariant i <= n
        invariant grid == FillColumn(g0, lo, i)
        decreases n - i
      {
        var name := Get(grid, ColA, ListRow + i);
        assert name == Get(g0, ColA, ListRow + i) by {
          FillColumnCells(g0, lo, i, ColA, ListRow + i);
        }
        if values[i] == "" && name != "" {
          SetValue(ColB, lo + i, "-");
        }
        assert grid == FillColumn(g0, lo, i + 1);
        i := i + 1;
      }
    }

    /** `getRange(...).getValues()` on `n` cells of a column from row `lo`. */
    method ColumnValues(col: nat, lo: nat, n: nat) returns (values: seq<string>)
      ensures |values| == n && forall i :: 0 <= i < n ==> values[i] == Get(grid, col, lo + i)
    {
      values := [];
      while |values| < n
        invariant |values| <= n && forall i :: 0 <= i < |values| ==> values[i] == Get(grid, col, lo + i)
        decreases n - |values|
      {
        values := values + [Get(grid, col, lo + |values|)];
      }
    }

    /** `resetButton`. */
    method ResetButton()
      requires LastRow(grid) >= 1
      modifies this
      ensures grid == Reset(old(grid))
    {
      var lastRow := GetLastRow();
      ClearContent(ColB, Min(RecipientRow, lastRow), Span(RecipientRow, lastRow));
      ClearContent(ColD, Min(ListRow, lastRow), Span(ListRow, lastRow));
      ClearContent(ColE, Min(ListRow, lastRow), Span(ListRow, lastRow));
      SetValue(ColC, 1, "");
    }

    /** `clearContent` on `n` cells of a column from row `lo`. */
    method ClearContent(col: nat, lo: nat, n: nat)
      requires col >= 1 && lo >= 1
      modifies this
      ensures grid == Clear(old(grid), col, lo, n)
    {
      var i := 0;
      while i < n
        invariant i <= n
        invariant grid == Clear(old(grid), col, lo, i)
        decreases n - i
      {
        SetValue(col, lo + i, "");
        i := i + 1;
      }
    }
  }
}
