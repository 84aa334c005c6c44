/** The text of a screen snapshot: sparse cells are laid into a grid, one after the other, and the rows are joined. */
module Screen {
  import opened Options
  import opened Text

  datatype TextCell = Cell(text: string) | WideContinuation

  datatype SnapshotCell = SnapshotCell(r: nat, c: nat, text: string, wide: bool)

  datatype Snapshot = Snapshot(rows: nat, cols: nat, cells: seq<SnapshotCell>)

  // ---- The grid ----

  predicate InRange(s: Snapshot, x: SnapshotCell) {
    x.r < s.rows && x.c < s.cols
  }

  /** What one cell does to position (`r`, `c`). */
  function Laid(s: Snapshot, x: SnapshotCell, r: nat, c: nat, was: TextCell): TextCell {
    if !InRange(s, x) then was
    else if x.r == r && x.c == c then if x.text == "" && was == WideContinuation then was else Cell(x.text)
    else if x.wide && x.r == r && x.c + 1 == c && was == Cell("") then WideContinuation
    else was
  }

  /** Position (`r`, `c`) after the first `k` cells. */
  function Filled(s: Snapshot, k: nat, r: nat, c: nat): TextCell
    requires k <= |s.cells|
  {
    if k == 0 then Cell("") else Laid(s, s.cells[k - 1], r, c, Filled(s, k - 1, r, c))
  }

  method Lay(s: Snapshot, x: SnapshotCell, grid: array2<TextCell>)
    requires grid.Length0 == s.rows && grid.Length1 == s.cols
    modifies grid
    ensures forall r, c :: 0 <= r < s.rows && 0 <= c < s.cols ==> grid[r, c] == Laid(s, x, r, c, old(grid[r, c]))
  {
    if !InRange(s, x) {
      return;
    }
    if !(x.text == "" && grid[x.r, x.c] == WideContinuation) {
      grid[x.r, x.c] := Cell(x.text);
    }
    if x.wide && x.c + 1 < s.cols && grid[x.r, x.c + 1] == Cell("") {
      grid[x.r, x.c + 1] := WideContinuation;
    }
  }

  // ---- The text ----

  function CellText(x: TextCell): string {
    match x
    case Cell(text) => if text == "" then " " else text
    case WideContinuation => ""
  }

  function RowLine(row: seq<TextCell>): string {
    if row == [] then "" else RowLine(row[..|row| - 1]) + CellText(row[|row| - 1])
  }

  function RowText(row: seq<TextCell>): string {
    TrimEndMatches(RowLine(row), ' ')
  }

  function Row(s: Snapshot, r: nat): seq<TextCell> {
    seq(s.cols, c requires 0 <= c => Filled(s, |s.cells|, r, c))
  }

  function Rows(s: Snapshot): seq<string> {
    seq(s.rows, r requires 0 <= r => RowText(Row(s, r)))
  }

  function TextOf(s: Snapshot): string {
    if s.rows == 0 || s.cols == 0 then "" else Join(Rows(s), "\n")
  }

  /** The loop over the cells. */
  method FillGrid(s: Snapshot) returns (grid: array2<TextCell>)
    ensures fresh(grid) && grid.Length0 == s.rows && grid.Length1 == s.cols
    ensures forall r, c :: 0 <= r < s.rows && 0 <= c < s.cols ==> grid[r, c] == Filled(s, |s.cells|, r, c)
  {
    hide Laid;
    grid := new TextCell[s.rows, s.cols]((i, j) => Cell(""));
    for k := 0 to |s.cells|
      invariant forall r, c :: 0 <= r < s.rows && 0 <= c < s.cols ==> grid[r, c] == Filled(s, k, r, c)
    {
      Lay(s, s.cells[k], grid);
    }
  }

  method ToText(s: Snapshot) returns (text: string)
    ensures text == TextOf(s)
  {
    hide Filled, RowText, Join;
    if s.rows == 0 || s.cols == 0 {
      return "";
    }
    var grid := FillGrid(s);
    var lines := [];
    for r := 0 to s.rows
      invariant lines == Rows(s)[..r]
      invariant forall i, c :: 0 <= i < s.rows && 0 <= c < s.cols ==> grid[i, c] == Filled(s, |s.cells|, i, c)
    {
      var line := RowToText(grid, r, Row(s, r));
      lines := lines + [line];
    }
    assert Rows(s)[..s.rows] == Rows(s);
    text := Join(lines, "\n");
  }

  method RowToText(grid: array2<TextCell>, r: nat, ghost row: seq<TextCell>) returns (line: string)
    requires r < grid.Length0 && |row| == grid.Length1
    requires forall c :: 0 <= c < |row| ==> grid[r, c] == row[c]
    ensures line == RowText(row)
  {
    line := "";
    for c := 0 to grid.Length1
      invariant line == RowLine(row[..c])
    {
      assert row[..c + 1][..c] == row[..c];
      line := line + CellText(grid[r, c]);
    }
    assert row[..|row|] == row;
    line := TrimEndMatches(line, ' ');
  }

  // ---- The closed form ----

  predicate Distinct(cells: seq<SnapshotCell>) {
    forall i, j :: 0 <= i < j < |cells| ==> cells[i].r != cells[j].r || cells[i].c != cells[j].c
  }

  ghost predicate HasText(cells: seq<SnapshotCell>, r: nat, c: nat, text: string) {
    text != "" && exists x :: x in cells && x.r == r && x.c == c && x.text == text
  }

  /** A wide cell sits to the left of (`r`, `c`). */
  ghost predicate HasWide(cells: seq<SnapshotCell>, r: nat, c: nat) {
    exists x :: x in cells && x.r == r && x.c + 1 == c && x.wide
  }

  /** What a position shows, in terms of the cells as a set. */
  ghost predicate Shows(cells: seq<SnapshotCell>, r: nat, c: nat, shown: TextCell) {
    if exists text :: HasText(cells, r, c, text) then shown.Cell? && HasText(cells, r, c, shown.text)
    else if HasWide(cells, r, c) then shown == WideContinuation
    else shown == Cell("")
  }

  lemma {:induction false} FilledShows(s: Snapshot, k: nat, r: nat, c: nat)
    requires Distinct(s.cells) && k <= |s.cells| && r < s.rows && c < s.cols
    ensures Shows(s.cells[..k], r, c, Filled(s, k, r, c))
  {
    if k > 0 {
      FilledShows(s, k - 1, r, c);
      var before, x := s.cells[..k - 1], s.cells[k - 1];
      assert s.cells[..k] == before + [x];
      assert forall y :: y in before ==> y.r != x.r || y.c != x.c;
      LaidShows(s, before, x, r, c, Filled(s, k - 1, r, c));
    }
  }

  lemma LaidShows(s: Snapshot, before: seq<SnapshotCell>, x: SnapshotCell, r: nat, c: nat, was: TextCell)
    requires r < s.rows && c < s.cols && Shows(before, r, c, was)
    requires forall y :: y in before ==> y.r != x.r || y.c != x.c
    ensures Shows(before + [x], r, c, Laid(s, x, r, c, was))
  {
    var after := before + [x];
    assert forall y :: y in after <==> y in before || y == x;
    assert forall text ::
        HasText(after, r, c, text) <==>
          HasText(before, r, c, text) || (x.r == r && x.c == c && x.text == text && text != "");
    assert HasWide(after, r, c) <==> HasWide(before, r, c) || (x.r == r && x.c + 1 == c && x.wide);
    if x.r == r && x.c == c {
      assert forall text :: !HasText(before, r, c, text);
      assert x.text != "" ==> HasText(after, r, c, x.text);
    }
  }

  /**
   Whatever the cells are, the last one at a position wins if it has a text: neither earlier cells
   nor a wide neighbour matter.
   */
  lemma {:induction false} LastTextWins(s: Snapshot, k: nat, j: nat)
    requires j < k <= |s.cells| && InRange(s, s.cells[j]) && s.cells[j].text != ""
    requires forall i :: j < i < k ==> s.cells[i].r != s.cells[j].r || s.cells[i].c != s.cells[j].c
    ensures Filled(s, k, s.cells[j].r, s.cells[j].c) == Cell(s.cells[j].text)
  {
    if j < k - 1 {
      LastTextWins(s, k - 1, j);
    }
  }

  lemma ShownOnce(cells: seq<SnapshotCell>, r: nat, c: nat, a: TextCell, b: TextCell)
    requires Distinct(cells) && Shows(cells, r, c, a) && Shows(cells, r, c, b)
    ensures a == b
  {
  }

  /** Cells that can be seen: the others are empty and not wide, such as the right halves of wide characters. */
  predicate Significant(x: SnapshotCell) {
    x.text != "" || x.wide
  }

  lemma ShowsOnlySignificant(a: seq<SnapshotCell>, b: seq<SnapshotCell>, r: nat, c: nat, shown: TextCell)
    requires forall x :: Significant(x) ==> (x in a <==> x in b)
    requires Shows(a, r, c, shown)
    ensures Shows(b, r, c, shown)
  {
    assert forall text :: HasText(a, r, c, text) <==> HasText(b, r, c, text) by {
      assert forall x :: x in a && x.text != "" ==> Significant(x) && x in b;
      assert forall x :: x in b && x.text != "" ==> Significant(x) && x in a;
    }
    assert HasWide(a, r, c) <==> HasWide(b, r, c) by {
      assert forall x :: x in a && x.wide ==> Significant(x) && x in b;
      assert forall x :: x in b && x.wide ==> Significant(x) && x in a;
    }
  }

  lemma SamePosition(s: Snapshot, t: Snapshot, r: nat, c: nat)
    requires s.rows == t.rows && s.cols == t.cols && Distinct(s.cells) && Distinct(t.cells)
    requires forall x :: Significant(x) ==> (x in s.cells <==> x in t.cells)
    requires r < s.rows && c < s.cols
    ensures Filled(s, |s.cells|, r, c) == Filled(t, |t.cells|, r, c)
  {
    hide Shows, Distinct, Filled, Significant;
    FilledShows(s, |s.cells|, r, c);
    FilledShows(t, |t.cells|, r, c);
    assert s.cells[..|s.cells|] == s.cells && t.cells[..|t.cells|] == t.cells;
    ShowsOnlySignificant(s.cells, t.cells, r, c, Filled(s, |s.cells|, r, c));
    ShownOnce(t.cells, r, c, Filled(s, |s.cells|, r, c), Filled(t, |t.cells|, r, c));
  }

  /**
   The text is a function of the set of cells that can be seen: neither the order in which the
   cells come nor the empty cells that are sent along make a difference.
   */
  lemma SameText(s: Snapshot, t: Snapshot)
    requires s.rows == t.rows && s.cols == t.cols && Distinct(s.cells) && Distinct(t.cells)
    requires forall x :: Significant(x) ==> (x in s.cells <==> x in t.cells)
    ensures TextOf(s) == TextOf(t)
  {
    hide Distinct, Filled, Significant, RowText, Join;
    forall r | 0 <= r < s.rows ensures Row(s, r) == Row(t, r) {
      forall c | 0 <= c < s.cols ensures Row(s, r)[c] == Row(t, r)[c] {
        SamePosition(s, t, r, c);
      }
    }
    assert Rows(s) == Rows(t);
  }

  // ---- Rows ----

  lemma {:induction false} FilledIsSent(s: Snapshot, k: nat, r: nat, c: nat)
    requires k <= |s.cells|
    ensures var f := Filled(s, k, r, c); f.Cell? && f.text != "" ==> exists x :: x in s.cells && x.text == f.text
  {
    if k > 0 {
      FilledIsSent(s, k - 1, r, c);
      assert s.cells[k - 1] in s.cells;
    }
  }

  lemma {:induction false} RowLineLacks(row: seq<TextCell>, d: char)
    requires d != ' ' && forall c :: 0 <= c < |row| && row[c].Cell? ==> d !in row[c].text
    ensures d !in RowLine(row)
  {
    if row != [] {
      RowLineLacks(row[..|row| - 1], d);
    }
  }

  /** As long as no cell holds a line feed, the text has exactly one line per row, each without trailing spaces. */
  lemma OneLinePerRow(s: Snapshot)
    requires s.rows > 0 && s.cols > 0 && forall x :: x in s.cells ==> '\n' !in x.text
    ensures Split(TextOf(s), '\n') == Rows(s) && |Rows(s)| == s.rows
    ensures forall r :: 0 <= r < s.rows ==> (Rows(s)[r] != "" ==> Rows(s)[r][|Rows(s)[r]| - 1] != ' ')
  {
    hide TrimEndMatches, RowLine, Filled, Join, Split;
    forall r | 0 <= r < s.rows
      ensures '\n' !in Rows(s)[r] && (Rows(s)[r] != "" ==> Rows(s)[r][|Rows(s)[r]| - 1] != ' ')
    {
      forall c | 0 <= c < s.cols && Row(s, r)[c].Cell? ensures '\n' !in Row(s, r)[c].text {
        FilledIsSent(s, |s.cells|, r, c);
      }
      RowLineLacks(Row(s, r), '\n');
      TrimEndMatchesGives(RowLine(Row(s, r)), ' ');
    }
    SplitJoin(Rows(s), '\n');
  }

  // ---- What a row shows ----

  lemma {:induction false} RowLineConcat(a: seq<TextCell>, b: seq<TextCell>)
    ensures RowLine(a + b) == RowLine(a) + RowLine(b)
  {
    hide CellText;
    if b == [] {
      assert a + b == a;
    } else {
      var n := |b| - 1;
      assert (a + b)[..|a + b| - 1] == a + b[..n];
      RowLineConcat(a, b[..n]);
    }
  }

  lemma RowLineOne(x: TextCell)
    ensures RowLine([x]) == CellText(x)
  {
    assert [x][..0] == [];
  }

  /** A wide character takes two positions of a row and one place in its text: the right half adds nothing. */
  lemma {:induction false} RightHalvesAreSilent(row: seq<TextCell>, k: nat)
    requires k < |row| && row[k] == WideContinuation
    ensures RowLine(row) == RowLine(row[..k] + row[k + 1..])
  {
    hide RowLine;
    assert row == row[..k] + [WideContinuation] + row[k + 1..];
    RowLineConcat(row[..k] + [WideContinuation], row[k + 1..]);
    RowLineConcat(row[..k], [WideContinuation]);
    RowLineConcat(row[..k], row[k + 1..]);
    RowLineOne(WideContinuation);
    assert RowLine(row[..k]) + "" == RowLine(row[..k]);
  }

  /**
   Without wide characters position `c` of a row of single characters is place `c` of its text, a
   space where it is empty.
   */
  lemma {:induction false} PositionsArePlaces(row: seq<TextCell>)
    requires forall c :: 0 <= c < |row| ==> row[c].Cell? && |row[c].text| <= 1
    ensures |RowLine(row)| == |row|
    ensures forall c :: 0 <= c < |row| ==> RowLine(row)[c] == if row[c].text == "" then ' ' else row[c].text[0]
  {
    if row != [] {
      PositionsArePlaces(row[..|row| - 1]);
    }
  }

  /** In any row the text of a cell comes after the texts of the cells to its left and before those to its right. */
  lemma CellIsShown(row: seq<TextCell>, k: nat)
    requires k < |row| && row[k].Cell? && row[k].text != ""
    ensures RowLine(row) == RowLine(row[..k]) + row[k].text + RowLine(row[k + 1..])
  {
    hide RowLine;
    assert row == row[..k] + [row[k]] + row[k + 1..];
    RowLineConcat(row[..k] + [row[k]], row[k + 1..]);
    RowLineConcat(row[..k], [row[k]]);
    RowLineOne(row[k]);
  }

  /** Only spaces at the end are cut off. */
  lemma OnlySpacesAreCut(row: seq<TextCell>)
    ensures RowText(row) <= RowLine(row)
    ensures forall i :: |RowText(row)| <= i < |RowLine(row)| ==> RowLine(row)[i] == ' '
    ensures var t := RowText(row); t != "" ==> t[|t| - 1] != ' '
  {
    TrimEndMatchesGives(RowLine(row), ' ');
  }

  /** An empty grid has no text. */
  lemma EmptyGridIsEmpty(s: Snapshot)
    requires s.rows == 0 || s.cols == 0
    ensures TextOf(s) == ""
  {
  }
}
