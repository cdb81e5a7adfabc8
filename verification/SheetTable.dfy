/** The HTML table of a trimmed sheet: which cells it emits, that they tile the
    sheet, and where a reader of the table puts them. */
module SheetTable {
  import opened Options
  import opened Sheet
  import Concat
  import Entities
  import Utf8

  datatype Span = Span(rows: nat, cols: nat)

  function FindStart(merges: seq<Merge>, row: nat, col: nat): (index: Option<nat>)
    ensures index.Some? ==>
              index.value < |merges| && merges[index.value].startRow == row && merges[index.value].startCol == col
    ensures index.None? ==> forall i :: 0 <= i < |merges| ==> merges[i].startRow != row || merges[i].startCol != col
    ensures index.Some? ==> forall i :: 0 <= i < index.value ==> merges[i].startRow != row || merges[i].startCol != col
  {
    if merges == [] then None
    else
      var n := |merges| - 1;
      var earlier := FindStart(merges[..n], row, col);
      if earlier.Some? then earlier
      else if merges[n].startRow == row && merges[n].startCol == col then Some(n) else None
  }

  /** A merge covers the position without starting there. */
  predicate Covered(merges: seq<Merge>, row: nat, col: nat) {
    exists i :: 0 <= i < |merges| && merges[i].Contains(row, col)
             && !(merges[i].startRow == row && merges[i].startCol == col)
  }

  function SpanOf(merges: seq<Merge>, row: nat, col: nat): Span
    requires forall i :: 0 <= i < |merges| ==> merges[i].WellFormed()
  {
    match FindStart(merges, row, col)
    case Some(i) =>
      assert merges[i].WellFormed();
      Span(merges[i].endRow - merges[i].startRow + 1, merges[i].endCol - merges[i].startCol + 1)
    case None => Span(1, 1)
  }

  /** A cell of the table with its position and spans. */
  datatype Cell = Cell(row: nat, col: nat, span: Span) {
    predicate Covers(r: nat, c: nat) {
      row <= r < row + span.rows && col <= c < col + span.cols
    }
  }

  function CellOf(merges: seq<Merge>, row: nat, col: nat): Cell
    requires forall i :: 0 <= i < |merges| ==> merges[i].WellFormed()
  {
    Cell(row, col, SpanOf(merges, row, col))
  }

  // -------------------------------------------------------------------- tiling

  function Containing(merges: seq<Merge>, row: nat, col: nat): (index: Option<nat>)
    ensures index.Some? ==> index.value < |merges| && merges[index.value].Contains(row, col)
    ensures index.None? ==> forall i :: 0 <= i < |merges| ==> !merges[i].Contains(row, col)
  {
    if merges == [] then None
    else if merges[|merges| - 1].Contains(row, col) then Some(|merges| - 1)
    else Containing(merges[..|merges| - 1], row, col)
  }

  /** The position whose cell covers the given one. */
  function Owner(merges: seq<Merge>, row: nat, col: nat): (nat, nat) {
    match Containing(merges, row, col)
    case Some(i) => (merges[i].startRow, merges[i].startCol)
    case None => (row, col)
  }

  lemma OneMerge(merges: seq<Merge>, height: nat, width: nat, i: nat, j: nat, r: nat, c: nat)
    requires MergesOk(merges, height, width) && i < |merges| && j < |merges|
    requires merges[i].Contains(r, c) && merges[j].Contains(r, c)
    ensures i == j
  {
  }

  /** Every position is covered by the cell of its owner and by no other
      emitted cell; the owner is emitted and lies above and to the left. */
  lemma Tiling(merges: seq<Merge>, height: nat, width: nat, r: nat, c: nat)
    requires MergesOk(merges, height, width) && r < height && c < width
    ensures var (a, b) := Owner(merges, r, c);
            a <= r && b <= c && !Covered(merges, a, b) && CellOf(merges, a, b).Covers(r, c)
    ensures forall a: nat, b: nat :: !Covered(merges, a, b) && CellOf(merges, a, b).Covers(r, c) ==>
              (a, b) == Owner(merges, r, c)
  {
    OwnerCovers(merges, height, width, r, c);
    forall a: nat, b: nat | !Covered(merges, a, b) && CellOf(merges, a, b).Covers(r, c)
      ensures (a, b) == Owner(merges, r, c)
    {
      CoveringIsOwner(merges, height, width, a, b, r, c);
    }
  }

  lemma OwnerCovers(merges: seq<Merge>, height: nat, width: nat, r: nat, c: nat)
    requires MergesOk(merges, height, width) && r < height && c < width
    ensures var (a, b) := Owner(merges, r, c);
            a <= r && b <= c && !Covered(merges, a, b) && CellOf(merges, a, b).Covers(r, c)
  {
    hide Disjoint;
    match Containing(merges, r, c)
    case Some(i) =>
      var a, b := merges[i].startRow, merges[i].startCol;
      assert merges[i].Contains(a, b);
      var k := FindStart(merges, a, b);
      StartContains(merges, height, width, a, b);
      OneMerge(merges, height, width, i, k.value, a, b);
      if j :| 0 <= j < |merges| && merges[j].Contains(a, b) && !(merges[j].startRow == a && merges[j].startCol == b) {
        OneMerge(merges, height, width, i, j, a, b);
      }
    case None =>
      StartContains(merges, height, width, r, c);
  }

  lemma StartContains(merges: seq<Merge>, height: nat, width: nat, row: nat, col: nat)
    requires MergesOk(merges, height, width)
    ensures var start := FindStart(merges, row, col);
            start.Some? ==> merges[start.value].Contains(row, col)
  {
    hide Disjoint;
  }

  lemma CoveringIsOwner(merges: seq<Merge>, height: nat, width: nat, a: nat, b: nat, r: nat, c: nat)
    requires MergesOk(merges, height, width) && !Covered(merges, a, b) && CellOf(merges, a, b).Covers(r, c)
    ensures (a, b) == Owner(merges, r, c)
  {
    hide Disjoint;
    var k, i := FindStart(merges, a, b), Containing(merges, r, c);
    if k.Some? {
      assert merges[k.value].Contains(r, c);
      OneMerge(merges, height, width, k.value, i.value, r, c);
    }
  }

  /** No cell reaches beyond the sheet. */
  lemma CellFits(merges: seq<Merge>, height: nat, width: nat, row: nat, col: nat)
    requires MergesOk(merges, height, width) && row < height && col < width
    ensures var span := SpanOf(merges, row, col);
            span.rows >= 1 && span.cols >= 1 && row + span.rows <= height && col + span.cols <= width
  {
    hide Disjoint;
  }

  // ---------------------------------------------------------- reading the table

  /** The cells emitted for the first `n` positions of a row. */
  function RowCells(merges: seq<Merge>, row: nat, n: nat): seq<Cell>
    requires forall i :: 0 <= i < |merges| ==> merges[i].WellFormed()
  {
    if n == 0 then []
    else
      var before := RowCells(merges, row, n - 1);
      if Covered(merges, row, n - 1) then before else before + [CellOf(merges, row, n - 1)]
  }

  function TableCells(merges: seq<Merge>, rows: nat, width: nat): seq<Cell>
    requires forall i :: 0 <= i < |merges| ==> merges[i].WellFormed()
  {
    if rows == 0 then [] else TableCells(merges, rows - 1, width) + RowCells(merges, rows - 1, width)
  }

  function Spans(cells: seq<Cell>): seq<Span> {
    if cells == [] then [] else Spans(cells[..|cells| - 1]) + [cells[|cells| - 1].span]
  }

  predicate Occupied(placed: seq<Cell>, row: nat, col: nat) {
    exists k :: 0 <= k < |placed| && placed[k].Covers(row, col)
  }

  /** The first free column of the row from `col` on. */
  function FirstFree(placed: seq<Cell>, row: nat, col: nat, width: nat): nat
    decreases width - col
  {
    if col < width && Occupied(placed, row, col) then FirstFree(placed, row, col + 1, width) else col
  }

  /** What a reader of the table does with one row, of which only the spans are
      written: each cell takes the first free column after the one before it. */
  function PlaceRow(placed: seq<Cell>, row: nat, spans: seq<Span>, width: nat): (seq<Cell>, nat) {
    if spans == [] then (placed, 0)
    else
      var (cells, col) := PlaceRow(placed, row, spans[..|spans| - 1], width);
      var span, at := spans[|spans| - 1], FirstFree(cells, row, col, width);
      (cells + [Cell(row, at, span)], at + span.cols)
  }

  function PlaceTable(rows: seq<seq<Span>>, width: nat): seq<Cell> {
    if rows == [] then []
    else PlaceRow(PlaceTable(rows[..|rows| - 1], width), |rows| - 1, rows[|rows| - 1], width).0
  }

  ghost predicate Precedes(a: (nat, nat), row: nat, col: nat) {
    a.0 < row || (a.0 == row && a.1 < col)
  }

  lemma {:induction false} RowOccupies(merges: seq<Merge>, height: nat, width: nat, row: nat, n: nat, r: nat, c: nat)
    requires MergesOk(merges, height, width) && r < height && c < width && n <= width && row < height
    ensures Occupied(RowCells(merges, row, n), r, c) <==> Owner(merges, r, c).0 == row && Owner(merges, r, c).1 < n
  {
    hide MergesOk, Owner, Covered;
    MergesFormed(merges, height, width);
    if n > 0 {
      RowOccupies(merges, height, width, row, n - 1, r, c);
      Tiling(merges, height, width, r, c);
      if !Covered(merges, row, n - 1) {
        OccupiedSnoc(RowCells(merges, row, n - 1), CellOf(merges, row, n - 1), r, c);
      }
    }
  }

  lemma MergesFormed(merges: seq<Merge>, height: nat, width: nat)
    requires MergesOk(merges, height, width)
    ensures forall i :: 0 <= i < |merges| ==> merges[i].WellFormed()
  {
  }

  lemma OccupiedSnoc(placed: seq<Cell>, cell: Cell, r: nat, c: nat)
    ensures Occupied(placed + [cell], r, c) <==> Occupied(placed, r, c) || cell.Covers(r, c)
  {
    var more := placed + [cell];
    assert more[|placed|] == cell;
    assert forall k :: 0 <= k < |placed| ==> more[k] == placed[k];
  }

  lemma OccupiedAppend(a: seq<Cell>, b: seq<Cell>, r: nat, c: nat)
    ensures Occupied(a + b, r, c) <==> Occupied(a, r, c) || Occupied(b, r, c)
  {
    assert forall k :: 0 <= k < |a| ==> (a + b)[k] == a[k];
    assert forall k :: 0 <= k < |b| ==> (a + b)[|a| + k] == b[k];
  }

  lemma {:induction false} TableOccupies(merges: seq<Merge>, height: nat, width: nat, rows: nat, r: nat, c: nat)
    requires MergesOk(merges, height, width) && r < height && c < width && rows <= height
    ensures forall i :: 0 <= i < |merges| ==> merges[i].WellFormed()
    ensures Occupied(TableCells(merges, rows, width), r, c) <==> Owner(merges, r, c).0 < rows
  {
    hide MergesOk, Owner, Covered, RowCells, Occupied;
    MergesFormed(merges, height, width);
    Tiling(merges, height, width, r, c);
    if rows == 0 {
      NothingOccupied(r, c);
    } else {
      TableOccupies(merges, height, width, rows - 1, r, c);
      RowOccupies(merges, height, width, rows - 1, width, r, c);
      OccupiedAppend(TableCells(merges, rows - 1, width), RowCells(merges, rows - 1, width), r, c);
    }
  }

  lemma NothingOccupied(r: nat, c: nat)
    ensures !Occupied([], r, c)
  {
  }

  lemma FirstFreeIs(placed: seq<Cell>, row: nat, from: nat, at: nat, width: nat)
    requires from <= at < width && !Occupied(placed, row, at)
    requires forall c :: from <= c < at ==> Occupied(placed, row, c)
    ensures FirstFree(placed, row, from, width) == at
    decreases at - from
  {
    hide Occupied;
    if from < at {
      FirstFreeIs(placed, row, from + 1, at, width);
    }
  }

  lemma SpansSnoc(cells: seq<Cell>, cell: Cell)
    ensures Spans(cells + [cell]) == Spans(cells) + [cell.span]
  {
    assert (cells + [cell])[..|cells|] == cells;
  }

  /** What is occupied when the cells before (row, n) have been placed. */
  lemma BeforeOccupies(merges: seq<Merge>, height: nat, width: nat, row: nat, n: nat, r: nat, c: nat)
    requires MergesOk(merges, height, width) && r < height && c < width && n <= width && row < height
    ensures forall i :: 0 <= i < |merges| ==> merges[i].WellFormed()
    ensures Occupied(TableCells(merges, row, width) + RowCells(merges, row, n), r, c)
       <==> Precedes(Owner(merges, r, c), row, n)
  {
    hide MergesOk, Owner, Covered, RowCells, Occupied, TableCells;
    MergesFormed(merges, height, width);
    TableOccupies(merges, height, width, row, r, c);
    RowOccupies(merges, height, width, row, n, r, c);
    OccupiedAppend(TableCells(merges, row, width), RowCells(merges, row, n), r, c);
  }

  /** The next emitted cell is placed at its own column. */
  lemma NextPlace(merges: seq<Merge>, height: nat, width: nat, row: nat, n: nat, from: nat)
    requires MergesOk(merges, height, width) && row < height && n < width && !Covered(merges, row, n) && from <= n
    ensures forall i :: 0 <= i < |merges| ==> merges[i].WellFormed()
    ensures FirstFree(TableCells(merges, row, width) + RowCells(merges, row, n), row, from, width) == n
  {
    hide MergesOk, Covered, RowCells, Occupied, TableCells, FirstFree;
    MergesFormed(merges, height, width);
    var placed := TableCells(merges, row, width) + RowCells(merges, row, n);
    OwnsItself(merges, height, width, row, n);
    BeforeOccupies(merges, height, width, row, n, row, n);
    forall c | from <= c < n
      ensures Occupied(placed, row, c)
    {
      Tiling(merges, height, width, row, c);
      BeforeOccupies(merges, height, width, row, n, row, c);
    }
    FirstFreeIs(placed, row, from, n, width);
  }

  lemma OwnsItself(merges: seq<Merge>, height: nat, width: nat, row: nat, col: nat)
    requires MergesOk(merges, height, width) && row < height && col < width && !Covered(merges, row, col)
    ensures Owner(merges, row, col) == (row, col)
  {
    CellFits(merges, height, width, row, col);
    CoveringIsOwner(merges, height, width, row, col, row, col);
  }

  /** The column after the last cell of the row is not beyond the next cell. */
  ghost predicate Clear(merges: seq<Merge>, row: nat, n: nat, width: nat, from: nat) {
    forall c :: n <= c < width && !Covered(merges, row, c) ==> from <= c
  }

  lemma StaysClear(merges: seq<Merge>, height: nat, width: nat, row: nat, n: nat)
    requires MergesOk(merges, height, width) && row < height && n < width && !Covered(merges, row, n)
    ensures Clear(merges, row, n + 1, width, n + SpanOf(merges, row, n).cols)
  {
    hide Covered, MergesOk;
    MergesFormed(merges, height, width);
    CellFits(merges, height, width, row, n);
    forall c | n + 1 <= c < width && !Covered(merges, row, c)
      ensures n + SpanOf(merges, row, n).cols <= c
    {
      OwnsItself(merges, height, width, row, c);
      if CellOf(merges, row, n).Covers(row, c) {
        CoveringIsOwner(merges, height, width, row, n, row, c);
      }
    }
  }

  lemma PlaceSnoc(placed: seq<Cell>, row: nat, spans: seq<Span>, span: Span, width: nat)
    ensures PlaceRow(placed, row, spans + [span], width) ==
            var (cells, col) := PlaceRow(placed, row, spans, width);
            var at := FirstFree(cells, row, col, width);
            (cells + [Cell(row, at, span)], at + span.cols)
  {
    hide FirstFree;
    assert (spans + [span])[..|spans|] == spans;
  }

  lemma RowStep(merges: seq<Merge>, height: nat, width: nat, row: nat, n: nat, cells: seq<Cell>, from: nat)
    requires MergesOk(merges, height, width) && row < height && n < width && !Covered(merges, row, n)
    requires (cells, from) == PlaceRow(TableCells(merges, row, width), row, Spans(RowCells(merges, row, n)), width)
    requires cells == TableCells(merges, row, width) + RowCells(merges, row, n) && Clear(merges, row, n, width, from)
    ensures var cell := CellOf(merges, row, n);
            PlaceRow(TableCells(merges, row, width), row, Spans(RowCells(merges, row, n) + [cell]), width) ==
            (cells + [cell], n + cell.span.cols)
  {
    hide MergesOk, FirstFree, TableCells, RowCells, PlaceRow, Spans, SpanOf;
    MergesFormed(merges, height, width);
    NextPlace(merges, height, width, row, n, from);
    SpansSnoc(RowCells(merges, row, n), CellOf(merges, row, n));
    PlaceSnoc(TableCells(merges, row, width), row, Spans(RowCells(merges, row, n)), SpanOf(merges, row, n), width);
  }

  lemma {:induction false} RowReadsBack(merges: seq<Merge>, height: nat, width: nat, row: nat, n: nat)
    requires MergesOk(merges, height, width) && row < height && n <= width
    ensures forall i :: 0 <= i < |merges| ==> merges[i].WellFormed()
    ensures var (cells, from) := PlaceRow(TableCells(merges, row, width), row, Spans(RowCells(merges, row, n)), width);
            cells == TableCells(merges, row, width) + RowCells(merges, row, n) && Clear(merges, row, n, width, from)
  {
    hide MergesOk, Covered, FirstFree, TableCells, PlaceRow, SpanOf;
    MergesFormed(merges, height, width);
    var above := TableCells(merges, row, width);
    if n == 0 {
      PlaceNothing(above, row, width);
    } else {
      RowReadsBack(merges, height, width, row, n - 1);
      if !Covered(merges, row, n - 1) {
        var (cells, from) := PlaceRow(above, row, Spans(RowCells(merges, row, n - 1)), width);
        RowStep(merges, height, width, row, n - 1, cells, from);
        StaysClear(merges, height, width, row, n - 1);
        Concat.AppendAssoc(above, RowCells(merges, row, n - 1), [CellOf(merges, row, n - 1)]);
      }
    }
  }

  lemma PlaceNothing(placed: seq<Cell>, row: nat, width: nat)
    ensures PlaceRow(placed, row, Spans([]), width) == (placed, 0)
  {
  }

  function RowSpans(merges: seq<Merge>, rows: nat, width: nat): seq<seq<Span>>
    requires forall i :: 0 <= i < |merges| ==> merges[i].WellFormed()
  {
    if rows == 0 then [] else RowSpans(merges, rows - 1, width) + [Spans(RowCells(merges, rows - 1, width))]
  }

  /** Reading the table puts every emitted cell back at its own row and column,
      though only its spans are written. */
  lemma {:induction false} TableReadsBack(merges: seq<Merge>, height: nat, width: nat, rows: nat)
    requires MergesOk(merges, height, width) && rows <= height
    ensures forall i :: 0 <= i < |merges| ==> merges[i].WellFormed()
    ensures |RowSpans(merges, rows, width)| == rows
    ensures PlaceTable(RowSpans(merges, rows, width), width) == TableCells(merges, rows, width)
  {
    hide MergesOk, RowCells, PlaceRow;
    MergesFormed(merges, height, width);
    if rows > 0 {
      TableReadsBack(merges, height, width, rows - 1);
      RowReadsBack(merges, height, width, rows - 1, width);
      var before := RowSpans(merges, rows - 1, width);
      assert RowSpans(merges, rows, width)[..rows - 1] == before;
    }
  }

  // -------------------------------------------------------------------- markup

  function RowspanText(value: nat): string {
    " rowspan=\"" + Utf8.Digits(value) + "\""
  }

  function ColspanText(value: nat): string {
    " colspan=\"" + Utf8.Digits(value) + "\""
  }

  /** The spans, each written only when it is more than one. */
  function Attributes(span: Span): string {
    if span.rows > 1 && span.cols > 1 then RowspanText(span.rows) + ColspanText(span.cols)
    else if span.rows > 1 then RowspanText(span.rows)
    else if span.cols > 1 then ColspanText(span.cols)
    else ""
  }

  function Markup(attributes: string, text: string): string {
    "<td" + attributes + ">" + Entities.HtmlEscape(text) + "</td>"
  }

  function CellMarkup(cell: Cell, text: string): string {
    Markup(Attributes(cell.span), text)
  }

  predicate Within(cells: seq<Cell>, width: nat) {
    forall i :: 0 <= i < |cells| ==> cells[i].col < width
  }

  /** The markup of a row: that of its emitted cells, in order. */
  function RowMarkup(cells: seq<Cell>, texts: seq<string>): string
    requires Within(cells, |texts|)
  {
    if cells == [] then ""
    else
      var cell := cells[|cells| - 1];
      RowMarkup(cells[..|cells| - 1], texts) + CellMarkup(cell, texts[cell.col])
  }

  lemma {:induction false} RowCellsWithin(merges: seq<Merge>, row: nat, n: nat)
    requires forall i :: 0 <= i < |merges| ==> merges[i].WellFormed()
    ensures Within(RowCells(merges, row, n), n)
  {
    hide Covered, SpanOf;
    if n > 0 {
      RowCellsWithin(merges, row, n - 1);
    }
  }

  function Body(merges: seq<Merge>, rows: seq<seq<string>>, n: nat): string
    requires n <= |rows| && forall i :: 0 <= i < |merges| ==> merges[i].WellFormed()
  {
    if n == 0 then ""
    else
      RowCellsWithin(merges, n - 1, |rows[n - 1]|);
      Body(merges, rows, n - 1)
      + ("<tr>" + RowMarkup(RowCells(merges, n - 1, |rows[n - 1]|), rows[n - 1]) + "</tr>")
  }

  method CellToHtml(row: nat, col: nat, text: string, merges: seq<Merge>) returns (html: Option<string>)
    requires forall i :: 0 <= i < |merges| ==> merges[i].WellFormed()
    ensures html == if Covered(merges, row, col) then None else Some(CellMarkup(CellOf(merges, row, col), text))
  {
    hide RowspanText, ColspanText, Markup;
    if exists i :: 0 <= i < |merges| && merges[i].Contains(row, col)
               && !(merges[i].startRow == row && merges[i].startCol == col) {
      return None;
    }
    var attrs := "";
    var start := FindStart(merges, row, col);
    if start.Some? {
      var merge := merges[start.value];
      assert merge.WellFormed();
      var rowspan := merge.endRow - merge.startRow + 1;
      var colspan := merge.endCol - merge.startCol + 1;
      if rowspan > 1 {
        attrs := attrs + RowspanText(rowspan);
      }
      if colspan > 1 {
        attrs := attrs + ColspanText(colspan);
      }
    }
    assert attrs == Attributes(SpanOf(merges, row, col));
    html := Some(Markup(attrs, text));
  }

  method RowToHtml(row: nat, texts: seq<string>, merges: seq<Merge>) returns (html: string)
    requires forall i :: 0 <= i < |merges| ==> merges[i].WellFormed()
    ensures Within(RowCells(merges, row, |texts|), |texts|)
    ensures html == "<tr>" + RowMarkup(RowCells(merges, row, |texts|), texts) + "</tr>"
  {
    hide Covered, SpanOf, CellMarkup;
    var cells := "";
    RowCellsWithin(merges, row, |texts|);
    for col := 0 to |texts|
      invariant Within(RowCells(merges, row, col), |texts|)
      invariant cells == RowMarkup(RowCells(merges, row, col), texts)
    {
      RowCellsWithin(merges, row, col);
      var cell := CellToHtml(row, col, texts[col], merges);
      RowMarkupNext(merges, row, texts, col);
      if cell.Some? {
        cells := cells + cell.value;
      }
    }
    html := "<tr>" + cells + "</tr>";
  }

  lemma RowMarkupNext(merges: seq<Merge>, row: nat, texts: seq<string>, col: nat)
    requires col < |texts| && forall i :: 0 <= i < |merges| ==> merges[i].WellFormed()
    ensures Within(RowCells(merges, row, col), |texts|)
    ensures Within(RowCells(merges, row, col + 1), |texts|)
    ensures RowMarkup(RowCells(merges, row, col + 1), texts)
         == if Covered(merges, row, col) then RowMarkup(RowCells(merges, row, col), texts)
            else RowMarkup(RowCells(merges, row, col), texts) + CellMarkup(CellOf(merges, row, col), texts[col])
  {
    hide Covered, SpanOf, CellMarkup;
    RowCellsWithin(merges, row, col);
    RowCellsWithin(merges, row, col + 1);
  }
}
