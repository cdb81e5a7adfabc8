/** The blocks of a sheet: nothing, its only cell, or a table from whose text every
    cell comes back at its own place. */
module SheetBlocks {
  import opened Options
  import opened Concat
  import opened Sheet
  import opened SheetTable
  import opened TableReader
  import opened OfficeBlocks

  function NonEmpty(cells: seq<string>): seq<string> {
    if cells == [] then []
    else
      var n := |cells| - 1;
      if IsBlank(cells[n]) then NonEmpty(cells[..n]) else NonEmpty(cells[..n]) + [cells[n]]
  }

  // ------------------------------------------------------- how many cells show

  /** The positions of the cells that show something. */
  ghost function ShownCells(rows: seq<seq<string>>): set<(nat, nat)> {
    set r: nat, c: nat | r < |rows| && c < |rows[r]| && Shows(rows, r, c) :: (r, c)
  }

  /** Those of the first `n` cells of a row, at a place in the sheet. */
  ghost function RowPlaces(cells: seq<string>, n: nat, row: nat, colOffset: nat): set<(nat, nat)>
    requires n <= |cells|
  {
    set c: nat | c < n && !IsBlank(cells[c]) :: (row, colOffset + c)
  }

  ghost function Places(rows: seq<seq<string>>, n: nat, rowOffset: nat, colOffset: nat): set<(nat, nat)>
    requires n <= |rows|
  {
    set r: nat, c: nat | r < n && c < |rows[r]| && !IsBlank(rows[r][c]) :: (rowOffset + r, colOffset + c)
  }

  lemma {:induction false} RowCount(cells: seq<string>, n: nat, row: nat, colOffset: nat)
    requires n <= |cells|
    ensures |RowPlaces(cells, n, row, colOffset)| == |NonEmpty(cells[..n])|
  {
    hide IsBlank;
    if n > 0 {
      RowCount(cells, n - 1, row, colOffset);
      assert cells[..n][..n - 1] == cells[..n - 1];
      var before, at := RowPlaces(cells, n - 1, row, colOffset), (row, colOffset + (n - 1));
      if IsBlank(cells[n - 1]) {
        assert RowPlaces(cells, n, row, colOffset) == before;
      } else {
        assert RowPlaces(cells, n, row, colOffset) == before + {at};
      }
    }
  }

  lemma {:induction false} NonEmptyAppend(a: seq<string>, b: seq<string>)
    ensures NonEmpty(a + b) == NonEmpty(a) + NonEmpty(b)
  {
    hide IsBlank;
    if b == [] {
      assert a + b == a;
    } else {
      var n := |b| - 1;
      assert (a + b)[..|a + b| - 1] == a + b[..n];
      NonEmptyAppend(a, b[..n]);
    }
  }

  /** A place of the first `n` rows is one of the rows before or of the last. */
  lemma PlacesSplit(rows: seq<seq<string>>, n: nat, rowOffset: nat, colOffset: nat)
    requires 0 < n <= |rows|
    ensures var last := RowPlaces(rows[n - 1], |rows[n - 1]|, rowOffset + (n - 1), colOffset);
            && Places(rows, n, rowOffset, colOffset) == Places(rows, n - 1, rowOffset, colOffset) + last
            && Places(rows, n - 1, rowOffset, colOffset) !! last
  {
    hide IsBlank;
    var before, after := Places(rows, n - 1, rowOffset, colOffset), Places(rows, n, rowOffset, colOffset);
    var last := RowPlaces(rows[n - 1], |rows[n - 1]|, rowOffset + (n - 1), colOffset);
    forall p | p in after
      ensures p in before + last
    {
      var r: nat, c: nat :| r < n && c < |rows[r]| && !IsBlank(rows[r][c]) && p == (rowOffset + r, colOffset + c);
      if r == n - 1 {
        assert p in last;
      } else {
        assert p in before;
      }
    }
    forall p | p in last
      ensures p in after && p !in before
    {
      var c: nat :| c < |rows[n - 1]| && !IsBlank(rows[n - 1][c]) && p == (rowOffset + (n - 1), colOffset + c);
    }
  }

  lemma {:induction false} ShownCount(rows: seq<seq<string>>, n: nat, rowOffset: nat, colOffset: nat)
    requires n <= |rows|
    ensures |Places(rows, n, rowOffset, colOffset)| == |NonEmpty(Join(rows[..n]))|
  {
    hide NonEmpty, Places, RowPlaces;
    if n == 0 {
      NothingShown();
      NoPlaces(rows, rowOffset, colOffset);
    } else {
      var row := rows[n - 1];
      ShownCount(rows, n - 1, rowOffset, colOffset);
      assert rows[..n] == rows[..n - 1] + [row];
      JoinSnoc(rows[..n - 1], row);
      NonEmptyAppend(Join(rows[..n - 1]), row);
      RowCount(row, |row|, rowOffset + (n - 1), colOffset);
      assert row[..|row|] == row;
      PlacesSplit(rows, n, rowOffset, colOffset);
    }
  }

  lemma NoPlaces(rows: seq<seq<string>>, rowOffset: nat, colOffset: nat)
    ensures Places(rows, 0, rowOffset, colOffset) == {}
  {
  }

  lemma NothingShown()
    ensures NonEmpty(Join([])) == []
  {
  }

  lemma TrimmedAt(rows: seq<seq<string>>, t: TrimmedSheet, r: nat, c: nat)
    requires IsMinimalBox(rows, t) && r < |t.rows| && c < |t.rows[r]|
    ensures !IsBlank(t.rows[r][c]) <==> Shows(rows, t.rowOffset + r, t.colOffset + c)
  {
    hide IsBlank, Touched;
    BlankText();
  }

  /** The trimmed sheet shows the cells of the sheet. */
  lemma TrimKeepsShown(rows: seq<seq<string>>, t: TrimmedSheet)
    requires IsMinimalBox(rows, t)
    ensures Places(t.rows, |t.rows|, t.rowOffset, t.colOffset) == ShownCells(rows)
  {
    hide IsBlank, Touched;
    var places := Places(t.rows, |t.rows|, t.rowOffset, t.colOffset);
    forall p | p in places
      ensures p in ShownCells(rows)
    {
      var r: nat, c: nat :| r < |t.rows| && c < |t.rows[r]| && !IsBlank(t.rows[r][c])
                            && p == (t.rowOffset + r, t.colOffset + c);
      TrimmedAt(rows, t, r, c);
    }
    forall p | p in ShownCells(rows)
      ensures p in places
    {
      assert Shows(rows, p.0, p.1);
      TrimmedAt(rows, t, p.0 - t.rowOffset, p.1 - t.colOffset);
    }
  }

  lemma BlankText()
    ensures IsBlank("")
  {
  }

  lemma {:induction false} ShownText(rows: seq<seq<string>>, x: string)
    requires x in NonEmpty(Join(rows))
    ensures exists r: nat, c: nat :: Shows(rows, r, c) && rows[r][c] == x
  {
    hide IsBlank, NonEmpty;
    if rows == [] {
      NothingShown();
    } else {
      var n := |rows| - 1;
      NonEmptyAppend(Join(rows[..n]), rows[n]);
      if x in NonEmpty(rows[n]) {
        var c := NonEmptyAt(rows[n], x);
        assert Shows(rows, n, c);
      } else {
        ShownText(rows[..n], x);
        var r: nat, c: nat :| Shows(rows[..n], r, c) && rows[..n][r][c] == x;
        assert Shows(rows, r, c);
      }
    }
  }

  lemma {:induction false} NonEmptyAt(cells: seq<string>, x: string) returns (c: nat)
    requires x in NonEmpty(cells)
    ensures c < |cells| && cells[c] == x && !IsBlank(x)
  {
    hide IsBlank;
    var n := |cells| - 1;
    if x in NonEmpty(cells[..n]) {
      c := NonEmptyAt(cells[..n], x);
    } else {
      c := n;
    }
  }

  // ----------------------------------------------------- what the table gives back

  /** The cells a table of the given size emits. */
  ghost predicate Emitted(merges: seq<Merge>, height: nat, width: nat, cell: Cell)
    requires forall i :: 0 <= i < |merges| ==> merges[i].WellFormed()
  {
    && cell.row < height && cell.col < width && !Covered(merges, cell.row, cell.col)
    && cell == CellOf(merges, cell.row, cell.col)
  }

  lemma {:induction false} RowEmits(merges: seq<Merge>, row: nat, n: nat, cell: Cell)
    requires forall i :: 0 <= i < |merges| ==> merges[i].WellFormed()
    ensures cell in RowCells(merges, row, n) <==> cell.row == row && Emitted(merges, row + 1, n, cell)
  {
    hide Covered, SpanOf;
    if n > 0 {
      RowEmits(merges, row, n - 1, cell);
    }
  }

  lemma {:induction false} TableEmits(merges: seq<Merge>, height: nat, width: nat, cell: Cell)
    requires forall i :: 0 <= i < |merges| ==> merges[i].WellFormed()
    ensures cell in TableCells(merges, height, width) <==> Emitted(merges, height, width, cell)
  {
    hide Covered, SpanOf, RowCells;
    if height > 0 {
      TableEmits(merges, height - 1, width, cell);
      RowEmits(merges, height - 1, width, cell);
    }
  }

  /** What is read of the first `n` rows, cell for cell. */
  lemma {:induction false} Aligned(merges: seq<Merge>, rows: seq<seq<string>>, width: nat, n: nat)
    requires n <= |rows| && forall i :: 0 <= i < |merges| ==> merges[i].WellFormed()
    requires forall k :: 0 <= k < |rows| ==> |rows[k]| == width
    ensures |RowsOf(merges, rows, 0)| == |rows|
    ensures var tds, cells := Join(RowsOf(merges, rows, 0)[..n]), TableCells(merges, n, width);
            && |tds| == |cells|
            && forall j :: 0 <= j < |tds| ==>
                 && cells[j].row < n && cells[j].col < width
                 && tds[j].text == rows[cells[j].row][cells[j].col]
  {
    hide RowsOf, RowCells, Covered;
    RowsOfLength(merges, rows, 0);
    if n > 0 {
      var tds, cells := RowsOf(merges, rows, 0), RowCells(merges, n - 1, width);
      Aligned(merges, rows, width, n - 1);
      RowsOfAt(merges, rows, 0, n - 1);
      assert tds[..n] == tds[..n - 1] + [tds[n - 1]];
      JoinSnoc(tds[..n - 1], tds[n - 1]);
      forall i | 0 <= i < |cells|
        ensures cells[i].row == n - 1
      {
        RowEmits(merges, n - 1, width, cells[i]);
      }
    }
  }

  /** A reader of the table finds the text in the cell: the cells placed by their
      spans and the texts read are in the same order. */
  ghost predicate FoundAt(tds: seq<seq<Td>>, width: nat, cell: Cell, text: string) {
    var placed, read := PlaceTable(WrittenSpans(tds), width), Join(tds);
    exists k :: 0 <= k < |placed| && k < |read| && placed[k] == cell && read[k].text == text
  }

  /** The table emits the cell with the text. */
  ghost predicate Written(merges: seq<Merge>, rows: seq<seq<string>>, width: nat, cell: Cell, text: string)
    requires forall i :: 0 <= i < |merges| ==> merges[i].WellFormed()
    requires forall k :: 0 <= k < |rows| ==> |rows[k]| == width
  {
    Emitted(merges, |rows|, width, cell) && text == rows[cell.row][cell.col]
  }

  lemma FoundMeans(name: string, rows: seq<seq<string>>, merges: seq<Merge>, width: nat)
    requires MergesOk(merges, |rows|, width) && forall k :: 0 <= k < |rows| ==> |rows[k]| == width
    ensures forall i :: 0 <= i < |merges| ==> merges[i].WellFormed()
    ensures var tds := RowsOf(merges, rows, 0);
            && ReadTable(TableText(name, rows, merges)) == Some((name, tds))
            && |PlaceTable(WrittenSpans(tds), width)| == |Join(tds)|
            && forall cell, text :: FoundAt(tds, width, cell, text) <==> Written(merges, rows, width, cell, text)
  {
    hide MergesOk, ReadTable, RowsOf, PlaceTable, WrittenSpans, TableCells, RowCells, Body, TableText, Emitted;
    SheetReadsBack(name, rows, merges, width);
    Aligned(merges, rows, width, |rows|);
    var tds, cells := RowsOf(merges, rows, 0), TableCells(merges, |rows|, width);
    assert tds[..|rows|] == tds;
    forall cell, text
      ensures FoundAt(tds, width, cell, text) <==> Written(merges, rows, width, cell, text)
    {
      TableEmits(merges, |rows|, width, cell);
      if cell in cells {
        var j :| 0 <= j < |cells| && cells[j] == cell;
        assert Join(tds)[j].text == rows[cell.row][cell.col];
      }
    }
  }

  // -------------------------------------------------------- in the sheet's terms

  /** The position is inside a merge that starts in the box, and is not its first. */
  ghost predicate Hidden(t: TrimmedSheet, merges: seq<Merge>, row: nat, col: nat) {
    exists i :: 0 <= i < |merges| && StartsWithin(t, merges[i]) && merges[i].Contains(row, col)
             && !(merges[i].startRow == row && merges[i].startCol == col)
  }

  /** A merge that starts at one position holds the other. */
  ghost predicate Joined(merges: seq<Merge>, row: nat, col: nat, r: nat, c: nat) {
    exists i :: 0 <= i < |merges| && merges[i].startRow == row && merges[i].startCol == col && merges[i].Contains(r, c)
  }

  lemma ClipStart(t: TrimmedSheet, m: Merge)
    requires Clip(t, m).Some?
    ensures m.startRow == t.rowOffset + Clip(t, m).value.startRow
    ensures m.startCol == t.colOffset + Clip(t, m).value.startCol
  {
  }

  lemma KeptAt(t: TrimmedSheet, merges: seq<Merge>, k: nat) returns (i: nat)
    requires k < |MergesFrom(t, merges)|
    ensures i < |merges| && Clip(t, merges[i]) == Some(MergesFrom(t, merges)[k])
  {
    hide Clip, Spreads, MergesFrom;
    var m := MergesFrom(t, merges)[k];
    KeptMerges(t, merges, m);
    i :| 0 <= i < |merges| && Clip(t, merges[i]) == Some(m);
  }

  lemma KeptFrom(t: TrimmedSheet, merges: seq<Merge>, i: nat) returns (k: nat)
    requires i < |merges| && Clip(t, merges[i]).Some? && Spreads(Clip(t, merges[i]).value)
    ensures k < |MergesFrom(t, merges)| && MergesFrom(t, merges)[k] == Clip(t, merges[i]).value
  {
    hide Clip, Spreads, MergesFrom;
    KeptMerges(t, merges, Clip(t, merges[i]).value);
    k :| 0 <= k < |MergesFrom(t, merges)| && MergesFrom(t, merges)[k] == Clip(t, merges[i]).value;
  }

  lemma OnlyStart(m: Merge, r: nat, c: nat)
    requires m.WellFormed() && m.Contains(r, c) && !Spreads(m)
    ensures r == m.startRow && c == m.startCol
  {
  }

  /** A position of the table is covered exactly when its cell in the sheet is hidden. */
  lemma CoveredMeans(t: TrimmedSheet, merges: seq<Merge>, r: nat, c: nat)
    requires t.rows != [] && r < |t.rows| && c < |t.rows[0]|
    requires forall i :: 0 <= i < |merges| ==> merges[i].WellFormed()
    ensures Covered(MergesFrom(t, merges), r, c) <==> Hidden(t, merges, t.rowOffset + r, t.colOffset + c)
  {
    hide Clip, Spreads, MergesFrom, StartsWithin;
    var kept := MergesFrom(t, merges);
    if k :| 0 <= k < |kept| && kept[k].Contains(r, c) && !(kept[k].startRow == r && kept[k].startCol == c) {
      var i := KeptAt(t, merges, k);
      ClipWhen(t, merges[i]);
      ClipCovers(t, merges[i], r, c);
      ClipStart(t, merges[i]);
    }
    if i :| 0 <= i < |merges| && StartsWithin(t, merges[i]) && merges[i].Contains(t.rowOffset + r, t.colOffset + c)
            && !(merges[i].startRow == t.rowOffset + r && merges[i].startCol == t.colOffset + c) {
      ClipWhen(t, merges[i]);
      ClipCovers(t, merges[i], r, c);
      ClipStart(t, merges[i]);
      if !Spreads(Clip(t, merges[i]).value) {
        OnlyStart(Clip(t, merges[i]).value, r, c);
      }
      var k := KeptFrom(t, merges, i);
    }
  }

  /** A cell of the table spans exactly what the merge starting at its cell of the
      sheet holds inside the box. */
  lemma SpanMeans(t: TrimmedSheet, merges: seq<Merge>, r: nat, c: nat, a: nat, b: nat)
    requires t.rows != [] && r < |t.rows| && c < |t.rows[0]| && a < |t.rows| && b < |t.rows[0]|
    requires Disjoint(merges) && forall i :: 0 <= i < |merges| ==> merges[i].WellFormed()
    ensures MergesOk(MergesFrom(t, merges), |t.rows|, |t.rows[0]|)
    ensures forall i :: 0 <= i < |MergesFrom(t, merges)| ==> MergesFrom(t, merges)[i].WellFormed()
    ensures CellOf(MergesFrom(t, merges), r, c).Covers(a, b) <==>
              (a, b) == (r, c) || Joined(merges, t.rowOffset + r, t.colOffset + c, t.rowOffset + a, t.colOffset + b)
  {
    hide Clip, Spreads, MergesFrom, StartsWithin, Disjoint, MergesOk;
    var kept := MergesFrom(t, merges);
    TrimmedMergesOk(t, merges);
    MergesFormed(kept, |t.rows|, |t.rows[0]|);
    var start := FindStart(kept, r, c);
    if start.Some? {
      var i := KeptAt(t, merges, start.value);
      ClipCovers(t, merges[i], a, b);
      ClipStart(t, merges[i]);
    }
    if i :| 0 <= i < |merges| && merges[i].startRow == t.rowOffset + r && merges[i].startCol == t.colOffset + c
            && merges[i].Contains(t.rowOffset + a, t.colOffset + b) {
      StartsHere(t, merges[i], r, c);
      ClipCovers(t, merges[i], a, b);
      if !Spreads(Clip(t, merges[i]).value) {
        OnlyStart(Clip(t, merges[i]).value, a, b);
        ClipStart(t, merges[i]);
      } else {
        var k := KeptFrom(t, merges, i);
        ClipStart(t, merges[i]);
        SameStart(kept, |t.rows|, |t.rows[0]|, k, r, c);
      }
    }
  }

  lemma StartsHere(t: TrimmedSheet, m: Merge, r: nat, c: nat)
    requires t.rows != [] && r < |t.rows| && c < |t.rows[0]|
    requires m.startRow == t.rowOffset + r && m.startCol == t.colOffset + c
    ensures Clip(t, m).Some?
  {
  }

  /** Of disjoint merges only one starts at a position. */
  lemma SameStart(merges: seq<Merge>, height: nat, width: nat, k: nat, r: nat, c: nat)
    requires MergesOk(merges, height, width) && k < |merges| && merges[k].startRow == r && merges[k].startCol == c
    ensures FindStart(merges, r, c) == Some(k)
  {
    hide Disjoint;
    var j := FindStart(merges, r, c).value;
    assert merges[k].WellFormed() && merges[j].WellFormed();
    OneMerge(merges, height, width, j, k, r, c);
  }

  /** A cell found in the table shows the sheet: its text is that of the sheet at
      its place, no merge hides that place, and its spans cover what the merge that
      starts there holds of the box. */
  ghost predicate ShowsSheet(rows: seq<seq<string>>, merges: seq<Merge>, t: TrimmedSheet, cell: Cell, text: string)
    requires t.rows != []
  {
    var row, col := t.rowOffset + cell.row, t.colOffset + cell.col;
    && cell.row < |t.rows| && cell.col < |t.rows[0]|
    && !Hidden(t, merges, row, col) && text == CellAt(rows, row, col)
    && forall a: nat, b: nat :: a < |t.rows| && b < |t.rows[0]| ==>
         (cell.Covers(a, b) <==>
            (a, b) == (cell.row, cell.col) || Joined(merges, row, col, t.rowOffset + a, t.colOffset + b))
  }

  /** The table gives a position its text of the sheet. */
  ghost predicate GivesBack(rows: seq<seq<string>>, t: TrimmedSheet, tds: seq<seq<Td>>, width: nat, r: nat, c: nat) {
    exists cell: Cell :: cell.row == r && cell.col == c
      && FoundAt(tds, width, cell, CellAt(rows, t.rowOffset + r, t.colOffset + c))
  }

  /** From the text of the table a reader gets the sheet's name, every cell of the
      box that no merge hides at its own place, and no cell besides. */
  ghost predicate ComesBack(html: string, name: string, rows: seq<seq<string>>, merges: seq<Merge>, t: TrimmedSheet)
    requires t.rows != []
  {
    var read := ReadTable(html);
    && read.Some? && read.value.0 == name
    && var tds, width := read.value.1, |t.rows[0]|;
       && |PlaceTable(WrittenSpans(tds), width)| == |Join(tds)|
       && (forall cell, text :: FoundAt(tds, width, cell, text) ==> ShowsSheet(rows, merges, t, cell, text))
       && (forall r: nat, c: nat ::
             r < |t.rows| && c < width && !Hidden(t, merges, t.rowOffset + r, t.colOffset + c) ==>
             GivesBack(rows, t, tds, width, r, c))
  }

  lemma WrittenShows(rows: seq<seq<string>>, merges: seq<Merge>, t: TrimmedSheet, cell: Cell, text: string)
    requires IsMinimalBox(rows, t) && Disjoint(merges)
    requires forall i :: 0 <= i < |merges| ==> merges[i].WellFormed()
    requires forall i :: 0 <= i < |MergesFrom(t, merges)| ==> MergesFrom(t, merges)[i].WellFormed()
    requires Written(MergesFrom(t, merges), t.rows, |t.rows[0]|, cell, text)
    ensures ShowsSheet(rows, merges, t, cell, text)
  {
    hide MergesFrom, Disjoint, Touched, Hidden, Joined, Covered, MergesOk, CellAt, Shows;
    CoveredMeans(t, merges, cell.row, cell.col);
    forall a: nat, b: nat | a < |t.rows| && b < |t.rows[0]|
      ensures cell.Covers(a, b) <==>
                (a, b) == (cell.row, cell.col)
                || Joined(merges, t.rowOffset + cell.row, t.colOffset + cell.col, t.rowOffset + a, t.colOffset + b)
    {
      SpanMeans(t, merges, cell.row, cell.col, a, b);
    }
  }

  lemma ShownIsWritten(rows: seq<seq<string>>, merges: seq<Merge>, t: TrimmedSheet, r: nat, c: nat)
    requires IsMinimalBox(rows, t) && r < |t.rows| && c < |t.rows[0]|
    requires forall i :: 0 <= i < |merges| ==> merges[i].WellFormed()
    requires forall i :: 0 <= i < |MergesFrom(t, merges)| ==> MergesFrom(t, merges)[i].WellFormed()
    requires !Hidden(t, merges, t.rowOffset + r, t.colOffset + c)
    ensures Written(MergesFrom(t, merges), t.rows, |t.rows[0]|, CellOf(MergesFrom(t, merges), r, c),
                    CellAt(rows, t.rowOffset + r, t.colOffset + c))
  {
    hide MergesFrom, Touched, Hidden, Covered, CellAt, Shows, SpanOf;
    CoveredMeans(t, merges, r, c);
    assert t.rows[r][c] == CellAt(rows, t.rowOffset + r, t.colOffset + c);
  }

  /** The whole path: trimming the sheet, clipping its merges and writing the table. */
  lemma SheetComesBack(name: string, rows: seq<seq<string>>, merges: seq<Merge>, t: TrimmedSheet)
    requires IsMinimalBox(rows, t) && Disjoint(merges)
    requires forall i :: 0 <= i < |merges| ==> merges[i].WellFormed()
    ensures forall i :: 0 <= i < |MergesFrom(t, merges)| ==> MergesFrom(t, merges)[i].WellFormed()
    ensures t.rows != [] && ComesBack(TableText(name, t.rows, MergesFrom(t, merges)), name, rows, merges, t)
  {
    hide MergesFrom, Disjoint, Touched, Hidden, MergesOk, CellAt, Shows, TableText, ReadTable, FoundAt, PlaceTable,
         WrittenSpans, RowsOf, Written, ShowsSheet, SpanOf;
    var kept, width := MergesFrom(t, merges), |t.rows[0]|;
    TrimmedMergesOk(t, merges);
    FoundMeans(name, t.rows, kept, width);
    var tds := RowsOf(kept, t.rows, 0);
    forall cell, text | FoundAt(tds, width, cell, text)
      ensures ShowsSheet(rows, merges, t, cell, text)
    {
      WrittenShows(rows, merges, t, cell, text);
    }
    forall r: nat, c: nat | r < |t.rows| && c < width && !Hidden(t, merges, t.rowOffset + r, t.colOffset + c)
      ensures GivesBack(rows, t, tds, width, r, c)
    {
      ShownIsWritten(rows, merges, t, r, c);
      var cell := CellOf(kept, r, c);
      assert FoundAt(tds, width, cell, CellAt(rows, t.rowOffset + r, t.colOffset + c));
    }
  }

  // ------------------------------------------------------------------ the blocks

  /** The table shows the sheet, whatever its name and texts. */
  ghost predicate TableShows(html: string, name: string, rows: seq<seq<string>>, merges: seq<Merge>) {
    exists t: TrimmedSheet :: t.rows != [] && IsMinimalBox(rows, t) && ComesBack(html, name, rows, merges, t)
  }

  lemma KeptFormed(t: TrimmedSheet, merges: seq<Merge>)
    requires t.rows != [] && forall i :: 0 <= i < |merges| ==> merges[i].WellFormed()
    ensures forall k :: 0 <= k < |MergesFrom(t, merges)| ==> MergesFrom(t, merges)[k].WellFormed()
  {
    hide Clip, MergesFrom;
    forall k | 0 <= k < |MergesFrom(t, merges)|
      ensures MergesFrom(t, merges)[k].WellFormed()
    {
      var i := KeptAt(t, merges, k);
      ClipCovers(t, merges[i], 0, 0);
    }
  }

  lemma NothingShows(rows: seq<seq<string>>)
    ensures AllBlank(rows) <==> ShownCells(rows) == {}
  {
    hide IsBlank;
    if ShownCells(rows) == {} {
      forall r: nat, c: nat
        ensures !Shows(rows, r, c)
      {
        assert (r, c) !in ShownCells(rows);
      }
    }
  }

  lemma BoxHasRows(rows: seq<seq<string>>, t: TrimmedSheet)
    requires IsMinimalBox(rows, t)
    ensures t.rows != []
  {
  }

  /** The texts counted are as many as the cells that show. */
  lemma CountIsShown(rows: seq<seq<string>>, t: TrimmedSheet)
    requires IsMinimalBox(rows, t)
    ensures |NonEmpty(Join(t.rows))| == |ShownCells(rows)|
  {
    hide IsMinimalBox, NonEmpty, Places, ShownCells;
    TrimKeepsShown(rows, t);
    ShownCount(t.rows, |t.rows|, t.rowOffset, t.colOffset);
    assert t.rows[..|t.rows|] == t.rows;
  }

  lemma TextIsShown(rows: seq<seq<string>>, t: TrimmedSheet, x: string)
    requires IsMinimalBox(rows, t) && x in NonEmpty(Join(t.rows))
    ensures exists r: nat, c: nat :: Shows(rows, r, c) && rows[r][c] == x
  {
    hide IsBlank, NonEmpty, Touched;
    ShownText(t.rows, x);
    var r: nat, c: nat :| Shows(t.rows, r, c) && t.rows[r][c] == x;
    TrimmedAt(rows, t, r, c);
    assert Shows(rows, t.rowOffset + r, t.colOffset + c);
  }

  /** The blocks of a sheet: none when no cell shows, the text of the only one, and
      otherwise a table that shows the sheet. */
  method BlocksFromSheet(sheetName: string, rows: seq<seq<string>>, merges: seq<Merge>)
    returns (blocks: seq<OfficeBlock>)
    requires FitsMachine(rows) && forall i :: 0 <= i < |merges| ==> merges[i].WellFormed()
    ensures |ShownCells(rows)| == 0 ==> blocks == []
    ensures |ShownCells(rows)| == 1 ==>
              exists r: nat, c: nat :: Shows(rows, r, c) && blocks == [OfficeBlock.Text(rows[r][c])]
    ensures |ShownCells(rows)| > 1 ==>
              && |blocks| == 1 && blocks[0].Table?
              && (Disjoint(merges) ==> TableShows(blocks[0].html, sheetName, rows, merges))
  {
    hide IsMinimalBox, NonEmpty, ShownCells, Shows, Disjoint, ComesBack, MergesFrom, TableText, ReadTable, RowsOf;
    var trimmed := TrimEmptyEdges(rows);
    NothingShows(rows);
    if trimmed.rows == [] {
      if !AllBlank(rows) {
        BoxHasRows(rows, trimmed);
      }
      return [];
    }
    var nonEmpty := NonEmpty(Join(trimmed.rows));
    CountIsShown(rows, trimmed);
    if |nonEmpty| == 1 {
      TextIsShown(rows, trimmed, nonEmpty[0]);
      return [OfficeBlock.Text(nonEmpty[0])];
    }
    KeptFormed(trimmed, merges);
    var html := RowsToHtmlTable(sheetName, trimmed.rows, MergesFrom(trimmed, merges));
    if Disjoint(merges) {
      SheetComesBack(sheetName, rows, merges, trimmed);
    }
    blocks := [Table(html)];
  }
}
