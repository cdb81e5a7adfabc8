/** Trimming a sheet to the box of its non-empty cells, and its merges with it. */
module Sheet {
  import opened Numbers
  import opened Options
  import Strings

  predicate IsBlank(cell: string) {
    Strings.Trim(cell) == ""
  }

  /** A blank cell holds only white space. */
  lemma BlankMeans(cell: string)
    ensures IsBlank(cell) <==> forall i :: 0 <= i < |cell| ==> Strings.IsWhitespace(cell[i])
  {
    Strings.TrimmedAway(cell);
  }

  datatype TrimmedSheet = TrimmedSheet(rows: seq<seq<string>>, rowOffset: nat, colOffset: nat)

  /** A cell, empty beyond the end of its row. */
  function CellAt(rows: seq<seq<string>>, row: nat, col: nat): string {
    if row < |rows| && col < |rows[row]| then rows[row][col] else ""
  }

  /** Some cell of the row, or of the column, holds something. */
  ghost predicate Shows(rows: seq<seq<string>>, row: nat, col: nat) {
    row < |rows| && col < |rows[row]| && !IsBlank(rows[row][col])
  }

  ghost predicate AllBlank(rows: seq<seq<string>>) {
    forall r: nat, c: nat :: !Shows(rows, r, c)
  }

  // ------------------------------------------------------------- bounding box

  datatype Bounds = Bounds(minRow: nat, maxRow: nat, minCol: nat, maxCol: nat)

  /** Cells before (i, j) in reading order. */
  ghost predicate Before(r: nat, c: nat, i: nat, j: nat) {
    r < i || (r == i && c < j)
  }

  ghost predicate Encloses(b: Bounds, r: nat, c: nat) {
    b.minRow <= r <= b.maxRow && b.minCol <= c <= b.maxCol
  }

  /** The four sides are each touched by a cell that shows something. */
  ghost predicate Touched(rows: seq<seq<string>>, b: Bounds) {
    && (exists c: nat :: Shows(rows, b.minRow, c)) && (exists c: nat :: Shows(rows, b.maxRow, c))
    && (exists r: nat :: Shows(rows, r, b.minCol)) && (exists r: nat :: Shows(rows, r, b.maxCol))
  }

  /** The bounds found when the cells before (i, j) have been visited. */
  ghost predicate Found(rows: seq<seq<string>>, i: nat, j: nat, b: Bounds) {
    if b.minRow == USIZE_MAX then b == Bounds(USIZE_MAX, 0, USIZE_MAX, 0)
                                  && forall r: nat, c: nat :: Before(r, c, i, j) ==> !Shows(rows, r, c)
    else Touched(rows, b) && forall r: nat, c: nat :: Before(r, c, i, j) && Shows(rows, r, c) ==> Encloses(b, r, c)
  }

  function Grow(b: Bounds, r: nat, c: nat): Bounds {
    Bounds(Min(b.minRow, r), Max(b.maxRow, r), Min(b.minCol, c), Max(b.maxCol, c))
  }

  ghost predicate FitsMachine(rows: seq<seq<string>>) {
    |rows| <= USIZE_MAX && forall i :: 0 <= i < |rows| ==> |rows[i]| <= USIZE_MAX
  }

  lemma FoundNext(rows: seq<seq<string>>, i: nat, j: nat, b: Bounds)
    requires FitsMachine(rows) && i < |rows| && j < |rows[i]| && Found(rows, i, j, b)
    ensures IsBlank(rows[i][j]) ==> Found(rows, i, j + 1, b)
    ensures !IsBlank(rows[i][j]) ==> Found(rows, i, j + 1, Grow(b, i, j))
  {
    hide IsBlank;
    forall r: nat, c: nat | Before(r, c, i, j + 1) && !Before(r, c, i, j)
      ensures r == i && c == j
    {
    }
    if !IsBlank(rows[i][j]) {
      assert Shows(rows, i, j);
    }
  }

  lemma FoundRow(rows: seq<seq<string>>, i: nat, b: Bounds)
    requires i < |rows| && Found(rows, i, |rows[i]|, b)
    ensures Found(rows, i + 1, 0, b)
  {
    hide IsBlank;
    forall r: nat, c: nat | Before(r, c, i + 1, 0) && Shows(rows, r, c)
      ensures Before(r, c, i, |rows[i]|)
    {
    }
  }

  /** The smallest box that holds every cell showing something; its cells are
      those of the sheet, shifted. */
  ghost predicate IsMinimalBox(rows: seq<seq<string>>, t: TrimmedSheet) {
    var height, width := |t.rows|, if t.rows == [] then 0 else |t.rows[0]|;
    && height > 0 && width > 0 && t.rowOffset + height <= |rows|
    && (forall r :: 0 <= r < height ==> |t.rows[r]| == width)
    && (forall r, c :: 0 <= r < height && 0 <= c < width ==>
          t.rows[r][c] == CellAt(rows, t.rowOffset + r, t.colOffset + c))
    && (forall r: nat, c: nat :: Shows(rows, r, c) ==>
          t.rowOffset <= r < t.rowOffset + height && t.colOffset <= c < t.colOffset + width)
    && Touched(rows, Bounds(t.rowOffset, t.rowOffset + height - 1, t.colOffset, t.colOffset + width - 1))
  }

  method TrimEmptyEdges(rows: seq<seq<string>>) returns (t: TrimmedSheet)
    requires FitsMachine(rows)
    ensures AllBlank(rows) ==> t == TrimmedSheet([], 0, 0)
    ensures !AllBlank(rows) ==> IsMinimalBox(rows, t)
  {
    hide IsBlank, Found, IsMinimalBox;
    var b := FindBounds(rows);
    BoundsMean(rows, b);
    if b.minRow == USIZE_MAX {
      return TrimmedSheet([], 0, 0);
    }
    var trimmed: seq<seq<string>> := [];
    for r := b.minRow to b.maxRow + 1
      invariant |trimmed| == r - b.minRow
      invariant forall k :: 0 <= k < |trimmed| ==> trimmed[k] == RowSlice(rows, b.minRow + k, b)
    {
      trimmed := trimmed + [RowSlice(rows, r, b)];
    }
    t := TrimmedSheet(trimmed, b.minRow, b.minCol);
    BoxIsMinimal(rows, b, t);
  }

  function RowSlice(rows: seq<seq<string>>, row: nat, b: Bounds): seq<string>
    requires b.minCol <= b.maxCol
  {
    seq(b.maxCol + 1 - b.minCol, k requires 0 <= k => CellAt(rows, row, b.minCol + k))
  }

  method FindBounds(rows: seq<seq<string>>) returns (b: Bounds)
    requires FitsMachine(rows)
    ensures Found(rows, |rows|, 0, b)
  {
    hide IsBlank, Found;
    b := Bounds(USIZE_MAX, 0, USIZE_MAX, 0);
    FoundStart(rows, b);
    for i := 0 to |rows|
      invariant Found(rows, i, 0, b)
    {
      for j := 0 to |rows[i]|
        invariant Found(rows, i, j, b)
      {
        FoundNext(rows, i, j, b);
        if IsBlank(rows[i][j]) {
          continue;
        }
        b := Bounds(Min(b.minRow, i), Max(b.maxRow, i), Min(b.minCol, j), Max(b.maxCol, j));
      }
      FoundRow(rows, i, b);
    }
  }

  lemma FoundStart(rows: seq<seq<string>>, b: Bounds)
    requires b == Bounds(USIZE_MAX, 0, USIZE_MAX, 0)
    ensures Found(rows, 0, 0, b)
  {
  }

  lemma BoundsMean(rows: seq<seq<string>>, b: Bounds)
    requires FitsMachine(rows) && Found(rows, |rows|, 0, b)
    ensures b.minRow == USIZE_MAX <==> AllBlank(rows)
    ensures b.minRow != USIZE_MAX ==>
              b.minRow <= b.maxRow < |rows| && b.minCol <= b.maxCol && Touched(rows, b)
              && forall r: nat, c: nat :: Shows(rows, r, c) ==> Encloses(b, r, c)
  {
    hide IsBlank;
    assert forall r: nat, c: nat :: Shows(rows, r, c) ==> Before(r, c, |rows|, 0);
  }

  lemma BoxIsMinimal(rows: seq<seq<string>>, b: Bounds, t: TrimmedSheet)
    requires b.minRow <= b.maxRow < |rows| && b.minCol <= b.maxCol && Touched(rows, b)
    requires forall r: nat, c: nat :: Shows(rows, r, c) ==> Encloses(b, r, c)
    requires t.rowOffset == b.minRow && t.colOffset == b.minCol && |t.rows| == b.maxRow + 1 - b.minRow
    requires forall k :: 0 <= k < |t.rows| ==> t.rows[k] == RowSlice(rows, b.minRow + k, b)
    ensures IsMinimalBox(rows, t)
  {
    hide IsBlank, CellAt;
    assert t.rows[0] == RowSlice(rows, b.minRow, b);
  }

  // -------------------------------------------------------------------- merges

  /** A merged range of cells, both corners included. */
  datatype Merge = Merge(startRow: nat, startCol: nat, endRow: nat, endCol: nat) {
    predicate Contains(row: nat, col: nat) {
      startRow <= row <= endRow && startCol <= col <= endCol
    }

    predicate WellFormed() {
      startRow <= endRow && startCol <= endCol
    }
  }

  predicate Spreads(m: Merge) {
    m.endRow > m.startRow || m.endCol > m.startCol
  }

  /** The merge holds two different positions. */
  lemma SpreadsMeans(m: Merge)
    requires m.WellFormed()
    ensures Spreads(m) <==>
              exists r: nat, c: nat, a: nat, b: nat :: m.Contains(r, c) && m.Contains(a, b) && (r, c) != (a, b)
  {
    if Spreads(m) {
      assert m.Contains(m.startRow, m.startCol) && m.Contains(m.endRow, m.endCol);
      assert (m.startRow, m.startCol) != (m.endRow, m.endCol);
    }
  }

  function SaturatingSub(a: nat, b: nat): nat {
    if a < b then 0 else a - b
  }

  /** The merge in the coordinates of the trimmed sheet, unless it starts outside. */
  function Clip(t: TrimmedSheet, m: Merge): Option<Merge> {
    var height, width := |t.rows|, if t.rows == [] then 0 else |t.rows[0]|;
    if m.startRow < t.rowOffset || m.startCol < t.colOffset then None
    else
      var startRow, startCol := m.startRow - t.rowOffset, m.startCol - t.colOffset;
      if startRow >= height || startCol >= width then None
      else Some(Merge(startRow, startCol,
                      Min(SaturatingSub(m.endRow, t.rowOffset), SaturatingSub(height, 1)),
                      Min(SaturatingSub(m.endCol, t.colOffset), SaturatingSub(width, 1))))
  }

  function MergesFrom(t: TrimmedSheet, merges: seq<Merge>): seq<Merge> {
    if merges == [] then []
    else
      var before, clip := MergesFrom(t, merges[..|merges| - 1]), Clip(t, merges[|merges| - 1]);
      if clip.Some? && Spreads(clip.value) then before + [clip.value] else before
  }

  ghost predicate Disjoint(merges: seq<Merge>) {
    forall i, j, r: nat, c: nat :: 0 <= i < j < |merges| && merges[i].Contains(r, c) ==> !merges[j].Contains(r, c)
  }

  /** The upper left cell of the merge is in the box. */
  predicate StartsWithin(t: TrimmedSheet, m: Merge) {
    && t.rows != [] && t.rowOffset <= m.startRow < t.rowOffset + |t.rows|
    && t.colOffset <= m.startCol < t.colOffset + |t.rows[0]|
  }

  /** Merges as a table needs them: within it, disjoint, of more than one cell. */
  ghost predicate MergesOk(merges: seq<Merge>, height: nat, width: nat) {
    && (forall i :: 0 <= i < |merges| ==>
          merges[i].WellFormed() && merges[i].endRow < height && merges[i].endCol < width
          && Spreads(merges[i]))
    && Disjoint(merges)
  }

  /** Within the trimmed sheet a clipped merge covers what the merge covered. */
  lemma ClipCovers(t: TrimmedSheet, m: Merge, r: nat, c: nat)
    requires m.WellFormed() && t.rows != [] && Clip(t, m).Some?
    ensures var clip := Clip(t, m).value;
            && clip.WellFormed() && clip.endRow < |t.rows| && clip.endCol < |t.rows[0]|
            && (clip.Contains(r, c) <==>
                  r < |t.rows| && c < |t.rows[0]| && m.Contains(t.rowOffset + r, t.colOffset + c))
  {
  }

  /** The merges kept are the clips of more than one cell, in order. */
  lemma {:induction false} KeptMerges(t: TrimmedSheet, merges: seq<Merge>, m: Merge)
    ensures m in MergesFrom(t, merges) <==>
              exists i :: 0 <= i < |merges| && Clip(t, merges[i]) == Some(m) && Spreads(m)
  {
    hide Clip;
    if merges != [] {
      var n := |merges| - 1;
      KeptMerges(t, merges[..n], m);
      if i :| 0 <= i < |merges| && Clip(t, merges[i]) == Some(m) && Spreads(m) {
        assert i < n ==> merges[..n][i] == merges[i];
      }
      if i :| 0 <= i < n && Clip(t, merges[..n][i]) == Some(m) && Spreads(m) {
        assert Clip(t, merges[i]) == Some(m);
      }
    }
  }

  lemma {:induction false} TrimmedMergesOk(t: TrimmedSheet, merges: seq<Merge>)
    requires t.rows != [] && Disjoint(merges)
    requires forall i :: 0 <= i < |merges| ==> merges[i].WellFormed()
    ensures MergesOk(MergesFrom(t, merges), |t.rows|, |t.rows[0]|)
    ensures forall k :: 0 <= k < |MergesFrom(t, merges)| ==>
              exists i :: 0 <= i < |merges| && Clip(t, merges[i]) == Some(MergesFrom(t, merges)[k])
  {
    hide Clip;
    if merges != [] {
      var n := |merges| - 1;
      TrimmedMergesOk(t, merges[..n]);
      var before, after := MergesFrom(t, merges[..n]), MergesFrom(t, merges);
      forall k | 0 <= k < |after|
        ensures exists i :: 0 <= i < |merges| && Clip(t, merges[i]) == Some(after[k])
      {
        if k < |before| {
          var i :| 0 <= i < n && Clip(t, merges[..n][i]) == Some(before[k]);
          assert Clip(t, merges[i]) == Some(after[k]);
        }
      }
      forall i, j, r: nat, c: nat | 0 <= i < j < |after| && after[i].Contains(r, c)
        ensures !after[j].Contains(r, c)
      {
        if j == |before| {
          var k :| 0 <= k < n && Clip(t, merges[..n][k]) == Some(before[i]);
          ClipCovers(t, merges[k], r, c);
          ClipCovers(t, merges[n], r, c);
        }
      }
      if |after| > |before| {
        ClipCovers(t, merges[n], 0, 0);
      }
    }
  }

  lemma ClipWhen(t: TrimmedSheet, m: Merge)
    requires t.rows != []
    ensures Clip(t, m).Some? <==> StartsWithin(t, m)
  {
  }

  /** Trimming keeps merges well formed and disjoint; what it keeps are exactly
      the clips of more than one cell, and it drops exactly the merges that start
      outside the box or keep a single cell of it. */
  lemma TrimmedMerges(t: TrimmedSheet, merges: seq<Merge>)
    requires t.rows != [] && Disjoint(merges)
    requires forall i :: 0 <= i < |merges| ==> merges[i].WellFormed()
    ensures MergesOk(MergesFrom(t, merges), |t.rows|, |t.rows[0]|)
    ensures forall m :: m in MergesFrom(t, merges) <==>
              exists i :: 0 <= i < |merges| && StartsWithin(t, merges[i]) && Clip(t, merges[i]) == Some(m) && Spreads(m)
  {
    hide Clip, MergesOk, Disjoint, MergesFrom, StartsWithin;
    TrimmedMergesOk(t, merges);
    forall m
      ensures m in MergesFrom(t, merges) <==>
                exists i :: 0 <= i < |merges| && StartsWithin(t, merges[i]) && Clip(t, merges[i]) == Some(m) && Spreads(m)
    {
      KeptMerges(t, merges, m);
      forall i | 0 <= i < |merges|
        ensures Clip(t, merges[i]).Some? <==> StartsWithin(t, merges[i])
      {
        ClipWhen(t, merges[i]);
      }
    }
  }

  /** Every clip kept covers what its merge covers, when the rows are those of a
      range that starts at the given cell of the sheet and merges are given in the
      sheet's coordinates. */
  ghost predicate ClipsAlign(t: TrimmedSheet, startRow: nat, startCol: nat)
    requires t.rows != []
  {
    forall m: Merge, r: nat, c: nat ::
      m.WellFormed() && Clip(t, m).Some? && Spreads(Clip(t, m).value) && r < |t.rows| && c < |t.rows[0]| ==>
        (Clip(t, m).value.Contains(r, c) <==> m.Contains(startRow + t.rowOffset + r, startCol + t.colOffset + c))
  }

  /** The start of the range is added to neither side, so merges land on their own
      cells exactly when the range starts at the first cell of the sheet. */
  lemma ClipsAlignAtOrigin(t: TrimmedSheet, startRow: nat, startCol: nat)
    requires t.rows != [] && t.rows[0] != [] && (|t.rows| > 1 || |t.rows[0]| > 1)
    ensures ClipsAlign(t, startRow, startCol) <==> startRow == 0 && startCol == 0
  {
    hide Clip;
    if startRow == 0 && startCol == 0 {
      forall m: Merge, r: nat, c: nat | m.WellFormed() && Clip(t, m).Some?
        ensures r < |t.rows| && c < |t.rows[0]| ==>
                  (Clip(t, m).value.Contains(r, c) <==> m.Contains(t.rowOffset + r, t.colOffset + c))
      {
        ClipCovers(t, m, r, c);
      }
    } else {
      var r, c := |t.rows| - 1, |t.rows[0]| - 1;
      var whole := Merge(t.rowOffset, t.colOffset, t.rowOffset + r, t.colOffset + c);
      ClipOfWhole(t, whole);
      assert Clip(t, whole).value.Contains(r, c);
    }
  }

  lemma ClipOfWhole(t: TrimmedSheet, whole: Merge)
    requires t.rows != [] && t.rows[0] != []
    requires whole == Merge(t.rowOffset, t.colOffset, t.rowOffset + |t.rows| - 1, t.colOffset + |t.rows[0]| - 1)
    ensures Clip(t, whole) == Some(Merge(0, 0, |t.rows| - 1, |t.rows[0]| - 1))
  {
  }
}
