/**
 * Where `paste` in `xlutil/core/utils.py` puts a DataFrame: the header row at
 * the top-left cell, the data rows below it.
 */
module PasteLayout {
  import opened Wrappers
  import opened Columns
  import opened RowWrites
  import opened BlockWrites

  // ---------------------------------------------------------------------------
  // Pasting a data frame
  // ---------------------------------------------------------------------------

  /** A DataFrame: column names and rows of possibly missing (NaN) values. */
  datatype Frame = Frame(columns: seq<string>, rows: seq<seq<Option<Scalar>>>)
  {
    /** Every row has one value per column. */
    predicate WellFormed()
    {
      forall i :: 0 <= i < |rows| ==> |rows[i]| == |columns|
    }
  }

  /**
   * `len(cs[cidx : cidx + len(cols)])` for the start column `col = cidx + 1`:
   * the frame's columns that fit between `col` and XFD.
   */
  function Width(df: Frame, col: nat): (w: nat)
    requires 1 <= col <= MAX_COLS
    ensures w <= |df.columns| && col + w <= MAX_COLS + 1
    ensures w < |df.columns| ==> col + w == MAX_COLS + 1
  {
    if |df.columns| <= MAX_COLS - col + 1 then |df.columns| else MAX_COLS - col + 1
  }

  /** The header row: the first `w` column names as text. */
  function HeaderRow(df: Frame, w: nat): seq<Option<Scalar>>
    requires w <= |df.columns|
  {
    seq(w, j requires 0 <= j < w => Some(Text(df.columns[j])))
  }

  /** The data rows cut to their first `w` values (`zip(cols, col_ids)`). */
  function DataRows(df: Frame, w: nat): seq<seq<Option<Scalar>>>
    requires df.WellFormed() && w <= |df.columns|
  {
    seq(|df.rows|, i requires 0 <= i < |df.rows| => df.rows[i][..w])
  }

  /** Everything `paste` writes, row by row: the header row, then the data rows. */
  function PasteBlock(df: Frame, w: nat): (b: seq<seq<Option<Scalar>>>)
    requires df.WellFormed() && w <= |df.columns|
    ensures |b| == |df.rows| + 1 && Uniform(b, w)
  {
    [HeaderRow(df, w)] + DataRows(df, w)
  }

  /** The cell writes of `paste(df, ..., at, ...)` where `at` names column `col`, row `row`. */
  function PasteCells(g: Grid, df: Frame, col: nat, row: nat, overwrite: bool): Outcome
    requires df.WellFormed() && 1 <= col <= MAX_COLS
  {
    WriteRows(g, PasteBlock(df, Width(df, col)), col, row, overwrite)
  }

  /** The rectangle a paste covers: header row plus one row per data row, `Width` columns. */
  predicate InPasteArea(c: Cell, df: Frame, col: nat, row: nat)
    requires 1 <= col <= MAX_COLS
  {
    InBlock(c, col, row, Width(df, col), |df.rows| + 1)
  }

  /** What the paste puts at cell `c` of its rectangle. */
  function PasteValue(df: Frame, col: nat, row: nat, c: Cell): Option<Scalar>
    requires df.WellFormed() && 1 <= col <= MAX_COLS && InPasteArea(c, df, col, row)
  {
    BlockValue(PasteBlock(df, Width(df, col)), col, row, c)
  }

  /** With `overwrite_values=True` a paste never stops on an occupied cell. */
  lemma PasteOverwriteNeverBlocked(g: Grid, df: Frame, col: nat, row: nat)
    requires df.WellFormed() && 1 <= col <= MAX_COLS
    ensures PasteCells(g, df, col, row, true).Done?
  {
    WriteRowsOverwrite(g, PasteBlock(df, Width(df, col)), col, row);
  }

  /**
   * A completed paste puts header `j` at (col + j, row) and value `j` of data
   * row `i` at (col + j, row + 1 + i), missing values as empty cells, for the
   * columns up to XFD only; every other cell keeps its value.
   */
  lemma PastePlacement(g: Grid, df: Frame, col: nat, row: nat, overwrite: bool)
    requires df.WellFormed() && 1 <= col <= MAX_COLS
    requires PasteCells(g, df, col, row, overwrite).Done?
    ensures var h, w := PasteCells(g, df, col, row, overwrite).grid, Width(df, col);
      (forall j :: 0 <= j < w ==> Lookup(h, Cell(col + j, row)) == Some(Text(df.columns[j]))) &&
      (forall i, j :: 0 <= i < |df.rows| && 0 <= j < w ==> Lookup(h, Cell(col + j, row + 1 + i)) == df.rows[i][j]) &&
      (forall c :: !InPasteArea(c, df, col, row) ==> Lookup(h, c) == Lookup(g, c))
  {
    var w := Width(df, col);
    var b := PasteBlock(df, w);
    WriteRowsDone(g, b, col, row, w, overwrite);
    var h := PasteCells(g, df, col, row, overwrite).grid;
    forall j | 0 <= j < w
      ensures Lookup(h, Cell(col + j, row)) == Some(Text(df.columns[j]))
    {
      assert InBlock(Cell(col + j, row), col, row, w, |b|);
      assert b[0] == HeaderRow(df, w);
    }
    forall i, j | 0 <= i < |df.rows| && 0 <= j < w
      ensures Lookup(h, Cell(col + j, row + 1 + i)) == df.rows[i][j]
    {
      assert InBlock(Cell(col + j, row + 1 + i), col, row, w, |b|);
      assert b[1 + i] == DataRows(df, w)[i] == df.rows[i][..w];
    }
  }

  /**
   * Without overwriting, a paste completes exactly when every cell of its
   * rectangle is empty beforehand.
   */
  lemma PasteNoClobberIff(g: Grid, df: Frame, col: nat, row: nat)
    requires df.WellFormed() && 1 <= col <= MAX_COLS
    ensures PasteCells(g, df, col, row, false).Done? <==>
      forall c :: InPasteArea(c, df, col, row) ==> c !in g
  {
    var b := PasteBlock(df, Width(df, col));
    if PasteCells(g, df, col, row, false).Done? {
      WriteRowsDone(g, b, col, row, Width(df, col), false);
    } else {
      WriteRowsBlocked(g, b, col, row, Width(df, col), false);
    }
  }

  /**
   * A paste stopped at `x`: `x` lies in the rectangle and held a value, the
   * cells visited before it (row-major order) were empty and now hold their
   * pasted values, and every other cell, `x` included, is as it was.
   */
  lemma PasteBlockedKeepsEarlierWrites(g: Grid, df: Frame, col: nat, row: nat, overwrite: bool)
    requires df.WellFormed() && 1 <= col <= MAX_COLS
    requires PasteCells(g, df, col, row, overwrite).Blocked?
    ensures var o := PasteCells(g, df, col, row, overwrite);
      !overwrite && InPasteArea(o.at, df, col, row) && o.at in g &&
      (forall c :: InPasteArea(c, df, col, row) && WrittenBefore(c, o.at) ==> c !in g) &&
      forall c :: Lookup(o.grid, c) ==
        if InPasteArea(c, df, col, row) && WrittenBefore(c, o.at)
        then PasteValue(df, col, row, c) else Lookup(g, c)
  {
    WriteRowsBlocked(g, PasteBlock(df, Width(df, col)), col, row, Width(df, col), overwrite);
  }
}
