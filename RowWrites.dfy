/**
 * What `paste` in `xlutil/core/utils.py` does to the cells of a worksheet, as
 * values: cells, grids, and the writing of one row left to right, each cell
 * checked just before it is written when overwriting is not allowed. The first
 * occupied cell stops the paste and the cells written before it stay written.
 */
module RowWrites {
  import opened Wrappers

  /** A non-empty cell value. Header names are text; data cells are text or numbers. */
  datatype Scalar = Text(text: string) | Number(number: int)

  /** A cell by 1-based column number and 1-based row number. */
  datatype Cell = Cell(col: nat, row: nat)

  /** The cells of a worksheet; a cell that is not in the map is empty. */
  type Grid = map<Cell, Scalar>

  /** The value of a cell, `None` when it is empty. */
  function Lookup(g: Grid, c: Cell): Option<Scalar>
  {
    if c in g then Some(g[c]) else None
  }

  /** `ws[cell] = v`, where `None` leaves the cell empty. */
  function Put(g: Grid, c: Cell, v: Option<Scalar>): (h: Grid)
    ensures Lookup(h, c) == v
    ensures forall d :: d != c ==> Lookup(h, d) == Lookup(g, d)
  {
    if v.Some? then g[c := v.value] else g - {c}
  }

  /** The grid after a run of writes, and the occupied cell that stopped it, if any. */
  datatype Outcome = Done(grid: Grid) | Blocked(grid: Grid, at: Cell)

  /**
   * Writes `vals` into row `row` from column `col` rightwards. Without
   * `overwrite`, a cell that already holds a value stops the run before it is
   * written.
   */
  function WriteRow(g: Grid, vals: seq<Option<Scalar>>, col: nat, row: nat, overwrite: bool): Outcome
    decreases |vals|
  {
    if vals == [] then Done(g)
    else if !overwrite && Cell(col, row) in g then Blocked(g, Cell(col, row))
    else WriteRow(Put(g, Cell(col, row), vals[0]), vals[1..], col + 1, row, overwrite)
  }

  /** Writes `rows` one below the other, the first at row `row`; stops at the first blocked cell. */
  function WriteRows(g: Grid, rows: seq<seq<Option<Scalar>>>, col: nat, row: nat, overwrite: bool): Outcome
    decreases |rows|
  {
    if rows == [] then Done(g)
    else match WriteRow(g, rows[0], col, row, overwrite)
      case Blocked(h, c) => Blocked(h, c)
      case Done(h) => WriteRows(h, rows[1..], col, row + 1, overwrite)
  }

  /** Without overwriting, an occupied cell `col + j` stops the rest of the row before anything is written. */
  lemma WriteRowBlockedStep(g: Grid, vals: seq<Option<Scalar>>, col: nat, row: nat, overwrite: bool, j: nat)
    requires j < |vals| && !overwrite && Cell(col + j, row) in g
    ensures WriteRow(g, vals[j..], col + j, row, overwrite) == Blocked(g, Cell(col + j, row))
  {
    assert vals[j..] != [];
  }

  /** A cell `col + j` that may be written is written, and the rest of the row goes on one column to the right. */
  lemma WriteRowPutStep(g: Grid, vals: seq<Option<Scalar>>, col: nat, row: nat, overwrite: bool, j: nat)
    requires j < |vals| && (overwrite || Cell(col + j, row) !in g)
    ensures WriteRow(g, vals[j..], col + j, row, overwrite) ==
            WriteRow(Put(g, Cell(col + j, row), vals[j]), vals[j + 1..], col + j + 1, row, overwrite)
  {
    assert vals[j..][0] == vals[j] && vals[j..][1..] == vals[j + 1..];
  }

  /** A block whose first row is blocked stops there. */
  lemma WriteRowsBlockedStep(g: Grid, rows: seq<seq<Option<Scalar>>>, col: nat, row: nat, overwrite: bool)
    requires rows != [] && WriteRow(g, rows[0], col, row, overwrite).Blocked?
    ensures WriteRows(g, rows, col, row, overwrite) == WriteRow(g, rows[0], col, row, overwrite)
  {
  }

  /** A block whose first row is written in full goes on with the next row. */
  lemma WriteRowsDoneStep(g: Grid, rows: seq<seq<Option<Scalar>>>, col: nat, row: nat, overwrite: bool)
    requires rows != [] && WriteRow(g, rows[0], col, row, overwrite).Done?
    ensures WriteRows(g, rows, col, row, overwrite) ==
            WriteRows(WriteRow(g, rows[0], col, row, overwrite).grid, rows[1..], col, row + 1, overwrite)
  {
  }

  // ---------------------------------------------------------------------------
  // One row
  // ---------------------------------------------------------------------------

  predicate InSegment(c: Cell, col: nat, row: nat, width: nat)
  {
    c.row == row && col <= c.col < col + width
  }

  /** With overwriting allowed a row is always written in full. */
  lemma {:induction false} WriteRowOverwrite(g: Grid, vals: seq<Option<Scalar>>, col: nat, row: nat)
    ensures WriteRow(g, vals, col, row, true).Done?
    decreases |vals|
  {
    if vals != [] {
      WriteRowOverwrite(Put(g, Cell(col, row), vals[0]), vals[1..], col + 1, row);
    }
  }

  /**
   * A row written in full holds `vals` in its segment and nothing else changed;
   * without overwriting, every cell of the segment was empty before.
   */
  lemma {:induction false} WriteRowDone(g: Grid, vals: seq<Option<Scalar>>, col: nat, row: nat, overwrite: bool)
    requires WriteRow(g, vals, col, row, overwrite).Done?
    ensures forall c :: Lookup(WriteRow(g, vals, col, row, overwrite).grid, c) ==
                        if InSegment(c, col, row, |vals|) then vals[c.col - col] else Lookup(g, c)
    ensures !overwrite ==> forall c :: InSegment(c, col, row, |vals|) ==> c !in g
    decreases |vals|
  {
    if vals != [] {
      var g1 := Put(g, Cell(col, row), vals[0]);
      WriteRowDone(g1, vals[1..], col + 1, row, overwrite);
      var h := WriteRow(g, vals, col, row, overwrite).grid;
      assert h == WriteRow(g1, vals[1..], col + 1, row, overwrite).grid;
      forall c
        ensures Lookup(h, c) == if InSegment(c, col, row, |vals|) then vals[c.col - col] else Lookup(g, c)
      {
        if InSegment(c, col + 1, row, |vals| - 1) {
          assert vals[1..][c.col - (col + 1)] == vals[c.col - col];
        }
      }
      if !overwrite {
        forall c | InSegment(c, col, row, |vals|)
          ensures c !in g
        {
          if c != Cell(col, row) {
            assert InSegment(c, col + 1, row, |vals| - 1);
            assert c !in g1;
          }
        }
      }
    }
  }

  /**
   * A row stopped at `x`: `x` lies in the segment and held a value; the cells
   * left of it were empty and now hold their values; nothing else changed.
   */
  lemma {:induction false} WriteRowBlocked(g: Grid, vals: seq<Option<Scalar>>, col: nat, row: nat, overwrite: bool)
    requires WriteRow(g, vals, col, row, overwrite).Blocked?
    ensures var x := WriteRow(g, vals, col, row, overwrite).at;
      !overwrite && InSegment(x, col, row, |vals|) && x in g &&
      (forall c :: InSegment(c, col, row, x.col - col) ==> c !in g) &&
      forall c :: Lookup(WriteRow(g, vals, col, row, overwrite).grid, c) ==
        if InSegment(c, col, row, x.col - col) then vals[c.col - col] else Lookup(g, c)
    decreases |vals|
  {
    if !overwrite && Cell(col, row) in g {
    } else {
      var g1 := Put(g, Cell(col, row), vals[0]);
      WriteRowBlocked(g1, vals[1..], col + 1, row, overwrite);
      var o := WriteRow(g, vals, col, row, overwrite);
      assert o == WriteRow(g1, vals[1..], col + 1, row, overwrite);
      var x, h := o.at, o.grid;
      forall c
        ensures Lookup(h, c) == if InSegment(c, col, row, x.col - col) then vals[c.col - col] else Lookup(g, c)
      {
        if InSegment(c, col + 1, row, x.col - col - 1) {
          assert vals[1..][c.col - (col + 1)] == vals[c.col - col];
        }
      }
      forall c | InSegment(c, col, row, x.col - col)
        ensures c !in g
      {
        if c != Cell(col, row) {
          assert InSegment(c, col + 1, row, x.col - col - 1);
          assert c !in g1;
        }
      }
    }
  }
}
