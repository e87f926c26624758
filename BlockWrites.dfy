/**
 * The rows of a paste written top to bottom, as values: what a completed and
 * what a stopped paste leaves in the grid.
 */
module BlockWrites {
  import opened Wrappers
  import opened RowWrites

  // ---------------------------------------------------------------------------
  // A block of rows
  // ---------------------------------------------------------------------------

  predicate InBlock(c: Cell, col: nat, row: nat, width: nat, height: nat)
  {
    col <= c.col < col + width && row <= c.row < row + height
  }

  /** Row-major order: the order in which `paste` visits cells. */
  predicate WrittenBefore(c: Cell, x: Cell)
  {
    c.row < x.row || (c.row == x.row && c.col < x.col)
  }

  predicate Uniform(rows: seq<seq<Option<Scalar>>>, width: nat)
  {
    forall i :: 0 <= i < |rows| ==> |rows[i]| == width
  }

  /** The value a block places at cell `c`. */
  function BlockValue(rows: seq<seq<Option<Scalar>>>, col: nat, row: nat, c: Cell): Option<Scalar>
    requires c.row >= row && c.col >= col
    requires c.row - row < |rows| && c.col - col < |rows[c.row - row]|
  {
    rows[c.row - row][c.col - col]
  }

  /** With overwriting allowed every row is written in full. */
  lemma {:induction false} WriteRowsOverwrite(g: Grid, rows: seq<seq<Option<Scalar>>>, col: nat, row: nat)
    ensures WriteRows(g, rows, col, row, true).Done?
    decreases |rows|
  {
    if rows != [] {
      WriteRowOverwrite(g, rows[0], col, row);
      WriteRowsOverwrite(WriteRow(g, rows[0], col, row, true).grid, rows[1..], col, row + 1);
    }
  }

  /**
   * A block written in full holds its values in its rectangle and nothing else
   * changed; without overwriting, every cell of the rectangle was empty before.
   */
  lemma WriteRowsDone(g: Grid, rows: seq<seq<Option<Scalar>>>, col: nat, row: nat, width: nat, overwrite: bool)
    requires Uniform(rows, width)
    requires WriteRows(g, rows, col, row, overwrite).Done?
    ensures forall c :: Lookup(WriteRows(g, rows, col, row, overwrite).grid, c) ==
                        if InBlock(c, col, row, width, |rows|) then BlockValue(rows, col, row, c) else Lookup(g, c)
    ensures !overwrite ==> forall c :: InBlock(c, col, row, width, |rows|) ==> c !in g
  {
    WriteRowsDoneValues(g, rows, col, row, width, overwrite);
    if !overwrite {
      WriteRowsDoneFree(g, rows, col, row, width);
    }
  }

  /** The values half of WriteRowsDone. */
  lemma {:induction false} WriteRowsDoneValues(g: Grid, rows: seq<seq<Option<Scalar>>>, col: nat, row: nat, width: nat, overwrite: bool)
    requires Uniform(rows, width)
    requires WriteRows(g, rows, col, row, overwrite).Done?
    ensures forall c :: Lookup(WriteRows(g, rows, col, row, overwrite).grid, c) ==
                        if InBlock(c, col, row, width, |rows|) then BlockValue(rows, col, row, c) else Lookup(g, c)
    decreases |rows|
  {
    if rows != [] {
      var o1 := WriteRow(g, rows[0], col, row, overwrite);
      WriteRowDone(g, rows[0], col, row, overwrite);
      var g1 := o1.grid;
      WriteRowsDoneValues(g1, rows[1..], col, row + 1, width, overwrite);
      var h := WriteRows(g, rows, col, row, overwrite).grid;
      assert h == WriteRows(g1, rows[1..], col, row + 1, overwrite).grid;
      forall c
        ensures Lookup(h, c) ==
          if InBlock(c, col, row, width, |rows|) then BlockValue(rows, col, row, c) else Lookup(g, c)
      {
        if InBlock(c, col, row + 1, width, |rows| - 1) {
          assert rows[1..][c.row - (row + 1)] == rows[c.row - row];
        }
      }
    }
  }

  /** The emptiness half of WriteRowsDone: without overwriting, a completed block only wrote empty cells. */
  lemma {:induction false} WriteRowsDoneFree(g: Grid, rows: seq<seq<Option<Scalar>>>, col: nat, row: nat, width: nat)
    requires Uniform(rows, width)
    requires WriteRows(g, rows, col, row, false).Done?
    ensures forall c :: InBlock(c, col, row, width, |rows|) ==> c !in g
    decreases |rows|
  {
    if rows != [] {
      var o1 := WriteRow(g, rows[0], col, row, false);
      WriteRowDone(g, rows[0], col, row, false);
      var g1 := o1.grid;
      WriteRowsDoneFree(g1, rows[1..], col, row + 1, width);
      forall c | InBlock(c, col, row, width, |rows|)
        ensures c !in g
      {
        if c.row != row {
          assert InBlock(c, col, row + 1, width, |rows| - 1);
          assert c !in g1;
        } else {
          assert InSegment(c, col, row, |rows[0]|);
        }
      }
    }
  }

  /** What a block stopped at `x` guarantees; see WriteRowsBlocked. */
  ghost predicate StoppedAt(g: Grid, rows: seq<seq<Option<Scalar>>>, col: nat, row: nat, width: nat, overwrite: bool, o: Outcome)
    requires o.Blocked? && Uniform(rows, width)
  {
    var x := o.at;
    !overwrite && InBlock(x, col, row, width, |rows|) && x in g &&
    (forall c :: InBlock(c, col, row, width, |rows|) && WrittenBefore(c, x) ==> c !in g) &&
    forall c :: Lookup(o.grid, c) ==
                  if InBlock(c, col, row, width, |rows|) && WrittenBefore(c, x)
                  then BlockValue(rows, col, row, c) else Lookup(g, c)
  }

  /**
   * A block stopped at `x`: `x` lies in the rectangle and held a value; the
   * cells of the rectangle visited before it were empty and now hold their
   * values; every other cell is as it was.
   */
  lemma {:induction false} WriteRowsBlocked(g: Grid, rows: seq<seq<Option<Scalar>>>, col: nat, row: nat, width: nat, overwrite: bool)
    requires Uniform(rows, width)
    requires WriteRows(g, rows, col, row, overwrite).Blocked?
    ensures StoppedAt(g, rows, col, row, width, overwrite, WriteRows(g, rows, col, row, overwrite))
    decreases |rows|
  {
    if WriteRow(g, rows[0], col, row, overwrite).Blocked? {
      BlockedInFirstRow(g, rows, col, row, width, overwrite);
    } else {
      var g1 := WriteRow(g, rows[0], col, row, overwrite).grid;
      WriteRowsBlocked(g1, rows[1..], col, row + 1, width, overwrite);
      BlockedInLaterRow(g, rows, col, row, width, overwrite);
    }
  }

  lemma BlockedInFirstRow(g: Grid, rows: seq<seq<Option<Scalar>>>, col: nat, row: nat, width: nat, overwrite: bool)
    requires Uniform(rows, width) && rows != []
    requires WriteRow(g, rows[0], col, row, overwrite).Blocked?
    ensures WriteRows(g, rows, col, row, overwrite).Blocked?
    ensures StoppedAt(g, rows, col, row, width, overwrite, WriteRows(g, rows, col, row, overwrite))
  {
    var o := WriteRows(g, rows, col, row, overwrite);
    WriteRowBlocked(g, rows[0], col, row, overwrite);
    assert o == WriteRow(g, rows[0], col, row, overwrite);
    var x := o.at;
    forall c
      ensures Lookup(o.grid, c) ==
                if InBlock(c, col, row, width, |rows|) && WrittenBefore(c, x)
                then BlockValue(rows, col, row, c) else Lookup(g, c)
    {
      assert InBlock(c, col, row, width, |rows|) && WrittenBefore(c, x) <==> InSegment(c, col, row, x.col - col);
    }
    forall c | InBlock(c, col, row, width, |rows|) && WrittenBefore(c, x)
      ensures c !in g
    {
      assert InSegment(c, col, row, x.col - col);
    }
  }

  lemma BlockedInLaterRow(g: Grid, rows: seq<seq<Option<Scalar>>>, col: nat, row: nat, width: nat, overwrite: bool)
    requires Uniform(rows, width) && rows != []
    requires WriteRow(g, rows[0], col, row, overwrite).Done?
    requires var g1 := WriteRow(g, rows[0], col, row, overwrite).grid;
      WriteRows(g1, rows[1..], col, row + 1, overwrite).Blocked? &&
      StoppedAt(g1, rows[1..], col, row + 1, width, overwrite, WriteRows(g1, rows[1..], col, row + 1, overwrite))
    ensures WriteRows(g, rows, col, row, overwrite).Blocked?
    ensures StoppedAt(g, rows, col, row, width, overwrite, WriteRows(g, rows, col, row, overwrite))
  {
    WriteRowDone(g, rows[0], col, row, overwrite);
    var g1 := WriteRow(g, rows[0], col, row, overwrite).grid;
    var o := WriteRows(g, rows, col, row, overwrite);
    assert o == WriteRows(g1, rows[1..], col, row + 1, overwrite);
    var x := o.at;
    forall c
      ensures Lookup(o.grid, c) ==
                if InBlock(c, col, row, width, |rows|) && WrittenBefore(c, x)
                then BlockValue(rows, col, row, c) else Lookup(g, c)
    {
      if InBlock(c, col, row + 1, width, |rows| - 1) {
        assert rows[1..][c.row - (row + 1)] == rows[c.row - row];
      }
    }
    forall c | InBlock(c, col, row, width, |rows|) && WrittenBefore(c, x)
      ensures c !in g
    {
      if c.row != row {
        assert InBlock(c, col, row + 1, width, |rows| - 1);
        assert c !in g1;
      } else {
        assert InSegment(c, col, row, |rows[0]|);
      }
    }
  }
}
