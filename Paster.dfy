/**
 * `paste` of `xlutil/core/utils.py`: lays a DataFrame onto a worksheet at a
 * top-left cell reference, cell by cell, then registers the written rectangle
 * as a named table with a fixed style.
 */
module Paster {
  import opened Wrappers
  import opened Columns
  import opened ColumnList
  import opened Sequences
  import opened Rows
  import opened CellRefs
  import opened RowWrites
  import opened BlockWrites
  import opened PasteLayout
  import opened Workbook

  /**
   * One writing loop of `paste`: the values `vals` along row `row` from column
   * `col`, whose letters are `colIds`. Each cell is checked just before it is
   * written. Returns the reference of the occupied cell that stopped the loop,
   * if any, and the reference of the last cell visited (`paste_loc`).
   */
  method WriteRowCells(ws: Worksheet, vals: seq<Option<Scalar>>, colIds: seq<string>,
                       col: nat, row: nat, overwrite: bool)
    returns (occupied: Option<string>, last: Option<string>)
    requires |vals| == |colIds|
    requires forall j :: 0 <= j < |colIds| ==> colIds[j] == ColumnId(col + j)
    modifies ws`cells
    ensures var o := WriteRow(old(ws.cells), vals, col, row, overwrite);
      ws.cells == o.grid &&
      occupied == (if o.Blocked? then Some(CellName(o.at)) else None) &&
      (o.Done? ==> last == if vals == [] then None else Some(RefName(colIds[|vals| - 1], row)))
  {
    occupied, last := None, None;
    ghost var spec := WriteRow(ws.cells, vals, col, row, overwrite);
    for j := 0 to |vals|
      invariant spec == WriteRow(ws.cells, vals[j..], col + j, row, overwrite)
      invariant last == if j == 0 then None else Some(RefName(colIds[j - 1], row))
    {
      last := Some(RefName(colIds[j], row));
      if !overwrite && Cell(col + j, row) in ws.cells {
        occupied := Some(RefName(colIds[j], row));
        WriteRowBlockedStep(ws.cells, vals, col, row, overwrite, j);
        return;
      }
      WriteRowPutStep(ws.cells, vals, col, row, overwrite, j);
      ws.cells := Put(ws.cells, Cell(col + j, row), vals[j]);
    }
    assert vals[|vals|..] == [];
  }

  /**
   * The data-row loop of `paste`: data row `i`, cut to the `|colIds|` columns
   * that fit, goes to row `r + 1 + i`. Returns the reference of the occupied
   * cell that stopped the writes, if any, and `paste_loc`, the reference of
   * the last cell written.
   */
  method WriteDataRows(ws: Worksheet, df: Frame, col: nat, r: nat, colIds: seq<string>, overwrite: bool)
    returns (occupied: Option<string>, pasteLoc: Option<string>)
    requires df.WellFormed() && |colIds| <= |df.columns|
    requires forall j :: 0 <= j < |colIds| ==> colIds[j] == ColumnId(col + j)
    modifies ws`cells
    ensures var o := WriteRows(old(ws.cells), DataRows(df, |colIds|), col, r + 1, overwrite);
      ws.cells == o.grid &&
      occupied == (if o.Blocked? then Some(CellName(o.at)) else None) &&
      (o.Done? ==> pasteLoc == if |df.rows| > 0 && |colIds| > 0
                               then Some(RefName(colIds[|colIds| - 1], r + |df.rows|)) else None)
  {
    occupied, pasteLoc := None, None;
    var w := |colIds|;
    ghost var rows := DataRows(df, w);
    ghost var spec := WriteRows(ws.cells, rows, col, r + 1, overwrite);
    var rowId := r;
    var rowCount := 0;
    for i := 0 to |df.rows|
      modifies ws`cells
      invariant rowCount == i && rowId == r + i && occupied == None
      invariant spec == WriteRows(ws.cells, rows[i..], col, r + 1 + i, overwrite)
      invariant i == 0 || w == 0 ==> pasteLoc == None
      invariant i > 0 && w > 0 ==> pasteLoc == Some(RefName(colIds[w - 1], rowId))
    {
      rowCount := rowCount + 1;
      rowId := r + rowCount;
      var values := df.rows[i][..w];
      assert |values| == w;
      assert rows[i..][0] == values && rows[i..][1..] == rows[i + 1..];
      ghost var g0 := ws.cells;
      var last;
      occupied, last := WriteRowCells(ws, values, colIds, col, rowId, overwrite);
      if occupied.Some? {
        WriteRowsBlockedStep(g0, rows[i..], col, rowId, overwrite);
        assert spec == WriteRow(g0, values, col, rowId, overwrite);
        return;
      }
      WriteRowsDoneStep(g0, rows[i..], col, rowId, overwrite);
      assert spec == WriteRows(ws.cells, rows[i + 1..], col, rowId + 1, overwrite);
      if last.Some? {
        pasteLoc := last;
      }
    }
    assert rows[|df.rows|..] == [];
    assert spec == Done(ws.cells);
  }

  /**
   * The writes of `paste`: the column names along row `r`, then the data rows
   * below it, for the column letters `colIds` starting at column `col`.
   */
  method WriteCells(ws: Worksheet, df: Frame, col: nat, r: nat, colIds: seq<string>, overwrite: bool)
    returns (occupied: Option<string>, pasteLoc: Option<string>)
    requires df.WellFormed() && 1 <= col <= MAX_COLS && |colIds| == Width(df, col)
    requires forall j :: 0 <= j < |colIds| ==> colIds[j] == ColumnId(col + j)
    modifies ws`cells
    ensures var o := PasteCells(old(ws.cells), df, col, r, overwrite);
      ws.cells == o.grid &&
      occupied == (if o.Blocked? then Some(CellName(o.at)) else None) &&
      (o.Done? ==> pasteLoc == if |df.rows| > 0 && |colIds| > 0
                               then Some(RefName(colIds[|colIds| - 1], r + |df.rows|)) else None)
  {
    pasteLoc := None;
    var w := |colIds|;
    ghost var block := PasteBlock(df, w);
    assert block[0] == HeaderRow(df, w) && block[1..] == DataRows(df, w);

    // adding column names
    var header := seq(w, j requires 0 <= j < w => Some(Text(df.columns[j])));
    assert header == block[0];
    ghost var g0 := ws.cells;
    var headerLast;
    occupied, headerLast := WriteRowCells(ws, header, colIds, col, r, overwrite);
    if occupied.Some? {
      WriteRowsBlockedStep(g0, block, col, r, overwrite);
      return;
    }
    WriteRowsDoneStep(g0, block, col, r, overwrite);
    // row values
    occupied, pasteLoc := WriteDataRows(ws, df, col, r, colIds, overwrite);
  }

  /** The last cell a completed paste writes: bottom row, rightmost column that fits. */
  function LastCell(df: Frame, col: nat, row: nat): (c: Cell)
    requires 1 <= col <= MAX_COLS
    ensures Width(df, col) > 0 ==> InPasteArea(c, df, col, row) && c.col <= MAX_COLS
    ensures forall d :: InPasteArea(d, df, col, row) ==> d.col <= c.col && d.row <= c.row
  {
    Cell(col + Width(df, col) - 1, row + |df.rows|)
  }

  /**
   * The effect of a paste on the target sheet, from its cells `g0`, its tables
   * `t0` and the workbook's table names `names0` before, to its cells `g1`,
   * its tables `t1` and the result `res` after.
   */
  predicate PastedInto(g0: Grid, t0: seq<Table>, names0: set<string>,
                       df: Frame, tableName: string, at: string, col: nat, row: nat, overwrite: bool,
                       g1: Grid, t1: seq<Table>, res: Result<(), PasteError>)
    requires df.WellFormed() && 1 <= col <= MAX_COLS
  {
    var o := PasteCells(g0, df, col, row, overwrite);
    g1 == o.grid &&
    if o.Blocked? then res == Failure(CellOccupied(CellName(o.at))) && t1 == t0
    else if df.rows == [] || df.columns == [] then res == Failure(NothingWritten) && t1 == t0
    else if tableName in names0 then res == Failure(DuplicateTableName) && t1 == t0
    else
      res == Success(()) &&
      t1 == t0 + [Table(tableName, at + ":" + CellName(LastCell(df, col, row)), DefaultStyle)]
  }

  /**
   * The part of `paste` after its checks, on the chosen worksheet `ws` of the
   * workbook `wb`: the header and data writes, then the table registration.
   * `cs` are the generated column letters.
   */
  method PasteOnSheet(df: Frame, tableName: string, at: string, wb: seq<Worksheet>, ws: Worksheet,
                      cs: seq<string>, col: nat, r: nat, overwrite: bool)
    returns (res: Result<(), PasteError>)
    requires df.WellFormed() && 1 <= col <= MAX_COLS && ws in wb
    requires |cs| == MAX_COLS && forall k :: 0 <= k < MAX_COLS ==> cs[k] == ColumnId(k + 1)
    modifies ws`cells, ws`tables
    ensures PastedInto(old(ws.cells), old(ws.tables), old(TableNames(wb)),
                       df, tableName, at, col, r, overwrite, ws.cells, ws.tables, res)
  {
    ghost var g0, t0, names0 := ws.cells, ws.tables, TableNames(wb);
    var cidx := col - 1;
    var cols := df.columns;
    var colIds := cs[cidx .. if cidx + |cols| <= |cs| then cidx + |cols| else |cs|];
    assert forall j :: 0 <= j < |colIds| ==> colIds[j] == cs[cidx + j];
    var occupied, pasteLoc := WriteCells(ws, df, col, r, colIds, overwrite);
    assert occupied.None? && pasteLoc.Some? ==> pasteLoc.value == CellName(LastCell(df, col, r)) by {
      if occupied.None? && pasteLoc.Some? {
        assert |colIds| == Width(df, col);
        assert colIds[|colIds| - 1] == ColumnId(col + |colIds| - 1);
      }
    }
    assert TableNames(wb) == names0;
    res := RegisterTable(ws, wb, tableName, at, occupied, pasteLoc);
    PastedIntoOfSteps(g0, t0, names0, df, tableName, at, col, r, overwrite, ws.cells, ws.tables, res, occupied, pasteLoc);
  }

  /** PastedInto from what the writes and the table registration each report. */
  lemma PastedIntoOfSteps(g0: Grid, t0: seq<Table>, names0: set<string>,
                          df: Frame, tableName: string, at: string, col: nat, row: nat, overwrite: bool,
                          g1: Grid, t1: seq<Table>, res: Result<(), PasteError>,
                          occupied: Option<string>, pasteLoc: Option<string>)
    requires df.WellFormed() && 1 <= col <= MAX_COLS
    requires var o := PasteCells(g0, df, col, row, overwrite);
      g1 == o.grid && occupied == (if o.Blocked? then Some(CellName(o.at)) else None) &&
      (o.Done? ==> pasteLoc == if |df.rows| > 0 && Width(df, col) > 0 then Some(CellName(LastCell(df, col, row))) else None)
    requires occupied.Some? ==> res == Failure(CellOccupied(occupied.value)) && t1 == t0
    requires occupied.None? && pasteLoc.None? ==> res == Failure(NothingWritten) && t1 == t0
    requires occupied.None? && pasteLoc.Some? && tableName in names0 ==> res == Failure(DuplicateTableName) && t1 == t0
    requires occupied.None? && pasteLoc.Some? && tableName !in names0 ==>
      res == Success(()) && t1 == t0 + [Table(tableName, at + ":" + pasteLoc.value, DefaultStyle)]
    ensures PastedInto(g0, t0, names0, df, tableName, at, col, row, overwrite, g1, t1, res)
  {
  }

  /**
   * The end of `paste`: an occupied cell raises; otherwise the table from `at`
   * to `paste_loc`, the last cell written, is added to `ws` unless no cell was
   * written or a table of that name already exists in the workbook.
   */
  method RegisterTable(ws: Worksheet, wb: seq<Worksheet>, tableName: string, at: string,
                       occupied: Option<string>, pasteLoc: Option<string>)
    returns (res: Result<(), PasteError>)
    modifies ws`tables
    ensures occupied.Some? ==> res == Failure(CellOccupied(occupied.value)) && ws.tables == old(ws.tables)
    ensures occupied.None? && pasteLoc.None? ==> res == Failure(NothingWritten) && ws.tables == old(ws.tables)
    ensures occupied.None? && pasteLoc.Some? && tableName in old(TableNames(wb)) ==>
      res == Failure(DuplicateTableName) && ws.tables == old(ws.tables)
    ensures occupied.None? && pasteLoc.Some? && tableName !in old(TableNames(wb)) ==>
      res == Success(()) && ws.tables == old(ws.tables) + [Table(tableName, at + ":" + pasteLoc.value, DefaultStyle)]
  {
    if occupied.Some? {
      return Failure(CellOccupied(occupied.value));
    }

    // setting the above info as table for later recognition
    if pasteLoc.None? {
      return Failure(NothingWritten);
    }
    var table := Table(tableName, at + ":" + pasteLoc.value, DefaultStyle);
    if tableName in TableNames(wb) {
      return Failure(DuplicateTableName);
    }
    ws.tables := ws.tables + [table];
    return Success(());
  }

  /**
   * `paste(df, table_name, at, wb, sheet_name, index, overwrite_values)`.
   * The checks of PlanPaste come first and fail without writing; then the
   * header cells and the data cells are written as `PasteLayout.PasteCells`
   * describes, stopping at the first occupied cell when `overwrite` is false;
   * finally the table `at:last-written-cell` is added unless its name is taken
   * in the workbook. No other worksheet changes.
   */
  method Paste(df: Frame, tableName: string, at: string, wb: seq<Worksheet>,
               sheetName: string, index: bool, overwrite: bool)
    returns (res: Result<(), PasteError>)
    requires df.WellFormed()
    modifies wb
    ensures PlanPaste(Titles(wb), sheetName, at, index).Failure? ==>
      res == Failure(PlanPaste(Titles(wb), sheetName, at, index).error)
    ensures PlanPaste(Titles(wb), sheetName, at, index).Failure? ==>
      forall w :: w in wb ==> w.cells == old(w.cells) && w.tables == old(w.tables)
    ensures PlanPaste(Titles(wb), sheetName, at, index).Success? ==>
      var ws := wb[PlanPaste(Titles(wb), sheetName, at, index).value.sheet];
      forall w :: w in wb && w != ws ==> w.cells == old(w.cells) && w.tables == old(w.tables)
    ensures PlanPaste(Titles(wb), sheetName, at, index).Success? ==>
      var plan := PlanPaste(Titles(wb), sheetName, at, index).value;
      var ws := wb[plan.sheet];
      PastedInto(old(ws.cells), old(ws.tables), old(TableNames(wb)),
                 df, tableName, at, plan.col, plan.row, overwrite, ws.cells, ws.tables, res)
  {
    // the index flag, the sheet lookup and the parse of `at`
    var plan := PlanPaste(Titles(wb), sheetName, at, index);
    if plan.Failure? {
      return Failure(plan.error);
    }
    var ws: Worksheet := wb[plan.value.sheet];
    var cs := GenerateColumnIds();
    res := PasteOnSheet(df, tableName, at, wb, ws, cs, plan.value.col, plan.value.row, overwrite);
  }
}
