/**
 * The workbook side of `paste` in `xlutil/core/utils.py`: worksheets with their
 * cells and tables, cell names, and the checks made before the first write.
 */
module Workbook {
  import opened Wrappers
  import opened Columns
  import opened ColumnList
  import opened Sequences
  import opened Rows
  import opened CellRefs
  import opened RowWrites

  /** The table style `paste` always uses: medium style 9, banded rows and columns. */
  datatype TableStyle = TableStyle(
    name: string, showFirstColumn: bool, showLastColumn: bool,
    showRowStripes: bool, showColumnStripes: bool)

  const DefaultStyle: TableStyle := TableStyle("TableStyleMedium9", false, false, true, true)

  /** A table registered on a worksheet: its display name, its `start:end` reference and style. */
  datatype Table = Table(displayName: string, ref: string, style: TableStyle)

  /** A worksheet: a title, its grid of cells and the tables registered on it. */
  class Worksheet {
    const title: string
    var cells: Grid
    var tables: seq<Table>

    constructor (title: string)
      ensures this.title == title && cells == map[] && tables == []
    {
      this.title := title;
      cells := map[];
      tables := [];
    }
  }

  /** The reference of a cell, e.g. "B7": the column letters, then the row number. */
  function CellName(c: Cell): string
  {
    RefName(ColumnId(c.col), c.row)
  }

  /** `f"{letters}{row}"`: column letters followed by the row number. */
  function RefName(letters: string, row: nat): string
  {
    letters + DecimalString(row)
  }

  /** `[i.title for i in wb.worksheets]` */
  function Titles(wb: seq<Worksheet>): seq<string>
  {
    seq(|wb|, i requires 0 <= i < |wb| => wb[i].title)
  }

  /** The names of all tables on all worksheets of the workbook. */
  function TableNames(wb: seq<Worksheet>): set<string>
    reads wb`tables
    decreases |wb|
  {
    if wb == [] then {} else (set t | t in wb[0].tables :: t.displayName) + TableNames(wb[1..])
  }

  /** The exceptions `paste` raises. */
  datatype PasteError =
    | IndexNotImplemented           // NotImplementedError for index=True
    | SheetNotFound                 // ValueError from `sheets.index(sheet_name)`
    | InvalidCell(cause: ParseError) // ValueError from `extract_cell_n_row_ids(at)`
    | ColumnBeyondXFD                 // ValueError from `cs.index(c)`: letters beyond XFD
    | CellOccupied(cell: string)    // ValueError "Value already found in cell ..."
    | NothingWritten                // `paste_loc` unbound: no data row or no column
    | DuplicateTableName            // ValueError from `ws.add_table`

  /** Where a paste goes once its preliminary checks pass. */
  datatype Plan = Plan(sheet: nat, col: nat, row: nat)

  /**
   * The checks `paste` makes before its first write, in the source's order:
   * the `index` flag, the sheet name, the cell reference, the column letters.
   */
  function PlanPaste(titles: seq<string>, sheetName: string, at: string, index: bool): (r: Result<Plan, PasteError>)
    ensures r.Success? ==>
      r.value.sheet < |titles| && titles[r.value.sheet] == sheetName &&
      (forall j :: 0 <= j < r.value.sheet ==> titles[j] != sheetName) &&
      1 <= r.value.col <= MAX_COLS && 1 <= r.value.row <= MAX_ROWS &&
      ExtractCellRef(at) == Success(CellRef(ColumnId(r.value.col), r.value.row))
    ensures index ==> r == Failure(IndexNotImplemented)
    ensures !index && sheetName !in titles ==> r == Failure(SheetNotFound)
    ensures !index && sheetName in titles && ExtractCellRef(at).Failure? ==>
      r == Failure(InvalidCell(ExtractCellRef(at).error))
    ensures !index && sheetName in titles && ExtractCellRef(at).Success? ==>
      (r.Success? <==> ColumnNumber(ExtractCellRef(at).value.column) <= MAX_COLS)
    ensures !index && sheetName in titles && ExtractCellRef(at).Success? ==>
      (r.Failure? ==> r.error == ColumnBeyondXFD) &&
      (r.Success? ==> r.value.col == ColumnNumber(ExtractCellRef(at).value.column) &&
                      r.value.row == ExtractCellRef(at).value.row)
  {
    if index then Failure(IndexNotImplemented)
    else match IndexOf(titles, sheetName)
      case None => Failure(SheetNotFound)
      case Some(k) =>
        match ExtractCellRef(at)
        case Failure(e) => Failure(InvalidCell(e))
        case Success(ref) =>
          ColumnIdsWellFormed();
          PositionOfLetters(ColumnIds(), ref.column);
          match ColumnPosition(ref.column)
          case None => Failure(ColumnBeyondXFD)
          case Some(col) => Success(Plan(k, col, ref.row))
  }

  /**
   * A reference built from a column number up to XFD and a row number up to
   * MAX_ROWS always passes the checks, on the first sheet of that name.
   */
  lemma PlanPasteOfCell(titles: seq<string>, sheetName: string, col: nat, row: nat, k: nat)
    requires 1 <= col <= MAX_COLS && 1 <= row <= MAX_ROWS
    requires k < |titles| && titles[k] == sheetName
    requires forall j :: 0 <= j < k ==> titles[j] != sheetName
    ensures PlanPaste(titles, sheetName, CellName(Cell(col, row)), false) == Success(Plan(k, col, row))
  {
    var name := CellName(Cell(col, row));
    assert ExtractCellRef(name) == Success(CellRef(ColumnId(col), row)) by {
      ExtractCellRefRoundTrip(col, row, "");
      assert ColumnId(col) + DecimalString(row) + "" == name;
    }
    ColumnIdsWellFormed();
    PositionOfId(ColumnIds(), col);
    assert IndexOf(titles, sheetName) == Some(k);
  }
}
