/**
 * The letter-to-position decoding of `worksheet_range_to_dataframe` in
 * `xlutil/core/utils.py`, before its row iteration.
 */
module Ranges {
  import opened Wrappers
  import opened Columns
  import opened ColumnList
  import opened Sequences
  import opened Rows
  import opened CellRefs

  // ---------------------------------------------------------------------------
  // Range decoding (`worksheet_range_to_dataframe`, before the row iteration)
  // ---------------------------------------------------------------------------

  datatype RangeError = BadCell(cause: ParseError) | UnknownColumn

  /** 1-based column and row bounds of a rectangular range. */
  datatype Bounds = Bounds(minCol: nat, minRow: nat, maxCol: nat, maxRow: nat)

  /**
   * Parses the start cell, then the end cell, then looks both column letter runs
   * up in the generated column list.
   */
  function RangeBounds(startCell: string, endCell: string): (r: Result<Bounds, RangeError>)
    ensures ExtractCellRef(startCell).Failure? ==> r == Failure(BadCell(ExtractCellRef(startCell).error))
    ensures ExtractCellRef(startCell).Success? && ExtractCellRef(endCell).Failure? ==>
      r == Failure(BadCell(ExtractCellRef(endCell).error))
    ensures r.Success? ==>
      ExtractCellRef(startCell) == Success(CellRef(ColumnId(r.value.minCol), r.value.minRow)) &&
      ExtractCellRef(endCell) == Success(CellRef(ColumnId(r.value.maxCol), r.value.maxRow)) &&
      1 <= r.value.minCol <= MAX_COLS && 1 <= r.value.maxCol <= MAX_COLS
    ensures ExtractCellRef(startCell).Success? && ExtractCellRef(endCell).Success? ==>
      (r.Success? <==>
        ColumnNumber(ExtractCellRef(startCell).value.column) <= MAX_COLS &&
        ColumnNumber(ExtractCellRef(endCell).value.column) <= MAX_COLS)
    ensures ExtractCellRef(startCell).Success? && ExtractCellRef(endCell).Success? && r.Failure? ==>
      r.error == UnknownColumn
  {
    match ExtractCellRef(startCell)
    case Failure(e) => Failure(BadCell(e))
    case Success(s) =>
      match ExtractCellRef(endCell)
      case Failure(e) => Failure(BadCell(e))
      case Success(e) =>
        ColumnIdsWellFormed();
        PositionOfLetters(ColumnIds(), s.column);
        PositionOfLetters(ColumnIds(), e.column);
        match (ColumnPosition(s.column), ColumnPosition(e.column))
        case (Some(sc), Some(ec)) => Success(Bounds(sc, s.row, ec, e.row))
        case _ => Failure(UnknownColumn)
  }

  /** Decoding a range whose corners were encoded from numbers gives those numbers back. */
  lemma RangeBoundsRoundTrip(c1: nat, r1: nat, c2: nat, r2: nat)
    requires 1 <= c1 <= MAX_COLS && 1 <= r1 <= MAX_ROWS
    requires 1 <= c2 <= MAX_COLS && 1 <= r2 <= MAX_ROWS
    ensures RangeBounds(ColumnId(c1) + DecimalString(r1), ColumnId(c2) + DecimalString(r2))
      == Success(Bounds(c1, r1, c2, r2))
  {
    ExtractCellRefRoundTrip(c1, r1, "");
    ExtractCellRefRoundTrip(c2, r2, "");
    assert ColumnId(c1) + DecimalString(r1) + "" == ColumnId(c1) + DecimalString(r1);
    assert ColumnId(c2) + DecimalString(r2) + "" == ColumnId(c2) + DecimalString(r2);
    ColumnIdsWellFormed();
    PositionOfId(ColumnIds(), c1);
    PositionOfId(ColumnIds(), c2);
  }
}
