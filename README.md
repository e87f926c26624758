# xlutil core, modelled in Dafny

xlutil is a thin convenience layer over pandas and openpyxl. This project models its two pieces of real logic.

**The address codec and the table paster** (`xlutil/core/utils.py`).
- `generate_column_ids` spells column numbers 1..16384 as spreadsheet letters A..XFD. The encoding is bijective base 26.
- `generate_row_ids` lists the row numbers 1..1048576.
- `extract_cell_n_row_ids` parses a reference such as `a12` into `("A", 12)`. It matches a regular expression anchored at the start only, and it rejects out-of-range parts instead of clamping them.
- `worksheet_range_to_dataframe` decodes the two corners of a range into column and row bounds.
- `paste` lays a DataFrame onto a worksheet:
  - it writes the header row, then the data rows, each cell checked just before it is written unless overwriting is allowed;
  - the first occupied cell stops it and leaves the earlier writes in place;
  - finally it registers the written rectangle as a named table.

**The in-memory sheet collection** (`xlutil/core/__init__.py`). `NewExcelFile` keeps:
- an insertion-ordered dictionary from sheet name to frame;
- a parallel dictionary of per-sheet `index` flags;
- an iteration cursor that resets itself when an iteration ends.

Files:
- `Wrappers.dfy`: `Option` (Python `None`, a missing DataFrame value) and `Result` (a raised exception).
- `Sequences.dfy`: `IndexOf`, the `list.index` of `xlutil/core/utils.py`. `ExcelFile.Without` reuses it to find the key that `del` removes from the key order.
- `Columns.dfy`, `ColumnList.dfy`, `Rows.dfy`, `CellRefs.dfy`, `Ranges.dfy`, on values:
  - column letters (`ColumnId` and its inverse `ColumnNumber`);
  - the imperative `GenerateColumnIds` with its two loops, proved equal to `ColumnIds()`, and the lookups `cs.index(c)` into any list of column letters;
  - row ids and decimal numerals;
  - the cell-reference parser `ExtractCellRef`;
  - range decoding.
- `RowWrites.dfy`, `BlockWrites.dfy`, `PasteLayout.dfy`: a worksheet as a map from (column, row) to a value, where an absent key is an empty cell. `WriteRow`/`WriteRows` are value-level functions giving the exact sequence of writes `paste` performs, and the lemmas state:
  - where each value lands;
  - that nothing else changes;
  - when a paste is blocked, and what it leaves behind.
- `Workbook.dfy` and `Paster.dfy`: a `Worksheet` class whose `cells` and `tables` fields are updated in place, and the checks `paste` makes before its first write. The nested writing loops of `paste` are methods proved against `PasteLayout.PasteCells`, followed by the table registration.
- `ExcelFile.dfy`, module `ExcelFile`: the class `NewExcelFile`, generic in the frame type. Its key order is a field `order` next to the map `sheets`, because Python dictionaries keep insertion order.

## Model

| member | source | states |
|---|---|---|
| Columns.Letter | xlutil/core/utils.py:23 | `string.ascii_uppercase[k]` is the capital letter at distance `k` from `A` |
| Columns.ColumnId | xlutil/core/utils.py:19-23 | the letters of a column are empty only for column 0 and are all capitals |
| Columns.ColumnNumberOfId | xlutil/core/utils.py:18-24 | decoding the letters produced for column `n` gives back `n` |
| Columns.ColumnIdOfNumber | xlutil/core/utils.py:18-24 | every run of capitals is the encoding of its own column number, so the encoding is onto |
| Columns.ColumnIdInjective | xlutil/core/utils.py:18-24 | two column numbers with the same letters are equal |
| Columns.ColumnIdShort | xlutil/core/utils.py:18 | every column up to ZZZ has at most three letters |
| Columns.ColumnIdExamples | xlutil/core/utils.py:16-18 | 1→A, 26→Z, 27→AA, 702→ZZ, 16384→XFD |
| ColumnList.ColumnIds | xlutil/core/utils.py:15-25 | the list `generate_column_ids` returns, as a value: entry `k` is the letters of column `k + 1`; ColumnIdsWellFormed and GenerateColumnIds state its properties |
| ColumnList.GenerateColumnIds | xlutil/core/utils.py:15-25 | the outer loop yields exactly MAX_COLS ids; the inner `divmod(n - 1, 26)` loop leaves at index `i - 1` the bijective base-26 letters of `i` |
| ColumnList.ColumnIdsWellFormed | xlutil/core/utils.py:15-25 | the generated list has MAX_COLS entries, each 1 to 3 capitals, pairwise distinct |
| Sequences.IndexOf | xlutil/core/utils.py:57 | `list.index`: the first position holding the value, or none (ValueError) exactly when the value is absent |
| ColumnList.ColumnPosition | xlutil/core/utils.py:125 | `cs.index(c) + 1` is a column number in 1..MAX_COLS whose letters are `c` |
| ColumnList.PositionIn | xlutil/core/utils.py:65 | `ids.index(c) + 1` is a 1-based position in `ids` holding `c`; ValueError exactly when `c` is not in `ids` |
| ColumnList.PositionOfLetters | xlutil/core/utils.py:65 | looking capital letters up in a list of the letters of columns 1, 2, … recovers their column number, and fails exactly for letters beyond the list's last column (XFD for the generated list) |
| ColumnList.PositionBeyond | xlutil/core/utils.py:65 | letters naming a column past the list's last column (e.g. ZZZ past XFD) are not found, so `cs.index` raises |
| ColumnList.PositionOfId | xlutil/core/utils.py:125-126 | `cs.index(letters of n) + 1 == n` for every column the list holds: no earlier entry spells the same letters |
| Rows.GenerateRowIds | xlutil/core/utils.py:28-31 | exactly MAX_ROWS row numbers, strictly increasing, covering exactly 1..MAX_ROWS |
| Rows.DecimalValue | xlutil/core/utils.py:46-49 | `int(row_id)` for a run of ASCII digits, leading zeros allowed; ExtractCellRef applies it only within the MAX_STR_DIGITS limit; DecimalRoundTrip ties it to `str` |
| Rows.DecimalString | xlutil/core/utils.py:70 | `str(row)` is a non-empty run of digits without a leading zero |
| Rows.DecimalStringLength | xlutil/core/utils.py:70 | `str(x)` has at most `k` digits when `x < 10^k` |
| Rows.RowNumeralShort | xlutil/core/utils.py:46 | the numeral of a row up to MAX_ROWS has at most 7 digits, far within `int()`'s 4300-digit limit |
| Rows.DecimalRoundTrip | xlutil/core/utils.py:49 | `int(str(x)) == x` |
| CellRefs.LetterRun | xlutil/core/utils.py:36-39 | the greedy `[A-Za-z]+` group is the longest prefix of ASCII letters |
| CellRefs.DigitRun | xlutil/core/utils.py:36-39 | the greedy `\d+` group is the longest prefix of ASCII digits |
| CellRefs.ExtractCellRef | xlutil/core/utils.py:34-50 | a parsed reference has 1 to 3 capital letters and a row in 1..MAX_ROWS |
| CellRefs.NoMatchIff | xlutil/core/utils.py:39-41 | "Invalid cell ID format." is raised exactly when no prefix of the string is letters followed by a digit |
| CellRefs.ExtractCellRefOfParts | xlutil/core/utils.py:39-49 | letters, digits and a tail not starting with a digit: more than 4300 digits (leading zeros included) raise in `int()` before the range checks; otherwise they parse to the upper-cased letters and the digits' value (leading zeros allowed, tail ignored), or raise out-of-range for more than 3 letters or a row outside 1..MAX_ROWS; nothing is clamped |
| CellRefs.ExtractCellRefOfRuns | xlutil/core/utils.py:42-49 | once the letter group and the digit group are known, the result follows from the checks on line 46 in their order: the digit limit of `int()`, then the range of the row and the number of letters |
| CellRefs.LetterGroupOfParts | xlutil/core/utils.py:36-42 | in letters followed by digits, `match.group(1)` is exactly the letters |
| CellRefs.DigitGroupOfParts | xlutil/core/utils.py:36-43 | in letters, digits and a tail not starting with a digit, `match.group(2)` is exactly the digits |
| CellRefs.LetterRunOfParts | xlutil/core/utils.py:36 | the letter group stops where the first non-letter begins |
| CellRefs.DigitRunOfParts | xlutil/core/utils.py:36 | the digit group stops where the first non-digit begins |
| CellRefs.Upper | xlutil/core/utils.py:49 | `.upper()` keeps the length and turns a run of ASCII letters into a run of capitals |
| CellRefs.UpperOfUpper | xlutil/core/utils.py:49 | `.upper()` leaves capital letters unchanged |
| CellRefs.ExtractCellRefRoundTrip | xlutil/core/utils.py:34-50 | the letters of column `n` followed by the numeral of a row in range, and any tail not starting with a digit, parse back to (those letters, row) |
| CellRefs.ExtractCellRefPlain | xlutil/core/utils.py:34-50 | "A1" parses to ("A", 1) |
| CellRefs.ExtractCellRefLowerCase | xlutil/core/utils.py:34-50 | "a12" parses to ("A", 12) |
| CellRefs.ExtractCellRefLeadingZero | xlutil/core/utils.py:34-50 | "A01" parses to ("A", 1) |
| CellRefs.ExtractCellRefDigitLimit | xlutil/core/utils.py:46 | "A", then 4301 zeros, then "1" raises in `int()`, although its value is row 1 |
| CellRefs.ExtractCellRefFailureExamples | xlutil/core/utils.py:41-50 | "A0" and "AAAA1" are out of range; "1A" does not match |
| Ranges.RangeBounds | xlutil/core/utils.py:121-126 | a bad start cell fails first with its parse error, then a bad end cell; with both corners parsed, the result succeeds exactly when both column letters are at most XFD and otherwise fails as an unknown column (`column_letters_list.index` raises); on success both corners parse to the letters of the returned columns (1..MAX_COLS) and the returned rows |
| Ranges.RangeBoundsRoundTrip | xlutil/core/utils.py:121-126 | decoding a range whose corners were spelled from column and row numbers gives those numbers back |
| RowWrites.Put | xlutil/core/utils.py:89 | `ws[loc] = value` (a missing value leaves the cell empty) changes that cell to the value and no other |
| RowWrites.WriteRow | xlutil/core/utils.py:71-94 | one row of writes as a value: left to right, each cell checked just before it is written unless overwriting is allowed, the first occupied cell stopping the row; WriteRowDone, WriteRowBlocked and WriteRowOverwrite state its effect |
| RowWrites.WriteRows | xlutil/core/utils.py:80-94 | rows one below the other, stopping at the first blocked row; BlockWrites states its effect |
| RowWrites.WriteRowBlockedStep | xlutil/core/utils.py:90-94 | without overwriting, an occupied next cell stops the rest of the row before anything is written |
| RowWrites.WriteRowPutStep | xlutil/core/utils.py:88-92 | a next cell that may be written is written, and the row goes on one column to the right |
| RowWrites.WriteRowsBlockedStep | xlutil/core/utils.py:80-94 | a block whose first row is stopped stops there |
| RowWrites.WriteRowsDoneStep | xlutil/core/utils.py:80-94 | a block whose first row is written in full goes on with the next row, one row lower |
| RowWrites.WriteRowOverwrite | xlutil/core/utils.py:86-89 | with `overwrite_values` a row is never stopped |
| RowWrites.WriteRowDone | xlutil/core/utils.py:86-94 | a completed row holds its values in its segment, every other cell is unchanged, and without overwriting the segment was empty before |
| RowWrites.WriteRowBlocked | xlutil/core/utils.py:90-94 | a stopped row stopped at an occupied cell of its segment; the cells to its left were empty and now hold their values; everything else, the occupied cell included, is unchanged |
| BlockWrites.WriteRowsOverwrite | xlutil/core/utils.py:83-89 | with `overwrite_values` no row of a block is stopped |
| BlockWrites.WriteRowsDone | xlutil/core/utils.py:80-94 | a completed block holds its values in its rectangle, nothing outside changes, and without overwriting the rectangle was empty before |
| BlockWrites.WriteRowsDoneValues | xlutil/core/utils.py:80-92 | the placement half of WriteRowsDone |
| BlockWrites.WriteRowsDoneFree | xlutil/core/utils.py:90-94 | the emptiness half of WriteRowsDone |
| BlockWrites.WriteRowsBlocked | xlutil/core/utils.py:80-94 | a stopped block stopped at an occupied cell of its rectangle; the cells visited earlier in row-major order were empty and now hold their values; all other cells are unchanged |
| BlockWrites.BlockedInFirstRow | xlutil/core/utils.py:86-94 | WriteRowsBlocked when the first row is the one stopped |
| BlockWrites.BlockedInLaterRow | xlutil/core/utils.py:80-94 | WriteRowsBlocked when the first row completes and a later row is stopped |
| PasteLayout.HeaderRow | xlutil/core/utils.py:70 | `col_map`: the first `w` column names as text, one per column that fits |
| PasteLayout.DataRows | xlutil/core/utils.py:83-86 | each data row cut to its first `w` values by `zip(cols, col_ids)` |
| PasteLayout.Width | xlutil/core/utils.py:65-67 | `len(cs[cidx:cidx+len(cols)])`: all columns when they fit before XFD, otherwise exactly those up to XFD |
| PasteLayout.PasteBlock | xlutil/core/utils.py:69-94 | one header row plus one row per data row, each as wide as the columns that fit |
| PasteLayout.PasteCells | xlutil/core/utils.py:69-94 | every cell write of `paste` as a value: the header row at the reference's row, then the data rows, from the reference's column; PastePlacement, PasteNoClobberIff and PasteBlockedKeepsEarlierWrites state its effect |
| PasteLayout.PasteOverwriteNeverBlocked | xlutil/core/utils.py:72-73 | with `overwrite_values=True` a paste never fails on an occupied cell |
| PasteLayout.PastePlacement | xlutil/core/utils.py:65-92 | a completed paste puts header `j` at (col + j, r) and value `j` of data row `i` at (col + j, r + 1 + i), missing values as empty cells, columns past XFD dropped; every other cell keeps its value |
| PasteLayout.PasteNoClobberIff | xlutil/core/utils.py:71-94 | without overwriting, a paste completes if and only if every cell of its rectangle was empty |
| PasteLayout.PasteBlockedKeepsEarlierWrites | xlutil/core/utils.py:69-94 | a paste stopped at a cell inside its rectangle that held a value; every cell visited before it was empty and now holds its pasted value; all other cells are unchanged |
| Workbook.Worksheet.constructor | xlutil/core/utils.py:60 | a worksheet (`wb[sheet_name]`) starts with its title, no cells and no tables |
| Workbook.CellName | xlutil/core/utils.py:87 | the `f"{col_id}{row}"` name of a cell, e.g. `B7`; PlanPasteOfCell shows it parses back to its column and row |
| Workbook.RefName | xlutil/core/utils.py:70 | `f"{letters}{row}"`: the letters followed by `str(row)` |
| Workbook.Titles | xlutil/core/utils.py:56 | `[i.title for i in wb.worksheets]` |
| Workbook.TableNames | xlutil/core/utils.py:102 | the display names of all tables on all worksheets, which `add_table` checks a new name against |
| Workbook.PlanPaste | xlutil/core/utils.py:54-65 | the checks before the first write, in order: `index=True` raises NotImplementedError; an unknown sheet raises; a bad reference raises with its parse error; once the reference parses, the plan succeeds exactly when its letters are at most XFD and otherwise fails because `cs.index` raises; on success the sheet is the first of that title, the column is the letters' column number and the row is the parsed row |
| Workbook.PlanPasteOfCell | xlutil/core/utils.py:56-65 | a reference spelled from a column up to XFD and a row up to MAX_ROWS passes every check and targets that column and row |
| Paster.WriteRowCells | xlutil/core/utils.py:86-94 | the inner loop leaves the grid `WriteRow` describes, reports the occupied cell by name when it stops, and otherwise sets `paste_loc` to the last cell of the row |
| Paster.WriteDataRows | xlutil/core/utils.py:80-94 | the data-row loop puts row `i` at row `r + 1 + i`, leaving the grid `WriteRows` describes; it reports the occupied cell that stopped it, otherwise `paste_loc` is the bottom-right cell (none when there are no rows or columns) |
| Paster.WriteCells | xlutil/core/utils.py:69-94 | header loop then data loops leave exactly the grid `PasteCells` describes, with the occupied cell or the last cell written |
| Paster.LastCell | xlutil/core/utils.py:84-96 | the final `paste_loc` of a completed paste: the bottom-right cell of the pasted rectangle, at or before XFD |
| Paster.PastedInto | xlutil/core/utils.py:65-102 | the whole effect of a paste on its sheet: the cells become PasteCells of the old cells; then an occupied cell, an unbound `paste_loc` and a duplicate table name fail in that order with the tables unchanged; otherwise one table `at:last cell` in the fixed style is appended |
| Paster.PastedIntoOfSteps | xlutil/core/utils.py:95-102 | the outcome of the writes together with the table registration gives the effect `PastedInto` describes |
| Paster.RegisterTable | xlutil/core/utils.py:95-102 | an occupied cell raises first; no cell written raises (unbound `paste_loc`); a table name used in the workbook is refused; otherwise exactly one table `at:paste_loc` in the fixed style is appended |
| Paster.PasteOnSheet | xlutil/core/utils.py:65-102 | on the chosen sheet, the cells become `PasteCells` of the old cells; the table list grows by the table `at:last cell` exactly when the paste completes, wrote a cell and the name is free |
| Paster.Paste | xlutil/core/utils.py:53-104 | a failed check raises that error and changes no worksheet; otherwise only the first sheet with that title changes, as `PastedInto` describes |
| ExcelFile.Without | xlutil/core/__init__.py:67-71 | deleting a present key removes its first occurrence and nothing else: the keys before it followed by the keys after it, in their order; an absent key changes nothing; distinct keys stay distinct |
| ExcelFile.DistinctKeysCount | xlutil/core/__init__.py:116-117 | a dictionary has as many entries as its key order lists |
| ExcelFile.NewExcelFile.constructor | xlutil/core/__init__.py:9-13 | no sheets, no index flags, cursor at 0 |
| ExcelFile.NewExcelFile.AddSheet | xlutil/core/__init__.py:15-34 | an existing name without `replace` raises with no change, checked before a non-bool `index`, which also raises with no change; otherwise the frame and flag are stored under the name, every other entry is unchanged, and a replaced name keeps its position in the key order |
| ExcelFile.NewExcelFile.ViewSheet | xlutil/core/__init__.py:36-51 | the stored frame if and only if the name is present, KeyError otherwise; reads only |
| ExcelFile.NewExcelFile.GetItem | xlutil/core/__init__.py:53-54 | `file[name]` returns the frame of a present name and raises for an absent one |
| ExcelFile.NewExcelFile.SetItem | xlutil/core/__init__.py:61-65 | a DataFrame is stored as `add_sheet(name, value)` with replace and index true; anything else raises ValueError with no change |
| ExcelFile.NewExcelFile.DelItem | xlutil/core/__init__.py:67-71 | removes the name from the sheets and the key order, leaves `index_info` and the cursor alone; KeyError with no change for an absent name |
| ExcelFile.NewExcelFile.Len | xlutil/core/__init__.py:116-117 | the number of sheets equals the number of keys |
| ExcelFile.NewExcelFile.Frames | xlutil/core/__init__.py:104-111 | the frames in key order, one per sheet |
| ExcelFile.NewExcelFile.Remaining | xlutil/core/__init__.py:104-111 | what the cursor still has to yield: the frames from the cursor on, none past the end |
| ExcelFile.NewExcelFile.Iter | xlutil/core/__init__.py:101-102 | `iter(file)` is the object itself, with the cursor untouched |
| ExcelFile.NewExcelFile.Next | xlutil/core/__init__.py:104-111 | below the end: the frame of the key at the cursor, and the cursor moves one on; at or past the end: the iteration stops and the cursor goes back to 0 |
| ExcelFile.NewExcelFile.Collect | xlutil/core/__init__.py:101-111 | iterating to the end yields the frames from the cursor on, in key order, and leaves the cursor at 0, so the next full iteration yields every frame in key order |

## Left out

- `NewExcelFile.save` (`xlutil/core/__init__.py:73-95`): file output through `pd.ExcelWriter`.
- `__getattr__` and its `"keys"` case, `__dict__` and `__repr__` (`xlutil/core/__init__.py:56-59, 97-99, 113-114`): attribute reflection and string formatting.
- `worksheet_to_dataframe`, and the row iteration and DataFrame construction of `worksheet_range_to_dataframe` (`xlutil/core/utils.py:107-137`): these are calls into openpyxl and pandas. Only the address decoding on lines 121-126 is modelled (`Ranges.RangeBounds`).
- openpyxl's `Table` and `TableStyleInfo` objects are not modelled. A table is a record holding a name, a reference and the fixed style. `add_table`'s duplicate check is a membership test of the exact name among all tables of the workbook. openpyxl's own name validation and case-insensitive comparison are not modelled.
- `wb._sheets[sheet_idx] = ws` (`xlutil/core/utils.py:103`) stores the same worksheet object back in a workbook without chartsheets, as in the model, so it changes nothing here. `sheet_idx` counts worksheets only, so with chartsheets present it could overwrite a different sheet; chartsheets are not modelled.
- `rs = generate_row_ids()` inside `paste` (`xlutil/core/utils.py:63`) is computed and never used. `paste` does not bound the rows it writes by MAX_ROWS, and neither does the model.
- The `sheet_name not in sheets` test (`xlutil/core/utils.py:58-59`) can never be reached: `sheets.index` on line 57 already raises ValueError for an unknown name. Both cases are the single error `SheetNotFound`.
- An unbound `paste_loc` (`xlutil/core/utils.py:96`) happens when the frame has no data rows or no columns. It is the explicit error `NothingWritten`, raised after the header writes as in the source, not a Python runtime error.
- Missing DataFrame values are `None` rather than floating-point NaN. `pd.isna(ws[cell].value)` is "the cell is absent from the grid".
- Cell values are text or integers. Floats, dates and other pandas dtypes are not modelled. Column names are written as text.
- The DataFrame's duplicate column names and its row index labels are not modelled: `df.iterrows()` becomes the sequence of rows, and `row[col]` is the value at the column's position.
- Worksheet cells are addressed by (column number, row). The `"B7"`-style names that `paste` builds are computed only for the error message and the table reference (`Workbook.CellName`).
- `paste` is one function in the source. Here its steps are separate methods: `PlanPaste` for the checks, `WriteRowCells`/`WriteDataRows`/`WriteCells` for the loops, `RegisterTable` for the table, and `PasteOnSheet` joining them. They run in the source's order.
- `int()`'s digit limit is CPython's default of 4300 (`MAX_STR_DIGITS`). It applies on every Python the source runs on: `from typing import Self` (`xlutil/core/__init__.py:2`) needs Python 3.11 or later, and 3.11 has the limit. A limit changed through `sys.set_int_max_str_digits` or `PYTHONINTMAXSTRDIGITS` is not modelled.
- The regular expression's `\d` also matches non-ASCII Unicode digits. The model accepts ASCII digits and ASCII letters only.
- Frames in `NewExcelFile` are opaque values of a type parameter. `isinstance(value, pd.DataFrame)` and `isinstance(index, bool)` are tags on the argument (`SheetValue`, `IndexArg`).
- The source never moves the cursor of `NewExcelFile` when sheets are added or deleted, so it can lie beyond the end. `Next` then stops and resets it, as in the source.
