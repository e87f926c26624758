/**
 * Row numbers of `xlutil/core/utils.py`: the generated list 1..MAX_ROWS, and
 * the decimal numerals that name rows in a cell reference.
 */
module Rows {
  import opened Columns

  // ---------------------------------------------------------------------------
  // Row numbers
  // ---------------------------------------------------------------------------

  /** `generate_row_ids`: the row numbers 1..MAX_ROWS in increasing order. */
  function GenerateRowIds(): (rs: seq<nat>)
    ensures |rs| == MAX_ROWS
    ensures forall x: nat :: x in rs <==> 1 <= x <= MAX_ROWS
    ensures forall i, j :: 0 <= i < j < |rs| ==> rs[i] < rs[j]
  {
    var rs := seq(MAX_ROWS, i requires 0 <= i < MAX_ROWS => i + 1);
    RowIdsCover(rs);
    rs
  }

  lemma RowIdsCover(rs: seq<nat>)
    requires |rs| == MAX_ROWS && forall i :: 0 <= i < |rs| ==> rs[i] == i + 1
    ensures forall x: nat :: 1 <= x <= MAX_ROWS ==> x in rs
  {
    forall x: nat | 1 <= x <= MAX_ROWS
      ensures x in rs
    {
      assert rs[x - 1] == x;
    }
  }

  // ---------------------------------------------------------------------------
  // Decimal numerals
  // ---------------------------------------------------------------------------

  function DigitValue(c: char): nat
    requires IsDigit(c)
  {
    c as int - '0' as int
  }

  /**
   * CPython's default limit on the digits `int()` converts from a string (Python
   * 3.11 on); a longer numeral raises ValueError. Leading zeros count as digits.
   */
  const MAX_STR_DIGITS := 4300

  /** `int(d)` for a run of ASCII digits within MAX_STR_DIGITS; leading zeros are allowed. */
  function DecimalValue(d: string): nat
    requires AllDigits(d)
  {
    if d == [] then 0 else DecimalValue(d[..|d| - 1]) * 10 + DigitValue(d[|d| - 1])
  }

  /** `str(x)` for a natural number: the shortest decimal numeral of `x`. */
  function DecimalString(x: nat): (d: string)
    ensures 1 <= |d| && AllDigits(d)
    ensures |d| > 1 ==> d[0] != '0'
  {
    if x < 10 then [('0' as int + x) as char]
    else DecimalString(x / 10) + [('0' as int + x % 10) as char]
  }

  function Pow10(k: nat): nat
  {
    if k == 0 then 1 else 10 * Pow10(k - 1)
  }

  /** `str(x)` has at most `k` digits when `x < 10^k`. */
  lemma {:induction false} DecimalStringLength(x: nat, k: nat)
    requires 1 <= k && x < Pow10(k)
    ensures |DecimalString(x)| <= k
    decreases k
  {
    if x >= 10 {
      assert x / 10 < Pow10(k - 1);
      DecimalStringLength(x / 10, k - 1);
    }
  }

  /** A row number's numeral is far within the digit limit: at most 7 digits. */
  lemma RowNumeralShort(row: nat)
    requires row <= MAX_ROWS
    ensures |DecimalString(row)| <= 7 < MAX_STR_DIGITS
  {
    assert Pow10(7) == 10000000;
    DecimalStringLength(row, 7);
  }

  /** `int(str(x)) == x` */
  lemma {:induction false} DecimalRoundTrip(x: nat)
    ensures DecimalValue(DecimalString(x)) == x
  {
    var d := DecimalString(x);
    if x >= 10 {
      DecimalRoundTrip(x / 10);
      assert d[..|d| - 1] == DecimalString(x / 10);
    }
  }
}
