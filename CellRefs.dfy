/**
 * The cell-reference parser `extract_cell_n_row_ids` of `xlutil/core/utils.py`.
 */
module CellRefs {
  import opened Wrappers
  import opened Columns
  import opened Rows

  // ---------------------------------------------------------------------------
  // Cell references
  // ---------------------------------------------------------------------------

  /** A parsed reference: column letters in upper case and a row number. */
  datatype CellRef = CellRef(column: string, row: nat)

  /**
   * The ValueErrors of `extract_cell_n_row_ids`: the pattern does not match
   * ("Invalid cell ID format."), `int(row_id)` refuses a digit group longer than
   * MAX_STR_DIGITS, or the match is out of range ("... or out of range.").
   */
  datatype ParseError = NoMatch | DigitLimit | OutOfRange

  /** Length of the longest prefix of ASCII letters (the greedy `[A-Za-z]+`). */
  function LetterRun(s: string): (n: nat)
    ensures n <= |s| && AllLetters(s[..n])
    ensures n < |s| ==> !IsAsciiLetter(s[n])
  {
    if s == [] || !IsAsciiLetter(s[0]) then 0
    else
      var k := LetterRun(s[1..]);
      assert s[..k + 1] == [s[0]] + s[1..][..k];
      k + 1
  }

  /** Length of the longest prefix of ASCII digits (the greedy `\d+`). */
  function DigitRun(s: string): (n: nat)
    ensures n <= |s| && AllDigits(s[..n])
    ensures n < |s| ==> !IsDigit(s[n])
  {
    if s == [] || !IsDigit(s[0]) then 0
    else
      var k := DigitRun(s[1..]);
      assert s[..k + 1] == [s[0]] + s[1..][..k];
      k + 1
  }

  function UpperChar(c: char): char
  {
    if 'a' <= c <= 'z' then (c as int - 'a' as int + 'A' as int) as char else c
  }

  /** `str.upper` restricted to ASCII: a run of letters becomes a run of capitals of the same length. */
  function Upper(s: string): (u: string)
    ensures |u| == |s|
    ensures AllLetters(s) ==> AllUpper(u)
  {
    seq(|s|, i requires 0 <= i < |s| => UpperChar(s[i]))
  }

  /**
   * `extract_cell_n_row_ids`: `re.match(r'([A-Za-z]+)(\d+)', s)` is anchored at
   * the start only, so text after the digit run is ignored. The checks then run
   * in the order of the source's `and`: `int(row_id)` first, which raises for more
   * than MAX_STR_DIGITS digits, then the row within 1..MAX_ROWS and the letters at
   * most three, otherwise ValueError.
   */
  function ExtractCellRef(s: string): (r: Result<CellRef, ParseError>)
    ensures r.Success? ==> 1 <= |r.value.column| <= 3 && AllUpper(r.value.column)
    ensures r.Success? ==> 1 <= r.value.row <= MAX_ROWS
  {
    var nl := LetterRun(s);
    var nd := DigitRun(s[nl..]);
    if nl == 0 || nd == 0 then Failure(NoMatch)
    else
      var letters, digits := s[..nl], s[nl..][..nd];
      if |digits| > MAX_STR_DIGITS then Failure(DigitLimit)
      else
        var row := DecimalValue(digits);
        if 1 <= row <= MAX_ROWS && |letters| <= 3 then Success(CellRef(Upper(letters), row))
        else Failure(OutOfRange)
  }

  /** The regular expression matches at the start of `s` with its letter group ending at `i`. */
  predicate PatternMatchesAt(s: string, i: int)
  {
    0 < i < |s| && AllLetters(s[..i]) && IsDigit(s[i])
  }

  /** "Invalid cell ID format." is raised exactly when the pattern does not match. */
  lemma NoMatchIff(s: string)
    ensures ExtractCellRef(s) == Failure(NoMatch) <==> !exists i :: PatternMatchesAt(s, i)
  {
    var nl := LetterRun(s);
    if exists i :: PatternMatchesAt(s, i) {
      var i: int :| PatternMatchesAt(s, i);
      assert s == s[..i] + s[i..];
      LetterRunOfParts(s[..i], s[i..]);
      assert s[nl..][0] == s[i];
      assert DigitRun(s[nl..]) >= 1;
    } else if nl > 0 && DigitRun(s[nl..]) > 0 {
      assert s[nl..][..DigitRun(s[nl..])][0] == s[nl];
      assert PatternMatchesAt(s, nl);
    }
  }

  /**
   * A reference made of a letter run, a digit run and any tail not starting with
   * a digit parses to the upper-cased letters and the value of the digits, or
   * fails on the digit limit or as out of range; nothing is clamped.
   */
  lemma ExtractCellRefOfParts(letters: string, digits: string, tail: string)
    requires 1 <= |letters| && AllLetters(letters)
    requires 1 <= |digits| && AllDigits(digits)
    requires tail == [] || !IsDigit(tail[0])
    ensures ExtractCellRef(letters + digits + tail) ==
      if |digits| > MAX_STR_DIGITS then Failure(DigitLimit)
      else if |letters| <= 3 && 1 <= DecimalValue(digits) <= MAX_ROWS
      then Success(CellRef(Upper(letters), DecimalValue(digits)))
      else Failure(OutOfRange)
  {
    LetterGroupOfParts(letters, digits, tail);
    DigitGroupOfParts(letters, digits, tail);
    ExtractCellRefOfRuns(letters + digits + tail, letters, digits);
  }

  /** The letter group of such a reference is `letters`. */
  lemma LetterGroupOfParts(letters: string, digits: string, tail: string)
    requires AllLetters(letters) && 1 <= |digits| && AllDigits(digits)
    ensures var s := letters + digits + tail;
      |letters| <= |s| && s[..|letters|] == letters && LetterRun(s) == |letters|
  {
    var s := letters + digits + tail;
    assert s == letters + (digits + tail);
    LetterRunOfParts(letters, digits + tail);
  }

  /** The digit group of such a reference is `digits`. */
  lemma DigitGroupOfParts(letters: string, digits: string, tail: string)
    requires AllDigits(digits) && (tail == [] || !IsDigit(tail[0]))
    ensures var s := letters + digits + tail;
      |letters| <= |s| && DigitRun(s[|letters|..]) == |digits| && s[|letters|..][..|digits|] == digits
  {
    var s := letters + digits + tail;
    assert s[|letters|..] == digits + tail;
    DigitRunOfParts(digits, tail);
  }

  /** ExtractCellRef once its two groups, `letters` and `digits`, are known. */
  lemma ExtractCellRefOfRuns(s: string, letters: string, digits: string)
    requires 0 < |letters| <= |s| && s[..|letters|] == letters && LetterRun(s) == |letters|
    requires 0 < |digits| && DigitRun(s[|letters|..]) == |digits| && s[|letters|..][..|digits|] == digits
    ensures ExtractCellRef(s) ==
      if |digits| > MAX_STR_DIGITS then Failure(DigitLimit)
      else if |letters| <= 3 && 1 <= DecimalValue(digits) <= MAX_ROWS
      then Success(CellRef(Upper(letters), DecimalValue(digits)))
      else Failure(OutOfRange)
  {
  }

  /** The letter group ends where the first non-letter begins. */
  lemma {:induction false} LetterRunOfParts(a: string, b: string)
    requires AllLetters(a)
    requires b == [] || !IsAsciiLetter(b[0])
    ensures LetterRun(a + b) == |a|
    decreases |a|
  {
    if a != [] {
      assert (a + b)[1..] == a[1..] + b;
      LetterRunOfParts(a[1..], b);
    }
  }

  /** The digit group ends where the first non-digit begins. */
  lemma {:induction false} DigitRunOfParts(a: string, b: string)
    requires AllDigits(a)
    requires b == [] || !IsDigit(b[0])
    ensures DigitRun(a + b) == |a|
    decreases |a|
  {
    if a != [] {
      assert (a + b)[1..] == a[1..] + b;
      DigitRunOfParts(a[1..], b);
    }
  }

  /** Upper-casing capital letters changes nothing. */
  lemma UpperOfUpper(s: string)
    requires AllUpper(s)
    ensures Upper(s) == s
  {
  }

  /**
   * Round trip: the letters of column `n` followed by the decimal numeral of
   * `row` (and any tail not starting with a digit) parse back to `(letters, row)`.
   */
  lemma ExtractCellRefRoundTrip(n: nat, row: nat, tail: string)
    requires 1 <= n <= MAX_COLS && 1 <= row <= MAX_ROWS
    requires tail == [] || !IsDigit(tail[0])
    ensures ExtractCellRef(ColumnId(n) + DecimalString(row) + tail) == Success(CellRef(ColumnId(n), row))
  {
    var c := ColumnId(n);
    ColumnIdShort(n);
    assert AllLetters(c);
    DecimalRoundTrip(row);
    RowNumeralShort(row);
    ExtractCellRefOfParts(c, DecimalString(row), tail);
    UpperOfUpper(c);
  }

  /** Worked example: a plain reference. */
  lemma ExtractCellRefPlain()
    ensures ExtractCellRef("A1") == Success(CellRef("A", 1))
  {
    ExtractCellRefOfParts("A", "1", "");
    assert "A" + "1" + "" == "A1";
    assert DecimalValue("1") == 1;
    assert Upper("A") == "A";
  }

  /** Worked example: lower-case letters are normalised. */
  lemma ExtractCellRefLowerCase()
    ensures ExtractCellRef("a12") == Success(CellRef("A", 12))
  {
    ExtractCellRefOfParts("a", "12", "");
    assert DecimalValue("12") == DecimalValue("1") * 10 + 2;
    assert "a" + "12" + "" == "a12";
    assert Upper("a") == "A";
  }

  /** Worked example: leading zeros in the row are accepted. */
  lemma ExtractCellRefLeadingZero()
    ensures ExtractCellRef("A01") == Success(CellRef("A", 1))
  {
    ExtractCellRefOfParts("A", "01", "");
    assert "A" + "01" + "" == "A01";
    assert DecimalValue("01") == DecimalValue("0") * 10 + 1;
    assert Upper("A") == "A";
  }

  /** Worked examples of the two failures: row 0, four letters, no leading letters. */
  lemma ExtractCellRefFailureExamples()
    ensures ExtractCellRef("A0") == Failure(OutOfRange)
    ensures ExtractCellRef("AAAA1") == Failure(OutOfRange)
    ensures ExtractCellRef("1A") == Failure(NoMatch)
  {
    ExtractCellRefOfParts("A", "0", "");
    assert "A" + "0" + "" == "A0";
    ExtractCellRefOfParts("AAAA", "1", "");
    assert "AAAA" + "1" + "" == "AAAA1";
  }

  /**
   * Worked example of the digit limit: "A", then 4301 zeros, then "1". The row
   * would be 1, but `int()` refuses the 4302-digit group before any range check.
   */
  lemma ExtractCellRefDigitLimit()
    ensures ExtractCellRef("A" + seq(4301, _ => '0') + "1") == Failure(DigitLimit)
  {
    var digits := seq(4301, _ => '0') + "1";
    ExtractCellRefOfParts("A", digits, "");
    assert "A" + digits + "" == "A" + seq(4301, _ => '0') + "1";
  }
}
