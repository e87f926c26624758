/**
 * Spreadsheet column letters of `xlutil/core/utils.py`: bijective base 26
 * (A = 1, ..., Z = 26, AA = 27, ..., XFD = 16384) and its inverse reading.
 */
module Columns {

  /** Number of columns of a worksheet: A..XFD. */
  const MAX_COLS: nat := 16384
  /** Number of rows of a worksheet. */
  const MAX_ROWS: nat := 1048576

  predicate IsUpper(c: char) { 'A' <= c <= 'Z' }
  predicate IsAsciiLetter(c: char) { 'A' <= c <= 'Z' || 'a' <= c <= 'z' }
  predicate IsDigit(c: char) { '0' <= c <= '9' }

  predicate AllUpper(s: string) { forall i :: 0 <= i < |s| ==> IsUpper(s[i]) }
  predicate AllLetters(s: string) { forall i :: 0 <= i < |s| ==> IsAsciiLetter(s[i]) }
  predicate AllDigits(s: string) { forall i :: 0 <= i < |s| ==> IsDigit(s[i]) }

  // ---------------------------------------------------------------------------
  // Column letters
  // ---------------------------------------------------------------------------

  /** `string.ascii_uppercase[k]` */
  function Letter(k: nat): (c: char)
    requires k < 26
    ensures IsUpper(c) && c as int - 'A' as int == k
  {
    ('A' as int + k) as char
  }

  /**
   * The letters of column `n`: each step takes `divmod(n - 1, 26)` and puts the
   * selected letter in front of what the later (higher) steps produce.
   * Column 0 has no letters.
   */
  function ColumnId(n: nat): (s: string)
    ensures |s| == 0 <==> n == 0
    ensures AllUpper(s)
    decreases n
  {
    if n == 0 then "" else ColumnId((n - 1) / 26) + [Letter((n - 1) % 26)]
  }

  /** The inverse reading: the column number that a run of capital letters names. */
  function ColumnNumber(s: string): nat
    requires AllUpper(s)
  {
    if s == [] then 0
    else ColumnNumber(s[..|s| - 1]) * 26 + (s[|s| - 1] as int - 'A' as int) + 1
  }

  /** Decoding the letters of column `n` gives back `n`. */
  lemma {:induction false} ColumnNumberOfId(n: nat)
    ensures ColumnNumber(ColumnId(n)) == n
    decreases n
  {
    if n > 0 {
      var q, d := (n - 1) / 26, (n - 1) % 26;
      ColumnNumberOfId(q);
      var s := ColumnId(n);
      assert s == ColumnId(q) + [Letter(d)];
      assert s[..|s| - 1] == ColumnId(q);
      assert s[|s| - 1] == Letter(d);
    }
  }

  /** Every run of capital letters is the encoding of exactly one column number. */
  lemma {:induction false} ColumnIdOfNumber(s: string)
    requires AllUpper(s)
    ensures ColumnId(ColumnNumber(s)) == s
    decreases |s|
  {
    if s != [] {
      var p, c := s[..|s| - 1], s[|s| - 1];
      assert AllUpper(p);
      ColumnIdOfNumber(p);
      var d := c as int - 'A' as int;
      var n := ColumnNumber(p) * 26 + d + 1;
      assert ColumnNumber(s) == n;
      assert (n - 1) / 26 == ColumnNumber(p) && (n - 1) % 26 == d;
      assert Letter(d) == c;
      assert s == p + [c];
    }
  }

  /** Distinct column numbers have distinct letters. */
  lemma ColumnIdInjective(m: nat, n: nat)
    requires ColumnId(m) == ColumnId(n)
    ensures m == n
  {
    // the proof: both letter runs decode to their own number, so the numbers agree
    ColumnNumberOfId(m);
    ColumnNumberOfId(n);
  }

  /** Every column up to ZZZ (18278 = 26 + 26^2 + 26^3) has at most three letters. */
  lemma ColumnIdShort(n: nat)
    requires n <= 18278
    ensures |ColumnId(n)| <= 3
  {
    if n > 0 {
      var q1 := (n - 1) / 26;
      assert q1 <= 702;
      if q1 > 0 {
        var q2 := (q1 - 1) / 26;
        assert q2 <= 26;
        if q2 > 0 {
          var q3 := (q2 - 1) / 26;
          assert q3 == 0;
          assert |ColumnId(q2)| == 1;
        }
        assert |ColumnId(q1)| <= 2;
      }
    }
  }

  /** The worked examples of the column numbering. */
  lemma ColumnIdExamples()
    ensures ColumnId(1) == "A" && ColumnId(26) == "Z" && ColumnId(27) == "AA"
    ensures ColumnId(702) == "ZZ" && ColumnId(16384) == "XFD"
  {
  }
}
