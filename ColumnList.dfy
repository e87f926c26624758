/**
 * The generated list of column letters of `xlutil/core/utils.py` and the
 * lookups `cs.index(c)` into it.
 */
module ColumnList {
  import opened Wrappers
  import opened Columns
  import opened Sequences

  /** The list that `generate_column_ids` returns, as a value. */
  function ColumnIds(): seq<string>
  {
    seq(MAX_COLS, k requires 0 <= k < MAX_COLS => ColumnId(k + 1))
  }

  /**
   * `generate_column_ids`: the outer loop appends one id per column number, the
   * inner loop peels one letter per `divmod(n - 1, 26)` step and prepends it.
   */
  method GenerateColumnIds() returns (ids: seq<string>)
    ensures |ids| == MAX_COLS
    ensures forall k :: 0 <= k < MAX_COLS ==> ids[k] == ColumnId(k + 1)
    ensures ids == ColumnIds()
  {
    ids := [];
    for i: nat := 1 to MAX_COLS + 1
      invariant |ids| == i - 1
      invariant forall k :: 0 <= k < i - 1 ==> ids[k] == ColumnId(k + 1)
    {
      var columnId := "";
      var n: nat := i;
      while n > 0
        invariant ColumnId(n) + columnId == ColumnId(i)
        decreases n
      {
        var remainder := (n - 1) % 26;
        assert ColumnId(n) == ColumnId((n - 1) / 26) + [Letter(remainder)];
        n := (n - 1) / 26;
        columnId := [Letter(remainder)] + columnId;
      }
      assert columnId == ColumnId(i);
      ids := ids + [columnId];
    }
  }

  /** Every generated id is one to three capital letters, and no two are equal. */
  lemma ColumnIdsWellFormed()
    ensures |ColumnIds()| == MAX_COLS && ListsColumns(ColumnIds())
    ensures forall k :: 0 <= k < MAX_COLS ==>
      1 <= |ColumnIds()[k]| <= 3 && AllUpper(ColumnIds()[k])
    ensures forall j, k :: 0 <= j < k < MAX_COLS ==> ColumnIds()[j] != ColumnIds()[k]
  {
    var cs := ColumnIds();
    forall k | 0 <= k < MAX_COLS
      ensures 1 <= |cs[k]| <= 3 && AllUpper(cs[k])
    {
      ColumnIdShort(k + 1);
    }
    forall j, k | 0 <= j < k < MAX_COLS
      ensures cs[j] != cs[k]
    {
      if cs[j] == cs[k] {
        ColumnIdInjective(j + 1, k + 1);
      }
    }
  }

  /** `ids` lists the letters of columns 1, 2, ..., |ids| in order, as `generate_column_ids` does. */
  predicate ListsColumns(ids: seq<string>)
  {
    forall k :: 0 <= k < |ids| ==> ids[k] == ColumnId(k + 1)
  }

  /** `ids.index(c) + 1`: the 1-based position of `c` in `ids`, `None` where `index` raises ValueError. */
  function PositionIn(ids: seq<string>, c: string): (r: Option<nat>)
    ensures r.Some? ==> 1 <= r.value <= |ids| && ids[r.value - 1] == c
    ensures r.None? <==> c !in ids
  {
    match IndexOf(ids, c)
    case None => None
    case Some(k) => Some(k + 1)
  }

  /** `cs.index(c) + 1` for the generated column list `cs`. */
  function ColumnPosition(c: string): (r: Option<nat>)
    ensures r.Some? ==> 1 <= r.value <= MAX_COLS && ColumnId(r.value) == c
  {
    PositionIn(ColumnIds(), c)
  }

  /**
   * Looking capital letters up in a list of column letters recovers their
   * column number, and fails exactly for the letter runs beyond the list.
   */
  lemma PositionOfLetters(ids: seq<string>, c: string)
    requires ListsColumns(ids) && 1 <= |c| && AllUpper(c)
    ensures PositionIn(ids, c) == if ColumnNumber(c) <= |ids| then Some(ColumnNumber(c)) else None
  {
    var m := ColumnNumber(c);
    if m <= |ids| {
      ColumnIdOfNumber(c);
      PositionOfId(ids, m);
    } else {
      PositionBeyond(ids, c);
    }
  }

  /** Letters naming a column past the end of the list are not in it. */
  lemma PositionBeyond(ids: seq<string>, c: string)
    requires ListsColumns(ids) && 1 <= |c| && AllUpper(c) && ColumnNumber(c) > |ids|
    ensures PositionIn(ids, c).None?
  {
    var p := PositionIn(ids, c);
    // a position found would hold the letters of its own column number
    ColumnNumberOfId(if p.Some? then p.value else 0);
  }

  /**
   * The position of the letters of column `n` is `n`: they sit at index `n - 1`,
   * and no earlier entry spells them, since the letters determine the number.
   */
  lemma PositionOfId(ids: seq<string>, n: nat)
    requires ListsColumns(ids) && 1 <= n <= |ids|
    ensures PositionIn(ids, ColumnId(n)) == Some(n)
  {
    var p := PositionIn(ids, ColumnId(n));
    assert ids[n - 1] == ColumnId(n);
    ColumnIdInjective(p.value, n);
  }
}
