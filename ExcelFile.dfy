/**
 * `NewExcelFile` of `xlutil/core/__init__.py`: an in-memory collection of
 * named sheets kept in insertion order, a per-sheet `index` flag and an
 * iteration cursor. Frames are opaque values of type `F`.
 */
module ExcelFile {
  import opened Wrappers
  import opened Sequences

  predicate Distinct<T(==)>(s: seq<T>)
  {
    forall i, j :: 0 <= i < j < |s| ==> s[i] != s[j]
  }

  /** `s` with `x` taken out where it first occurs; the others keep their order. */
  function Without<T(==,!new)>(s: seq<T>, x: T): (r: seq<T>)
    ensures x !in s ==> r == s
    ensures x in s ==> |r| == |s| - 1
    ensures Distinct(s) ==> Distinct(r) && forall y :: y in r <==> y in s && y != x
    ensures x in s ==> exists i :: 0 <= i < |s| && s[i] == x && x !in s[..i] && r == s[..i] + s[i + 1..]
  {
    match IndexOf(s, x)
    case None => s
    case Some(i) =>
      assert forall y :: y in s[..i] + s[i + 1..] ==> y in s;
      assert x !in s[..i];
      s[..i] + s[i + 1..]
  }

  /** A set whose elements are listed once each by `keys` has `|keys|` elements. */
  lemma {:induction false} DistinctKeysCount<K>(keys: seq<K>, ks: set<K>)
    requires Distinct(keys) && forall k :: k in keys <==> k in ks
    ensures |ks| == |keys|
    decreases |keys|
  {
    if keys != [] {
      var rest := keys[1..];
      assert forall k :: k in rest <==> k in ks - {keys[0]} by {
        forall k ensures k in rest <==> k in ks - {keys[0]} {
          if k in rest {
            var j :| 0 <= j < |rest| && rest[j] == k;
            assert keys[j + 1] == k;
          }
          if k in ks - {keys[0]} {
            var j :| 0 <= j < |keys| && keys[j] == k;
            assert j != 0;
            assert rest[j - 1] == k;
          }
        }
      }
      DistinctKeysCount(rest, ks - {keys[0]});
    }
  }

  /** A slice grown by one position ends with the element at that position. */
  lemma SliceExtend<T>(s: seq<T>, a: nat, b: nat)
    requires a <= b < |s|
    ensures s[a..b + 1] == s[a..b] + [s[b]]
  {
  }

  /** `add_sheet`'s `index` argument: a `bool`, or anything else. */
  datatype IndexArg = Flag(value: bool) | NotBool

  /** The value given to `file[name] = value`: a DataFrame, or anything else. */
  datatype SheetValue<F> = DataFrame(frame: F) | NotDataFrame

  /** The exceptions the collection raises. */
  datatype FileError =
    | SheetExists      // Exception: the sheet name already exists and `replace` is false
    | IndexNotBool     // ValueError: `index` is not a bool
    | NoSuchSheet      // KeyError from `view_sheet` and `__delitem__`
    | NotADataFrame    // ValueError from `__setitem__`

  class NewExcelFile<F> {
    /** `self.sheets`, as its contents ... */
    var sheets: map<string, F>
    /** ... and its key order (a re-assigned key keeps its place). */
    var order: seq<string>
    /** `self.index_info` */
    var indexInfo: map<string, bool>
    /** `self.index`, the iteration cursor. */
    var index: nat

    /** The key order lists each sheet name exactly once. */
    ghost predicate Valid()
      reads this`sheets, this`order
    {
      Distinct(order) && forall k :: k in order <==> k in sheets
    }

    constructor ()
      ensures Valid()
      ensures sheets == map[] && order == [] && indexInfo == map[] && index == 0
    {
      sheets := map[];
      order := [];
      indexInfo := map[];
      index := 0;
    }

    /**
     * `add_sheet(sheet_name, dataframe, replace, index)`: refuses an existing
     * name when `replace` is false, then a non-bool `index`; otherwise stores
     * the frame and the flag under the name.
     */
    method AddSheet(name: string, df: F, replace: bool, indexArg: IndexArg) returns (res: Result<(), FileError>)
      requires Valid()
      modifies this`sheets, this`order, this`indexInfo
      ensures Valid()
      ensures !replace && name in old(sheets) ==>
        res == Failure(SheetExists) && unchanged(this)
      ensures (replace || name !in old(sheets)) && indexArg.NotBool? ==>
        res == Failure(IndexNotBool) && unchanged(this)
      ensures (replace || name !in old(sheets)) && indexArg.Flag? ==>
        res == Success(()) &&
        sheets == old(sheets)[name := df] &&
        indexInfo == old(indexInfo)[name := indexArg.value] &&
        order == (if name in old(sheets) then old(order) else old(order) + [name]) &&
        index == old(index)
    {
      if !replace {
        if name in sheets {
          return Failure(SheetExists);
        }
      }
      if indexArg.NotBool? {
        return Failure(IndexNotBool);
      }
      indexInfo := indexInfo[name := indexArg.value];
      if name !in sheets {
        order := order + [name];
      }
      sheets := sheets[name := df];
      return Success(());
    }

    /** `view_sheet(sheet_name)`: the stored frame, or KeyError for an unknown name. */
    function ViewSheet(name: string): (r: Result<F, FileError>)
      reads this
      ensures r.Success? <==> name in sheets
      ensures r.Success? ==> r.value == sheets[name]
      ensures r.Failure? ==> r.error == NoSuchSheet
    {
      if name in sheets then Success(sheets[name]) else Failure(NoSuchSheet)
    }

    /** `file[name]` */
    function GetItem(name: string): (r: Result<F, FileError>)
      reads this
      ensures r.Success? <==> name in sheets
      ensures r.Success? ==> r.value == sheets[name]
    {
      ViewSheet(name)
    }

    /**
     * `file[name] = value`: a DataFrame is added with the defaults of
     * `add_sheet` (replace and index both true); anything else is refused.
     */
    method SetItem(name: string, value: SheetValue<F>) returns (res: Result<(), FileError>)
      requires Valid()
      modifies this`sheets, this`order, this`indexInfo
      ensures Valid()
      ensures value.NotDataFrame? ==> res == Failure(NotADataFrame) && unchanged(this)
      ensures value.DataFrame? ==>
        res == Success(()) &&
        sheets == old(sheets)[name := value.frame] &&
        indexInfo == old(indexInfo)[name := true] &&
        order == (if name in old(sheets) then old(order) else old(order) + [name]) &&
        index == old(index)
    {
      if value.DataFrame? {
        res := AddSheet(name, value.frame, true, Flag(true));
      } else {
        res := Failure(NotADataFrame);
      }
    }

    /**
     * `del file[key]`: removes the sheet, keeping the order of the others; the
     * `index_info` entry stays. KeyError for an unknown name.
     */
    method DelItem(key: string) returns (res: Result<(), FileError>)
      requires Valid()
      modifies this`sheets, this`order
      ensures Valid()
      ensures key in old(sheets) ==>
        res == Success(()) && sheets == old(sheets) - {key} && order == Without(old(order), key)
      ensures key !in old(sheets) ==>
        res == Failure(NoSuchSheet) && sheets == old(sheets) && order == old(order)
    {
      if key in sheets {
        sheets := sheets - {key};
        order := Without(order, key);
        return Success(());
      } else {
        return Failure(NoSuchSheet);
      }
    }

    /** `len(file)`: the number of sheets, which is the number of keys in order. */
    function Len(): (n: nat)
      reads this`sheets, this`order
      requires Valid()
      ensures n == |order|
    {
      DistinctKeysCount(order, sheets.Keys);
      |sheets|
    }

    /** All frames in key order: what one full iteration yields. */
    function Frames(): (fs: seq<F>)
      reads this`sheets, this`order
      requires Valid()
      ensures |fs| == Len()
      ensures forall i :: 0 <= i < |fs| ==> fs[i] == sheets[order[i]]
    {
      var keys, m := order, sheets;
      assert forall i :: 0 <= i < |keys| ==> keys[i] in m;
      seq(|keys|, i requires 0 <= i < |keys| && keys[i] in m => m[keys[i]])
    }

    /** The frames the cursor has still to yield: the tail of Frames() from `index`. */
    function Remaining(): (fs: seq<F>)
      reads this
      requires Valid()
      ensures index <= Len() ==> fs == Frames()[index..]
      ensures index >= Len() ==> fs == []
    {
      if index < |order| then Frames()[index..] else []
    }

    /** `iter(file)` returns the object itself; the cursor is not reset. */
    method Iter() returns (it: NewExcelFile<F>)
      ensures it == this
    {
      return this;
    }

    /**
     * `next(file)`: the frame of the key at the cursor, advancing it; past the
     * last key the cursor goes back to 0 and the iteration stops, so the next
     * iteration starts again from the first sheet.
     */
    method Next() returns (r: Option<F>)
      requires Valid()
      modifies this`index
      ensures Valid()
      ensures old(index) < Len() ==> r == Some(sheets[order[old(index)]]) && index == old(index) + 1
      ensures old(index) >= Len() ==> r == None && index == 0
    {
      if index < Len() {
        var keys := order;
        var sheet := sheets[keys[index]];
        index := index + 1;
        return Some(sheet);
      } else {
        index := 0;
        return None;
      }
    }

    /**
     * `list(file)`: calls `next` until it stops. Yields the frames from the
     * cursor on and leaves the cursor at 0, so the next full iteration yields
     * all frames in key order.
     */
    method Collect() returns (fs: seq<F>)
      requires Valid()
      modifies this`index
      ensures Valid()
      ensures fs == old(Remaining())
      ensures index == 0 && Remaining() == Frames()
    {
      ghost var k0, all := index, Frames();
      fs := [];
      while true
        invariant Valid() && Frames() == all
        invariant k0 <= index && (k0 < |all| ==> index <= |all|)
        invariant fs == if k0 < |all| then all[k0..index] else []
        invariant k0 >= |all| ==> index == k0
        decreases |all| - index
      {
        ghost var i := index;
        var r := Next();
        if r.None? {
          assert k0 < |all| ==> all[k0..i] == all[k0..];
          return;
        }
        SliceExtend(all, k0, i);
        fs := fs + [r.value];
      }
    }
  }
}
