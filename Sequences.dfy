/**
 * Python's `list.index`, which `xlutil/core/utils.py` uses to find a sheet and
 * column letters. The sheet collection of `xlutil/core/__init__.py` reuses it to
 * find the key that `del` removes from its key order.
 */
module Sequences {
  import opened Wrappers

  /** Python's `list.index`: the first position holding `x`, or `None` (ValueError). */
  function IndexOf<T(==)>(s: seq<T>, x: T): (r: Option<nat>)
    ensures r.Some? ==> r.value < |s| && s[r.value] == x
    ensures r.Some? ==> forall j :: 0 <= j < r.value ==> s[j] != x
    ensures r.None? <==> x !in s
  {
    if s == [] then None
    else if s[0] == x then Some(0)
    else match IndexOf(s[1..], x)
      case None => None
      case Some(k) => Some(k + 1)
  }
}
