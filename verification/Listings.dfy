/** Rows listed one by one, as a query returns them and a loop walks them. */
module Listings {

  /** The list has each member of a set exactly once. */
  ghost predicate Enumerates<T(!new)>(ids: seq<T>, members: set<T>)
  {
    && (forall id :: id in ids <==> id in members)
    && (forall i, j | 0 <= i < j < |ids| :: ids[i] != ids[j])
  }

  /** Whether `id` is one of the first `n`. */
  predicate Among<T(==)>(ids: seq<T>, n: nat, id: T)
    requires n <= |ids|
  {
    n != 0 && (ids[n - 1] == id || Among(ids, n - 1, id))
  }

  lemma {:induction false} AmongIs<T>(ids: seq<T>, n: nat, id: T)
    requires n <= |ids|
    ensures Among(ids, n, id) <==> exists i :: 0 <= i < n && ids[i] == id
  {
    if n != 0 {
      AmongIs(ids, n - 1, id);
    }
  }
}
