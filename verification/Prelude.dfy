/** Types shared by the models. */
module Prelude {
  datatype Option<+T> = None | Some(value: T)

  /** The elements of `s` are pairwise distinct. */
  ghost predicate Distinct<T>(s: seq<T>) {
    forall i, j :: 0 <= i < j < |s| ==> s[i] != s[j]
  }

  /** `order` lists every element of `s` exactly once: one of the orders in which an
      unordered collection can be traversed. */
  ghost predicate Lists<T>(order: seq<T>, s: set<T>) {
    && Distinct(order)
    && (forall x :: x in order ==> x in s)
    && (forall x :: x in s ==> x in order)
  }

  function Elements<T(==)>(s: seq<T>): set<T> {
    set x | x in s
  }

  lemma IndexIn<T>(order: seq<T>, s: set<T>, x: T) returns (i: nat)
    requires Lists(order, s) && x in s
    ensures i < |order| && order[i] == x
  {
    assert x in order;
    i :| 0 <= i < |order| && order[i] == x;
  }
}
