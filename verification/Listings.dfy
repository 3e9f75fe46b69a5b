/** Going through a Go map: its keys in any order. */
module Listings {
  import opened Seqs

  ghost predicate NoDuplicates<T>(s: seq<T>) {
    forall i, j :: 0 <= i < j < |s| ==> s[i] != s[j]
  }

  /** `order` is one order in which Go may go through the map. */
  ghost predicate Lists<K(!new), V>(order: seq<K>, m: map<K, V>) {
    NoDuplicates(order) && forall k :: k in order <==> k in m
  }

  /** The elements of a set, in any order. */
  method ListSet<T(==)>(all: set<T>) returns (s: seq<T>)
    ensures NoDuplicates(s) && forall x :: x in s <==> x in all
  {
    s := [];
    var left := all;
    while left != {}
      invariant left <= all && NoDuplicates(s)
      invariant forall x :: x in s <==> x in all && x !in left
      decreases left
    {
      var x := Pick(left);
      s := s + [x];
      left := left - {x};
    }
  }

  lemma ListsTwoLast<K(!new), V>(rest: seq<K>, j: K, k: K, m: map<K, V>)
    requires j in m && k in m && j != k
    requires NoDuplicates(rest) && forall x :: x in rest <==> x in m.Keys - {j, k}
    ensures Lists(rest + [j] + [k], m)
  {
    var order := rest + [j] + [k];
    forall x ensures x in order <==> x in m {}
  }
}
