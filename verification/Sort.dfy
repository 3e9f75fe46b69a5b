/** Container.sort (caddyfile/marshal.go): children first, then the siblings.
    Since the order is total, what the sort returns depends only on which trees it is given. */
module Sorting {
  import opened Seqs
  import opened Trees

  ghost predicate Sorted(ts: seq<Tree>) {
    forall i, j :: 0 <= i <= j < |ts| ==> Leq(ts[i], ts[j])
  }

  ghost predicate SortedTree(t: Tree)
    decreases t, 1
  {
    SortedForest(t.kids)
  }

  /** Siblings are in order at every level. */
  ghost predicate SortedForest(ts: seq<Tree>)
    decreases ts, 0
  {
    Sorted(ts) && forall i :: 0 <= i < |ts| ==> SortedTree(ts[i])
  }

  /** Stable insertion: before the first element that is strictly smaller than none of those after t. */
  function Insert(t: Tree, ts: seq<Tree>): seq<Tree> {
    if ts == [] || Leq(t, ts[0]) then [t] + ts else [ts[0]] + Insert(t, ts[1..])
  }

  function InsertionSort(ts: seq<Tree>): seq<Tree> {
    if ts == [] then [] else Insert(ts[0], InsertionSort(ts[1..]))
  }

  function SortTree(t: Tree): Tree
    decreases t, 1
  {
    Node(t.order, t.keys, SortForest(t.kids))
  }

  function SortEach(ts: seq<Tree>): seq<Tree>
    decreases ts, 0
  {
    if ts == [] then [] else [SortTree(ts[0])] + SortEach(ts[1..])
  }

  /** What Container.sort leaves in the container. */
  function SortForest(ts: seq<Tree>): seq<Tree>
    decreases ts, 1
  {
    InsertionSort(SortEach(ts))
  }

  // ----- Insertion -----

  lemma {:induction false} InsertContents(t: Tree, ts: seq<Tree>)
    ensures multiset(Insert(t, ts)) == multiset{t} + multiset(ts)
  {
    if ts == [] || Leq(t, ts[0]) {
    } else {
      InsertContents(t, ts[1..]);
      assert ts == [ts[0]] + ts[1..];
    }
  }

  lemma SortedTail(ts: seq<Tree>)
    requires Sorted(ts) && ts != []
    ensures Sorted(ts[1..])
    ensures forall t :: t in ts[1..] ==> Leq(ts[0], t)
  {
    forall i, j | 0 <= i <= j < |ts[1..]| ensures Leq(ts[1..][i], ts[1..][j]) {
      assert Leq(ts[i + 1], ts[j + 1]);
    }
  }

  lemma SortedCons(t: Tree, ts: seq<Tree>)
    requires Sorted(ts) && forall u :: u in ts ==> Leq(t, u)
    ensures Sorted([t] + ts)
  {
    LeqTotal(t, t);
    forall i, j | 0 <= i <= j < |[t] + ts| ensures Leq(([t] + ts)[i], ([t] + ts)[j]) {
      if i > 0 {
        assert Leq(ts[i - 1], ts[j - 1]);
      } else if j > 0 {
        assert ts[j - 1] in ts;
      }
    }
  }

  lemma {:induction false} InsertSorted(t: Tree, ts: seq<Tree>)
    requires Sorted(ts)
    ensures Sorted(Insert(t, ts))
  {
    if ts == [] {
      SortedCons(t, []);
    } else if Leq(t, ts[0]) {
      SortedTail(ts);
      forall u | u in ts ensures Leq(t, u) {
        if u != ts[0] {
          assert u in ts[1..];
          CompareTransitive(t, ts[0], u);
        }
      }
      SortedCons(t, ts);
    } else {
      SortedTail(ts);
      InsertSorted(t, ts[1..]);
      InsertContents(t, ts[1..]);
      LeqTotal(t, ts[0]);
      forall u | u in Insert(t, ts[1..]) ensures Leq(ts[0], u) {
        assert u in multiset(Insert(t, ts[1..]));
      }
      SortedCons(ts[0], Insert(t, ts[1..]));
    }
  }

  /** A sorted sequence is determined by its contents. */
  lemma {:induction false} SortedUnique(a: seq<Tree>, b: seq<Tree>)
    requires Sorted(a) && Sorted(b) && multiset(a) == multiset(b)
    ensures a == b
  {
    assert |a| == |multiset(a)| == |b|;
    if a != [] {
      SameHead(a, b);
      HeadContents(a);
      HeadContents(b);
      CancelCommon(a[0], multiset(a[1..]), multiset(b[1..]));
      SortedTail(a);
      SortedTail(b);
      SortedUnique(a[1..], b[1..]);
      assert a == [a[0]] + a[1..] && b == [b[0]] + b[1..];
    }
  }

  lemma SameHead(a: seq<Tree>, b: seq<Tree>)
    requires Sorted(a) && Sorted(b) && multiset(a) == multiset(b) && a != [] && b != []
    ensures a[0] == b[0]
  {
    assert a[0] in multiset(b) && b[0] in multiset(a);
    var i := FindInContents(b, a[0]);
    var j := FindInContents(a, b[0]);
    assert Leq(b[0], b[i]) && Leq(a[0], a[j]);
    LeqTotal(a[0], b[0]);
  }

  lemma {:induction false} InsertionSortCorrect(ts: seq<Tree>)
    ensures Sorted(InsertionSort(ts))
    ensures multiset(InsertionSort(ts)) == multiset(ts)
  {
    if ts != [] {
      InsertionSortCorrect(ts[1..]);
      InsertSorted(ts[0], InsertionSort(ts[1..]));
      InsertContents(ts[0], InsertionSort(ts[1..]));
      assert ts == [ts[0]] + ts[1..];
    }
  }

  lemma InsertionSortPermutation(a: seq<Tree>, b: seq<Tree>)
    ensures InsertionSort(a) == InsertionSort(b) <==> multiset(a) == multiset(b)
  {
    InsertionSortCorrect(a);
    InsertionSortCorrect(b);
    if multiset(a) == multiset(b) {
      SortedUnique(InsertionSort(a), InsertionSort(b));
    }
  }

  lemma InsertionSortIdentity(ts: seq<Tree>)
    requires Sorted(ts)
    ensures InsertionSort(ts) == ts
  {
    InsertionSortCorrect(ts);
    SortedUnique(InsertionSort(ts), ts);
  }

  // ----- Container.sort -----

  lemma {:induction false} SortEachAt(ts: seq<Tree>)
    ensures |SortEach(ts)| == |ts|
    ensures forall i :: 0 <= i < |ts| ==> SortEach(ts)[i] == SortTree(ts[i])
  {
    if ts != [] {
      SortEachAt(ts[1..]);
    }
  }

  lemma {:induction false} SortTreeCorrect(t: Tree)
    ensures SortedTree(SortTree(t))
    decreases t, 1
  {
    SortForestCorrect(t.kids);
  }

  /** The sort returns its blocks, each with its own children sorted, in order at every level. */
  lemma {:induction false} SortForestCorrect(ts: seq<Tree>)
    ensures SortedForest(SortForest(ts))
    ensures multiset(SortForest(ts)) == multiset(SortEach(ts))
    decreases ts, 0
  {
    SortEachAt(ts);
    InsertionSortCorrect(SortEach(ts));
    var r := SortForest(ts);
    forall i | 0 <= i < |r| ensures SortedTree(r[i]) {
      assert r[i] in multiset(SortEach(ts));
      var j :| 0 <= j < |ts| && r[i] == SortTree(ts[j]);
      SortTreeCorrect(ts[j]);
    }
  }

  lemma {:induction false} SortTreeIdentity(t: Tree)
    requires SortedTree(t)
    ensures SortTree(t) == t
    decreases t, 1
  {
    SortForestIdentity(t.kids);
  }

  /** Sorting what is already sorted changes nothing. */
  lemma {:induction false} SortForestIdentity(ts: seq<Tree>)
    requires SortedForest(ts)
    ensures SortForest(ts) == ts
    decreases ts, 0
  {
    SortEachAt(ts);
    forall i | 0 <= i < |ts| ensures SortEach(ts)[i] == ts[i] {
      SortTreeIdentity(ts[i]);
    }
    assert SortEach(ts) == ts;
    InsertionSortIdentity(ts);
  }

  // ----- Recursive sibling permutations -----

  ghost predicate Shuffled(t: Tree, u: Tree)
    decreases t, 1
  {
    t.order == u.order && t.keys == u.keys && ShuffledForest(t.kids, u.kids)
  }

  /** `us` lists the blocks of `ts` in another order, at every level. */
  ghost predicate ShuffledForest(ts: seq<Tree>, us: seq<Tree>)
    decreases ts, 0
  {
    if ts == [] then us == []
    else exists j :: 0 <= j < |us| && Shuffled(ts[0], us[j]) && ShuffledForest(ts[1..], Without(us, j))
  }

  lemma SortEachWithout(us: seq<Tree>, j: nat)
    requires j < |us|
    ensures multiset(SortEach(us)) == multiset{SortTree(us[j])} + multiset(SortEach(Without(us, j)))
  {
    EachWithout(us, j);
    SortEachAt(us);
    WithoutContents(SortEach(us), j);
  }

  lemma EachWithout(us: seq<Tree>, j: nat)
    requires j < |us|
    ensures |SortEach(us)| == |us| && SortEach(Without(us, j)) == Without(SortEach(us), j)
  {
    SortEachAt(us);
    SortEachAt(Without(us, j));
  }

  lemma {:induction false} ShuffledSorts(t: Tree, u: Tree)
    ensures Shuffled(t, u) <==> SortTree(t) == SortTree(u)
    decreases t, 1
  {
    ShuffledForestSorts(t.kids, u.kids);
  }

  /** Two containers sort to the same tree exactly when each is a recursive
      sibling permutation of the other: the sorted tree is the unique normal form. */
  lemma {:induction false} ShuffledForestSorts(ts: seq<Tree>, us: seq<Tree>)
    ensures ShuffledForest(ts, us) <==> SortForest(ts) == SortForest(us)
    decreases ts, 0
  {
    SortsEqual(ts, us);
    SortEachAt(us);
    if ts == [] {
      assert |SortEach(us)| == |multiset(SortEach(us))|;
    } else {
      forall j | 0 <= j < |us|
        ensures Shuffled(ts[0], us[j]) && ShuffledForest(ts[1..], Without(us, j)) <==>
                SortForest(ts) == SortForest(us) && SortTree(ts[0]) == SortTree(us[j])
      {
        ShuffledSorts(ts[0], us[j]);
        ShuffledForestSorts(ts[1..], Without(us, j));
        MatchHead(ts, us, j);
      }
      if SortForest(ts) == SortForest(us) {
        HeadContents(SortEach(ts));
        var j := FindInContents(SortEach(us), SortTree(ts[0]));
        assert SortTree(ts[0]) == SortTree(us[j]);
      }
    }
  }

  lemma SortsEqual(ts: seq<Tree>, us: seq<Tree>)
    ensures SortForest(ts) == SortForest(us) <==> multiset(SortEach(ts)) == multiset(SortEach(us))
  {
    InsertionSortPermutation(SortEach(ts), SortEach(us));
  }

  /** Matching the head of `ts` with block `j` of `us` leaves the question for the rest. */
  lemma MatchHead(ts: seq<Tree>, us: seq<Tree>, j: nat)
    requires ts != [] && j < |us|
    ensures SortTree(ts[0]) == SortTree(us[j]) && SortForest(ts[1..]) == SortForest(Without(us, j)) <==>
            SortForest(ts) == SortForest(us) && SortTree(ts[0]) == SortTree(us[j])
  {
    SortsEqual(ts, us);
    SortsEqual(ts[1..], Without(us, j));
    SortEachWithout(us, j);
    HeadContents(SortEach(ts));
    if SortTree(ts[0]) == SortTree(us[j]) {
      CancelCommon(SortTree(us[j]), multiset(SortEach(ts[1..])), multiset(SortEach(Without(us, j))));
    }
  }
}
