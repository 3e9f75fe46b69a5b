/** Marshalling is a normal form: what was marshalled and read back marshals to the same text. */
module NormalForms {
  import opened Runes
  import opened Seqs
  import opened Lexing
  import opened Trees
  import opened Sorting
  import opened Writing
  import opened Parsing
  import opened RoundTrips

  // ----- Well-formedness and sorting -----

  lemma {:induction false} WellFormedAll(ts: seq<Tree>)
    ensures WellFormed(ts) <==> forall i :: 0 <= i < |ts| ==> WellFormedTree(ts[i])
    decreases |ts|
  {
    if ts != [] {
      WellFormedAll(ts[1..]);
      if WellFormed(ts) {
        forall i | 0 <= i < |ts| ensures WellFormedTree(ts[i]) {
          if i > 0 { assert ts[i] == ts[1..][i - 1]; }
        }
      }
      if forall i :: 0 <= i < |ts| ==> WellFormedTree(ts[i]) {
        forall i | 0 <= i < |ts[1..]| ensures WellFormedTree(ts[1..][i]) {
          assert ts[1..][i] == ts[i + 1];
        }
      }
    }
  }

  lemma {:induction false} SortEmpty(ts: seq<Tree>)
    ensures SortForest(ts) == [] <==> ts == []
  {
    SortForestCorrect(ts);
    SortEachAt(ts);
    assert |multiset(SortForest(ts))| == |SortForest(ts)| && |multiset(SortEach(ts))| == |SortEach(ts)|;
  }

  lemma {:induction false} SortTreeWellFormed(t: Tree)
    requires WellFormedTree(t)
    ensures WellFormedTree(SortTree(t))
    decreases t, 1
  {
    SortWellFormed(t.kids);
    SortEmpty(t.kids);
  }

  lemma {:induction false} SortWellFormed(ts: seq<Tree>)
    requires WellFormed(ts)
    ensures WellFormed(SortForest(ts))
    decreases ts, 0
  {
    SortForestCorrect(ts);
    SortEachAt(ts);
    WellFormedAll(ts);
    var r := SortForest(ts);
    forall i | 0 <= i < |r| ensures WellFormedTree(r[i]) {
      assert r[i] in multiset(SortEach(ts));
      var j := FindInContents(SortEach(ts), r[i]);
      SortTreeWellFormed(ts[j]);
    }
    WellFormedAll(r);
  }

  // ----- Reindexing -----

  lemma {:induction false} ReindexAt(first: nat, ts: seq<Tree>)
    ensures |Reindex(first, ts)| == |ts|
    ensures forall i :: 0 <= i < |ts| ==> Reindex(first, ts)[i] == ReindexTree(first + i, ts[i])
    decreases |ts|
  {
    if ts != [] {
      ReindexAt(first + 1, ts[1..]);
    }
  }

  lemma {:induction false} WriteReindexTree(order: int, t: Tree, level: nat)
    ensures WriteTree(ReindexTree(order, t), level) == WriteTree(t, level)
    decreases t, 1
  {
    WriteReindex(0, t.kids, level + 1);
    ReindexAt(0, t.kids);
  }

  /** The printer does not look at Order. */
  lemma {:induction false} WriteReindex(first: nat, ts: seq<Tree>, level: nat)
    ensures WriteForest(Reindex(first, ts), level) == WriteForest(ts, level)
    decreases ts, 0
  {
    if ts != [] {
      WriteReindexTree(first, ts[0], level);
      WriteReindex(first + 1, ts[1..], level);
      assert Reindex(first, ts)[1..] == Reindex(first + 1, ts[1..]);
    }
  }

  /** The first three stages of compareBlocks: global blocks, snippets, matchers, the rest. */
  function Rank(t: Tree): nat {
    if t.IsGlobalBlock() then 0 else if t.IsSnippet() then 1 else if t.IsMatcher() then 2 else 3
  }

  lemma RankFirst(a: Tree, b: Tree)
    ensures Leq(a, b) ==> Rank(a) <= Rank(b)
    ensures Rank(a) < Rank(b) ==> Leq(a, b)
    ensures Rank(a) == Rank(b) && a.order < b.order ==> Leq(a, b)
  {
  }

  lemma {:induction false} ReindexTreeSorted(order: int, t: Tree)
    requires SortedTree(t)
    ensures SortedTree(ReindexTree(order, t))
    decreases t, 1
  {
    ReindexSorted(0, t.kids);
  }

  /** Index-valued orders keep siblings that are already in class order strictly increasing. */
  lemma {:induction false} ReindexSorted(first: nat, ts: seq<Tree>)
    requires SortedForest(ts)
    ensures SortedForest(Reindex(first, ts))
    decreases ts, 0
  {
    ReindexAt(first, ts);
    var r := Reindex(first, ts);
    forall i | 0 <= i < |r| ensures SortedTree(r[i]) {
      ReindexTreeSorted(first + i, ts[i]);
    }
    forall i, j | 0 <= i <= j < |r| ensures Leq(r[i], r[j]) {
      assert Leq(ts[i], ts[j]);
      RankFirst(ts[i], ts[j]);
      RankFirst(r[i], r[j]);
      assert Rank(r[i]) == Rank(ts[i]) && Rank(r[j]) == Rank(ts[j]);
      if i == j { LeqTotal(r[i], r[j]); }
    }
  }

  /** What Unmarshal returns, given sorted blocks, is in order as it stands. */
  lemma UnmarshalMarshal(ts: seq<Tree>)
    requires WellFormed(ts) && ts != []
    requires !HasPrefix(Marshal(ts), [BYTE_ORDER_MARK])
    ensures Unmarshal(Marshal(ts)) == Some(Reindex(0, SortForest(ts)))
    ensures SortForest(Reindex(0, SortForest(ts))) == Reindex(0, SortForest(ts))
  {
    SortWellFormed(ts);
    SortEmpty(ts);
    SortForestCorrect(ts);
    RoundTrip(SortForest(ts));
    ReindexSorted(0, SortForest(ts));
    SortForestIdentity(Reindex(0, SortForest(ts)));
  }

  /** Marshalling, reading back and marshalling again returns the same text. */
  lemma MarshalNormalForm(ts: seq<Tree>)
    requires WellFormed(ts) && ts != []
    requires !HasPrefix(Marshal(ts), [BYTE_ORDER_MARK])
    ensures Unmarshal(Marshal(ts)).Some?
    ensures Marshal(Unmarshal(Marshal(ts)).value) == Marshal(ts)
  {
    UnmarshalMarshal(ts);
    WriteReindex(0, SortForest(ts), 0);
  }
}
