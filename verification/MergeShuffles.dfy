/** Merging and the order of siblings: what merging makes of a container depends only on the order of
    blocks that share a merge key. */
module MergeShuffles {
  import opened Seqs
  import opened Trees
  import opened Sorting
  import opened Merging
  import opened MergeLaws

  // ----- Alike: the same up to the order of siblings -----

  /** The same tree, up to the order of siblings at every level. */
  ghost predicate Alike(t: Tree, u: Tree) {
    SortTree(t) == SortTree(u)
  }

  ghost predicate AlikeForest(ts: seq<Tree>, us: seq<Tree>) {
    SortForest(ts) == SortForest(us)
  }

  lemma AlikeHeader(t: Tree, u: Tree)
    requires Alike(t, u)
    ensures t.order == u.order && t.keys == u.keys && KeyOf(t) == KeyOf(u) && AlikeForest(t.kids, u.kids)
  {
  }

  lemma {:induction false} SortEachContents(a: seq<Tree>, b: seq<Tree>)
    requires multiset(a) == multiset(b)
    ensures multiset(SortEach(a)) == multiset(SortEach(b))
    decreases |a|
  {
    assert |a| == |multiset(a)| == |b|;
    if a != [] {
      assert a[0] in multiset(b);
      var j := FindInContents(b, a[0]);
      WithoutContents(b, j);
      HeadContents(a);
      CancelCommon(a[0], multiset(a[1..]), multiset(Without(b, j)));
      SortEachContents(a[1..], Without(b, j));
      SortEachWithout(b, j);
      HeadContents(SortEach(a));
    }
  }

  lemma PermutedAlike(a: seq<Tree>, b: seq<Tree>)
    requires multiset(a) == multiset(b)
    ensures AlikeForest(a, b)
  {
    SortEachContents(a, b);
    SortsEqual(a, b);
  }

  /** Every block has a copy on the other side. */
  lemma PartnerOf(ts: seq<Tree>, i: nat, us: seq<Tree>) returns (j: nat)
    requires AlikeForest(ts, us) && i < |ts|
    ensures j < |us| && Alike(ts[i], us[j]) && KeyOf(us[j]) == KeyOf(ts[i])
  {
    SortsEqual(ts, us);
    SortEachAt(ts);
    SortEachAt(us);
    assert SortEach(ts)[i] in multiset(SortEach(us));
    j := FindInContents(SortEach(us), SortTree(ts[i]));
    AlikeHeader(ts[i], us[j]);
  }

  lemma {:induction false} AlikeShaped(ts: seq<Tree>, us: seq<Tree>)
    requires AlikeForest(ts, us) && Shaped(ts)
    ensures Shaped(us)
    decreases ts
  {
    forall j | 0 <= j < |us| ensures ShapedTree(us[j]) {
      var i := PartnerOf(us, j, ts);
      AlikeHeader(us[j], ts[i]);
      assert ShapedTree(ts[i]);
      AlikeShaped(ts[i].kids, us[j].kids);
    }
  }

  // ----- The blocks with one merge key -----

  /** The blocks with the merge key, in order. */
  function Class(ts: seq<Tree>, k: MergeKey): seq<Tree> {
    if ts == [] then []
    else (if KeyOf(ts[0]) == k then [ts[0]] else []) + Class(ts[1..], k)
  }

  lemma ClassHead(ts: seq<Tree>, k: MergeKey)
    requires ts != []
    ensures KeyOf(ts[0]) != k ==> Class(ts, k) == Class(ts[1..], k)
    ensures KeyOf(ts[0]) == k ==>
              Class(ts, k) != [] && Class(ts, k)[0] == ts[0] && Class(ts, k)[1..] == Class(ts[1..], k)
  {
  }

  lemma {:induction false} ClassMembers(ts: seq<Tree>, k: MergeKey)
    ensures forall t :: t in Class(ts, k) <==> t in ts && KeyOf(t) == k
    ensures forall x :: multiset(Class(ts, k))[x] == if KeyOf(x) == k then multiset(ts)[x] else 0
    decreases |ts|
  {
    if ts != [] {
      ClassMembers(ts[1..], k);
      HeadContents(ts);
    }
  }

  lemma ClassCons(t: Tree, ts: seq<Tree>, k: MergeKey)
    ensures Class([t] + ts, k) == if KeyOf(t) == k then [t] + Class(ts, k) else Class(ts, k)
  {
    assert ([t] + ts)[1..] == ts;
  }

  lemma {:induction false} ClassConcat(a: seq<Tree>, b: seq<Tree>, k: MergeKey)
    ensures Class(a + b, k) == Class(a, k) + Class(b, k)
    decreases |a|
  {
    if a == [] {
      assert a + b == b;
    } else {
      var t, rest := a[0], a[1..];
      ClassConcat(rest, b, k);
      ClassCons(t, rest, k);
      ClassCons(t, rest + b, k);
      assert a == [t] + rest;
      ConcatAssociative([t], rest, b);
      ConcatAssociative([t], Class(rest, k), Class(b, k));
    }
  }

  lemma {:induction false} ClassSorted(ts: seq<Tree>, k: MergeKey)
    ensures Class(SortEach(ts), k) == SortEach(Class(ts, k))
    decreases |ts|
  {
    if ts != [] {
      ClassSorted(ts[1..], k);
      ClassHead(ts, k);
      ClassHead(SortEach(ts), k);
      assert SortEach(ts)[1..] == SortEach(ts[1..]) && KeyOf(SortTree(ts[0])) == KeyOf(ts[0]);
    }
  }

  lemma {:induction false} ClassShaped(ts: seq<Tree>, k: MergeKey)
    requires Shaped(ts)
    ensures Shaped(Class(ts, k))
  {
    ClassMembers(ts, k);
    forall i | 0 <= i < |Class(ts, k)| ensures ShapedTree(Class(ts, k)[i]) {
      assert Class(ts, k)[i] in Class(ts, k);
    }
  }

  lemma {:induction false} ClassMergeOne(ts: seq<Tree>, b: Tree, k: MergeKey)
    requires Shaped(ts) && ShapedTree(b)
    ensures Class(MergeOne(ts, b), k) == if KeyOf(b) == k then MergeOne(Class(ts, k), b) else Class(ts, k)
    decreases |ts|
  {
    if ts == [] {
      assert [] + [b] == [b];
      ClassCons(b, [], k);
      assert [b] + [] == [b];
    } else {
      var t, rest := ts[0], ts[1..];
      assert ts == [t] + rest;
      ClassCons(t, rest, k);
      MergeOneCons(t, rest, b);
      MergeOneCons(t, Class(rest, k), b);
      MatchesKeys(t, b);
      if Matches(t, b) {
        MergeBlockShape(t, b);
        ClassCons(MergeBlock(t, b), rest, k);
      } else {
        ClassMergeOne(rest, b, k);
        ClassCons(t, MergeOne(rest, b), k);
      }
    }
  }

  /** Merging happens key by key. */
  lemma {:induction false} ClassMerge(ts: seq<Tree>, bs: seq<Tree>, k: MergeKey)
    requires Shaped(ts) && Shaped(bs)
    ensures Class(Merge(ts, bs), k) == Merge(Class(ts, k), Class(bs, k))
    decreases |bs|
  {
    if bs != [] {
      ClassMergeOne(ts, bs[0], k);
      MergeOneShaped(ts, bs[0]);
      ClassMerge(MergeOne(ts, bs[0]), bs[1..], k);
      ClassHead(bs, k);
    }
  }

  // ----- Kin: alike, and blocks that share a merge key are in the same order -----

  ghost predicate KinTree(n: nat, t: Tree, u: Tree)
    decreases n, 0
  {
    t.order == u.order && t.keys == u.keys && (n > 0 ==> Kin(n - 1, t.kids, u.kids))
  }

  ghost predicate KinEach(n: nat, ts: seq<Tree>, us: seq<Tree>)
    decreases n, 1
  {
    |ts| == |us| && forall i :: 0 <= i < |ts| ==> KinTree(n, ts[i], us[i])
  }

  /** The same merge keys, and for each of them kindred blocks in the same order, n levels down. */
  ghost predicate Kin(n: nat, ts: seq<Tree>, us: seq<Tree>)
    decreases n, 2
  {
    forall k :: KinEach(n, Class(ts, k), Class(us, k))
  }

  lemma {:induction false} KinReflexive(n: nat, ts: seq<Tree>)
    ensures Kin(n, ts, ts)
    decreases n
  {
    forall k ensures KinEach(n, Class(ts, k), Class(ts, k)) {
      if n > 0 {
        forall i | 0 <= i < |Class(ts, k)| ensures KinTree(n, Class(ts, k)[i], Class(ts, k)[i]) {
          KinReflexive(n - 1, Class(ts, k)[i].kids);
        }
      }
    }
  }

  lemma {:induction false} KinTransitive(n: nat, ts: seq<Tree>, us: seq<Tree>, vs: seq<Tree>)
    requires Kin(n, ts, us) && Kin(n, us, vs)
    ensures Kin(n, ts, vs)
    decreases n
  {
    forall k ensures KinEach(n, Class(ts, k), Class(vs, k)) {
      var a, b, c := Class(ts, k), Class(us, k), Class(vs, k);
      assert KinEach(n, a, b) && KinEach(n, b, c);
      forall i | 0 <= i < |a| ensures KinTree(n, a[i], c[i]) {
        assert KinTree(n, a[i], b[i]) && KinTree(n, b[i], c[i]);
        if n > 0 {
          KinTransitive(n - 1, a[i].kids, b[i].kids, c[i].kids);
        }
      }
    }
  }

  lemma {:induction false} EachKin(n: nat, ts: seq<Tree>, us: seq<Tree>)
    requires KinEach(n, ts, us)
    ensures Kin(n, ts, us)
  {
    forall k ensures KinEach(n, Class(ts, k), Class(us, k)) {
      EachKinClass(n, ts, us, k);
    }
  }

  lemma {:induction false} EachKinClass(n: nat, ts: seq<Tree>, us: seq<Tree>, k: MergeKey)
    requires KinEach(n, ts, us)
    ensures KinEach(n, Class(ts, k), Class(us, k))
    decreases |ts|
  {
    if ts != [] {
      assert KinTree(n, ts[0], us[0]);
      forall i | 0 <= i < |ts[1..]| ensures KinTree(n, ts[1..][i], us[1..][i]) {
        assert KinTree(n, ts[i + 1], us[i + 1]);
      }
      EachKinClass(n, ts[1..], us[1..], k);
    }
  }

  /** All blocks have the merge key. */
  ghost predicate OneKey(ts: seq<Tree>, k: MergeKey) {
    forall i :: 0 <= i < |ts| ==> KeyOf(ts[i]) == k
  }

  lemma ClassOneKey(ts: seq<Tree>, k: MergeKey)
    ensures OneKey(Class(ts, k), k)
  {
    ClassMembers(ts, k);
    forall i | 0 <= i < |Class(ts, k)| ensures KeyOf(Class(ts, k)[i]) == k {
      assert Class(ts, k)[i] in Class(ts, k);
    }
  }

  lemma MergeOneSame(ts: seq<Tree>, b: Tree)
    requires OneKey(ts, KeyOf(b))
    ensures MergeOne(ts, b) == if ts == [] then [b] else [MergeBlock(ts[0], b)] + ts[1..]
  {
    if ts != [] {
      MatchesKeys(ts[0], b);
      MergeOneCons(ts[0], ts[1..], b);
      assert ts == [ts[0]] + ts[1..];
    }
  }

  /** The keys a block adds to one it is merged into. */
  function Added(t: Tree): seq<string> {
    if IsProxy(t.FirstKey()) then AddedKeys(t.keys) else []
  }

  lemma MergedBlock(a: Tree, b: Tree)
    requires KeyOf(a) == KeyOf(b)
    ensures MergeBlock(a, b) == Node(a.order, a.keys + Added(b), Merge(a.kids, b.kids))
  {
    if !IsProxy(b.FirstKey()) {
      assert a.keys + [] == a.keys;
    }
  }

  lemma {:induction false} FoldKin(n: nat, k: MergeKey, ts: seq<Tree>, us: seq<Tree>, bs: seq<Tree>, cs: seq<Tree>)
    requires KinEach(n, ts, us) && KinEach(n, bs, cs)
    requires OneKey(ts, k) && OneKey(us, k) && OneKey(bs, k) && OneKey(cs, k)
    requires Shaped(ts) && Shaped(us) && Shaped(bs) && Shaped(cs)
    ensures KinEach(n, Merge(ts, bs), Merge(us, cs))
    decreases n, 0, |bs|
  {
    if bs != [] {
      var b, c := bs[0], cs[0];
      assert KinTree(n, b, c) && ShapedTree(b) && ShapedTree(c);
      MergeOneSame(ts, b);
      MergeOneSame(us, c);
      MergeOneShaped(ts, b);
      MergeOneShaped(us, c);
      if ts != [] {
        assert KinTree(n, ts[0], us[0]) && ShapedTree(ts[0]) && ShapedTree(us[0]);
        BlockKin(n, ts[0], us[0], b, c);
        MergeBlockShape(ts[0], b);
        MergeBlockShape(us[0], c);
      }
      FoldKin(n, k, MergeOne(ts, b), MergeOne(us, c), bs[1..], cs[1..]);
    }
  }

  lemma {:induction false} BlockKin(n: nat, a: Tree, a': Tree, b: Tree, b': Tree)
    requires KinTree(n, a, a') && KinTree(n, b, b') && KeyOf(a) == KeyOf(b)
    requires ShapedTree(a) && ShapedTree(a') && ShapedTree(b) && ShapedTree(b')
    ensures KinTree(n, MergeBlock(a, b), MergeBlock(a', b'))
    decreases n, 0, 0
  {
    MergedBlock(a, b);
    MergedBlock(a', b');
    if n > 0 {
      MergeKin(n - 1, a.kids, a'.kids, b.kids, b'.kids);
    }
  }

  /** Merging kindred containers into kindred containers gives kindred containers. */
  lemma {:induction false} MergeKin(n: nat, ts: seq<Tree>, us: seq<Tree>, bs: seq<Tree>, cs: seq<Tree>)
    requires Kin(n, ts, us) && Kin(n, bs, cs)
    requires Shaped(ts) && Shaped(us) && Shaped(bs) && Shaped(cs)
    ensures Kin(n, Merge(ts, bs), Merge(us, cs))
    decreases n, 1
  {
    forall k ensures KinEach(n, Class(Merge(ts, bs), k), Class(Merge(us, cs), k)) {
      ClassMerge(ts, bs, k);
      ClassMerge(us, cs, k);
      ClassOneKey(ts, k); ClassOneKey(us, k); ClassOneKey(bs, k); ClassOneKey(cs, k);
      ClassShaped(ts, k); ClassShaped(us, k); ClassShaped(bs, k); ClassShaped(cs, k);
      assert KinEach(n, Class(ts, k), Class(us, k)) && KinEach(n, Class(bs, k), Class(cs, k));
      FoldKin(n, k, Class(ts, k), Class(us, k), Class(bs, k), Class(cs, k));
    }
  }

  lemma {:induction false} KinSymmetric(n: nat, ts: seq<Tree>, us: seq<Tree>)
    requires Kin(n, ts, us)
    ensures Kin(n, us, ts)
    decreases n
  {
    forall k ensures KinEach(n, Class(us, k), Class(ts, k)) {
      var a, b := Class(ts, k), Class(us, k);
      assert KinEach(n, a, b);
      forall i | 0 <= i < |a| ensures KinTree(n, b[i], a[i]) {
        assert KinTree(n, a[i], b[i]);
        if n > 0 {
          KinSymmetric(n - 1, a[i].kids, b[i].kids);
        }
      }
    }
  }

  // ----- Kin and alike -----

  lemma MemberAt(ts: seq<Tree>, k: MergeKey, i: nat) returns (j: nat)
    requires i < |Class(ts, k)|
    ensures j < |ts| && ts[j] == Class(ts, k)[i] && KeyOf(ts[j]) == k
  {
    ClassMembers(ts, k);
    assert Class(ts, k)[i] in Class(ts, k);
    j :| 0 <= j < |ts| && ts[j] == Class(ts, k)[i];
  }

  lemma {:induction false} KinSorted(ts: seq<Tree>, us: seq<Tree>, k: MergeKey)
    requires forall n: nat :: Kin(n, ts, us)
    ensures SortEach(Class(ts, k)) == SortEach(Class(us, k))
    decreases ts, 0
  {
    var a, b := Class(ts, k), Class(us, k);
    assert Kin(0, ts, us) && KinEach(0, a, b);
    SortEachAt(a);
    SortEachAt(b);
    forall i | 0 <= i < |a| ensures SortTree(a[i]) == SortTree(b[i]) {
      var j := MemberAt(ts, k, i);
      forall n: nat ensures Kin(n, a[i].kids, b[i].kids) {
        assert Kin(n + 1, ts, us) && KinEach(n + 1, a, b) && KinTree(n + 1, a[i], b[i]);
      }
      assert KinTree(0, a[i], b[i]);
      KinAlike(ts[j].kids, b[i].kids);
    }
  }

  /** Kindred containers are alike. */
  lemma {:induction false} KinAlike(ts: seq<Tree>, us: seq<Tree>)
    requires forall n: nat :: Kin(n, ts, us)
    ensures AlikeForest(ts, us)
    decreases ts, 1
  {
    var a, b := SortEach(ts), SortEach(us);
    forall x ensures multiset(a)[x] == multiset(b)[x] {
      var k := KeyOf(x);
      ClassMembers(a, k);
      ClassMembers(b, k);
      ClassSorted(ts, k);
      ClassSorted(us, k);
      KinSorted(ts, us, k);
    }
    assert multiset(a) == multiset(b);
    SortsEqual(ts, us);
  }

  /** Blocks that share a merge key are alike, at every level. */
  ghost predicate Coherent(ts: seq<Tree>)
    decreases ts
  {
    && (forall i, j :: 0 <= i < |ts| && 0 <= j < |ts| && KeyOf(ts[i]) == KeyOf(ts[j]) ==> Alike(ts[i], ts[j]))
    && forall i :: 0 <= i < |ts| ==> Coherent(ts[i].kids)
  }

  lemma SortedClassSize(ts: seq<Tree>, k: MergeKey)
    ensures |Class(SortEach(ts), k)| == |Class(ts, k)|
  {
    ClassSorted(ts, k);
    SortEachAt(Class(ts, k));
  }

  lemma PermutedClassSize(a: seq<Tree>, b: seq<Tree>, k: MergeKey)
    requires multiset(a) == multiset(b)
    ensures |Class(a, k)| == |Class(b, k)|
  {
    ClassMembers(a, k);
    ClassMembers(b, k);
    assert multiset(Class(a, k)) == multiset(Class(b, k));
    assert |Class(a, k)| == |multiset(Class(a, k))|;
  }

  lemma ClassSizes(ts: seq<Tree>, us: seq<Tree>, k: MergeKey)
    requires AlikeForest(ts, us)
    ensures |Class(ts, k)| == |Class(us, k)|
  {
    SortsEqual(ts, us);
    PermutedClassSize(SortEach(ts), SortEach(us), k);
    SortedClassSize(ts, k);
    SortedClassSize(us, k);
  }

  /** Alike blocks with coherent children are kindred. */
  lemma {:induction false} CoherentTreeKin(n: nat, t: Tree, u: Tree)
    requires Alike(t, u) && Coherent(t.kids)
    ensures KinTree(n, t, u)
    decreases n, 0
  {
    AlikeHeader(t, u);
    if n > 0 {
      CoherentKin(n - 1, t.kids, u.kids);
    }
  }

  lemma {:induction false} CoherentKin(n: nat, ts: seq<Tree>, us: seq<Tree>)
    requires Coherent(ts) && AlikeForest(ts, us)
    ensures Kin(n, ts, us)
    decreases n, 1
  {
    forall k ensures KinEach(n, Class(ts, k), Class(us, k)) {
      ClassSizes(ts, us, k);
      forall i | 0 <= i < |Class(ts, k)| ensures KinTree(n, Class(ts, k)[i], Class(us, k)[i]) {
        var a := MemberAt(ts, k, i);
        var b := MemberAt(us, k, i);
        var j := PartnerOf(us, b, ts);
        assert Alike(ts[a], ts[j]) && Coherent(ts[a].kids);
        CoherentTreeKin(n, ts[a], us[b]);
      }
    }
  }

  lemma {:induction false} DistinctCoherent(ts: seq<Tree>)
    requires Distinct(ts)
    ensures Coherent(ts)
    decreases ts
  {
    forall i | 0 <= i < |ts| ensures Coherent(ts[i].kids) {
      assert DistinctTree(ts[i]);
      DistinctCoherent(ts[i].kids);
    }
  }
}
