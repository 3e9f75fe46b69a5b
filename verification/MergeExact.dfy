/** Exactly when the order in which blocks are merged does not matter. */
module MergeExact {
  import opened Seqs
  import opened Trees
  import opened Sorting
  import opened Merging
  import opened MergeLaws
  import opened MergeShuffles
  import opened MergeOrders

  /** Every order of the blocks gives the same container, up to the order of siblings. */
  ghost predicate AnyOrderMerges(ts: seq<Tree>) {
    forall us :: ShuffledForest(ts, us) ==> ShuffledForest(Merge([], ts), Merge([], us))
  }

  lemma AnyOrderAlike(ts: seq<Tree>, us: seq<Tree>)
    requires AnyOrderMerges(ts) && AlikeForest(ts, us)
    ensures AlikeForest(Merge([], ts), Merge([], us))
  {
    ShuffledForestSorts(ts, us);
    ShuffledForestSorts(Merge([], ts), Merge([], us));
  }

  // ----- Merging only adds -----

  function Weight(ts: seq<Tree>): nat {
    if ts == [] then 0 else 1 + |ts[0].keys| + Weight(ts[0].kids) + Weight(ts[1..])
  }

  lemma {:induction false} WeightConcat(a: seq<Tree>, b: seq<Tree>)
    ensures Weight(a + b) == Weight(a) + Weight(b)
    decreases |a|
  {
    if a == [] {
      assert a + b == b;
    } else {
      assert (a + b)[1..] == a[1..] + b;
      WeightConcat(a[1..], b);
    }
  }

  lemma WeightParts(a: seq<Tree>, t: Tree, b: seq<Tree>)
    ensures Weight(a + [t] + b) == Weight(a) + 1 + |t.keys| + Weight(t.kids) + Weight(b)
  {
    WeightConcat(a + [t], b);
    WeightConcat(a, [t]);
    assert [t][1..] == [];
  }

  /** A container that is not changed by merging is the only one that does not grow. */
  lemma {:induction false} MergeOneGrows(ts: seq<Tree>, b: Tree)
    ensures Weight(MergeOne(ts, b)) >= Weight(ts)
    ensures Weight(MergeOne(ts, b)) == Weight(ts) ==> MergeOne(ts, b) == ts
    decreases b, 1
  {
    var i := FirstMatch(ts, b);
    if i < |ts| {
      var m := MergeBlock(ts[i], b);
      MergeGrows(ts[i].kids, b.kids);
      MatchesKeys(ts[i], b);
      MergedBlock(ts[i], b);
      WeightParts(ts[..i], ts[i], ts[i + 1..]);
      WeightParts(ts[..i], m, ts[i + 1..]);
      assert ts == ts[..i] + [ts[i]] + ts[i + 1..] && ts[i := m] == ts[..i] + [m] + ts[i + 1..];
      if |m.keys| == |ts[i].keys| {
        assert ts[i].keys + [] == ts[i].keys;
      }
    } else {
      WeightParts(ts, b, []);
      assert ts + [b] + [] == ts + [b];
    }
  }

  lemma {:induction false} MergeGrows(ts: seq<Tree>, bs: seq<Tree>)
    ensures Weight(Merge(ts, bs)) >= Weight(ts)
    ensures Weight(Merge(ts, bs)) == Weight(ts) ==> Merge(ts, bs) == ts
    decreases bs, 0
  {
    if bs != [] {
      MergeOneGrows(ts, bs[0]);
      MergeGrows(MergeOne(ts, bs[0]), bs[1..]);
    }
  }

  lemma {:induction false} WeightContents(a: seq<Tree>, b: seq<Tree>)
    requires multiset(a) == multiset(b)
    ensures Weight(a) == Weight(b)
    decreases |a|
  {
    assert |a| == |multiset(a)| == |b|;
    if a != [] {
      assert a[0] in multiset(b);
      var j := FindInContents(b, a[0]);
      WithoutContents(b, j);
      HeadContents(a);
      CancelCommon(a[0], multiset(a[1..]), multiset(Without(b, j)));
      WeightContents(a[1..], Without(b, j));
      WeightParts(b[..j], b[j], b[j + 1..]);
      WeightConcat(b[..j], b[j + 1..]);
      assert b == b[..j] + [b[j]] + b[j + 1..];
    }
  }

  lemma {:induction false} SortedWeight(ts: seq<Tree>)
    ensures Weight(SortForest(ts)) == Weight(ts)
    decreases ts, 1
  {
    SortForestCorrect(ts);
    WeightContents(SortForest(ts), SortEach(ts));
    EachWeight(ts);
  }

  lemma {:induction false} EachWeight(ts: seq<Tree>)
    ensures Weight(SortEach(ts)) == Weight(ts)
    decreases ts, 0
  {
    if ts != [] {
      SortedWeight(ts[0].kids);
      EachWeight(ts[1..]);
      assert SortEach(ts)[1..] == SortEach(ts[1..]);
    }
  }

  /** If each of two containers becomes the other by merging something in, they are alike. */
  lemma GrowsIntoEachOther(a: seq<Tree>, more: seq<Tree>, b: seq<Tree>, others: seq<Tree>)
    requires AlikeForest(Merge(a, more), b) && AlikeForest(Merge(b, others), a)
    ensures AlikeForest(a, b)
  {
    MergeGrows(a, more);
    MergeGrows(b, others);
    SortedWeight(Merge(a, more));
    SortedWeight(Merge(b, others));
    SortedWeight(a);
    SortedWeight(b);
  }

  // ----- Blocks with one merge key -----

  function KidsOf(bs: seq<Tree>): seq<Tree> {
    if bs == [] then [] else bs[0].kids + KidsOf(bs[1..])
  }

  function AddedAll(bs: seq<Tree>): seq<string> {
    if bs == [] then [] else Added(bs[0]) + AddedAll(bs[1..])
  }

  /** Block a with all of bs merged into it. */
  function Folded(a: Tree, bs: seq<Tree>): Tree {
    Node(a.order, a.keys + AddedAll(bs), Merge(a.kids, KidsOf(bs)))
  }

  /** Blocks with one merge key make one block. */
  lemma {:induction false} FoldHead(a: Tree, rest: seq<Tree>, bs: seq<Tree>)
    requires OneKey(bs, KeyOf(a)) && ShapedTree(a) && Shaped(bs) && OneKey(rest, KeyOf(a))
    ensures Merge([a] + rest, bs) == [Folded(a, bs)] + rest
    decreases |bs|
  {
    if bs == [] {
      assert a.keys + [] == a.keys;
    } else {
      var b := bs[0];
      assert ShapedTree(b) && KeyOf(b) == KeyOf(a);
      MergeOneSame([a] + rest, b);
      MergedBlock(a, b);
      MergeBlockShape(a, b);
      MergeShaped(a.kids, b.kids);
      var m := MergeBlock(a, b);
      assert MergeOne([a] + rest, b) == [m] + rest;
      FoldHead(m, rest, bs[1..]);
      ConcatAssociative(a.keys, Added(b), AddedAll(bs[1..]));
      MergeConcat(a.kids, b.kids, KidsOf(bs[1..]));
    }
  }

  lemma FoldFirst(x: Tree, bs: seq<Tree>)
    requires OneKey(bs, KeyOf(x)) && ShapedTree(x) && Shaped(bs)
    ensures Merge([], [x] + bs) == [Folded(x, bs)]
  {
    MergeOneSame([], x);
    assert ([x] + bs)[1..] == bs && ([x] + bs)[0] == x;
    FoldHead(x, [], bs);
    assert [x] + [] == [x] && [Folded(x, bs)] + [] == [Folded(x, bs)];
  }

  lemma {:induction false} KidsShaped(bs: seq<Tree>)
    requires Shaped(bs)
    ensures Shaped(KidsOf(bs))
    decreases |bs|
  {
    if bs != [] {
      assert ShapedTree(bs[0]);
      KidsShaped(bs[1..]);
      ShapedConcat(bs[0].kids, KidsOf(bs[1..]));
    }
  }

  // ----- Which of two blocks comes first -----

  lemma CancelSuffix<T>(a: seq<T>, b: seq<T>, c: seq<T>)
    requires a + c == b + c
    ensures a == b
  {
    assert |a| == |b|;
    forall i | 0 <= i < |a| ensures a[i] == b[i] {
      assert (a + c)[i] == a[i] && (b + c)[i] == b[i];
    }
  }

  lemma PermutedClass(a: seq<Tree>, b: seq<Tree>, k: MergeKey)
    requires multiset(a) == multiset(b)
    ensures multiset(Class(a, k)) == multiset(Class(b, k))
  {
    ClassMembers(a, k);
    ClassMembers(b, k);
  }

  lemma AlikeClass(ts: seq<Tree>, us: seq<Tree>, k: MergeKey)
    requires AlikeForest(ts, us)
    ensures AlikeForest(Class(ts, k), Class(us, k)) && |Class(ts, k)| == |Class(us, k)|
  {
    SortsEqual(ts, us);
    PermutedClass(SortEach(ts), SortEach(us), k);
    ClassSorted(ts, k);
    ClassSorted(us, k);
    SortsEqual(Class(ts, k), Class(us, k));
    ClassSizes(ts, us, k);
  }

  lemma {:induction false} ClassWhole(ts: seq<Tree>, k: MergeKey)
    requires OneKey(ts, k)
    ensures Class(ts, k) == ts
    decreases |ts|
  {
    if ts != [] {
      ClassWhole(ts[1..], k);
    }
  }

  lemma AlikeSingles(t: Tree, u: Tree)
    requires AlikeForest([t], [u])
    ensures Alike(t, u)
  {
    var j := PartnerOf([t], 0, [u]);
  }

  /** Blocks with one merge key, of which either `xs` or `ys` come first. */
  ghost predicate Fronts(k: MergeKey, xs: seq<Tree>, ys: seq<Tree>, rest: seq<Tree>) {
    && OneKey(xs, k) && OneKey(ys, k) && OneKey(rest, k) && Shaped(xs) && Shaped(ys) && Shaped(rest)
    && AlikeForest(Merge(xs, ys + rest), Merge(ys, xs + rest))
  }

  lemma FrontSizes(k: MergeKey, xs: seq<Tree>, ys: seq<Tree>, rest: seq<Tree>)
    requires Fronts(k, xs, ys, rest)
    ensures |xs| == |ys| || (|xs| <= 1 && |ys| <= 1)
  {
    var a, b := Merge(xs, ys + rest), Merge(ys, xs + rest);
    ShapedConcat(ys, rest);
    ShapedConcat(xs, rest);
    MergedClass(k, xs, ys + rest);
    MergedClass(k, ys, xs + rest);
    AlikeClass(a, b, k);
    ClassWhole(a, k);
    ClassWhole(b, k);
  }

  lemma FrontSingles(k: MergeKey, x: Tree, y: Tree, rest: seq<Tree>)
    requires Fronts(k, [x], [y], rest)
    ensures KeyOf(x) == KeyOf(y) == k && ShapedTree(x) && ShapedTree(y)
    ensures Alike(Folded(x, [y] + rest), Folded(y, [x] + rest))
  {
    assert [x][0] == x && [y][0] == y;
    ShapedConcat([y], rest);
    ShapedConcat([x], rest);
    FoldHead(x, [], [y] + rest);
    FoldHead(y, [], [x] + rest);
    assert [x] + [] == [x] && [y] + [] == [y];
    assert [Folded(x, [y] + rest)] + [] == [Folded(x, [y] + rest)];
    assert [Folded(y, [x] + rest)] + [] == [Folded(y, [x] + rest)];
    AlikeSingles(Folded(x, [y] + rest), Folded(y, [x] + rest));
  }

  ghost predicate AllAlike(ts: seq<Tree>) {
    forall i, j :: 0 <= i < |ts| && 0 <= j < |ts| ==> Alike(ts[i], ts[j])
  }

  /** Where more than one block stays, all of them are alike. */
  lemma FrontMany(k: MergeKey, xs: seq<Tree>, ys: seq<Tree>, rest: seq<Tree>)
    requires Fronts(k, xs, ys, rest) && |xs| == |ys| >= 2 && AllAlike(xs) && AllAlike(ys)
    ensures Alike(xs[0], ys[0])
  {
    var a, b := Folded(xs[0], ys + rest), Folded(ys[0], xs + rest);
    FrontFolds(k, xs, ys, rest);
    FrontFolds(k, ys, xs, rest);
    ManyAlike(a, xs, b, ys);
    if !Alike(xs[0], ys[0]) {
      FoldsCross(xs[0], ys + rest, ys[0], xs + rest);
    }
  }

  lemma FrontFolds(k: MergeKey, xs: seq<Tree>, ys: seq<Tree>, rest: seq<Tree>)
    requires OneKey(xs, k) && OneKey(ys, k) && OneKey(rest, k) && Shaped(xs) && Shaped(ys) && Shaped(rest)
    requires xs != []
    ensures Merge(xs, ys + rest) == [Folded(xs[0], ys + rest)] + xs[1..]
  {
    ShapedConcat(ys, rest);
    assert ShapedTree(xs[0]) && xs == [xs[0]] + xs[1..];
    FoldHead(xs[0], xs[1..], ys + rest);
  }

  /** If each of two blocks becomes the other, they are alike. */
  lemma FoldsCross(x: Tree, more: seq<Tree>, y: Tree, others: seq<Tree>)
    requires Alike(x, Folded(y, others)) && Alike(y, Folded(x, more))
    ensures Alike(x, y)
  {
    AlikeHeader(x, Folded(y, others));
    AlikeHeader(y, Folded(x, more));
    GrowsIntoEachOther(x.kids, KidsOf(more), y.kids, KidsOf(others));
    assert |AddedAll(more)| == 0;
    assert x.keys + [] == x.keys;
  }

  lemma ManyAlike(a: Tree, xs: seq<Tree>, b: Tree, ys: seq<Tree>)
    requires |xs| >= 2 && |ys| >= 2 && AllAlike(xs) && AllAlike(ys)
    requires AlikeForest([a] + xs[1..], [b] + ys[1..])
    ensures Alike(xs[0], ys[0]) || (Alike(xs[0], b) && Alike(ys[0], a))
  {
    var us, vs := [a] + xs[1..], [b] + ys[1..];
    assert us[1] == xs[1] && vs[1] == ys[1];
    var i := PartnerOf(us, 1, vs);
    var j := PartnerOf(vs, 1, us);
    assert i > 0 ==> vs[i] == ys[i];
    assert j > 0 ==> us[j] == xs[j];
  }

  lemma FrontHeaders(x: Tree, y: Tree, rest: seq<Tree>)
    requires KeyOf(x) == KeyOf(y) && Alike(Folded(x, [y] + rest), Folded(y, [x] + rest))
    ensures HeadersBlend(x, y)
  {
    AlikeHeader(Folded(x, [y] + rest), Folded(y, [x] + rest));
    assert ([x] + rest)[1..] == rest && ([y] + rest)[1..] == rest;
    ConcatAssociative(x.keys, Added(y), AddedAll(rest));
    ConcatAssociative(y.keys, Added(x), AddedAll(rest));
    CancelSuffix(x.keys + Added(y), y.keys + Added(x), AddedAll(rest));
  }

  /** The children of two blocks of which either comes first, one merge key at a time. */
  lemma FrontKids(x: Tree, y: Tree, rest: seq<Tree>, q: MergeKey)
    requires ShapedTree(x) && ShapedTree(y) && Shaped(rest)
    requires Alike(Folded(x, [y] + rest), Folded(y, [x] + rest))
    ensures Fronts(q, Class(x.kids, q), Class(y.kids, q), Class(KidsOf(rest), q))
  {
    var xs, ys, more := x.kids, y.kids, KidsOf(rest);
    AlikeHeader(Folded(x, [y] + rest), Folded(y, [x] + rest));
    assert ([x] + rest)[1..] == rest && ([y] + rest)[1..] == rest;
    KidsShaped(rest);
    ShapedConcat(xs, more);
    ShapedConcat(ys, more);
    AlikeClass(Merge(xs, ys + more), Merge(ys, xs + more), q);
    ClassMerge(xs, ys + more, q);
    ClassMerge(ys, xs + more, q);
    ClassConcat(xs, more, q);
    ClassConcat(ys, more, q);
    ClassOneKey(xs, q); ClassOneKey(ys, q); ClassOneKey(more, q);
    ClassShaped(xs, q); ClassShaped(ys, q); ClassShaped(more, q);
  }

  lemma CoherentClass(ts: seq<Tree>, k: MergeKey)
    requires Coherent(ts)
    ensures AllAlike(Class(ts, k))
  {
    forall i, j | 0 <= i < |Class(ts, k)| && 0 <= j < |Class(ts, k)| ensures Alike(Class(ts, k)[i], Class(ts, k)[j]) {
      var a := MemberAt(ts, k, i);
      var b := MemberAt(ts, k, j);
    }
  }

  lemma FrontCount(x: Tree, y: Tree, rest: seq<Tree>, q: MergeKey)
    requires ShapedTree(x) && ShapedTree(y) && Shaped(rest)
    requires Alike(Folded(x, [y] + rest), Folded(y, [x] + rest))
    ensures |Class(x.kids, q)| == |Class(y.kids, q)| || Single(x.kids, y.kids, q)
  {
    FrontKids(x, y, rest, q);
    FrontSizes(q, Class(x.kids, q), Class(y.kids, q), Class(KidsOf(rest), q));
  }

  lemma FrontCounts(x: Tree, y: Tree, rest: seq<Tree>)
    requires ShapedTree(x) && ShapedTree(y) && Shaped(rest)
    requires Alike(Folded(x, [y] + rest), Folded(y, [x] + rest))
    ensures SameCounts(x.kids, y.kids)
  {
    forall q ensures |Class(x.kids, q)| == |Class(y.kids, q)| || Single(x.kids, y.kids, q) {
      FrontCount(x, y, rest, q);
    }
  }

  lemma IndexIn(ts: seq<Tree>, i: nat, k: MergeKey) returns (j: nat)
    requires i < |ts| && KeyOf(ts[i]) == k
    ensures j < |Class(ts, k)| && Class(ts, k)[j] == ts[i]
  {
    ClassMembers(ts, k);
    assert ts[i] in Class(ts, k);
    j :| 0 <= j < |Class(ts, k)| && Class(ts, k)[j] == ts[i];
  }

  /** If it does not matter which of two blocks comes first, the blocks blend. */
  lemma {:induction false} FrontsBlend(x: Tree, y: Tree, rest: seq<Tree>)
    requires KeyOf(x) == KeyOf(y) && ShapedTree(x) && ShapedTree(y) && Shaped(rest)
    requires Coherent(x.kids) && Coherent(y.kids)
    requires Alike(Folded(x, [y] + rest), Folded(y, [x] + rest))
    ensures Blends(x, y)
    decreases x
  {
    FrontHeaders(x, y, rest);
    FrontCounts(x, y, rest);
    forall i, j | 0 <= i < |x.kids| && 0 <= j < |y.kids| && KeyOf(x.kids[i]) == KeyOf(y.kids[j])
      ensures if Single(x.kids, y.kids, KeyOf(x.kids[i])) then Blends(x.kids[i], y.kids[j])
              else Alike(x.kids[i], y.kids[j])
    {
      var q := KeyOf(x.kids[i]);
      FrontKids(x, y, rest, q);
      FrontCount(x, y, rest, q);
      if Single(x.kids, y.kids, q) {
        var more := FrontPair(q, x.kids, i, y.kids, j, Class(KidsOf(rest), q));
        FrontsBlend(x.kids[i], y.kids[j], more);
      } else {
        FrontRepeated(q, x.kids, i, y.kids, j, Class(KidsOf(rest), q));
      }
    }
  }

  /** The only children with merge key q. */
  lemma FrontPair(q: MergeKey, xs: seq<Tree>, i: nat, ys: seq<Tree>, j: nat, rest: seq<Tree>)
    returns (more: seq<Tree>)
    requires Fronts(q, Class(xs, q), Class(ys, q), rest) && Single(xs, ys, q) && Coherent(xs) && Coherent(ys)
    requires i < |xs| && j < |ys| && KeyOf(xs[i]) == KeyOf(ys[j]) == q
    ensures ShapedTree(xs[i]) && ShapedTree(ys[j]) && Shaped(more)
    ensures Coherent(xs[i].kids) && Coherent(ys[j].kids)
    ensures Alike(Folded(xs[i], [ys[j]] + more), Folded(ys[j], [xs[i]] + more))
  {
    OnlyOne(xs, i, q);
    OnlyOne(ys, j, q);
    FrontSingles(q, xs[i], ys[j], rest);
    more := rest;
  }

  lemma OnlyOne(ts: seq<Tree>, i: nat, q: MergeKey)
    requires i < |ts| && KeyOf(ts[i]) == q && |Class(ts, q)| <= 1
    ensures Class(ts, q) == [ts[i]]
  {
    var j := IndexIn(ts, i, q);
  }

  /** Several children with merge key q on each side. */
  lemma FrontRepeated(q: MergeKey, xs: seq<Tree>, i: nat, ys: seq<Tree>, j: nat, rest: seq<Tree>)
    requires Fronts(q, Class(xs, q), Class(ys, q), rest) && |Class(xs, q)| == |Class(ys, q)| >= 2
    requires Coherent(xs) && Coherent(ys)
    requires i < |xs| && j < |ys| && KeyOf(xs[i]) == KeyOf(ys[j]) == q
    ensures Alike(xs[i], ys[j])
  {
    var a := IndexIn(xs, i, q);
    var b := IndexIn(ys, j, q);
    CoherentClass(xs, q);
    CoherentClass(ys, q);
    FrontMany(q, Class(xs, q), Class(ys, q), rest);
    assert Alike(Class(xs, q)[a], Class(xs, q)[0]) && Alike(Class(ys, q)[0], Class(ys, q)[b]);
  }

  // ----- Two blocks to the front -----

  lemma OneFirst(ts: seq<Tree>, x: Tree) returns (rest: seq<Tree>)
    requires x in multiset(ts)
    ensures multiset(ts) == multiset{x} + multiset(rest) == multiset([x] + rest)
  {
    var i := FindInContents(ts, x);
    WithoutContents(ts, i);
    rest := Without(ts, i);
    HeadContents([x] + rest);
    assert ([x] + rest)[1..] == rest;
  }

  lemma TwoContents(x: Tree, y: Tree, rest: seq<Tree>)
    ensures multiset([x] + ([y] + rest)) == multiset{x} + (multiset{y} + multiset(rest))
  {
    HeadContents([x] + ([y] + rest));
    HeadContents([y] + rest);
    assert ([x] + ([y] + rest))[1..] == [y] + rest && ([y] + rest)[1..] == rest;
  }

  lemma TwoFirst(ts: seq<Tree>, x: Tree, y: Tree) returns (rest: seq<Tree>)
    requires x in ts && y in ts && x != y
    ensures multiset([x] + ([y] + rest)) == multiset([y] + ([x] + rest)) == multiset(ts)
  {
    var others := OneFirst(ts, x);
    assert y in multiset(ts);
    rest := OneFirst(others, y);
    TwoContents(x, y, rest);
    TwoContents(y, x, rest);
  }

  lemma ShapedFront(x: Tree, y: Tree, rest: seq<Tree>)
    requires Shaped([x] + ([y] + rest))
    ensures ShapedTree(x) && ShapedTree(y) && Shaped(rest)
  {
    var ts := [x] + ([y] + rest);
    assert ts[0] == x && ts == [x] + [y] + rest;
    ShapedParts([x], y, rest);
  }

  /** The blocks with the merge key of the first one are merged into it. */
  lemma FirstClass(x: Tree, bs: seq<Tree>)
    requires ShapedTree(x) && Shaped(bs)
    ensures Class(Merge([], [x] + bs), KeyOf(x)) == [Folded(x, Class(bs, KeyOf(x)))]
  {
    var k := KeyOf(x);
    ShapedConcat([x], bs);
    ClassMerge([], [x] + bs, k);
    ClassCons(x, bs, k);
    ClassOneKey(bs, k);
    ClassShaped(bs, k);
    FoldFirst(x, Class(bs, k));
  }

  /** If the order of the blocks does not matter, it does not matter which of two with one merge key
      comes first. */
  lemma EitherFirst(ts: seq<Tree>, x: Tree, y: Tree) returns (rest: seq<Tree>)
    requires Shaped(ts) && AnyOrderMerges(ts) && x in ts && y in ts && x != y && KeyOf(x) == KeyOf(y)
    ensures ShapedTree(x) && ShapedTree(y) && Shaped(rest)
    ensures Alike(Folded(x, [y] + rest), Folded(y, [x] + rest))
  {
    var others := TwoFirst(ts, x, y);
    var a, b := [x] + ([y] + others), [y] + ([x] + others);
    PermutedAlike(ts, a);
    PermutedAlike(ts, b);
    AnyOrderAlike(ts, a);
    AnyOrderAlike(ts, b);
    ShapedContents(ts, a);
    ShapedFront(x, y, others);
    rest := Class(others, KeyOf(x));
    ClassShaped(others, KeyOf(x));
    FrontsAlike(x, y, others);
  }

  lemma FrontsAlike(x: Tree, y: Tree, others: seq<Tree>)
    requires KeyOf(x) == KeyOf(y) && ShapedTree(x) && ShapedTree(y) && Shaped(others)
    requires AlikeForest(Merge([], [x] + ([y] + others)), Merge([], [y] + ([x] + others)))
    ensures var rest := Class(others, KeyOf(x)); Alike(Folded(x, [y] + rest), Folded(y, [x] + rest))
  {
    var k := KeyOf(x);
    var rest := Class(others, k);
    ShapedConcat([y], others);
    ShapedConcat([x], others);
    FirstClass(x, [y] + others);
    FirstClass(y, [x] + others);
    ClassCons(x, others, k);
    ClassCons(y, others, k);
    AlikeClass(Merge([], [x] + ([y] + others)), Merge([], [y] + ([x] + others)), k);
    AlikeSingles(Folded(x, [y] + rest), Folded(y, [x] + rest));
  }

  /** Whatever the children are: if the order does not matter, blocks that share a merge key have the same
      Order, keys that blend, and equally many children with each merge key or at most one. */
  lemma MustAgree(ts: seq<Tree>, x: Tree, y: Tree)
    requires Shaped(ts) && AnyOrderMerges(ts) && x in ts && y in ts && x != y && KeyOf(x) == KeyOf(y)
    ensures HeadersBlend(x, y) && SameCounts(x.kids, y.kids)
  {
    var rest := EitherFirst(ts, x, y);
    FrontHeaders(x, y, rest);
    FrontCounts(x, y, rest);
  }

  lemma MustBlend(ts: seq<Tree>, x: Tree, y: Tree)
    requires Shaped(ts) && AnyOrderMerges(ts) && x in ts && y in ts && x != y && KeyOf(x) == KeyOf(y)
    requires Coherent(x.kids) && Coherent(y.kids)
    ensures Blends(x, y)
  {
    var rest := EitherFirst(ts, x, y);
    FrontsBlend(x, y, rest);
  }

  // ----- Merging key by key -----

  lemma AlikeByClass(ts: seq<Tree>, us: seq<Tree>)
    requires forall k :: AlikeForest(Class(ts, k), Class(us, k))
    ensures AlikeForest(ts, us)
  {
    var a, b := SortEach(ts), SortEach(us);
    forall x ensures multiset(a)[x] == multiset(b)[x] {
      var k := KeyOf(x);
      ClassMembers(a, k);
      ClassMembers(b, k);
      ClassSorted(ts, k);
      ClassSorted(us, k);
      assert AlikeForest(Class(ts, k), Class(us, k));
      SortsEqual(Class(ts, k), Class(us, k));
    }
    assert multiset(a) == multiset(b);
    SortsEqual(ts, us);
  }

  /** Where a merge key occurs more than once, the children of its blocks are coherent. */
  ghost predicate RepeatedCoherent(ts: seq<Tree>) {
    forall k :: |Class(ts, k)| >= 2 ==> KidsCoherent(Class(ts, k))
  }

  lemma BlendSuffices(ts: seq<Tree>, us: seq<Tree>)
    requires Shaped(ts) && OrderFree(ts) && AlikeForest(ts, us)
    ensures AlikeForest(Merge([], ts), Merge([], us))
  {
    forall n: nat ensures Kin(n, Merge([], ts), Merge([], us)) {
      KinReflexive(n, []);
      MergeOrderFree(n, [], [], ts, us);
    }
    KinAlike(Merge([], ts), Merge([], us));
  }

  lemma OneUnmerged(ts: seq<Tree>)
    requires |ts| == 1
    ensures Merge([], ts) == ts
  {
    MergeSingle([], ts[0]);
    assert ts == [] + [ts[0]] == [ts[0]];
  }

  lemma ClassBlendSuffices(ts: seq<Tree>, us: seq<Tree>, k: MergeKey)
    requires Shaped(ts) && Shaped(us) && RepeatedCoherent(ts) && AllBlend(ts) && AlikeForest(ts, us)
    ensures AlikeForest(Class(Merge([], ts), k), Class(Merge([], us), k))
  {
    var a, b := Class(ts, k), Class(us, k);
    ClassMerge([], ts, k);
    ClassMerge([], us, k);
    AlikeClass(ts, us, k);
    ClassMembers(ts, k);
    ClassShaped(ts, k);
    if |a| >= 2 {
      assert AllBlend(a);
      BlendSuffices(a, b);
    } else if |a| == 1 {
      OneUnmerged(a);
      OneUnmerged(b);
    }
  }

  /** Where the repeated blocks have coherent children: blocks make the same container in any order, up to
      the order of siblings, if and only if those that share a merge key blend. */
  lemma BlocksExact(ts: seq<Tree>)
    requires Shaped(ts) && RepeatedCoherent(ts)
    ensures AllBlend(ts) <==> AnyOrderMerges(ts)
  {
    if AllBlend(ts) {
      forall us | ShuffledForest(ts, us) ensures ShuffledForest(Merge([], ts), Merge([], us)) {
        ShuffledForestSorts(ts, us);
        AlikeShaped(ts, us);
        forall k ensures AlikeForest(Class(Merge([], ts), k), Class(Merge([], us), k)) {
          ClassBlendSuffices(ts, us, k);
        }
        AlikeByClass(Merge([], ts), Merge([], us));
        ShuffledForestSorts(Merge([], ts), Merge([], us));
      }
    }
    if AnyOrderMerges(ts) {
      forall x, y | x in ts && y in ts && x != y && KeyOf(x) == KeyOf(y) ensures Blends(x, y) {
        RepeatedKids(ts, x, y);
        MustBlend(ts, x, y);
      }
    }
  }

  lemma KidsCoherentAt(ts: seq<Tree>, x: Tree)
    requires KidsCoherent(ts) && x in ts
    ensures Coherent(x.kids)
  {
    var i :| 0 <= i < |ts| && ts[i] == x;
  }

  lemma TwoMembers<T>(s: seq<T>, x: T, y: T)
    requires x in s && y in s && x != y
    ensures |s| >= 2
  {
  }

  lemma RepeatedKids(ts: seq<Tree>, x: Tree, y: Tree)
    requires RepeatedCoherent(ts) && x in ts && y in ts && x != y && KeyOf(x) == KeyOf(y)
    ensures Coherent(x.kids) && Coherent(y.kids)
  {
    var c := Class(ts, KeyOf(x));
    ClassMembers(ts, KeyOf(x));
    TwoMembers(c, x, y);
    KidsCoherentAt(c, x);
    KidsCoherentAt(c, y);
  }

  // ----- Blocks without children -----

  ghost predicate Childless(ts: seq<Tree>) {
    forall i :: 0 <= i < |ts| ==> ts[i].kids == []
  }

  /** Of two blocks that share a merge key it does not matter which is merged into which. */
  ghost predicate PairsMerge(ts: seq<Tree>) {
    forall x, y :: x in ts && y in ts && KeyOf(x) == KeyOf(y) ==> MergeBlock(x, y) == MergeBlock(y, x)
  }

  lemma ChildlessPair(x: Tree, y: Tree)
    requires KeyOf(x) == KeyOf(y) && x.kids == y.kids == []
    ensures MergeBlock(x, y) == MergeBlock(y, x) <==> Blends(x, y)
  {
    MergedBlock(x, y);
    MergedBlock(y, x);
  }

  lemma ChildlessCoherent(ts: seq<Tree>)
    requires Childless(ts)
    ensures RepeatedCoherent(ts)
  {
    forall k, i | 0 <= i < |Class(ts, k)| ensures Coherent(Class(ts, k)[i].kids) {
      var j := MemberAt(ts, k, i);
    }
  }

  /** Blocks without children make the same container in any order if and only if of any two that share a
      merge key it does not matter which comes first. */
  lemma ChildlessExact(ts: seq<Tree>)
    requires Shaped(ts) && Childless(ts)
    ensures PairsMerge(ts) <==> AnyOrderMerges(ts)
  {
    ChildlessCoherent(ts);
    BlocksExact(ts);
    forall x, y | x in ts && y in ts && KeyOf(x) == KeyOf(y)
      ensures MergeBlock(x, y) == MergeBlock(y, x) <==> Blends(x, y)
      ensures x == y ==> MergeBlock(x, y) == MergeBlock(y, x)
    {
      ChildlessPair(x, y);
    }
  }

  /** If they are no proxies: if and only if those with the same keys have the same Order. */
  lemma PlainExact(ts: seq<Tree>)
    requires Shaped(ts) && Childless(ts) && forall t :: t in ts ==> !IsProxy(t.FirstKey())
    ensures (forall x, y :: x in ts && y in ts && x.keys == y.keys ==> x.order == y.order) <==> AnyOrderMerges(ts)
  {
    ChildlessExact(ts);
    forall x, y | x in ts && y in ts
      ensures KeyOf(x) == KeyOf(y) <==> x.keys == y.keys
      ensures x.keys == y.keys ==> (MergeBlock(x, y) == MergeBlock(y, x) <==> x.order == y.order)
    {
      if x.keys == y.keys {
        PlainPair(x, y);
      }
    }
  }

  lemma PlainPair(x: Tree, y: Tree)
    requires x.keys == y.keys && x.kids == y.kids == [] && !IsProxy(x.FirstKey())
    ensures MergeBlock(x, y) == MergeBlock(y, x) <==> x.order == y.order
  {
    MergedBlock(x, y);
    MergedBlock(y, x);
    assert x.keys + [] == x.keys;
  }
}
