/** When the order of the blocks that are merged does not matter, even of those that share a merge key. */
module MergeOrders {
  import opened Seqs
  import opened Trees
  import opened Sorting
  import opened Merging
  import opened MergeLaws
  import opened MergeShuffles

  // ----- Blocks that blend -----

  /** The name of a proxy block, and its matcher if it is written. */
  function Head(t: Tree): seq<string> {
    if !IsProxy(t.FirstKey()) then t.keys
    else if |t.keys| > 1 && IsMatcherKey(t.keys[1]) then t.keys[..2]
    else t.keys[..1]
  }

  lemma HeadAdded(t: Tree)
    ensures t.keys == Head(t) + Added(t)
  {
  }

  lemma CancelPrefix<T>(a: seq<T>, b: seq<T>, c: seq<T>)
    requires a + b == a + c
    ensures b == c
  {
    assert |b| == |c|;
    forall i | 0 <= i < |b| ensures b[i] == c[i] {
      assert (a + b)[|a| + i] == b[i] && (a + c)[|a| + i] == c[i];
    }
  }

  lemma CancelSuffix<T>(a: seq<T>, b: seq<T>, c: seq<T>)
    requires a + c == b + c
    ensures a == b
  {
    assert |a| == |b|;
    forall i | 0 <= i < |a| ensures a[i] == b[i] {
      assert (a + c)[i] == a[i] && (b + c)[i] == b[i];
    }
  }

  /** Keys that give the same text either way have the same head, and what they add commutes. */
  lemma AddedCommute(x: Tree, y: Tree)
    requires KeyOf(x) == KeyOf(y) && x.keys + Added(y) == y.keys + Added(x)
    ensures Added(x) + Added(y) == Added(y) + Added(x)
  {
    if IsProxy(x.FirstKey()) {
      HeadAdded(x);
      HeadAdded(y);
      ConcatAssociative(Head(x), Added(x), Added(y));
      ConcatAssociative(Head(y), Added(y), Added(x));
      assert |Head(x)| == |Head(y)|;
      assert Head(x) == Head(y);
      CancelPrefix(Head(x), Added(x) + Added(y), Added(y) + Added(x));
    }
  }

  /** Neither container has two blocks with the merge key. */
  predicate Single(xs: seq<Tree>, ys: seq<Tree>, q: MergeKey) {
    |Class(xs, q)| <= 1 && |Class(ys, q)| <= 1
  }

  /** The containers have equally many blocks with each merge key, or neither has two. */
  ghost predicate SameCounts(xs: seq<Tree>, ys: seq<Tree>) {
    forall q :: |Class(xs, q)| == |Class(ys, q)| || Single(xs, ys, q)
  }

  /** Merged in either order the blocks get the same Order and the same keys. */
  predicate HeadersBlend(x: Tree, y: Tree) {
    x.order == y.order && x.keys + Added(y) == y.keys + Added(x)
  }

  /** Merging one and then the other gives the same as the other way round: the headers do, both have
      equally many children with each merge key or neither has two, and the children blend where they are
      merged and are alike where one of them stays. */
  ghost predicate Blends(x: Tree, y: Tree)
    decreases x
  {
    && HeadersBlend(x, y) && SameCounts(x.kids, y.kids)
    && forall i, j :: 0 <= i < |x.kids| && 0 <= j < |y.kids| && KeyOf(x.kids[i]) == KeyOf(y.kids[j]) ==>
         if Single(x.kids, y.kids, KeyOf(x.kids[i])) then Blends(x.kids[i], y.kids[j])
         else Alike(x.kids[i], y.kids[j])
  }

  ghost predicate ForestsBlend(xs: seq<Tree>, ys: seq<Tree>) {
    && SameCounts(xs, ys)
    && forall i, j :: 0 <= i < |xs| && 0 <= j < |ys| && KeyOf(xs[i]) == KeyOf(ys[j]) ==>
         if Single(xs, ys, KeyOf(xs[i])) then Blends(xs[i], ys[j]) else Alike(xs[i], ys[j])
  }

  lemma {:induction false} MergeConcat(ts: seq<Tree>, a: seq<Tree>, b: seq<Tree>)
    ensures Merge(ts, a + b) == Merge(Merge(ts, a), b)
    decreases |a|
  {
    if a == [] {
      assert a + b == b;
    } else {
      assert (a + b)[1..] == a[1..] + b;
      MergeConcat(MergeOne(ts, a[0]), a[1..], b);
    }
  }

  lemma KinEachReflexive(n: nat, ts: seq<Tree>)
    ensures KinEach(n, ts, ts)
  {
    if n > 0 {
      forall i | 0 <= i < |ts| ensures KinTree(n, ts[i], ts[i]) {
        KinReflexive(n - 1, ts[i].kids);
      }
    }
  }

  lemma MergeTwoSame(ts: seq<Tree>, x: Tree, y: Tree)
    requires OneKey(ts, KeyOf(x)) && KeyOf(x) == KeyOf(y) && Shaped(ts) && ShapedTree(x)
    ensures MergeOne(MergeOne(ts, x), y)
            == if ts == [] then [MergeBlock(x, y)] else [MergeBlock(MergeBlock(ts[0], x), y)] + ts[1..]
  {
    MergeOneSame(ts, x);
    if ts == [] {
      MergeOneSame([x], y);
    } else {
      assert ShapedTree(ts[0]);
      MergeBlockShape(ts[0], x);
      MergeOneSame([MergeBlock(ts[0], x)] + ts[1..], y);
    }
  }

  lemma HeadKin(n: nat, t: Tree, u: Tree, rest: seq<Tree>)
    requires KinTree(n, t, u)
    ensures KinEach(n, [t] + rest, [u] + rest)
  {
    KinEachReflexive(n, rest);
    forall i | 0 <= i < |rest| + 1 ensures KinTree(n, ([t] + rest)[i], ([u] + rest)[i]) {
      assert i > 0 ==> KinTree(n, rest[i - 1], rest[i - 1]);
    }
  }

  lemma SwappedBlocks(a: Tree, x: Tree, y: Tree)
    requires KeyOf(a) == KeyOf(x) && KeyOf(x) == KeyOf(y) && HeadersBlend(x, y)
    requires ShapedTree(a) && ShapedTree(x) && ShapedTree(y)
    ensures var keys := a.keys + (Added(x) + Added(y));
            && MergeBlock(MergeBlock(a, x), y) == Node(a.order, keys, Merge(Merge(a.kids, x.kids), y.kids))
            && MergeBlock(MergeBlock(a, y), x) == Node(a.order, keys, Merge(Merge(a.kids, y.kids), x.kids))
  {
    AddedCommute(x, y);
    MergeBlockShape(a, x);
    MergeBlockShape(a, y);
    MergedBlock(a, x);
    MergedBlock(a, y);
    MergedBlock(MergeBlock(a, x), y);
    MergedBlock(MergeBlock(a, y), x);
    ConcatAssociative(a.keys, Added(x), Added(y));
    ConcatAssociative(a.keys, Added(y), Added(x));
  }

  /** Two blocks with the merge key k, merged in either order into blocks with that key. */
  lemma {:induction false} SwapPair(n: nat, k: MergeKey, ts: seq<Tree>, x: Tree, y: Tree)
    requires OneKey(ts, k) && KeyOf(x) == KeyOf(y) == k && Blends(x, y) && Coherent(x.kids) && Coherent(y.kids)
    requires Shaped(ts) && ShapedTree(x) && ShapedTree(y)
    ensures KinEach(n, MergeOne(MergeOne(ts, x), y), MergeOne(MergeOne(ts, y), x))
    decreases n, 1
  {
    MergeTwoSame(ts, x, y);
    MergeTwoSame(ts, y, x);
    if ts == [] {
      SwapNew(n, x, y);
    } else {
      assert ShapedTree(ts[0]) && KeyOf(ts[0]) == k;
      SwapInto(n, ts[0], x, y);
      HeadKin(n, MergeBlock(MergeBlock(ts[0], x), y), MergeBlock(MergeBlock(ts[0], y), x), ts[1..]);
    }
  }

  lemma {:induction false} SwapNew(n: nat, x: Tree, y: Tree)
    requires KeyOf(x) == KeyOf(y) && Blends(x, y) && Coherent(x.kids) && Coherent(y.kids)
    requires ShapedTree(x) && ShapedTree(y)
    ensures KinTree(n, MergeBlock(x, y), MergeBlock(y, x))
    decreases n, 0
  {
    MergedBlock(x, y);
    MergedBlock(y, x);
    if n > 0 {
      SwapFirstKids(n - 1, x.kids, y.kids);
    }
  }

  lemma {:induction false} SwapInto(n: nat, a: Tree, x: Tree, y: Tree)
    requires KeyOf(a) == KeyOf(x) == KeyOf(y) && Blends(x, y) && Coherent(x.kids) && Coherent(y.kids)
    requires ShapedTree(a) && ShapedTree(x) && ShapedTree(y)
    ensures KinTree(n, MergeBlock(MergeBlock(a, x), y), MergeBlock(MergeBlock(a, y), x))
    decreases n, 0
  {
    SwappedBlocks(a, x, y);
    if n > 0 {
      SwapKids(n - 1, a.kids, x.kids, y.kids);
    }
  }

  lemma ClassMergeTwice(ts: seq<Tree>, xs: seq<Tree>, ys: seq<Tree>, k: MergeKey)
    requires Shaped(ts) && Shaped(xs) && Shaped(ys)
    ensures Class(Merge(Merge(ts, xs), ys), k) == Merge(Merge(Class(ts, k), Class(xs, k)), Class(ys, k))
  {
    MergeShaped(ts, xs);
    ClassMerge(ts, xs, k);
    ClassMerge(Merge(ts, xs), ys, k);
  }

  lemma MergeSingles(ts: seq<Tree>, x: Tree, y: Tree)
    ensures Merge(Merge(ts, [x]), [y]) == MergeOne(MergeOne(ts, x), y)
  {
    MergeSingle(ts, x);
    MergeSingle(MergeOne(ts, x), y);
  }

  /** The children with merge key k of two blocks that blend: as many and kindred, or at most one each, and
      then they blend. */
  lemma {:induction false} BlendedClass(n: nat, k: MergeKey, xs: seq<Tree>, ys: seq<Tree>)
    requires ForestsBlend(xs, ys) && Coherent(xs) && Shaped(xs) && Shaped(ys) && Coherent(ys)
    ensures var x, y := Class(xs, k), Class(ys, k);
            || KinEach(n, x, y)
            || (|x| + |y| == 1)
            || (|x| == |y| == 1 && Blends(x[0], y[0]) && Coherent(x[0].kids) && Coherent(y[0].kids))
  {
    var x, y := Class(xs, k), Class(ys, k);
    assert |x| == |y| || Single(xs, ys, k);
    if |x| == |y| {
      forall i | 0 <= i < |x|
        ensures if Single(xs, ys, k) then Blends(x[i], y[i]) else KinTree(n, x[i], y[i])
        ensures Coherent(x[i].kids) && Coherent(y[i].kids)
      {
        var a := MemberAt(xs, k, i);
        var b := MemberAt(ys, k, i);
        assert KeyOf(xs[a]) == k == KeyOf(ys[b]) && Coherent(xs[a].kids) && Coherent(ys[b].kids);
        if !Single(xs, ys, k) {
          CoherentTreeKin(n, xs[a], ys[b]);
        }
      }
    }
  }

  /** Two containers merged, in either order, into a third. */
  lemma {:induction false} SwapKids(n: nat, ts: seq<Tree>, xs: seq<Tree>, ys: seq<Tree>)
    requires ForestsBlend(xs, ys) && Coherent(xs) && Coherent(ys)
    requires Shaped(ts) && Shaped(xs) && Shaped(ys)
    ensures Kin(n, Merge(Merge(ts, xs), ys), Merge(Merge(ts, ys), xs))
    decreases n, 3
  {
    forall k ensures KinEach(n, Class(Merge(Merge(ts, xs), ys), k), Class(Merge(Merge(ts, ys), xs), k)) {
      ClassMergeTwice(ts, xs, ys, k);
      ClassMergeTwice(ts, ys, xs, k);
      ClassOneKey(ts, k); ClassOneKey(xs, k); ClassOneKey(ys, k);
      ClassShaped(ts, k); ClassShaped(xs, k); ClassShaped(ys, k);
      BlendedClass(n, k, xs, ys);
      SwapClass(n, k, Class(ts, k), Class(xs, k), Class(ys, k));
    }
  }

  ghost predicate ClassesBlend(n: nat, k: MergeKey, x: seq<Tree>, y: seq<Tree>) {
    && OneKey(x, k) && OneKey(y, k) && Shaped(x) && Shaped(y)
    && (|| KinEach(n, x, y)
        || (|x| + |y| == 1)
        || (|x| == |y| == 1 && Blends(x[0], y[0]) && Coherent(x[0].kids) && Coherent(y[0].kids)))
  }

  lemma {:induction false} SwapClass(n: nat, k: MergeKey, a: seq<Tree>, x: seq<Tree>, y: seq<Tree>)
    requires OneKey(a, k) && Shaped(a) && ClassesBlend(n, k, x, y)
    ensures KinEach(n, Merge(Merge(a, x), y), Merge(Merge(a, y), x))
    decreases n, 2
  {
    if KinEach(n, x, y) {
      KinClassSymmetric(n, x, y);
      KinEachReflexive(n, a);
      FoldKin(n, k, a, a, x, y);
      MergedClass(k, a, x);
      MergedClass(k, a, y);
      FoldKin(n, k, Merge(a, x), Merge(a, y), y, x);
    } else if |x| + |y| == 1 {
      KinEachReflexive(n, Merge(Merge(a, x), y));
    } else {
      assert x == [x[0]] && y == [y[0]] && ShapedTree(x[0]) && ShapedTree(y[0]);
      SwapPair(n, k, a, x[0], y[0]);
      MergeSingles(a, x[0], y[0]);
      MergeSingles(a, y[0], x[0]);
    }
  }

  lemma KinClassSymmetric(n: nat, x: seq<Tree>, y: seq<Tree>)
    requires KinEach(n, x, y)
    ensures KinEach(n, y, x)
  {
    forall i | 0 <= i < |x| ensures KinTree(n, y[i], x[i]) {
      assert KinTree(n, x[i], y[i]);
      if n > 0 {
        KinSymmetric(n - 1, x[i].kids, y[i].kids);
      }
    }
  }

  /** Merging blocks with one merge key. */
  lemma {:induction false} MergedClass(k: MergeKey, a: seq<Tree>, x: seq<Tree>)
    requires OneKey(a, k) && OneKey(x, k) && Shaped(a) && Shaped(x)
    ensures OneKey(Merge(a, x), k) && Shaped(Merge(a, x))
    ensures x != [] ==> |Merge(a, x)| == if a == [] then 1 else |a|
    decreases |x|
  {
    if x != [] {
      assert ShapedTree(x[0]);
      MergeOneSame(a, x[0]);
      MergeOneShaped(a, x[0]);
      if a != [] {
        assert ShapedTree(a[0]);
        MergeBlockShape(a[0], x[0]);
      }
      MergedClass(k, MergeOne(a, x[0]), x[1..]);
    }
  }

  /** One container merged into the other, either way. */
  lemma {:induction false} SwapFirstKids(n: nat, xs: seq<Tree>, ys: seq<Tree>)
    requires ForestsBlend(xs, ys) && Coherent(xs) && Coherent(ys) && Shaped(xs) && Shaped(ys)
    ensures Kin(n, Merge(xs, ys), Merge(ys, xs))
    decreases n, 3
  {
    forall k ensures KinEach(n, Class(Merge(xs, ys), k), Class(Merge(ys, xs), k)) {
      ClassMerge(xs, ys, k);
      ClassMerge(ys, xs, k);
      ClassOneKey(xs, k); ClassOneKey(ys, k);
      ClassShaped(xs, k); ClassShaped(ys, k);
      BlendedClass(n, k, xs, ys);
      SwapFirstClass(n, k, Class(xs, k), Class(ys, k));
    }
  }

  lemma {:induction false} SwapFirstClass(n: nat, k: MergeKey, x: seq<Tree>, y: seq<Tree>)
    requires ClassesBlend(n, k, x, y)
    ensures KinEach(n, Merge(x, y), Merge(y, x))
    decreases n, 2
  {
    if KinEach(n, x, y) {
      KinClassSymmetric(n, x, y);
      FoldKin(n, k, x, y, y, x);
    } else if |x| + |y| == 1 {
      var t := if x == [] then y[0] else x[0];
      MergeOneSame([], t);
      MergeSingle([], t);
      assert if x == [] then y == [t] else x == [t] && y == [];
      KinEachReflexive(n, [t]);
    } else {
      SwapPair(n, k, [], x[0], y[0]);
      assert x == [x[0]] && y == [y[0]];
      MergeTwoSame([], x[0], y[0]);
      MergeTwoSame([], y[0], x[0]);
      MergeOneSame(x, y[0]);
      MergeOneSame(y, x[0]);
      MergeSingle(x, y[0]);
      MergeSingle(y, x[0]);
    }
  }

  // ----- Permutations -----

  /** Two blocks that can change places in what is merged. */
  ghost predicate Swaps(x: Tree, y: Tree) {
    KeyOf(x) == KeyOf(y) ==> Blends(x, y) && Coherent(x.kids) && Coherent(y.kids)
  }

  lemma SwapKin(n: nat, ts: seq<Tree>, x: Tree, y: Tree)
    requires Swaps(x, y) && Shaped(ts) && ShapedTree(x) && ShapedTree(y)
    ensures Kin(n, Merge(Merge(ts, [x]), [y]), Merge(Merge(ts, [y]), [x]))
  {
    forall k ensures KinEach(n, Class(Merge(Merge(ts, [x]), [y]), k), Class(Merge(Merge(ts, [y]), [x]), k)) {
      ClassMergeTwice(ts, [x], [y], k);
      ClassMergeTwice(ts, [y], [x], k);
      ClassCons(x, [], k);
      ClassCons(y, [], k);
      ClassOneKey(ts, k);
      ClassShaped(ts, k);
      assert [x] + [] == [x] && [y] + [] == [y];
      if KeyOf(x) == KeyOf(y) == k {
        assert ClassesBlend(n, k, [x], [y]);
        SwapClass(n, k, Class(ts, k), [x], [y]);
      } else {
        KinEachReflexive(n, Class(Merge(Merge(ts, [x]), [y]), k));
      }
    }
  }

  /** All blocks can change places. */
  ghost predicate AllSwap(bs: seq<Tree>) {
    forall x, y :: x in bs && y in bs && x != y ==> Swaps(x, y)
  }

  lemma KinSuffix(n: nat, ts: seq<Tree>, us: seq<Tree>, bs: seq<Tree>)
    requires Kin(n, ts, us) && Shaped(ts) && Shaped(us) && Shaped(bs)
    ensures Kin(n, Merge(ts, bs), Merge(us, bs))
  {
    KinReflexive(n, bs);
    MergeKin(n, ts, us, bs, bs);
  }

  /** Merging p, then b, then the rest: in this order, and with b first. */
  lemma FrontSplit(ts: seq<Tree>, p: Tree, rest: seq<Tree>, b: Tree, after: seq<Tree>)
    ensures var before := [p] + rest;
            && Merge(ts, before + [b] + after) == Merge(Merge(ts, [p]), rest + [b] + after)
            && Merge(Merge(ts, [p]), [b] + rest + after) == Merge(Merge(Merge(ts, [p]), [b]), rest + after)
            && Merge(ts, [b] + before + after) == Merge(Merge(Merge(ts, [b]), [p]), rest + after)
  {
    var before := [p] + rest;
    assert before + [b] + after == [p] + (rest + [b] + after);
    MergeConcat(ts, [p], rest + [b] + after);
    assert [b] + rest + after == [b] + (rest + after);
    MergeConcat(Merge(ts, [p]), [b], rest + after);
    assert [b] + before + after == [b] + ([p] + (rest + after));
    MergeConcat(ts, [b], [p] + (rest + after));
    MergeConcat(Merge(ts, [b]), [p], rest + after);
  }

  lemma SwapFirst(n: nat, ts: seq<Tree>, p: Tree, b: Tree, rest: seq<Tree>)
    requires Shaped(ts) && ShapedTree(p) && ShapedTree(b) && Shaped(rest) && (p != b ==> Swaps(p, b))
    ensures Kin(n, Merge(Merge(Merge(ts, [p]), [b]), rest), Merge(Merge(Merge(ts, [b]), [p]), rest))
  {
    MergeShaped(ts, [p]);
    MergeShaped(ts, [b]);
    MergeShaped(Merge(ts, [p]), [b]);
    MergeShaped(Merge(ts, [b]), [p]);
    if p == b {
      KinReflexive(n, Merge(Merge(ts, [p]), [b]));
    } else {
      SwapKin(n, ts, p, b);
    }
    KinSuffix(n, Merge(Merge(ts, [p]), [b]), Merge(Merge(ts, [b]), [p]), rest);
  }

  /** A block moves to the front. */
  lemma {:induction false} FrontKin(n: nat, ts: seq<Tree>, before: seq<Tree>, b: Tree, after: seq<Tree>)
    requires Shaped(ts) && Shaped(before) && ShapedTree(b) && Shaped(after)
    requires forall p :: p in before && p != b ==> Swaps(p, b)
    ensures Kin(n, Merge(ts, before + [b] + after), Merge(ts, [b] + before + after))
    decreases |before|
  {
    if before == [] {
      assert before + [b] + after == [b] + before + after;
      KinReflexive(n, Merge(ts, [b] + before + after));
    } else {
      var p, rest := before[0], before[1..];
      assert before == [p] + rest && ShapedTree(p);
      MergeShaped(ts, [p]);
      FrontKin(n, Merge(ts, [p]), rest, b, after);
      FrontSplit(ts, p, rest, b, after);
      ShapedConcat(rest, after);
      SwapFirst(n, ts, p, b, rest + after);
      KinTransitive(n, Merge(ts, before + [b] + after), Merge(Merge(ts, [p]), [b] + rest + after),
                    Merge(ts, [b] + before + after));
    }
  }

  lemma ShapedConcat(a: seq<Tree>, b: seq<Tree>)
    requires Shaped(a) && Shaped(b)
    ensures Shaped(a + b)
  {
  }

  /** The first block of a permutation, found in the other order. */
  lemma SplitAt(bs: seq<Tree>, cs: seq<Tree>) returns (before: seq<Tree>, after: seq<Tree>)
    requires multiset(bs) == multiset(cs) && bs != []
    ensures cs == before + [bs[0]] + after && multiset(bs[1..]) == multiset(before + after)
    ensures forall p :: p in before + after ==> p in bs
  {
    assert bs[0] in multiset(cs);
    var j := FindInContents(cs, bs[0]);
    before, after := cs[..j], cs[j + 1..];
    WithoutContents(cs, j);
    HeadContents(bs);
    CancelCommon(bs[0], multiset(bs[1..]), multiset(before + after));
    forall p | p in before + after ensures p in bs {
      assert p in multiset(before + after);
    }
  }

  /** Blocks that can change places can be merged in any order. */
  lemma {:induction false} PermuteKin(n: nat, ts: seq<Tree>, bs: seq<Tree>, cs: seq<Tree>)
    requires AllSwap(bs) && multiset(bs) == multiset(cs) && Shaped(ts) && Shaped(bs) && Shaped(cs)
    ensures Kin(n, Merge(ts, cs), Merge(ts, bs))
    decreases |bs|
  {
    assert |bs| == |multiset(bs)| == |cs|;
    if bs == [] {
      KinReflexive(n, ts);
    } else {
      var b, rest := bs[0], bs[1..];
      var before, after := SplitAt(bs, cs);
      ShapedParts(before, b, after);
      FrontKin(n, ts, before, b, after);
      assert [b] + before + after == [b] + (before + after) && bs == [b] + rest;
      MergeConcat(ts, [b], before + after);
      MergeConcat(ts, [b], rest);
      MergeShaped(ts, [b]);
      PermuteKin(n, Merge(ts, [b]), rest, before + after);
      KinTransitive(n, Merge(ts, cs), Merge(ts, [b] + before + after), Merge(ts, bs));
    }
  }

  lemma ShapedParts(before: seq<Tree>, b: Tree, after: seq<Tree>)
    requires Shaped(before + [b] + after)
    ensures Shaped(before) && ShapedTree(b) && Shaped(after) && Shaped(before + after)
  {
    var cs := before + [b] + after;
    assert cs[|before|] == b;
    forall i | 0 <= i < |before| ensures ShapedTree(before[i]) {
      assert cs[i] == before[i];
    }
    forall i | 0 <= i < |after| ensures ShapedTree(after[i]) {
      assert cs[|before| + 1 + i] == after[i];
    }
  }

  // ----- Containers whose blocks can be read in any order -----

  /** Blocks that share a merge key blend. */
  ghost predicate AllBlend(ts: seq<Tree>) {
    forall x, y :: x in ts && y in ts && x != y && KeyOf(x) == KeyOf(y) ==> Blends(x, y)
  }

  /** Below the blocks, siblings that share a merge key are alike. */
  ghost predicate KidsCoherent(ts: seq<Tree>) {
    forall i :: 0 <= i < |ts| ==> Coherent(ts[i].kids)
  }

  ghost predicate OrderFree(ts: seq<Tree>) {
    AllBlend(ts) && KidsCoherent(ts)
  }

  lemma OrderFreeSwaps(ts: seq<Tree>)
    requires OrderFree(ts)
    ensures AllSwap(ts)
  {
  }

  lemma DistinctOrderFree(ts: seq<Tree>)
    requires Distinct(ts)
    ensures OrderFree(ts)
  {
    DistinctCoherent(ts);
  }

  /** The blocks of one container in the order of the other. */
  lemma {:induction false} Align(ts: seq<Tree>, us: seq<Tree>) returns (vs: seq<Tree>)
    requires AlikeForest(ts, us)
    ensures multiset(vs) == multiset(ts) && |vs| == |us| && forall i :: 0 <= i < |us| ==> Alike(vs[i], us[i])
    decreases |us|
  {
    if us == [] {
      SortsEqual(ts, us);
      SortEachAt(ts);
      assert |SortEach(ts)| == |multiset(SortEach(ts))| == 0;
      vs := [];
    } else {
      var j := PartnerOf(us, 0, ts);
      MatchHead(us, ts, j);
      var rest := Align(Without(ts, j), us[1..]);
      vs := [ts[j]] + rest;
      WithoutContents(ts, j);
      HeadContents(vs);
      forall i | 0 <= i < |us| ensures Alike(vs[i], us[i]) {
        if i > 0 {
          assert Alike(rest[i - 1], us[1..][i - 1]);
        }
      }
    }
  }

  /** Merging in containers whose blocks can be read in any order. */
  lemma MergeOrderFree(n: nat, ts: seq<Tree>, us: seq<Tree>, bs: seq<Tree>, cs: seq<Tree>)
    requires Kin(n, ts, us) && Shaped(ts) && Shaped(us)
    requires OrderFree(bs) && Shaped(bs) && AlikeForest(bs, cs)
    ensures Kin(n, Merge(ts, bs), Merge(us, cs))
  {
    var vs := Align(bs, cs);
    AlikeShaped(bs, cs);
    ShapedContents(bs, vs);
    OrderFreeSwaps(bs);
    PermuteKin(n, ts, bs, vs);
    KinSymmetric(n, Merge(ts, vs), Merge(ts, bs));
    forall i | 0 <= i < |vs| ensures KinTree(n, vs[i], cs[i]) {
      assert vs[i] in multiset(bs);
      CoherentTreeKin(n, vs[i], cs[i]);
    }
    EachKin(n, vs, cs);
    MergeKin(n, ts, us, vs, cs);
    KinTransitive(n, Merge(ts, bs), Merge(ts, vs), Merge(us, cs));
  }

  lemma ShapedContents(ts: seq<Tree>, us: seq<Tree>)
    requires multiset(ts) == multiset(us) && Shaped(ts)
    ensures Shaped(us)
  {
    forall i | 0 <= i < |us| ensures ShapedTree(us[i]) {
      assert us[i] in multiset(ts);
    }
  }

  /** Shuffling coherent blocks, and merging in blocks that can be read in any order, shuffled, only
      shuffles the result. */
  lemma MergeShuffled(ts: seq<Tree>, us: seq<Tree>, bs: seq<Tree>, cs: seq<Tree>)
    requires Coherent(ts) && Shaped(ts) && ShuffledForest(ts, us)
    requires OrderFree(bs) && Shaped(bs) && ShuffledForest(bs, cs)
    ensures ShuffledForest(Merge(ts, bs), Merge(us, cs))
  {
    ShuffledForestSorts(ts, us);
    ShuffledForestSorts(bs, cs);
    AlikeShaped(ts, us);
    forall n: nat ensures Kin(n, Merge(ts, bs), Merge(us, cs)) {
      CoherentKin(n, ts, us);
      MergeOrderFree(n, ts, us, bs, cs);
    }
    KinAlike(Merge(ts, bs), Merge(us, cs));
    ShuffledForestSorts(Merge(ts, bs), Merge(us, cs));
  }

  /** Two readings of the same sources: one of a kind that has one reading only, or in another order. */
  ghost predicate Rereads(sources: seq<seq<Tree>>, others: seq<seq<Tree>>) {
    && |sources| == |others|
    && forall i :: 0 <= i < |sources| ==>
         && Shaped(sources[i])
         && (sources[i] == others[i] || (OrderFree(sources[i]) && AlikeForest(sources[i], others[i])))
  }

  lemma {:induction false} AccumulateKin(n: nat, ts: seq<Tree>, us: seq<Tree>, sources: seq<seq<Tree>>,
                                         others: seq<seq<Tree>>)
    requires Kin(n, ts, us) && Shaped(ts) && Shaped(us) && Rereads(sources, others)
    ensures Kin(n, Accumulate(ts, sources), Accumulate(us, others))
    decreases |sources|
  {
    if sources != [] {
      var b, c := sources[0], others[0];
      if b == c {
        KinSuffix(n, ts, us, b);
      } else {
        AlikeShaped(b, c);
        MergeOrderFree(n, ts, us, b, c);
      }
      MergeShaped(ts, b);
      MergeShaped(us, c);
      assert Rereads(sources[1..], others[1..]);
      AccumulateKin(n, Merge(ts, b), Merge(us, c), sources[1..], others[1..]);
    }
  }

  /** What is accumulated is the same, up to the order of siblings. */
  lemma AccumulateAlike(sources: seq<seq<Tree>>, others: seq<seq<Tree>>)
    requires Rereads(sources, others)
    ensures AlikeForest(Accumulate([], sources), Accumulate([], others))
  {
    forall n: nat ensures Kin(n, Accumulate([], sources), Accumulate([], others)) {
      KinReflexive(n, []);
      AccumulateKin(n, [], [], sources, others);
    }
    KinAlike(Accumulate([], sources), Accumulate([], others));
  }
}
