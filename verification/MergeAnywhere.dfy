/** Exactly which containers can be read in any order, whatever they are merged into and whatever is merged in
    after them: as GenerateCaddyfile accumulates its sources. */
module MergeAnywhere {
  import opened Seqs
  import opened Trees
  import opened Sorting
  import opened Writing
  import opened RoundTrips
  import opened NormalForms
  import opened Merging
  import opened MergeLaws
  import opened MergeShuffles
  import opened MergeOrders
  import opened MergeExact

  /** Orders that depend on nothing but the merge key. */
  type Orders = MergeKey -> int

  predicate OrdersAre(o: Orders, ts: seq<Tree>) {
    forall i :: 0 <= i < |ts| ==> ts[i].order == o(KeyOf(ts[i])) && OrdersAre(o, ts[i].kids)
  }

  /** What is merged before and after: any containers of the proxy shape; or, if there is an `o`, the
      well-formed ones whose Orders it gives. */
  ghost predicate Fits(o: Option<Orders>, ts: seq<Tree>) {
    Shaped(ts) && (o.Some? ==> WellFormed(ts) && OrdersAre(o.value, ts))
  }

  function OrderIn(o: Option<Orders>, k: MergeKey): int {
    if o.Some? then o.value(k) else 0
  }

  /** A block with the same keys and other children. */
  function Carrier(o: Option<Orders>, a: Tree, more: seq<Tree>): Tree {
    Node(OrderIn(o, KeyOf(a)), a.keys, more)
  }

  ghost predicate AllFit(o: Option<Orders>, sources: seq<seq<Tree>>) {
    forall i :: 0 <= i < |sources| ==> Fits(o, sources[i])
  }

  /** The source between others, all of them accumulated. */
  function Among(before: seq<seq<Tree>>, bs: seq<Tree>, after: seq<seq<Tree>>): seq<Tree> {
    Accumulate([], before + ([bs] + after))
  }

  /** Every order of the blocks makes the same container, up to the order of siblings, whatever sources are
      merged before and after them. */
  ghost predicate AnyOrderAnywhere(o: Option<Orders>, bs: seq<Tree>) {
    forall before, cs, after :: AllFit(o, before) && AllFit(o, after) && ShuffledForest(bs, cs) ==>
      ShuffledForest(Among(before, bs, after), Among(before, cs, after))
  }

  lemma AmongNothing(bs: seq<Tree>, more: seq<Tree>)
    ensures Among([], bs, []) == Merge([], bs)
    ensures Among([], bs, [more]) == Merge([], bs + more)
  {
    assert [] + ([bs] + []) == [bs] && [bs][1..] == [];
    assert [] + ([bs] + [more]) == [bs, more] && [bs, more][1..] == [more] && [more][1..] == [];
    assert Accumulate(Merge([], bs), []) == Merge([], bs);
    assert Accumulate(Merge(Merge([], bs), more), []) == Merge(Merge([], bs), more);
    assert Accumulate(Merge([], bs), [more]) == Merge(Merge([], bs), more);
    MergeConcat([], bs, more);
  }

  lemma FitsMember(o: Option<Orders>, ts: seq<Tree>, a: Tree)
    requires Fits(o, ts) && a in ts
    ensures Fits(o, [a]) && Fits(o, a.kids) && ShapedTree(a)
  {
    var i :| 0 <= i < |ts| && ts[i] == a;
    WellFormedAll(ts);
    WellFormedAll([a]);
    assert ShapedTree(ts[i]);
  }

  lemma FitsBlock(o: Option<Orders>, a: Tree, more: seq<Tree>)
    requires Fits(o, [a]) && Fits(o, more) && more != []
    ensures var b := Carrier(o, a, more);
            Fits(o, [b]) && ShapedTree(b) && KeyOf(b) == KeyOf(a)
  {
    var b := Carrier(o, a, more);
    assert ShapedTree([a][0]);
    WellFormedAll([a]);
    WellFormedAll([b]);
    assert o.Some? ==> WellFormedTree([a][0]);
  }

  lemma AnywhereAlike(o: Option<Orders>, bs: seq<Tree>, cs: seq<Tree>, more: seq<Tree>)
    requires AnyOrderAnywhere(o, bs) && AlikeForest(bs, cs) && Fits(o, more)
    ensures AlikeForest(Merge([], bs + more), Merge([], cs + more))
  {
    ShuffledForestSorts(bs, cs);
    AmongNothing(bs, more);
    AmongNothing(cs, more);
    assert AllFit(o, []) && AllFit(o, [more]);
    ShuffledForestSorts(Among([], bs, [more]), Among([], cs, [more]));
  }

  // ----- A block that was not there before -----

  /** Keys longer than those of any block. */
  function NewKeys(ts: seq<Tree>): (keys: seq<string>)
    ensures |keys| == Weight(ts) + 1 && keys[0] == "x"
  {
    seq(Weight(ts) + 1, _ => "x")
  }

  function NewBlock(o: Option<Orders>, ts: seq<Tree>): Tree {
    Node(OrderIn(o, Plain(NewKeys(ts))), NewKeys(ts), [])
  }

  lemma NewFits(o: Option<Orders>, ts: seq<Tree>)
    ensures Fits(o, [NewBlock(o, ts)])
  {
    var b := NewBlock(o, ts);
    assert Shaped([b]) by { assert ShapedTree(b); }
    assert Printable("x");
    WellFormedAll([b]);
  }

  lemma {:induction false} NewClass(ts: seq<Tree>, n: nat)
    requires n > Weight(ts)
    ensures Class(ts, Plain(seq(n, _ => "x"))) == []
    decreases |ts|
  {
    if ts != [] {
      NewClass(ts[1..], n);
      assert |seq(n, _ => "x")| == n > |ts[0].keys|;
    }
  }

  /** A container to which a new block was added is not alike the one without it. */
  lemma NewAdded(o: Option<Orders>, ts: seq<Tree>, more: seq<Tree>)
    requires Shaped(ts) && Shaped(more) && NewBlock(o, ts) in more
    ensures !AlikeForest(Merge(ts, more), ts)
  {
    var k := KeyOf(NewBlock(o, ts));
    NewClass(ts, Weight(ts) + 1);
    ClassMembers(more, k);
    ClassMerge(ts, more, k);
    ClassOneKey(more, k);
    ClassShaped(more, k);
    MergedClass(k, [], Class(more, k));
    if AlikeForest(Merge(ts, more), ts) {
      AlikeClass(Merge(ts, more), ts, k);
    }
  }

  // ----- Children whose order must not matter -----

  /** Whatever is merged in after `rest`, the order of the first blocks does not matter. */
  ghost predicate Stays(o: Option<Orders>, xs: seq<Tree>, rest: seq<Tree>) {
    forall vs, more :: AlikeForest(xs, vs) && Fits(o, more) && more != [] ==>
      AlikeForest(Merge(xs, rest + more), Merge(vs, rest + more))
  }

  lemma StaysBetween(o: Option<Orders>, xs: seq<Tree>, rest: seq<Tree>, us: seq<Tree>, vs: seq<Tree>, more: seq<Tree>)
    requires Stays(o, xs, rest) && AlikeForest(xs, us) && AlikeForest(xs, vs) && Fits(o, more) && more != []
    ensures AlikeForest(Merge(us, rest + more), Merge(vs, rest + more))
  {
    assert AlikeForest(Merge(xs, rest + more), Merge(us, rest + more));
    assert AlikeForest(Merge(xs, rest + more), Merge(vs, rest + more));
  }

  /** What becomes of the blocks with the merge key of the first one. */
  lemma FirstOfClass(x: Tree, others: seq<Tree>, rest: seq<Tree>, b: Tree)
    requires ShapedTree(x) && Shaped(others) && Shaped(rest) && ShapedTree(b) && KeyOf(b) == KeyOf(x)
    ensures var k := KeyOf(x);
            Class(Merge([x] + others, rest + [b]), k) == [Folded(x, Class(rest, k) + [b])] + Class(others, k)
  {
    var k := KeyOf(x);
    ShapedConcat([x], others);
    ShapedConcat(rest, [b]);
    ClassMerge([x] + others, rest + [b], k);
    ClassCons(x, others, k);
    ClassConcat(rest, [b], k);
    ClassCons(b, [], k);
    assert [b] + [] == [b];
    ClassOneKey(others, k);
    ClassOneKey(rest, k);
    ClassShaped(rest, k);
    ShapedConcat(Class(rest, k), [b]);
    FoldHead(x, Class(others, k), Class(rest, k) + [b]);
  }

  lemma {:induction false} KidsConcat(a: seq<Tree>, b: seq<Tree>)
    ensures KidsOf(a + b) == KidsOf(a) + KidsOf(b)
    decreases |a|
  {
    if a == [] {
      assert a + b == b;
    } else {
      assert (a + b)[1..] == a[1..] + b;
      KidsConcat(a[1..], b);
      ConcatAssociative(a[0].kids, KidsOf(a[1..]), KidsOf(b));
    }
  }

  lemma CancelAlike(t: Tree, u: Tree, others: seq<Tree>)
    requires AlikeForest([t] + others, [u] + others)
    ensures Alike(t, u)
  {
    SortsEqual([t] + others, [u] + others);
    assert ([t] + others)[1..] == others && ([u] + others)[1..] == others;
    var rest := SortEach(others);
    HeadContents(SortEach([t] + others));
    HeadContents(SortEach([u] + others));
    assert multiset{SortTree(t)} + multiset(rest) == multiset{SortTree(u)} + multiset(rest);
    CancelRest(SortTree(t), SortTree(u), multiset(rest));
  }

  lemma CancelRest<T>(x: T, y: T, m: multiset<T>)
    requires multiset{x} + m == multiset{y} + m
    ensures x == y
  {
    assert (multiset{x} + m)[x] == (multiset{y} + m)[x];
  }

  lemma ToFront(ts: seq<Tree>, x: Tree) returns (others: seq<Tree>)
    requires Shaped(ts) && x in ts
    ensures ShapedTree(x) && Shaped(others) && AlikeForest(ts, [x] + others)
  {
    assert x in multiset(ts);
    others := OneFirst(ts, x);
    PermutedAlike(ts, [x] + others);
    ShapedContents(ts, [x] + others);
    assert [] + [x] + others == [x] + others;
    ShapedParts([], x, others);
  }

  /** The children of a block, if the order of the blocks does not matter. */
  lemma KidsStay(o: Option<Orders>, xs: seq<Tree>, rest: seq<Tree>, a: Tree)
    requires Stays(o, xs, rest) && Fits(o, xs) && Shaped(rest) && a in xs
    ensures Stays(o, a.kids, KidsOf(Class(rest, KeyOf(a)))) && Fits(o, a.kids)
  {
    var k := KeyOf(a);
    var others := ToFront(xs, a);
    FitsMember(o, xs, a);
    var below := KidsOf(Class(rest, k));
    forall ks, more | AlikeForest(a.kids, ks) && Fits(o, more) && more != []
      ensures AlikeForest(Merge(a.kids, below + more), Merge(ks, below + more))
    {
      KidsStayFor(o, xs, rest, a, others, ks, more);
    }
  }

  lemma KidsStayFor(o: Option<Orders>, xs: seq<Tree>, rest: seq<Tree>, a: Tree, others: seq<Tree>, ks: seq<Tree>,
                    more: seq<Tree>)
    requires Stays(o, xs, rest) && Shaped(rest) && ShapedTree(a) && Shaped(others) && AlikeForest(xs, [a] + others)
    requires AlikeForest(a.kids, ks) && Fits(o, [a]) && Fits(o, more) && more != []
    ensures var below := KidsOf(Class(rest, KeyOf(a)));
            AlikeForest(Merge(a.kids, below + more), Merge(ks, below + more))
  {
    var k := KeyOf(a);
    var a', b := Node(a.order, a.keys, ks), Carrier(o, a, more);
    FitsBlock(o, a, more);
    AlikeShaped(a.kids, ks);
    AlikeReplaced(a, a', others);
    StaysBetween(o, xs, rest, [a] + others, [a'] + others, [b]);
    FirstOfClass(a, others, rest, b);
    FirstOfClass(a', others, rest, b);
    AlikeClass(Merge([a] + others, rest + [b]), Merge([a'] + others, rest + [b]), k);
    var all := Class(rest, k) + [b];
    CancelAlike(Folded(a, all), Folded(a', all), Class(others, k));
    AlikeHeader(Folded(a, all), Folded(a', all));
    KidsConcat(Class(rest, k), [b]);
    assert KidsOf([b]) == more + [] == more;
  }

  lemma AlikeReplaced(t: Tree, u: Tree, others: seq<Tree>)
    requires Alike(t, u)
    ensures AlikeForest([t] + others, [u] + others)
  {
    assert ([t] + others)[1..] == others && ([u] + others)[1..] == others;
  }

  lemma CrossAlike(t: Tree, a: Tree, u: Tree, b: Tree, others: seq<Tree>)
    requires AlikeForest([t] + ([b] + others), [u] + ([a] + others))
    ensures Alike(a, b) || Alike(a, t)
  {
    var us, vs := [t] + ([b] + others), [u] + ([a] + others);
    HeadContents(SortEach(us));
    HeadContents(SortEach([b] + others));
    HeadContents(SortEach(vs));
    HeadContents(SortEach([a] + others));
    SortsEqual(us, vs);
    assert us[1..] == [b] + others && ([b] + others)[1..] == others;
    assert vs[1..] == [a] + others && ([a] + others)[1..] == others;
    CancelCross(SortTree(t), SortTree(b), SortTree(u), SortTree(a), multiset(SortEach(others)));
  }

  lemma CancelCross<T>(t: T, b: T, u: T, a: T, m: multiset<T>)
    requires multiset{t} + (multiset{b} + m) == multiset{u} + (multiset{a} + m)
    ensures a == b || a == t
  {
    assert (multiset{t} + (multiset{b} + m))[a] == (multiset{u} + (multiset{a} + m))[a];
  }

  lemma NotUnchanged(o: Option<Orders>, a: Tree, rest: seq<Tree>)
    requires ShapedTree(a) && Shaped(rest)
    ensures !Alike(a, Folded(a, rest + [Carrier(o, a, [NewBlock(o, a.kids)])]))
  {
    var kid := NewBlock(o, a.kids);
    var b := Carrier(o, a, [kid]);
    KidsConcat(rest, [b]);
    assert KidsOf([b]) == [kid] + [] == [kid];
    KidsShaped(rest);
    NewFits(o, a.kids);
    ShapedConcat(KidsOf(rest), [kid]);
    var more := KidsOf(rest) + [kid];
    assert more[|KidsOf(rest)|] == kid;
    NewAdded(o, a.kids, more);
    if Alike(a, Folded(a, rest + [b])) {
      AlikeHeader(a, Folded(a, rest + [b]));
    }
  }

  /** Wherever block d is merged into block a, a is changed. */
  ghost predicate Shows(d: Tree, a: Tree) {
    forall rest :: Shaped(rest) ==> !Alike(a, Folded(a, rest + [d]))
  }

  lemma SomethingNew(o: Option<Orders>, a: Tree) returns (d: Tree)
    requires Fits(o, [a]) && ShapedTree(a)
    ensures Fits(o, [d]) && ShapedTree(d) && KeyOf(d) == KeyOf(a) && Shows(d, a)
  {
    NewFits(o, a.kids);
    FitsBlock(o, a, [NewBlock(o, a.kids)]);
    d := Carrier(o, a, [NewBlock(o, a.kids)]);
    forall rest | Shaped(rest) ensures !Alike(a, Folded(a, rest + [d])) {
      NotUnchanged(o, a, rest);
    }
  }

  /** Siblings that share a merge key are alike: something new merged in shows which of them came first. */
  lemma PairAlike(o: Option<Orders>, xs: seq<Tree>, rest: seq<Tree>, a: Tree, b: Tree)
    requires Stays(o, xs, rest) && Fits(o, xs) && Shaped(rest) && a in xs && b in xs && KeyOf(a) == KeyOf(b)
    ensures Alike(a, b)
  {
    if a != b {
      var others := TwoFirst(xs, a, b);
      var us, vs := [a] + ([b] + others), [b] + ([a] + others);
      PermutedAlike(xs, us);
      PermutedAlike(xs, vs);
      ShapedContents(xs, us);
      ShapedFront(a, b, others);
      FitsMember(o, xs, a);
      var d := SomethingNew(o, a);
      StaysBetween(o, xs, rest, us, vs, [d]);
      PairFirst(a, b, others, rest, d);
    }
  }

  lemma TwoOfClass(a: Tree, b: Tree, others: seq<Tree>, rest: seq<Tree>, d: Tree)
    requires ShapedTree(a) && ShapedTree(b) && Shaped(others) && Shaped(rest) && ShapedTree(d)
    requires KeyOf(a) == KeyOf(b) == KeyOf(d)
    ensures var k := KeyOf(a);
            Class(Merge([a] + ([b] + others), rest + [d]), k)
            == [Folded(a, Class(rest, k) + [d])] + ([b] + Class(others, k))
  {
    ShapedConcat([b], others);
    FirstOfClass(a, [b] + others, rest, d);
    ClassCons(b, others, KeyOf(a));
  }

  lemma PairFirst(a: Tree, b: Tree, others: seq<Tree>, rest: seq<Tree>, d: Tree)
    requires ShapedTree(a) && ShapedTree(b) && Shaped(others) && Shaped(rest) && KeyOf(a) == KeyOf(b)
    requires ShapedTree(d) && KeyOf(d) == KeyOf(a) && Shows(d, a)
    requires AlikeForest(Merge([a] + ([b] + others), rest + [d]), Merge([b] + ([a] + others), rest + [d]))
    ensures Alike(a, b)
  {
    var k := KeyOf(a);
    TwoOfClass(a, b, others, rest, d);
    TwoOfClass(b, a, others, rest, d);
    AlikeClass(Merge([a] + ([b] + others), rest + [d]), Merge([b] + ([a] + others), rest + [d]), k);
    var all := Class(rest, k) + [d];
    CrossAlike(Folded(a, all), a, Folded(b, all), b, Class(others, k));
    ClassShaped(rest, k);
  }

  lemma {:induction false} MustCohere(o: Option<Orders>, xs: seq<Tree>, rest: seq<Tree>)
    requires Stays(o, xs, rest) && Fits(o, xs) && Shaped(rest)
    ensures Coherent(xs)
    decreases xs
  {
    forall i, j | 0 <= i < |xs| && 0 <= j < |xs| && KeyOf(xs[i]) == KeyOf(xs[j]) ensures Alike(xs[i], xs[j]) {
      PairAlike(o, xs, rest, xs[i], xs[j]);
    }
    forall i | 0 <= i < |xs| ensures Coherent(xs[i].kids) {
      KidsStay(o, xs, rest, xs[i]);
      ClassShaped(rest, KeyOf(xs[i]));
      KidsShaped(Class(rest, KeyOf(xs[i])));
      MustCohere(o, xs[i].kids, KidsOf(Class(rest, KeyOf(xs[i]))));
    }
  }

  // ----- The exact condition -----

  /** The children of a block that is the first with its merge key. */
  lemma FirstKidsStay(o: Option<Orders>, bs: seq<Tree>, x: Tree) returns (below: seq<Tree>)
    requires AnyOrderAnywhere(o, bs) && Fits(o, bs) && x in bs
    ensures Fits(o, x.kids) && Shaped(below) && Stays(o, x.kids, below)
  {
    var k := KeyOf(x);
    var others := ToFront(bs, x);
    below := KidsOf(Class(others, k));
    ClassShaped(others, k);
    KidsShaped(Class(others, k));
    FitsMember(o, bs, x);
    forall ks, more | AlikeForest(x.kids, ks) && Fits(o, more) && more != []
      ensures AlikeForest(Merge(x.kids, below + more), Merge(ks, below + more))
    {
      FirstKidsFor(o, bs, x, others, ks, more);
    }
  }

  lemma FirstKidsFor(o: Option<Orders>, bs: seq<Tree>, x: Tree, others: seq<Tree>, ks: seq<Tree>, more: seq<Tree>)
    requires AnyOrderAnywhere(o, bs) && AlikeForest(bs, [x] + others) && Fits(o, [x]) && Fits(o, more) && more != []
    requires ShapedTree(x) && Shaped(others) && AlikeForest(x.kids, ks)
    ensures var below := KidsOf(Class(others, KeyOf(x)));
            AlikeForest(Merge(x.kids, below + more), Merge(ks, below + more))
  {
    var k := KeyOf(x);
    var x', b := Node(x.order, x.keys, ks), Carrier(o, x, more);
    FitsBlock(o, x, more);
    AlikeShaped(x.kids, ks);
    AlikeReplaced(x, x', others);
    AnywhereAlike(o, bs, [x] + others, [b]);
    AnywhereAlike(o, bs, [x'] + others, [b]);
    ConcatAssociative([x], others, [b]);
    ConcatAssociative([x'], others, [b]);
    ShapedConcat(others, [b]);
    FirstClass(x, others + [b]);
    FirstClass(x', others + [b]);
    ClassConcat(others, [b], k);
    ClassCons(b, [], k);
    assert [b] + [] == [b];
    AlikeClass(Merge([], [x] + (others + [b])), Merge([], [x'] + (others + [b])), k);
    var all := Class(others, k) + [b];
    AlikeSingles(Folded(x, all), Folded(x', all));
    AlikeHeader(Folded(x, all), Folded(x', all));
    KidsConcat(Class(others, k), [b]);
    assert KidsOf([b]) == more + [] == more;
  }

  lemma AnywhereMerges(o: Option<Orders>, bs: seq<Tree>)
    requires AnyOrderAnywhere(o, bs)
    ensures AnyOrderMerges(bs)
  {
    forall cs | ShuffledForest(bs, cs) ensures ShuffledForest(Merge([], bs), Merge([], cs)) {
      AmongNothing(bs, []);
      AmongNothing(cs, []);
      assert AllFit(o, []);
    }
  }

  lemma OrderFreeAnywhere(o: Option<Orders>, bs: seq<Tree>, before: seq<seq<Tree>>, cs: seq<Tree>,
                          after: seq<seq<Tree>>)
    requires OrderFree(bs) && Shaped(bs) && AllFit(o, before) && AllFit(o, after) && AlikeForest(bs, cs)
    ensures AlikeForest(Among(before, bs, after), Among(before, cs, after))
  {
    AmongRereads(o, bs, before, cs, after);
    AccumulateAlike(before + ([bs] + after), before + ([cs] + after));
  }

  lemma FitShaped(o: Option<Orders>, sources: seq<seq<Tree>>)
    requires AllFit(o, sources)
    ensures forall i :: 0 <= i < |sources| ==> Shaped(sources[i])
  {
    forall i | 0 <= i < |sources| ensures Shaped(sources[i]) {
      assert Fits(o, sources[i]);
    }
  }

  lemma AmongRereads(o: Option<Orders>, bs: seq<Tree>, before: seq<seq<Tree>>, cs: seq<Tree>, after: seq<seq<Tree>>)
    requires OrderFree(bs) && Shaped(bs) && AllFit(o, before) && AllFit(o, after) && AlikeForest(bs, cs)
    ensures Rereads(before + ([bs] + after), before + ([cs] + after))
  {
    FitShaped(o, before);
    FitShaped(o, after);
    Reread(bs, cs, after);
    Unread(before, [bs] + after, [cs] + after);
  }

  lemma Reread(bs: seq<Tree>, cs: seq<Tree>, after: seq<seq<Tree>>)
    requires OrderFree(bs) && Shaped(bs) && AlikeForest(bs, cs)
    requires forall i :: 0 <= i < |after| ==> Shaped(after[i])
    ensures Rereads([bs] + after, [cs] + after)
  {
  }

  lemma Unread(before: seq<seq<Tree>>, sources: seq<seq<Tree>>, others: seq<seq<Tree>>)
    requires Rereads(sources, others) && forall i :: 0 <= i < |before| ==> Shaped(before[i])
    ensures Rereads(before + sources, before + others)
  {
  }

  /** A container can be read in any order, whatever sources are merged before and after it, if and only if blocks
      that share a merge key blend and, below them, siblings that share a merge key are alike. */
  lemma AnywhereExact(o: Option<Orders>, bs: seq<Tree>)
    requires Fits(o, bs)
    ensures OrderFree(bs) <==> AnyOrderAnywhere(o, bs)
  {
    if OrderFree(bs) {
      forall before, cs, after | AllFit(o, before) && AllFit(o, after) && ShuffledForest(bs, cs)
        ensures ShuffledForest(Among(before, bs, after), Among(before, cs, after))
      {
        ShuffledForestSorts(bs, cs);
        OrderFreeAnywhere(o, bs, before, cs, after);
        ShuffledForestSorts(Among(before, bs, after), Among(before, cs, after));
      }
    }
    if AnyOrderAnywhere(o, bs) {
      AnywhereMerges(o, bs);
      forall i | 0 <= i < |bs| ensures Coherent(bs[i].kids) {
        var below := FirstKidsStay(o, bs, bs[i]);
        MustCohere(o, bs[i].kids, below);
      }
      forall x, y | x in bs && y in bs && x != y && KeyOf(x) == KeyOf(y) ensures Blends(x, y) {
        KidsCoherentAt(bs, x);
        KidsCoherentAt(bs, y);
        MustBlend(bs, x, y);
      }
    }
  }
}
