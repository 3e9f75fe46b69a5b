/** When the order of the blocks shows in the text: for well-formed blocks whose Orders depend on the merge key
    only, whenever it shows in the merged tree. */
module MergeTexts {
  import opened Seqs
  import opened Lexing
  import opened Trees
  import opened Sorting
  import opened Writing
  import opened Parsing
  import opened RoundTrips
  import opened NormalForms
  import opened Merging
  import opened MergeLaws
  import opened MergeShuffles
  import opened MergeOrders
  import opened MergeExact
  import opened MergeAnywhere

  // ----- The text determines the blocks, up to Orders -----

  lemma WriteInjective(ts: seq<Tree>, us: seq<Tree>)
    requires WellFormed(ts) && WellFormed(us) && WriteForest(ts, 0) == WriteForest(us, 0)
    ensures Reindex(0, ts) == Reindex(0, us)
  {
    ReadForest(Start(), Begin(), ts, 0);
    ReadForest(Start(), Begin(), us, 0);
    AddAllAtRoot([], Reindex(0, ts));
    AddAllAtRoot([], Reindex(0, us));
    assert [] + Reindex(0, ts) == Reindex(0, ts) && [] + Reindex(0, us) == Reindex(0, us);
  }

  lemma {:induction false} ReindexInjective(o: Orders, n: nat, ts: seq<Tree>, us: seq<Tree>)
    requires OrdersAre(o, ts) && OrdersAre(o, us) && Reindex(n, ts) == Reindex(n, us)
    ensures ts == us
    decreases ts
  {
    ReindexAt(n, ts);
    ReindexAt(n, us);
    forall i | 0 <= i < |ts| ensures ts[i] == us[i] {
      assert ReindexTree(n + i, ts[i]) == ReindexTree(n + i, us[i]);
      ReindexInjective(o, 0, ts[i].kids, us[i].kids);
    }
  }

  lemma {:induction false} AlikeOrders(o: Orders, ts: seq<Tree>, us: seq<Tree>)
    requires AlikeForest(ts, us) && OrdersAre(o, ts)
    ensures OrdersAre(o, us)
    decreases ts
  {
    forall j | 0 <= j < |us| ensures us[j].order == o(KeyOf(us[j])) && OrdersAre(o, us[j].kids) {
      var i := PartnerOf(us, j, ts);
      AlikeHeader(us[j], ts[i]);
      AlikeOrders(o, ts[i].kids, us[j].kids);
    }
  }

  lemma {:induction false} AlikeWellFormed(ts: seq<Tree>, us: seq<Tree>)
    requires AlikeForest(ts, us) && WellFormed(ts)
    ensures WellFormed(us)
    decreases ts
  {
    WellFormedAll(ts);
    forall j | 0 <= j < |us| ensures WellFormedTree(us[j]) {
      var i := PartnerOf(us, j, ts);
      AlikeHeader(us[j], ts[i]);
      AlikeWellFormed(ts[i].kids, us[j].kids);
      SortEmpty(ts[i].kids);
      SortEmpty(us[j].kids);
    }
    WellFormedAll(us);
  }

  lemma SortedAlike(ts: seq<Tree>)
    ensures AlikeForest(ts, SortForest(ts))
  {
    SortForestCorrect(ts);
    SortForestIdentity(SortForest(ts));
  }

  /** Well-formed containers with the same Orders for the same merge keys have the same text exactly when they
      are alike. */
  lemma TextExact(o: Orders, ts: seq<Tree>, us: seq<Tree>)
    requires WellFormed(ts) && WellFormed(us) && OrdersAre(o, ts) && OrdersAre(o, us)
    ensures Marshal(ts) == Marshal(us) <==> AlikeForest(ts, us)
  {
    if Marshal(ts) == Marshal(us) {
      SortWellFormed(ts);
      SortWellFormed(us);
      WriteInjective(SortForest(ts), SortForest(us));
      SortedAlike(ts);
      SortedAlike(us);
      AlikeOrders(o, ts, SortForest(ts));
      AlikeOrders(o, us, SortForest(us));
      ReindexInjective(o, 0, SortForest(ts), SortForest(us));
    }
  }

  // ----- Merging well-formed containers -----

  lemma {:induction false} MergeNotEmpty(ts: seq<Tree>, bs: seq<Tree>)
    ensures |Merge(ts, bs)| >= |ts|
    decreases |bs|
  {
    if bs != [] {
      MergeNotEmpty(MergeOne(ts, bs[0]), bs[1..]);
    }
  }

  lemma {:induction false} MergeBlockTextual(o: Orders, a: Tree, b: Tree)
    requires KeyOf(a) == KeyOf(b) && WellFormedTree(a) && WellFormedTree(b) && ShapedTree(a) && ShapedTree(b)
    requires a.order == o(KeyOf(a)) && OrdersAre(o, a.kids) && OrdersAre(o, b.kids)
    ensures var m := MergeBlock(a, b); WellFormedTree(m) && m.order == o(KeyOf(m)) && OrdersAre(o, m.kids)
    decreases b, 0
  {
    MergedBlock(a, b);
    MergeBlockShape(a, b);
    MergeTextual(o, a.kids, b.kids);
    MergeNotEmpty(a.kids, b.kids);
  }

  lemma {:induction false} MergeOneTextual(o: Orders, ts: seq<Tree>, b: Tree)
    requires Fits(Some(o), ts) && WellFormedTree(b) && ShapedTree(b)
    requires b.order == o(KeyOf(b)) && OrdersAre(o, b.kids)
    ensures Fits(Some(o), MergeOne(ts, b))
    decreases b, 1
  {
    WellFormedAll(ts);
    WellFormedAll(MergeOne(ts, b));
    MergeOneShaped(ts, b);
    var i := FirstMatch(ts, b);
    if i < |ts| {
      assert ShapedTree(ts[i]);
      MatchesKeys(ts[i], b);
      MergeBlockTextual(o, ts[i], b);
    }
  }

  lemma {:induction false} MergeTextual(o: Orders, ts: seq<Tree>, bs: seq<Tree>)
    requires Fits(Some(o), ts) && Fits(Some(o), bs)
    ensures Fits(Some(o), Merge(ts, bs))
    decreases bs, 0
  {
    if bs != [] {
      assert ShapedTree(bs[0]);
      MergeOneTextual(o, ts, bs[0]);
      MergeTextual(o, MergeOne(ts, bs[0]), bs[1..]);
    }
  }

  lemma {:induction false} AccumulateTextual(o: Orders, ts: seq<Tree>, sources: seq<seq<Tree>>)
    requires Fits(Some(o), ts) && AllFit(Some(o), sources)
    ensures Fits(Some(o), Accumulate(ts, sources))
    decreases |sources|
  {
    if sources != [] {
      assert Fits(Some(o), sources[0]);
      MergeTextual(o, ts, sources[0]);
      AccumulateTextual(o, Merge(ts, sources[0]), sources[1..]);
    }
  }

  // ----- Texts -----

  lemma ShuffledFits(o: Orders, bs: seq<Tree>, cs: seq<Tree>)
    requires Fits(Some(o), bs) && ShuffledForest(bs, cs)
    ensures Fits(Some(o), cs)
  {
    ShuffledForestSorts(bs, cs);
    AlikeOrders(o, bs, cs);
    AlikeWellFormed(bs, cs);
    AlikeShaped(bs, cs);
  }

  lemma AmongTextual(o: Orders, before: seq<seq<Tree>>, bs: seq<Tree>, after: seq<seq<Tree>>)
    requires AllFit(Some(o), before) && Fits(Some(o), bs) && AllFit(Some(o), after)
    ensures Fits(Some(o), Among(before, bs, after))
  {
    AccumulateTextual(o, [], before + ([bs] + after));
  }

  /** Every order of the blocks gives the same text, whatever sources are merged before and after them. */
  ghost predicate SameTextAnywhere(o: Orders, bs: seq<Tree>) {
    forall before, cs, after :: AllFit(Some(o), before) && AllFit(Some(o), after) && ShuffledForest(bs, cs) ==>
      Marshal(Among(before, bs, after)) == Marshal(Among(before, cs, after))
  }

  ghost predicate SameTextAlone(ts: seq<Tree>) {
    forall us :: ShuffledForest(ts, us) ==> Marshal(Merge([], ts)) == Marshal(Merge([], us))
  }

  lemma AmongTexts(o: Orders, before: seq<seq<Tree>>, bs: seq<Tree>, cs: seq<Tree>, after: seq<seq<Tree>>)
    requires AllFit(Some(o), before) && Fits(Some(o), bs) && AllFit(Some(o), after) && ShuffledForest(bs, cs)
    ensures var a, b := Among(before, bs, after), Among(before, cs, after);
            Marshal(a) == Marshal(b) <==> ShuffledForest(a, b)
  {
    ShuffledFits(o, bs, cs);
    AmongTextual(o, before, bs, after);
    AmongTextual(o, before, cs, after);
    TextExact(o, Among(before, bs, after), Among(before, cs, after));
    ShuffledForestSorts(Among(before, bs, after), Among(before, cs, after));
  }

  /** For well-formed blocks whose Orders depend on the merge key only: every order of the blocks gives the
      same text, whatever is merged before and after, if and only if blocks that share a merge key blend and
      siblings below them that share one are alike. */
  lemma AnywhereTextExact(o: Orders, bs: seq<Tree>)
    requires Fits(Some(o), bs)
    ensures OrderFree(bs) <==> SameTextAnywhere(o, bs)
  {
    AnywhereExact(Some(o), bs);
    forall before, cs, after | AllFit(Some(o), before) && AllFit(Some(o), after) && ShuffledForest(bs, cs)
      ensures var a, b := Among(before, bs, after), Among(before, cs, after);
              Marshal(a) == Marshal(b) <==> ShuffledForest(a, b)
    {
      AmongTexts(o, before, bs, cs, after);
    }
  }

  /** Merged with nothing else, if and only if blocks that share a merge key blend. */
  lemma AloneTextExact(o: Orders, ts: seq<Tree>)
    requires Fits(Some(o), ts) && RepeatedCoherent(ts)
    ensures AllBlend(ts) <==> SameTextAlone(ts)
  {
    BlocksExact(ts);
    forall us | ShuffledForest(ts, us)
      ensures Marshal(Merge([], ts)) == Marshal(Merge([], us)) <==> ShuffledForest(Merge([], ts), Merge([], us))
    {
      AmongNothing(ts, []);
      AmongNothing(us, []);
      assert AllFit(Some(o), []);
      AmongTexts(o, [], ts, us, []);
    }
  }
}
