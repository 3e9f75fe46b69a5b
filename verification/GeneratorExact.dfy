/** Exactly for which label sets the generated Caddyfile depends on the order in which Go goes through the
    labels. */
module GeneratorExact {
  import opened Seqs
  import opened Listings
  import opened Trees
  import opened Sorting
  import opened Writing
  import opened RoundTrips
  import opened NormalForms
  import opened Merging
  import opened MergeLaws
  import opened MergeShuffles
  import opened MergeOrders
  import opened MergeExact
  import opened MergeAnywhere
  import opened MergeTexts
  import opened Processing
  import opened LabelTrees
  import opened Labels
  import opened LabelReadings
  import opened WholeGenerator

  // ----- Texts and the placeholder -----

  lemma {:induction false} EndsWithNewline(ts: seq<Tree>)
    requires ts != []
    ensures var text := WriteForest(ts, 0); text != "" && text[|text| - 1] == '\n'
    decreases |ts|
  {
    var first, rest := WriteTree(ts[0], 0), WriteForest(ts[1..], 0);
    assert first[|first| - 1] == '\n';
    if |ts| == 1 {
      assert ts[1..] == [] && first + "" == first;
    } else {
      EndsWithNewline(ts[1..]);
      assert (first + rest)[|first + rest| - 1] == rest[|rest| - 1];
    }
  }

  /** The placeholder is no written text, so it stands for nothing else. */
  lemma TextsSame(ts: seq<Tree>, us: seq<Tree>, accepts: Adapter)
    ensures Generated(ts, false, accepts) == Generated(us, false, accepts) <==> Marshal(ts) == Marshal(us)
  {
    NotPlaceholder(SortForest(ts));
    NotPlaceholder(SortForest(us));
  }

  lemma NotPlaceholder(ts: seq<Tree>)
    ensures WriteForest(ts, 0) != EMPTY_CADDYFILE
  {
    if ts != [] {
      EndsWithNewline(ts);
      assert EMPTY_CADDYFILE[16] == 'e' && |EMPTY_CADDYFILE| == 17;
    }
  }

  // ----- Readings -----

  lemma ReadingShuffles(labels: map<string, string>, template: Template, ts: seq<Tree>, us: seq<Tree>)
    requires ReadAs(LabelSet(labels), template, Some(ts))
    ensures ReadAs(LabelSet(labels), template, Some(us)) <==> ShuffledForest(ts, us)
  {
    var keys :| Lists(keys, labels) && Some(ts) == FromLabels(labels, keys, template);
    ReadingsExact(labels, keys, template, ts, us);
  }

  /** Whatever well-formed sources with the same Orders are merged before and after the labels, all readings of
      the labels generate the same text. */
  ghost predicate OneTextAnywhere(o: Orders, labels: map<string, string>, template: Template, accepts: Adapter) {
    forall before, us, vs, after ::
      && AllFit(Some(o), before) && AllFit(Some(o), after)
      && ReadAs(LabelSet(labels), template, Some(us)) && ReadAs(LabelSet(labels), template, Some(vs))
      ==> Generated(Among(before, us, after), false, accepts) == Generated(Among(before, vs, after), false, accepts)
  }

  /** All readings of the labels, the only source, generate the same text. */
  ghost predicate OneTextAlone(labels: map<string, string>, template: Template, accepts: Adapter) {
    forall us, vs ::
      ReadAs(LabelSet(labels), template, Some(us)) && ReadAs(LabelSet(labels), template, Some(vs))
      ==> Generated(Among([], us, []), false, accepts) == Generated(Among([], vs, []), false, accepts)
  }

  /** A label set, given one of its readings, with well-formed blocks whose Orders depend on the merge key
      only: the generated text never depends on the order of the labels, whatever other sources there are, if
      and only if blocks that share a merge key blend and siblings below them that share one are alike. */
  lemma LabelSetExact(o: Orders, labels: map<string, string>, template: Template, accepts: Adapter, ts: seq<Tree>)
    requires ReadAs(LabelSet(labels), template, Some(ts)) && Fits(Some(o), ts)
    ensures OrderFree(ts) <==> OneTextAnywhere(o, labels, template, accepts)
  {
    AnywhereTextExact(o, ts);
    if SameTextAnywhere(o, ts) {
      forall before, us, vs, after |
          AllFit(Some(o), before) && AllFit(Some(o), after)
          && ReadAs(LabelSet(labels), template, Some(us)) && ReadAs(LabelSet(labels), template, Some(vs))
        ensures Generated(Among(before, us, after), false, accepts)
                == Generated(Among(before, vs, after), false, accepts)
      {
        TextsAmong(o, labels, template, ts, us, before, after);
        TextsAmong(o, labels, template, ts, vs, before, after);
      }
    }
    if OneTextAnywhere(o, labels, template, accepts) {
      OneTextSame(o, labels, template, accepts, ts);
    }
  }

  lemma TextsAmong(o: Orders, labels: map<string, string>, template: Template, ts: seq<Tree>, us: seq<Tree>,
                   before: seq<seq<Tree>>, after: seq<seq<Tree>>)
    requires ReadAs(LabelSet(labels), template, Some(ts)) && ReadAs(LabelSet(labels), template, Some(us))
    requires SameTextAnywhere(o, ts) && AllFit(Some(o), before) && AllFit(Some(o), after)
    ensures Marshal(Among(before, ts, after)) == Marshal(Among(before, us, after))
  {
    ReadingShuffles(labels, template, ts, us);
  }

  lemma OneTextSame(o: Orders, labels: map<string, string>, template: Template, accepts: Adapter, ts: seq<Tree>)
    requires ReadAs(LabelSet(labels), template, Some(ts)) && OneTextAnywhere(o, labels, template, accepts)
    ensures SameTextAnywhere(o, ts)
  {
    forall before, cs, after | AllFit(Some(o), before) && AllFit(Some(o), after) && ShuffledForest(ts, cs)
      ensures Marshal(Among(before, ts, after)) == Marshal(Among(before, cs, after))
    {
      ReadingShuffles(labels, template, ts, cs);
      TextsSame(Among(before, ts, after), Among(before, cs, after), accepts);
    }
  }

  /** With no other source, and where repeated blocks have coherent children, if and only if blocks that share
      a merge key blend. */
  lemma LabelSetAloneExact(o: Orders, labels: map<string, string>, template: Template, accepts: Adapter, ts: seq<Tree>)
    requires ReadAs(LabelSet(labels), template, Some(ts)) && Fits(Some(o), ts) && RepeatedCoherent(ts)
    ensures AllBlend(ts) <==> OneTextAlone(labels, template, accepts)
  {
    AloneTextExact(o, ts);
    if SameTextAlone(ts) {
      forall us, vs | ReadAs(LabelSet(labels), template, Some(us)) && ReadAs(LabelSet(labels), template, Some(vs))
        ensures Generated(Among([], us, []), false, accepts) == Generated(Among([], vs, []), false, accepts)
      {
        ReadingShuffles(labels, template, ts, us);
        ReadingShuffles(labels, template, ts, vs);
        AmongNothing(us, []);
        AmongNothing(vs, []);
      }
    }
    if OneTextAlone(labels, template, accepts) {
      forall us | ShuffledForest(ts, us) ensures Marshal(Merge([], ts)) == Marshal(Merge([], us)) {
        ReadingShuffles(labels, template, ts, us);
        AmongNothing(ts, []);
        AmongNothing(us, []);
        TextsSame(Merge([], ts), Merge([], us), accepts);
      }
    }
  }

  // ----- Labels without order numbers -----

  /** No path of the labels, nor any above it, begins with an order number. */
  ghost predicate Unnumbered(labels: map<string, string>) {
    forall k, p :: k in labels && Rooted(k, ParentPath) && p in Ancestors(k, ParentPath) ==> OrderOf(p) == MAX_INT32
  }

  lemma {:induction false} RenderOrders(o: Orders, bs: seq<Named>, headers: Headers)
    requires forall p, k :: p in Paths(bs) ==> headers(p).order == o(k)
    ensures OrdersAre(o, Render(bs, headers))
    decreases bs
  {
    RenderAt(bs, headers);
    forall i | 0 <= i < |bs|
      ensures var t := RenderBlock(bs[i], headers); t.order == o(KeyOf(t)) && OrdersAre(o, t.kids)
    {
      BlockPaths(bs, i);
      RenderOrders(o, bs[i].kids, headers);
    }
  }

  lemma {:induction false} BlockPaths(bs: seq<Named>, i: nat)
    requires i < |bs|
    ensures bs[i].path in Paths(bs) && Paths(bs[i].kids) <= Paths(bs)
    decreases |bs|
  {
    if i > 0 {
      BlockPaths(bs[1..], i - 1);
    }
  }

  /** Labels without order numbers make blocks of one Order. */
  lemma UnnumberedOrders(labels: map<string, string>, template: Template, ts: seq<Tree>)
    requires ReadAs(LabelSet(labels), template, Some(ts)) && Unnumbered(labels)
    ensures OrdersAre(_ => MAX_INT32, ts)
  {
    var keys :| Lists(keys, labels) && Some(ts) == FromLabels(labels, keys, template);
    IterationRooted(keys, labels);
    OneOrder(keys, ParentPath, ArgumentsOf(labels, template));
    var b := AddLabels(Some(Building([], map[])), keys, ParentPath, ArgumentsOf(labels, template)).value;
    CompleteRooted(b.blocks, keys, ParentPath);
    ClosureMembers(keys, ParentPath);
    RenderOrders(_ => MAX_INT32, b.blocks, HeadersOf(b.args));
  }
}
