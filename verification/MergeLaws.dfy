/** Merge keeps sibling merge keys distinct, and is then associative. */
module MergeLaws {
  import opened Seqs
  import opened Trees
  import opened Merging

  ghost predicate DistinctKeys(ts: seq<Tree>) {
    forall i, j :: 0 <= i < j < |ts| ==> KeyOf(ts[i]) != KeyOf(ts[j])
  }

  ghost predicate DistinctTree(t: Tree)
    decreases t, 1
  {
    Distinct(t.kids)
  }

  /** Siblings have distinct merge keys at every level. */
  ghost predicate Distinct(ts: seq<Tree>)
    decreases ts, 0
  {
    DistinctKeys(ts) && forall i :: 0 <= i < |ts| ==> DistinctTree(ts[i])
  }

  ghost predicate TopShaped(ts: seq<Tree>) {
    forall i :: 0 <= i < |ts| ==> ProxyShape(ts[i])
  }

  // ----- Distinctness -----

  lemma MergeOneDistinctKeys(ts: seq<Tree>, b: Tree)
    requires DistinctKeys(ts) && TopShaped(ts) && ProxyShape(b)
    ensures DistinctKeys(MergeOne(ts, b)) && TopShaped(MergeOne(ts, b))
  {
    var i := FirstMatch(ts, b);
    forall j | 0 <= j < |ts| ensures Matches(ts[j], b) <==> KeyOf(ts[j]) == KeyOf(b) {
      MatchesKeys(ts[j], b);
    }
    if i < |ts| {
      MergeBlockShape(ts[i], b);
    }
  }

  /** Distinct top-level merge keys stay distinct, whatever is merged in. */
  lemma {:induction false} MergeDistinctKeys(ts: seq<Tree>, bs: seq<Tree>)
    requires DistinctKeys(ts) && TopShaped(ts) && TopShaped(bs)
    ensures DistinctKeys(Merge(ts, bs)) && TopShaped(Merge(ts, bs))
    decreases |bs|
  {
    if bs != [] {
      MergeOneDistinctKeys(ts, bs[0]);
      MergeDistinctKeys(MergeOne(ts, bs[0]), bs[1..]);
    }
  }

  lemma {:induction false} MergeOneDistinct(ts: seq<Tree>, b: Tree)
    requires Distinct(ts) && Shaped(ts) && DistinctTree(b) && ShapedTree(b)
    ensures Distinct(MergeOne(ts, b))
    decreases b, 1
  {
    var i := FirstMatch(ts, b);
    MergeOneDistinctKeys(ts, b);
    if i < |ts| {
      MergeDistinct(ts[i].kids, b.kids);
    }
  }

  /** Distinct at every level in both inputs, distinct at every level in the result. */
  lemma {:induction false} MergeDistinct(ts: seq<Tree>, bs: seq<Tree>)
    requires Distinct(ts) && Shaped(ts) && Distinct(bs) && Shaped(bs)
    ensures Distinct(Merge(ts, bs))
    decreases bs, 0
  {
    if bs != [] {
      MergeOneDistinct(ts, bs[0]);
      MergeOneShaped(ts, bs[0]);
      MergeDistinct(MergeOne(ts, bs[0]), bs[1..]);
    }
  }

  // ----- Global blocks -----

  ghost predicate AtMostOneGlobal(ts: seq<Tree>) {
    forall i, j :: 0 <= i < j < |ts| ==> !(ts[i].IsGlobalBlock() && ts[j].IsGlobalBlock())
  }

  lemma {:induction false} MergeOneGlobal(ts: seq<Tree>, bs: seq<Tree>)
    requires AtMostOneGlobal(ts)
    ensures AtMostOneGlobal(Merge(ts, bs))
    decreases |bs|
  {
    if bs != [] {
      var b := bs[0];
      var i := FirstMatch(ts, b);
      forall j | 0 <= j < |ts| && ts[j].IsGlobalBlock() && b.IsGlobalBlock() ensures Matches(ts[j], b) {}
      if i < |ts| {
        assert MergeBlock(ts[i], b).IsGlobalBlock() == ts[i].IsGlobalBlock();
      }
      MergeOneGlobal(MergeOne(ts, b), bs[1..]);
    }
  }

  /** The accumulation in GenerateCaddyfile: every source is merged into what is there. */
  function Accumulate(ts: seq<Tree>, sources: seq<seq<Tree>>): seq<Tree>
    decreases |sources|
  {
    if sources == [] then ts else Accumulate(Merge(ts, sources[0]), sources[1..])
  }

  /** Whatever is merged, the accumulated Caddyfile never has two keyless global blocks. */
  lemma {:induction false} AccumulatedGlobal(ts: seq<Tree>, sources: seq<seq<Tree>>)
    requires AtMostOneGlobal(ts)
    ensures AtMostOneGlobal(Accumulate(ts, sources))
    decreases |sources|
  {
    if sources != [] {
      MergeOneGlobal(ts, sources[0]);
      AccumulatedGlobal(Merge(ts, sources[0]), sources[1..]);
    }
  }

  // ----- The closed form of Merge -----

  ghost function Keys(ts: seq<Tree>): set<MergeKey> {
    set i | 0 <= i < |ts| :: KeyOf(ts[i])
  }

  /** Block a with the block of bs that has its merge key, if there is one. */
  function Combine(a: Tree, bs: seq<Tree>): Tree {
    if bs == [] then a
    else if KeyOf(bs[0]) == KeyOf(a) then MergeBlock(a, bs[0])
    else Combine(a, bs[1..])
  }

  function CombineAll(ts: seq<Tree>, bs: seq<Tree>): seq<Tree> {
    if ts == [] then [] else [Combine(ts[0], bs)] + CombineAll(ts[1..], bs)
  }

  /** The blocks whose merge key is not among `keys`. */
  ghost function Fresh(bs: seq<Tree>, keys: set<MergeKey>): seq<Tree> {
    if bs == [] then []
    else (if KeyOf(bs[0]) in keys then [] else [bs[0]]) + Fresh(bs[1..], keys)
  }

  lemma {:induction false} CombineAllAt(ts: seq<Tree>, bs: seq<Tree>)
    ensures |CombineAll(ts, bs)| == |ts|
    ensures forall i :: 0 <= i < |ts| ==> CombineAll(ts, bs)[i] == Combine(ts[i], bs)
    decreases |ts|
  {
    if ts != [] {
      CombineAllAt(ts[1..], bs);
    }
  }

  lemma {:induction false} CombineFresh(a: Tree, bs: seq<Tree>)
    requires KeyOf(a) !in Keys(bs)
    ensures Combine(a, bs) == a
    decreases |bs|
  {
    if bs != [] {
      assert KeyOf(bs[0]) in Keys(bs);
      KeysTail(bs);
      CombineFresh(a, bs[1..]);
    }
  }

  lemma KeysTail(bs: seq<Tree>)
    requires bs != []
    ensures Keys(bs) == {KeyOf(bs[0])} + Keys(bs[1..])
  {
    forall k | k in Keys(bs) ensures k in {KeyOf(bs[0])} + Keys(bs[1..]) {
      var i :| 0 <= i < |bs| && KeyOf(bs[i]) == k;
      if i > 0 { assert bs[1..][i - 1] == bs[i]; }
    }
    forall k | k in Keys(bs[1..]) ensures k in Keys(bs) {
      var i :| 0 <= i < |bs[1..]| && KeyOf(bs[1..][i]) == k;
      assert bs[i + 1] == bs[1..][i];
    }
  }

  lemma DistinctTail(bs: seq<Tree>)
    requires DistinctKeys(bs) && bs != []
    ensures DistinctKeys(bs[1..]) && KeyOf(bs[0]) !in Keys(bs[1..])
  {
  }

  lemma {:induction false} FreshWithout(bs: seq<Tree>, keys: set<MergeKey>, k: MergeKey)
    requires k !in Keys(bs)
    ensures Fresh(bs, keys + {k}) == Fresh(bs, keys)
    decreases |bs|
  {
    if bs != [] {
      KeysTail(bs);
      FreshWithout(bs[1..], keys, k);
    }
  }

  ghost function Closed(ts: seq<Tree>, bs: seq<Tree>): seq<Tree> {
    CombineAll(ts, bs) + Fresh(bs, Keys(ts))
  }

  lemma ClosedMatched(ts: seq<Tree>, bs: seq<Tree>, i: nat)
    requires DistinctKeys(ts) && DistinctKeys(bs) && TopShaped(ts) && TopShaped(bs) && bs != []
    requires i < |ts| && KeyOf(ts[i]) == KeyOf(bs[0])
    ensures Closed(ts[i := MergeBlock(ts[i], bs[0])], bs[1..]) == Closed(ts, bs)
  {
    var b, rest := bs[0], bs[1..];
    var us := ts[i := MergeBlock(ts[i], b)];
    DistinctTail(bs);
    CombineAllAt(ts, bs);
    CombineAllAt(us, rest);
    MergeBlockShape(ts[i], b);
    CombineFresh(us[i], rest);
    SameKeys(ts, us);
    assert CombineAll(us, rest) == CombineAll(ts, bs);
    assert [] + Fresh(rest, Keys(ts)) == Fresh(rest, Keys(ts));
  }

  lemma ClosedAppended(ts: seq<Tree>, bs: seq<Tree>)
    requires DistinctKeys(bs) && bs != [] && KeyOf(bs[0]) !in Keys(ts)
    ensures Closed(ts + [bs[0]], bs[1..]) == Closed(ts, bs)
  {
    var b, rest := bs[0], bs[1..];
    DistinctTail(bs);
    CombineFresh(b, rest);
    AppendedKey(ts, b);
    FreshWithout(rest, Keys(ts), KeyOf(b));
    CombineAppended(ts, bs);
    ConcatAssociative(CombineAll(ts, bs), [b], Fresh(rest, Keys(ts)));
  }

  lemma CombineAppended(ts: seq<Tree>, bs: seq<Tree>)
    requires bs != [] && KeyOf(bs[0]) !in Keys(ts) && Combine(bs[0], bs[1..]) == bs[0]
    ensures CombineAll(ts + [bs[0]], bs[1..]) == CombineAll(ts, bs) + [bs[0]]
  {
    var us := ts + [bs[0]];
    CombineAllAt(ts, bs);
    CombineAllAt(us, bs[1..]);
    forall j | 0 <= j < |us| ensures CombineAll(us, bs[1..])[j] == (CombineAll(ts, bs) + [bs[0]])[j] {
      if j < |ts| {
        assert KeyOf(ts[j]) in Keys(ts);
      }
    }
  }

  lemma ClosedStep(ts: seq<Tree>, bs: seq<Tree>)
    requires DistinctKeys(ts) && DistinctKeys(bs) && TopShaped(ts) && TopShaped(bs) && bs != []
    ensures Closed(MergeOne(ts, bs[0]), bs[1..]) == Closed(ts, bs)
  {
    var i := FirstMatch(ts, bs[0]);
    if i < |ts| {
      MatchesKeys(ts[i], bs[0]);
      ClosedMatched(ts, bs, i);
    } else {
      forall j | 0 <= j < |ts| ensures KeyOf(ts[j]) != KeyOf(bs[0]) {
        MatchesKeys(ts[j], bs[0]);
      }
      ClosedAppended(ts, bs);
    }
  }

  lemma SameKeys(ts: seq<Tree>, us: seq<Tree>)
    requires |ts| == |us| && forall i :: 0 <= i < |ts| ==> KeyOf(ts[i]) == KeyOf(us[i])
    ensures Keys(ts) == Keys(us)
  {
  }

  lemma AppendedKey(ts: seq<Tree>, b: Tree)
    ensures Keys(ts + [b]) == Keys(ts) + {KeyOf(b)}
  {
    var us := ts + [b];
    assert us[|ts|] == b;
    forall i | 0 <= i < |ts| ensures us[i] == ts[i] {}
    forall k | k in Keys(us) ensures k in Keys(ts) + {KeyOf(b)} {
      var i :| 0 <= i < |us| && KeyOf(us[i]) == k;
    }
    forall k | k in Keys(ts) ensures k in Keys(us) {
      var i :| 0 <= i < |ts| && KeyOf(ts[i]) == k;
      assert us[i] == ts[i];
    }
    assert KeyOf(us[|ts|]) in Keys(us);
  }

  /** On distinct siblings Merge combines block by block, in place, and appends the rest in order. */
  lemma {:induction false} MergeClosed(ts: seq<Tree>, bs: seq<Tree>)
    requires DistinctKeys(ts) && DistinctKeys(bs) && TopShaped(ts) && TopShaped(bs)
    ensures Merge(ts, bs) == Closed(ts, bs)
    decreases |bs|
  {
    if bs == [] {
      CombineAllAt(ts, bs);
      assert CombineAll(ts, bs) + [] == ts;
    } else {
      ClosedStep(ts, bs);
      MergeOneDistinctKeys(ts, bs[0]);
      DistinctTail(bs);
      MergeClosed(MergeOne(ts, bs[0]), bs[1..]);
    }
  }

  // ----- Associativity -----

  lemma {:induction false} CombineKey(a: Tree, bs: seq<Tree>)
    requires ProxyShape(a) && TopShaped(bs)
    ensures KeyOf(Combine(a, bs)) == KeyOf(a) && ProxyShape(Combine(a, bs))
    decreases |bs|
  {
    if bs != [] {
      if KeyOf(bs[0]) == KeyOf(a) {
        MergeBlockShape(a, bs[0]);
      } else {
        CombineKey(a, bs[1..]);
      }
    }
  }

  lemma CombineAllKeys(ts: seq<Tree>, bs: seq<Tree>)
    requires TopShaped(ts) && TopShaped(bs)
    ensures Keys(CombineAll(ts, bs)) == Keys(ts)
    ensures TopShaped(CombineAll(ts, bs))
    ensures DistinctKeys(ts) ==> DistinctKeys(CombineAll(ts, bs))
  {
    CombineAllAt(ts, bs);
    forall i | 0 <= i < |ts|
      ensures KeyOf(CombineAll(ts, bs)[i]) == KeyOf(ts[i]) && ProxyShape(CombineAll(ts, bs)[i])
    {
      CombineKey(ts[i], bs);
    }
    SameKeys(ts, CombineAll(ts, bs));
  }

  /** The block a combines with: the first with its merge key. */
  lemma {:induction false} CombineFound(a: Tree, bs: seq<Tree>, i: nat)
    requires DistinctKeys(bs) && i < |bs| && KeyOf(bs[i]) == KeyOf(a)
    ensures Combine(a, bs) == MergeBlock(a, bs[i])
    decreases |bs|
  {
    if i > 0 {
      DistinctTail(bs);
      CombineFound(a, bs[1..], i - 1);
    }
  }

  lemma {:induction false} CombineConcat(a: Tree, bs: seq<Tree>, cs: seq<Tree>)
    ensures Combine(a, bs + cs) == if KeyOf(a) in Keys(bs) then Combine(a, bs) else Combine(a, cs)
    decreases |bs|
  {
    if bs == [] {
      assert bs + cs == cs;
    } else {
      assert (bs + cs)[1..] == bs[1..] + cs;
      KeysTail(bs);
      CombineConcat(a, bs[1..], cs);
    }
  }

  lemma {:induction false} CombineInFresh(a: Tree, cs: seq<Tree>, keys: set<MergeKey>)
    requires KeyOf(a) !in keys
    ensures Combine(a, Fresh(cs, keys)) == Combine(a, cs)
    decreases |cs|
  {
    if cs != [] {
      CombineInFresh(a, cs[1..], keys);
      var rest := Fresh(cs[1..], keys);
      if KeyOf(cs[0]) in keys {
        assert [] + rest == rest;
      } else {
        assert ([cs[0]] + rest)[1..] == rest;
      }
    }
  }

  lemma {:induction false} FreshFresh(cs: seq<Tree>, k1: set<MergeKey>, k2: set<MergeKey>)
    ensures Fresh(Fresh(cs, k1), k2) == Fresh(cs, k1 + k2)
    decreases |cs|
  {
    if cs != [] {
      FreshFresh(cs[1..], k1, k2);
      var rest := Fresh(cs[1..], k1);
      if KeyOf(cs[0]) in k1 {
        assert [] + rest == rest;
        assert [] + Fresh(rest, k2) == Fresh(rest, k2);
      } else {
        assert ([cs[0]] + rest)[1..] == rest;
      }
    }
  }

  lemma {:induction false} FreshConcat(bs: seq<Tree>, cs: seq<Tree>, keys: set<MergeKey>)
    ensures Fresh(bs + cs, keys) == Fresh(bs, keys) + Fresh(cs, keys)
    decreases |bs|
  {
    if bs == [] {
      assert bs + cs == cs;
      assert [] + Fresh(cs, keys) == Fresh(cs, keys);
    } else {
      assert (bs + cs)[1..] == bs[1..] + cs;
      FreshConcat(bs[1..], cs, keys);
      ConcatAssociative(if KeyOf(bs[0]) in keys then [] else [bs[0]], Fresh(bs[1..], keys), Fresh(cs, keys));
    }
  }

  lemma {:induction false} FreshCombineAll(bs: seq<Tree>, cs: seq<Tree>, keys: set<MergeKey>)
    requires TopShaped(bs) && TopShaped(cs)
    ensures Fresh(CombineAll(bs, cs), keys) == CombineAll(Fresh(bs, keys), cs)
    decreases |bs|
  {
    if bs != [] {
      CombineKey(bs[0], cs);
      FreshCombineAll(bs[1..], cs, keys);
      var m, rest := CombineAll(bs, cs), Fresh(bs[1..], keys);
      assert m[1..] == CombineAll(bs[1..], cs);
      if KeyOf(bs[0]) in keys {
        assert [] + rest == rest;
        assert [] + Fresh(m[1..], keys) == Fresh(m[1..], keys);
      } else {
        assert ([bs[0]] + rest)[1..] == rest;
      }
    }
  }

  lemma {:induction false} FreshKeys(bs: seq<Tree>, keys: set<MergeKey>)
    ensures Keys(Fresh(bs, keys)) == Keys(bs) - keys
    decreases |bs|
  {
    if bs != [] {
      FreshKeys(bs[1..], keys);
      KeysTail(bs);
      var rest := Fresh(bs[1..], keys);
      if KeyOf(bs[0]) in keys {
        assert [] + rest == rest;
      } else {
        KeysTail([bs[0]] + rest);
        assert ([bs[0]] + rest)[1..] == rest;
      }
    }
  }

  lemma {:induction false} MergeBlockAssociative(a: Tree, b: Tree, c: Tree)
    requires KeyOf(a) == KeyOf(b) == KeyOf(c)
    requires DistinctTree(b) && DistinctTree(c)
    requires ShapedTree(a) && ShapedTree(b) && ShapedTree(c)
    ensures MergeBlock(MergeBlock(a, b), c) == MergeBlock(a, MergeBlock(b, c))
    decreases a, 1
  {
    MergeAssociative(a.kids, b.kids, c.kids);
    MergeBlockShape(a, b);
    MergeBlockShape(b, c);
    ConcatAssociative(a.keys, AddedKeys(b.keys), AddedKeys(c.keys));
  }

  lemma {:induction false} CombineAssociative(a: Tree, bs: seq<Tree>, cs: seq<Tree>)
    requires Distinct(bs) && Distinct(cs)
    requires ShapedTree(a) && Shaped(bs) && Shaped(cs)
    ensures Combine(Combine(a, bs), cs) == Combine(a, Closed(bs, cs))
    decreases a, 2
  {
    var bcs := CombineAll(bs, cs);
    CombineAllAt(bs, cs);
    CombineAllKeys(bs, cs);
    CombineConcat(a, bcs, Fresh(cs, Keys(bs)));
    if KeyOf(a) in Keys(bs) {
      var i :| 0 <= i < |bs| && KeyOf(bs[i]) == KeyOf(a);
      CombineFound(a, bs, i);
      CombineKey(bs[i], cs);
      CombineFound(a, bcs, i);
      MergeBlockShape(a, bs[i]);
      if KeyOf(a) in Keys(cs) {
        var j :| 0 <= j < |cs| && KeyOf(cs[j]) == KeyOf(a);
        CombineFound(bs[i], cs, j);
        CombineFound(MergeBlock(a, bs[i]), cs, j);
        MergeBlockAssociative(a, bs[i], cs[j]);
      } else {
        CombineFresh(bs[i], cs);
        CombineFresh(MergeBlock(a, bs[i]), cs);
      }
    } else {
      CombineFresh(a, bs);
      CombineInFresh(a, cs, Keys(bs));
    }
  }

  lemma ShapedTop(ts: seq<Tree>)
    requires Shaped(ts)
    ensures TopShaped(ts)
  {
    forall i | 0 <= i < |ts| ensures ProxyShape(ts[i]) {
      assert ShapedTree(ts[i]);
    }
  }

  lemma FirstMatchCons(t: Tree, ts: seq<Tree>, b: Tree)
    ensures FirstMatch([t] + ts, b) == if Matches(t, b) then 0 else 1 + FirstMatch(ts, b)
  {
    assert ([t] + ts)[1..] == ts;
  }

  lemma UpdateCons<T>(t: T, ts: seq<T>, i: nat, u: T)
    requires i < |ts|
    ensures ([t] + ts)[i + 1 := u] == [t] + ts[i := u] && ([t] + ts)[i + 1] == ts[i]
  {
  }

  lemma HeadUpdated<T>(t: T, ts: seq<T>, u: T)
    ensures ([t] + ts)[0] == t && ([t] + ts)[0 := u] == [u] + ts
  {
  }

  lemma MergeOneCons(t: Tree, ts: seq<Tree>, b: Tree)
    ensures MergeOne([t] + ts, b) == if Matches(t, b) then [MergeBlock(t, b)] + ts else [t] + MergeOne(ts, b)
  {
    FirstMatchCons(t, ts, b);
    var i := FirstMatch(ts, b);
    if Matches(t, b) {
      HeadUpdated(t, ts, MergeBlock(t, b));
    } else if i < |ts| {
      UpdateCons(t, ts, i, MergeBlock(ts[i], b));
    } else {
      ConcatAssociative([t], ts, [b]);
    }
  }

  /** The first block takes up the block with its merge key, the others are merged with the rest. */
  lemma {:induction false} MergeCons(t: Tree, ts: seq<Tree>, bs: seq<Tree>)
    requires DistinctKeys(bs) && ProxyShape(t) && TopShaped(bs)
    ensures Merge([t] + ts, bs) == [Combine(t, bs)] + Merge(ts, Fresh(bs, {KeyOf(t)}))
    decreases |bs|
  {
    if bs != [] {
      var k, b, rest := KeyOf(t), bs[0], bs[1..];
      DistinctTail(bs);
      MergeOneCons(t, ts, b);
      MatchesKeys(t, b);
      if KeyOf(b) == k {
        MergeBlockShape(t, b);
        CombineFresh(MergeBlock(t, b), rest);
        MergeCons(MergeBlock(t, b), ts, rest);
        assert [] + Fresh(rest, {k}) == Fresh(rest, {k});
      } else {
        MergeCons(t, MergeOne(ts, b), rest);
        assert ([b] + Fresh(rest, {k}))[1..] == Fresh(rest, {k});
      }
    }
  }

  lemma {:induction false} FreshDistinct(bs: seq<Tree>, keys: set<MergeKey>)
    requires Distinct(bs) && Shaped(bs)
    ensures Distinct(Fresh(bs, keys)) && Shaped(Fresh(bs, keys))
    decreases |bs|
  {
    if bs != [] {
      assert DistinctTree(bs[0]) && ShapedTree(bs[0]);
      DistinctTail(bs);
      FreshDistinct(bs[1..], keys);
      FreshKeys(bs[1..], keys);
      FreshMember(bs[0], Fresh(bs[1..], keys));
    }
  }

  lemma FreshMember(b: Tree, rest: seq<Tree>)
    requires DistinctTree(b) && ShapedTree(b) && Distinct(rest) && Shaped(rest)
    ensures KeyOf(b) !in Keys(rest) ==> Distinct([b] + rest)
    ensures Shaped([b] + rest) && [] + rest == rest
  {
    var bs := [b] + rest;
    forall i | 0 <= i < |bs| ensures bs[i] == if i == 0 then b else rest[i - 1] {}
    if KeyOf(b) !in Keys(rest) {
      forall i | 0 <= i < |rest| ensures KeyOf(rest[i]) != KeyOf(b) {
        assert KeyOf(rest[i]) in Keys(rest);
      }
    }
  }

  lemma CombineAllFresh(ts: seq<Tree>, cs: seq<Tree>, k: MergeKey)
    requires k !in Keys(ts)
    ensures CombineAll(ts, Fresh(cs, {k})) == CombineAll(ts, cs)
  {
    CombineAllAt(ts, cs);
    CombineAllAt(ts, Fresh(cs, {k}));
    forall i | 0 <= i < |ts| ensures Combine(ts[i], Fresh(cs, {k})) == Combine(ts[i], cs) {
      assert KeyOf(ts[i]) in Keys(ts);
      CombineInFresh(ts[i], cs, {k});
    }
  }

  /** Without one merge key, both containers merged are both merged without it. */
  lemma FreshClosed(bs: seq<Tree>, cs: seq<Tree>, k: MergeKey)
    requires TopShaped(bs) && TopShaped(cs)
    ensures Fresh(Closed(bs, cs), {k}) == Closed(Fresh(bs, {k}), Fresh(cs, {k}))
  {
    var kb := Keys(bs);
    FreshConcat(CombineAll(bs, cs), Fresh(cs, kb), {k});
    FreshCombineAll(bs, cs, {k});
    FreshKeys(bs, {k});
    CombineAllFresh(Fresh(bs, {k}), cs, k);
    FreshFresh(cs, kb, {k});
    FreshFresh(cs, {k}, kb - {k});
    assert kb + {k} == {k} + (kb - {k});
  }

  lemma {:induction false} FreshNothing(bs: seq<Tree>)
    ensures Fresh(bs, {}) == bs
    decreases |bs|
  {
    if bs != [] {
      FreshNothing(bs[1..]);
    }
  }

  /** Distinct blocks merged into an empty container are unchanged. */
  lemma MergeNothing(bs: seq<Tree>)
    requires DistinctKeys(bs) && TopShaped(bs)
    ensures Merge([], bs) == bs
  {
    MergeClosed([], bs);
    FreshNothing(bs);
    assert Keys([]) == {};
    assert [] + bs == bs;
  }

  /** Sources are merged in their order: the blocks of the first keep their places and take up those of the second
      with their merge keys; the other blocks of the second follow. */
  lemma AccumulateTwo(first: seq<Tree>, second: seq<Tree>)
    requires DistinctKeys(first) && DistinctKeys(second) && TopShaped(first) && TopShaped(second)
    ensures Accumulate([], [first, second]) == CombineAll(first, second) + Fresh(second, Keys(first))
  {
    assert [first, second][1..] == [second] && [second][1..] == [];
    MergeNothing(first);
    MergeClosed(first, second);
    assert Accumulate(Closed(first, second), []) == Closed(first, second);
  }

  /** Merging B and then C into A is merging (B merged with C) into A, with the same orders, keys in the
      same order and siblings in the same order. Only B and C need distinct siblings. */
  lemma {:induction false} MergeAssociative(ts: seq<Tree>, bs: seq<Tree>, cs: seq<Tree>)
    requires Distinct(bs) && Distinct(cs)
    requires Shaped(ts) && Shaped(bs) && Shaped(cs)
    ensures Merge(Merge(ts, bs), cs) == Merge(ts, Merge(bs, cs))
    decreases ts, 0
  {
    ShapedTop(ts);
    ShapedTop(bs);
    ShapedTop(cs);
    MergeClosed(bs, cs);
    MergeDistinctKeys(bs, cs);
    if ts == [] {
      MergeNothing(bs);
      MergeNothing(Merge(bs, cs));
    } else {
      var t, rest := ts[0], ts[1..];
      var k := KeyOf(t);
      assert ShapedTree(t) && ts == [t] + rest;
      CombineKey(t, bs);
      MergeCons(t, rest, bs);
      MergeCons(Combine(t, bs), Merge(rest, Fresh(bs, {k})), cs);
      MergeCons(t, rest, Closed(bs, cs));
      FreshClosed(bs, cs, k);
      CombineAssociative(t, bs, cs);
      FreshDistinct(bs, {k});
      FreshDistinct(cs, {k});
      ShapedTop(Fresh(bs, {k}));
      ShapedTop(Fresh(cs, {k}));
      MergeClosed(Fresh(bs, {k}), Fresh(cs, {k}));
      MergeAssociative(rest, Fresh(bs, {k}), Fresh(cs, {k}));
    }
  }

  /** A block `x` with one childless child for each name. */
  function X(names: seq<string>): Tree {
    Node(0, ["x"], seq(|names|, i requires 0 <= i < |names| => Node(0, [names[i]], [])))
  }

  /** With siblings that share a merge key the order of the children depends on the grouping. */
  lemma NotAssociativeWithDuplicates(k: string, l: string, m: string)
    requires k != l && l != m && k != m
    ensures Merge(Merge([], [X([k]), X([l])]), [X([m])]) == [X([k, l, m])]
    ensures Merge([], Merge([X([k]), X([l])], [X([m])])) == [X([k, m, l])]
    ensures X([k, l, m]) != X([k, m, l])
  {
    MergeX([k], [], l);
    MergeX([k, l], [], m);
    MergeX([k], [X([l])], m);
    MergeX([k, m], [], l);
    assert [k] + [l] == [k, l] && [k, l] + [m] == [k, l, m];
    assert [k] + [m] == [k, m] && [k, m] + [l] == [k, m, l];
    Groupings(X([k]), X([l]), X([m]), X([k, l]), X([k, l, m]), X([k, m]), X([k, m, l]));
    assert X([k, l, m]).kids[1].keys == [l] && X([k, m, l]).kids[1].keys == [m];
    assert [l][0] != [m][0];
  }

  lemma Groupings(a: Tree, b: Tree, c: Tree, ab: Tree, abc: Tree, ac: Tree, acb: Tree)
    requires MergeOne([a] + [], b) == [ab] + [] && MergeOne([ab] + [], c) == [abc] + []
    requires MergeOne([a] + [b], c) == [ac] + [b] && MergeOne([ac] + [], b) == [acb] + []
    ensures Merge(Merge([], [a, b]), [c]) == [abc]
    ensures Merge([], Merge([a, b], [c])) == [acb]
  {
    assert [a] + [] == [a] && [ab] + [] == [ab] && [abc] + [] == [abc] && [ac] + [] == [ac] && [acb] + [] == [acb];
    assert [a] + [b] == [a, b] && [ac] + [b] == [ac, b];
    assert [] + [a] == [a] && [] + [ac] == [ac];
    MergeTwo([], a, b);
    MergeSingle([ab], c);
    MergeSingle([a, b], c);
    MergeTwo([], ac, b);
  }

  lemma MergeX(names: seq<string>, rest: seq<Tree>, name: string)
    requires name !in names
    ensures MergeOne([X(names)] + rest, X([name])) == [X(names + [name])] + rest
    ensures [X(names)] + [] == [X(names)]
  {
    MergeIntoHead(X(names), rest, X([name]));
    var kid := Node(0, [name], []);
    assert X([name]).kids == [kid];
    forall i | 0 <= i < |names| ensures !Matches(X(names).kids[i], kid) {
      assert [names[i]][0] != [name][0];
    }
    LeafAppended(X(names).kids, kid);
    assert X(names + [name]).kids == X(names).kids + [kid];
  }

  lemma MergeIntoHead(h: Tree, rest: seq<Tree>, b: Tree)
    requires h.keys == b.keys && !IsProxy(b.FirstKey())
    ensures MergeOne([h] + rest, b) == [Node(h.order, h.keys, Merge(h.kids, b.kids))] + rest
    ensures [h] + [] == [h]
  {
    var ts := [h] + rest;
    assert ts[0] == h && FirstMatch(ts, b) == 0;
    assert ts[0 := MergeBlock(h, b)] == [MergeBlock(h, b)] + rest;
  }

  lemma MergeSingle(ts: seq<Tree>, b: Tree)
    ensures Merge(ts, [b]) == MergeOne(ts, b)
  {
    assert [b][1..] == [];
    assert Merge(MergeOne(ts, b), []) == MergeOne(ts, b);
  }

  lemma MergeTwo(ts: seq<Tree>, b: Tree, c: Tree)
    ensures Merge(ts, [b, c]) == MergeOne(MergeOne(ts, b), c)
  {
    assert [b, c][1..] == [c];
    MergeSingle(MergeOne(ts, b), c);
  }

  lemma LeafAppended(ts: seq<Tree>, b: Tree)
    requires FirstMatch(ts, b) == |ts|
    ensures Merge(ts, [b]) == ts + [b]
  {
    MergeSingle(ts, b);
  }
}
