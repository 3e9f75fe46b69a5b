/** Merge preserves meaning: which blocks exist at which path, and the upstreams they list. */
module MergePaths {
  import opened Trees
  import opened Merging

  type Path = seq<MergeKey>

  /** A block at the path, followed from this container down. */
  ghost predicate Has(ts: seq<Tree>, path: Path)
    decreases |path|
  {
    path == [] || exists i :: 0 <= i < |ts| && KeyOf(ts[i]) == path[0] && Has(ts[i].kids, path[1..])
  }

  /** The upstream keys one block contributes to the path. */
  ghost function BlockUpstreams(t: Tree, path: Path): multiset<string>
    requires path != []
    decreases |path|, 0
  {
    if KeyOf(t) != path[0] then multiset{}
    else if |path| == 1 then (if KeyOf(t).Proxy? then multiset(AddedKeys(t.keys)) else multiset{})
    else Upstreams(t.kids, path[1..])
  }

  /** The upstream keys of all blocks at the path. */
  ghost function Upstreams(ts: seq<Tree>, path: Path): multiset<string>
    requires path != []
    decreases |path|, 1, |ts|
  {
    if ts == [] then multiset{} else BlockUpstreams(ts[0], path) + Upstreams(ts[1..], path)
  }

  lemma {:induction false} UpstreamsConcat(a: seq<Tree>, b: seq<Tree>, path: Path)
    requires path != []
    ensures Upstreams(a + b, path) == Upstreams(a, path) + Upstreams(b, path)
    decreases |a|
  {
    if a == [] {
      assert a + b == b;
    } else {
      assert (a + b)[1..] == a[1..] + b;
      UpstreamsConcat(a[1..], b, path);
    }
  }

  lemma UpstreamsOne(t: Tree, path: Path)
    requires path != []
    ensures Upstreams([t], path) == BlockUpstreams(t, path)
  {
    assert Upstreams([t][1..], path) == multiset{};
  }

  lemma UpstreamsUpdate(ts: seq<Tree>, i: nat, t: Tree, path: Path)
    requires path != [] && i < |ts|
    ensures Upstreams(ts[i := t], path) + BlockUpstreams(ts[i], path) == Upstreams(ts, path) + BlockUpstreams(t, path)
  {
    assert ts == ts[..i] + ([ts[i]] + ts[i + 1..]);
    assert ts[i := t] == ts[..i] + ([t] + ts[i + 1..]);
    UpstreamsConcat(ts[..i], [ts[i]] + ts[i + 1..], path);
    UpstreamsConcat(ts[..i], [t] + ts[i + 1..], path);
    UpstreamsConcat([ts[i]], ts[i + 1..], path);
    UpstreamsConcat([t], ts[i + 1..], path);
    UpstreamsOne(ts[i], path);
    UpstreamsOne(t, path);
  }

  lemma {:induction false} MergeBlockMeaning(a: Tree, b: Tree, path: Path)
    requires ShapedTree(a) && ShapedTree(b) && KeyOf(a) == KeyOf(b) && path != []
    ensures KeyOf(MergeBlock(a, b)) == KeyOf(a)
    ensures Has(MergeBlock(a, b).kids, path[1..]) <==> Has(a.kids, path[1..]) || Has(b.kids, path[1..])
    ensures BlockUpstreams(MergeBlock(a, b), path) == BlockUpstreams(a, path) + BlockUpstreams(b, path)
    decreases b, 0
  {
    MergeBlockShape(a, b);
    MergeMeaning(a.kids, b.kids, path[1..]);
  }

  lemma HasUpdate(ts: seq<Tree>, i: nat, t: Tree, b: Tree, path: Path)
    requires path != [] && i < |ts| && KeyOf(t) == KeyOf(ts[i]) == KeyOf(b)
    requires Has(t.kids, path[1..]) <==> Has(ts[i].kids, path[1..]) || Has(b.kids, path[1..])
    ensures Has(ts[i := t], path) <==> Has(ts, path) || Has([b], path)
  {
    var us := ts[i := t];
    assert [b][0] == b;
    if Has(us, path) {
      var j :| 0 <= j < |us| && KeyOf(us[j]) == path[0] && Has(us[j].kids, path[1..]);
      if j != i { assert us[j] == ts[j]; }
    }
    if Has(ts, path) {
      var j :| 0 <= j < |ts| && KeyOf(ts[j]) == path[0] && Has(ts[j].kids, path[1..]);
      assert KeyOf(us[j]) == path[0] && Has(us[j].kids, path[1..]);
    }
    if Has([b], path) {
      assert KeyOf(us[i]) == path[0] && Has(us[i].kids, path[1..]);
    }
  }

  lemma HasConcat(a: seq<Tree>, b: seq<Tree>, path: Path)
    requires path != []
    ensures Has(a + b, path) <==> Has(a, path) || Has(b, path)
  {
    var c := a + b;
    if Has(a, path) {
      var j :| 0 <= j < |a| && KeyOf(a[j]) == path[0] && Has(a[j].kids, path[1..]);
      assert c[j] == a[j];
    }
    if Has(b, path) {
      var j :| 0 <= j < |b| && KeyOf(b[j]) == path[0] && Has(b[j].kids, path[1..]);
      assert c[|a| + j] == b[j];
    }
    if Has(c, path) {
      var j :| 0 <= j < |c| && KeyOf(c[j]) == path[0] && Has(c[j].kids, path[1..]);
      assert c[j] == if j < |a| then a[j] else b[j - |a|];
    }
  }

  lemma CancelSum<T>(us: multiset<T>, a: multiset<T>, ts: multiset<T>, b: multiset<T>)
    requires us + a == ts + (a + b)
    ensures us == ts + b
  {
    assert (us + a) - a == us && (ts + (a + b)) - a == ts + b;
  }

  lemma UpstreamsMerged(ts: seq<Tree>, i: nat, t: Tree, b: Tree, path: Path)
    requires path != [] && i < |ts| && BlockUpstreams(t, path) == BlockUpstreams(ts[i], path) + BlockUpstreams(b, path)
    ensures Upstreams(ts[i := t], path) == Upstreams(ts, path) + BlockUpstreams(b, path)
  {
    UpstreamsUpdate(ts, i, t, path);
    CancelSum(Upstreams(ts[i := t], path), BlockUpstreams(ts[i], path), Upstreams(ts, path), BlockUpstreams(b, path));
  }

  lemma AppendMeaning(ts: seq<Tree>, b: Tree, path: Path)
    requires path != []
    ensures Has(ts + [b], path) <==> Has(ts, path) || Has([b], path)
    ensures Upstreams(ts + [b], path) == Upstreams(ts, path) + BlockUpstreams(b, path)
  {
    HasConcat(ts, [b], path);
    UpstreamsConcat(ts, [b], path);
    UpstreamsOne(b, path);
  }

  lemma {:induction false} MergeOneMeaning(ts: seq<Tree>, b: Tree, path: Path)
    requires Shaped(ts) && ShapedTree(b) && path != []
    ensures Has(MergeOne(ts, b), path) <==> Has(ts, path) || Has([b], path)
    ensures Upstreams(MergeOne(ts, b), path) == Upstreams(ts, path) + BlockUpstreams(b, path)
    decreases b, 1
  {
    var i := FirstMatch(ts, b);
    if i < |ts| {
      MatchesKeys(ts[i], b);
      MergeBlockMeaning(ts[i], b, path);
      HasUpdate(ts, i, MergeBlock(ts[i], b), b, path);
      UpstreamsMerged(ts, i, MergeBlock(ts[i], b), b, path);
    } else {
      AppendMeaning(ts, b, path);
    }
  }

  /** The paths of the result are those of either input, and at every path the upstream keys of the
      result are those of both inputs, counted with multiplicity. */
  lemma {:induction false} MergeMeaning(ts: seq<Tree>, bs: seq<Tree>, path: Path)
    requires Shaped(ts) && Shaped(bs)
    ensures Has(Merge(ts, bs), path) <==> Has(ts, path) || Has(bs, path)
    ensures path != [] ==> Upstreams(Merge(ts, bs), path) == Upstreams(ts, path) + Upstreams(bs, path)
    decreases bs, 0
  {
    if bs != [] && path != [] {
      MergeOneMeaning(ts, bs[0], path);
      MergeOneShaped(ts, bs[0]);
      MergeMeaning(MergeOne(ts, bs[0]), bs[1..], path);
      HasHead(bs, path);
    }
  }

  lemma HasHead(ts: seq<Tree>, path: Path)
    requires ts != [] && path != []
    ensures Has(ts, path) <==> Has([ts[0]], path) || Has(ts[1..], path)
  {
    assert ts == [ts[0]] + ts[1..];
    HasConcat([ts[0]], ts[1..], path);
  }
}
