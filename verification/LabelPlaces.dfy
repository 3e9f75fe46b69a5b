/** Where the block of a path is in the tree under construction: its place, index by index from the root. */
module LabelPlaces {
  import opened Trees
  import opened LabelTrees
  import opened Spines

  /** The place leads to the block with the path. */
  ghost predicate PlaceIs(bs: seq<Named>, place: seq<nat>, path: string)
    decreases |place|
  {
    && place != [] && place[0] < |bs|
    && if |place| == 1 then bs[place[0]].path == path else PlaceIs(bs[place[0]].kids, place[1..], path)
  }

  /** No path is used twice. */
  ghost predicate DistinctPaths(bs: seq<Named>)
    decreases bs
  {
    bs == [] ||
    (&& bs[0].path !in Paths(bs[0].kids) && PathsOf(bs[0]) !! Paths(bs[1..])
     && DistinctPaths(bs[0].kids) && DistinctPaths(bs[1..]))
  }

  /** A block added to the block at the place. */
  function GrownAt(bs: seq<Named>, place: seq<nat>, b: Named): seq<Named>
    decreases |place|
  {
    if place == [] then bs + [b]
    else if place[0] >= |bs| then bs
    else bs[place[0] := Named(bs[place[0]].path, GrownAt(bs[place[0]].kids, place[1..], b))]
  }

  lemma {:induction false} PlaceMember(bs: seq<Named>, place: seq<nat>, path: string)
    requires PlaceIs(bs, place, path)
    ensures path in Paths(bs)
    decreases |place|, |bs|
  {
    if place[0] == 0 {
      if |place| > 1 {
        PlaceMember(bs[0].kids, place[1..], path);
      }
    } else {
      PlaceTail(bs, place, path);
      PlaceMember(bs[1..], [place[0] - 1] + place[1..], path);
    }
  }

  lemma PlaceTail(bs: seq<Named>, place: seq<nat>, path: string)
    requires PlaceIs(bs, place, path) && place[0] > 0
    ensures PlaceIs(bs[1..], [place[0] - 1] + place[1..], path)
  {
    var rest := [place[0] - 1] + place[1..];
    assert rest[1..] == place[1..] && bs[1..][rest[0]] == bs[place[0]];
  }

  lemma {:induction false} AddUnderAbsent(bs: seq<Named>, parent: string, b: Named)
    requires parent !in Paths(bs)
    ensures AddUnder(bs, parent, b) == bs
    decreases bs
  {
    if bs != [] {
      AddUnderAbsent(bs[0].kids, parent, b);
      AddUnderAbsent(bs[1..], parent, b);
      assert bs == [bs[0]] + bs[1..];
    }
  }

  lemma GrownTail(bs: seq<Named>, place: seq<nat>, b: Named)
    requires bs != [] && place != [] && 0 < place[0] < |bs|
    ensures GrownAt(bs, place, b) == [bs[0]] + GrownAt(bs[1..], [place[0] - 1] + place[1..], b)
  {
    var rest := [place[0] - 1] + place[1..];
    assert rest[1..] == place[1..] && bs[1..][rest[0]] == bs[place[0]];
  }

  lemma GrownHead(bs: seq<Named>, place: seq<nat>, b: Named)
    requires bs != [] && place != [] && place[0] == 0
    ensures GrownAt(bs, place, b) == [Named(bs[0].path, GrownAt(bs[0].kids, place[1..], b))] + bs[1..]
  {
  }

  /** The only block with the parent's path is the one at its place. */
  lemma {:induction false} AddUnderPlace(bs: seq<Named>, place: seq<nat>, parent: string, b: Named)
    requires DistinctPaths(bs) && PlaceIs(bs, place, parent)
    ensures AddUnder(bs, parent, b) == GrownAt(bs, place, b)
    decreases |place|, |bs|
  {
    if place[0] == 0 {
      GrownHead(bs, place, b);
      if |place| == 1 {
        AddUnderAbsent(bs[0].kids, parent, b);
        assert place[1..] == [];
      } else {
        PlaceMember(bs[0].kids, place[1..], parent);
        AddUnderPlace(bs[0].kids, place[1..], parent, b);
      }
      assert parent in PathsOf(bs[0]);
      AddUnderAbsent(bs[1..], parent, b);
    } else {
      var rest := [place[0] - 1] + place[1..];
      PlaceTail(bs, place, parent);
      PlaceMember(bs[1..], rest, parent);
      AddUnderAbsent(bs[0].kids, parent, b);
      AddUnderPlace(bs[1..], rest, parent, b);
      GrownTail(bs, place, b);
    }
  }

  lemma {:induction false} AddUnderPaths(bs: seq<Named>, parent: string, b: Named)
    ensures Paths(AddUnder(bs, parent, b)) == Paths(bs) + if parent in Paths(bs) then PathsOf(b) else {}
    decreases bs
  {
    if bs != [] {
      var kids := AddUnder(bs[0].kids, parent, b);
      var first := Named(bs[0].path, if bs[0].path == parent then kids + [b] else kids);
      AddUnderPaths(bs[0].kids, parent, b);
      AddUnderPaths(bs[1..], parent, b);
      AppendPaths(kids, b);
      var r := AddUnder(bs, parent, b);
      assert r[0] == first && r[1..] == AddUnder(bs[1..], parent, b);
    }
  }

  lemma {:induction false} AppendPaths(bs: seq<Named>, b: Named)
    ensures Paths(bs + [b]) == Paths(bs) + PathsOf(b)
    decreases |bs|
  {
    if bs == [] {
      assert bs + [b] == [b] && [b][1..] == [];
    } else {
      assert (bs + [b])[1..] == bs[1..] + [b];
      AppendPaths(bs[1..], b);
    }
  }

  lemma {:induction false} AppendDistinct(bs: seq<Named>, b: Named)
    requires DistinctPaths(bs) && b.path !in Paths(bs) && b.kids == []
    ensures DistinctPaths(bs + [b])
    decreases |bs|
  {
    if bs == [] {
      assert bs + [b] == [b] && [b][1..] == [];
    } else {
      assert (bs + [b])[1..] == bs[1..] + [b];
      AppendDistinct(bs[1..], b);
      AppendPaths(bs[1..], b);
    }
  }

  lemma {:induction false} AddUnderDistinct(bs: seq<Named>, parent: string, b: Named)
    requires DistinctPaths(bs) && b.path !in Paths(bs) && b.kids == []
    ensures DistinctPaths(AddUnder(bs, parent, b))
    decreases bs
  {
    if bs != [] {
      var kids := AddUnder(bs[0].kids, parent, b);
      AddUnderDistinct(bs[0].kids, parent, b);
      AddUnderDistinct(bs[1..], parent, b);
      AddUnderPaths(bs[0].kids, parent, b);
      AddUnderPaths(bs[1..], parent, b);
      AppendPaths(kids, b);
      var r := AddUnder(bs, parent, b);
      assert r[1..] == AddUnder(bs[1..], parent, b);
      if bs[0].path == parent {
        AddUnderAbsent(bs[0].kids, parent, b);
        AddUnderAbsent(bs[1..], parent, b);
        AppendDistinct(kids, b);
      }
    }
  }

  /** Adding blocks moves none. */
  lemma {:induction false} PlaceKept(bs: seq<Named>, place: seq<nat>, b: Named, at: seq<nat>, path: string)
    requires PlaceIs(bs, at, path)
    ensures PlaceIs(GrownAt(bs, place, b), at, path)
    decreases |at|
  {
    if place != [] && place[0] < |bs| && at[0] == place[0] && |at| > 1 {
      PlaceKept(bs[at[0]].kids, place[1..], b, at[1..], path);
    }
  }

  /** The children of the block at the place. */
  function KidsAt(ts: seq<Tree>, place: seq<nat>): seq<Tree>
    decreases |place|
  {
    if place == [] then ts else if place[0] >= |ts| then [] else KidsAt(ts[place[0]].kids, place[1..])
  }

  lemma {:induction false} NewPlace(bs: seq<Named>, place: seq<nat>, b: Named, headers: Headers, parent: string)
    requires place == [] || PlaceIs(bs, place, parent)
    ensures PlaceIs(GrownAt(bs, place, b), place + [|KidsAt(Render(bs, headers), place)|], b.path)
    decreases |place|
  {
    var at := place + [|KidsAt(Render(bs, headers), place)|];
    RenderAt(bs, headers);
    if place != [] {
      assert at[1..] == place[1..] + [|KidsAt(Render(bs, headers), place)|];
      NewPlace(bs[place[0]].kids, place[1..], b, headers, parent);
    }
  }

  lemma {:induction false} RenderGrown(bs: seq<Named>, place: seq<nat>, b: Named, headers: Headers)
    ensures Render(GrownAt(bs, place, b), headers) == Grown(Render(bs, headers), place, RenderBlock(b, headers))
    decreases |place|
  {
    var cs := GrownAt(bs, place, b);
    RenderAt(bs, headers);
    RenderAt(cs, headers);
    if place != [] && place[0] < |bs| {
      RenderGrown(bs[place[0]].kids, place[1..], b, headers);
    }
    assert Render(cs, headers) == Grown(Render(bs, headers), place, RenderBlock(b, headers));
  }

  lemma {:induction false} RenderSame(bs: seq<Named>, headers: Headers, others: Headers)
    requires forall p :: p in Paths(bs) ==> headers(p) == others(p)
    ensures Render(bs, headers) == Render(bs, others)
    decreases bs
  {
    if bs != [] {
      assert bs[0].path in Paths(bs);
      RenderSame(bs[0].kids, headers, others);
      RenderSame(bs[1..], headers, others);
    }
  }

  /** Keys added to the block at the place are keys added to the header of its path. */
  lemma {:induction false} RenderKeys(bs: seq<Named>, place: seq<nat>, i: nat, path: string, more: seq<string>,
                                      headers: Headers, others: Headers)
    requires DistinctPaths(bs) && PlaceIs(bs, place + [i], path)
    requires forall p :: p in Paths(bs) && p != path ==> headers(p) == others(p)
    requires others(path) == Header(headers(path).order, headers(path).keys + more)
    ensures Render(bs, others) == WithKeys(Render(bs, headers), place, i, more)
    decreases |place|, |bs|
  {
    var full := place + [i];
    PlaceMember(bs, full, path);
    if full[0] == 0 {
      if place == [] {
        TopKeys(bs, path, more, headers, others);
      } else {
        assert full[1..] == place[1..] + [i];
        PlaceMember(bs[0].kids, full[1..], path);
        RenderKeys(bs[0].kids, place[1..], i, path, more, headers, others);
        assert path in PathsOf(bs[0]);
        RenderSame(bs[1..], headers, others);
        assert headers(bs[0].path) == others(bs[0].path);
      }
    } else {
      PlaceTail(bs, full, path);
      var rest := [full[0] - 1] + full[1..];
      PlaceMember(bs[1..], rest, path);
      RenderSame(bs[0].kids, headers, others);
      assert headers(bs[0].path) == others(bs[0].path);
      var (place', i') := if place == [] then ([], i - 1) else ([place[0] - 1] + place[1..], i);
      assert rest == place' + [i'];
      RenderKeys(bs[1..], place', i', path, more, headers, others);
      WithKeysTail(Render(bs, headers), place, i, more);
    }
  }

  lemma WithKeysTail(ts: seq<Tree>, place: seq<nat>, i: nat, more: seq<string>)
    requires ts != [] && (if place == [] then i > 0 else place[0] > 0)
    ensures WithKeys(ts, place, i, more) ==
            [ts[0]] + if place == [] then WithKeys(ts[1..], [], i - 1, more)
                      else WithKeys(ts[1..], [place[0] - 1] + place[1..], i, more)
  {
    if place == [] {
      if i < |ts| { assert ts[1..][i - 1] == ts[i]; }
    } else if place[0] < |ts| {
      var rest := [place[0] - 1] + place[1..];
      assert rest[1..] == place[1..] && ts[1..][rest[0]] == ts[place[0]];
    }
  }

  lemma TopKeys(bs: seq<Named>, path: string, more: seq<string>, headers: Headers, others: Headers)
    requires DistinctPaths(bs) && bs != [] && bs[0].path == path
    requires forall p :: p in Paths(bs) && p != path ==> headers(p) == others(p)
    requires others(path) == Header(headers(path).order, headers(path).keys + more)
    ensures Render(bs, others) == WithKeys(Render(bs, headers), [], 0, more)
  {
    var first, kids := bs[0], bs[0].kids;
    assert path in PathsOf(first) && path !in Paths(bs[1..]) && path !in Paths(kids);
    assert Paths(bs) == PathsOf(first) + Paths(bs[1..]) && PathsOf(first) == {path} + Paths(kids);
    RenderSame(bs[1..], headers, others);
    RenderSame(kids, headers, others);
    var t := RenderBlock(first, headers);
    assert RenderBlock(first, others) == t.(keys := t.keys + more);
    assert Render(bs, headers) == [t] + Render(bs[1..], headers);
  }
}
