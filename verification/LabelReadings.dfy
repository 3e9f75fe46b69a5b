/** The trees FromLabels can return for one label set: all sibling permutations, at every level, of any of
    them. Every such tree is built by going through the labels as they stand in it, depth first. */
module LabelReadings {
  import opened Seqs
  import opened Trees
  import opened Sorting
  import opened Listings
  import opened LabelTrees
  import opened LabelPlaces
  import opened Labels

  // ----- Trees that hang below a path -----

  /** Below q, each block under its parent, and no two siblings with one path. */
  ghost predicate Hangs(bs: seq<Named>, q: string, up: Up)
    decreases bs
  {
    && DistinctTops(bs)
    && forall i :: 0 <= i < |bs| ==>
         up(bs[i].path) == q && |q| < |bs[i].path| && Hangs(bs[i].kids, bs[i].path, up)
  }

  lemma {:induction false} CompleteHangs(bs: seq<Named>, q: string, all: Parents, up: Up)
    requires Complete(bs, q, all) && Recorded(all, up)
    ensures Hangs(bs, q, up)
    decreases bs
  {
    forall i | 0 <= i < |bs|
      ensures up(bs[i].path) == q && |q| < |bs[i].path| && Hangs(bs[i].kids, bs[i].path, up)
    {
      assert bs[i].path in Tops(bs);
      CompleteHangs(bs[i].kids, bs[i].path, all, up);
    }
  }

  lemma HangsTail(bs: seq<Named>, q: string, up: Up)
    requires Hangs(bs, q, up) && bs != []
    ensures Hangs(bs[1..], q, up) && Hangs(bs[0].kids, bs[0].path, up)
    ensures Hangs([bs[0]], q, up) && bs[0].path !in Tops(bs[1..])
  {
    TopsTail(bs);
  }

  /** Paths are longer than what they hang below, and their parents are there. */
  lemma {:induction false} HangsPath(bs: seq<Named>, q: string, up: Up, p: string)
    requires Hangs(bs, q, up) && p in Paths(bs)
    ensures |q| < |p| && |up(p)| < |p| && (if p in Tops(bs) then up(p) == q else up(p) in Paths(bs) && |q| < |up(p)|)
    decreases bs
  {
    HangsTail(bs, q, up);
    TopsTail(bs);
    if p in Paths(bs[0].kids) {
      HangsPath(bs[0].kids, bs[0].path, up, p);
      if p in Tops(bs) {
        NotAtTop(bs, q, up, p);
      }
    } else if p != bs[0].path {
      HangsPath(bs[1..], q, up, p);
    }
  }

  lemma NotAtTop(bs: seq<Named>, q: string, up: Up, p: string)
    requires Hangs(bs, q, up) && p in Tops(bs)
    ensures up(p) == q
  {
  }

  lemma {:induction false} HangsDisjoint(b: Named, bs: seq<Named>, q: string, up: Up, p: string)
    requires Hangs([b], q, up) && Hangs(bs, q, up) && b.path !in Tops(bs)
    ensures !(p in Paths([b]) && p in Paths(bs))
    decreases |p|
  {
    if p in Paths([b]) && p in Paths(bs) {
      HangsPath([b], q, up, p);
      HangsPath(bs, q, up, p);
      assert [b][0] == b && Tops([b]) == {b.path};
      HangsDisjoint(b, bs, q, up, up(p));
    }
  }

  lemma {:induction false} HangsDistinct(bs: seq<Named>, q: string, up: Up)
    requires Hangs(bs, q, up)
    ensures DistinctPaths(bs) && q !in Paths(bs)
    decreases bs
  {
    if q in Paths(bs) {
      HangsPath(bs, q, up, q);
    }
    if bs != [] {
      HangsTail(bs, q, up);
      HangsDistinct(bs[0].kids, bs[0].path, up);
      HangsDistinct(bs[1..], q, up);
      OnePath(bs[0]);
      forall p | p in PathsOf(bs[0]) ensures p !in Paths(bs[1..]) {
        HangsDisjoint(bs[0], bs[1..], q, up, p);
      }
    }
  }

  lemma OnePath(b: Named)
    ensures Paths([b]) == PathsOf(b)
  {
    assert [b][1..] == [] && Paths([]) == {};
  }

  // ----- Adding a whole tree -----

  /** Blocks added to the block with the path q, or at the top. */
  function Under(bs: seq<Named>, q: string, more: seq<Named>): seq<Named>
    decreases bs
  {
    if bs == [] then []
    else
      var kids := Under(bs[0].kids, q, more);
      [Named(bs[0].path, if bs[0].path == q then kids + more else kids)] + Under(bs[1..], q, more)
  }

  function GrownBy(bs: seq<Named>, q: string, more: seq<Named>): seq<Named> {
    if q == "" then bs + more else Under(bs, q, more)
  }

  lemma {:induction false} UnderAbsent(bs: seq<Named>, q: string, more: seq<Named>)
    requires q !in Paths(bs)
    ensures Under(bs, q, more) == bs
    decreases bs
  {
    if bs != [] {
      UnderAbsent(bs[0].kids, q, more);
      UnderAbsent(bs[1..], q, more);
      assert bs == [bs[0]] + bs[1..];
    }
  }

  lemma {:induction false} UnderConcat(a: seq<Named>, b: seq<Named>, q: string, more: seq<Named>)
    ensures Under(a + b, q, more) == Under(a, q, more) + Under(b, q, more)
    decreases |a|
  {
    if a == [] {
      assert a + b == b;
    } else {
      assert (a + b)[1..] == a[1..] + b;
      UnderConcat(a[1..], b, q, more);
    }
  }

  lemma {:induction false} UnderTwice(bs: seq<Named>, q: string, a: seq<Named>, b: seq<Named>)
    requires q !in Paths(a)
    ensures Under(Under(bs, q, a), q, b) == Under(bs, q, a + b)
    decreases bs
  {
    if bs != [] {
      var kids := Under(bs[0].kids, q, a);
      UnderTwice(bs[0].kids, q, a, b);
      UnderTwice(bs[1..], q, a, b);
      UnderConcat(kids, a, q, b);
      UnderAbsent(a, q, b);
      ConcatAssociative(Under(kids, q, b), a, b);
      var r := Under(bs, q, a);
      assert r[1..] == Under(bs[1..], q, a);
      assert Under(r, q, b)[1..] == Under(r[1..], q, b);
    }
  }

  /** Blocks below a block that was added just before. */
  lemma {:induction false} UnderNew(bs: seq<Named>, q: string, p: string, kids: seq<Named>)
    requires p !in Paths(bs)
    ensures Under(Under(bs, q, [Named(p, [])]), p, kids) == Under(bs, q, [Named(p, kids)])
    decreases bs
  {
    if bs != [] {
      var b := Named(p, []);
      var below := Under(bs[0].kids, q, [b]);
      UnderNew(bs[0].kids, q, p, kids);
      UnderNew(bs[1..], q, p, kids);
      UnderConcat(below, [b], p, kids);
      NewKids(p, kids);
      var r := Under(bs, q, [b]);
      assert r[1..] == Under(bs[1..], q, [b]);
    }
  }

  lemma NewKids(p: string, kids: seq<Named>)
    ensures Under([Named(p, [])], p, kids) == [Named(p, kids)]
  {
    assert [Named(p, [])][1..] == [] && Under([], p, kids) == [] && [] + kids == kids;
  }

  lemma GrownNew(bs: seq<Named>, q: string, p: string, kids: seq<Named>)
    requires p !in Paths(bs) && p != ""
    ensures GrownBy(GrownBy(bs, q, [Named(p, [])]), p, kids) == GrownBy(bs, q, [Named(p, kids)])
  {
    if q == "" {
      UnderConcat(bs, [Named(p, [])], p, kids);
      UnderAbsent(bs, p, kids);
      NewKids(p, kids);
    } else {
      UnderNew(bs, q, p, kids);
    }
  }

  lemma GrownTwice(bs: seq<Named>, q: string, a: seq<Named>, b: seq<Named>)
    requires q !in Paths(a)
    ensures GrownBy(GrownBy(bs, q, a), q, b) == GrownBy(bs, q, a + b)
  {
    if q == "" {
      ConcatAssociative(bs, a, b);
    } else {
      UnderTwice(bs, q, a, b);
    }
  }

  lemma {:induction false} UnderPaths(bs: seq<Named>, q: string, more: seq<Named>)
    ensures Paths(Under(bs, q, more)) == Paths(bs) + if q in Paths(bs) then Paths(more) else {}
    decreases bs
  {
    if bs != [] {
      var kids := Under(bs[0].kids, q, more);
      UnderPaths(bs[0].kids, q, more);
      UnderPaths(bs[1..], q, more);
      PathsConcat(kids, more);
      var r := Under(bs, q, more);
      assert r[1..] == Under(bs[1..], q, more);
    }
  }

  lemma {:induction false} PathsConcat(a: seq<Named>, b: seq<Named>)
    ensures Paths(a + b) == Paths(a) + Paths(b)
    decreases |a|
  {
    if a == [] {
      assert a + b == b;
    } else {
      assert (a + b)[1..] == a[1..] + b;
      PathsConcat(a[1..], b);
    }
  }

  lemma GrownPaths(bs: seq<Named>, q: string, more: seq<Named>)
    requires q == "" || q in Paths(bs)
    ensures Paths(GrownBy(bs, q, more)) == Paths(bs) + Paths(more)
  {
    if q == "" {
      PathsConcat(bs, more);
    } else {
      UnderPaths(bs, q, more);
    }
  }

  // ----- Going through labels -----

  /** getOrCreateBlock for one label after the other. */
  function AddPaths(bs: seq<Named>, keys: seq<string>, up: Up): seq<Named>
    requires forall k :: k in keys ==> Rooted(k, up)
    decreases |keys|
  {
    if keys == [] then bs else AddPaths(GetOrCreate(bs, keys[0], up), keys[1..], up)
  }

  lemma {:induction false} AddPathsConcat(bs: seq<Named>, a: seq<string>, b: seq<string>, up: Up)
    requires forall k :: k in a + b ==> Rooted(k, up)
    ensures AddPaths(bs, a + b, up) == AddPaths(AddPaths(bs, a, up), b, up)
    decreases |a|
  {
    if a == [] {
      assert a + b == b;
    } else {
      assert (a + b)[0] == a[0] && (a + b)[1..] == a[1..] + b;
      AddPathsConcat(GetOrCreate(bs, a[0], up), a[1..], b, up);
    }
  }

  /** The labels among the paths of a tree, depth first. */
  function Walk(bs: seq<Named>, labels: set<string>): seq<string>
    decreases bs
  {
    if bs == [] then []
    else (if bs[0].path in labels then [bs[0].path] else []) + Walk(bs[0].kids, labels) + Walk(bs[1..], labels)
  }

  lemma {:induction false} WalkMembers(bs: seq<Named>, labels: set<string>)
    ensures forall k :: k in Walk(bs, labels) <==> k in Paths(bs) && k in labels
    decreases bs
  {
    if bs != [] {
      WalkMembers(bs[0].kids, labels);
      WalkMembers(bs[1..], labels);
    }
  }

  lemma NoDuplicatesConcat<T>(a: seq<T>, b: seq<T>)
    requires NoDuplicates(a) && NoDuplicates(b) && forall x :: x in a ==> x !in b
    ensures NoDuplicates(a + b)
  {
    forall i, j | 0 <= i < j < |a + b| ensures (a + b)[i] != (a + b)[j] {
      assert i < |a| <= j ==> (a + b)[i] in a && (a + b)[j] in b;
    }
  }

  lemma {:induction false} WalkOnce(bs: seq<Named>, labels: set<string>)
    requires DistinctPaths(bs)
    ensures NoDuplicates(Walk(bs, labels))
    decreases bs
  {
    if bs != [] {
      WalkOnce(bs[0].kids, labels);
      WalkOnce(bs[1..], labels);
      WalkMembers(bs[0].kids, labels);
      WalkMembers(bs[1..], labels);
      var first := if bs[0].path in labels then [bs[0].path] else [];
      NoDuplicatesConcat(first, Walk(bs[0].kids, labels));
      NoDuplicatesConcat(first + Walk(bs[0].kids, labels), Walk(bs[1..], labels));
    }
  }

  lemma {:induction false} AddUnderOne(bs: seq<Named>, q: string, b: Named)
    ensures AddUnder(bs, q, b) == Under(bs, q, [b])
    decreases bs
  {
    if bs != [] {
      AddUnderOne(bs[0].kids, q, b);
      AddUnderOne(bs[1..], q, b);
    }
  }

  /** The parent is there. */
  ghost predicate Ready(bs: seq<Named>, q: string) {
    q == "" || q in Paths(bs)
  }

  lemma CreateNew(bs: seq<Named>, q: string, p: string, up: Up)
    requires Rooted(p, up) && up(p) == q && Ready(bs, q) && p !in Paths(bs)
    ensures GetOrCreate(bs, p, up) == GrownBy(bs, q, [Named(p, [])])
    ensures Paths(GetOrCreate(bs, p, up)) == Paths(bs) + {p}
  {
    AddUnderOne(bs, q, Named(p, []));
    GrownPaths(bs, q, [Named(p, [])]);
    OnePath(Named(p, []));
  }

  /** A block below b: creating b first makes no difference. */
  lemma {:induction false} CreateVia(bs: seq<Named>, q: string, b: Named, k: string, up: Up)
    requires Hangs([b], q, up) && Ready(bs, q) && Paths([b]) !! Paths(bs) && k in Paths([b])
    requires Rooted(k, up) && Rooted(b.path, up)
    ensures GetOrCreate(GetOrCreate(bs, b.path, up), k, up) == GetOrCreate(bs, k, up)
    decreases |k|
  {
    OnePath(b);
    assert [b][0] == b && Tops([b]) == {b.path};
    CreateNew(bs, q, b.path, up);
    if k != b.path {
      HangsPath([b], q, up, k);
      CreateVia(bs, q, b, up(k), up);
    }
  }

  lemma AddVia(bs: seq<Named>, q: string, b: Named, keys: seq<string>, up: Up)
    requires Hangs([b], q, up) && Ready(bs, q) && Paths([b]) !! Paths(bs) && Rooted(b.path, up)
    requires keys != [] && keys[0] in Paths([b]) && forall k :: k in keys ==> Rooted(k, up)
    ensures AddPaths(bs, keys, up) == AddPaths(GetOrCreate(bs, b.path, up), keys, up)
  {
    CreateVia(bs, q, b, keys[0], up);
  }

  /** Every block is a label or has one below it. */
  ghost predicate AllLabelled(bs: seq<Named>, labels: set<string>)
    decreases bs
  {
    forall i :: 0 <= i < |bs| ==> Walk([bs[i]], labels) != [] && AllLabelled(bs[i].kids, labels)
  }

  ghost predicate AllRooted(bs: seq<Named>, up: Up) {
    forall p :: p in Paths(bs) ==> Rooted(p, up)
  }

  lemma WalkHead(bs: seq<Named>, labels: set<string>)
    requires bs != []
    ensures Walk(bs, labels) == Walk([bs[0]], labels) + Walk(bs[1..], labels)
    ensures Walk([bs[0]], labels) == (if bs[0].path in labels then [bs[0].path] else []) + Walk(bs[0].kids, labels)
  {
    assert [bs[0]][1..] == [] && Walk([], labels) == [];
  }

  lemma WalkRooted(bs: seq<Named>, labels: set<string>, up: Up)
    requires AllRooted(bs, up)
    ensures forall k :: k in Walk(bs, labels) ==> Rooted(k, up)
  {
    WalkMembers(bs, labels);
  }

  lemma PathsHead(bs: seq<Named>)
    requires bs != []
    ensures Paths(bs) == Paths([bs[0]]) + Paths(bs[1..])
    ensures Paths([bs[0]]) == {bs[0].path} + Paths(bs[0].kids)
  {
    OnePath(bs[0]);
  }

  /** Going through the labels of a tree depth first adds that tree. */
  lemma {:induction false} WalkBuilds(bs: seq<Named>, q: string, cs: seq<Named>, labels: set<string>, up: Up)
    requires Hangs(cs, q, up) && Ready(bs, q) && Paths(cs) !! Paths(bs) && AllRooted(cs, up)
    requires AllLabelled(cs, labels) && forall k :: k in Walk(cs, labels) ==> Rooted(k, up)
    ensures AddPaths(bs, Walk(cs, labels), up) == GrownBy(bs, q, cs)
    decreases cs, 1
  {
    if cs == [] {
      UnderNothing(bs, q);
    } else {
      var c, rest := cs[0], cs[1..];
      HangsTail(cs, q, up);
      PathsHead(cs);
      WalkHead(cs, labels);
      WalkRooted([c], labels, up);
      WalkRooted(rest, labels, up);
      AddPathsConcat(bs, Walk([c], labels), Walk(rest, labels), up);
      WalkBlockBuilds(bs, q, c, labels, up);
      GrownPaths(bs, q, [c]);
      HangsDistinct(cs, q, up);
      OnePath(c);
      WalkBuilds(GrownBy(bs, q, [c]), q, rest, labels, up);
      GrownTwice(bs, q, [c], rest);
      assert [c] + rest == cs;
    }
  }

  lemma {:induction false} UnderNothing(bs: seq<Named>, q: string)
    ensures Under(bs, q, []) == bs && GrownBy(bs, q, []) == bs
    decreases bs
  {
    if bs != [] {
      UnderNothing(bs[0].kids, q);
      UnderNothing(bs[1..], q);
      assert bs == [bs[0]] + bs[1..] && bs[0].kids + [] == bs[0].kids;
    }
    assert bs + [] == bs;
  }

  lemma {:induction false} WalkBlockBuilds(bs: seq<Named>, q: string, c: Named, labels: set<string>, up: Up)
    requires Hangs([c], q, up) && Ready(bs, q) && Paths([c]) !! Paths(bs) && AllRooted([c], up)
    requires Hangs(c.kids, c.path, up) && Walk([c], labels) != [] && AllLabelled(c.kids, labels)
    requires forall k :: k in Walk([c], labels) ==> Rooted(k, up)
    ensures AddPaths(bs, Walk([c], labels), up) == GrownBy(bs, q, [c])
    decreases c, 0
  {
    var p := c.path;
    PathsHead([c]);
    WalkMembers([c], labels);
    WalkMembers(c.kids, labels);
    CreateNew(bs, q, p, up);
    var first := GetOrCreate(bs, p, up);
    AddVia(bs, q, c, Walk([c], labels), up);
    WalkPast(first, c, labels, up);
    HangsDistinct(c.kids, p, up);
    assert [c][0] == c;
    WalkBuilds(first, p, c.kids, labels, up);
    GrownNew(bs, q, p, c.kids);
    NoKids(c);
  }

  lemma NoKids(c: Named)
    ensures Named(c.path, c.kids) == c
  {
  }

  /** The label of a block that is there changes nothing. */
  lemma WalkPast(bs: seq<Named>, c: Named, labels: set<string>, up: Up)
    requires c.path in Paths(bs) && Rooted(c.path, up)
    requires forall k :: k in Walk([c], labels) ==> Rooted(k, up)
    ensures (forall k :: k in Walk(c.kids, labels) ==> Rooted(k, up))
    ensures AddPaths(bs, Walk([c], labels), up) == AddPaths(bs, Walk(c.kids, labels), up)
  {
    WalkHead([c], labels);
    var keys := Walk(c.kids, labels);
    WalkMembers([c], labels);
    WalkMembers(c.kids, labels);
    PathsHead([c]);
    if c.path in labels {
      assert ([c.path] + keys)[1..] == keys && ([c.path] + keys)[0] == c.path;
    } else {
      assert [] + keys == keys;
    }
  }

  // ----- Labels below every block -----

  /** A label with an ancestor in a complete tree is below that ancestor. */
  lemma {:induction false} LabelBelow(c: Named, all: Parents, up: Up, k: string)
    requires Complete(c.kids, c.path, all) && Recorded(all, up) && c.path in all
    requires Rooted(k, up) && c.path in Ancestors(k, up) && Ancestors(k, up).Keys <= all.Keys
    ensures k in Paths([c])
    decreases |k|
  {
    OnePath(c);
    if k != c.path {
      LabelBelow(c, all, up, up(k));
      assert k in Ancestors(k, up);
      assert [c][0] == c && Tops([c]) == {c.path};
      PathsComplete([c], all);
    }
  }

  lemma {:induction false} CompleteLabelled(bs: seq<Named>, q: string, keys: seq<string>, labels: set<string>, up: Up)
    requires forall k :: k in keys ==> Rooted(k, up) && k in labels
    requires Complete(bs, q, Closure(keys, up))
    ensures AllLabelled(bs, labels)
    decreases bs
  {
    var all := Closure(keys, up);
    ClosureMembers(keys, up);
    forall i | 0 <= i < |bs| ensures Walk([bs[i]], labels) != [] && AllLabelled(bs[i].kids, labels) {
      assert bs[i].path in Tops(bs);
      var k :| k in keys && bs[i].path in Ancestors(k, up);
      LabelBelow(bs[i], all, up, k);
      WalkMembers([bs[i]], labels);
      CompleteLabelled(bs[i].kids, bs[i].path, keys, labels, up);
    }
  }

  lemma {:induction false} AncestorsRooted(path: string, up: Up)
    requires Rooted(path, up)
    ensures forall p :: p in Ancestors(path, up) ==> Rooted(p, up)
    decreases |path|
  {
    if up(path) != "" {
      AncestorsRooted(up(path), up);
    }
  }

  lemma CompleteRooted(bs: seq<Named>, keys: seq<string>, up: Up)
    requires forall k :: k in keys ==> Rooted(k, up)
    requires Complete(bs, "", Closure(keys, up))
    ensures AllRooted(bs, up) && Paths(bs) == Closure(keys, up).Keys
  {
    ClosureMembers(keys, up);
    CompletePaths(bs, Closure(keys, up));
    forall p | p in Paths(bs) ensures Rooted(p, up) {
      var k :| k in keys && p in Ancestors(k, up);
      AncestorsRooted(k, up);
    }
  }

  // ----- Every sibling permutation is a reading -----

  lemma {:induction false} AddLabelsBlocks(b: Building, keys: seq<string>, up: Up, arguments: Arguments)
    requires forall k :: k in keys ==> Rooted(k, up)
    requires AllHaveArguments(keys, arguments)
    ensures AddLabels(Some(b), keys, up, arguments).Some?
    ensures AddLabels(Some(b), keys, up, arguments).value.blocks == AddPaths(b.blocks, keys, up)
    decreases |keys|
  {
    if keys != [] {
      assert keys[0] in keys;
      AddLabelsBlocks(AddLabel(b, keys[0], up, arguments).value, keys[1..], up, arguments);
    }
  }

  function Inserted(rest: seq<Named>, j: nat, b: Named): (cs: seq<Named>)
    requires j <= |rest|
    ensures |cs| == |rest| + 1 && forall i :: 0 <= i < |cs| ==>
              cs[i] == if i < j then rest[i] else if i == j then b else rest[i - 1]
  {
    rest[..j] + [b] + rest[j..]
  }

  lemma InsertTops(rest: seq<Named>, j: nat, b: Named)
    requires j <= |rest|
    ensures Tops(Inserted(rest, j, b)) == Tops(rest) + {b.path}
  {
    var cs := Inserted(rest, j, b);
    forall i | 0 <= i < |rest| ensures rest[i].path in Tops(cs) {
      assert cs[if i < j then i else i + 1] == rest[i];
    }
    assert cs[j].path in Tops(cs);
  }

  lemma InsertDistinct(rest: seq<Named>, j: nat, b: Named)
    requires j <= |rest| && DistinctTops(rest) && b.path !in Tops(rest)
    ensures DistinctTops(Inserted(rest, j, b))
  {
    var cs := Inserted(rest, j, b);
    forall i, k | 0 <= i < k < |cs| ensures cs[i].path != cs[k].path {
      var m, n := if i < j then i else i - 1, if k < j then k else k - 1;
      assert i != j ==> cs[i] == rest[m] && rest[m].path in Tops(rest);
      assert k != j ==> cs[k] == rest[n] && rest[n].path in Tops(rest);
    }
  }

  lemma InsertComplete(rest: seq<Named>, j: nat, b: Named, all: Parents)
    requires j <= |rest| && CompleteBlocks(rest, all) && b.path !in Tops(rest) && Complete(b.kids, b.path, all)
    ensures CompleteBlocks(Inserted(rest, j, b), all)
  {
    var cs := Inserted(rest, j, b);
    InsertDistinct(rest, j, b);
    forall i | 0 <= i < |cs| ensures Complete(cs[i].kids, cs[i].path, all) {
    }
  }

  /** A sibling permutation of the tree, with its paths. */
  lemma {:induction false} NamedShuffle(bs: seq<Named>, us: seq<Tree>, headers: Headers, all: Parents)
    returns (cs: seq<Named>)
    requires CompleteBlocks(bs, all) && ShuffledForest(Render(bs, headers), us)
    ensures CompleteBlocks(cs, all) && Tops(cs) == Tops(bs) && Render(cs, headers) == us
    decreases bs
  {
    if bs == [] {
      cs := [];
    } else {
      var ts := Render(bs, headers);
      assert ts[0] == RenderBlock(bs[0], headers) && ts[1..] == Render(bs[1..], headers);
      var j :| 0 <= j < |us| && Shuffled(ts[0], us[j]) && ShuffledForest(ts[1..], Without(us, j));
      CompleteWithout(bs, 0, all);
      assert Without(bs, 0) == bs[1..];
      TopsTail(bs);
      var kids := NamedShuffle(bs[0].kids, us[j].kids, headers, all);
      var rest := NamedShuffle(bs[1..], Without(us, j), headers, all);
      RenderAt(rest, headers);
      var b := Named(bs[0].path, kids);
      cs := Inserted(rest, j, b);
      InsertTops(rest, j, b);
      InsertComplete(rest, j, b, all);
      InsertRender(rest, j, b, us, headers);
    }
  }

  lemma {:induction false} InsertRender(rest: seq<Named>, j: nat, b: Named, us: seq<Tree>, headers: Headers)
    requires j < |us| && j <= |rest| && Render(rest, headers) == Without(us, j) && RenderBlock(b, headers) == us[j]
    ensures Render(Inserted(rest, j, b), headers) == us
  {
    var cs := Inserted(rest, j, b);
    RenderAt(rest, headers);
    RenderAt(cs, headers);
    forall i | 0 <= i < |us| ensures Render(cs, headers)[i] == us[i] {
      if i != j {
        assert us[i] == Without(us, j)[if i < j then i else i - 1];
      }
    }
  }

  /** Every sibling permutation of an assembled tree is assembled in some order of the labels. */
  lemma EveryOrder(keys: seq<string>, up: Up, arguments: Arguments, headersOf: map<string, seq<string>> -> Headers,
                   us: seq<Tree>) returns (others: seq<string>)
    requires NoDuplicates(keys) && forall k :: k in keys ==> Rooted(k, up)
    requires Assemble(keys, up, arguments, headersOf).Some?
    requires ShuffledForest(Assemble(keys, up, arguments, headersOf).value, us)
    ensures NoDuplicates(others) && forall k :: k in others <==> k in keys
    ensures Assemble(others, up, arguments, headersOf) == Some(us)
  {
    var all := Closure(keys, up);
    OneOrder(keys, up, arguments);
    var b := AddLabels(Some(Building([], map[])), keys, up, arguments).value;
    var cs := NamedShuffle(b.blocks, us, headersOf(b.args), all);
    others := WalkLabels(cs, keys, up);
    AddLabelsBlocks(Building([], map[]), others, up, arguments);
    OneOrder(others, up, arguments);
    assert ArgumentsMap(others, arguments) == ArgumentsMap(keys, arguments);
  }

  /** The labels in an order that builds a given complete tree. */
  lemma WalkLabels(cs: seq<Named>, keys: seq<string>, up: Up) returns (others: seq<string>)
    requires forall k :: k in keys ==> Rooted(k, up)
    requires Complete(cs, "", Closure(keys, up))
    ensures NoDuplicates(others) && forall k :: k in others <==> k in keys
    ensures AddPaths([], others, up) == cs
  {
    var labels := set k | k in keys;
    others := Walk(cs, labels);
    LabelsPresent(cs, keys, up);
    WalkMembers(cs, labels);
    WalkAll(cs, keys, labels, up);
  }

  lemma LabelsPresent(cs: seq<Named>, keys: seq<string>, up: Up)
    requires forall k :: k in keys ==> Rooted(k, up)
    requires Complete(cs, "", Closure(keys, up))
    ensures forall k :: k in keys ==> k in Paths(cs)
  {
    ClosureMembers(keys, up);
    CompleteRooted(cs, keys, up);
    forall k | k in keys ensures k in Paths(cs) {
      AncestorsRecorded(k, up);
    }
  }

  lemma WalkAll(cs: seq<Named>, keys: seq<string>, labels: set<string>, up: Up)
    requires forall k :: k in keys ==> Rooted(k, up) && k in labels
    requires Complete(cs, "", Closure(keys, up)) && forall k :: k in Walk(cs, labels) ==> Rooted(k, up)
    ensures NoDuplicates(Walk(cs, labels)) && AddPaths([], Walk(cs, labels), up) == cs
  {
    ClosureMembers(keys, up);
    CompleteRooted(cs, keys, up);
    CompleteLabelled(cs, "", keys, labels, up);
    CompleteHangs(cs, "", Closure(keys, up), up);
    HangsDistinct(cs, "", up);
    WalkOnce(cs, labels);
    WalkBuilds([], "", cs, labels, up);
    assert [] + cs == cs;
  }

  /** Given one reading of a label set, its readings are exactly the trees with the same blocks, siblings in
      any order. */
  lemma ReadingsExact(labels: map<string, string>, keys: seq<string>, template: Template, ts: seq<Tree>, us: seq<Tree>)
    requires Lists(keys, labels) && WellFormedLabels(labels) && FromLabels(labels, keys, template) == Some(ts)
    ensures ShuffledForest(ts, us) <==>
            exists others :: Lists(others, labels) && FromLabels(labels, others, template) == Some(us)
  {
    IterationRooted(keys, labels);
    if ShuffledForest(ts, us) {
      var others := EveryOrder(keys, ParentPath, ArgumentsOf(labels, template), HeadersOf, us);
      assert Lists(others, labels);
      IterationRooted(others, labels);
      assert FromLabels(labels, others, template) == Some(us);
    }
    if others :| Lists(others, labels) && FromLabels(labels, others, template) == Some(us) {
      FromLabelsDeterministic(labels, keys, others, template);
    }
  }
}
