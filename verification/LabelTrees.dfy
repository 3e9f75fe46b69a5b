/** The tree under construction in FromLabels, with each block named by its path in blocksByPath.
    A path set is given with the parent of each path; top-level paths have the parent "". */
module LabelTrees {
  import opened Seqs
  import opened Trees
  import opened Sorting
  import opened Listings

  datatype Named = Named(path: string, kids: seq<Named>)

  type Parents = map<string, string>

  function PathsOf(b: Named): set<string>
    decreases b, 1
  {
    {b.path} + Paths(b.kids)
  }

  function Paths(bs: seq<Named>): set<string>
    decreases bs, 0
  {
    if bs == [] then {} else PathsOf(bs[0]) + Paths(bs[1..])
  }

  /** AddBlock on the block with the path `parent`. */
  function AddUnder(bs: seq<Named>, parent: string, b: Named): seq<Named>
    decreases bs
  {
    if bs == [] then []
    else
      var kids := AddUnder(bs[0].kids, parent, b);
      [Named(bs[0].path, if bs[0].path == parent then kids + [b] else kids)] + AddUnder(bs[1..], parent, b)
  }

  /** What a block holds besides its children. */
  datatype Header = Header(order: int, keys: seq<string>)

  type Headers = string -> Header

  function RenderBlock(b: Named, headers: Headers): Tree
    decreases b, 1
  {
    Node(headers(b.path).order, headers(b.path).keys, Render(b.kids, headers))
  }

  /** The tree that the blocks form. */
  function Render(bs: seq<Named>, headers: Headers): seq<Tree>
    decreases bs, 0
  {
    if bs == [] then [] else [RenderBlock(bs[0], headers)] + Render(bs[1..], headers)
  }

  // ----- Complete trees -----

  ghost function Tops(bs: seq<Named>): set<string> {
    set i | 0 <= i < |bs| :: bs[i].path
  }

  ghost predicate DistinctTops(bs: seq<Named>) {
    forall i, j :: 0 <= i < j < |bs| ==> bs[i].path != bs[j].path
  }

  ghost function KidsOf(parent: string, all: Parents): set<string> {
    set p | p in all && all[p] == parent
  }

  ghost predicate CompleteBlocks(bs: seq<Named>, all: Parents)
    decreases bs, 0
  {
    DistinctTops(bs) && forall i :: 0 <= i < |bs| ==> Complete(bs[i].kids, bs[i].path, all)
  }

  /** Below `parent` there is exactly one block for each path with that parent, and so on down. */
  ghost predicate Complete(bs: seq<Named>, parent: string, all: Parents)
    decreases bs, 1
  {
    CompleteBlocks(bs, all) && Tops(bs) == KidsOf(parent, all)
  }

  /** Parents are shorter than their paths, and present unless they are the root. */
  ghost predicate PrefixClosed(all: Parents) {
    forall p :: p in all ==> |all[p]| < |p| && (all[p] == "" || all[p] in all)
  }

  lemma NoTops(bs: seq<Named>)
    ensures Tops(bs) == {} <==> bs == []
  {
    if bs != [] {
      assert bs[0].path in Tops(bs);
    }
  }

  lemma TopsTail(bs: seq<Named>)
    requires bs != []
    ensures Tops(bs) == {bs[0].path} + Tops(bs[1..])
    ensures DistinctTops(bs) ==> DistinctTops(bs[1..]) && bs[0].path !in Tops(bs[1..])
  {
    forall p | p in Tops(bs) ensures p in {bs[0].path} + Tops(bs[1..]) {
      var i :| 0 <= i < |bs| && bs[i].path == p;
      if i > 0 { assert bs[1..][i - 1] == bs[i]; }
    }
    forall p | p in Tops(bs[1..]) ensures p in Tops(bs) {
      var i :| 0 <= i < |bs[1..]| && bs[1..][i].path == p;
      assert bs[i + 1] == bs[1..][i];
    }
  }

  lemma TopsWithout(bs: seq<Named>, j: nat)
    requires j < |bs| && DistinctTops(bs)
    ensures DistinctTops(Without(bs, j)) && Tops(Without(bs, j)) == Tops(bs) - {bs[j].path}
  {
    var rest := Without(bs, j);
    forall i | 0 <= i < |rest| ensures rest[i] == bs[if i < j then i else i + 1] {}
    forall p | p in Tops(bs) - {bs[j].path} ensures p in Tops(rest) {
      var i :| 0 <= i < |bs| && bs[i].path == p;
      assert rest[if i < j then i else i - 1] == bs[i];
    }
  }

  lemma CompleteWithout(bs: seq<Named>, j: nat, all: Parents)
    requires j < |bs| && CompleteBlocks(bs, all)
    ensures CompleteBlocks(Without(bs, j), all)
  {
    TopsWithout(bs, j);
    var rest := Without(bs, j);
    forall i | 0 <= i < |rest| ensures Complete(rest[i].kids, rest[i].path, all) {
      assert rest[i] == bs[if i < j then i else i + 1];
    }
  }

  lemma {:induction false} RenderAt(bs: seq<Named>, headers: Headers)
    ensures |Render(bs, headers)| == |bs|
    ensures forall i :: 0 <= i < |bs| ==> Render(bs, headers)[i] == RenderBlock(bs[i], headers)
    decreases |bs|
  {
    if bs != [] {
      RenderAt(bs[1..], headers);
    }
  }

  lemma RenderWithout(bs: seq<Named>, j: nat, headers: Headers)
    requires j < |bs|
    ensures |Render(bs, headers)| == |bs| && Render(bs, headers)[j] == RenderBlock(bs[j], headers)
    ensures Render(Without(bs, j), headers) == Without(Render(bs, headers), j)
  {
    var rest := Without(bs, j);
    RenderAt(bs, headers);
    RenderAt(rest, headers);
    var r, w := Render(rest, headers), Without(Render(bs, headers), j);
    forall i | 0 <= i < |rest| ensures r[i] == w[i] {
      assert rest[i] == bs[if i < j then i else i + 1];
    }
  }

  /** Two complete trees over the same paths are sibling permutations of each other, at every level. */
  lemma {:induction false} CompleteShuffled(cs: seq<Named>, bs: seq<Named>, headers: Headers, all: Parents)
    requires CompleteBlocks(cs, all) && CompleteBlocks(bs, all) && Tops(cs) == Tops(bs)
    ensures ShuffledForest(Render(cs, headers), Render(bs, headers))
    decreases cs
  {
    if cs == [] {
      NoTops(bs);
    } else {
      var c := cs[0];
      assert c.path in Tops(bs);
      var j :| 0 <= j < |bs| && bs[j].path == c.path;
      CompleteShuffled(c.kids, bs[j].kids, headers, all);
      TopsTail(cs);
      TopsWithout(bs, j);
      CompleteWithout(cs, 0, all);
      assert Without(cs, 0) == cs[1..];
      CompleteWithout(bs, j, all);
      CompleteShuffled(cs[1..], Without(bs, j), headers, all);
      RenderWithout(bs, j, headers);
      assert Render(cs, headers)[0] == RenderBlock(c, headers) && Render(cs, headers)[1..] == Render(cs[1..], headers);
      MatchedHead(Render(cs, headers), Render(bs, headers), j);
    }
  }

  lemma MatchedHead(ts: seq<Tree>, us: seq<Tree>, j: nat)
    requires ts != [] && j < |us| && Shuffled(ts[0], us[j]) && ShuffledForest(ts[1..], Without(us, j))
    ensures ShuffledForest(ts, us)
  {
  }

  // ----- Adding a block keeps the tree complete -----

  lemma NewPathHasNoKids(all: Parents, p: string, q: string)
    requires PrefixClosed(all) && p !in all && |q| < |p|
    ensures KidsOf(p, all[p := q]) == {}
  {
  }

  lemma KidsOfNew(all: Parents, p: string, q: string, r: string)
    requires p !in all
    ensures KidsOf(r, all[p := q]) == KidsOf(r, all) + (if q == r then {p} else {})
  {
  }

  lemma TopsAppend(bs: seq<Named>, b: Named)
    ensures Tops(bs + [b]) == Tops(bs) + {b.path}
    ensures DistinctTops(bs) && b.path !in Tops(bs) ==> DistinctTops(bs + [b])
  {
    var cs := bs + [b];
    forall i | 0 <= i < |bs| ensures cs[i] == bs[i] {}
    forall p | p in Tops(bs) ensures p in Tops(cs) {
      var i :| 0 <= i < |bs| && bs[i].path == p;
      assert cs[i].path == p;
    }
    assert cs[|bs|] == b;
    assert b.path in Tops(cs);
  }

  lemma {:induction false} AddUnderAt(bs: seq<Named>, parent: string, b: Named)
    ensures var r := AddUnder(bs, parent, b);
            && |r| == |bs|
            && forall i :: 0 <= i < |bs| ==>
                 r[i] == Named(bs[i].path, AddUnder(bs[i].kids, parent, b) + (if bs[i].path == parent then [b] else []))
    decreases |bs|
  {
    if bs != [] {
      AddUnderAt(bs[1..], parent, b);
      var kids := AddUnder(bs[0].kids, parent, b);
      assert kids + [] == kids;
    }
  }

  /** Adding the block for a new path under its parent completes the tree for one path more. */
  lemma {:induction false} AddUnderComplete(bs: seq<Named>, all: Parents, p: string, q: string)
    requires CompleteBlocks(bs, all) && PrefixClosed(all) && p !in all && |q| < |p|
    ensures var r := AddUnder(bs, q, Named(p, []));
            CompleteBlocks(r, all[p := q]) && Tops(r) == Tops(bs)
    decreases bs
  {
    var b := Named(p, []);
    AddUnderAt(bs, q, b);
    var r := AddUnder(bs, q, b);
    forall i | 0 <= i < |bs| ensures r[i].path == bs[i].path && Complete(r[i].kids, r[i].path, all[p := q]) {
      AddUnderComplete(bs[i].kids, all, p, q);
      KidsOfNew(all, p, q, bs[i].path);
      var kids := AddUnder(bs[i].kids, q, b);
      if bs[i].path == q {
        AppendComplete(kids, all, p, q);
      } else {
        assert kids + [] == kids;
      }
    }
  }

  lemma AppendComplete(bs: seq<Named>, all: Parents, p: string, q: string)
    requires PrefixClosed(all) && p !in all && |q| < |p|
    requires CompleteBlocks(bs, all[p := q]) && Tops(bs) == KidsOf(q, all)
    ensures Complete(bs + [Named(p, [])], q, all[p := q])
  {
    var b := Named(p, []);
    NewPathHasNoKids(all, p, q);
    assert Tops(b.kids) == {};
    TopsAppend(bs, b);
    KidsOfNew(all, p, q, q);
    var cs := bs + [b];
    forall i | 0 <= i < |cs| ensures Complete(cs[i].kids, cs[i].path, all[p := q]) {
      assert cs[i] == if i < |bs| then bs[i] else b;
    }
  }

  lemma {:induction false} AddUnderRoot(bs: seq<Named>, all: Parents, b: Named)
    requires CompleteBlocks(bs, all) && PrefixClosed(all) && Tops(bs) <= all.Keys
    ensures AddUnder(bs, "", b) == bs
    decreases bs
  {
    AddUnderAt(bs, "", b);
    var r := AddUnder(bs, "", b);
    forall i | 0 <= i < |bs| ensures r[i] == bs[i] {
      assert bs[i].path in Tops(bs);
      AddUnderRoot(bs[i].kids, all, b);
      assert bs[i].kids + [] == bs[i].kids;
    }
  }

  lemma {:induction false} PathsComplete(bs: seq<Named>, all: Parents)
    requires CompleteBlocks(bs, all) && Tops(bs) <= all.Keys
    ensures Tops(bs) <= Paths(bs) <= all.Keys
    ensures forall p :: p in all && all[p] in Paths(bs) ==> p in Paths(bs)
    decreases bs
  {
    if bs != [] {
      PathsComplete(bs[0].kids, all);
      TopsTail(bs);
      CompleteWithout(bs, 0, all);
      assert Without(bs, 0) == bs[1..];
      PathsComplete(bs[1..], all);
      forall p | p in all && all[p] in Paths(bs) ensures p in Paths(bs) {
        if all[p] == bs[0].path {
          assert p in KidsOf(bs[0].path, all);
        }
      }
    }
  }

  lemma {:induction false} PathReached(bs: seq<Named>, all: Parents, p: string)
    requires Complete(bs, "", all) && PrefixClosed(all) && p in all
    ensures p in Paths(bs)
    decreases |p|
  {
    PathsComplete(bs, all);
    if all[p] == "" {
      assert p in Tops(bs);
    } else {
      PathReached(bs, all, all[p]);
    }
  }

  /** A complete tree holds exactly the paths of the set. */
  lemma CompletePaths(bs: seq<Named>, all: Parents)
    requires Complete(bs, "", all) && PrefixClosed(all)
    ensures Paths(bs) == all.Keys
  {
    PathsComplete(bs, all);
    forall p | p in all ensures p in Paths(bs) {
      PathReached(bs, all, p);
    }
  }

  /** The two ways getOrCreateBlock adds a block. */
  lemma AddedComplete(bs: seq<Named>, all: Parents, p: string, q: string)
    requires Complete(bs, "", all) && PrefixClosed(all) && p !in all && |q| < |p| && (q == "" || q in all)
    ensures PrefixClosed(all[p := q])
    ensures Complete(if q == "" then bs + [Named(p, [])] else AddUnder(bs, q, Named(p, [])), "", all[p := q])
  {
    AddUnderComplete(bs, all, p, q);
    KidsOfNew(all, p, q, "");
    if q == "" {
      AddUnderRoot(bs, all, Named(p, []));
      AppendComplete(bs, all, p, q);
    }
  }

  // ----- getOrCreateBlock and the loop over the labels -----

  /** The parent of a path; "" at the top. */
  type Up = string -> string

  /** Going up from the path reaches the top. */
  predicate Rooted(path: string, up: Up)
    decreases |path|
  {
    |up(path)| < |path| && (up(path) == "" || Rooted(up(path), up))
  }

  /** getOrCreateBlock: the tree after it. */
  function GetOrCreate(bs: seq<Named>, path: string, up: Up): seq<Named>
    requires Rooted(path, up)
    decreases |path|
  {
    if path in Paths(bs) then bs
    else if up(path) == "" then bs + [Named(path, [])]
    else AddUnder(GetOrCreate(bs, up(path), up), up(path), Named(path, []))
  }

  /** The arguments a label's value stands for, or an error. */
  type Arguments = string -> Option<seq<string>>

  /** The blocks created so far, and the arguments added to them. */
  datatype Building = Building(blocks: seq<Named>, args: map<string, seq<string>>)

  /** One turn of the loop of FromLabels. */
  function AddLabel(b: Building, path: string, up: Up, arguments: Arguments): Option<Building>
    requires Rooted(path, up)
  {
    var blocks := GetOrCreate(b.blocks, path, up);
    if arguments(path).None? then None
    else
      var before := if path in b.args then b.args[path] else [];
      Some(Building(blocks, b.args[path := before + arguments(path).value]))
  }

  /** The loop of FromLabels over the labels in the order `keys`. */
  function AddLabels(b: Option<Building>, keys: seq<string>, up: Up, arguments: Arguments): Option<Building>
    requires forall k :: k in keys ==> Rooted(k, up)
    decreases |keys|
  {
    if b.None? || keys == [] then b
    else AddLabels(AddLabel(b.value, keys[0], up, arguments), keys[1..], up, arguments)
  }

  /** A path and all the parents getOrCreateBlock creates for it. */
  ghost function Ancestors(path: string, up: Up): Parents
    requires Rooted(path, up)
    decreases |path|
  {
    (if up(path) == "" then map[] else Ancestors(up(path), up))[path := up(path)]
  }

  /** Every path is recorded with its parent. */
  ghost predicate Recorded(all: Parents, up: Up) {
    PrefixClosed(all) && forall p :: p in all ==> all[p] == up(p)
  }

  lemma {:induction false} AncestorsPresent(all: Parents, path: string, up: Up)
    requires Recorded(all, up) && path in all && Rooted(path, up)
    ensures Ancestors(path, up).Keys <= all.Keys
    decreases |path|
  {
    if up(path) != "" {
      AncestorsPresent(all, up(path), up);
    }
  }

  lemma {:induction false} AncestorsRecorded(path: string, up: Up)
    requires Rooted(path, up)
    ensures Recorded(Ancestors(path, up), up) && path in Ancestors(path, up)
    ensures forall p :: p in Ancestors(path, up) ==> |p| <= |path|
    decreases |path|
  {
    if up(path) != "" {
      AncestorsRecorded(up(path), up);
    }
  }

  lemma RecordedUnion(a: Parents, b: Parents, up: Up)
    requires Recorded(a, up) && Recorded(b, up)
    ensures Recorded(a + b, up)
  {
  }

  /** getOrCreateBlock completes the tree for the path and its ancestors. */
  lemma {:induction false} GetOrCreateComplete(bs: seq<Named>, path: string, up: Up, all: Parents)
    requires Complete(bs, "", all) && Recorded(all, up) && Rooted(path, up)
    ensures Complete(GetOrCreate(bs, path, up), "", all + Ancestors(path, up))
    ensures Recorded(all + Ancestors(path, up), up)
    decreases |path|
  {
    CompletePaths(bs, all);
    AncestorsRecorded(path, up);
    RecordedUnion(all, Ancestors(path, up), up);
    var parent := up(path);
    if path in all {
      AncestorsPresent(all, path, up);
      assert all + Ancestors(path, up) == all;
    } else if parent == "" {
      AddedComplete(bs, all, path, parent);
      UnionUpdate(all, map[], path, parent);
      UnionEmpty(all);
    } else {
      GetOrCreateComplete(bs, parent, up, all);
      AncestorsRecorded(parent, up);
      UnionUpdate(all, Ancestors(parent, up), path, parent);
      AddedComplete(GetOrCreate(bs, parent, up), all + Ancestors(parent, up), path, parent);
    }
  }

  /** The paths the labels bring in. */
  ghost function Closure(keys: seq<string>, up: Up): Parents
    requires forall k :: k in keys ==> Rooted(k, up)
    decreases |keys|
  {
    if keys == [] then map[] else Ancestors(keys[0], up) + Closure(keys[1..], up)
  }

  lemma {:induction false} ClosureMembers(keys: seq<string>, up: Up)
    requires forall k :: k in keys ==> Rooted(k, up)
    ensures Recorded(Closure(keys, up), up)
    ensures forall p :: p in Closure(keys, up) <==> exists k :: k in keys && p in Ancestors(k, up)
    decreases |keys|
  {
    if keys != [] {
      AncestorsRecorded(keys[0], up);
      ClosureMembers(keys[1..], up);
      RecordedUnion(Ancestors(keys[0], up), Closure(keys[1..], up), up);
      assert forall k :: k in keys <==> k == keys[0] || k in keys[1..];
    }
  }

  /** The paths do not depend on the order of the labels. */
  lemma ClosurePermutation(keys: seq<string>, others: seq<string>, up: Up)
    requires forall k :: k in keys <==> k in others
    requires forall k :: k in keys ==> Rooted(k, up)
    ensures Closure(keys, up) == Closure(others, up)
  {
    ClosureMembers(keys, up);
    ClosureMembers(others, up);
  }

  ghost predicate AllHaveArguments(keys: seq<string>, arguments: Arguments) {
    forall k :: k in keys ==> arguments(k).Some?
  }

  /** The arguments added to each block when every label is gone through once. */
  ghost function ArgumentsMap(keys: seq<string>, arguments: Arguments): map<string, seq<string>>
    requires AllHaveArguments(keys, arguments)
  {
    map k | k in keys :: arguments(k).value
  }

  /** The loop leaves the complete tree for the closure of the labels. */
  lemma {:induction false} AddLabelsComplete(b: Building, keys: seq<string>, up: Up, arguments: Arguments, all: Parents)
    requires forall k :: k in keys ==> Rooted(k, up)
    requires Complete(b.blocks, "", all) && Recorded(all, up)
    ensures AddLabels(Some(b), keys, up, arguments).Some? ==>
              Complete(AddLabels(Some(b), keys, up, arguments).value.blocks, "", all + Closure(keys, up))
    decreases |keys|
  {
    if keys == [] {
      UnionEmpty(all);
    } else {
      var k, rest := keys[0], keys[1..];
      GetOrCreateComplete(b.blocks, k, up, all);
      var next := AddLabel(b, k, up, arguments);
      if next.Some? {
        AddLabelsComplete(next.value, rest, up, arguments, all + Ancestors(k, up));
        UnionAssociative(all, Ancestors(k, up), Closure(rest, up));
      } else {
        assert AddLabels(None, rest, up, arguments).None?;
      }
    }
  }

  /** Each label's arguments are added once; the loop fails exactly when some value is in error. */
  lemma {:induction false} AddLabelsArguments(b: Building, keys: seq<string>, up: Up, arguments: Arguments)
    requires forall k :: k in keys ==> Rooted(k, up) && k !in b.args
    requires NoDuplicates(keys)
    ensures AddLabels(Some(b), keys, up, arguments).Some? <==> AllHaveArguments(keys, arguments)
    ensures AllHaveArguments(keys, arguments) ==>
              AddLabels(Some(b), keys, up, arguments).value.args == b.args + ArgumentsMap(keys, arguments)
    decreases |keys|
  {
    if keys == [] {
      assert b.args + ArgumentsMap(keys, arguments) == b.args;
    } else {
      var k, rest := keys[0], keys[1..];
      assert k in keys && forall l :: l in keys <==> l == k || l in rest;
      var next := AddLabel(b, k, up, arguments);
      if next.Some? {
        AddedArguments(b, k, up, arguments);
        AddLabelsArguments(next.value, rest, up, arguments);
        if AllHaveArguments(keys, arguments) {
          ArgumentsMapStep(b.args, keys, arguments);
        }
      } else {
        assert AddLabels(None, rest, up, arguments).None?;
      }
    }
  }

  lemma AddedArguments(b: Building, k: string, up: Up, arguments: Arguments)
    requires Rooted(k, up) && k !in b.args && arguments(k).Some?
    ensures AddLabel(b, k, up, arguments) ==
            Some(Building(GetOrCreate(b.blocks, k, up), b.args[k := arguments(k).value]))
  {
    assert [] + arguments(k).value == arguments(k).value;
  }

  lemma ArgumentsMapStep(args: map<string, seq<string>>, keys: seq<string>, arguments: Arguments)
    requires keys != [] && AllHaveArguments(keys, arguments) && NoDuplicates(keys)
    ensures AllHaveArguments(keys[1..], arguments)
    ensures args[keys[0] := arguments(keys[0]).value] + ArgumentsMap(keys[1..], arguments)
            == args + ArgumentsMap(keys, arguments)
  {
    assert keys[0] !in keys[1..];
    assert forall l :: l in keys <==> l == keys[0] || l in keys[1..];
    assert ArgumentsMap(keys, arguments) == ArgumentsMap(keys[1..], arguments)[keys[0] := arguments(keys[0]).value];
  }

  /** One order of the labels: what the loop leaves, starting from nothing. */
  lemma OneOrder(keys: seq<string>, up: Up, arguments: Arguments)
    requires NoDuplicates(keys) && forall k :: k in keys ==> Rooted(k, up)
    ensures var r := AddLabels(Some(Building([], map[])), keys, up, arguments);
            && (r.Some? <==> AllHaveArguments(keys, arguments))
            && (r.Some? ==>
                  && Complete(r.value.blocks, "", Closure(keys, up))
                  && r.value.args == ArgumentsMap(keys, arguments))
  {
    assert Tops([]) == {} == KidsOf("", map[]);
    AddLabelsComplete(Building([], map[]), keys, up, arguments, map[]);
    AddLabelsArguments(Building([], map[]), keys, up, arguments);
    UnionEmpty(Closure(keys, up));
    if AllHaveArguments(keys, arguments) {
      UnionEmpty(ArgumentsMap(keys, arguments));
    }
  }

  /** The tree of FromLabels; `headersOf` turns the arguments into the order and keys of each block. */
  function Assemble(keys: seq<string>, up: Up, arguments: Arguments, headersOf: map<string, seq<string>> -> Headers)
    : Option<seq<Tree>>
    requires forall k :: k in keys ==> Rooted(k, up)
  {
    var b := AddLabels(Some(Building([], map[])), keys, up, arguments);
    if b.None? then None else Some(Render(b.value.blocks, headersOf(b.value.args)))
  }

  /** Going through the labels in another order fails in the same cases, and forms the same tree up to
      the order of siblings. */
  lemma AnyOrder(keys: seq<string>, others: seq<string>, up: Up, arguments: Arguments,
                 headersOf: map<string, seq<string>> -> Headers)
    requires NoDuplicates(keys) && NoDuplicates(others) && forall k :: k in keys <==> k in others
    requires forall k :: k in keys ==> Rooted(k, up)
    ensures var r, s := Assemble(keys, up, arguments, headersOf), Assemble(others, up, arguments, headersOf);
            && (r.Some? <==> s.Some?) && (r.Some? <==> AllHaveArguments(keys, arguments))
            && (r.Some? ==> ShuffledForest(r.value, s.value))
  {
    OneOrder(keys, up, arguments);
    OneOrder(others, up, arguments);
    ClosurePermutation(keys, others, up);
    var r := AddLabels(Some(Building([], map[])), keys, up, arguments);
    var s := AddLabels(Some(Building([], map[])), others, up, arguments);
    if r.Some? {
      assert ArgumentsMap(keys, arguments) == ArgumentsMap(others, arguments);
      CompleteShuffled(r.value.blocks, s.value.blocks, headersOf(r.value.args), Closure(keys, up));
    }
  }
}
