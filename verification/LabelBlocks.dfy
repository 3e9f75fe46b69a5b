/** getOrCreateBlock and the loop of FromLabels (caddyfile/fromlabels.go) on the heap: blocksByPath holds
    pointers to blocks anywhere in the tree. */
module LabelBlocks {
  import opened Seqs
  import opened Trees
  import opened Blocks
  import opened Spines
  import opened LabelTrees
  import opened LabelPlaces

  /** The chain of containers from the root to that of the block, and the indices along it. */
  ghost predicate Located(root: Container, block: Block, chain: seq<Container>, place: seq<nat>)
    reads chain
  {
    && place != [] && Chain(chain, place) && chain[0] == root
    && block == chain[|place| - 1].children[place[|place| - 1]]
  }

  /** Where every block is: blocksByPath, and the way to each block. */
  datatype Registry = Registry(
    blocks: map<string, Block>, chains: map<string, seq<Container>>, places: map<string, seq<nat>>)

  /** Every path of the registry leads to its block. */
  ghost predicate AllLocated(root: Container, r: Registry)
    reads root, root.Repr
  {
    && r.blocks.Keys == r.chains.Keys == r.places.Keys
    && (forall p, k :: p in r.chains && 0 <= k < |r.chains[p]| ==> r.chains[p][k] in root.Repr)
    && (forall p :: p in r.blocks ==> Located(root, r.blocks[p], r.chains[p], r.places[p]))
  }

  ghost predicate Registered(bs: seq<Named>, r: Registry) {
    && r.blocks.Keys == r.chains.Keys == r.places.Keys == Paths(bs)
    && forall p :: p in r.blocks ==> PlaceIs(bs, r.places[p], p)
  }

  ghost predicate Shows(root: Container, bs: seq<Named>, headers: Headers)
    reads root, root.Repr
  {
    root.Valid() && root.view == Render(bs, headers) && DistinctPaths(bs)
  }

  /** The blocks on the heap form the tree under construction, and blocksByPath points to them. */
  ghost predicate Built(root: Container, bs: seq<Named>, headers: Headers, r: Registry)
    reads root, root.Repr
  {
    Shows(root, bs, headers) && AllLocated(root, r) && Registered(bs, r)
  }

  ghost function WithBlock(r: Registry, path: string, block: Block, chain: seq<Container>, place: seq<nat>): Registry {
    Registry(r.blocks[path := block], r.chains[path := chain], r.places[path := place])
  }

  lemma {:induction false} ChainView(chain: seq<Container>, place: seq<nat>)
    requires Anchored(chain, place)
    ensures KidsAt(chain[0].view, place) == chain[|place|].view && |chain[|place|].children| == |chain[|place|].view|
    decreases |place|
  {
    ChainValid(chain, place, |place|);
    if place != [] {
      ChainValid(chain, place, 1);
      assert chain[0].view[place[0]] == chain[0].children[place[0]].Tree();
      ChainView(chain[1..], place[1..]);
    }
  }

  /** AddBlock on a container of the tree; containers only gain children at their end. */
  method AddBlockIn(ghost chain: seq<Container>, ghost place: seq<nat>, container: Container, block: Block)
    returns (ghost chain': seq<Container>, ghost place': seq<nat>)
    requires Anchored(chain, place) && chain[|place|] == container
    requires block.Valid() && chain[0].Repr !! block.Footprint()
    modifies chain[0].Repr
    ensures chain[0].Valid() && chain[0].view == Grown(old(chain[0].view), place, old(block.Tree()))
    ensures chain[0].Repr == old(chain[0].Repr) + old(block.Footprint())
    ensures forall c: Container :: c in old(chain[0].Repr) ==> old(c.children) <= c.children
    ensures Located(chain[0], block, chain', place')
    ensures forall k :: 0 <= k < |chain'| ==> chain'[k] in chain[0].Repr
    ensures place' == place + [|KidsAt(old(chain[0].view), place)|]
  {
    ChainBelow(chain, place);
    ChainView(chain, place);
    place' := place + [|container.children|];
    chain' := chain + [block.container];
    assert block.container !in chain;
    AddBlockAlong(chain, place, container, block);
    forall c: Container | c in old(chain[0].Repr) ensures old(c.children) <= c.children {
      assert c in chain || unchanged(c);
    }
  }

  /** ... so every block stays where it is. */
  method AddLocated(root: Container, ghost r: Registry, ghost chain: seq<Container>, ghost place: seq<nat>,
                    container: Container, block: Block)
    returns (ghost chain': seq<Container>, ghost place': seq<nat>)
    requires root.Valid() && AllLocated(root, r)
    requires Chain(chain, place) && chain[0] == root && chain[|place|] == container
    requires block.Valid() && root.Repr !! block.Footprint()
    modifies root.Repr
    ensures root.Valid() && root.view == Grown(old(root.view), place, old(block.Tree()))
    ensures root.Repr == old(root.Repr) + old(block.Footprint())
    ensures AllLocated(root, r) && Located(root, block, chain', place')
    ensures forall k :: 0 <= k < |chain'| ==> chain'[k] in root.Repr
    ensures place' == place + [|KidsAt(old(root.view), place)|]
  {
    chain', place' := AddBlockIn(chain, place, container, block);
    forall p | p in r.blocks ensures Located(root, r.blocks[p], r.chains[p], r.places[p]) {
      forall k | 0 <= k < |r.places[p]| ensures old(r.chains[p][k].children) <= r.chains[p][k].children {
        assert r.chains[p][k] in old(root.Repr);
      }
    }
  }

  /** A new block in the container that the place leads to. */
  method AddNamed(root: Container, ghost bs: seq<Named>, ghost headers: Headers, ghost r: Registry,
                  ghost chain: seq<Container>, ghost place: seq<nat>, ghost parent: string,
                  container: Container, block: Block, ghost path: string)
    returns (ghost r': Registry)
    requires Built(root, bs, headers, r)
    requires Chain(chain, place) && chain[0] == root && chain[|place|] == container
    requires place == [] || PlaceIs(bs, place, parent)
    requires block.Valid() && root.Repr !! block.Footprint() && path !in Paths(bs)
    requires block.Tree() == RenderBlock(Named(path, []), headers)
    modifies root.Repr
    ensures Built(root, if place == [] then bs + [Named(path, [])] else AddUnder(bs, parent, Named(path, [])),
                  headers, r')
    ensures r'.blocks == r.blocks[path := block] && root.Repr == old(root.Repr) + old(block.Footprint())
  {
    ghost var b := Named(path, []);
    ghost var cs := if place == [] then bs + [b] else AddUnder(bs, parent, b);
    AddedNamed(bs, headers, r, place, parent, path);
    RenderGrown(bs, place, b, headers);
    ghost var chain', place' := AddLocated(root, r, chain, place, container, block);
    r' := WithBlock(r, path, block, chain', place');
    RegisteredMore(cs, r, path, block, chain', place');
    LocatedMore(root, r, path, block, chain', place');
  }

  lemma LocatedMore(root: Container, r: Registry, path: string, block: Block, chain: seq<Container>, place: seq<nat>)
    requires AllLocated(root, r) && Located(root, block, chain, place)
    requires forall k :: 0 <= k < |chain| ==> chain[k] in root.Repr
    ensures AllLocated(root, WithBlock(r, path, block, chain, place))
  {
    var m := WithBlock(r, path, block, chain, place);
    forall p, k | p in m.chains && 0 <= k < |m.chains[p]| ensures m.chains[p][k] in root.Repr {
      assert p != path ==> r.chains[p][k] in root.Repr;
    }
  }

  lemma RegisteredMore(cs: seq<Named>, r: Registry, path: string, block: Block, chain: seq<Container>, place: seq<nat>)
    requires r.blocks.Keys == r.chains.Keys == r.places.Keys && Paths(cs) == r.blocks.Keys + {path}
    requires path !in r.blocks && PlaceIs(cs, place, path) && forall p :: p in r.blocks ==> PlaceIs(cs, r.places[p], p)
    ensures Registered(cs, WithBlock(r, path, block, chain, place))
  {
  }

  lemma AddedNamed(bs: seq<Named>, headers: Headers, r: Registry, place: seq<nat>, parent: string, path: string)
    requires DistinctPaths(bs) && Registered(bs, r) && path !in Paths(bs) && (place == [] || PlaceIs(bs, place, parent))
    ensures var cs := GrownAt(bs, place, Named(path, []));
            && cs == (if place == [] then bs + [Named(path, [])] else AddUnder(bs, parent, Named(path, [])))
            && DistinctPaths(cs) && Paths(cs) == Paths(bs) + {path}
            && (forall p :: p in r.blocks ==> PlaceIs(cs, r.places[p], p))
            && PlaceIs(cs, place + [|KidsAt(Render(bs, headers), place)|], path)
  {
    var b := Named(path, []);
    NewPlace(bs, place, b, headers, parent);
    forall p | p in r.blocks ensures PlaceIs(GrownAt(bs, place, b), r.places[p], p) {
      PlaceKept(bs, place, b, r.places[p], p);
    }
    assert PathsOf(b) == {path};
    if place == [] {
      AppendDistinct(bs, b);
      AppendPaths(bs, b);
    } else {
      PlaceMember(bs, place, parent);
      AddUnderPlace(bs, place, parent, b);
      AddUnderDistinct(bs, parent, b);
      AddUnderPaths(bs, parent, b);
    }
  }

  // ----- getOrCreateBlock -----

  /** Only the path and its parents are new. */
  lemma {:induction false} GetOrCreatePaths(bs: seq<Named>, path: string, up: Up)
    requires Rooted(path, up)
    ensures forall p :: p in Paths(GetOrCreate(bs, path, up)) ==> p in Paths(bs) || |p| <= |path|
    decreases |path|
  {
    if path !in Paths(bs) {
      var b := Named(path, []);
      assert PathsOf(b) == {path};
      if up(path) == "" {
        AppendPaths(bs, b);
      } else {
        GetOrCreatePaths(bs, up(path), up);
        AddUnderPaths(GetOrCreate(bs, up(path), up), up(path), b);
      }
    }
  }

  /** Blocks that are still to be created get their initial order and keys. */
  ghost predicate InitialElsewhere(bs: seq<Named>, headers: Headers, initial: Headers) {
    forall p :: p !in Paths(bs) ==> headers(p) == initial(p)
  }

  method NewHeaderBlock(order: int, keys: seq<string>) returns (block: Block)
    ensures block.Valid() && fresh(block.Footprint()) && block.Tree() == Node(order, keys, [])
  {
    block := new Block();
    block.order := order;
    block.AddKeys(keys);
  }

  method AddTop(root: Container, ghost bs: seq<Named>, ghost headers: Headers, ghost r: Registry, block: Block,
                ghost path: string)
    returns (ghost r': Registry)
    requires Built(root, bs, headers, r) && path !in Paths(bs)
    requires block.Valid() && root.Repr !! block.Footprint() && block.Tree() == RenderBlock(Named(path, []), headers)
    modifies root.Repr
    ensures Built(root, bs + [Named(path, [])], headers, r')
    ensures r'.blocks == r.blocks[path := block] && root.Repr == old(root.Repr) + old(block.Footprint())
  {
    r' := AddNamed(root, bs, headers, r, [root], [], "", root, block, path);
  }

  method AddBelow(root: Container, ghost bs: seq<Named>, ghost headers: Headers, ghost r: Registry,
                  ghost parent: string, parentBlock: Block, block: Block, ghost path: string)
    returns (ghost r': Registry)
    requires Built(root, bs, headers, r) && path !in Paths(bs) && parent in r.blocks && parentBlock == r.blocks[parent]
    requires block.Valid() && root.Repr !! block.Footprint() && block.Tree() == RenderBlock(Named(path, []), headers)
    modifies root.Repr
    ensures Built(root, AddUnder(bs, parent, Named(path, [])), headers, r')
    ensures r'.blocks == r.blocks[path := block] && root.Repr == old(root.Repr) + old(block.Footprint())
  {
    assert Located(root, parentBlock, r.chains[parent], r.places[parent]);
    assert PlaceIs(bs, r.places[parent], parent);
    r' := AddNamed(root, bs, headers, r, r.chains[parent], r.places[parent], parent,
                   parentBlock.container, block, path);
  }

  method CreateBelow(root: Container, ghost bs: seq<Named>, ghost headers: Headers, ghost r: Registry,
                  ghost parent: string, parentBlock: Block, header: Header, ghost path: string)
    returns (block: Block, ghost r': Registry)
    requires Built(root, bs, headers, r) && path !in Paths(bs) && parent in r.blocks && parentBlock == r.blocks[parent]
    requires headers(path) == header
    modifies root.Repr
    ensures Built(root, AddUnder(bs, parent, Named(path, [])), headers, r') && r'.blocks == r.blocks[path := block]
    ensures forall o :: o in root.Repr && o !in old(root.Repr) ==> fresh(o)
  {
    block := NewHeaderBlock(header.order, header.keys);
    r' := AddBelow(root, bs, headers, r, parent, parentBlock, block, path);
  }

  method CreateTop(root: Container, ghost bs: seq<Named>, ghost headers: Headers, ghost r: Registry, header: Header,
                ghost path: string)
    returns (block: Block, ghost r': Registry)
    requires Built(root, bs, headers, r) && path !in Paths(bs) && headers(path) == header
    modifies root.Repr
    ensures Built(root, bs + [Named(path, [])], headers, r') && r'.blocks == r.blocks[path := block]
    ensures forall o :: o in root.Repr && o !in old(root.Repr) ==> fresh(o)
  {
    block := NewHeaderBlock(header.order, header.keys);
    r' := AddTop(root, bs, headers, r, block, path);
  }

  /** getOrCreateBlock */
  method GetOrCreateBlock(root: Container, path: string, blocksByPath: map<string, Block>, up: Up, initial: Headers,
                          ghost bs: seq<Named>, ghost headers: Headers, ghost r: Registry)
    returns (block: Block, blocksByPath': map<string, Block>, ghost r': Registry)
    requires Rooted(path, up) && InitialElsewhere(bs, headers, initial)
    requires Built(root, bs, headers, r) && blocksByPath == r.blocks
    modifies root.Repr
    ensures Built(root, GetOrCreate(bs, path, up), headers, r') && blocksByPath' == r'.blocks
    ensures path in blocksByPath' && block == blocksByPath'[path]
    ensures forall o :: o in root.Repr && o !in old(root.Repr) ==> fresh(o)
    decreases |path|
  {
    if path in blocksByPath {
      return blocksByPath[path], blocksByPath, r;
    }
    if up(path) != "" {
      var parentBlock;
      parentBlock, blocksByPath', r' := GetOrCreateBlock(root, up(path), blocksByPath, up, initial, bs, headers, r);
      GetOrCreatePaths(bs, up(path), up);
      block, r' := CreateBelow(root, GetOrCreate(bs, up(path), up), headers, r', up(path), parentBlock, initial(path),
                               path);
    } else {
      block, r' := CreateTop(root, bs, headers, r, initial(path), path);
      blocksByPath' := blocksByPath;
    }
    blocksByPath' := blocksByPath'[path := block];
  }

  // ----- The loop over the labels -----

  /** block.AddKeys(more) on a block of the tree: no container changes its children. */
  method AddKeysIn(ghost chain: seq<Container>, ghost place: seq<nat>, ghost i: nat, block: Block, more: seq<string>)
    requires Anchored(chain, place) && i < |chain[|place|].children| && block == chain[|place|].children[i]
    modifies chain[0].Repr
    ensures chain[0].Valid() && chain[0].view == WithKeys(old(chain[0].view), place, i, more)
    ensures chain[0].Repr == old(chain[0].Repr)
    ensures forall c: Container :: c in chain[0].Repr ==> c.children == old(c.children)
  {
    ChainBelow(chain, place);
    BlockBelow(chain, place, i);
    AddKeysAlong(chain, place, i, block, more);
  }

  /** The chain to the container a block is in, and its index there. */
  lemma LocatedSplit(root: Container, block: Block, chain: seq<Container>, place: seq<nat>)
    returns (upper: seq<Container>, upperPlace: seq<nat>, i: nat)
    requires root.Valid() && Located(root, block, chain, place)
    ensures Anchored(upper, upperPlace) && upper[0] == root && place == upperPlace + [i]
    ensures i < |upper[|upperPlace|].children| && block == upper[|upperPlace|].children[i]
  {
    var n := |place| - 1;
    upper, upperPlace, i := chain[..n + 1], place[..n], place[n];
  }

  method AddKeysLocated(root: Container, block: Block, more: seq<string>, ghost r: Registry,
                        ghost upper: seq<Container>, ghost upperPlace: seq<nat>, ghost i: nat)
    requires AllLocated(root, r) && Anchored(upper, upperPlace) && upper[0] == root
    requires i < |upper[|upperPlace|].children| && block == upper[|upperPlace|].children[i]
    modifies root.Repr
    ensures root.Valid() && root.view == WithKeys(old(root.view), upperPlace, i, more)
    ensures AllLocated(root, r) && root.Repr == old(root.Repr)
  {
    AddKeysIn(upper, upperPlace, i, block, more);
    forall p | p in r.blocks ensures Located(root, r.blocks[p], r.chains[p], r.places[p]) {
      forall k | 0 <= k < |r.places[p]| ensures old(r.chains[p][k].children) == r.chains[p][k].children {
        assert r.chains[p][k] in root.Repr;
      }
    }
  }

  method AddArguments(root: Container, block: Block, ghost path: string, more: seq<string>,
                      ghost bs: seq<Named>, ghost headers: Headers, ghost others: Headers, ghost r: Registry)
    requires Built(root, bs, headers, r) && path in r.blocks && block == r.blocks[path]
    requires forall p :: p != path ==> headers(p) == others(p)
    requires others(path) == Header(headers(path).order, headers(path).keys + more)
    modifies root.Repr
    ensures Built(root, bs, others, r) && root.Repr == old(root.Repr)
  {
    assert Located(root, block, r.chains[path], r.places[path]) && PlaceIs(bs, r.places[path], path);
    ghost var upper, upperPlace, i := LocatedSplit(root, block, r.chains[path], r.places[path]);
    RenderKeys(bs, upperPlace, i, path, more, headers, others);
    AddKeysLocated(root, block, more, r, upper, upperPlace, i);
  }

  /** Every block has its initial header and the arguments added to it. */
  ghost predicate HeadersFrom(headersOf: map<string, seq<string>> -> Headers, initial: Headers) {
    forall args, p :: headersOf(args)(p)
        == Header(initial(p).order, initial(p).keys + if p in args then args[p] else [])
  }

  lemma HeadersElsewhere(headersOf: map<string, seq<string>> -> Headers, initial: Headers, bs: seq<Named>,
                         args: map<string, seq<string>>)
    requires HeadersFrom(headersOf, initial) && args.Keys <= Paths(bs)
    ensures InitialElsewhere(bs, headersOf(args), initial)
  {
    forall p | p !in Paths(bs) ensures headersOf(args)(p) == initial(p) {
      assert initial(p).keys + [] == initial(p).keys;
    }
  }

  lemma HeadersAdded(headersOf: map<string, seq<string>> -> Headers, initial: Headers, args: map<string, seq<string>>,
                     path: string, more: seq<string>)
    requires HeadersFrom(headersOf, initial)
    ensures var after := args[path := (if path in args then args[path] else []) + more];
            && (forall p :: p != path ==> headersOf(args)(p) == headersOf(after)(p))
            && headersOf(after)(path) == Header(headersOf(args)(path).order, headersOf(args)(path).keys + more)
  {
    var before := if path in args then args[path] else [];
    var after := args[path := before + more];
    assert initial(path).keys + (before + more) == (initial(path).keys + before) + more;
    forall p | p != path ensures headersOf(args)(p) == headersOf(after)(p) {
      assert p in args <==> p in after;
    }
  }

  lemma AddLabelsNext(b: Building, keys: seq<string>, i: nat, up: Up, arguments: Arguments)
    requires i < |keys| && forall k :: k in keys ==> Rooted(k, up)
    ensures AddLabels(Some(b), keys[i..], up, arguments)
        == AddLabels(AddLabel(b, keys[i], up, arguments), keys[i + 1..], up, arguments)
  {
    assert keys[i..][0] == keys[i] && keys[i..][1..] == keys[i + 1..];
  }

  lemma {:induction false} GetOrCreateKeeps(bs: seq<Named>, path: string, up: Up)
    requires Rooted(path, up)
    ensures Paths(bs) <= Paths(GetOrCreate(bs, path, up))
    decreases |path|
  {
    if path !in Paths(bs) {
      if up(path) == "" {
        AppendPaths(bs, Named(path, []));
      } else {
        GetOrCreateKeeps(bs, up(path), up);
        AddUnderPaths(GetOrCreate(bs, up(path), up), up(path), Named(path, []));
      }
    }
  }

  /** The loop's state between two turns. */
  ghost predicate Assembled(root: Container, b: Building, headersOf: map<string, seq<string>> -> Headers, r: Registry)
    reads root, root.Repr
  {
    Built(root, b.blocks, headersOf(b.args), r) && b.args.Keys <= Paths(b.blocks)
  }

  lemma AddedAssembled(root: Container, b: Building, headersOf: map<string, seq<string>> -> Headers, r: Registry,
                       path: string, up: Up, arguments: Arguments)
    requires Rooted(path, up) && arguments(path).Some? && b.args.Keys <= Paths(b.blocks)
    requires var args := b.args[path := (if path in b.args then b.args[path] else []) + arguments(path).value];
             var bs := GetOrCreate(b.blocks, path, up);
             Built(root, bs, headersOf(args), r) && path in Paths(bs)
    ensures Assembled(root, AddLabel(b, path, up, arguments).value, headersOf, r)
  {
    GetOrCreateKeeps(b.blocks, path, up);
  }

  lemma NothingBuilt(root: Container, headers: Headers)
    requires root.Valid() && root.view == []
    ensures Built(root, [], headers, Registry(map[], map[], map[]))
  {
  }
}
