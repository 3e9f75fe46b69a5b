/** Growing a tree of containers deep inside, through a pointer (parseContainer in caddyfile/marshal.go,
    getOrCreateBlock in caddyfile/fromlabels.go). The containers from the root to the one that is changed
    form a chain; their ghost fields are brought up to date from the bottom to the top. */
module Spines {
  import opened Trees
  import opened Blocks

  /** chain[k + 1] belongs to child path[k] of chain[k]. */
  ghost predicate Chain(chain: seq<Container>, path: seq<nat>)
    reads chain
  {
    && |chain| == |path| + 1
    && forall k :: 0 <= k < |path| ==>
        path[k] < |chain[k].children| && chain[k + 1] == chain[k].children[path[k]].container
  }

  /** Everything in the tree is as it should be, and the chain goes down from the root. */
  ghost predicate Anchored(chain: seq<Container>, path: seq<nat>)
    reads chain, if chain == [] then {} else chain[0].Repr
  {
    Chain(chain, path) && chain[0].Valid()
  }

  lemma {:induction false} ChainValid(chain: seq<Container>, path: seq<nat>, k: nat)
    requires Anchored(chain, path) && k < |chain|
    ensures chain[k].Valid() && chain[k].Repr <= chain[0].Repr
    ensures forall j :: 0 <= j < k ==> chain[k].Repr <= chain[j].Repr && chain[j] !in chain[k].Repr
    decreases k
  {
    if k > 0 {
      ChainValid(chain, path, k - 1);
      assert chain[k - 1].Owns(chain[k - 1].children[path[k - 1]]);
    }
  }

  lemma ChainBelow(chain: seq<Container>, path: seq<nat>)
    requires Anchored(chain, path)
    ensures forall j, k :: 0 <= j <= k < |chain| ==> chain[k] in chain[j].Repr && chain[k].Repr <= chain[j].Repr
    ensures forall j, k :: 0 <= j < k < |chain| ==> chain[j] !in chain[k].Repr
    ensures forall k :: 0 <= k < |chain| ==> chain[k].Valid()
  {
    forall k | 0 <= k < |chain|
      ensures chain[k].Valid()
      ensures forall j :: 0 <= j <= k ==> chain[k] in chain[j].Repr && chain[k].Repr <= chain[j].Repr
      ensures forall j :: 0 <= j < k ==> chain[j] !in chain[k].Repr
    {
      ChainValid(chain, path, k);
    }
  }

  /** The tree with a block added at the end of the container that the path leads to. */
  function Grown(ts: seq<Tree>, path: seq<nat>, t: Tree): seq<Tree>
    decreases |path|
  {
    if path == [] then ts + [t]
    else if path[0] >= |ts| then ts
    else ts[path[0] := ts[path[0]].(kids := Grown(ts[path[0]].kids, path[1..], t))]
  }

  /** container.AddBlock(block), where the container is the last of the chain. */
  method AddBlockAlong(ghost chain: seq<Container>, ghost path: seq<nat>, container: Container, block: Block)
    requires Anchored(chain, path) && chain[|path|] == container
    requires block.Valid() && chain[0].Repr !! block.Footprint()
    modifies chain
    ensures Anchored(chain, path)
    ensures chain[0].view == Grown(old(chain[0].view), path, block.Tree())
    ensures chain[0].Repr == old(chain[0].Repr) + block.Footprint()
    ensures container.children == old(container.children) + [block]
    ensures forall k :: 0 <= k < |path| ==> chain[k].children == old(chain[k].children)
  {
    ChainBelow(chain, path);
    container.AddBlock(block);
    ghost var k := |path|;
    assert path[k..] == [];
    while k > 0
      invariant 0 <= k <= |path|
      invariant forall j :: 0 <= j < k ==> unchanged(chain[j])
      invariant forall j :: 0 <= j < |path| ==> chain[j].children == old(chain[j].children)
      invariant container.children == old(container.children) + [block]
      invariant chain[k].Valid() && chain[k].Repr == old(chain[k].Repr) + block.Footprint()
      invariant chain[k].view == Grown(old(chain[k].view), path[k..], block.Tree())
    {
      k := k - 1;
      assert path[k..][1..] == path[k + 1..] && path[k..][0] == path[k];
      chain[k].ChildGrown(path[k]);
      chain[k].Refresh(path[k]);
    }
    assert path[0..] == path;
  }

  /** The tree with keys added to block i of the container that the path leads to. */
  function WithKeys(ts: seq<Tree>, path: seq<nat>, i: nat, more: seq<string>): seq<Tree>
    decreases |path|
  {
    if path == [] then
      if i >= |ts| then ts else ts[i := ts[i].(keys := ts[i].keys + more)]
    else if path[0] >= |ts| then ts
    else ts[path[0] := ts[path[0]].(kids := WithKeys(ts[path[0]].kids, path[1..], i, more))]
  }

  method AddKeysToChild(ghost container: Container, ghost i: nat, block: Block, more: seq<string>)
    requires container.Valid() && i < |container.children| && block == container.children[i]
    modifies container`view, container`Repr, block`keys
    ensures container.Valid() && container.Repr == old(container.Repr)
    ensures container.view == WithKeys(old(container.view), [], i, more)
    ensures block.keys == old(block.keys) + more
  {
    assert container.Owns(block);
    block.AddKeys(more);
    container.ChildGrown(i);
    container.Refresh(i);
  }

  /** block.AddKeys(more), where the block is child i of the last container of the chain. */
  method AddKeysAlong(ghost chain: seq<Container>, ghost path: seq<nat>, ghost i: nat, block: Block, more: seq<string>)
    requires Anchored(chain, path) && i < |chain[|path|].children| && block == chain[|path|].children[i]
    modifies chain`view, chain`Repr, block`keys
    ensures Anchored(chain, path)
    ensures chain[0].view == WithKeys(old(chain[0].view), path, i, more)
    ensures chain[0].Repr == old(chain[0].Repr)
    ensures block.keys == old(block.keys) + more
  {
    ChainBelow(chain, path);
    ghost var k := |path|;
    assert path[k..] == [];
    BlockBelow(chain, path, i);
    AddKeysToChild(chain[k], i, block, more);
    while k > 0
      invariant 0 <= k <= |path|
      invariant forall j :: 0 <= j < k ==> unchanged(chain[j])
      invariant block.keys == old(block.keys) + more
      invariant chain[k].Valid() && chain[k].Repr == old(chain[k].Repr)
      invariant chain[k].view == WithKeys(old(chain[k].view), path[k..], i, more)
    {
      k := k - 1;
      assert path[k..][1..] == path[k + 1..] && path[k..][0] == path[k];
      chain[k].ChildGrown(path[k]);
      chain[k].Refresh(path[k]);
    }
    assert path[0..] == path;
  }

  lemma BlockBelow(chain: seq<Container>, path: seq<nat>, i: nat)
    requires Anchored(chain, path) && i < |chain[|path|].children|
    ensures var block := chain[|path|].children[i];
            forall k :: 0 <= k < |chain| ==> block in chain[k].Repr && block.container.Repr <= chain[k].Repr
    ensures forall k :: 0 <= k < |chain| ==> chain[k] !in chain[|path|].children[i].container.Repr
  {
    ChainBelow(chain, path);
    assert chain[|path|].Owns(chain[|path|].children[i]);
  }
}
