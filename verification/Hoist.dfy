/** GenerateCaddyfile (generator/generator.go): the accumulation of sources, and the hoist of the global
    blocks at its end. */
module Generating {
  import opened Seqs
  import opened Trees
  import opened Sorting
  import opened Writing
  import opened MergeShuffles
  import opened Processing
  import opened Blocks
  import opened BlockProcessing

  function Globals(ts: seq<Tree>): seq<Tree> {
    if ts == [] then []
    else Globals(ts[..|ts| - 1]) + if ts[|ts| - 1].IsGlobalBlock() then [ts[|ts| - 1]] else []
  }

  function Others(ts: seq<Tree>): seq<Tree> {
    if ts == [] then []
    else Others(ts[..|ts| - 1]) + if ts[|ts| - 1].IsGlobalBlock() then [] else [ts[|ts| - 1]]
  }

  // ----- The hoist changes nothing that is printed -----

  lemma {:induction false} PartitionKinds(ts: seq<Tree>)
    ensures forall i :: 0 <= i < |Globals(ts)| ==> Globals(ts)[i].IsGlobalBlock()
    ensures forall i :: 0 <= i < |Others(ts)| ==> !Others(ts)[i].IsGlobalBlock()
    decreases |ts|
  {
    if ts != [] {
      PartitionKinds(ts[..|ts| - 1]);
    }
  }

  lemma {:induction false} PartitionContents(ts: seq<Tree>)
    ensures multiset(Globals(ts)) + multiset(Others(ts)) == multiset(ts)
    decreases |ts|
  {
    if ts != [] {
      var n := |ts| - 1;
      PartitionContents(ts[..n]);
      assert ts == ts[..n] + [ts[n]];
      var g, o := Globals(ts[..n]), Others(ts[..n]);
      if ts[n].IsGlobalBlock() {
        assert Others(ts) == o;
      } else {
        assert Globals(ts) == g;
      }
    }
  }

  lemma {:induction false} EachConcat(a: seq<Tree>, b: seq<Tree>)
    ensures SortEach(a + b) == SortEach(a) + SortEach(b)
    decreases |a|
  {
    if a == [] {
      assert a + b == b;
    } else {
      assert (a + b)[1..] == a[1..] + b;
      EachConcat(a[1..], b);
    }
  }

  /** Global blocks sort before all others. */
  lemma SortPartition(globals: seq<Tree>, others: seq<Tree>)
    requires forall i :: 0 <= i < |globals| ==> globals[i].IsGlobalBlock()
    requires forall i :: 0 <= i < |others| ==> !others[i].IsGlobalBlock()
    ensures SortForest(globals + others) == SortForest(globals) + SortForest(others)
  {
    SortForestCorrect(globals);
    SortForestCorrect(others);
    SortForestCorrect(globals + others);
    EachConcat(globals, others);
    SortedGlobal(globals, true);
    SortedGlobal(others, false);
    var r := SortForest(globals) + SortForest(others);
    forall i, j | 0 <= i <= j < |r| ensures Leq(r[i], r[j]) {
      var n := |SortForest(globals)|;
      if j < n {
        assert Leq(SortForest(globals)[i], SortForest(globals)[j]);
      } else if i >= n {
        assert Leq(SortForest(others)[i - n], SortForest(others)[j - n]);
      }
    }
    SortedUnique(SortForest(globals + others), r);
  }

  lemma SortedGlobal(ts: seq<Tree>, global: bool)
    requires forall i :: 0 <= i < |ts| ==> ts[i].IsGlobalBlock() == global
    ensures forall i :: 0 <= i < |SortForest(ts)| ==> SortForest(ts)[i].IsGlobalBlock() == global
  {
    SortForestCorrect(ts);
    SortEachAt(ts);
    forall i | 0 <= i < |SortForest(ts)| ensures SortForest(ts)[i].IsGlobalBlock() == global {
      assert SortForest(ts)[i] in multiset(SortForest(ts));
      var j := FindInContents(SortEach(ts), SortForest(ts)[i]);
    }
  }

  /** Printing the global blocks and then the others prints the whole container. */
  lemma HoistPrints(ts: seq<Tree>)
    ensures SortForest(Globals(ts)) + SortForest(Others(ts)) == SortForest(ts)
    ensures Marshal(Globals(ts)) + Marshal(Others(ts)) == Marshal(ts)
  {
    PartitionContents(ts);
    PartitionKinds(ts);
    SortPartition(Globals(ts), Others(ts));
    PermutedAlike(Globals(ts) + Others(ts), ts);
    WriteForestConcat(SortForest(Globals(ts)), SortForest(Others(ts)), 0);
  }

  // ----- The loop that removes while it iterates -----

  lemma PartitionNext(ts: seq<Tree>, i: nat)
    requires i < |ts|
    ensures Globals(ts[..i + 1]) == Globals(ts[..i]) + (if ts[i].IsGlobalBlock() then [ts[i]] else [])
    ensures Others(ts[..i + 1]) == Others(ts[..i]) + (if ts[i].IsGlobalBlock() then [] else [ts[i]])
  {
    assert ts[..i + 1][..i] == ts[..i];
  }

  /** From position k, `children` goes on as `blocks` does from i. */
  ghost predicate Suffix(children: seq<Block>, k: nat, blocks: seq<Block>, i: nat) {
    && i <= |blocks| && k + |blocks| - i == |children|
    && forall j :: i <= j < |blocks| ==> children[k + j - i] == blocks[j]
  }

  /** The loop, after i of the blocks. */
  ghost predicate Hoisting(from: Container, to: Container, trees: seq<Tree>, blocks: seq<Block>, i: nat)
    requires i <= |trees|
    reads from, to, from.Repr, to.Repr
  {
    && from.Valid() && to.Valid() && from.Repr !! to.Repr
    && to.view == Globals(trees[..i]) && from.view == Others(trees[..i]) + trees[i..]
    && Suffix(from.children, |Others(trees[..i])|, blocks, i)
  }

  method HoistTurn(from: Container, to: Container, ghost trees: seq<Tree>, block: Block, ghost blocks: seq<Block>,
                   ghost i: nat)
    requires i < |trees| && Hoisting(from, to, trees, blocks, i) && i < |blocks| && block == blocks[i]
    modifies from, to
    ensures Hoisting(from, to, trees, blocks, i + 1)
    ensures from.Repr <= old(from.Repr) && to.Repr <= old(to.Repr) + old(from.Repr)
  {
    ghost var k := |Others(trees[..i])|;
    HoistedNext(trees, i);
    SuffixNext(from.children, k, blocks, i);
    if block.IsGlobalBlock() {
      assert trees[i].IsGlobalBlock();
      MoveBlock(from, to, block, k);
    }
  }

  lemma HoistedNext(trees: seq<Tree>, i: nat)
    requires i < |trees|
    ensures var k := |Others(trees[..i])|;
            var left := Others(trees[..i]) + trees[i..];
            && k < |left| && left[k] == trees[i]
            && (trees[i].IsGlobalBlock() ==>
                  && Globals(trees[..i + 1]) == Globals(trees[..i]) + [trees[i]]
                  && Others(trees[..i + 1]) + trees[i + 1..] == Without(left, k) && |Others(trees[..i + 1])| == k)
            && (!trees[i].IsGlobalBlock() ==>
                  && Globals(trees[..i + 1]) == Globals(trees[..i])
                  && Others(trees[..i + 1]) + trees[i + 1..] == left && |Others(trees[..i + 1])| == k + 1)
  {
    PartitionNext(trees, i);
    assert trees[i..] == [trees[i]] + trees[i + 1..];
  }

  lemma SuffixNext(children: seq<Block>, k: nat, blocks: seq<Block>, i: nat)
    requires Suffix(children, k, blocks, i) && i < |blocks|
    ensures k < |children| && children[k] == blocks[i]
    ensures Suffix(children, k + 1, blocks, i + 1) && Suffix(Without(children, k), k, blocks, i + 1)
  {
    assert children[k + i - i] == blocks[i];
    forall j | i + 1 <= j < |blocks|
      ensures children[k + 1 + j - (i + 1)] == blocks[j] && Without(children, k)[k + j - (i + 1)] == blocks[j]
    {
      assert children[k + j - i] == blocks[j];
    }
  }

  /** Moves the global blocks to a container of their own; both keep their order. */
  method Hoist(caddyfileBlock: Container) returns (globalCaddyfile: Container)
    requires caddyfileBlock.Valid()
    modifies caddyfileBlock
    ensures caddyfileBlock.Valid() && globalCaddyfile.Valid() && caddyfileBlock.Repr !! globalCaddyfile.Repr
    ensures globalCaddyfile.view == Globals(old(caddyfileBlock.view))
    ensures caddyfileBlock.view == Others(old(caddyfileBlock.view))
    ensures caddyfileBlock.Repr <= old(caddyfileBlock.Repr) && fresh(globalCaddyfile.Repr - old(caddyfileBlock.Repr))
  {
    globalCaddyfile := new Container();
    var blocks := caddyfileBlock.children;
    ghost var trees := caddyfileBlock.view;
    assert trees[..0] == [] && [] + trees == trees;
    for i := 0 to |blocks|
      invariant Hoisting(caddyfileBlock, globalCaddyfile, trees, blocks, i)
      invariant caddyfileBlock.Repr <= old(caddyfileBlock.Repr)
      invariant fresh(globalCaddyfile.Repr - old(caddyfileBlock.Repr))
    {
      HoistTurn(caddyfileBlock, globalCaddyfile, trees, blocks[i], blocks, i);
    }
    assert trees[..|blocks|] == trees && trees[|blocks|..] == [];
  }

  method MoveBlock(from: Container, to: Container, block: Block, ghost k: nat)
    requires from.Valid() && to.Valid() && from.Repr !! to.Repr && k < |from.children| && from.children[k] == block
    modifies from, to
    ensures from.Valid() && to.Valid() && from.Repr !! to.Repr
    ensures to.view == old(to.view) + [old(from.view)[k]] && from.view == Without(old(from.view), k)
    ensures from.children == Without(old(from.children), k)
    ensures from.Repr <= old(from.Repr) && to.Repr <= old(to.Repr) + old(from.Repr)
  {
    assert from.Owns(block) && block.Valid();
    to.AddBlock(block);
    from.ChildrenDistinct();
    ghost var at := from.Remove(block);
  }
}
