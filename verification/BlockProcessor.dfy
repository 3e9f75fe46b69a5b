/** Process (caddyfile/processor.go) on the heap: blocks are shared between the parsed container and the
    one that is tried, which is sorted in place at every trial. */
module BlockProcessing {
  import opened Seqs
  import opened Lexing
  import opened Trees
  import opened Sorting
  import opened Writing
  import opened Parsing
  import opened Processing
  import opened Blocks
  import opened BlockParsing

  /** Unmarshal */
  method UnmarshalBlocks(text: string) returns (container: Container?)
    ensures container == null <==> Unmarshal(text).None?
    ensures container != null ==> fresh(container.Repr) && container.Valid() && container.view == Unmarshal(text).value
  {
    var tokens := ReadAllTokens(text);
    if tokens.None? {
      return null;
    }
    container := ParseBlocks(tokens.value);
  }

  /** Sorted blocks stay sorted when the next one is tried after those that were kept. */
  lemma TrialSorted(accepts: Adapter, blocks: seq<Tree>, i: nat)
    requires SortedForest(blocks) && i < |blocks|
    ensures SortedForest(Filter(accepts, blocks[..i]).0 + [blocks[i]])
  {
    var flags := FilterGreedy(accepts, blocks[..i]);
    assert blocks[..i + 1][..i] == blocks[..i] && (flags + [true])[..i] == flags;
    SortedPrefix(blocks, i + 1);
    SelectSorted(blocks[..i + 1], flags + [true]);
  }

  lemma FilterNext(accepts: Adapter, blocks: seq<Tree>, i: nat)
    requires i < |blocks|
    ensures var (kept, log) := Filter(accepts, blocks[..i]);
            Filter(accepts, blocks[..i + 1]) ==
              if accepts(Marshal(kept + [blocks[i]])) then (kept + [blocks[i]], log)
              else (kept, log + [RemovedBlock(MarshalBlock(blocks[i]))])
  {
    assert blocks[..i + 1][..i] == blocks[..i];
  }

  /** Removing one of equal trees from a sorted sequence leaves the others. */
  lemma WithoutLast(kept: seq<Tree>, t: Tree, k: nat)
    requires SortedForest(kept + [t]) && k <= |kept| && (kept + [t])[k] == t
    ensures Without(kept + [t], k) == kept
  {
    var all := kept + [t];
    WithoutContents(all, k);
    CancelCommon(t, multiset(Without(all, k)), multiset(kept));
    forall i, j | 0 <= i <= j < |kept| ensures Leq(kept[i], kept[j]) {
      assert Leq(all[i], all[j]);
    }
    forall i, j | 0 <= i <= j < |kept| ensures Leq(Without(all, k)[i], Without(all, k)[j]) {
      assert Leq(all[if i < k then i else i + 1], all[if j < k then j else j + 1]);
    }
    SortedUnique(Without(all, k), kept);
  }

  /** The rejected block, which may have changed places with an equal one, is taken out and printed. */
  method Reject(newContainer: Container, block: Block, ghost kept: seq<Tree>, ghost k: nat) returns (log: seq<LogEntry>)
    requires newContainer.Valid() && k < |newContainer.children| && newContainer.children[k] == block
    requires newContainer.view == kept + [block.Tree()] && SortedForest(newContainer.view)
    modifies newContainer.Repr
    ensures newContainer.Valid() && newContainer.Repr <= old(newContainer.Repr)
    ensures newContainer.view == kept && log == [RemovedBlock(MarshalBlock(old(block.Tree())))]
  {
    WithoutLast(kept, block.Tree(), k);
    assert newContainer.Owns(block) && block.container.Valid();
    newContainer.ChildrenDistinct();
    ghost var at := newContainer.Remove(block);
    var text := block.Marshal();
    log := [RemovedBlock(text)];
  }

  /** One turn of the loop: the block is tried, and removed again if the adapter rejects. */
  method TryBlock(accepts: Adapter, newContainer: Container, block: Block) returns (log: seq<LogEntry>)
    requires newContainer.Valid() && block.Valid() && newContainer.Repr !! block.Footprint()
    requires SortedForest(newContainer.view + [block.Tree()])
    modifies newContainer.Repr, block.Footprint()
    ensures newContainer.Valid() && newContainer.Repr <= old(newContainer.Repr) + old(block.Footprint())
    ensures var trial := old(newContainer.view) + [old(block.Tree())];
            if accepts(Marshal(trial)) then newContainer.view == trial && log == []
            else newContainer.view == old(newContainer.view) && log == [RemovedBlock(MarshalBlock(old(block.Tree())))]
  {
    ghost var kept, t := newContainer.view, block.Tree();
    newContainer.AddBlock(block);
    SortForestIdentity(kept + [t]);
    assert (kept + [t])[|kept|] == t;
    SortTreeIdentity(t);
    assert block == newContainer.children[|kept|];
    assert block in multiset(newContainer.children);
    var text := newContainer.Marshal();
    if accepts(text) {
      return [];
    }
    assert block.Tree() == t;
    ghost var k := FindInContents(newContainer.children, block);
    log := Reject(newContainer, block, kept, k);
  }

  method TakeBlock(accepts: Adapter, newContainer: Container, block: Block, log: seq<LogEntry>,
                   ghost trees: seq<Tree>, ghost i: nat)
    returns (log': seq<LogEntry>)
    requires newContainer.Valid() && block.Valid() && newContainer.Repr !! block.Footprint()
    requires SortedForest(trees) && i < |trees| && block.Tree() == trees[i]
    requires (newContainer.view, log) == Filter(accepts, trees[..i])
    modifies newContainer.Repr, block.Footprint()
    ensures newContainer.Valid() && newContainer.Repr <= old(newContainer.Repr) + old(block.Footprint())
    ensures (newContainer.view, log') == Filter(accepts, trees[..i + 1])
  {
    FilterNext(accepts, trees, i);
    TrialSorted(accepts, trees, i);
    var removed := TryBlock(accepts, newContainer, block);
    log' := log + removed;
    assert log + [] == log;
  }

  /** The loop over the sorted blocks. */
  method FilterBlocks(accepts: Adapter, container: Container) returns (newContainer: Container, log: seq<LogEntry>)
    requires container.Valid() && SortedForest(container.view)
    modifies container.Repr
    ensures newContainer.Valid() && fresh(newContainer.Repr - old(container.Repr))
    ensures (newContainer.view, log) == Filter(accepts, old(container.view))
  {
    newContainer := new Container();
    log := [];
    var blocks := container.children;
    ghost var trees := container.view;
    assert trees[..0] == [];
    for i := 0 to |blocks|
      invariant newContainer.Valid() && fresh(newContainer.Repr - old(container.Repr))
      invariant (newContainer.view, log) == Filter(accepts, trees[..i])
      invariant forall k :: i <= k < |blocks| ==> unchanged(old(blocks[k].Footprint()))
      invariant forall k :: i <= k < |blocks| ==> blocks[k].Footprint() == old(blocks[k].Footprint())
      invariant forall k :: i <= k < |blocks| ==> blocks[k].Footprint() !! newContainer.Repr
    {
      assert old(blocks[i].Valid() && blocks[i].Tree() == trees[i]);
      assert forall k :: i < k < |blocks| ==> old(blocks[i].Footprint()) !! old(blocks[k].Footprint());
      log := TakeBlock(accepts, newContainer, blocks[i], log, trees, i);
    }
    assert trees[..|blocks|] == trees;
  }

  method ProcessText(accepts: Adapter, text: string) returns (output: string, log: seq<LogEntry>)
    ensures Outcome(output, log) == Process(accepts, text)
  {
    if text == "" {
      return text, [];
    }
    var container := UnmarshalBlocks(text);
    if container == null {
      return "", [InvalidCaddyfile(text)];
    }
    SortForestCorrect(container.view);
    container.Sort();
    var newContainer;
    newContainer, log := FilterBlocks(accepts, container);
    output := newContainer.Marshal();
  }
}
