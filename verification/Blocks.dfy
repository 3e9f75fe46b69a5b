/** Block and Container (caddyfile/caddyfile.go) as they live on the heap: mutable, shared by pointer.
    `view` is the tree a container stands for, `Repr` the objects it is built from. */
module Blocks {
  import opened Runes
  import opened Seqs
  import opened Trees
  import opened Sorting
  import opened Writing
  import opened Merging

  /** bytes.Buffer */
  class Buffer {
    var text: string

    constructor ()
      ensures text == ""
    {
      text := "";
    }

    method WriteString(s: string)
      modifies this
      ensures text == old(text) + s
    {
      text := text + s;
    }
  }

  class Block {
    const container: Container  // the embedded *Container
    var order: int
    var keys: seq<string>

    /** CreateBlock */
    constructor ()
      ensures fresh(container) && container.Valid() && fresh(container.Repr) && container.view == []
      ensures order == 0x7fff_ffff && keys == []
      ensures Valid()
    {
      container := new Container();
      order, keys := 0x7fff_ffff, [];
    }

    ghost function Footprint(): set<object>
      reads container
    {
      {this} + container.Repr
    }

    ghost predicate Valid()
      reads this, container, container.Repr
    {
      this !in container.Repr && container.Valid()
    }

    ghost function Tree(): Tree
      reads this, container
    {
      Node(order, keys, container.view)
    }

    method AddKeys(more: seq<string>)
      modifies this`keys
      ensures keys == old(keys) + more
    {
      keys := keys + more;
    }

    function GetFirstKey(): string
      reads this
    {
      if |keys| == 0 then "" else keys[0]
    }

    predicate IsGlobalBlock()
      reads this
    {
      |keys| == 0
    }

    predicate IsSnippet()
      reads this
    {
      |keys| == 1 && HasPrefix(keys[0], "(") && HasSuffix(keys[0], ")")
    }

    predicate IsMatcher()
      reads this
    {
      |keys| > 0 && HasPrefix(keys[0], "@")
    }

    /** The loop of write over the keys. */
    method WriteKeysTo(buffer: Buffer) returns (needsWhitespace: bool)
      modifies buffer
      ensures buffer.text == old(buffer.text) + WriteKeys(keys)
      ensures needsWhitespace <==> keys != []
    {
      needsWhitespace := false;
      assert keys[..0] == [] && old(buffer.text) + "" == old(buffer.text);
      for i := 0 to |keys|
        invariant buffer.text == old(buffer.text) + WriteKeys(keys[..i])
        invariant needsWhitespace <==> i > 0
      {
        WriteKeysAppend(keys[..i], keys[i]);
        assert keys[..i + 1] == keys[..i] + [keys[i]];
        if needsWhitespace {
          buffer.WriteString(" ");
        }
        WriteKeyTo(keys[i], buffer);
        needsWhitespace := true;
      }
      assert keys[..|keys|] == keys;
    }

    /** The children of a block in braces, or nothing. */
    method WriteKidsTo(buffer: Buffer, level: nat, needsWhitespace: bool)
      requires Valid() && buffer !in container.Repr
      modifies buffer
      ensures buffer.text == old(buffer.text) +
        (if container.view == [] then ""
         else (if needsWhitespace then " " else "") + "{\n" + WriteForest(container.view, level + 1)
              + Repeat('\t', level) + "}")
      decreases container.Repr, 1
    {
      if |container.children| > 0 {
        KidsText(buffer.text, if needsWhitespace then " " else "",
                 WriteForest(container.view, level + 1), Repeat('\t', level));
        if needsWhitespace {
          buffer.WriteString(" ");
        }
        buffer.WriteString("{\n");
        container.Write(buffer, level + 1);
        buffer.WriteString(Repeat('\t', level) + "}");
      }
    }

    /** write */
    method Write(buffer: Buffer, level: nat)
      requires Valid() && buffer !in container.Repr
      modifies buffer
      ensures buffer.text == old(buffer.text) + WriteTree(Tree(), level)
      decreases container.Repr, 2
    {
      buffer.WriteString(Repeat('\t', level));
      var needsWhitespace := WriteKeysTo(buffer);
      ghost var start := buffer.text;
      WriteKidsTo(buffer, level, needsWhitespace);
      ghost var kids := buffer.text[|start|..];
      buffer.WriteString("\n");
      TreeText(old(buffer.text), Repeat('\t', level), WriteKeys(keys), kids);
    }

    /** Block.Marshal */
    method Marshal() returns (text: string)
      requires Valid()
      modifies container.Repr
      ensures Valid() && container.Repr == old(container.Repr)
      ensures container.view == SortForest(old(container.view))
      ensures text == WriteTree(SortTree(old(Tree())), 0)
    {
      container.Sort();
      var buffer := new Buffer();
      Write(buffer, 0);
      text := buffer.text;
      assert "" + WriteTree(Tree(), 0) == WriteTree(Tree(), 0);
    }
  }

  lemma KidsText(text: string, space: string, inner: string, tabs: string)
    ensures text + space + "{\n" + inner + (tabs + "}") == text + (space + "{\n" + inner + tabs + "}")
    ensures text + "" == text
  {
  }

  lemma TreeText(text: string, tabs: string, header: string, kids: string)
    ensures text + tabs + header + kids + "\n" == text + (tabs + header + kids + "\n")
  {
  }

  /** blocksAreEqual */
  method BlocksAreEqual(a: Block, b: Block) returns (equal: bool)
    ensures equal <==> a.keys == b.keys
  {
    if |a.keys| != |b.keys| {
      return false;
    }
    for i := 0 to |a.keys|
      invariant a.keys[..i] == b.keys[..i]
    {
      if a.keys[i] != b.keys[i] {
        return false;
      }
    }
    assert a.keys == a.keys[..|a.keys|] == b.keys;
    return true;
  }

  /** One key in its quoting form. */
  method WriteKeyTo(key: string, buffer: Buffer)
    modifies buffer
    ensures buffer.text == old(buffer.text) + Quote(key)
  {
    if Contains(key, '\n') || Contains(key, '"') {
      WriteEnclosed("`", ReplaceAll(key, '`', "\\`"), buffer);
    } else if Contains(key, ' ') {
      WriteEnclosed("\"", ReplaceAll(key, '"', "\\\""), buffer);
    } else {
      buffer.WriteString(key);
    }
  }

  method WriteEnclosed(quote: string, text: string, buffer: Buffer)
    modifies buffer
    ensures buffer.text == old(buffer.text) + (quote + text + quote)
  {
    buffer.WriteString(quote);
    buffer.WriteString(text);
    buffer.WriteString(quote);
    ConcatAssociative(old(buffer.text) + quote, text, quote);
    ConcatAssociative(old(buffer.text), quote, text + quote);
    ConcatAssociative(quote, text, quote);
  }

  class Container {
    var children: seq<Block>
    ghost var Repr: set<object>
    ghost var view: seq<Tree>

    /** CreateContainer */
    constructor ()
      ensures Valid() && fresh(Repr) && children == [] && view == []
    {
      children, view := [], [];
      Repr := {this};
    }

    /** This child belongs to the container and to nothing above it. */
    ghost predicate Owns(b: Block)
      reads this, Repr
    {
      && b in Repr && b.container in Repr && b.container.Repr <= Repr
      && this !in b.container.Repr && b !in b.container.Repr
    }

    ghost predicate Valid()
      reads this, Repr
      ensures Valid() ==> this in Repr
      decreases Repr
    {
      && this in Repr
      && |view| == |children|
      && (forall i :: 0 <= i < |children| ==> Owns(children[i]))
      && (forall i :: 0 <= i < |children| ==> children[i].container.Valid() && view[i] == children[i].Tree())
      && (forall i, j :: 0 <= i < j < |children| ==> children[i].Footprint() !! children[j].Footprint())
    }

    /** AddBlock */
    method AddBlock(block: Block)
      requires Valid() && block.Valid() && Repr !! block.Footprint()
      modifies this
      ensures Valid() && children == old(children) + [block]
      ensures view == old(view) + [block.Tree()] && Repr == old(Repr) + block.Footprint()
    {
      view := view + [block.Tree()];
      Repr := Repr + block.Footprint();
      children := children + [block];
    }

    /** GetAllByFirstKey: all children with the first key, in order. */
    method GetAllByFirstKey(firstKey: string) returns (matched: seq<Block>, ghost at: seq<nat>)
      requires Valid()
      ensures |matched| == |at|
      ensures forall n :: 0 <= n < |at| ==> at[n] < |children| && matched[n] == children[at[n]]
      ensures forall m, n :: 0 <= m < n < |at| ==> at[m] < at[n]
      ensures forall i :: 0 <= i < |children| ==> (view[i].FirstKey() == firstKey <==> i in at)
    {
      matched, at := [], [];
      for i := 0 to |children|
        invariant |matched| == |at|
        invariant forall n :: 0 <= n < |at| ==> at[n] < i && matched[n] == children[at[n]]
        invariant forall m, n :: 0 <= m < n < |at| ==> at[m] < at[n]
        invariant forall k :: 0 <= k < i ==> (view[k].FirstKey() == firstKey <==> k in at)
      {
        if children[i].GetFirstKey() == firstKey {
          matched, at := matched + [children[i]], at + [i];
        }
      }
    }

    lemma ChildrenDistinct()
      requires Valid()
      ensures forall i, j :: 0 <= i < j < |children| ==> children[i] != children[j]
    {
      forall i, j | 0 <= i < j < |children| ensures children[i] != children[j] {
        assert children[i] in children[i].Footprint() && children[j] in children[j].Footprint();
      }
    }

    /** Remove: the block, by identity, and nothing else. `at` is where it was. */
    method Remove(blockToDelete: Block) returns (ghost at: nat)
      requires Valid()
      modifies this
      ensures Valid() && at <= |old(children)|
      ensures at == |old(children)| ==>
                blockToDelete !in old(children)
                && children == old(children) && view == old(view) && Repr == old(Repr)
      ensures at < |old(children)| ==>
                old(children)[at] == blockToDelete
                && children == Without(old(children), at) && view == Without(old(view), at)
                && Repr == old(Repr) - blockToDelete.Footprint()
    {
      ChildrenDistinct();
      var newItems;
      newItems, at := AllBut(children, blockToDelete);
      if |newItems| < |children| {
        Keep(newItems, at);
      } else {
        children := newItems;
      }
    }

    /** The children but child i. */
    method Keep(newItems: seq<Block>, ghost i: nat)
      requires Valid() && i < |children| && newItems == Without(children, i)
      modifies this
      ensures Valid() && children == newItems && view == Without(old(view), i)
      ensures Repr == old(Repr) - old(children)[i].Footprint()
    {
      forall k | 0 <= k < |children| && k != i ensures children[k].Footprint() !! children[i].Footprint() {
        assert k < i || i < k;
      }
      view := Without(view, i);
      Repr := Repr - children[i].Footprint();
      forall k | 0 <= k < |newItems|
        ensures newItems[k] == children[if k < i then k else k + 1]
        ensures view[k] == old(view)[if k < i then k else k + 1]
      {
      }
      children := newItems;
    }

    // ----- sort -----

    /** One swap of the insertion sort in sort.SliceStable. */
    method Swap(j: nat)
      requires Valid() && 1 <= j < |children|
      modifies this`children, this`view
      ensures Valid() && |view| == |old(view)|
      ensures view == Swapped(old(view), j)
      ensures multiset(view) == multiset(old(view)) && multiset(children) == multiset(old(children))
    {
      SwapContents(view, j);
      SwapContents(children, j);
      children := Swapped(children, j);
      view := Swapped(view, j);
    }

    method Less(i: nat, j: nat) returns (less: bool)
      requires Valid() && i < |children| && j < |children|
      ensures less <==> !Leq(view[j], view[i])
    {
      var c := CompareBlocks(children[i], children[j]);
      CompareAntisymmetric(view[i], view[j]);
      less := c == -1;
    }

    /** The inner loop of the insertion sort. */
    method InsertBack(i: nat)
      requires Valid() && i < |children| && Sorted(view[..i])
      modifies this`children, this`view
      ensures Valid() && |children| == |old(children)| && Sorted(view[..i + 1])
      ensures multiset(view) == multiset(old(view))
      ensures multiset(children) == multiset(old(children))
    {
      var j := i;
      assert view[..i + 1][..i] == view[..i];
      SortedButStart(view[..i + 1]);
      while j > 0
        invariant 0 <= j <= i && Valid() && |children| == |old(children)|
        invariant SortedBut(view[..i + 1], j)
        invariant multiset(view) == multiset(old(view))
        invariant multiset(children) == multiset(old(children))
      {
        var less := Less(j, j - 1);
        if !less {
          break;
        }
        SwapInPrefix(view, i, j);
        Swap(j);
        j := j - 1;
      }
      SortedButDone(view[..i + 1], j);
    }

    /** sort.SliceStable(items, compareBlocks(items[i], items[j]) == -1) on the children. */
    method SortSiblings()
      requires Valid()
      modifies this`children, this`view
      ensures Valid() && view == InsertionSort(old(view))
      ensures multiset(children) == multiset(old(children))
    {
      for i := 0 to |children|
        invariant Valid() && |children| == |old(children)|
        invariant Sorted(view[..i])
        invariant multiset(view) == multiset(old(view))
        invariant multiset(children) == multiset(old(children))
      {
        InsertBack(i);
      }
      assert view == view[..|children|];
      InsertionSortCorrect(old(view));
      SortedUnique(view, InsertionSort(old(view)));
    }

    method SortChild(i: nat)
      requires Valid() && i < |children|
      modifies Repr
      ensures Valid() && Repr == old(Repr) && children == old(children)
      ensures view == old(view)[i := SortTree(old(view)[i])]
      decreases Repr, 0
    {
      var b := children[i];
      b.container.Sort();
      ChildChanged(i);
      view := view[i := b.Tree()];
    }

    /** Only objects below child i have changed: the other children stand for the same trees. */
    twostate lemma ChildChanged(i: nat)
      requires old(Valid()) && unchanged(this) && i < |children|
      requires unchanged(old(Repr - children[i].container.Repr))
      requires children[i].container.Repr == old(children[i].container.Repr)
      ensures forall k :: 0 <= k < |children| ==> Owns(children[k])
      ensures forall k :: 0 <= k < |children| && k != i ==>
                children[k].container.Valid() && view[k] == children[k].Tree()
      ensures forall j, k :: 0 <= j < k < |children| ==> children[j].Footprint() !! children[k].Footprint()
    {
      forall k | 0 <= k < |children| && k != i
        ensures unchanged(children[k]) && unchanged(children[k].container.Repr)
        ensures Owns(children[k]) && children[k].container.Valid() && view[k] == children[k].Tree()
      {
        assert old(children[k].Footprint()) !! old(children[i].Footprint());
      }
      forall k | 0 <= k < |children| ensures children[k].Footprint() == old(children[k].Footprint()) {
      }
    }

    method SortChildren()
      requires Valid()
      modifies Repr
      ensures Valid() && Repr == old(Repr) && children == old(children) && view == SortEach(old(view))
      ensures forall i :: 0 <= i < |children| ==>
                children[i].container != this && children[i].Tree() == SortTree(old(children[i].Tree()))
      decreases Repr, 1
    {
      for i := 0 to |children|
        invariant Valid() && Repr == old(Repr) && children == old(children)
        invariant forall k :: 0 <= k < i ==> view[k] == SortTree(old(view)[k])
        invariant forall k :: i <= k < |children| ==> view[k] == old(view)[k]
      {
        SortChild(i);
      }
      SortEachAt(old(view));
      assert forall i :: 0 <= i < |children| ==> Owns(children[i]) && children[i].Tree() == view[i];
    }

    /** sort: every child's container, then the children. */
    method Sort()
      requires Valid()
      modifies Repr
      ensures Valid() && Repr == old(Repr) && view == SortForest(old(view))
      ensures multiset(children) == multiset(old(children))
      ensures forall i :: 0 <= i < |old(children)| ==> old(children)[i].Tree() == SortTree(old(children[i].Tree()))
      decreases Repr, 2
    {
      SortChildren();
      SortSiblings();
    }

    // ----- write -----

    /** write */
    method Write(buffer: Buffer, level: nat)
      requires Valid() && buffer !in Repr
      modifies buffer
      ensures buffer.text == old(buffer.text) + WriteForest(view, level)
      decreases Repr, 0
    {
      assert view[..0] == [] && old(buffer.text) + "" == old(buffer.text);
      for i := 0 to |children|
        invariant buffer.text == old(buffer.text) + WriteForest(view[..i], level)
      {
        children[i].Write(buffer, level);
        WriteForestNext(view, i, level);
        ConcatAssociative(old(buffer.text), WriteForest(view[..i], level), WriteTree(view[i], level));
      }
      assert view[..|children|] == view;
    }

    /** Container.Marshal: sorts in place and prints. */
    method Marshal() returns (text: string)
      requires Valid()
      modifies Repr
      ensures Valid() && Repr == old(Repr) && view == SortForest(old(view))
      ensures multiset(children) == multiset(old(children))
      ensures forall i :: 0 <= i < |old(children)| ==> old(children)[i].Tree() == SortTree(old(children[i].Tree()))
      ensures text == Writing.Marshal(old(view))
    {
      Sort();
      var buffer := new Buffer();
      Write(buffer, 0);
      text := buffer.text;
      assert "" + WriteForest(view, 0) == WriteForest(view, 0);
    }

    // ----- Merge -----

    /** Merge: the blocks of the other container are moved into this one. */
    method Merge(other: Container)
      requires Valid() && other.Valid() && Repr !! other.Repr
      modifies Repr, other.Repr
      ensures Valid() && view == Merging.Merge(old(view), old(other.view))
      ensures Repr <= old(Repr) + old(other.Repr)
      decreases other.Repr, 0
    {
      var blocks := other.children;
      ghost var trees := other.view;
      assert trees[..0] == [];
      for i := 0 to |blocks|
        invariant Valid() && Repr <= old(Repr) + old(other.Repr)
        invariant view == Merging.Merge(old(view), trees[..i])
        invariant forall k :: i <= k < |blocks| ==> unchanged(old(blocks[k].Footprint()))
        invariant forall k :: i <= k < |blocks| ==> old(blocks[k].Footprint()) !! Repr
      {
        MergeAppend(old(view), trees, i);
        assert old(blocks[i].Valid() && blocks[i].Tree() == trees[i]);
        assert blocks[i].Footprint() == old(blocks[i].Footprint());
        assert forall k :: i < k < |blocks| ==> old(blocks[i].Footprint()) !! old(blocks[k].Footprint());
        MergeOneBlock(blocks[i]);
      }
      assert trees[..|blocks|] == trees;
    }

    /** One turn of the outer loop of Merge. */
    method MergeOneBlock(blockB: Block)
      requires Valid() && blockB.Valid() && Repr !! blockB.Footprint()
      modifies Repr, blockB.container.Repr
      ensures Valid() && view == MergeOne(old(view), old(blockB.Tree()))
      ensures Repr <= old(Repr) + old(blockB.Footprint())
      decreases blockB.container.Repr, 3
    {
      var blockA, i, proxyLike := FindMatch(blockB);
      if blockA == null {
        AddBlock(blockB);
      } else if proxyLike {
        MergeReverseProxyLike(i, blockA, blockB);
      } else {
        MergeContainers(i, blockA, blockB, []);
        assert old(view)[i].keys + [] == old(view)[i].keys;
      }
    }

    /** The inner loop of Merge: the block to merge into, if any, and which of the two tests it met. */
    method FindMatch(blockB: Block) returns (blockA: Block?, ghost i: nat, proxyLike: bool)
      requires Valid()
      ensures i == FirstMatch(view, blockB.Tree())
      ensures if i < |children| then blockA == children[i] else blockA == null
      ensures blockA != null ==>
                (proxyLike <==> IsProxy(blockB.GetFirstKey()) && GetMatcher(blockA.keys) == GetMatcher(blockB.keys))
    {
      var firstKey := blockB.GetFirstKey();
      var matched, at := GetAllByFirstKey(firstKey);
      for n := 0 to |matched|
        invariant forall m :: 0 <= m < n ==> !Matches(view[at[m]], blockB.Tree())
      {
        blockA := matched[n];
        if (firstKey == "reverse_proxy" || firstKey == "php_fastcgi")
            && GetMatcher(blockA.keys) == GetMatcher(blockB.keys) {
          FirstMatchFound(view, blockB.Tree(), at, n);
          return blockA, at[n], true;
        } else {
          var equal := BlocksAreEqual(blockA, blockB);
          if equal {
            FirstMatchFound(view, blockB.Tree(), at, n);
            return blockA, at[n], false;
          }
        }
      }
      NoMatchFound(view, blockB.Tree(), at);
      return null, |children|, false;
    }

    /** mergeReverseProxyLike, blockA being child i. */
    method MergeReverseProxyLike(ghost i: nat, blockA: Block, blockB: Block)
      requires Valid() && i < |children| && children[i] == blockA
      requires blockB.Valid() && Repr !! blockB.Footprint() && |blockB.keys| > 0
      modifies Repr, blockB.container.Repr
      ensures Valid() && children == old(children)
      ensures view == old(view)[i := Node(old(blockA.order), old(blockA.keys) + AddedKeys(old(blockB.keys)),
                                          Merging.Merge(old(view)[i].kids, old(blockB.Tree()).kids))]
      ensures Repr <= old(Repr) + old(blockB.Footprint())
      decreases blockB.container.Repr, 2
    {
      var added := [];
      var rest := blockB.keys[1..];
      for index := 0 to |rest|
        modifies {}
        invariant added == if index == 0 then [] else AddedKeys(blockB.keys[..index + 1])
      {
        if index > 0 || !IsMatcherKey(rest[index]) {
          added := added + [rest[index]];
        }
        AddedKeysPrefix(blockB.keys, index + 1);
      }
      assert blockB.keys[..|rest| + 1] == blockB.keys;
      MergeContainers(i, blockA, blockB, added);
    }

    /** Take over the keys, then merge the children of blockB into those of blockA, child i. */
    method MergeContainers(ghost i: nat, blockA: Block, blockB: Block, added: seq<string>)
      requires Valid() && i < |children| && children[i] == blockA
      requires blockB.Valid() && Repr !! blockB.Footprint()
      modifies Repr, blockB.container.Repr
      ensures Valid() && children == old(children)
      ensures view == old(view)[i := Node(old(blockA.order), old(blockA.keys) + added,
                                          Merging.Merge(old(view)[i].kids, old(blockB.Tree()).kids))]
      ensures Repr <= old(Repr) + old(blockB.Footprint())
      decreases blockB.container.Repr, 1
    {
      blockA.AddKeys(added);
      blockA.container.Merge(blockB.container);
      ChildGrown(i);
      Refresh(i);
    }

    /** Child i alone is out of step with what the container records. */
    ghost predicate ValidBut(i: nat)
      requires i < |children|
      reads this, Repr, children[i], children[i].container, children[i].container.Repr
    {
      && this in Repr && |view| == |children|
      && children[i] in Repr && this !in children[i].container.Repr && children[i].Valid()
      && (forall k :: 0 <= k < |children| && k != i ==> Owns(children[k]))
      && (forall k :: 0 <= k < |children| && k != i ==> children[k].container.Valid() && view[k] == children[k].Tree())
      && (forall j, k :: 0 <= j < k < |children| && j != i && k != i ==>
          children[j].Footprint() !! children[k].Footprint())
      && (forall k :: 0 <= k < |children| && k != i ==> children[k].Footprint() !! children[i].Footprint())
    }

    ghost method Refresh(i: nat)
      requires i < |children| && ValidBut(i)
      modifies this`Repr, this`view
      ensures Valid() && view == old(view)[i := children[i].Tree()]
      ensures Repr == old(Repr) + children[i].container.Repr
    {
      Repr := Repr + children[i].container.Repr;
      view := view[i := children[i].Tree()];
    }

    /** Only child i has changed, and it has only gained objects from outside. */
    twostate lemma ChildGrown(i: nat)
      requires old(Valid()) && unchanged(this) && i < |children|
      requires unchanged(old(Repr - children[i].Footprint()))
      requires children[i].container.Repr * old(Repr) <= old(children[i].container.Repr)
      requires children[i].container.Valid()
      ensures ValidBut(i)
    {
      forall k | 0 <= k < |children| && k != i
        ensures unchanged(children[k]) && unchanged(children[k].container.Repr)
        ensures Owns(children[k]) && children[k].container.Valid() && view[k] == children[k].Tree()
        ensures children[k].Footprint() == old(children[k].Footprint()) && children[k].Footprint() <= old(Repr)
        ensures children[k].Footprint() !! children[i].Footprint()
      {
        assert old(children[k].Footprint()) !! old(children[i].Footprint());
      }
    }
  }

  /** The loop of Remove over the old children. */
  method AllBut(blocks: seq<Block>, blockToDelete: Block) returns (newItems: seq<Block>, ghost found: nat)
    requires forall i, j :: 0 <= i < j < |blocks| ==> blocks[i] != blocks[j]
    ensures found <= |blocks|
    ensures found == |blocks| ==> newItems == blocks && blockToDelete !in blocks
    ensures found < |blocks| ==> blocks[found] == blockToDelete && newItems == Without(blocks, found)
  {
    newItems, found := [], |blocks|;
    for i := 0 to |blocks|
      invariant found < i || found == |blocks|
      invariant found == |blocks| ==> newItems == blocks[..i] && blockToDelete !in blocks[..i]
      invariant found < |blocks| ==>
          blocks[found] == blockToDelete && newItems == blocks[..found] + blocks[found + 1..i]
    {
      if blocks[i] != blockToDelete {
        newItems := newItems + [blocks[i]];
      } else {
        found := i;
      }
    }
  }

  // ----- compareBlocks -----

  method CompareBlocks(a: Block, b: Block) returns (r: int)
    requires a.Valid() && b.Valid()
    ensures r == Compare(a.Tree(), b.Tree())
    decreases a.container.Repr
  {
    if a.IsGlobalBlock() != b.IsGlobalBlock() {
      return if a.IsGlobalBlock() then -1 else 1;
    }
    if a.IsSnippet() != b.IsSnippet() {
      return if a.IsSnippet() then -1 else 1;
    }
    if a.IsMatcher() != b.IsMatcher() {
      return if a.IsMatcher() then -1 else 1;
    }
    if a.order != b.order {
      return if a.order < b.order then -1 else 1;
    }
    var common := Min(|a.keys|, |b.keys|);
    for keyIndex := 0 to common
      invariant CompareKeys(a.keys, b.keys) == CompareKeys(a.keys[keyIndex..], b.keys[keyIndex..])
    {
      if a.keys[keyIndex] != b.keys[keyIndex] {
        return if StringLess(a.keys[keyIndex], b.keys[keyIndex]) then -1 else 1;
      }
    }
    if |a.keys| != |b.keys| {
      return if |a.keys| < |b.keys| then -1 else 1;
    }
    var ca, cb := a.container.children, b.container.children;
    ghost var va, vb := a.container.view, b.container.view;
    common := Min(|ca|, |cb|);
    for c := 0 to common
      invariant CompareKids(va, vb) == CompareKids(va[c..], vb[c..])
    {
      var childComparison := CompareBlocks(ca[c], cb[c]);
      if childComparison != 0 {
        return childComparison;
      }
    }
    if |ca| != |cb| {
      return if |ca| < |cb| then -1 else 1;
    }
    return 0;
  }

  function Min(a: nat, b: nat): nat {
    if a < b then a else b
  }

  function Swapped<T>(s: seq<T>, j: nat): seq<T>
    requires 1 <= j < |s|
  {
    s[j - 1 := s[j]][j := s[j - 1]]
  }

  lemma SwapContents<T>(s: seq<T>, j: nat)
    requires 1 <= j < |s|
    ensures multiset(Swapped(s, j)) == multiset(s)
  {
  }

  lemma SwapInPrefix(ts: seq<Tree>, i: nat, j: nat)
    requires 1 <= j <= i < |ts| && SortedBut(ts[..i + 1], j) && !Leq(ts[j - 1], ts[j])
    ensures SortedBut(Swapped(ts, j)[..i + 1], j - 1)
  {
    LeqTotal(ts[j - 1], ts[j]);
    SortedButSwap(ts[..i + 1], j);
    assert Swapped(ts, j)[..i + 1] == Swapped(ts[..i + 1], j);
  }

  /** Sorted except that the element at j may be smaller than those before it. */
  ghost predicate SortedBut(ts: seq<Tree>, j: nat) {
    forall p, q :: 0 <= p <= q < |ts| && q != j ==> Leq(ts[p], ts[q])
  }

  lemma SortedButStart(ts: seq<Tree>)
    requires ts != [] && Sorted(ts[..|ts| - 1])
    ensures SortedBut(ts, |ts| - 1)
  {
    forall p, q | 0 <= p <= q < |ts| && q != |ts| - 1 ensures Leq(ts[p], ts[q]) {
      assert Leq(ts[..|ts| - 1][p], ts[..|ts| - 1][q]);
    }
  }

  lemma SortedButSwap(ts: seq<Tree>, j: nat)
    requires 1 <= j < |ts| && SortedBut(ts, j) && Leq(ts[j], ts[j - 1])
    ensures SortedBut(Swapped(ts, j), j - 1)
  {
    var us := Swapped(ts, j);
    forall p, q | 0 <= p <= q < |us| && q != j - 1 ensures Leq(us[p], us[q]) {
      if q == j {
        if p == j { LeqTotal(us[q], us[q]); } else if p < j - 1 { assert Leq(ts[p], ts[j - 1]); }
      } else if q < j - 1 {
        assert Leq(ts[p], ts[q]);
      } else {
        assert Leq(ts[if p == j then j - 1 else if p == j - 1 then j else p], ts[q]);
      }
    }
  }

  lemma SortedButDone(ts: seq<Tree>, j: nat)
    requires j < |ts| && SortedBut(ts, j) && (j > 0 ==> Leq(ts[j - 1], ts[j]))
    ensures Sorted(ts)
  {
    LeqTotal(ts[j], ts[j]);
    forall p, q | 0 <= p <= q < |ts| ensures Leq(ts[p], ts[q]) {
      if q == j && p < j {
        assert Leq(ts[p], ts[j - 1]);
        CompareTransitive(ts[p], ts[j - 1], ts[j]);
      }
    }
  }

  // ----- Steps of Merge -----

  lemma {:induction false} MergeAppend(ts: seq<Tree>, bs: seq<Tree>, i: nat)
    requires i < |bs|
    ensures Merge(ts, bs[..i + 1]) == MergeOne(Merge(ts, bs[..i]), bs[i])
    decreases |bs|
  {
    if i == 0 {
      assert bs[..1][1..] == [] && bs[..0] == [];
      assert Merge(MergeOne(ts, bs[0]), []) == MergeOne(ts, bs[0]);
    } else {
      assert bs[..i + 1][1..] == bs[1..][..i] && bs[..i][1..] == bs[1..][..i - 1];
      MergeAppend(MergeOne(ts, bs[0]), bs[1..], i - 1);
    }
  }

  lemma AddedKeysPrefix(keys: seq<string>, n: nat)
    requires 1 <= n < |keys|
    ensures AddedKeys(keys[..n + 1]) ==
            (if n == 1 then [] else AddedKeys(keys[..n])) + (if n > 1 || !IsMatcherKey(keys[n]) then [keys[n]] else [])
  {
  }

  lemma EarlierAt(at: seq<nat>, n: nat, j: nat) returns (m: nat)
    requires n < |at| && j in at && j < at[n] && forall l, m :: 0 <= l < m < |at| ==> at[l] < at[m]
    ensures m < n && at[m] == j
  {
    m :| m < |at| && at[m] == j;
  }

  /** The first matching block by first key is the first matching block. */
  lemma FirstMatchFound(ts: seq<Tree>, b: Tree, at: seq<nat>, n: nat)
    requires n < |at| && forall m :: 0 <= m < |at| ==> at[m] < |ts|
    requires forall l, m :: 0 <= l < m < |at| ==> at[l] < at[m]
    requires forall i :: 0 <= i < |ts| ==> (ts[i].FirstKey() == b.FirstKey() <==> i in at)
    requires forall m :: 0 <= m < n ==> !Matches(ts[at[m]], b)
    requires Matches(ts[at[n]], b)
    ensures FirstMatch(ts, b) == at[n]
  {
    forall j | 0 <= j < at[n] ensures !Matches(ts[j], b) {
      if ts[j].FirstKey() == b.FirstKey() {
        var m := EarlierAt(at, n, j);
      }
    }
  }

  lemma NoMatchFound(ts: seq<Tree>, b: Tree, at: seq<nat>)
    requires forall m :: 0 <= m < |at| ==> at[m] < |ts| && !Matches(ts[at[m]], b)
    requires forall i :: 0 <= i < |ts| ==> (ts[i].FirstKey() == b.FirstKey() <==> i in at)
    ensures FirstMatch(ts, b) == |ts|
  {
    forall j | 0 <= j < |ts| ensures !Matches(ts[j], b) {
      if ts[j].FirstKey() == b.FirstKey() {
        assert j in at;
      }
    }
  }
}
