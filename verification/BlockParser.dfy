/** parseContainer (caddyfile/marshal.go) on the heap: the stack holds pointers to containers, and
    `currentBlock` points to the block that receives keys. */
module BlockParsing {
  import opened Seqs
  import opened Runes
  import opened Lexing
  import opened Trees
  import opened Blocks
  import opened Spines
  import opened Parsing

  // ----- The rightmost spine as a path -----

  /** The last index at every level. */
  function SpinePath(f: seq<Tree>): (path: seq<nat>)
    ensures |path| == SpineDepth(f)
  {
    if f == [] then [] else [|f| - 1] + SpinePath(Last(f).kids)
  }

  lemma ReplaceLastUpdate(f: seq<Tree>, u: Tree)
    requires f != []
    ensures ReplaceLast(f, u) == f[|f| - 1 := u] && Last(f[|f| - 1 := u]) == u
  {
  }

  lemma {:induction false} GrownSpine(f: seq<Tree>, d: nat, t: Tree)
    requires d <= SpineDepth(f)
    ensures Grown(f, SpinePath(f)[..d], t) == AddAt(f, d, t)
    decreases d
  {
    if d > 0 {
      GrownSpine(Last(f).kids, d - 1, t);
      assert SpinePath(f)[..d][1..] == SpinePath(Last(f).kids)[..d - 1];
      ReplaceLastUpdate(f, Last(f).(kids := AddAt(Last(f).kids, d - 1, t)));
    }
  }

  lemma {:induction false} SpineOfAdded(f: seq<Tree>, d: nat, t: Tree)
    requires d <= SpineDepth(f) && t.kids == []
    ensures SpinePath(AddAt(f, d, t)) == SpinePath(f)[..d] + [ChildCount(f, d)]
    decreases d
  {
    if d == 0 {
      assert Last(f + [t]) == t;
      assert SpinePath(t.kids) == [];
    } else {
      SpineOfAdded(Last(f).kids, d - 1, t);
      var u := Last(f).(kids := AddAt(Last(f).kids, d - 1, t));
      ReplaceLastUpdate(f, u);
      assert SpinePath(f)[..d] == [|f| - 1] + SpinePath(Last(f).kids)[..d - 1];
    }
  }

  lemma {:induction false} KeysSpine(f: seq<Tree>, key: string)
    requires f != []
    ensures var path := SpinePath(f); var n := |path| - 1;
            n >= 0 && WithKeys(f, path[..n], path[n], [key]) == AddKeyAtEnd(f, key)
    ensures SpinePath(AddKeyAtEnd(f, key)) == SpinePath(f)
    decreases f
  {
    var last := |f| - 1;
    var path := SpinePath(f);
    var n := |path| - 1;
    if Last(f).kids == [] {
      var u := Last(f).(keys := Last(f).keys + [key]);
      assert SpinePath(Last(f).kids) == [];
      assert path == [last] && path[..0] == [];
      assert ReplaceLast(f, u) == f[last := u];
      assert Last(f[last := u]) == u;
    } else {
      KeysSpine(Last(f).kids, key);
      var u := Last(f).(kids := AddKeyAtEnd(Last(f).kids, key));
      assert path[..n][1..] == SpinePath(Last(f).kids)[..n - 1] && path[n] == SpinePath(Last(f).kids)[n - 1];
      assert ReplaceLast(f, u) == f[last := u];
      assert Last(f[last := u]) == u;
    }
  }

  lemma KeysAlong(f: seq<Tree>, path: seq<nat>, i: nat, key: string)
    requires f != [] && SpinePath(f) == path + [i]
    ensures WithKeys(f, path, i, [key]) == AddKeyAtEnd(f, key)
    ensures SpinePath(AddKeyAtEnd(f, key)) == path + [i] && AddKeyAtEnd(f, key) != []
  {
    assert SpinePath(f)[..|path|] == path;
    KeysSpine(f, key);
  }

  lemma {:induction false} SpineEnds(f: seq<Tree>)
    ensures ChildCount(f, SpineDepth(f)) == 0
  {
    if f != [] {
      SpineEnds(Last(f).kids);
    }
  }

  /** The chain of containers along the spine of the root. */
  ghost predicate Spine(chain: seq<Container>)
    reads chain, if chain == [] then {} else chain[0].Repr
  {
    chain != [] && chain[0].Valid() && Chain(chain, SpinePath(chain[0].view))
  }

  lemma {:induction false} SpineCount(chain: seq<Container>, d: nat)
    requires Spine(chain) && d < |chain|
    ensures ChildCount(chain[0].view, d) == |chain[d].children|
    decreases d
  {
    if d > 0 {
      var path := SpinePath(chain[0].view);
      assert chain[0].view[path[0]] == chain[0].children[path[0]].Tree();
      assert Last(chain[0].view).kids == chain[1].view;
      ChainValid(chain, path, 1);
      assert SpinePath(chain[1].view) == path[1..];
      SpineCount(chain[1..], d - 1);
    }
  }

  /** The pointers the parser keeps stand for the depths the specification keeps. */
  ghost predicate Represents(p: Parser, chain: seq<Container>, stack: seq<Container>, currentBlock: Block?)
    reads chain, if chain == [] then {} else chain[0].Repr
  {
    && Spine(chain) && chain[0].view == p.forest && OnSpine(p)
    && StackOf(p.stack, chain, stack)
    && (p.forest != [] ==> currentBlock == LastBlock(chain))
  }

  ghost predicate StackOf(depths: seq<nat>, chain: seq<Container>, stack: seq<Container>) {
    |stack| == |depths| && forall j :: 0 <= j < |depths| ==> depths[j] < |chain| && stack[j] == chain[depths[j]]
  }

  /** The block at the end of the spine. */
  ghost function LastBlock(chain: seq<Container>): Block?
    reads chain
  {
    var n := |chain| - 2;
    if n < 0 || chain[n].children == [] then null else chain[n].children[|chain[n].children| - 1]
  }

  method NewBlock(order: int) returns (block: Block)
    ensures block.Valid() && fresh(block.Footprint()) && block.Tree() == Node(order, [], [])
  {
    block := new Block();
    block.order := order;
  }

  /** A chain goes on to the last block of its last container. */
  lemma ChainExtended(chain: seq<Container>, path: seq<nat>, block: Block)
    requires Chain(chain, path) && chain[|path|].children != []
    requires block == chain[|path|].children[|chain[|path|].children| - 1]
    ensures Chain(chain + [block.container], path + [|chain[|path|].children| - 1])
    ensures LastBlock(chain + [block.container]) == block
  {
  }

  lemma ChainPrefix(chain: seq<Container>, d: nat)
    requires Spine(chain) && d < |chain|
    ensures Anchored(chain[..d + 1], SpinePath(chain[0].view)[..d])
  {
  }

  /** AddBlock on the container at depth d. */
  method AddBlockOnSpine(ghost chain: seq<Container>, ghost d: nat, parentBlock: Container, block: Block)
    returns (ghost chain': seq<Container>)
    requires Spine(chain) && d < |chain| && parentBlock == chain[d]
    requires block.Valid() && block.Tree().kids == [] && chain[0].Repr !! block.Footprint()
    modifies chain[0].Repr
    ensures chain' == chain[..d + 1] + [block.container] && Spine(chain')
    ensures chain[0].view == AddAt(old(chain[0].view), d, block.Tree())
    ensures LastBlock(chain') == block
    ensures chain[0].Repr == old(chain[0].Repr) + block.Footprint()
  {
    ghost var f, t := chain[0].view, block.Tree();
    ghost var upper, upperPath := chain[..d + 1], SpinePath(f)[..d];
    SpineCount(chain, d);
    ChainPrefix(chain, d);
    ChainBelow(upper, upperPath);
    assert block.container !in upper;
    AddBlockAlong(upper, upperPath, parentBlock, block);
    assert block.Tree() == t;
    SpineGrown(upper, f, d, block, t);
    chain' := upper + [block.container];
  }

  /** A chain along the spine goes on to a block just added at its end. */
  lemma SpineGrown(upper: seq<Container>, f: seq<Tree>, d: nat, block: Block, t: Tree)
    requires d <= SpineDepth(f) && t.kids == [] && Anchored(upper, SpinePath(f)[..d])
    requires upper[0].view == Grown(f, SpinePath(f)[..d], t)
    requires |upper[d].children| == ChildCount(f, d) + 1 && upper[d].children[ChildCount(f, d)] == block
    ensures Spine(upper + [block.container]) && LastBlock(upper + [block.container]) == block
    ensures upper[0].view == AddAt(f, d, t)
  {
    GrownSpine(f, d, t);
    SpineOfAdded(f, d, t);
    ChainExtended(upper, SpinePath(f)[..d], block);
  }

  /** A new block at the end of the container at depth d. */
  method StartBlock(ghost chain: seq<Container>, ghost d: nat, parentBlock: Container)
    returns (currentBlock: Block, ghost chain': seq<Container>)
    requires Spine(chain) && d < |chain| && parentBlock == chain[d]
    modifies chain[0].Repr
    ensures chain' == chain[..d + 1] + [currentBlock.container] && Spine(chain')
    ensures chain[0].view == AddAt(old(chain[0].view), d, Node(ChildCount(old(chain[0].view), d), [], []))
    ensures currentBlock == LastBlock(chain')
    ensures fresh(chain[0].Repr - old(chain[0].Repr))
  {
    SpineCount(chain, d);
    currentBlock := NewBlock(|parentBlock.children|);
    chain' := AddBlockOnSpine(chain, d, parentBlock, currentBlock);
  }

  /** AddKeys on the block at the end of the spine. */
  method AddKeyToCurrent(ghost chain: seq<Container>, currentBlock: Block, key: string)
    requires Spine(chain) && chain[0].view != [] && currentBlock == LastBlock(chain)
    modifies chain[0].Repr
    ensures Spine(chain) && chain[0].view == AddKeyAtEnd(old(chain[0].view), key) && chain[0].Repr == old(chain[0].Repr)
    ensures currentBlock == LastBlock(chain)
  {
    ghost var f := chain[0].view;
    ghost var upper, upperPath, i := SpineSplit(chain, currentBlock);
    ChainBelow(upper, upperPath);
    BlockBelow(upper, upperPath, i);
    AddKeysAlong(upper, upperPath, i, currentBlock, [key]);
    SpineKeyed(upper, upperPath, i, f, currentBlock, key);
  }

  lemma SpineKeyed(upper: seq<Container>, path: seq<nat>, i: nat, f: seq<Tree>, block: Block, key: string)
    requires Anchored(upper, path) && f != [] && SpinePath(f) == path + [i]
    requires upper[0].view == WithKeys(f, path, i, [key])
    requires |upper[|path|].children| == i + 1 && upper[|path|].children[i] == block
    ensures Spine(upper + [block.container]) && LastBlock(upper + [block.container]) == block
    ensures upper[0].view == AddKeyAtEnd(f, key)
  {
    KeysAlong(f, path, i, key);
    ChainExtended(upper, path, block);
  }

  lemma SpineSplit(chain: seq<Container>, currentBlock: Block)
    returns (upper: seq<Container>, upperPath: seq<nat>, i: nat)
    requires Spine(chain) && chain[0].view != [] && currentBlock == LastBlock(chain)
    ensures chain == upper + [currentBlock.container] && SpinePath(chain[0].view) == upperPath + [i]
    ensures Anchored(upper, upperPath) && upper[0] == chain[0] && |upperPath| == |SpinePath(chain[0].view)| - 1
    ensures i == |upper[|upperPath|].children| - 1 && currentBlock == upper[|upperPath|].children[i]
  {
    var path := SpinePath(chain[0].view);
    var n := |path| - 1;
    SpineLast(chain);
    ChainPrefix(chain, n);
    upper, upperPath, i := chain[..n + 1], path[..n], path[n];
  }

  lemma SpineLast(chain: seq<Container>)
    requires Spine(chain) && chain[0].view != []
    ensures var n := |chain| - 2;
            n >= 0 && chain[n].children != [] && SpinePath(chain[0].view)[n] == |chain[n].children| - 1
  {
    var n := |chain| - 2;
    SpineCount(chain, n);
    SpineIndex(chain[0].view, n);
  }

  lemma {:induction false} SpineIndex(f: seq<Tree>, d: nat)
    requires d < SpineDepth(f)
    ensures SpinePath(f)[d] == ChildCount(f, d) - 1
    decreases d
  {
    if d > 0 {
      SpineIndex(Last(f).kids, d - 1);
    }
  }

  // ----- The loop -----

  /** A new block if the token starts a line. */
  method EnsureBlock(ghost p: Parser, ghost chain: seq<Container>, stack: seq<Container>, currentBlock: Block?,
                     isNewBlock: bool)
    returns (currentBlock': Block, ghost chain': seq<Container>)
    requires Represents(p, chain, stack, currentBlock) && p.isNewBlock == isNewBlock
    modifies chain[0].Repr
    ensures chain' != [] && chain'[0] == chain[0] && fresh(chain[0].Repr - old(chain[0].Repr))
    ensures Represents(OpenBlock(p), chain', stack, currentBlock')
  {
    OpenBlockOnSpine(p);
    if isNewBlock {
      currentBlock', chain' := StartBlock(chain, p.Top(), stack[|stack| - 1]);
      StackKept(p.stack, chain, chain', stack, p.Top());
    } else {
      currentBlock', chain' := currentBlock, chain;
    }
  }

  lemma StackKept(depths: seq<nat>, chain: seq<Container>, chain': seq<Container>, stack: seq<Container>, d: nat)
    requires AscendingStack(depths) && depths[|depths| - 1] == d && StackOf(depths, chain, stack)
    requires d < |chain| && d < |chain'| && chain'[..d + 1] == chain[..d + 1]
    ensures StackOf(depths, chain', stack)
  {
    forall j | 0 <= j < |depths| ensures depths[j] < |chain'| && stack[j] == chain'[depths[j]] {
      assert chain'[depths[j]] == chain'[..d + 1][depths[j]] == chain[..d + 1][depths[j]];
    }
  }

  /** The container of the current block goes on the stack. */
  lemma PushRepresents(p: Parser, chain: seq<Container>, stack: seq<Container>, currentBlock: Block)
    requires Represents(p, chain, stack, currentBlock) && p.forest != []
    ensures Represents(p.(stack := p.stack + [SpineDepth(p.forest)]), chain,
                       stack + [currentBlock.container], currentBlock)
  {
    var upper, upperPath, i := SpineSplit(chain, currentBlock);
    AscendingPush(p.stack, SpineDepth(p.forest));
    assert chain[|chain| - 1] == currentBlock.container;
  }

  method PutKey(ghost p: Parser, ghost chain: seq<Container>, ghost stack: seq<Container>, currentBlock: Block,
                key: string)
    requires Represents(p, chain, stack, currentBlock) && p.forest != []
    modifies chain[0].Repr
    ensures chain[0].Repr == old(chain[0].Repr)
    ensures Represents(p.(forest := AddKeyAtEnd(p.forest, key), tokenLine := p.tokenLine + Newlines(key)),
                       chain, stack, currentBlock)
  {
    AddKeyDepth(p.forest, key);
    AddKeyToCurrent(chain, currentBlock, key);
  }

  lemma ParseOnLine(p: Parser, token: Token)
    requires p.tokenLine == token.line && token.text != "}"
    ensures ParseToken(p, token) == Some(
              var q := OpenBlock(p);
              if token.text == "{" then q.(stack := q.stack + [SpineDepth(q.forest)])
              else q.(forest := AddKeyAtEnd(q.forest, token.text), tokenLine := q.tokenLine + Newlines(token.text)))
  {
    assert Relocate(p, token.line) == p;
  }

  /** One turn of the loop for a token that is not `}`. */
  method TakeToken(ghost p: Parser, ghost chain: seq<Container>, stack: seq<Container>, currentBlock: Block?,
                   isNewBlock: bool, tokenLine: int, token: Token)
    returns (stack': seq<Container>, currentBlock': Block, tokenLine': int, ghost chain': seq<Container>)
    requires Represents(p, chain, stack, currentBlock) && token.text != "}"
    requires p.isNewBlock == isNewBlock && p.tokenLine == tokenLine == token.line
    modifies chain[0].Repr
    ensures chain' != [] && chain'[0] == chain[0] && fresh(chain[0].Repr - old(chain[0].Repr))
    ensures ParseToken(p, token).Some?
    ensures var r := ParseToken(p, token).value;
            Represents(r, chain', stack', currentBlock') && !r.isNewBlock && r.tokenLine == tokenLine'
  {
    ParseOnLine(p, token);
    OpenBlockOnSpine(p);
    currentBlock', chain' := EnsureBlock(p, chain, stack, currentBlock, isNewBlock);
    stack', tokenLine' := stack, tokenLine;
    if token.text == "{" {
      PushRepresents(OpenBlock(p), chain', stack, currentBlock');
      stack' := stack + [currentBlock'.container];
    } else {
      PutKey(OpenBlock(p), chain', stack, currentBlock', token.text);
      tokenLine' := tokenLine + Newlines(token.text);
    }
  }

  lemma RelocateRepresents(p: Parser, chain: seq<Container>, stack: seq<Container>, currentBlock: Block?, token: Token)
    requires Represents(p, chain, stack, currentBlock)
    ensures var q := Relocate(p, token.line);
            && Represents(q, chain, stack, currentBlock) && q.tokenLine == token.line
            && q.isNewBlock == (p.isNewBlock || (token.line != p.tokenLine && p.tokenLine != -1))
            && ParseToken(q, token) == ParseToken(p, token)
  {
  }

  lemma PopRepresents(p: Parser, chain: seq<Container>, stack: seq<Container>, currentBlock: Block?)
    requires Represents(p, chain, stack, currentBlock) && |p.stack| > 1
    ensures Represents(p.(stack := p.stack[..|p.stack| - 1]), chain, stack[..|stack| - 1], currentBlock)
  {
    AscendingPop(p.stack);
  }

  /** One turn of the loop; not ok is the "Unexpected token" error. */
  method TurnOn(ghost p: Parser, ghost chain: seq<Container>, stack: seq<Container>, currentBlock: Block?,
                isNewBlock: bool, tokenLine: int, token: Token)
    returns (ok: bool, stack': seq<Container>, currentBlock': Block?, isNewBlock': bool, tokenLine': int,
             ghost chain': seq<Container>)
    requires Represents(p, chain, stack, currentBlock) && p.isNewBlock == isNewBlock && p.tokenLine == tokenLine
    modifies chain[0].Repr
    ensures chain' != [] && chain'[0] == chain[0] && fresh(chain[0].Repr - old(chain[0].Repr))
    ensures ok <==> ParseToken(p, token).Some?
    ensures ok ==> var r := ParseToken(p, token).value;
                   && Represents(r, chain', stack', currentBlock')
                   && r.isNewBlock == isNewBlock' && r.tokenLine == tokenLine'
  {
    ok, stack', currentBlock', chain' := true, stack, currentBlock, chain;
    isNewBlock', tokenLine' := isNewBlock, tokenLine;
    if token.line != tokenLine {
      if tokenLine != -1 {
        isNewBlock' := true;
      }
      tokenLine' := token.line;
    }
    ghost var q := Relocate(p, token.line);
    RelocateRepresents(p, chain, stack, currentBlock, token);
    if token.text == "}" {
      if |stack| == 1 {
        ok := false;
        return;
      }
      PopRepresents(q, chain, stack, currentBlock);
      stack' := stack[..|stack| - 1];
    } else {
      stack', currentBlock', tokenLine', chain' :=
        TakeToken(q, chain, stack, currentBlock, isNewBlock', tokenLine', token);
      isNewBlock' := false;
    }
  }

  lemma RootRepresents(root: Container)
    requires root.Valid() && root.view == []
    ensures Represents(Begin(), [root], [root], null)
  {
    assert SpinePath([]) == [];
  }

  lemma NextToken(p: Parser, tokens: seq<Token>, i: nat)
    requires i < |tokens|
    ensures ParseTokens(Some(p), tokens[i..]) == ParseTokens(ParseToken(p, tokens[i]), tokens[i + 1..])
  {
    assert tokens[i..][0] == tokens[i] && tokens[i..][1..] == tokens[i + 1..];
  }

  method ParseBlocks(tokens: seq<Token>) returns (rootContainer: Container?)
    ensures rootContainer == null <==> ParseContainer(tokens).None?
    ensures rootContainer != null ==>
              fresh(rootContainer.Repr) && rootContainer.Valid() && rootContainer.view == ParseContainer(tokens).value
  {
    var root := new Container();
    var stack, isNewBlock, tokenLine := [root], true, -1;
    var currentBlock: Block? := null;
    ghost var p, chain := Begin(), [root];
    RootRepresents(root);
    assert tokens[0..] == tokens;
    for i := 0 to |tokens|
      invariant chain != [] && chain[0] == root && fresh(root.Repr)
      invariant Represents(p, chain, stack, currentBlock) && p.isNewBlock == isNewBlock && p.tokenLine == tokenLine
      invariant ParseTokens(Some(p), tokens[i..]) == ParseTokens(Some(Begin()), tokens)
    {
      NextToken(p, tokens, i);
      var ok;
      ok, stack, currentBlock, isNewBlock, tokenLine, chain :=
        TurnOn(p, chain, stack, currentBlock, isNewBlock, tokenLine, tokens[i]);
      if !ok {
        return null;
      }
      p := ParseToken(p, tokens[i]).value;
    }
    rootContainer := root;
  }
}
