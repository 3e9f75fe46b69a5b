/** The stack parser (parseContainer, caddyfile/marshal.go). Containers on the stack are named by
    their depth along the rightmost spine of the tree built so far: depth 0 is the root, depth d + 1
    the last child of the container at depth d. `currentBlock` is the end of that spine. */
module Parsing {
  import opened Runes
  import opened Seqs
  import opened Lexing
  import opened Trees

  datatype Parser = Parser(forest: seq<Tree>, stack: seq<nat>, isNewBlock: bool, tokenLine: int) {
    function Top(): nat {
      if stack == [] then 0 else stack[|stack| - 1]
    }
  }

  function Begin(): Parser {
    Parser([], [0], true, -1)
  }

  function Last(f: seq<Tree>): Tree
    requires f != []
  {
    f[|f| - 1]
  }

  function ReplaceLast(f: seq<Tree>, t: Tree): seq<Tree>
    requires f != []
  {
    f[..|f| - 1] + [t]
  }

  function SpineDepth(f: seq<Tree>): nat {
    if f == [] then 0 else 1 + SpineDepth(Last(f).kids)
  }

  /** The number of children of the container at depth d. */
  function ChildCount(f: seq<Tree>, d: nat): nat
    decreases d
  {
    if d == 0 || f == [] then |f| else ChildCount(Last(f).kids, d - 1)
  }

  /** AddBlock on the container at depth d. */
  function AddAt(f: seq<Tree>, d: nat, t: Tree): seq<Tree>
    decreases d
  {
    if d == 0 || f == [] then f + [t]
    else ReplaceLast(f, Last(f).(kids := AddAt(Last(f).kids, d - 1, t)))
  }

  /** AddKeys on the block at the end of the spine. */
  function AddKeyAtEnd(f: seq<Tree>, key: string): seq<Tree> {
    if f == [] then []
    else if Last(f).kids == [] then ReplaceLast(f, Last(f).(keys := Last(f).keys + [key]))
    else ReplaceLast(f, Last(f).(kids := AddKeyAtEnd(Last(f).kids, key)))
  }

  /** The tests at the head of the loop: does this token start a line? */
  function Relocate(p: Parser, line: nat): Parser {
    if line != p.tokenLine then p.(isNewBlock := p.isNewBlock || p.tokenLine != -1, tokenLine := line) else p
  }

  function OpenBlock(p: Parser): Parser {
    if !p.isNewBlock then p
    else p.(forest := AddAt(p.forest, p.Top(), Node(ChildCount(p.forest, p.Top()), [], [])), isNewBlock := false)
  }

  /** One turn of the loop; None is the "Unexpected token" error. */
  function ParseToken(p: Parser, token: Token): Option<Parser> {
    var p1 := Relocate(p, token.line);
    if token.text == "}" then
      if |p1.stack| <= 1 then None else Some(p1.(stack := p1.stack[..|p1.stack| - 1]))
    else
      var p2 := OpenBlock(p1);
      if token.text == "{" then Some(p2.(stack := p2.stack + [SpineDepth(p2.forest)]))
      else Some(p2.(forest := AddKeyAtEnd(p2.forest, token.text), tokenLine := p2.tokenLine + Newlines(token.text)))
  }

  function ParseTokens(p: Option<Parser>, tokens: seq<Token>): Option<Parser>
    decreases |tokens|
  {
    if p.None? || tokens == [] then p else ParseTokens(ParseToken(p.value, tokens[0]), tokens[1..])
  }

  function ParseContainer(tokens: seq<Token>): Option<seq<Tree>> {
    var r := ParseTokens(Some(Begin()), tokens);
    if r.None? then None else Some(r.value.forest)
  }

  /** Unmarshal */
  function Unmarshal(text: string): Option<seq<Tree>> {
    var tokens := AllTokens(text);
    if tokens.None? then None else ParseContainer(tokens.value)
  }

  lemma {:induction false} ParseConcat(p: Option<Parser>, a: seq<Token>, b: seq<Token>)
    ensures ParseTokens(p, a + b) == ParseTokens(ParseTokens(p, a), b)
    decreases |a|
  {
    if a == [] {
      assert a + b == b;
    } else if p.Some? {
      assert (a + b)[1..] == a[1..] + b;
      ParseConcat(ParseToken(p.value, a[0]), a[1..], b);
    }
  }

  lemma ParseOne(p: Option<Parser>, token: Token)
    requires p.Some?
    ensures ParseTokens(p, [token]) == ParseToken(p.value, token)
  {
    assert [token][1..] == [];
    assert ParseTokens(ParseToken(p.value, token), []) == ParseToken(p.value, token);
  }

  // ----- The spine -----

  lemma {:induction false} AddAtDepth(f: seq<Tree>, d: nat, t: Tree)
    requires d <= SpineDepth(f)
    ensures AddAt(f, d, t) != [] && SpineDepth(AddAt(f, d, t)) == d + 1 + SpineDepth(t.kids)
    ensures ChildCount(AddAt(f, d, t), d) == ChildCount(f, d) + 1
    ensures ChildCount(AddAt(f, d, t), d + 1) == |t.kids|
    decreases d
  {
    if d > 0 {
      AddAtDepth(Last(f).kids, d - 1, t);
      assert Last(AddAt(f, d, t)) == Last(f).(kids := AddAt(Last(f).kids, d - 1, t));
    } else {
      assert Last(AddAt(f, d, t)) == t;
      assert ChildCount(t.kids, 0) == |t.kids|;
    }
  }

  lemma {:induction false} AddKeyDepth(f: seq<Tree>, key: string)
    ensures SpineDepth(AddKeyAtEnd(f, key)) == SpineDepth(f)
    decreases f
  {
    if f != [] {
      AddKeyDepth(Last(f).kids, key);
      assert Last(AddKeyAtEnd(f, key)).kids == AddKeyAtEnd(Last(f).kids, key);
    }
  }

  /** The block just added is the one that receives the keys. */
  lemma {:induction false} AddKeyToAdded(f: seq<Tree>, d: nat, t: Tree, key: string)
    requires d <= SpineDepth(f) && t.kids == []
    ensures AddKeyAtEnd(AddAt(f, d, t), key) == AddAt(f, d, t.(keys := t.keys + [key]))
    decreases d
  {
    var g := AddAt(f, d, t);
    if d > 0 {
      var inner := AddAt(Last(f).kids, d - 1, t);
      AddAtDepth(Last(f).kids, d - 1, t);
      AddKeyToAdded(Last(f).kids, d - 1, t, key);
      assert g[..|g| - 1] == f[..|f| - 1];
      assert Last(g) == Last(f).(kids := inner);
    } else {
      assert g[..|g| - 1] == f;
      assert Last(g) == t;
    }
  }

  /** One level below the block just added, blocks become its children. */
  lemma {:induction false} AddBelowAdded(f: seq<Tree>, d: nat, t: Tree, u: Tree)
    requires d <= SpineDepth(f)
    ensures AddAt(AddAt(f, d, t), d + 1, u) == AddAt(f, d, t.(kids := t.kids + [u]))
    decreases d
  {
    var g := AddAt(f, d, t);
    if d > 0 {
      var inner := AddAt(Last(f).kids, d - 1, t);
      AddBelowAdded(Last(f).kids, d - 1, t, u);
      assert g[..|g| - 1] == f[..|f| - 1];
      assert Last(g) == Last(f).(kids := inner);
    } else {
      assert g[..|g| - 1] == f;
      assert Last(g) == t;
      assert AddAt(t.kids, 0, u) == t.kids + [u];
    }
  }

  ghost predicate AscendingStack(stack: seq<nat>) {
    && |stack| >= 1 && stack[0] == 0
    && (forall i, j :: 0 <= i <= j < |stack| ==> stack[i] <= stack[j])
  }

  /** Every stacked container lies on the rightmost spine that ends at the current block, and no
      container is stacked above a deeper one; before the first block there is nothing to stack. */
  ghost predicate OnSpine(p: Parser) {
    && AscendingStack(p.stack)
    && p.Top() <= SpineDepth(p.forest)
    && (p.forest == [] ==> p.isNewBlock)
  }

  lemma AscendingPush(stack: seq<nat>, d: nat)
    requires AscendingStack(stack) && stack[|stack| - 1] <= d
    ensures AscendingStack(stack + [d])
  {
  }

  lemma AscendingPop(stack: seq<nat>)
    requires AscendingStack(stack) && |stack| > 1
    ensures AscendingStack(stack[..|stack| - 1]) && stack[|stack| - 2] <= stack[|stack| - 1]
  {
  }

  lemma OpenBlockOnSpine(p: Parser)
    requires OnSpine(p)
    ensures OnSpine(OpenBlock(p)) && OpenBlock(p).forest != []
  {
    if p.isNewBlock {
      AddAtDepth(p.forest, p.Top(), Node(ChildCount(p.forest, p.Top()), [], []));
    }
  }

  lemma ParseTokenOnSpine(p: Parser, token: Token)
    requires OnSpine(p)
    ensures ParseToken(p, token).Some? ==> OnSpine(ParseToken(p, token).value)
  {
    var p1 := Relocate(p, token.line);
    if token.text == "}" {
      if |p.stack| > 1 {
        AscendingPop(p.stack);
      }
    } else {
      OpenBlockOnSpine(p1);
      var p2 := OpenBlock(p1);
      AscendingPush(p2.stack, SpineDepth(p2.forest));
      AddKeyDepth(p2.forest, token.text);
    }
  }

  // ----- Conservation -----

  /** The keys of all blocks, outer blocks before the blocks inside them. */
  function Preorder(f: seq<Tree>): seq<string>
  {
    if f == [] then [] else Preorder(f[..|f| - 1]) + Last(f).keys + Preorder(Last(f).kids)
  }

  lemma {:induction false} PreorderReplaceLast(f: seq<Tree>, t: Tree)
    requires f != []
    ensures Preorder(ReplaceLast(f, t)) == Preorder(f[..|f| - 1]) + t.keys + Preorder(t.kids)
  {
    var g := ReplaceLast(f, t);
    assert g[..|g| - 1] == f[..|f| - 1] && Last(g) == t;
  }

  lemma {:induction false} PreorderAddAt(f: seq<Tree>, d: nat, order: int)
    ensures Preorder(AddAt(f, d, Node(order, [], []))) == Preorder(f)
    decreases d
  {
    var t := Node(order, [], []);
    if d == 0 || f == [] {
      var g := f + [t];
      assert g[..|g| - 1] == f && Last(g) == t;
      assert Preorder(t.kids) == [];
    } else {
      PreorderAddAt(Last(f).kids, d - 1, order);
      PreorderReplaceLast(f, Last(f).(kids := AddAt(Last(f).kids, d - 1, t)));
    }
  }

  lemma {:induction false} PreorderAddKey(f: seq<Tree>, key: string)
    requires f != []
    ensures Preorder(AddKeyAtEnd(f, key)) == Preorder(f) + [key]
    decreases f
  {
    var init := Preorder(f[..|f| - 1]);
    if Last(f).kids == [] {
      PreorderReplaceLast(f, Last(f).(keys := Last(f).keys + [key]));
      assert Preorder(Last(f).kids) == [];
      ConcatAssociative(init, Last(f).keys, [key]);
    } else {
      PreorderAddKey(Last(f).kids, key);
      PreorderReplaceLast(f, Last(f).(kids := AddKeyAtEnd(Last(f).kids, key)));
      ConcatAssociative(init + Last(f).keys, Preorder(Last(f).kids), [key]);
    }
  }

  /** The texts of the tokens that are not braces, in order. */
  function Words(tokens: seq<Token>): seq<string> {
    if tokens == [] then []
    else (if tokens[0].text in {"{", "}"} then [] else [tokens[0].text]) + Words(tokens[1..])
  }

  function Brace(token: Token): int {
    if token.text == "{" then 1 else if token.text == "}" then -1 else 0
  }

  /** How many more braces the tokens open than they close. */
  function Nesting(tokens: seq<Token>): int {
    if tokens == [] then 0 else Brace(tokens[0]) + Nesting(tokens[1..])
  }

  /** No prefix has more closing than opening braces, starting at nesting `depth`. */
  ghost predicate Balanced(depth: int, tokens: seq<Token>) {
    forall n :: 0 <= n <= |tokens| ==> depth + Nesting(tokens[..n]) >= 0
  }

  /** The same, one token at a time. */
  ghost predicate StaysOpen(depth: int, tokens: seq<Token>)
    decreases |tokens|
  {
    depth >= 0 && (tokens == [] || StaysOpen(depth + Brace(tokens[0]), tokens[1..]))
  }

  lemma {:induction false} StaysOpenBalanced(depth: int, tokens: seq<Token>)
    ensures StaysOpen(depth, tokens) <==> Balanced(depth, tokens)
    decreases |tokens|
  {
    assert tokens[..0] == [];
    if tokens != [] {
      StaysOpenBalanced(depth + Brace(tokens[0]), tokens[1..]);
      forall n | 1 <= n <= |tokens|
        ensures Nesting(tokens[..n]) == Brace(tokens[0]) + Nesting(tokens[1..][..n - 1])
      {
        assert tokens[..n][1..] == tokens[1..][..n - 1];
      }
      if Balanced(depth, tokens) {
        forall n | 0 <= n <= |tokens[1..]| ensures depth + Brace(tokens[0]) + Nesting(tokens[1..][..n]) >= 0 {
          assert depth + Nesting(tokens[..n + 1]) >= 0;
        }
      }
      if StaysOpen(depth, tokens) {
        forall n | 0 <= n <= |tokens| ensures depth + Nesting(tokens[..n]) >= 0 {
          if n >= 1 {
            assert depth + Brace(tokens[0]) + Nesting(tokens[1..][..n - 1]) >= 0;
          }
        }
      }
    }
  }

  /** One token moves the stack by its nesting. */
  lemma ParseTokenStack(p: Parser, token: Token)
    requires p.stack != []
    ensures var r := ParseToken(p, token);
            && (r.None? <==> token.text == "}" && |p.stack| == 1)
            && (r.Some? ==> |r.value.stack| == |p.stack| + Brace(token))
  {
  }

  lemma OpenBlockPreorder(p: Parser)
    requires OnSpine(p)
    ensures Preorder(OpenBlock(p).forest) == Preorder(p.forest) && OpenBlock(p).forest != []
  {
    OpenBlockOnSpine(p);
    PreorderAddAt(p.forest, p.Top(), ChildCount(p.forest, p.Top()));
  }

  lemma OneWord(token: Token)
    ensures Words([token]) == if token.text in {"{", "}"} then [] else [token.text]
  {
    assert [token][1..] == [] && Words([token][1..]) == [];
  }

  /** ... and adds its text to the preorder unless it is a brace. */
  lemma ParseTokenConserves(p: Parser, token: Token)
    requires OnSpine(p) && ParseToken(p, token).Some?
    ensures Preorder(ParseToken(p, token).value.forest) == Preorder(p.forest) + Words([token])
  {
    var p1 := Relocate(p, token.line);
    OneWord(token);
    OpenBlockPreorder(p1);
    if token.text in {"{", "}"} {
      assert Preorder(p.forest) + [] == Preorder(p.forest);
    } else {
      PreorderAddKey(OpenBlock(p1).forest, token.text);
    }
  }

  lemma ParseTokenKeeps(p: Parser, token: Token, r: Option<Parser>)
    requires OnSpine(p) && r == ParseToken(p, token)
    ensures r.None? <==> Brace(token) == -1 && |p.stack| == 1
    ensures r.Some? ==> OnSpine(r.value) && |r.value.stack| == |p.stack| + Brace(token)
  {
    ParseTokenOnSpine(p, token);
    ParseTokenStack(p, token);
  }

  /** Parsing fails where the nesting becomes negative. */
  lemma {:induction false} ParseSucceeds(p: Option<Parser>, depth: int, tokens: seq<Token>)
    requires if p.Some? then OnSpine(p.value) && |p.value.stack| - 1 == depth else depth < 0
    ensures ParseTokens(p, tokens).Some? <==> StaysOpen(depth, tokens)
    decreases |tokens|
  {
    if p.Some? && tokens != [] {
      var next := ParseToken(p.value, tokens[0]);
      ParseTokenKeeps(p.value, tokens[0], next);
      ParseSucceeds(next, depth + Brace(tokens[0]), tokens[1..]);
    }
  }

  lemma {:induction false} ParseConserves(p: Parser, tokens: seq<Token>)
    requires OnSpine(p) && ParseTokens(Some(p), tokens).Some?
    ensures Preorder(ParseTokens(Some(p), tokens).value.forest) == Preorder(p.forest) + Words(tokens)
    decreases |tokens|
  {
    if tokens != [] {
      ParseTokenOnSpine(p, tokens[0]);
      ParseTokenConserves(p, tokens[0]);
      WordsStep(tokens);
      ConcatAssociative(Preorder(p.forest), Words([tokens[0]]), Words(tokens[1..]));
      ParseConserves(ParseToken(p, tokens[0]).value, tokens[1..]);
    }
  }

  lemma WordsStep(tokens: seq<Token>)
    requires tokens != []
    ensures Words(tokens) == Words([tokens[0]]) + Words(tokens[1..])
  {
    assert [tokens[0]][1..] == [];
  }

  /** Parsing succeeds exactly when no prefix closes more braces than it opens, and then the blocks
      hold exactly the other tokens, in order. */
  lemma ParserConservation(tokens: seq<Token>)
    ensures ParseContainer(tokens).Some? <==> Balanced(0, tokens)
    ensures ParseContainer(tokens).Some? ==> Preorder(ParseContainer(tokens).value) == Words(tokens)
  {
    ParseSucceeds(Some(Begin()), 0, tokens);
    if ParseContainer(tokens).Some? {
      ParseConserves(Begin(), tokens);
    }
    StaysOpenBalanced(0, tokens);
  }
}
