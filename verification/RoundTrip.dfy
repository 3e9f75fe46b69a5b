/** Reading back what was written: lexer and parser together undo the printer. */
module RoundTrips {
  import opened Runes
  import opened Seqs
  import opened Lexing
  import opened Trees
  import opened Sorting
  import opened Writing
  import opened Parsing

  /** Every key is printable, and every block has a key or a child. */
  predicate WellFormedTree(t: Tree)
    decreases t, 1
  {
    && (t.keys != [] || t.kids != [])
    && (forall i :: 0 <= i < |t.keys| ==> Printable(t.keys[i]))
    && WellFormed(t.kids)
  }

  predicate WellFormed(ts: seq<Tree>)
    decreases ts, 0
  {
    ts == [] || (WellFormedTree(ts[0]) && WellFormed(ts[1..]))
  }

  /** The same blocks, each block's Order its index among its siblings. */
  function ReindexTree(order: int, t: Tree): Tree
    decreases t, 1
  {
    Node(order, t.keys, Reindex(0, t.kids))
  }

  function Reindex(first: nat, ts: seq<Tree>): seq<Tree>
    decreases ts, 0
  {
    if ts == [] then [] else [ReindexTree(first, ts[0])] + Reindex(first + 1, ts[1..])
  }

  /** The lexer feeding the parser. */
  function Read(s: Scan, p: Option<Parser>, text: string): (Scan, Option<Parser>) {
    var (s1, ts) := Feed(s, text);
    (s1, ParseTokens(p, ts))
  }

  lemma ReadConcat(s: Scan, p: Option<Parser>, a: string, b: string)
    ensures Read(s, p, a + b) == var (s1, p1) := Read(s, p, a); Read(s1, p1, b)
  {
    FeedConcat(s, a, b);
    var (s1, ts) := Feed(s, a);
    ParseConcat(p, ts, Feed(s1, b).1);
  }

  lemma ReadConcat4(s: Scan, p: Option<Parser>, a: string, b: string, c: string, e: string)
    ensures Read(s, p, a + (b + (c + e))) ==
            var (s1, p1) := Read(s, p, a);
            var (s2, p2) := Read(s1, p1, b);
            var (s3, p3) := Read(s2, p2, c);
            Read(s3, p3, e)
  {
    var (s1, p1) := Read(s, p, a);
    var (s2, p2) := Read(s1, p1, b);
    ReadConcat(s, p, a, b + (c + e));
    ReadConcat(s1, p1, b, c + e);
    ReadConcat(s2, p2, c, e);
  }

  // ----- Adding several blocks -----

  function AddAll(f: seq<Tree>, d: nat, ts: seq<Tree>): seq<Tree>
    decreases |ts|
  {
    if ts == [] then f else AddAll(AddAt(f, d, ts[0]), d, ts[1..])
  }

  lemma {:induction false} AddAllBelowAdded(f: seq<Tree>, d: nat, t: Tree, ts: seq<Tree>)
    requires d <= SpineDepth(f)
    ensures AddAll(AddAt(f, d, t), d + 1, ts) == AddAt(f, d, t.(kids := t.kids + ts))
    decreases |ts|
  {
    if ts == [] {
      assert t.kids + ts == t.kids;
    } else {
      AddBelowAdded(f, d, t, ts[0]);
      AddAllBelowAdded(f, d, t.(kids := t.kids + [ts[0]]), ts[1..]);
      assert t.kids + [ts[0]] + ts[1..] == t.kids + ts;
    }
  }

  lemma {:induction false} AddAllAtRoot(f: seq<Tree>, ts: seq<Tree>)
    ensures AddAll(f, 0, ts) == f + ts
    decreases |ts|
  {
    if ts == [] {
      assert f + ts == f;
    } else {
      AddAllAtRoot(f + [ts[0]], ts[1..]);
      assert f + [ts[0]] + ts[1..] == f + ts;
    }
  }

  // ----- One block -----

  /** The parser is about to see a token on a line of its own. */
  ghost predicate Ready(p: Parser, line: nat) {
    && p.stack != []
    && p.Top() <= SpineDepth(p.forest)
    && p.tokenLine < line
    && (p.tokenLine == -1 ==> p.isNewBlock)
  }

  /** The parser has just opened block `t` at depth d and is still on its line. */
  ghost predicate Inside(p: Parser, f: seq<Tree>, d: nat, t: Tree, stack: seq<nat>, line: nat) {
    && d <= SpineDepth(f) && t.kids == []
    && p == Parser(AddAt(f, d, t), stack, false, line)
  }

  function NewBlock(p: Parser): Tree {
    Node(ChildCount(p.forest, p.Top()), [], [])
  }

  function Opened(p: Parser, line: nat): Parser {
    Parser(AddAt(p.forest, p.Top(), NewBlock(p)), p.stack, false, line)
  }

  /** The first token on a line opens a block. */
  lemma OpensBlock(p: Parser, token: Token)
    requires Ready(p, token.line) && token.text != "}"
    ensures ParseToken(p, token) == ParseToken(Opened(p, token.line), token)
    ensures Inside(Opened(p, token.line), p.forest, p.Top(), NewBlock(p), p.stack, token.line)
  {
  }

  lemma OpensBlocks(p: Parser, tokens: seq<Token>)
    requires tokens != [] && Ready(p, tokens[0].line) && tokens[0].text != "}"
    ensures ParseTokens(Some(p), tokens) == ParseTokens(Some(Opened(p, tokens[0].line)), tokens)
  {
    OpensBlock(p, tokens[0]);
  }

  /** A key with its separator extends the block that is open. */
  lemma ReadKey(s: Scan, p: Parser, f: seq<Tree>, d: nat, t: Tree, stack: seq<nat>, key: string, sep: char)
    requires Clean(s, s.line) && Printable(key) && sep in {' ', '\n'}
    requires Inside(p, f, d, t, stack, s.line)
    ensures var (s1, q) := Read(s, Some(p), Quote(key) + [sep]);
            && Clean(s1, s.line + Newlines(key) + if sep == '\n' then 1 else 0)
            && q.Some? && Inside(q.value, f, d, t.(keys := t.keys + [key]), stack, s.line + Newlines(key))
  {
    FeedKey(s, key, sep);
    ParseOne(Some(p), Token(s.line, key));
    AddKeyToAdded(f, d, t, key);
  }

  /** Each key followed by a space. */
  function SpacedKeys(keys: seq<string>): string {
    if keys == [] then "" else Quote(keys[0]) + " " + SpacedKeys(keys[1..])
  }

  lemma {:induction false} WriteKeysSpaced(keys: seq<string>)
    requires keys != []
    ensures WriteKeys(keys) + " " == SpacedKeys(keys)
  {
    if |keys| == 1 {
      EmptyRest(Quote(keys[0]), " ");
    } else {
      WriteKeysSpaced(keys[1..]);
      ConcatAssociative(Quote(keys[0]) + " ", WriteKeys(keys[1..]), " ");
    }
  }

  lemma EmptyRest(q: string, space: string)
    ensures q + space == q + space + "" && "" + q == q
  {
  }

  lemma InitTail<T>(s: seq<T>)
    requires |s| > 1
    ensures s[1..][..|s| - 2] == s[..|s| - 1][1..] && s[1..][|s| - 2] == s[|s| - 1]
    ensures s[..|s| - 1] != [] && s[..|s| - 1][0] == s[0]
  {
  }

  lemma WriteKeysHead(keys: seq<string>)
    requires |keys| > 1
    ensures WriteKeys(keys) == Quote(keys[0]) + " " + WriteKeys(keys[1..])
    ensures keys[1..][..|keys| - 2] == keys[..|keys| - 1][1..] && keys[1..][|keys| - 2] == keys[|keys| - 1]
    ensures SpacedKeys(keys[..|keys| - 1]) == Quote(keys[0]) + " " + SpacedKeys(keys[1..][..|keys| - 2])
  {
    InitTail(keys);
  }

  lemma {:induction false} WriteKeysLast(keys: seq<string>)
    requires keys != []
    ensures WriteKeys(keys) == SpacedKeys(keys[..|keys| - 1]) + Quote(keys[|keys| - 1])
  {
    var n := |keys| - 1;
    if n == 0 {
      EmptyRest(Quote(keys[0]), " ");
    } else {
      WriteKeysLast(keys[1..]);
      WriteKeysHead(keys);
      ConcatAssociative(Quote(keys[0]) + " ", SpacedKeys(keys[1..][..n - 1]), Quote(keys[n]));
    }
  }

  /** What reading keys with spaces after them leaves. */
  ghost predicate ReadsKeys(s: Scan, p: Parser, text: string, f: seq<Tree>, d: nat, t: Tree, stack: seq<nat>) {
    var (s1, q) := Read(s, Some(p), text);
    && Clean(s1, s1.line) && s1.line >= s.line
    && q.Some? && Inside(q.value, f, d, t, stack, s1.line)
  }

  lemma ReadKeySpace(s: Scan, p: Parser, f: seq<Tree>, d: nat, t: Tree, stack: seq<nat>, key: string)
    requires Clean(s, s.line) && Printable(key) && Inside(p, f, d, t, stack, s.line)
    ensures ReadsKeys(s, p, Quote(key) + " ", f, d, t.(keys := t.keys + [key]), stack)
  {
    ReadKey(s, p, f, d, t, stack, key, ' ');
  }

  lemma ReadKeysConcat(s: Scan, p: Parser, a: string, b: string, f: seq<Tree>, d: nat, t: Tree, u: Tree,
                       stack: seq<nat>)
    requires ReadsKeys(s, p, a, f, d, t, stack)
    requires var (s1, q) := Read(s, Some(p), a); ReadsKeys(s1, q.value, b, f, d, u, stack)
    ensures ReadsKeys(s, p, a + b, f, d, u, stack)
  {
    ReadConcat(s, Some(p), a, b);
  }

  lemma {:induction false} ReadSpacedKeys(s: Scan, p: Parser, f: seq<Tree>, d: nat, t: Tree, stack: seq<nat>,
                                          keys: seq<string>)
    requires Clean(s, s.line) && forall i :: 0 <= i < |keys| ==> Printable(keys[i])
    requires Inside(p, f, d, t, stack, s.line)
    ensures ReadsKeys(s, p, SpacedKeys(keys), f, d, t.(keys := t.keys + keys), stack)
    decreases |keys|
  {
    if keys == [] {
      assert t.keys + keys == t.keys;
    } else {
      var t1 := t.(keys := t.keys + [keys[0]]);
      ReadKeySpace(s, p, f, d, t, stack, keys[0]);
      var (s1, q) := Read(s, Some(p), Quote(keys[0]) + " ");
      ReadSpacedKeys(s1, q.value, f, d, t1, stack, keys[1..]);
      KeysConcat(t, keys);
      ReadKeysConcat(s, p, Quote(keys[0]) + " ", SpacedKeys(keys[1..]), f, d, t1, t.(keys := t.keys + keys), stack);
    }
  }

  lemma KeysConcat(t: Tree, keys: seq<string>)
    requires keys != []
    ensures var t1 := t.(keys := t.keys + [keys[0]]); t1.(keys := t1.keys + keys[1..]) == t.(keys := t.keys + keys)
  {
    assert (t.keys + [keys[0]]) + keys[1..] == t.keys + keys;
  }

  /** A brace on the rest of the line. */
  lemma ReadBrace(s: Scan, p: Parser, brace: string)
    requires Clean(s, s.line) && brace in {"{", "}"}
    ensures var (s1, q) := Read(s, Some(p), brace + "\n");
            Clean(s1, s.line + 1) && q == ParseToken(p, Token(s.line, brace))
  {
    FeedKey(s, brace, '\n');
    NoNewlines(brace);
    assert Quote(brace) + ['\n'] == brace + "\n";
    ParseOne(Some(p), Token(s.line, brace));
  }

  lemma ParseOpenBrace(p: Parser, f: seq<Tree>, d: nat, t: Tree, stack: seq<nat>, line: nat)
    requires Inside(p, f, d, t, stack, line)
    ensures ParseToken(p, Token(line, "{")) == Some(p.(stack := stack + [d + 1]))
  {
    AddAtDepth(f, d, t);
  }

  lemma ReadOpenBrace(s: Scan, p: Parser, f: seq<Tree>, d: nat, t: Tree, stack: seq<nat>)
    requires Clean(s, s.line) && Inside(p, f, d, t, stack, s.line)
    ensures var (s1, q) := Read(s, Some(p), "{\n");
            && Clean(s1, s.line + 1)
            && q == Some(p.(stack := stack + [d + 1]))
  {
    ReadBrace(s, p, "{");
    assert "{" + "\n" == "{\n";
    ParseOpenBrace(p, f, d, t, stack, s.line);
  }

  lemma ReadCloseBrace(s: Scan, p: Parser)
    requires Clean(s, s.line) && p.tokenLine < s.line && |p.stack| > 1
    ensures var (s1, q) := Read(s, Some(p), "}\n");
            && Clean(s1, s.line + 1)
            && q.Some? && q.value.forest == p.forest && q.value.stack == p.stack[..|p.stack| - 1]
            && q.value.tokenLine == s.line
  {
    ReadBrace(s, p, "}");
    assert "}" + "\n" == "}\n";
  }

  /** What is written of a block after the indentation. */
  function Body(t: Tree, level: nat): string {
    if t.kids == [] then WriteKeys(t.keys) + "\n"
    else SpacedKeys(t.keys) + ("{\n" + (WriteForest(t.kids, level + 1) + (Repeat('\t', level) + "}\n")))
  }

  lemma NestedText(tabs: string, header: string, space: string, open: string, inner: string, close: string, nl: string)
    ensures tabs + header + (space + open + inner + tabs + close) + nl
            == tabs + ((header + space) + (open + (inner + (tabs + (close + nl)))))
  {
    var kids := open + (inner + (tabs + close));
    assert space + open + inner + tabs + close == space + kids;
    assert tabs + header + (space + kids) + nl == tabs + ((header + space) + (kids + nl));
    assert kids + nl == open + (inner + (tabs + (close + nl)));
  }

  lemma WriteTreeBody(t: Tree, level: nat)
    ensures WriteTree(t, level) == Repeat('\t', level) + Body(t, level)
  {
    var tabs, header := Repeat('\t', level), WriteKeys(t.keys);
    if t.kids == [] {
      ConcatAssociative(tabs, header, "\n");
      assert header + "" == header && tabs + header + "" == tabs + header;
    } else {
      NestedText(tabs, header, if t.keys == [] then "" else " ", "{\n", WriteForest(t.kids, level + 1), "}", "\n");
      assert "}" + "\n" == "}\n";
      if t.keys != [] {
        WriteKeysSpaced(t.keys);
      }
    }
  }

  /** The first word of a body, and what separates it from the rest. */
  lemma BodyStart(t: Tree, level: nat) returns (first: string, sep: char, rest: string)
    requires WellFormedTree(t)
    ensures Body(t, level) == (Quote(first) + [sep]) + rest
    ensures Lexable(first) && first != "}" && sep in {' ', '\n'}
    ensures first == if t.keys == [] then "{" else t.keys[0]
  {
    if t.keys == [] {
      first, sep := "{", '\n';
      rest := WriteForest(t.kids, level + 1) + (Repeat('\t', level) + "}\n");
      assert Quote("{") + ['\n'] == "{\n";
      assert SpacedKeys(t.keys) == "";
      assert Body(t, level) == "" + ("{\n" + rest);
    } else {
      first := t.keys[0];
      var q := Quote(first);
      if t.kids != [] {
        sep := ' ';
        rest := SpacedKeys(t.keys[1..]) + ("{\n" + (WriteForest(t.kids, level + 1) + (Repeat('\t', level) + "}\n")));
        ConcatAssociative(q + " ", SpacedKeys(t.keys[1..]),
            "{\n" + (WriteForest(t.kids, level + 1) + (Repeat('\t', level) + "}\n")));
      } else if |t.keys| == 1 {
        sep, rest := '\n', "";
        assert q + "\n" == (q + ['\n']) + "";
      } else {
        sep, rest := ' ', WriteKeys(t.keys[1..]) + "\n";
        ConcatAssociative(q + " ", WriteKeys(t.keys[1..]), "\n");
      }
    }
  }

  lemma BodyOpensBlock(s: Scan, p: Parser, t: Tree, level: nat)
    requires Clean(s, s.line) && Ready(p, s.line) && WellFormedTree(t)
    ensures Read(s, Some(p), Body(t, level)) == Read(s, Some(Opened(p, s.line)), Body(t, level))
  {
    var first, sep, rest := BodyStart(t, level);
    FeedKey(s, first, sep);
    FeedConcat(s, Quote(first) + [sep], rest);
    var ts := Feed(s, Body(t, level)).1;
    assert ts[0] == Token(s.line, first);
    OpensBlocks(p, ts);
  }

  /** The parser has taken in a whole block and is past its line. */
  ghost predicate Done(p: Option<Parser>, f: seq<Tree>, stack: seq<nat>, line: nat) {
    p.Some? && p.value.forest == f && p.value.stack == stack && -1 < p.value.tokenLine < line
  }

  lemma LeafBody(t: Tree, level: nat)
    requires t.kids == [] && t.keys != []
    ensures var n := |t.keys| - 1;
            Body(t, level) == SpacedKeys(t.keys[..n]) + (Quote(t.keys[n]) + ['\n'])
  {
    var n := |t.keys| - 1;
    WriteKeysLast(t.keys);
    ConcatAssociative(SpacedKeys(t.keys[..n]), Quote(t.keys[n]), "\n");
  }

  /** Reading the text ends the block that is open, as block t. */
  ghost predicate ReadsLine(s: Scan, p: Parser, text: string, f: seq<Tree>, d: nat, t: Tree, stack: seq<nat>) {
    var (s1, q) := Read(s, Some(p), text);
    Clean(s1, s1.line) && s1.line > s.line && Done(q, AddAt(f, d, t), stack, s1.line)
  }

  lemma ReadLastKey(s: Scan, p: Parser, f: seq<Tree>, d: nat, t: Tree, stack: seq<nat>, key: string)
    requires Clean(s, s.line) && Printable(key) && Inside(p, f, d, t, stack, s.line)
    ensures ReadsLine(s, p, Quote(key) + ['\n'], f, d, t.(keys := t.keys + [key]), stack)
  {
    ReadKey(s, p, f, d, t, stack, key, '\n');
  }

  lemma ReadLineConcat(s: Scan, p: Parser, a: string, b: string, f: seq<Tree>, d: nat, t: Tree, u: Tree,
                       stack: seq<nat>)
    requires ReadsKeys(s, p, a, f, d, t, stack)
    requires var (s1, q) := Read(s, Some(p), a); ReadsLine(s1, q.value, b, f, d, u, stack)
    ensures ReadsLine(s, p, a + b, f, d, u, stack)
  {
    ReadConcat(s, Some(p), a, b);
  }

  lemma LeafNode(t0: Tree, keys: seq<string>)
    requires keys != [] && t0.keys == [] && t0.kids == []
    ensures var t1 := t0.(keys := t0.keys + keys[..|keys| - 1]);
            t1.(keys := t1.keys + [keys[|keys| - 1]]) == Node(t0.order, keys, [])
  {
  }

  lemma ReadLeaf(s: Scan, p: Parser, f: seq<Tree>, d: nat, t0: Tree, stack: seq<nat>, t: Tree, level: nat)
    requires Clean(s, s.line) && WellFormedTree(t) && t.kids == []
    requires Inside(p, f, d, t0, stack, s.line) && t0.keys == []
    ensures ReadsLine(s, p, Body(t, level), f, d, Node(t0.order, t.keys, []), stack)
  {
    var n := |t.keys| - 1;
    var init, last := t.keys[..n], t.keys[n];
    var t1, u := t0.(keys := t0.keys + init), Node(t0.order, t.keys, []);
    LeafNode(t0, t.keys);
    LeafBody(t, level);
    ReadSpacedKeys(s, p, f, d, t0, stack, init);
    var (s1, q) := Read(s, Some(p), SpacedKeys(init));
    ReadLastKey(s1, q.value, f, d, t1, stack, last);
    ReadLineConcat(s, p, SpacedKeys(init), Quote(last) + ['\n'], f, d, t1, u, stack);
  }

  /** The header of a block with children: the children come at depth d + 1. */
  lemma ReadHeader(s: Scan, p: Parser, f: seq<Tree>, d: nat, t0: Tree, stack: seq<nat>, keys: seq<string>)
    requires Clean(s, s.line) && forall i :: 0 <= i < |keys| ==> Printable(keys[i])
    requires Inside(p, f, d, t0, stack, s.line) && t0.keys == []
    ensures var (s1, q1) := Read(s, Some(p), SpacedKeys(keys));
            var (s2, q2) := Read(s1, q1, "{\n");
            && Clean(s2, s2.line) && s2.line > s.line
            && q2.Some? && Ready(q2.value, s2.line) && q2.value.stack == stack + [d + 1]
            && q2.value.forest == AddAt(f, d, Node(t0.order, keys, []))
            && ChildCount(q2.value.forest, d + 1) == 0
  {
    ReadSpacedKeys(s, p, f, d, t0, stack, keys);
    var (s1, q1) := Read(s, Some(p), SpacedKeys(keys));
    var t1 := Node(t0.order, keys, []);
    assert t0.(keys := t0.keys + keys) == t1;
    ReadOpenBrace(s1, q1.value, f, d, t1, stack);
    AddAtDepth(f, d, t1);
  }

  /** Header, children and footer, given what reading the children's text does. */
  lemma ReadNested(s: Scan, p: Parser, f: seq<Tree>, d: nat, t0: Tree, stack: seq<nat>, keys: seq<string>,
                   inner: string, kids: seq<Tree>, level: nat)
    requires Clean(s, s.line) && forall i :: 0 <= i < |keys| ==> Printable(keys[i])
    requires Inside(p, f, d, t0, stack, s.line) && t0.keys == [] && stack != []
    requires var (s1, q1) := Read(s, Some(p), SpacedKeys(keys));
             var (s2, q2) := Read(s1, q1, "{\n");
             var (s3, q3) := Read(s2, q2, inner);
             && Clean(s3, s3.line) && s3.line > s.line
             && q3.Some? && Ready(q3.value, s3.line) && q3.value.stack == stack + [d + 1]
             && q3.value.forest == AddAll(AddAt(f, d, Node(t0.order, keys, [])), d + 1, kids)
    ensures var (s4, q) := Read(s, Some(p), SpacedKeys(keys) + ("{\n" + (inner + (Repeat('\t', level) + "}\n"))));
            && Clean(s4, s4.line) && s4.line > s.line
            && Done(q, AddAt(f, d, Node(t0.order, keys, kids)), stack, s4.line)
  {
    ReadConcat4(s, Some(p), SpacedKeys(keys), "{\n", inner, Repeat('\t', level) + "}\n");
    var (s1, q1) := Read(s, Some(p), SpacedKeys(keys));
    var (s2, q2) := Read(s1, q1, "{\n");
    var (s3, q3) := Read(s2, q2, inner);
    ReadFooter(s3, q3.value, f, d, Node(t0.order, keys, []), kids, stack, level);
  }

  lemma {:induction false} ReadBody(s: Scan, p: Parser, f: seq<Tree>, d: nat, t0: Tree, stack: seq<nat>, t: Tree,
                                    level: nat)
    requires Clean(s, s.line) && WellFormedTree(t)
    requires Inside(p, f, d, t0, stack, s.line) && t0.keys == [] && stack != []
    ensures var (s1, q) := Read(s, Some(p), Body(t, level));
            && Clean(s1, s1.line) && s1.line > s.line
            && Done(q, AddAt(f, d, ReindexTree(t0.order, t)), stack, s1.line)
    decreases t, 1
  {
    if t.kids == [] {
      ReadLeaf(s, p, f, d, t0, stack, t, level);
    } else {
      ReadHeader(s, p, f, d, t0, stack, t.keys);
      var (s1, q1) := Read(s, Some(p), SpacedKeys(t.keys));
      var (s2, q2) := Read(s1, q1, "{\n");
      ReadForest(s2, q2.value, t.kids, level + 1);
      ReadNested(s, p, f, d, t0, stack, t.keys, WriteForest(t.kids, level + 1), Reindex(0, t.kids), level);
    }
  }

  /** The closing brace, once the children have been added. */
  lemma ReadFooter(s: Scan, p: Parser, f: seq<Tree>, d: nat, t: Tree, kids: seq<Tree>, stack: seq<nat>, level: nat)
    requires Clean(s, s.line) && p.tokenLine < s.line && stack != [] && p.stack == stack + [d + 1]
    requires d <= SpineDepth(f) && t.kids == [] && p.forest == AddAll(AddAt(f, d, t), d + 1, kids)
    ensures var (s1, q) := Read(s, Some(p), Repeat('\t', level) + "}\n");
            && Clean(s1, s.line + 1)
            && Done(q, AddAt(f, d, t.(kids := kids)), stack, s1.line)
  {
    ReadTail(s, p, level);
    AddAllBelowAdded(f, d, t, kids);
    assert [] + kids == kids;
    assert p.stack[..|stack|] == stack;
  }

  lemma ReadTail(s: Scan, p: Parser, level: nat)
    requires Clean(s, s.line) && p.tokenLine < s.line && |p.stack| > 1
    ensures var (s1, q) := Read(s, Some(p), Repeat('\t', level) + "}\n");
            && Clean(s1, s.line + 1)
            && Done(q, p.forest, p.stack[..|p.stack| - 1], s1.line)
  {
    FeedTabs(s, level);
    FeedAfterSilence(s, Repeat('\t', level), s, "}\n");
    ReadCloseBrace(s, p);
  }

  lemma {:induction false} ReadTree(s: Scan, p: Parser, t: Tree, level: nat)
    requires Clean(s, s.line) && WellFormedTree(t) && Ready(p, s.line)
    ensures var (s1, q) := Read(s, Some(p), WriteTree(t, level));
            && Clean(s1, s1.line) && s1.line > s.line
            && Done(q, AddAt(p.forest, p.Top(), ReindexTree(ChildCount(p.forest, p.Top()), t)), p.stack, s1.line)
    decreases t, 2
  {
    WriteTreeBody(t, level);
    FeedTabs(s, level);
    FeedAfterSilence(s, Repeat('\t', level), s, Body(t, level));
    BodyOpensBlock(s, p, t, level);
    ReadBody(s, Opened(p, s.line), p.forest, p.Top(), NewBlock(p), p.stack, t, level);
  }

  /** Reading the text leaves this forest, and the parser ready for the next block at the same depth. */
  ghost predicate ReadsForest(s: Scan, p: Parser, text: string, f: seq<Tree>) {
    var (s1, q) := Read(s, Some(p), text);
    && Clean(s1, s1.line) && s1.line >= s.line
    && q.Some? && Ready(q.value, s1.line) && q.value.stack == p.stack && q.value.forest == f
  }

  lemma ReadForestConcat(s: Scan, p: Parser, a: string, b: string, f: seq<Tree>, g: seq<Tree>)
    requires ReadsForest(s, p, a, f)
    requires var (s1, q) := Read(s, Some(p), a); ReadsForest(s1, q.value, b, g)
    ensures ReadsForest(s, p, a + b, g)
  {
    ReadConcat(s, Some(p), a, b);
  }

  lemma {:induction false} ReadNextTree(s: Scan, p: Parser, t: Tree, level: nat)
    requires Clean(s, s.line) && WellFormedTree(t) && Ready(p, s.line)
    ensures var d, n := p.Top(), ChildCount(p.forest, p.Top());
            && ReadsForest(s, p, WriteTree(t, level), AddAt(p.forest, d, ReindexTree(n, t)))
            && ChildCount(AddAt(p.forest, d, ReindexTree(n, t)), d) == n + 1
    decreases t, 3
  {
    ReadTree(s, p, t, level);
    var (s1, q) := Read(s, Some(p), WriteTree(t, level));
    DoneReady(p, q.value, ReindexTree(ChildCount(p.forest, p.Top()), t), s1.line);
  }

  lemma {:induction false} AfterTree(s: Scan, p: Parser, t: Tree, level: nat) returns (s1: Scan, q: Parser)
    requires Clean(s, s.line) && WellFormedTree(t) && Ready(p, s.line)
    ensures var d, n := p.Top(), ChildCount(p.forest, p.Top());
            && Read(s, Some(p), WriteTree(t, level)) == (s1, Some(q))
            && ReadsForest(s, p, WriteTree(t, level), AddAt(p.forest, d, ReindexTree(n, t)))
            && Clean(s1, s1.line) && s1.line >= s.line && Ready(q, s1.line) && q.Top() == d
            && q.stack == p.stack && q.forest == AddAt(p.forest, d, ReindexTree(n, t))
            && ChildCount(q.forest, d) == n + 1
    decreases t, 4
  {
    ReadNextTree(s, p, t, level);
    var r := Read(s, Some(p), WriteTree(t, level));
    s1, q := r.0, r.1.value;
  }

  /** Reading written siblings adds them, reindexed, to the container on top of the stack. */
  lemma {:induction false} ReadForest(s: Scan, p: Parser, ts: seq<Tree>, level: nat)
    requires Clean(s, s.line) && WellFormed(ts) && Ready(p, s.line)
    ensures ReadsForest(s, p, WriteForest(ts, level),
        AddAll(p.forest, p.Top(), Reindex(ChildCount(p.forest, p.Top()), ts)))
    decreases ts, 0
  {
    if ts != [] {
      var d, n := p.Top(), ChildCount(p.forest, p.Top());
      var f := AddAt(p.forest, d, ReindexTree(n, ts[0]));
      var s1, q := AfterTree(s, p, ts[0], level);
      var g := AddAll(f, d, Reindex(n + 1, ts[1..]));
      ReadForest(s1, q, ts[1..], level);
      AddAllReindex(p.forest, d, n, ts);
      ReadForestNext(s, p, ts, level, s1, q, f, g);
    }
  }

  lemma ReadForestNext(s: Scan, p: Parser, ts: seq<Tree>, level: nat, s1: Scan, q: Parser, f: seq<Tree>,
                       g: seq<Tree>)
    requires ts != [] && Read(s, Some(p), WriteTree(ts[0], level)) == (s1, Some(q))
    requires ReadsForest(s, p, WriteTree(ts[0], level), f) && ReadsForest(s1, q, WriteForest(ts[1..], level), g)
    ensures ReadsForest(s, p, WriteForest(ts, level), g)
  {
    ReadForestConcat(s, p, WriteTree(ts[0], level), WriteForest(ts[1..], level), f, g);
  }

  /** After a block the parser is ready for the next one at the same depth. */
  lemma DoneReady(p: Parser, q: Parser, t: Tree, line: nat)
    requires p.stack != [] && p.Top() <= SpineDepth(p.forest)
    requires Done(Some(q), AddAt(p.forest, p.Top(), t), p.stack, line)
    ensures Ready(q, line) && q.Top() == p.Top() && ChildCount(q.forest, p.Top()) == ChildCount(p.forest, p.Top()) + 1
  {
    AddAtDepth(p.forest, p.Top(), t);
  }

  lemma AddAllReindex(f: seq<Tree>, d: nat, n: nat, ts: seq<Tree>)
    requires ts != []
    ensures AddAll(f, d, Reindex(n, ts)) == AddAll(AddAt(f, d, ReindexTree(n, ts[0])), d, Reindex(n + 1, ts[1..]))
  {
    assert Reindex(n, ts)[1..] == Reindex(n + 1, ts[1..]);
  }

  // ----- The round trip -----

  /** Lexing and parsing what was written gives back the same keys and nesting at every depth, each
      block's Order its sibling index. The text must not begin with the mark that `load` discards,
      and nonempty trees are needed because empty input is an error. */
  lemma RoundTrip(ts: seq<Tree>)
    requires WellFormed(ts) && ts != []
    requires !HasPrefix(WriteForest(ts, 0), [BYTE_ORDER_MARK])
    ensures Unmarshal(WriteForest(ts, 0)) == Some(Reindex(0, ts))
  {
    var text := WriteForest(ts, 0);
    ReadForest(Start(), Begin(), ts, 0);
    AddAllAtRoot([], Reindex(0, ts));
    assert [] + Reindex(0, ts) == Reindex(0, ts);
    var (s, tokens) := Feed(Start(), text);
    assert tokens + [] == tokens;
    WriteNonempty(ts[0], 0);
    assert text[..1] == [text[0]];
  }

  lemma WriteNonempty(t: Tree, level: nat)
    ensures WriteTree(t, level) != ""
  {
  }
}
