/** What the parser (parseContainer, caddyfile/marshal.go) makes of a Caddyfile in any layout: a block for each line,
    and each block's Order. */
module ParserLaws {
  import opened Runes
  import opened Seqs
  import opened Lexing
  import opened Trees
  import opened Parsing

  // ----- Blocks in the order in which they begin -----

  /** The keys of every block, a block before its children. */
  function BlockKeys(ts: seq<Tree>): seq<seq<string>>
    decreases ts
  {
    if ts == [] then [] else [ts[0].keys] + BlockKeys(ts[0].kids) + BlockKeys(ts[1..])
  }

  lemma {:induction false} BlockKeysLast(ts: seq<Tree>, t: Tree)
    ensures BlockKeys(ts + [t]) == BlockKeys(ts) + ([t.keys] + BlockKeys(t.kids))
    decreases |ts|
  {
    if ts == [] {
      assert ts + [t] == [t] && [t][1..] == [];
      assert [t.keys] + BlockKeys(t.kids) + [] == [] + ([t.keys] + BlockKeys(t.kids));
    } else {
      assert (ts + [t])[1..] == ts[1..] + [t];
      BlockKeysLast(ts[1..], t);
      ConcatAssociative([ts[0].keys] + BlockKeys(ts[0].kids), BlockKeys(ts[1..]), [t.keys] + BlockKeys(t.kids));
    }
  }

  lemma BlockKeysSplit(f: seq<Tree>)
    requires f != []
    ensures BlockKeys(f) == BlockKeys(f[..|f| - 1]) + ([Last(f).keys] + BlockKeys(Last(f).kids))
  {
    assert f == f[..|f| - 1] + [Last(f)];
    BlockKeysLast(f[..|f| - 1], Last(f));
  }

  /** A block that is opened comes last. */
  lemma {:induction false} OpenedLast(f: seq<Tree>, d: nat, t: Tree)
    requires t.kids == []
    ensures BlockKeys(AddAt(f, d, t)) == BlockKeys(f) + [t.keys]
    decreases d
  {
    if d == 0 || f == [] {
      BlockKeysLast(f, t);
      assert [t.keys] + [] == [t.keys];
    } else {
      var kids := AddAt(Last(f).kids, d - 1, t);
      OpenedLast(Last(f).kids, d - 1, t);
      BlockKeysSplit(f);
      BlockKeysLast(f[..|f| - 1], Last(f).(kids := kids));
      var before, head, inner := BlockKeys(f[..|f| - 1]), [Last(f).keys], BlockKeys(Last(f).kids);
      assert before + (head + (inner + [t.keys])) == before + (head + inner) + [t.keys];
    }
  }

  /** A key goes to the block that was opened last. */
  lemma {:induction false} KeyLast(f: seq<Tree>, key: string)
    requires f != []
    ensures BlockKeys(f) != []
    ensures var ks := BlockKeys(f); BlockKeys(AddKeyAtEnd(f, key)) == ks[..|ks| - 1] + [ks[|ks| - 1] + [key]]
    decreases f
  {
    var before, head, inner := BlockKeys(f[..|f| - 1]), [Last(f).keys], BlockKeys(Last(f).kids);
    BlockKeysSplit(f);
    if Last(f).kids == [] {
      BlockKeysLast(f[..|f| - 1], Last(f).(keys := Last(f).keys + [key]));
      OnlyHead(before, Last(f).keys, Last(f).keys + [key]);
    } else {
      KeyLast(Last(f).kids, key);
      BlockKeysLast(f[..|f| - 1], Last(f).(kids := AddKeyAtEnd(Last(f).kids, key)));
      LastOfInner(before, head, inner, inner[|inner| - 1] + [key]);
    }
  }

  lemma OnlyHead<T>(before: seq<T>, x: T, y: T)
    ensures var ks := before + ([x] + []);
            ks != [] && ks[|ks| - 1] == x && before + ([y] + []) == ks[..|ks| - 1] + [y]
  {
    assert [x] + [] == [x] && [y] + [] == [y];
  }

  lemma LastOfInner<T>(before: seq<T>, head: seq<T>, inner: seq<T>, x: T)
    requires inner != []
    ensures var ks := before + (head + inner);
            ks != [] && ks[|ks| - 1] == inner[|inner| - 1]
            && before + (head + (inner[..|inner| - 1] + [x])) == ks[..|ks| - 1] + [x]
  {
    var ks := before + (head + inner);
    assert ks[..|ks| - 1] == before + (head + inner[..|inner| - 1]);
  }

  // ----- Lines -----

  predicate IsBrace(token: Token) {
    token.text == "{" || token.text == "}"
  }

  /** The line on which a token ends. */
  function EndLine(token: Token): nat {
    token.line + if IsBrace(token) then 0 else Newlines(token.text)
  }

  /** Each token begins on the line on which the one before it ends. */
  predicate OneLine(line: seq<Token>) {
    line != [] && forall i :: 0 < i < |line| ==> line[i].line == EndLine(line[i - 1])
  }

  /** The next line begins elsewhere. */
  predicate Breaks(lines: seq<seq<Token>>) {
    && (forall i :: 0 <= i < |lines| ==> OneLine(lines[i]))
    && forall i :: 0 < i < |lines| ==> lines[i][0].line != EndLine(lines[i - 1][|lines[i - 1]| - 1])
  }

  function Join(lines: seq<seq<Token>>): seq<Token> {
    if lines == [] then [] else Join(lines[..|lines| - 1]) + lines[|lines| - 1]
  }

  /** The words of a line: all but braces. */
  function WordsIn(line: seq<Token>): seq<string> {
    if line == [] then []
    else WordsIn(line[..|line| - 1]) + if IsBrace(line[|line| - 1]) then [] else [line[|line| - 1].text]
  }

  /** Something but closing braces. */
  predicate HasBlock(line: seq<Token>) {
    exists i :: 0 <= i < |line| && line[i].text != "}"
  }

  /** The words of the lines that have a block. */
  function BlockLines(lines: seq<seq<Token>>): seq<seq<string>> {
    if lines == [] then []
    else
      var line := lines[|lines| - 1];
      BlockLines(lines[..|lines| - 1]) + if HasBlock(line) then [WordsIn(line)] else []
  }

  lemma WordsMore(line: seq<Token>, token: Token)
    ensures WordsIn(line + [token]) == WordsIn(line) + if IsBrace(token) then [] else [token.text]
    ensures HasBlock(line + [token]) <==> HasBlock(line) || token.text != "}"
  {
    var more := line + [token];
    assert more[..|line|] == line && more[|line|] == token;
    if HasBlock(line) {
      var i :| 0 <= i < |line| && line[i].text != "}";
      assert more[i].text != "}";
    }
  }

  lemma {:induction false} NoBlockNoWords(line: seq<Token>)
    requires !HasBlock(line)
    ensures WordsIn(line) == []
    decreases |line|
  {
    if line != [] {
      var before, last := line[..|line| - 1], line[|line| - 1];
      assert line == before + [last];
      WordsMore(before, last);
      NoBlockNoWords(before);
    }
  }

  // ----- Reading a line -----

  /** The parser has read the beginning of a line, after blocks with these keys. */
  ghost predicate InLine(p: Parser, before: seq<seq<string>>, line: seq<Token>) {
    && line != [] && p.tokenLine == EndLine(line[|line| - 1])
    && if HasBlock(line) then !p.isNewBlock && p.forest != [] && BlockKeys(p.forest) == before + [WordsIn(line)]
       else p.isNewBlock && BlockKeys(p.forest) == before
  }

  /** The parser is somewhere else, or at the beginning. */
  ghost predicate Elsewhere(p: Parser, line: nat) {
    p.tokenLine != line && (p.tokenLine == -1 ==> p.isNewBlock)
  }

  lemma Opens(p: Parser)
    requires p.isNewBlock
    ensures var q := OpenBlock(p);
            && BlockKeys(q.forest) == BlockKeys(p.forest) + [[]] && q.forest != [] && !q.isNewBlock
            && q.tokenLine == p.tokenLine
  {
    var t := Node(ChildCount(p.forest, p.Top()), [], []);
    OpenedLast(p.forest, p.Top(), t);
    NeverEmpty(p.forest, p.Top(), t);
  }

  lemma NeverEmpty(f: seq<Tree>, d: nat, t: Tree)
    ensures AddAt(f, d, t) != []
  {
  }

  lemma KeyAdded(p: Parser, key: string, before: seq<seq<string>>, words: seq<string>)
    requires p.forest != [] && BlockKeys(p.forest) == before + [words]
    ensures BlockKeys(AddKeyAtEnd(p.forest, key)) == before + [words + [key]] && AddKeyAtEnd(p.forest, key) != []
  {
    KeyLast(p.forest, key);
    assert (before + [words])[..|before|] == before;
  }

  /** What a token does that is on the line of the one before it. */
  lemma LineGoesOn(p: Parser, before: seq<seq<string>>, line: seq<Token>, token: Token, q: Parser)
    requires InLine(p, before, line) && token.line == p.tokenLine && ParseToken(p, token) == Some(q)
    ensures InLine(q, before, line + [token])
  {
    WordsMore(line, token);
    assert (line + [token])[|line|] == token;
    if token.text != "}" {
      NewWords(p, before, line);
      var p2 := OpenBlock(p);
      if token.text != "{" {
        KeyAdded(p2, token.text, before, WordsIn(line));
      } else {
        assert WordsIn(line) + [] == WordsIn(line);
      }
    } else {
      assert WordsIn(line) + [] == WordsIn(line);
    }
  }

  lemma NewWords(p: Parser, before: seq<seq<string>>, line: seq<Token>)
    requires InLine(p, before, line)
    ensures var q := OpenBlock(p);
            && BlockKeys(q.forest) == before + [WordsIn(line)] && q.forest != []
            && !q.isNewBlock && q.tokenLine == p.tokenLine
  {
    if !HasBlock(line) {
      Opens(p);
      NoBlockNoWords(line);
    }
  }

  lemma LineBegins(p: Parser, token: Token, q: Parser)
    requires Elsewhere(p, token.line) && ParseToken(p, token) == Some(q)
    ensures InLine(q, BlockKeys(p.forest), [token])
  {
    var p1 := Relocate(p, token.line);
    WordsMore([], token);
    assert [] + [token] == [token] && [] + [token.text] == [token.text];
    if token.text != "}" {
      Opens(p1);
      if token.text != "{" {
        KeyAdded(OpenBlock(p1), token.text, BlockKeys(p.forest), []);
      }
    }
  }

  lemma {:induction false} LineRead(p: Parser, line: seq<Token>, q: Parser)
    requires OneLine(line) && Elsewhere(p, line[0].line) && ParseTokens(Some(p), line) == Some(q)
    ensures InLine(q, BlockKeys(p.forest), line)
    decreases |line|
  {
    var n := |line| - 1;
    var before, last := line[..n], line[n];
    assert line == before + [last];
    if n == 0 {
      assert line == [last];
      ParseOne(Some(p), last);
      LineBegins(p, last, q);
    } else {
      ParseConcat(Some(p), before, [last]);
      var r := ParseTokens(Some(p), before);
      FailsOn(r, [last]);
      LineRead(p, before, r.value);
      ParseOne(r, last);
      LineGoesOn(r.value, BlockKeys(p.forest), before, last, q);
    }
  }

  lemma FailsOn(p: Option<Parser>, tokens: seq<Token>)
    requires ParseTokens(p, tokens).Some?
    ensures p.Some?
  {
  }

  /** Every line with something but closing braces makes one block, its keys the words of the line; and there are no
      other blocks. */
  lemma {:induction false} BlockPerLine(lines: seq<seq<Token>>, p: Parser)
    requires Breaks(lines) && ParseTokens(Some(Begin()), Join(lines)) == Some(p)
    ensures BlockKeys(p.forest) == BlockLines(lines)
    ensures if lines == [] then p == Begin()
            else p.tokenLine == EndLine(lines[|lines| - 1][|lines[|lines| - 1]| - 1])
    decreases |lines|
  {
    if lines != [] {
      var n := |lines| - 1;
      var r := ReadBefore(Join(lines[..n]), lines[n], p);
      BreaksBefore(lines, n);
      BlockPerLine(lines[..n], r);
      LineRead(r, lines[n], p);
    }
  }

  lemma BreaksBefore(lines: seq<seq<Token>>, n: nat)
    requires Breaks(lines) && n < |lines|
    ensures Breaks(lines[..n]) && OneLine(lines[n])
    ensures n > 0 ==> lines[..n] != [] && lines[..n][|lines[..n]| - 1] == lines[n - 1]
                      && lines[n - 1] != [] && lines[n][0].line != EndLine(lines[n - 1][|lines[n - 1]| - 1])
  {
    if n > 0 {
      assert OneLine(lines[n - 1]);
    }
  }

  lemma ReadBefore(before: seq<Token>, line: seq<Token>, p: Parser) returns (r: Parser)
    requires ParseTokens(Some(Begin()), before + line) == Some(p)
    ensures ParseTokens(Some(Begin()), before) == Some(r) && ParseTokens(Some(r), line) == Some(p)
  {
    ParseConcat(Some(Begin()), before, line);
    FailsOn(ParseTokens(Some(Begin()), before), line);
    r := ParseTokens(Some(Begin()), before).value;
  }

  // ----- Orders -----

  /** Each Order is the index among the siblings. */
  ghost predicate Indexed(ts: seq<Tree>) {
    forall i :: 0 <= i < |ts| ==> ts[i].order == i && Indexed(ts[i].kids)
  }

  lemma {:induction false} AddIndexed(f: seq<Tree>, d: nat, t: Tree)
    requires Indexed(f) && t.kids == [] && t.order == ChildCount(f, d)
    ensures Indexed(AddAt(f, d, t))
    decreases d
  {
    if !(d == 0 || f == []) {
      AddIndexed(Last(f).kids, d - 1, t);
    }
  }

  lemma {:induction false} KeyIndexed(f: seq<Tree>, key: string)
    requires Indexed(f)
    ensures Indexed(AddKeyAtEnd(f, key))
    decreases f
  {
    if f != [] && Last(f).kids != [] {
      KeyIndexed(Last(f).kids, key);
    }
  }

  lemma {:induction false} ParsedIndexed(p: Option<Parser>, tokens: seq<Token>)
    requires p.Some? ==> Indexed(p.value.forest)
    ensures ParseTokens(p, tokens).Some? ==> Indexed(ParseTokens(p, tokens).value.forest)
    decreases |tokens|
  {
    if p.Some? && tokens != [] {
      var p1 := Relocate(p.value, tokens[0].line);
      AddIndexed(p1.forest, p1.Top(), Node(ChildCount(p1.forest, p1.Top()), [], []));
      KeyIndexed(OpenBlock(p1).forest, tokens[0].text);
      ParsedIndexed(ParseToken(p.value, tokens[0]), tokens[1..]);
    }
  }

  /** In whatever layout a Caddyfile is written, the Order of a block is its index. */
  lemma UnmarshalIndexed(text: string)
    ensures Unmarshal(text).Some? ==> Indexed(Unmarshal(text).value)
  {
    var tokens := AllTokens(text);
    if tokens.Some? {
      ParsedIndexed(Some(Begin()), tokens.value);
    }
  }
}
