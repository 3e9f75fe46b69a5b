/** What a written Caddyfile looks like (write, caddyfile/marshal.go): quotes, braces and indentation. */
module Layout {
  import opened Runes
  import opened Seqs
  import opened Lexing
  import opened Trees
  import opened Sorting
  import opened Writing
  import opened Parsing
  import opened LexerLaws

  // ----- Keys -----

  /** A key is written as it stands unless it has a space, a newline or a double quote in it; with a space, between
      double quotes; with a newline or a double quote, between backticks. */
  lemma KeyForms(key: string)
    ensures ' ' !in key && '\n' !in key && '"' !in key ==> Quote(key) == key
    ensures ' ' in key && '\n' !in key && '"' !in key ==> Quote(key) == "\"" + key + "\""
    ensures '\n' in key || '"' in key ==> Quote(key) == "`" + ReplaceAll(key, '`', "\\`") + "`"
    ensures ('\n' in key || '"' in key) && '`' !in key ==> Quote(key) == "`" + key + "`"
  {
    if !Contains(key, '"') {
      ReplaceAllAbsent(key, '"', "\\\"");
    }
    if !Contains(key, '`') {
      ReplaceAllAbsent(key, '`', "\\`");
    }
  }

  // ----- Indentation -----

  /** A tab in front of every line. */
  function Indented(text: string, lineStart: bool := true): string
    decreases |text|
  {
    if text == "" then ""
    else (if lineStart then "\t" else "") + [text[0]] + Indented(text[1..], text[0] == '\n')
  }

  /** A whole number of lines. */
  predicate Lines(text: string) {
    text == "" || text[|text| - 1] == '\n'
  }

  lemma {:induction false} IndentConcat(a: string, b: string, lineStart: bool)
    requires Lines(a) && (a == "" ==> lineStart)
    ensures Indented(a + b, lineStart) == Indented(a, lineStart) + Indented(b)
    decreases |a|
  {
    if a == "" {
      assert a + b == b;
    } else {
      assert (a + b)[1..] == a[1..] + b;
      IndentConcat(a[1..], b, a[0] == '\n');
      ConcatAssociative((if lineStart then "\t" else "") + [a[0]], Indented(a[1..], a[0] == '\n'), Indented(b));
    }
  }

  lemma {:induction false} IndentInLine(line: string)
    requires '\n' !in line
    ensures Indented(line + ['\n'], false) == line + ['\n']
    decreases |line|
  {
    if line == "" {
      assert line + ['\n'] == ['\n'] && ['\n'][1..] == "";
      assert "" + ['\n'] + "" == ['\n'];
    } else {
      assert (line + ['\n'])[1..] == line[1..] + ['\n'];
      IndentInLine(line[1..]);
      assert "" + [line[0]] + (line[1..] + ['\n']) == line + ['\n'];
    }
  }

  lemma IndentLine(line: string)
    requires '\n' !in line
    ensures Indented(line + ['\n']) == "\t" + line + ['\n']
  {
    var text := line + ['\n'];
    IndentInLine(line);
    FirstIndented(text);
    assert "\t" + text == "\t" + line + ['\n'];
  }

  lemma FirstIndented(text: string)
    requires text != ""
    ensures Indented(text) == "\t" + Indented(text, false)
  {
    var rest := Indented(text[1..], text[0] == '\n');
    assert "" + [text[0]] + rest == [text[0]] + rest;
    ConcatAssociative("\t", [text[0]], rest);
  }

  // ----- Blocks -----

  /** No key has a newline in it: every written line is a line of the layout. */
  predicate OneLineTree(t: Tree)
    decreases t, 1
  {
    (forall i :: 0 <= i < |t.keys| ==> '\n' !in t.keys[i]) && OneLine(t.kids)
  }

  predicate OneLine(ts: seq<Tree>)
    decreases ts, 0
  {
    forall i :: 0 <= i < |ts| ==> OneLineTree(ts[i])
  }

  /** The line that a block begins with: its keys, and a brace if it has children. */
  function HeadLine(t: Tree): string {
    WriteKeys(t.keys) + if t.kids == [] then "" else (if t.keys == [] then "" else " ") + "{"
  }

  /** A line of the layout. */
  function Line(level: nat, text: string): string {
    Repeat('\t', level) + (text + ['\n'])
  }

  lemma {:induction false} KeysOneLine(keys: seq<string>)
    requires forall i :: 0 <= i < |keys| ==> '\n' !in keys[i]
    ensures '\n' !in WriteKeys(keys)
    decreases |keys|
  {
    if keys != [] {
      QuoteOneLine(keys[0]);
      if |keys| > 1 {
        KeysOneLine(keys[1..]);
      }
    }
  }

  lemma {:induction false} ReplaceOneLine(s: string, c: char, with: string)
    requires '\n' !in s && '\n' !in with
    ensures '\n' !in ReplaceAll(s, c, with)
    decreases |s|
  {
    if s != "" {
      assert s == [s[0]] + s[1..];
      ReplaceOneLine(s[1..], c, with);
    }
  }

  lemma QuoteOneLine(key: string)
    requires '\n' !in key
    ensures '\n' !in Quote(key)
  {
    ReplaceOneLine(key, '`', "\\`");
    ReplaceOneLine(key, '"', "\\\"");
  }

  lemma HeadOneLine(t: Tree)
    requires OneLineTree(t)
    ensures '\n' !in HeadLine(t)
  {
    KeysOneLine(t.keys);
  }

  lemma {:induction false} WrittenLines(ts: seq<Tree>, level: nat)
    ensures Lines(WriteForest(ts, level))
    decreases |ts|
  {
    if ts != [] {
      WrittenLines(ts[1..], level);
      var first, rest := WriteTree(ts[0], level), WriteForest(ts[1..], level);
      assert first[|first| - 1] == '\n';
      assert rest != "" ==> (first + rest)[|first + rest| - 1] == rest[|rest| - 1];
    }
  }

  lemma BlockAt(t: Tree, level: nat)
    requires OneLineTree(t)
    ensures WriteTree(t, level) ==
            if t.kids == [] then Line(level, HeadLine(t))
            else Line(level, HeadLine(t)) + (Indented(WriteForest(t.kids, level)) + Line(level, "}"))
  {
    DeeperForest(t.kids, level);
    TreeLines(t, level);
  }

  /** A block at the top: its keys on a line; and if it has children, each of their lines with a tab more, between
      braces. */
  lemma BlockText(t: Tree)
    requires OneLineTree(t)
    ensures WriteTree(t, 0) ==
            if t.kids == [] then HeadLine(t) + ['\n']
            else (HeadLine(t) + ['\n']) + (Indented(WriteForest(t.kids, 0)) + ("}" + ['\n']))
  {
    BlockAt(t, 0);
    TopLine(HeadLine(t));
    TopLine("}");
  }

  lemma TopLine(text: string)
    ensures Line(0, text) == text + ['\n']
  {
    assert "" + (text + ['\n']) == text + ['\n'];
  }

  /** The lines of a block. */
  lemma TreeLines(t: Tree, level: nat)
    ensures WriteTree(t, level) ==
            if t.kids == [] then Line(level, HeadLine(t))
            else Line(level, HeadLine(t)) + (WriteForest(t.kids, level + 1) + Line(level, "}"))
  {
    var tabs, keys, inner := Repeat('\t', level), WriteKeys(t.keys), WriteForest(t.kids, level + 1);
    if t.kids == [] {
      LeafLine(tabs, keys);
    } else {
      NestedText(t, level);
      LinesOf(tabs, keys, if t.keys == [] then "" else " ", inner);
    }
  }

  lemma NestedText(t: Tree, level: nat)
    requires t.kids != []
    ensures var tabs, inner := Repeat('\t', level), WriteForest(t.kids, level + 1);
            WriteTree(t, level) ==
            tabs + WriteKeys(t.keys) + ((if t.keys == [] then "" else " ") + "{\n" + inner + tabs + "}") + "\n"
  {
  }

  lemma LeafLine(tabs: string, keys: string)
    ensures tabs + keys + "" + "\n" == tabs + (keys + "" + ['\n'])
  {
    assert "\n" == ['\n'];
  }

  lemma LinesOf(tabs: string, keys: string, space: string, inner: string)
    ensures tabs + keys + (space + "{\n" + inner + tabs + "}") + "\n"
            == (tabs + (keys + (space + "{") + ['\n'])) + (inner + (tabs + ("}" + ['\n'])))
  {
    assert "{\n" == "{" + ['\n'] && "\n" == ['\n'];
  }

  /** One level deeper means one tab more in front of every line. */
  lemma {:induction false} DeeperTree(t: Tree, level: nat)
    requires OneLineTree(t)
    ensures WriteTree(t, level + 1) == Indented(WriteTree(t, level))
    decreases t, 1
  {
    TreeLines(t, level);
    TreeLines(t, level + 1);
    HeadOneLine(t);
    IndentedLine(level, HeadLine(t));
    if t.kids != [] {
      DeeperForest(t.kids, level + 1);
      IndentedLine(level, "}");
      WrittenLines(t.kids, level + 1);
      ThreeParts(Line(level, HeadLine(t)), WriteForest(t.kids, level + 1), Line(level, "}"));
    }
  }

  lemma ThreeParts(a: string, b: string, c: string)
    requires a != "" && Lines(a) && Lines(b)
    ensures Indented(a + (b + c)) == Indented(a) + (Indented(b) + Indented(c))
  {
    IndentConcat(a, b + c, true);
    IndentConcat(b, c, true);
  }

  lemma IndentedLine(level: nat, line: string)
    requires '\n' !in line
    ensures Indented(Line(level, line)) == Line(level + 1, line) && Lines(Line(level, line)) && Line(level, line) != ""
  {
    var tabs := Repeat('\t', level);
    TabsOnly(level);
    IndentLine(tabs + line);
    assert tabs + (line + ['\n']) == (tabs + line) + ['\n'];
    assert "\t" == ['\t'] && "\t" + (tabs + line) + ['\n'] == (['\t'] + tabs) + (line + ['\n']);
  }

  lemma {:induction false} TabsOnly(level: nat)
    ensures '\n' !in Repeat('\t', level)
    decreases level
  {
    if level > 0 {
      TabsOnly(level - 1);
    }
  }

  lemma {:induction false} DeeperForest(ts: seq<Tree>, level: nat)
    requires OneLine(ts)
    ensures WriteForest(ts, level + 1) == Indented(WriteForest(ts, level))
    decreases ts, 0
  {
    if ts != [] {
      DeeperTree(ts[0], level);
      DeeperForest(ts[1..], level);
      var first := WriteTree(ts[0], level);
      assert first[|first| - 1] == '\n';
      IndentConcat(first, WriteForest(ts[1..], level), true);
    }
  }

  // ----- No blocks -----

  /** A comment alone is a Caddyfile without blocks. */
  lemma OnlyComment(text: string)
    requires '\n' !in text
    ensures Unmarshal(['#'] + text) == Some([])
  {
    assert !Contains(text, '\n');
    CommentEnds(Start(), text);
    assert (['#'] + text)[0] == '#';
    assert ParseTokens(Some(Begin()), []) == Some(Begin());
  }
}
