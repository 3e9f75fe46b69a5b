/** The printer (write and Marshal, caddyfile/marshal.go) and what the lexer reads back from it. */
module Writing {
  import opened Runes
  import opened Seqs
  import opened Lexing
  import opened Trees
  import opened Sorting

  /** The quoting form of one key. */
  function Quote(key: string): string {
    if Contains(key, '\n') || Contains(key, '"') then "`" + ReplaceAll(key, '`', "\\`") + "`"
    else if Contains(key, ' ') then "\"" + ReplaceAll(key, '"', "\\\"") + "\""
    else key
  }

  /** The loop over a block's keys. */
  function WriteKeys(keys: seq<string>): string {
    if keys == [] then ""
    else if |keys| == 1 then Quote(keys[0])
    else Quote(keys[0]) + " " + WriteKeys(keys[1..])
  }

  function WriteTree(t: Tree, level: nat): string
    decreases t, 1
  {
    Repeat('\t', level) + WriteKeys(t.keys)
    + (if t.kids == [] then ""
       else (if t.keys == [] then "" else " ") + "{\n" + WriteForest(t.kids, level + 1) + Repeat('\t', level) + "}")
    + "\n"
  }

  function WriteForest(ts: seq<Tree>, level: nat): string
    decreases ts, 0
  {
    if ts == [] then "" else WriteTree(ts[0], level) + WriteForest(ts[1..], level)
  }

  /** Container.Marshal */
  function Marshal(ts: seq<Tree>): string {
    WriteForest(SortForest(ts), 0)
  }

  lemma {:induction false} WriteKeysAppend(keys: seq<string>, key: string)
    ensures WriteKeys(keys + [key]) == WriteKeys(keys) + (if keys == [] then "" else " ") + Quote(key)
    decreases |keys|
  {
    var q := Quote(key);
    if keys == [] {
      assert keys + [key] == [key];
      assert "" + "" + q == q;
    } else {
      var h := Quote(keys[0]);
      assert (keys + [key])[1..] == keys[1..] + [key];
      WriteKeysAppend(keys[1..], key);
      if |keys| == 1 {
        assert WriteKeys(keys[1..] + [key]) == q;
      } else {
        assert h + " " + (WriteKeys(keys[1..]) + " " + q) == (h + " " + WriteKeys(keys[1..])) + " " + q;
      }
    }
  }

  lemma {:induction false} WriteForestConcat(a: seq<Tree>, b: seq<Tree>, level: nat)
    ensures WriteForest(a + b, level) == WriteForest(a, level) + WriteForest(b, level)
    decreases |a|
  {
    if a == [] {
      assert a + b == b;
      assert "" + WriteForest(b, level) == WriteForest(b, level);
    } else {
      assert (a + b)[1..] == a[1..] + b;
      WriteForestConcat(a[1..], b, level);
      ConcatAssociative(WriteTree(a[0], level), WriteForest(a[1..], level), WriteForest(b, level));
    }
  }

  lemma WriteForestNext(ts: seq<Tree>, i: nat, level: nat)
    requires i < |ts|
    ensures WriteForest(ts[..i + 1], level) == WriteForest(ts[..i], level) + WriteTree(ts[i], level)
  {
    assert ts[..i + 1] == ts[..i] + [ts[i]];
    WriteForestConcat(ts[..i], [ts[i]], level);
    assert [ts[i]][1..] == [];
    assert WriteTree(ts[i], level) + "" == WriteTree(ts[i], level);
  }

  // ----- Which keys can be read back -----

  function TrailingBackslashes(s: string): nat {
    if s == "" || s[|s| - 1] != '\\' then 0 else 1 + TrailingBackslashes(s[..|s| - 1])
  }

  /** The lexer reads `Quote(key)` as one word with the text `key`. */
  predicate Lexable(key: string) {
    && key != ""
    && if Contains(key, '\n') || Contains(key, '"') then !Contains(key, '`')
       else if Contains(key, ' ') then TrailingBackslashes(key) % 2 == 0
       else
         && NoSpace(key)
         && TrailingBackslashes(key) % 2 == 0
         && !HasPrefix(key, "#") && !HasPrefix(key, "`") && !HasPrefix(key, "\\#") && !HasPrefix(key, "\\`")
  }

  /** The parser, too, takes the word for a key. */
  predicate Printable(key: string) {
    Lexable(key) && key != "{" && key != "}"
  }

  // ----- Lexing one written key -----

  /** Between words: nothing pending. */
  ghost predicate Clean(s: Scan, line: nat) {
    s == s.Restart() && s.line == line && s.skipped == 0
  }

  function Pending(escaped: bool): string {
    if escaped then "\\" else ""
  }

  /** Whether a backslash is pending after `w`. */
  function EscapedAfter(escaped: bool, w: string): bool
    decreases |w|
  {
    if w == "" then escaped else EscapedAfter(!escaped && w[0] == '\\', w[1..])
  }

  lemma {:induction false} EscapedAfterLast(escaped: bool, w: string, c: char)
    ensures EscapedAfter(escaped, w + [c]) == (!EscapedAfter(escaped, w) && c == '\\')
    decreases |w|
  {
    if w == "" {
      assert (w + [c])[1..] == "";
    } else {
      assert (w + [c])[1..] == w[1..] + [c];
      EscapedAfterLast(!escaped && w[0] == '\\', w[1..], c);
    }
  }

  lemma {:induction false} EscapedAfterTail(w: string)
    ensures EscapedAfter(false, w) <==> TrailingBackslashes(w) % 2 == 1
    decreases |w|
  {
    if w != "" {
      var n := |w| - 1;
      assert w == w[..n] + [w[n]];
      EscapedAfterLast(false, w[..n], w[n]);
      EscapedAfterTail(w[..n]);
    }
  }

  /** Inside a raw word. */
  lemma {:induction false} FeedWord(s: Scan, w: string) returns (v: string)
    requires s.val != "" && !s.comment && !s.quoted && !s.btQuoted && NoSpace(w)
    ensures var e := EscapedAfter(s.escaped, w);
            && v + Pending(e) == s.val + Pending(s.escaped) + w && v != ""
            && Feed(s, w) == (s.(val := v, escaped := e), [])
    decreases |w|
  {
    if w == "" {
      v := s.val;
      assert v + Pending(s.escaped) == s.val + Pending(s.escaped) + w;
    } else {
      var (s1, o) := Step(s, w[0]);
      StepInWord(s, w[0]);
      assert NoSpace(w[1..]);
      v := FeedWord(s1, w[1..]);
      FeedSilent(s, w);
      assert w == [w[0]] + w[1..];
      ConcatAssociative(s.val + Pending(s.escaped), [w[0]], w[1..]);
    }
  }

  lemma StepInWord(s: Scan, c: char)
    requires s.val != "" && !s.comment && !s.quoted && !s.btQuoted && !IsSpace(c)
    ensures var (s1, o) := Step(s, c);
            && o.None? && s1.escaped == (!s.escaped && c == '\\') && s1.val != ""
            && s1.val + Pending(s1.escaped) == s.val + Pending(s.escaped) + [c]
            && s1 == s.(val := s1.val, escaped := s1.escaped)
  {
  }

  /** Inside double quotes. */
  lemma {:induction false} FeedQuoted(s: Scan, w: string) returns (v: string)
    requires s.quoted && !s.btQuoted && !Contains(w, '"') && !Contains(w, '\n')
    ensures var e := EscapedAfter(s.escaped, w);
            && v + Pending(e) == s.val + Pending(s.escaped) + w
            && Feed(s, w) == (s.(val := v, escaped := e), [])
    decreases |w|
  {
    if w == "" {
      v := s.val;
      assert v + Pending(s.escaped) == s.val + Pending(s.escaped) + w;
    } else {
      var (s1, o) := Step(s, w[0]);
      assert w[0] != '"' && w[0] != '\n';
      StepInQuotes(s, w[0]);
      ContainsTail(w, '"');
      ContainsTail(w, '\n');
      v := FeedQuoted(s1, w[1..]);
      FeedSilent(s, w);
      assert w == [w[0]] + w[1..];
      ConcatAssociative(s.val + Pending(s.escaped), [w[0]], w[1..]);
    }
  }

  lemma StepInQuotes(s: Scan, c: char)
    requires s.quoted && !s.btQuoted && c != '"' && c != '\n'
    ensures var (s1, o) := Step(s, c);
            && o.None? && s1.escaped == (!s.escaped && c == '\\')
            && s1.val + Pending(s1.escaped) == s.val + Pending(s.escaped) + [c]
            && s1 == s.(val := s1.val, escaped := s1.escaped)
  {
  }

  lemma ContainsTail(w: string, c: char)
    requires !Contains(w, c) && w != ""
    ensures !Contains(w[1..], c)
  {
    forall i | 0 <= i < |w[1..]| ensures w[1..][i] != c {
      assert w[1..][i] == w[i + 1];
    }
  }

  /** Inside backticks: everything is literal. */
  lemma {:induction false} FeedBackticked(s: Scan, w: string)
    requires s.btQuoted && !s.quoted && s.skipped == 0 && !Contains(w, '`')
    ensures Feed(s, w) == (s.(val := s.val + w, line := s.line + Newlines(w)), [])
    decreases |w|
  {
    if w == "" {
      assert s.val + w == s.val;
    } else {
      var (s1, o) := Step(s, w[0]);
      assert w[0] != '`';
      StepInBackticks(s, w[0]);
      ContainsTail(w, '`');
      FeedBackticked(s1, w[1..]);
      FeedSilent(s, w);
      assert w == [w[0]] + w[1..];
      ConcatAssociative(s.val, [w[0]], w[1..]);
    }
  }

  lemma StepInBackticks(s: Scan, c: char)
    requires s.btQuoted && !s.quoted && s.skipped == 0 && c != '`'
    ensures Step(s, c) == (s.(val := s.val + [c], line := s.line + if c == '\n' then 1 else 0), None)
  {
  }

  lemma FeedRawEscaped(s: Scan, key: string)
    requires Clean(s, s.line) && |key| > 1 && key[0] == '\\' && NoSpace(key) && TrailingBackslashes(key) % 2 == 0
    requires key[1] !in {'"', '#', '`'}
    ensures Feed(s, key) == (s.(val := key, token := Token(s.line, "")), [])
  {
    EscapedAfterTail(key);
    assert key[1..][0] == key[1] && !IsSpace(key[1]);
    var s1 := s.(escaped := true);
    assert Step(s, key[0]) == (s1, None);
    FeedSilent(s, key);
    FeedSilent(s1, key[1..]);
    var s2 := s.(val := key[..2], token := Token(s.line, ""));
    assert Step(s1, key[1]).0 == s2 by { assert key[..2] == "\\" + [key[1]]; }
    assert key[1..][1..] == key[2..];
    var v := FeedWord(s2, key[2..]);
    assert key == key[..2] + key[2..];
    assert v == v + Pending(false) == key;
  }

  /** A word that the raw form writes, from its first character. */
  lemma FeedRaw(s: Scan, key: string)
    requires Clean(s, s.line) && Lexable(key)
    requires !Contains(key, '\n') && !Contains(key, '"') && !Contains(key, ' ')
    ensures Feed(s, key) == (s.(val := key, token := Token(s.line, "")), [])
  {
    assert !IsSpace(key[0]) && key[0] != '"' && key[0] != '#' && key[0] != '`';
    if key[0] == '\\' {
      assert |key| > 1;
      assert key[..2] == [key[0], key[1]];
      FeedRawEscaped(s, key);
    } else {
      EscapedAfterTail(key);
      var s1 := s.(val := [key[0]], token := Token(s.line, ""));
      assert Step(s, key[0]) == (s1, None) by { assert "" + [key[0]] == [key[0]]; }
      FeedSilent(s, key);
      var v := FeedWord(s1, key[1..]);
      assert key == [key[0]] + key[1..];
      assert v == v + Pending(false) == key;
    }
  }

  /** A written key and the separator after it come back as one token, and nothing stays pending. */
  lemma FeedKey(s: Scan, key: string, sep: char)
    requires Clean(s, s.line) && Lexable(key) && sep in {' ', '\n'}
    ensures var (s1, ts) := Feed(s, Quote(key) + [sep]);
            && ts == [Token(s.line, key)]
            && Clean(s1, s.line + Newlines(key) + if sep == '\n' then 1 else 0)
  {
    if Contains(key, '\n') || Contains(key, '"') {
      FeedKeyBackticked(s, key, sep);
    } else if Contains(key, ' ') {
      FeedKeyQuoted(s, key, sep);
    } else {
      FeedRaw(s, key);
      NoNewlines(key);
      FeedConcat(s, key, [sep]);
      FeedOne(s.(val := key, token := Token(s.line, "")), sep);
    }
  }

  /** Opening quote, key, closing quote and separator, one after the other. */
  lemma FeedEnclosed(s: Scan, quote: char, s1: Scan, key: string, s2: Scan, sep: char)
    requires Feed(s, [quote]) == (s1, []) && Feed(s1, key) == (s2, [])
    ensures Feed(s, ([quote] + key + [quote]) + [sep]) == Feed(s2, [quote] + [sep])
  {
    FeedAfterSilence(s, [quote], s1, key + ([quote] + [sep]));
    FeedAfterSilence(s1, key, s2, [quote] + [sep]);
    assert ([quote] + key + [quote]) + [sep] == [quote] + (key + ([quote] + [sep]));
  }

  /** A quote where a word could start. */
  lemma FeedOpen(s: Scan, quote: char)
    requires Clean(s, s.line) && quote in {'"', '`'}
    ensures Feed(s, [quote]) == (s.(quoted := quote == '"', btQuoted := quote == '`', token := Token(s.line, "")), [])
  {
    FeedOne(s, quote);
  }

  lemma QuoteForms(key: string)
    ensures (Contains(key, '\n') || Contains(key, '"')) && !Contains(key, '`') ==> Quote(key) == ['`'] + key + ['`']
    ensures !Contains(key, '\n') && !Contains(key, '"') && Contains(key, ' ') ==> Quote(key) == ['"'] + key + ['"']
  {
    if !Contains(key, '`') { ReplaceAllAbsent(key, '`', "\\`"); }
    if !Contains(key, '"') { ReplaceAllAbsent(key, '"', "\\\""); }
  }

  lemma FeedKeyBackticked(s: Scan, key: string, sep: char)
    requires Clean(s, s.line) && !Contains(key, '`') && sep in {' ', '\n'}
    requires Contains(key, '\n') || Contains(key, '"')
    ensures var (s1, ts) := Feed(s, Quote(key) + [sep]);
            && ts == [Token(s.line, key)]
            && Clean(s1, s.line + Newlines(key) + if sep == '\n' then 1 else 0)
  {
    QuoteForms(key);
    FeedOpen(s, '`');
    var s1 := s.(btQuoted := true, token := Token(s.line, ""));
    var s2 := s1.(val := key, line := s.line + Newlines(key));
    FeedBackticked(s1, key);
    assert s1.val + key == key;
    FeedEnclosed(s, '`', s1, key, s2, sep);
    FeedClose(s2, '`', sep);
  }

  /** The closing quote emits the word; the separator after it is skipped. */
  lemma FeedClose(s: Scan, quote: char, sep: char)
    requires s.skipped == 0 && sep in {' ', '\n'}
    requires (quote == '"' && s.quoted && !s.btQuoted && !s.escaped) || (quote == '`' && s.btQuoted && !s.quoted)
    ensures var (s1, ts) := Feed(s, [quote] + [sep]);
            && ts == [Token(s.token.line, s.val)]
            && Clean(s1, s.line + if sep == '\n' then 1 else 0)
  {
    var s1 := s.Emit().0;
    FeedOne(s, quote);
    FeedOne(s1, sep);
    FeedConcat(s, [quote], [sep]);
  }

  lemma FeedKeyQuoted(s: Scan, key: string, sep: char)
    requires Clean(s, s.line) && TrailingBackslashes(key) % 2 == 0 && sep in {' ', '\n'}
    requires !Contains(key, '\n') && !Contains(key, '"') && Contains(key, ' ')
    ensures var (s1, ts) := Feed(s, Quote(key) + [sep]);
            && ts == [Token(s.line, key)]
            && Clean(s1, s.line + Newlines(key) + if sep == '\n' then 1 else 0)
  {
    QuoteForms(key);
    FeedOpen(s, '"');
    EscapedAfterTail(key);
    NoNewlines(key);
    var s1 := s.(quoted := true, token := Token(s.line, ""));
    var v := FeedQuoted(s1, key);
    assert v == v + Pending(false) == key;
    FeedEnclosed(s, '"', s1, key, s1.(val := key), sep);
    FeedClose(s1.(val := key), '"', sep);
  }

  lemma {:induction false} FeedTabs(s: Scan, n: nat)
    requires Clean(s, s.line)
    ensures Feed(s, Repeat('\t', n)) == (s, [])
  {
    if n > 0 {
      assert Repeat('\t', n)[1..] == Repeat('\t', n - 1);
      FeedSilent(s, Repeat('\t', n));
      FeedTabs(s, n - 1);
    }
  }
}
