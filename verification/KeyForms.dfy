/** The keys that the quoting forms of write (caddyfile/marshal.go) carry through the lexer are exactly the
    lexable ones. */
module KeyForms {
  import opened Runes
  import opened Seqs
  import opened Lexing
  import opened Writing

  /** A written key and the separator after it come back as one token, and nothing stays pending. */
  ghost predicate ComesBack(s: Scan, text: string, key: string, sep: char) {
    var (s1, ts) := Feed(s, text + [sep]);
    ts == [Token(s.line, key)] && Clean(s1, s1.line)
  }

  // ----- No character is read twice -----

  /** How many characters of what was read are still pending. */
  function Weight(s: Scan): nat {
    |s.val| + if s.escaped then 1 else 0
  }

  function Length(ts: seq<Token>): nat {
    if ts == [] then 0 else |ts[0].text| + Length(ts[1..])
  }

  lemma {:induction false} LengthConcat(a: seq<Token>, b: seq<Token>)
    ensures Length(a + b) == Length(a) + Length(b)
    decreases |a|
  {
    if a == [] {
      assert a + b == b;
    } else {
      assert (a + b)[1..] == a[1..] + b;
      LengthConcat(a[1..], b);
    }
  }

  lemma StepWeight(s: Scan, c: char)
    ensures var (s1, o) := Step(s, c); Length(ToSeq(o)) + Weight(s1) <= Weight(s) + 1
  {
    var (s1, o) := Step(s, c);
    if o.Some? {
      assert ToSeq(o)[1..] == [];
    }
  }

  lemma {:induction false} FeedWeight(s: Scan, text: string)
    ensures var (s1, ts) := Feed(s, text); Length(ts) + Weight(s1) <= Weight(s) + |text|
    decreases |text|
  {
    if text != "" {
      var (s1, o) := Step(s, text[0]);
      StepWeight(s, text[0]);
      FeedWeight(s1, text[1..]);
      LengthConcat(ToSeq(o), Feed(s1, text[1..]).1);
    }
  }

  /** The character adds nothing to what is pending or read. */
  ghost predicate Drops(s: Scan, c: char) {
    var (s1, o) := Step(s, c);
    Length(ToSeq(o)) + Weight(s1) <= Weight(s)
  }

  lemma FeedDrops(s: Scan, a: string, c: char, b: string)
    requires Weight(s) == 0 && Drops(Feed(s, a).0, c)
    ensures var (s1, ts) := Feed(s, a + [c] + b); Length(ts) + Weight(s1) < |a + [c] + b|
  {
    var (s1, t1) := Feed(s, a);
    var (s2, t2) := Feed(s1, [c]);
    var (s3, t3) := Feed(s2, b);
    FeedConcat(s, a, [c] + b);
    FeedConcat(s1, [c], b);
    assert a + [c] + b == a + ([c] + b);
    FeedOne(s1, c);
    FeedWeight(s, a);
    FeedWeight(s2, b);
    LengthConcat(t1, t2 + t3);
    LengthConcat(t2, t3);
  }

  /** If nothing stays pending after the separator, the tokens are no longer than what was pending. */
  lemma LastStep(s: Scan, sep: char)
    requires sep in {' ', '\n'} && Clean(Step(s, sep).0, Step(s, sep).0.line)
    ensures Length(ToSeq(Step(s, sep).1)) <= Weight(s)
  {
    var (s1, o) := Step(s, sep);
    if o.Some? {
      assert ToSeq(o)[1..] == [];
    }
  }

  lemma OneLength(token: Token)
    ensures Length([token]) == |token.text|
  {
    assert [token][1..] == [];
  }

  /** A key of which a character is dropped does not come back. */
  lemma DroppedLost(s: Scan, key: string, sep: char)
    requires sep in {' ', '\n'}
    requires var (s1, ts) := Feed(s, key); Length(ts) + Weight(s1) < |key|
    ensures !ComesBack(s, key, key, sep)
  {
    var (s1, ts) := Feed(s, key);
    FeedConcat(s, key, [sep]);
    FeedOne(s1, sep);
    LengthConcat(ts, ToSeq(Step(s1, sep).1));
    OneLength(Token(s.line, key));
    if Clean(Step(s1, sep).0, Step(s1, sep).0.line) {
      LastStep(s1, sep);
    }
  }

  lemma DropLost(s: Scan, key: string, a: string, c: char, b: string, sep: char)
    requires Weight(s) == 0 && key == a + [c] + b && Drops(Feed(s, a).0, c) && sep in {' ', '\n'}
    ensures !ComesBack(s, key, key, sep)
  {
    FeedDrops(s, a, c, b);
    DroppedLost(s, key, sep);
  }

  // ----- The raw form -----

  /** How a word may not begin. */
  predicate BadStart(key: string) {
    HasPrefix(key, "#") || HasPrefix(key, "`") || HasPrefix(key, "\\#") || HasPrefix(key, "\\`")
  }

  lemma BadStartLost(s: Scan, key: string, sep: char)
    requires Clean(s, s.line) && BadStart(key) && sep in {' ', '\n'}
    ensures !ComesBack(s, key, key, sep)
  {
    if key[0] == '\\' {
      assert key[1] == '#' || key[1] == '`';
      assert key[..1] == [key[0]];
      FeedOne(s, key[0]);
      assert key == [key[0]] + [key[1]] + key[2..];
      DropLost(s, key, [key[0]], key[1], key[2..], sep);
    } else {
      assert key[0] == '#' || key[0] == '`';
      assert key == "" + [key[0]] + key[1..];
      DropLost(s, key, "", key[0], key[1..], sep);
    }
  }

  /** The state inside a word without white space that begins well. */
  ghost predicate RawRead(s: Scan, key: string) {
    var (s1, tokens) := Feed(s, key);
    && !s1.comment && !s1.quoted && !s1.btQuoted && s1.escaped == EscapedAfter(false, key)
    && tokens == [] && s1.val + Pending(s1.escaped) == key
  }

  lemma RawEscaped(s: Scan, key: string)
    requires Clean(s, s.line) && |key| > 1 && key[0] == '\\' && NoSpace(key) && !BadStart(key) && key[1] != '"'
    ensures RawRead(s, key)
  {
    var s1, rest := Step(s, key[0]).0, key[1..];
    FeedSilent(s, key);
    assert rest[0] == key[1] && !IsSpace(key[1]) && key[..2] == [key[0], key[1]];
    var s2 := Step(s1, key[1]).0;
    FeedSilent(s1, rest);
    assert rest[1..] == key[2..] && NoSpace(key[2..]);
    var v := FeedWord(s2, key[2..]);
    assert key == key[..2] + key[2..];
  }

  lemma RawPlain(s: Scan, key: string)
    requires Clean(s, s.line) && key != "" && key[0] != '\\' && NoSpace(key) && !BadStart(key) && key[0] != '"'
    ensures RawRead(s, key)
  {
    assert !IsSpace(key[0]) && key[..1] == [key[0]];
    var s1 := Step(s, key[0]).0;
    FeedSilent(s, key);
    assert NoSpace(key[1..]);
    var v := FeedWord(s1, key[1..]);
    assert key == [key[0]] + key[1..];
  }

  lemma RawState(s: Scan, key: string)
    requires Clean(s, s.line) && key != "" && NoSpace(key) && !BadStart(key) && key[0] != '"'
    requires |key| > 1 && key[0] == '\\' ==> key[1] != '"'
    ensures RawRead(s, key)
  {
    if key[0] != '\\' {
      RawPlain(s, key);
    } else if |key| > 1 {
      RawEscaped(s, key);
    } else {
      assert key == "\\" && key[1..] == "";
      FeedSilent(s, key);
    }
  }

  lemma PendingLost(s: Scan, key: string, sep: char)
    requires Clean(s, s.line) && key != "" && NoSpace(key) && !BadStart(key) && !Contains(key, '"')
    requires TrailingBackslashes(key) % 2 == 1 && sep in {' ', '\n'}
    ensures !ComesBack(s, key, key, sep)
  {
    assert key[0] != '"' && (|key| > 1 ==> key[1] != '"');
    RawState(s, key);
    EscapedAfterTail(key);
    var s1 := Feed(s, key).0;
    FeedConcat(s, key, [sep]);
    FeedOne(s1, sep);
    assert [] + ToSeq(Step(s1, sep).1) == ToSeq(Step(s1, sep).1);
    assert |s1.val| < |key|;
  }

  lemma {:induction false} FirstSpace(key: string) returns (i: nat)
    requires !NoSpace(key)
    ensures i < |key| && IsSpace(key[i]) && NoSpace(key[..i])
    decreases |key|
  {
    if IsSpace(key[0]) {
      i := 0;
    } else {
      assert !NoSpace(key[1..]) by {
        var j :| 0 <= j < |key| && IsSpace(key[j]);
        assert key[1..][j - 1] == key[j];
      }
      var j := FirstSpace(key[1..]);
      i := j + 1;
      forall k | 0 <= k < i ensures !IsSpace(key[..i][k]) {
        assert k > 0 ==> key[1..][..j][k - 1] == key[k];
      }
    }
  }

  lemma SpaceLost(s: Scan, key: string, sep: char)
    requires Clean(s, s.line) && !NoSpace(key) && !BadStart(key) && !Contains(key, '"') && sep in {' ', '\n'}
    ensures !ComesBack(s, key, key, sep)
  {
    var i := FirstSpace(key);
    var word := key[..i];
    if i > 0 {
      assert word[0] == key[0] && (i > 1 ==> word[1] == key[1]);
      assert !BadStart(word) && word[0] != '"';
      RawState(s, word);
    }
    SpaceDrops(Feed(s, word).0, key[i]);
    assert key == word + [key[i]] + key[i + 1..];
    DropLost(s, key, word, key[i], key[i + 1..], sep);
  }

  lemma SpaceDrops(s: Scan, c: char)
    requires IsSpace(c) && !s.quoted && !s.btQuoted
    ensures Drops(s, c)
  {
    var (s1, o) := Step(s, c);
    if o.Some? {
      assert ToSeq(o)[1..] == [];
    }
  }

  lemma NothingLost(s: Scan, sep: char)
    requires Clean(s, s.line) && sep in {' ', '\n'}
    ensures !ComesBack(s, "", "", sep)
  {
    assert "" + [sep] == [sep];
    FeedOne(s, sep);
  }

  // ----- The quoted forms -----

  /** The closing quote is taken for an escaped one. */
  lemma QuotedLost(s: Scan, key: string, sep: char)
    requires Clean(s, s.line) && !Contains(key, '\n') && !Contains(key, '"') && sep in {' ', '\n'}
    requires TrailingBackslashes(key) % 2 == 1
    ensures !ComesBack(s, ['"'] + key + ['"'], key, sep)
  {
    FeedOpen(s, '"');
    EscapedAfterTail(key);
    var s1 := s.(quoted := true, token := Token(s.line, ""));
    var v := FeedQuoted(s1, key);
    var s2 := s1.(val := v, escaped := true);
    FeedEnclosed(s, '"', s1, key, s2, sep);
    var s3 := s2.(val := v + ['"'], escaped := false);
    FeedOne(s2, '"');
    FeedAfterSilence(s2, ['"'], s3, [sep]);
    FeedOne(s3, sep);
  }

  lemma {:induction false} FirstAt(key: string, c: char) returns (i: nat)
    requires Contains(key, c)
    ensures i < |key| && key[i] == c && !Contains(key[..i], c)
    decreases |key|
  {
    if key[0] == c {
      i := 0;
    } else {
      assert Contains(key[1..], c) by {
        var j :| 0 <= j < |key| && key[j] == c;
        assert key[1..][j - 1] == c;
      }
      var j := FirstAt(key[1..], c);
      i := j + 1;
      forall k | 0 <= k < i ensures key[..i][k] != c {
        assert k > 0 ==> key[1..][..j][k - 1] == key[k];
      }
    }
  }

  lemma {:induction false} ReplaceFirst(a: string, b: string, c: char, with: string)
    requires !Contains(a, c)
    ensures ReplaceAll(a + [c] + b, c, with) == a + with + ReplaceAll(b, c, with)
    decreases |a|
  {
    var s := a + [c] + b;
    if a == "" {
      assert s == [c] + b && s[1..] == b;
      assert "" + with == with;
    } else {
      assert s[0] == a[0] != c && s[1..] == a[1..] + [c] + b;
      ContainsTail(a, c);
      ReplaceFirst(a[1..], b, c, with);
      assert a == [a[0]] + a[1..];
    }
  }

  lemma BacktickSplit(key: string, i: nat, sep: char) returns (a: string, rest: string)
    requires i < |key| && key[i] == '`' && !Contains(key[..i], '`')
    ensures a == key[..i]
    ensures "`" + ReplaceAll(key, '`', "\\`") + "`" + [sep] == ['`'] + ((a + ['\\']) + (['`'] + rest))
  {
    a := key[..i];
    var b := key[i + 1..];
    assert key == a + ['`'] + b;
    ReplaceFirst(a, b, '`', "\\`");
    rest := ReplaceAll(b, '`', "\\`") + "`" + [sep];
  }

  /** The backtick ends the word: there is no escape inside backticks. */
  lemma BacktickedLost(s: Scan, key: string, sep: char)
    requires Clean(s, s.line) && Contains(key, '`') && sep in {' ', '\n'}
    ensures !ComesBack(s, "`" + ReplaceAll(key, '`', "\\`") + "`", key, sep)
  {
    var i := FirstAt(key, '`');
    var a, rest := BacktickSplit(key, i, sep);
    var text := "`" + ReplaceAll(key, '`', "\\`") + "`" + [sep];
    FeedOpen(s, '`');
    var s1 := s.(btQuoted := true, token := Token(s.line, ""));
    FeedAfterSilence(s, ['`'], s1, (a + ['\\']) + (['`'] + rest));
    FeedBackticked(s1, a + ['\\']);
    var s2 := s1.(val := s1.val + (a + ['\\']), line := s1.line + Newlines(a + ['\\']));
    FeedAfterSilence(s1, a + ['\\'], s2, ['`'] + rest);
    FeedConcat(s2, ['`'], rest);
    FeedOne(s2, '`');
    assert Feed(s, text).1[0].text == s2.val;
    assert s2.val[i] == '\\' && key[i] == '`';
  }

  /** A written key comes back as one token, with nothing pending, if and only if it is lexable. */
  lemma FeedKeyExact(s: Scan, key: string, sep: char)
    requires Clean(s, s.line) && sep in {' ', '\n'}
    ensures ComesBack(s, Quote(key), key, sep) <==> Lexable(key)
  {
    if Lexable(key) {
      FeedKey(s, key, sep);
    } else if key == "" {
      NothingLost(s, sep);
    } else if Contains(key, '\n') || Contains(key, '"') {
      BacktickedLost(s, key, sep);
    } else if Contains(key, ' ') {
      QuoteForms(key);
      QuotedLost(s, key, sep);
    } else if BadStart(key) {
      BadStartLost(s, key, sep);
    } else if NoSpace(key) {
      PendingLost(s, key, sep);
    } else {
      SpaceLost(s, key, sep);
    }
  }
}
