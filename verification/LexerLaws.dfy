/** What the lexer (caddyfile/lexer.go) makes of comments, line ends and quotes. */
module LexerLaws {
  import opened Runes
  import opened Seqs
  import opened Lexing
  import opened Writing
  import opened Parsing
  import opened Labels

  /** Between words, with any number of escaped newlines before. */
  predicate Between(s: Scan) {
    s.val == "" && !s.comment && !s.quoted && !s.btQuoted && !s.escaped
  }

  // ----- One character after the other -----

  lemma FeedThen(s: Scan, w: string, s1: Scan, c: char, s2: Scan, o: Option<Token>)
    requires Feed(s, w) == (s1, []) && Step(s1, c) == (s2, o)
    ensures Feed(s, w + [c]) == (s2, ToSeq(o))
  {
    FeedAfterSilence(s, w, s1, [c]);
    FeedOne(s1, c);
  }

  lemma FeedFrom(s: Scan, c: char, s1: Scan, text: string)
    requires Step(s, c) == (s1, None)
    ensures Feed(s, [c]) == (s1, []) && Feed(s, [c] + text) == Feed(s1, text)
  {
    FeedOne(s, c);
    FeedAfterSilence(s, [c], s1, text);
  }

  // ----- Comments -----

  lemma {:induction false} InComment(s: Scan, text: string)
    requires s.val == "" && s.comment && !s.quoted && !s.btQuoted && !Contains(text, '\n')
    ensures Feed(s, text) == (s.(escaped := s.escaped || Contains(text, '\\')), [])
    decreases |text|
  {
    if text != "" {
      assert text[0] != '\n';
      ContainsTail(text, '\n');
      FeedSilent(s, text);
      InComment(Step(s, text[0]).0, text[1..]);
      ContainsHead(text, '\\');
    }
  }

  lemma ContainsHead(w: string, c: char)
    requires w != ""
    ensures Contains(w, c) <==> w[0] == c || Contains(w[1..], c)
  {
    if i :| 0 <= i < |w| && w[i] == c {
      assert i > 0 ==> w[1..][i - 1] == c;
    }
    if j :| 0 <= j < |w[1..]| && w[1..][j] == c {
      assert w[j + 1] == c;
    }
  }

  lemma StepNewline(s: Scan)
    requires Between(s)
    ensures Step(s, '\n') == (s.(line := s.line + 1 + s.skipped, skipped := 0), None)
  {
    assert IsSpace('\n');
    assert s.Newline().(comment := false) == s.(line := s.line + 1 + s.skipped, skipped := 0);
  }

  lemma StepHash(s: Scan)
    requires Between(s)
    ensures Step(s, '#') == (s.(comment := true), None)
  {
    assert !IsSpace('#');
  }

  lemma StepBackslash(s: Scan)
    requires Between(s)
    ensures Step(s, '\\') == (s.(escaped := true), None)
  {
  }

  /** The newline that ends a comment or an escaped line. */
  lemma StepLineEnd(s: Scan)
    requires s.val == "" && !s.quoted && !s.btQuoted
    ensures Step(s, '\n') ==
            ((if s.escaped then s.(skipped := s.skipped + 1) else s.(line := s.line + 1 + s.skipped, skipped := 0))
             .(comment := false, escaped := false), None)
  {
    assert IsSpace('\n');
  }

  /** A newline between words. */
  lemma NewlineRead(s: Scan)
    requires Between(s)
    ensures Feed(s, ['\n']) == (s.(line := s.line + 1 + s.skipped, skipped := 0), [])
  {
    StepNewline(s);
    FeedOne(s, '\n');
  }

  /** A comment reaches to the end of its line and leaves nothing behind; a backslash in it makes the newline an
      escaped one. */
  lemma CommentRead(s: Scan, text: string)
    requires Between(s) && !Contains(text, '\n')
    ensures Feed(s, ['#'] + text + ['\n']) ==
            (if Contains(text, '\\') then s.(skipped := s.skipped + 1)
             else s.(line := s.line + 1 + s.skipped, skipped := 0), [])
  {
    var s1 := s.(comment := true);
    StepHash(s);
    InComment(s1, text);
    var s2 := s1.(escaped := Contains(text, '\\'));
    FeedFrom(s, '#', s1, text + ['\n']);
    ConcatAssociative(['#'], text, ['\n']);
    StepLineEnd(s2);
    FeedThen(s1, text, s2, '\n', Step(s2, '\n').0, None);
  }

  /** A comment that ends the input. */
  lemma CommentEnds(s: Scan, text: string)
    requires Between(s) && !Contains(text, '\n')
    ensures Tokens(s, ['#'] + text) == []
  {
    var s1 := s.(comment := true);
    StepHash(s);
    InComment(s1, text);
    FeedFrom(s, '#', s1, text);
  }

  /** The same but for the line numbers. */
  predicate SameButLines(s: Scan, t: Scan) {
    && s.val == t.val && s.comment == t.comment && s.quoted == t.quoted && s.btQuoted == t.btQuoted
    && s.escaped == t.escaped
  }

  /** Texts of tokens do not depend on line numbers. */
  lemma {:induction false} TextsOnly(s: Scan, t: Scan, text: string)
    requires SameButLines(s, t)
    ensures Texts(Tokens(s, text)) == Texts(Tokens(t, text))
    decreases |text|
  {
    if text == "" {
      assert Tokens(s, "") == (if s.val != "" then [s.Emit().1.value] else []);
      assert Tokens(t, "") == (if t.val != "" then [t.Emit().1.value] else []);
    } else {
      TokensStep(s, text);
      TokensStep(t, text);
      var (s1, o) := Step(s, text[0]);
      var (t1, q) := Step(t, text[0]);
      StepTexts(s, t, text[0]);
      TextsOnly(s1, t1, text[1..]);
      TextsHead(o, Tokens(s1, text[1..]));
      TextsHead(q, Tokens(t1, text[1..]));
    }
  }

  lemma StepQuotedTexts(s: Scan, t: Scan, ch: char)
    requires SameButLines(s, t) && (s.quoted || s.btQuoted)
    ensures SameButLines(StepQuoted(s, ch).0, StepQuoted(t, ch).0)
    ensures StepQuoted(s, ch).1.Some? <==> StepQuoted(t, ch).1.Some?
    ensures StepQuoted(s, ch).1.Some? ==> StepQuoted(s, ch).1.value.text == StepQuoted(t, ch).1.value.text
  {
  }

  lemma StepWordTexts(s: Scan, t: Scan, ch: char)
    requires SameButLines(s, t)
    ensures SameButLines(StepWord(s, ch).0, StepWord(t, ch).0)
    ensures StepWord(s, ch).1.None? && StepWord(t, ch).1.None?
  {
  }

  lemma StepTexts(s: Scan, t: Scan, ch: char)
    requires SameButLines(s, t)
    ensures SameButLines(Step(s, ch).0, Step(t, ch).0)
    ensures Step(s, ch).1.Some? <==> Step(t, ch).1.Some?
    ensures Step(s, ch).1.Some? ==> Step(s, ch).1.value.text == Step(t, ch).1.value.text
  {
    if s.quoted || s.btQuoted {
      StepQuotedTexts(s, t, ch);
    } else {
      StepWordTexts(s, t, ch);
    }
  }

  lemma TextsHead(o: Option<Token>, ts: seq<Token>)
    ensures Texts(ToSeq(o) + ts) == (if o.Some? then [o.value.text] else []) + Texts(ts)
  {
    if o.Some? {
      assert ([o.value] + ts)[1..] == ts;
    } else {
      assert [] + ts == ts;
    }
  }

  lemma {:induction false} TextsConcat(a: seq<Token>, b: seq<Token>)
    ensures Texts(a + b) == Texts(a) + Texts(b)
    decreases |a|
  {
    if a == [] {
      assert a + b == b;
    } else {
      assert (a + b)[1..] == a[1..] + b;
      TextsConcat(a[1..], b);
    }
  }

  lemma TokensConcat(s: Scan, a: string, b: string)
    ensures Tokens(s, a + b) == Feed(s, a).1 + Tokens(Feed(s, a).0, b)
  {
    FeedConcat(s, a, b);
    var (s1, ts) := Feed(s, a);
    var (s2, us) := Feed(s1, b);
    ConcatAssociative(ts, us, if s2.val != "" then [s2.Emit().1.value] else []);
  }

  /** Deleting a comment changes no token, if there is no backslash in it, and in any case no token's text. */
  lemma CommentDeleted(s: Scan, before: string, text: string, after: string)
    requires Between(Feed(s, before).0) && !Contains(text, '\n')
    ensures var a, b := Tokens(s, before + (['#'] + text + ['\n']) + after), Tokens(s, before + ['\n'] + after);
            Texts(a) == Texts(b) && (!Contains(text, '\\') ==> a == b)
  {
    var s1 := Feed(s, before).0;
    CommentRead(s1, text);
    NewlineRead(s1);
    AfterLine(s, before, ['#'] + text + ['\n'], after);
    AfterLine(s, before, ['\n'], after);
    var a1, b1 := Feed(s1, ['#'] + text + ['\n']).0, Feed(s1, ['\n']).0;
    TextsOnly(a1, b1, after);
    TextsConcat(Feed(s, before).1, Tokens(a1, after));
    TextsConcat(Feed(s, before).1, Tokens(b1, after));
  }

  lemma AfterLine(s: Scan, before: string, line: string, after: string)
    requires Feed(Feed(s, before).0, line).1 == []
    ensures Tokens(s, before + line + after) == Feed(s, before).1 + Tokens(Feed(Feed(s, before).0, line).0, after)
  {
    var s1 := Feed(s, before).0;
    TokensAfterSilence(s1, line, Feed(s1, line).0, after);
    TokensConcat(s, before, line + after);
    ConcatAssociative(before, line, after);
  }

  lemma TokensAfterSilence(s: Scan, line: string, s1: Scan, after: string)
    requires Feed(s, line) == (s1, [])
    ensures Tokens(s, line + after) == Tokens(s1, after)
  {
    TokensConcat(s, line, after);
    assert [] + Tokens(s1, after) == Tokens(s1, after);
  }

  /** For a whole input: what is read of a Caddyfile is read of it without the comment. */
  lemma CommentDeletedInput(before: string, text: string, after: string)
    requires Between(Feed(Start(), SkipByteOrderMark(before)).0) && !Contains(text, '\n')
    ensures var a, b := AllTokens(before + (['#'] + text + ['\n']) + after), AllTokens(before + ['\n'] + after);
            a.Some? && b.Some? && Texts(a.value) == Texts(b.value) && (!Contains(text, '\\') ==> a == b)
  {
    var body := SkipByteOrderMark(before);
    CommentDeleted(Start(), body, text, after);
    MarkKept(before, ['#'] + text + ['\n'], after);
    MarkKept(before, ['\n'], after);
  }

  lemma CommentUnmarshalled(before: string, text: string, after: string)
    requires Between(Feed(Start(), SkipByteOrderMark(before)).0) && !Contains(text, '\n') && !Contains(text, '\\')
    ensures Unmarshal(before + (['#'] + text + ['\n']) + after) == Unmarshal(before + ['\n'] + after)
  {
    CommentDeletedInput(before, text, after);
  }

  lemma MarkKept(before: string, line: string, after: string)
    requires line != "" && line[0] != BYTE_ORDER_MARK
    ensures SkipByteOrderMark(before + line + after) == SkipByteOrderMark(before) + line + after
    ensures before + line + after != ""
  {
    if before == "" {
      assert before + line + after == line + after && (line + after)[0] == line[0];
    } else {
      assert (before + line + after)[0] == before[0];
      assert (before + line + after)[1..] == before[1..] + line + after;
    }
  }

  // ----- Words and line ends -----

  /** A word without anything special in it. */
  predicate Simple(w: string) {
    w != "" && NoSpace(w) && !Contains(w, '\\') && w[0] !in {'"', '`', '#'}
  }

  lemma {:induction false} NeverEscaped(w: string)
    requires !Contains(w, '\\')
    ensures EscapedAfter(false, w) == false
    decreases |w|
  {
    if w != "" {
      assert w[0] != '\\';
      ContainsTail(w, '\\');
      NeverEscaped(w[1..]);
    }
  }

  lemma SimpleFed(s: Scan, w: string)
    requires Between(s) && Simple(w)
    ensures Feed(s, w) == (s.(val := w, token := Token(s.line, "")), [])
  {
    var c := w[0];
    assert c != '\\' && !IsSpace(c);
    var s1 := s.(val := [c], token := Token(s.line, ""));
    assert "" + "" + [c] == [c];
    assert Step(s, c) == (s1, None);
    FeedSilent(s, w);
    ContainsTail(w, '\\');
    assert NoSpace(w[1..]);
    var v := FeedWord(s1, w[1..]);
    NeverEscaped(w[1..]);
    assert v + "" == v && [c] + "" == [c] && [c] + w[1..] == w;
  }

  lemma StepEndsWord(s: Scan, sep: char)
    requires s.val != "" && !s.comment && !s.quoted && !s.btQuoted && !s.escaped && sep in {' ', '\n'}
    ensures var t := Token(s.token.line, s.val);
            var s1 := if sep == ' ' then s else s.(line := s.line + 1 + s.skipped, skipped := 0);
            Step(s, sep) == (s1.(val := "", token := t), Some(t))
  {
    assert IsSpace(' ') && IsSpace('\n');
  }

  /** A word is a token on the line it stands on; a space or a newline ends it. */
  lemma SimpleRead(s: Scan, w: string, sep: char)
    requires Between(s) && Simple(w) && sep in {' ', '\n'}
    ensures Feed(s, w + [sep]) ==
            (if sep == ' ' then s.(token := Token(s.line, w))
             else s.(token := Token(s.line, w), line := s.line + 1 + s.skipped, skipped := 0), [Token(s.line, w)])
  {
    var s1 := s.(val := w, token := Token(s.line, ""));
    SimpleFed(s, w);
    StepEndsWord(s1, sep);
    FeedThen(s, w, s1, sep, Step(s1, sep).0, Some(Token(s.line, w)));
  }

  lemma SimpleEnds(s: Scan, w: string)
    requires Between(s) && Simple(w)
    ensures Tokens(s, w) == [Token(s.line, w)]
  {
    SimpleFed(s, w);
    assert [] + [Token(s.line, w)] == [Token(s.line, w)];
  }

  /** An escaped newline is no line end: what follows is on the same line, and the line after that one has the
      number it has in the text. */
  lemma LineContinues(s: Scan, end: string)
    requires Between(s) && end == ['\\', '\n']
    ensures Feed(s, end) == (s.(skipped := s.skipped + 1), [])
  {
    var s1 := s.(escaped := true);
    StepBackslash(s);
    StepLineEnd(s1);
    FeedFrom(s, '\\', s1, []);
    FeedThen(s, ['\\'], s1, '\n', s.(skipped := s.skipped + 1), None);
    assert end == ['\\'] + ['\n'];
  }

  lemma ContinuedLine(a: string, b: string, c: string, end: string)
    requires Simple(a) && Simple(b) && Simple(c) && end == ['\\', '\n']
    ensures Tokens(Start(), (a + [' ']) + (end + ((b + ['\n']) + c))) == [Token(1, a), Token(1, b), Token(3, c)]
  {
    var s := Start();
    SimpleRead(s, a, ' ');
    var s1 := s.(token := Token(1, a));
    LineContinues(s1, end);
    var s2 := s1.(skipped := 1);
    SimpleRead(s2, b, '\n');
    var s3 := s2.(token := Token(1, b), line := 3, skipped := 0);
    SimpleEnds(s3, c);
    TokensConcat(s2, b + ['\n'], c);
    TokensConcat(s1, end, (b + ['\n']) + c);
    TokensConcat(s, a + [' '], end + ((b + ['\n']) + c));
  }

  /** Outside quotes carriage returns are ignored, so it does not matter how lines end. */
  lemma {:induction false} CarriageReturns(s: Scan, text: string)
    requires !s.quoted && !s.btQuoted && !Contains(text, '"') && !Contains(text, '`')
    ensures Tokens(s, text) == Tokens(s, ReplaceAll(text, '\r', ""))
    decreases |text|
  {
    if text != "" {
      ContainsHead(text, '"');
      ContainsHead(text, '`');
      var (s1, o) := Step(s, text[0]);
      TokensStep(s, text);
      CarriageReturns(s1, text[1..]);
      var rest := ReplaceAll(text[1..], '\r', "");
      if text[0] == '\r' {
        assert s1 == s && o.None?;
        assert ReplaceAll(text, '\r', "") == rest && [] + Tokens(s, rest) == Tokens(s, rest);
      } else {
        assert ReplaceAll(text, '\r', "") == [text[0]] + rest;
        TokensStep(s, [text[0]] + rest);
        assert ([text[0]] + rest)[1..] == rest;
      }
    }
  }

  /** A byte order mark in front is dropped, one only. */
  lemma ByteOrderMark(text: string)
    requires text != ""
    ensures AllTokens(['\U{feff}'] + text) == Some(Tokens(Start(), text))
    ensures text[0] != '\U{feff}' ==> AllTokens(text) == AllTokens(['\U{feff}'] + text)
  {
    assert (['\U{feff}'] + text)[1..] == text;
  }

  // ----- Quotes -----

  lemma {:induction false} InQuotes(s: Scan, w: string)
    requires s.quoted && !s.btQuoted && !s.escaped && !s.comment && !Contains(w, '\\')
    ensures Feed(s, ReplaceAll(w, '"', "\\\"")) ==
            (s.(val := s.val + w, line := s.line + (if Contains(w, '\n') then Newlines(w) + s.skipped else 0),
                skipped := if Contains(w, '\n') then 0 else s.skipped), [])
    decreases |w|
  {
    if w == "" {
      assert s.val + w == s.val;
    } else {
      assert w[0] != '\\';
      ContainsHead(w, '\\');
      ContainsHead(w, '\n');
      var rest := ReplaceAll(w[1..], '"', "\\\"");
      var s1 := (if w[0] == '\n' then s.Newline() else s).(val := s.val + [w[0]]);
      QuotedChar(s, w[0], rest);
      InQuotes(s1, w[1..]);
      if !Contains(w[1..], '\n') {
        NoNewlines(w[1..]);
      }
      assert w == [w[0]] + w[1..];
      ConcatAssociative(s.val, [w[0]], w[1..]);
    }
  }

  lemma QuotedChar(s: Scan, c: char, rest: string)
    requires s.quoted && !s.btQuoted && !s.escaped && c != '\\'
    ensures var s1 := (if c == '\n' then s.Newline() else s).(val := s.val + [c]);
            Feed(s, (if c == '"' then "\\\"" else [c]) + rest) == Feed(s1, rest)
  {
    var s1 := (if c == '\n' then s.Newline() else s).(val := s.val + [c]);
    if c == '"' {
      var s2 := s.(escaped := true);
      assert "\\\"" == ['\\'] + ['"'];
      FeedOne(s, '\\');
      FeedAfterSilence(s, ['\\'], s2, ['"'] + rest);
      FeedOne(s2, '"');
      FeedAfterSilence(s2, ['"'], s1, rest);
      assert (['\\'] + ['"']) + rest == ['\\'] + (['"'] + rest);
    } else {
      FeedOne(s, c);
      FeedAfterSilence(s, [c], s1, rest);
    }
  }

  /** Between double quotes everything stands for itself, and `\"` for a double quote: the text in between is one
      token, white space and all. */
  lemma QuotesRead(s: Scan, w: string)
    requires Between(s) && !Contains(w, '\\')
    ensures var (s1, ts) := Feed(s, "\"" + ReplaceAll(w, '"', "\\\"") + "\"");
            ts == [Token(s.line, w)] && Between(s1) && s1.line + s1.skipped == s.line + s.skipped + Newlines(w)
  {
    var s1 := s.(quoted := true, token := Token(s.line, ""));
    var body := ReplaceAll(w, '"', "\\\"");
    assert "\"" == ['"'];
    FeedOne(s, '"');
    FeedAfterSilence(s, "\"", s1, body + "\"");
    assert "\"" + body + "\"" == "\"" + (body + "\"");
    InQuotes(s1, w);
    var s2 := Feed(s1, body).0;
    FeedAfterSilence(s1, body, s2, "\"");
    FeedOne(s2, '"');
    assert "" + w == w;
    if !Contains(w, '\n') {
      NoNewlines(w);
    }
  }

  /** Between backticks everything stands for itself, backslashes too. */
  lemma BackticksRead(s: Scan, w: string)
    requires Between(s) && s.skipped == 0 && !Contains(w, '`')
    ensures var (s1, ts) := Feed(s, "`" + w + "`");
            ts == [Token(s.line, w)] && Between(s1) && s1.line == s.line + Newlines(w)
  {
    var s1 := s.(btQuoted := true, token := Token(s.line, ""));
    assert "`" == ['`'];
    FeedOne(s, '`');
    FeedAfterSilence(s, "`", s1, w + "`");
    assert "`" + w + "`" == "`" + (w + "`");
    FeedBackticked(s1, w);
    var s2 := Feed(s1, w).0;
    FeedAfterSilence(s1, w, s2, "`");
    FeedOne(s2, '`');
    assert "" + w == w;
  }

  // ----- Arguments -----

  lemma {:induction false} TextsAt(ts: seq<Token>)
    ensures |Texts(ts)| == |ts| && forall i :: 0 <= i < |ts| ==> Texts(ts)[i] == ts[i].text
    decreases |ts|
  {
    if ts != [] {
      TextsAt(ts[1..]);
    }
  }

  /** The arguments of a label: the texts of the tokens of its value, all of them, in order. */
  lemma ArgsExact(text: string)
    ensures text == "" ==> ParseArgs(text) == []
    ensures text != "" ==>
              var args, tokens := ParseArgs(text), AllTokens(text).value;
              |args| == |tokens| && forall i :: 0 <= i < |args| ==> args[i] == tokens[i].text
  {
    TextsAt(Tokens(Start(), SkipByteOrderMark(text)));
  }
}
