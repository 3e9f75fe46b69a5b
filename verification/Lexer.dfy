/** The character lexer (caddyfile/lexer.go). `Step` is one turn of the loop in `next`, over the
    lexer's fields and the locals of `next`; `Feed` is what a run of turns leaves and emits. */
module Lexing {
  import opened Runes
  import opened Seqs

  datatype Token = Token(line: nat, text: string)

  const BYTE_ORDER_MARK: char := '\U{feff}'

  /** The fields `token`, `line`, `skippedLines` and the locals of `next`. */
  datatype Scan = Scan(
    val: string, comment: bool, quoted: bool, btQuoted: bool, escaped: bool,
    token: Token, line: nat, skipped: nat)
  {
    /** The locals when `next` is entered. */
    function Restart(): Scan {
      Scan("", false, false, false, false, token, line, skipped)
    }

    function Newline(): Scan {
      this.(line := line + 1 + skipped, skipped := 0)
    }

    /** makeToken */
    function Emit(): (Scan, Option<Token>) {
      var t := Token(token.line, val);
      (this.(token := t).Restart(), Some(t))
    }
  }

  function Start(): Scan {
    Scan("", false, false, false, false, Token(0, ""), 1, 0)
  }

  function Step(s: Scan, ch: char): (Scan, Option<Token>) {
    if !s.escaped && !s.btQuoted && ch == '\\' then (s.(escaped := true), None)
    else if s.quoted || s.btQuoted then StepQuoted(s, ch)
    else if IsSpace(ch) then StepSpace(s, ch)
    else StepWord(s, ch)
  }

  function StepQuoted(s: Scan, ch: char): (Scan, Option<Token>) {
    if s.quoted && s.escaped then
      (Append(s.(val := if ch != '"' then s.val + "\\" else s.val, escaped := false), ch), None)
    else if s.quoted && ch == '"' then s.Emit()
    else if s.btQuoted && ch == '`' then s.Emit()
    else (Append(s, ch), None)
  }

  function Append(s: Scan, ch: char): Scan {
    (if ch == '\n' then s.Newline() else s).(val := s.val + [ch])
  }

  function StepSpace(s: Scan, ch: char): (Scan, Option<Token>) {
    if ch == '\r' then (s, None)
    else
      var s1 :=
        if ch != '\n' then s
        else if s.escaped then s.(skipped := s.skipped + 1, escaped := false, comment := false)
        else s.Newline().(comment := false);
      if s1.val != "" then s1.Emit() else (s1, None)
  }

  function StepWord(s: Scan, ch: char): (Scan, Option<Token>) {
    var s1 := if ch == '#' && s.val == "" then s.(comment := true) else s;
    if s1.comment then (s1, None)
    else
      var s2 := if s1.val == "" then s1.(token := Token(s1.line, "")) else s1;
      if s2.val == "" && ch == '"' then (s2.(quoted := true), None)
      else if s2.val == "" && ch == '`' then (s2.(btQuoted := true), None)
      else (s2.(val := s2.val + (if s2.escaped then "\\" else "") + [ch], escaped := false), None)
  }

  function ToSeq(o: Option<Token>): seq<Token> {
    if o.None? then [] else [o.value]
  }

  /** The state after reading `text`, and the tokens emitted on the way. */
  function Feed(s: Scan, text: string): (Scan, seq<Token>)
    decreases |text|
  {
    if text == "" then (s, [])
    else
      var (s1, o) := Step(s, text[0]);
      var (s2, ts) := Feed(s1, text[1..]);
      (s2, ToSeq(o) + ts)
  }

  /** The tokens of `text` when `text` is all that is left: the end of input ends a word. */
  function Tokens(s: Scan, text: string): seq<Token> {
    var (s1, ts) := Feed(s, text);
    ts + (if s1.val != "" then [s1.Emit().1.value] else [])
  }

  lemma {:induction false} FeedConcat(s: Scan, a: string, b: string)
    ensures Feed(s, a + b) ==
            (Feed(Feed(s, a).0, b).0, Feed(s, a).1 + Feed(Feed(s, a).0, b).1)
    decreases |a|
  {
    if a == "" {
      assert a + b == b;
      assert [] + Feed(s, b).1 == Feed(s, b).1;
    } else {
      assert (a + b)[1..] == a[1..] + b;
      var (s1, o) := Step(s, (a + b)[0]);
      FeedConcat(s1, a[1..], b);
      var (s2, ts) := Feed(s1, a[1..]);
      assert ToSeq(o) + (ts + Feed(s2, b).1) == (ToSeq(o) + ts) + Feed(s2, b).1;
    }
  }

  lemma FeedSilent(s: Scan, text: string)
    requires text != "" && Step(s, text[0]).1.None?
    ensures Feed(s, text) == Feed(Step(s, text[0]).0, text[1..])
  {
    var (s2, ts) := Feed(Step(s, text[0]).0, text[1..]);
    assert [] + ts == ts;
  }

  lemma FeedAfterSilence(s: Scan, a: string, s1: Scan, b: string)
    requires Feed(s, a) == (s1, [])
    ensures Feed(s, a + b) == Feed(s1, b)
  {
    FeedConcat(s, a, b);
    assert [] + Feed(s1, b).1 == Feed(s1, b).1;
  }

  lemma FeedOne(s: Scan, c: char)
    ensures Feed(s, [c]) == (Step(s, c).0, ToSeq(Step(s, c).1))
  {
    assert [c][1..] == "" && [c][0] == c;
    assert ToSeq(Step(s, c).1) + [] == ToSeq(Step(s, c).1);
  }

  // ----- Line accounting -----

  ghost function LineSum(s: Scan): nat {
    s.line + s.skipped
  }

  /** Every newline read is counted exactly once, in `line` or in `skippedLines`. */
  lemma StepCountsLines(s: Scan, ch: char)
    ensures LineSum(Step(s, ch).0) == LineSum(s) + (if ch == '\n' then 1 else 0)
    ensures Step(s, ch).0.line >= s.line
  {
  }

  lemma {:induction false} FeedCountsLines(s: Scan, text: string)
    ensures LineSum(Feed(s, text).0) == LineSum(s) + Newlines(text)
    ensures Feed(s, text).0.line >= s.line
    decreases |text|
  {
    if text != "" {
      StepCountsLines(s, text[0]);
      FeedCountsLines(Step(s, text[0]).0, text[1..]);
    }
  }

  /** Line numbers of a token stream do not decrease, and stay between `lo` and `hi`. */
  ghost predicate LinesAscend(ts: seq<Token>, lo: nat, hi: nat) {
    && (forall i :: 0 <= i < |ts| ==> lo <= ts[i].line <= hi)
    && (forall i, j :: 0 <= i <= j < |ts| ==> ts[i].line <= ts[j].line)
  }

  /** A word in progress was started on the line recorded in `token`. */
  ghost predicate WordStarted(s: Scan) {
    s.val != "" || s.quoted || s.btQuoted ==> s.token.line <= s.line
  }

  lemma {:induction false} FeedLinesAscend(s: Scan, text: string)
    requires WordStarted(s)
    ensures WordStarted(Feed(s, text).0)
    ensures LinesAscend(Feed(s, text).1, WordLine(s), WordLine(Feed(s, text).0))
    ensures WordLine(s) <= WordLine(Feed(s, text).0)
    decreases |text|
  {
    if text != "" {
      StepLinesAscend(s, text[0]);
      FeedLinesAscend(Step(s, text[0]).0, text[1..]);
    }
  }

  lemma StepLinesAscend(s: Scan, ch: char)
    requires WordStarted(s)
    ensures WordStarted(Step(s, ch).0)
    ensures WordLine(s) <= WordLine(Step(s, ch).0)
    ensures Step(s, ch).1.Some? ==> WordLine(s) == Step(s, ch).1.value.line
  {
  }

  /** The least line the next token can carry. */
  ghost function WordLine(s: Scan): nat {
    if s.val != "" || s.quoted || s.btQuoted then s.token.line else s.line
  }

  // ----- One call of `next` -----

  datatype NextResult = NextResult(ok: bool, scan: Scan, rest: string)

  /** What one call of `next` does to the fields and the reader. */
  function Advance(s: Scan, text: string): NextResult
    decreases |text|
  {
    if text == "" then
      if s.val != "" then NextResult(true, s.Emit().0, "") else NextResult(false, s.Restart(), "")
    else
      var (s1, o) := Step(s, text[0]);
      if o.Some? then NextResult(true, s1, text[1..]) else Advance(s1, text[1..])
  }

  /** Calling `next` until it returns false lists exactly `Tokens`. */
  lemma {:induction false} AdvanceTokens(s: Scan, text: string)
    ensures var r := Advance(s, text);
            && Tokens(s, text) == (if r.ok then [r.scan.token] + Tokens(r.scan, r.rest) else [])
            && r.scan == r.scan.Restart()
            && (if text == "" then r.rest == "" else |r.rest| < |text|)
    decreases |text|
  {
    if text != "" {
      var (s1, o) := Step(s, text[0]);
      AdvanceTokens(s1, text[1..]);
      TokensStep(s, text);
      StepRestarts(s, text[0]);
    }
  }

  lemma StepRestarts(s: Scan, ch: char)
    ensures var (s1, o) := Step(s, ch); o.Some? ==> s1 == s1.Restart() && s1.token == o.value
  {
  }

  lemma TokensStep(s: Scan, text: string)
    requires text != ""
    ensures Tokens(s, text) == ToSeq(Step(s, text[0]).1) + Tokens(Step(s, text[0]).0, text[1..])
  {
  }

  /** After a call, `line + skippedLines` has grown by the newlines consumed. */
  lemma {:induction false} AdvanceCountsLines(s: Scan, text: string)
    ensures var r := Advance(s, text);
            && |r.rest| <= |text| && r.rest == text[|text| - |r.rest|..]
            && LineSum(r.scan) == LineSum(s) + Newlines(text[..|text| - |r.rest|])
            && r.scan.line >= s.line
    decreases |text|
  {
    if text != "" {
      var (s1, o) := Step(s, text[0]);
      StepCountsLines(s, text[0]);
      if o.Some? {
        assert text[..1] == [text[0]];
        assert Newlines(text[..1]) == (if text[0] == '\n' then 1 else 0) + Newlines(text[..1][1..]);
      } else {
        AdvanceCountsLines(s1, text[1..]);
        var r := Advance(s, text);
        var n := |text| - |r.rest|;
        assert text[..n][1..] == text[1..][..n - 1];
      }
    }
  }

  class Lexer {
    var reader: string  // what is still to be read
    var token: Token
    var line: nat
    var skippedLines: nat

    constructor ()
      ensures reader == "" && token == Token(0, "") && line == 0 && skippedLines == 0
    {
      reader, token, line, skippedLines := "", Token(0, ""), 0, 0;
    }

    /** The fields, with the locals of `next` as they are on entry. */
    function Fields(): Scan
      reads this
    {
      Scan("", false, false, false, false, token, line, skippedLines)
    }

    /** load: fails on empty input, discards one leading byte order mark. */
    method Load(input: string) returns (ok: bool)
      modifies this
      ensures ok <==> input != ""
      ensures line == 1 && skippedLines == old(skippedLines) && token == old(token)
      ensures ok ==> reader == SkipByteOrderMark(input)
    {
      reader, line := input, 1;
      if reader == "" {
        return false;
      }
      var firstCh := reader[0];
      reader := reader[1..];
      if firstCh != BYTE_ORDER_MARK {
        reader := [firstCh] + reader;
        assert reader == input;
      }
      return true;
    }

    /** next */
    method Next() returns (ok: bool)
      modifies this
      ensures var r := Advance(old(Fields()), old(reader));
              ok == r.ok && Fields() == r.scan && reader == r.rest
    {
      var val := "";
      var comment, quoted, btQuoted, escaped := false, false, false, false;
      ghost var scan := Fields();
      while true
        invariant scan == Scan(val, comment, quoted, btQuoted, escaped, token, line, skippedLines)
        invariant Advance(old(Fields()), old(reader)) == Advance(scan, reader)
        decreases |reader|
      {
        if reader == "" {
          if |val| > 0 {
            token := Token(token.line, val);
            return true;
          }
          return false;
        }
        var ch := reader[0];
        reader := reader[1..];
        scan := Step(scan, ch).0;

        if !escaped && !btQuoted && ch == '\\' {
          escaped := true;
          continue;
        }

        if quoted || btQuoted {
          if quoted && escaped {
            // only quotes can be escaped inside quotes
            if ch != '"' {
              val := val + "\\";
            }
            escaped := false;
          } else {
            if quoted && ch == '"' {
              token := Token(token.line, val);
              return true;
            }
            if btQuoted && ch == '`' {
              token := Token(token.line, val);
              return true;
            }
          }
          if ch == '\n' {
            line, skippedLines := line + 1 + skippedLines, 0;
          }
          val := val + [ch];
          continue;
        }

        if IsSpace(ch) {
          if ch == '\r' {
            continue;
          }
          if ch == '\n' {
            if escaped {
              skippedLines := skippedLines + 1;
              escaped := false;
            } else {
              line, skippedLines := line + 1 + skippedLines, 0;
            }
            comment := false;
          }
          if |val| > 0 {
            token := Token(token.line, val);
            return true;
          }
          continue;
        }

        if ch == '#' && |val| == 0 {
          comment := true;
        }
        if comment {
          continue;
        }

        if |val| == 0 {
          token := Token(line, "");
          if ch == '"' {
            quoted := true;
            continue;
          }
          if ch == '`' {
            btQuoted := true;
            continue;
          }
        }

        if escaped {
          val := val + "\\";
          escaped := false;
        }
        val := val + [ch];
      }
    }
  }

  function SkipByteOrderMark(text: string): string {
    if text != "" && text[0] == BYTE_ORDER_MARK then text[1..] else text
  }

  /** allTokens: None is the error of an empty input. */
  function AllTokens(text: string): Option<seq<Token>> {
    if text == "" then None else Some(Tokens(Start(), SkipByteOrderMark(text)))
  }

  method ReadAllTokens(text: string) returns (r: Option<seq<Token>>)
    ensures r == AllTokens(text)
  {
    var l := new Lexer();
    var ok := l.Load(text);
    if !ok {
      return None;
    }
    var tokens := [];
    assert l.Fields() == Start();
    ghost var all := Tokens(l.Fields(), l.reader);
    AdvanceTokens(l.Fields(), l.reader);
    var more := l.Next();
    while more
      invariant tokens + (if more then [l.token] + Tokens(l.Fields(), l.reader) else []) == all
      decreases more, |l.reader|
    {
      ConcatAssociative(tokens, [l.token], Tokens(l.Fields(), l.reader));
      tokens := tokens + [l.token];
      AdvanceTokens(l.Fields(), l.reader);
      more := l.Next();
    }
    assert tokens + [] == tokens;
    r := Some(tokens);
  }

  /** Token lines of a whole input never decrease, and the newlines of the input bound them. */
  lemma AllTokensLines(text: string)
    requires text != ""
    ensures LinesAscend(AllTokens(text).value, 1, 1 + Newlines(text))
  {
    var body := SkipByteOrderMark(text);
    assert Newlines(body) == Newlines(text);
    var (s, ts) := Feed(Start(), body);
    FeedLinesAscend(Start(), body);
    FeedCountsLines(Start(), body);
  }
}
