/** What the program takes from Go's `strings`, `unicode` and `strconv` packages.
    Text is a sequence of Unicode scalar values, which is what `bufio.Reader.ReadRune` delivers. */
module Runes {

  /** unicode.IsSpace */
  predicate IsSpace(c: char) {
    || c in {'\t', '\n', '\U{0b}', '\U{0c}', '\r', ' ', '\U{85}', '\U{a0}', '\U{1680}'}
    || '\U{2000}' <= c <= '\U{200a}'
    || c in {'\U{2028}', '\U{2029}', '\U{202f}', '\U{205f}', '\U{3000}'}
  }

  predicate IsDigit(c: char) {
    '0' <= c <= '9'
  }

  predicate Contains(s: string, c: char) {
    exists i :: 0 <= i < |s| && s[i] == c
  }

  predicate HasPrefix(s: string, prefix: string) {
    prefix <= s
  }

  predicate HasSuffix(s: string, suffix: string) {
    |suffix| <= |s| && s[|s| - |suffix|..] == suffix
  }

  predicate NoSpace(s: string) {
    forall i :: 0 <= i < |s| ==> !IsSpace(s[i])
  }

  /** strings.ReplaceAll for a one-character pattern. */
  function ReplaceAll(s: string, c: char, with: string): string {
    if s == "" then ""
    else (if s[0] == c then with else [s[0]]) + ReplaceAll(s[1..], c, with)
  }

  lemma ReplaceAllAbsent(s: string, c: char, with: string)
    requires !Contains(s, c)
    ensures ReplaceAll(s, c, with) == s
  {
    if s != "" {
      assert s[0] != c;
      forall i | 0 <= i < |s[1..]| ensures s[1..][i] != c {
        assert s[1..][i] == s[i + 1];
      }
      ReplaceAllAbsent(s[1..], c, with);
    }
  }

  /** strings.Count(s, "\n") */
  function Newlines(s: string): nat {
    if s == "" then 0 else (if s[0] == '\n' then 1 else 0) + Newlines(s[1..])
  }

  lemma {:induction false} NewlinesConcat(a: string, b: string)
    ensures Newlines(a + b) == Newlines(a) + Newlines(b)
  {
    if a == "" {
      assert a + b == b;
    } else {
      assert (a + b)[1..] == a[1..] + b;
      NewlinesConcat(a[1..], b);
    }
  }

  lemma NoNewlines(s: string)
    requires !Contains(s, '\n')
    ensures Newlines(s) == 0
  {
    if s != "" {
      assert s[0] != '\n';
      forall i | 0 <= i < |s[1..]| ensures s[1..][i] != '\n' {
        assert s[1..][i] == s[i + 1];
      }
      NoNewlines(s[1..]);
    }
  }

  /** strings.Repeat(s, n) for a one-character s. */
  function Repeat(c: char, n: nat): string {
    if n == 0 then "" else [c] + Repeat(c, n - 1)
  }

  /** Go's `<` on strings. On valid UTF-8 the byte order is the order of the scalar values. */
  predicate StringLess(a: string, b: string) {
    b != "" && (a == "" || a[0] < b[0] || (a[0] == b[0] && StringLess(a[1..], b[1..])))
  }

  lemma {:induction false} StringLessTrichotomy(a: string, b: string)
    ensures a == b ==> !StringLess(a, b)
    ensures a != b ==> (StringLess(a, b) <==> !StringLess(b, a))
  {
    if a != "" && b != "" && a[0] == b[0] {
      StringLessTrichotomy(a[1..], b[1..]);
      assert a == [a[0]] + a[1..] && b == [b[0]] + b[1..];
    }
  }

  lemma {:induction false} StringLessTransitive(a: string, b: string, c: string)
    requires StringLess(a, b) && StringLess(b, c)
    ensures StringLess(a, c)
  {
    if a != "" && a[0] == b[0] && b[0] == c[0] {
      StringLessTransitive(a[1..], b[1..], c[1..]);
    }
  }
}
