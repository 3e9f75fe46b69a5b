/** Label paths and the blocks they stand for, spelled out (parsePath and getOrCreateBlock,
    caddyfile/fromlabels.go). */
module LabelPaths {
  import opened Runes
  import opened Digits
  import opened Seqs
  import opened Listings
  import opened Trees
  import opened SiblingOrder
  import opened LabelTrees
  import opened Labels

  // ----- Dots, escaped and not -----

  /** A name as it is written in a label: its dots escaped. */
  function Escaped(name: string): string {
    ReplaceAll(name, '.', "\\.")
  }

  lemma {:induction false} EscapeRoundTrip(path: string)
    requires NoNul(path)
    ensures ReplaceAll(EscapeDots(path), NUL, "\\.") == path
    decreases |path|
  {
    if path != "" {
      assert path[0] != NUL;
      if |path| >= 2 && path[0] == '\\' && path[1] == '.' {
        assert NoNul(path[2..]);
        EscapeRoundTrip(path[2..]);
        assert ([NUL] + EscapeDots(path[2..]))[1..] == EscapeDots(path[2..]);
        assert path == "\\." + path[2..];
      } else {
        assert NoNul(path[1..]);
        EscapeRoundTrip(path[1..]);
        assert ([path[0]] + EscapeDots(path[1..]))[1..] == EscapeDots(path[1..]);
      }
    }
  }

  /** Not followed by what would become an escape. */
  predicate Closed(s: string) {
    s == "" || s[|s| - 1] != '\\'
  }

  lemma {:induction false} EscapeConcat(a: string, b: string)
    requires Closed(a)
    ensures EscapeDots(a + b) == EscapeDots(a) + EscapeDots(b)
    decreases |a|
  {
    if a == "" {
      assert a + b == b;
    } else if |a| >= 2 && a[0] == '\\' && a[1] == '.' {
      assert (a + b)[2..] == a[2..] + b;
      EscapeConcat(a[2..], b);
      ConcatAssociative([NUL], EscapeDots(a[2..]), EscapeDots(b));
    } else {
      assert (a + b)[1..] == a[1..] + b;
      EscapeConcat(a[1..], b);
      ConcatAssociative([a[0]], EscapeDots(a[1..]), EscapeDots(b));
    }
  }

  lemma {:induction false} EscapedName(name: string)
    requires NoNul(name) && !Contains(name, '\\')
    ensures EscapeDots(Escaped(name)) == ReplaceAll(name, '.', [NUL])
    ensures Closed(Escaped(name)) && ReplaceAll(ReplaceAll(name, '.', [NUL]), NUL, ".") == name
    decreases |name|
  {
    if name != "" {
      var c, rest := name[0], name[1..];
      assert c != NUL && c != '\\';
      assert NoNul(rest) && !Contains(rest, '\\');
      EscapedName(rest);
      if c == '.' {
        assert ("\\." + Escaped(rest))[2..] == Escaped(rest);
        assert ([NUL] + ReplaceAll(rest, '.', [NUL]))[1..] == ReplaceAll(rest, '.', [NUL]);
      } else {
        assert ([c] + Escaped(rest))[1..] == Escaped(rest);
        assert ([c] + ReplaceAll(rest, '.', [NUL]))[1..] == ReplaceAll(rest, '.', [NUL]);
      }
    }
  }

  lemma {:induction false} LastDotOf(a: string, b: string)
    requires !Contains(b, '.')
    ensures LastDot(b) == -1 && LastDot(a + "." + b) == |a|
    decreases |b|
  {
    var s := a + "." + b;
    if b == "" {
      assert s[|s| - 1] == '.';
    } else {
      var n := |b| - 1;
      assert s[|s| - 1] == b[n] && s[..|s| - 1] == a + "." + b[..n];
      assert !Contains(b[..n], '.');
      LastDotOf(a, b[..n]);
    }
  }

  // ----- Names and order numbers -----

  /** A name that is not mistaken for a number or cut short. */
  predicate Proper(name: string) {
    name != "" && !Contains(name, '_') && !Contains(name, '\\') && NoNul(name) && !AllDigits(name)
  }

  /** What may stand in front of a name, and after it. */
  predicate OrderText(o: string) {
    o == "" || (|o| > 1 && AllDigits(o[..|o| - 1]) && o[|o| - 1] == '_')
  }

  predicate SuffixText(t: string) {
    t == "" || (t[0] == '_' && AllDigits(t[1..]))
  }

  /** The Order that a number in front of a name stands for: the number, but no more than a 64-bit integer; without
      a number the largest 32-bit one. */
  function OrderOfText(o: string): int
    requires OrderText(o)
  {
    if o == "" then 2147483647
    else
      var n: int := DigitsValue(o[..|o| - 1]);
      if n > 9223372036854775807 then 9223372036854775807 else n
  }

  predicate PlainName(w: string) {
    w != "" && !Contains(w, '_') && !AllDigits(w)
  }

  lemma NumberInFront(o: string, w: string, t: string)
    requires o != "" && OrderText(o) && PlainName(w)
    ensures var s := o + w + t; SegmentOrder(s) == OrderOfText(o) && Rest(s) == w + t
  {
    var s, m := o + w + t, |o| - 1;
    assert s[..m] == o[..m] && s[m] == '_' && s[m + 1..] == w + t;
    NoOrder(s, m);
  }

  lemma NoNumber(w: string, t: string)
    requires PlainName(w) && SuffixText(t)
    ensures var s := w + t; SegmentOrder(s) == 2147483647 && Rest(s) == s
  {
    var s := w + t;
    var i :| 0 <= i < |w| && !IsDigit(w[i]);
    var n := LeadingDigits(s);
    assert n <= i && s[n] == w[n] by {
      assert s[i] == w[i];
    }
  }

  lemma {:induction false} NotCutShort(w: string, t: string)
    requires !Contains(w, '_')
    ensures forall m :: 1 <= m < |w| ==> !IsSuffix((w + t)[m..])
  {
    forall m | 1 <= m < |w| ensures !IsSuffix((w + t)[m..]) {
      assert (w + t)[m..][0] == w[m];
    }
  }

  lemma NameFound(s: string, w: string, t: string)
    requires s != "" && Rest(s) == w + t && PlainName(w) && SuffixText(t)
    ensures SegmentName(s) == w
  {
    var r, name := w + t, SegmentName(s);
    NotCutShort(w, t);
    NameMatch(s);
    assert r[|w|..] == t && r[..|w|] == w;
  }

  /** Number, name and suffix of a segment. */
  lemma SegmentParts(o: string, w: string, t: string)
    requires OrderText(o) && PlainName(w) && SuffixText(t)
    ensures var s := o + w + t; s != "" && SegmentOrder(s) == OrderOfText(o) && SegmentName(s) == w
  {
    if o == "" {
      NoNumber(w, t);
      assert o + w + t == w + t;
    } else {
      NumberInFront(o, w, t);
    }
    NameFound(o + w + t, w, t);
  }

  lemma {:induction false} NulName(name: string)
    requires Proper(name)
    ensures PlainName(ReplaceAll(name, '.', [NUL])) && !Contains(ReplaceAll(name, '.', [NUL]), '.')
  {
    ReplaceEach(name);
    var w := ReplaceAll(name, '.', [NUL]);
    assert !Contains(w, '_') && !Contains(w, '.');
    var i :| 0 <= i < |name| && !IsDigit(name[i]);
    assert !IsDigit(w[i]);
  }

  lemma {:induction false} ReplaceEach(name: string)
    ensures var w := ReplaceAll(name, '.', [NUL]);
            |w| == |name| && forall i :: 0 <= i < |w| ==> w[i] == if name[i] == '.' then NUL else name[i]
    decreases |name|
  {
    if name != "" {
      ReplaceEach(name[1..]);
    }
  }

  // ----- Paths -----

  /** The label path of a block below a parent: its name with dots escaped, a number in front or not, and a suffix
      or not. */
  function PathText(parent: string, o: string, name: string, t: string): string {
    parent + "." + (o + Escaped(name) + t)
  }

  lemma SegmentEscaped(o: string, name: string, t: string)
    requires OrderText(o) && SuffixText(t) && Proper(name)
    ensures var w := ReplaceAll(name, '.', [NUL]);
            EscapeDots(o + Escaped(name) + t) == o + w + t && !Contains(o + w + t, '.')
  {
    EscapedName(name);
    NulName(name);
    NoEscapes(o);
    NoEscapes(t);
    EscapeThree(o, Escaped(name), t);
    NoDots(o, ReplaceAll(name, '.', [NUL]), t);
  }

  lemma EscapeThree(a: string, b: string, c: string)
    requires Closed(a) && Closed(b) && EscapeDots(a) == a && EscapeDots(c) == c
    ensures EscapeDots(a + b + c) == a + EscapeDots(b) + c
  {
    EscapeConcat(a, b + c);
    EscapeConcat(b, c);
    ConcatAssociative(a, b, c);
    ConcatAssociative(a, EscapeDots(b), c);
  }

  lemma NoDots(a: string, b: string, c: string)
    requires !Contains(a, '.') && !Contains(b, '.') && !Contains(c, '.')
    ensures !Contains(a + b + c, '.')
  {
  }

  /** Digits and an underscore. */
  lemma NoEscapes(s: string)
    requires OrderText(s) || SuffixText(s)
    ensures EscapeDots(s) == s && Closed(s) && !Contains(s, '.')
  {
    forall i | 0 <= i < |s| ensures s[i] != '\\' && s[i] != '.' {
      if OrderText(s) {
        assert i < |s| - 1 ==> IsDigit(s[..|s| - 1][i]);
      } else {
        assert i > 0 ==> IsDigit(s[1..][i - 1]);
      }
    }
    EscapeNothing(s);
  }

  lemma {:induction false} EscapeNothing(s: string)
    requires !Contains(s, '\\')
    ensures EscapeDots(s) == s
    decreases |s|
  {
    if s != "" {
      assert s[0] != '\\';
      assert !Contains(s[1..], '\\');
      EscapeNothing(s[1..]);
    }
  }

  /** The path is taken apart into what it was put together from. */
  lemma PathParts(parent: string, o: string, name: string, t: string)
    requires parent != "" && NoNul(parent) && Closed(parent) && !Contains(EscapeDots(parent), '\n')
    requires OrderText(o) && SuffixText(t) && Proper(name)
    ensures var path := PathText(parent, o, name, t);
            ParentPath(path) == parent && OrderOf(path) == OrderOfText(o) && NameOf(path) == name
  {
    var path, w := PathText(parent, o, name, t), ReplaceAll(name, '.', [NUL]);
    var segment := o + w + t;
    SegmentEscaped(o, name, t);
    PathEscaped(parent, o + Escaped(name) + t, segment);
    EscapedNotEmpty(parent);
    Taken(EscapeDots(path), EscapeDots(parent), segment);
    EscapeRoundTrip(parent);
    EscapedName(name);
    NulName(name);
    SegmentParts(o, w, t);
  }

  /** At the top there is no parent; the name is the label prefix then. */
  lemma TopPathParts(o: string, name: string, t: string)
    requires OrderText(o) && SuffixText(t) && Proper(name)
    ensures var path := o + Escaped(name) + t;
            ParentPath(path) == "" && OrderOf(path) == OrderOfText(o) && NameOf(path) == name
  {
    var w := ReplaceAll(name, '.', [NUL]);
    var segment := o + w + t;
    SegmentEscaped(o, name, t);
    EscapedName(name);
    NulName(name);
    SegmentParts(o, w, t);
    TopTaken(segment);
    TopParent(o + Escaped(name) + t);
  }

  lemma TopTaken(segment: string)
    requires !Contains(segment, '.')
    ensures LastDot(segment) == -1 && Segment(segment) == segment && (segment != "" ==> Matchable(segment))
  {
    LastDotOf("", segment);
    assert segment[0..] == segment;
  }

  lemma TopParent(path: string)
    requires LastDot(EscapeDots(path)) == -1
    ensures ParentPath(path) == ""
  {
  }

  lemma Taken(e: string, a: string, segment: string)
    requires e == a + "." + segment && a != "" && !Contains(a, '\n') && !Contains(segment, '.')
    ensures BeforeLastDot(e) == a && Segment(e) == segment && (segment != "" ==> Matchable(e))
  {
    LastDotOf(a, segment);
    assert e[..|a|] == a && e[|a| + 1..] == segment;
  }

  lemma EscapedNotEmpty(path: string)
    requires path != ""
    ensures EscapeDots(path) != ""
  {
  }

  lemma PathEscaped(parent: string, text: string, segment: string)
    requires Closed(parent) && EscapeDots(text) == segment
    ensures EscapeDots(parent + "." + text) == EscapeDots(parent) + "." + segment
  {
    EscapeConcat(parent, "." + text);
    assert ("." + text)[1..] == text && ("." + text)[0] == '.';
    assert parent + "." + text == parent + ("." + text);
    assert EscapeDots(parent) + "." + segment == EscapeDots(parent) + ("." + segment);
  }

  // ----- The tree -----

  /** The blocks of a label set: one for each label and each of its parents, below the block of its parent; with its
      Order; and for keys its name, unless it is at the top, and the words of its value. */
  lemma FromLabelsTree(labels: map<string, string>, keys: seq<string>, template: Template)
    returns (bs: seq<Named>, headers: Headers)
    requires Lists(keys, labels) && WellFormedLabels(labels) && FromLabels(labels, keys, template).Some?
    ensures forall k :: k in keys ==> Rooted(k, ParentPath)
    ensures Complete(bs, "", Closure(keys, ParentPath))
    ensures FromLabels(labels, keys, template).value == Render(bs, headers)
    ensures forall p :: headers(p).order == OrderOf(p)
    ensures forall k :: k in labels ==> template(labels[k]).Some?
    ensures forall p :: headers(p).keys ==
              (if ParentPath(p) == "" then [] else [NameOf(p)])
              + (if p in labels then ParseArgs(template(labels[p]).value) else [])
  {
    IterationRooted(keys, labels);
    ArgumentsPresent(labels, keys, template);
    var arguments := ArgumentsOf(labels, template);
    OneOrder(keys, ParentPath, arguments);
    var b := AddLabels(Some(Building([], map[])), keys, ParentPath, arguments).value;
    bs, headers := b.blocks, HeadersOf(b.args);
  }

  /** A sibling of the same kind with a number below 2147483647 in front of its name comes before one without. */
  lemma NumberedFirst(a: Tree, b: Tree, parent: string, o: string, name: string, t: string, name': string, t': string)
    requires parent != "" && NoNul(parent) && Closed(parent) && !Contains(EscapeDots(parent), '\n')
    requires o != "" && OrderText(o) && DigitsValue(o[..|o| - 1]) < 2147483647
    requires SuffixText(t) && SuffixText(t') && Proper(name) && Proper(name')
    requires a.order == OrderOf(PathText(parent, o, name, t)) && b.order == OrderOf(PathText(parent, "", name', t'))
    requires Kind(a.keys) == Kind(b.keys)
    ensures Compare(a, b) < 0
  {
    PathParts(parent, o, name, t);
    PathParts(parent, "", name', t');
    CompareExact(a, b);
  }
}
