/** Building the tree from labels (caddyfile/fromlabels.go). */
module Labels {
  import opened Runes
  import opened Seqs
  import opened Lexing
  import opened Trees
  import opened Sorting
  import opened Writing
  import opened LabelTrees
  import opened Listings
  import opened Digits

  const NUL: char := '\0'
  const MAX_INT32: int := 0x7fff_ffff

  // ----- parsePath -----

  /** strings.ReplaceAll(path, `\.`, "\x00") */
  function EscapeDots(path: string): string
    decreases |path|
  {
    if path == "" then ""
    else if |path| >= 2 && path[0] == '\\' && path[1] == '.' then [NUL] + EscapeDots(path[2..])
    else [path[0]] + EscapeDots(path[1..])
  }

  /** The index of the last dot, or -1. */
  function LastDot(s: string): (i: int)
    ensures -1 <= i < |s| && (i >= 0 ==> s[i] == '.')
  {
    if s == "" then -1 else if s[|s| - 1] == '.' then |s| - 1 else LastDot(s[..|s| - 1])
  }

  function Segment(s: string): string {
    s[LastDot(s) + 1..]
  }

  function BeforeLastDot(s: string): string {
    if LastDot(s) < 0 then "" else s[..LastDot(s)]
  }

  /** labelParserRegex matches: a nonempty last segment, and before its dot a nonempty parent on one line. */
  predicate Matchable(s: string) {
    Segment(s) != "" && (LastDot(s) >= 0 ==> BeforeLastDot(s) != "" && !Contains(BeforeLastDot(s), '\n'))
  }

  function LeadingDigits(s: string): (n: nat)
    ensures n <= |s| && forall i :: 0 <= i < n ==> IsDigit(s[i])
  {
    if s == "" || !IsDigit(s[0]) then 0 else 1 + LeadingDigits(s[1..])
  }

  /** The optional `(\d+)_` in front of a nonempty rest: the number of digits, or 0 if it is absent. */
  function OrderDigits(segment: string): (n: nat)
    ensures n > 0 ==> n + 1 < |segment|
    ensures forall i :: 0 <= i < n ==> IsDigit(segment[i])
  {
    var n := LeadingDigits(segment);
    if n > 0 && n + 1 < |segment| && segment[n] == '_' then n else 0
  }

  /** The length of the shortest name that leaves nothing or `_` and digits; names have at least one character. */
  function NameLength(rest: string, from: nat): (n: nat)
    requires 1 <= from <= |rest|
    ensures from <= n <= |rest|
    decreases |rest| - from
  {
    if from == |rest| || (rest[from] == '_' && AllDigits(rest[from + 1..])) then from else NameLength(rest, from + 1)
  }

  /** strconv.Atoi on digits; the range error is ignored and leaves the largest integer. */
  function OrderValue(s: string): int
    requires forall i :: 0 <= i < |s| ==> IsDigit(s[i])
  {
    if DigitsValue(s) > MAX_INT64 then MAX_INT64 else DigitsValue(s)
  }

  function SegmentOrder(segment: string): int {
    var digits := OrderDigits(segment);
    if digits > 0 then OrderValue(segment[..digits]) else MAX_INT32
  }

  function SegmentName(segment: string): string
    requires segment != ""
  {
    Rest(segment)[..NameLength(Rest(segment), 1)]
  }

  /** A `_` and digits, or nothing: what may follow a name. */
  predicate IsSuffix(s: string) {
    s == "" || (s[0] == '_' && AllDigits(s[1..]))
  }

  lemma {:induction false} NameLengthShortest(rest: string, from: nat)
    requires 1 <= from <= |rest|
    ensures var n := NameLength(rest, from);
            IsSuffix(rest[n..]) && forall m :: from <= m < n ==> !IsSuffix(rest[m..])
    decreases |rest| - from
  {
    assert from < |rest| ==> rest[from..][0] == rest[from] && rest[from..][1..] == rest[from + 1..];
    if NameLength(rest, from) != from {
      NameLengthShortest(rest, from + 1);
    }
  }

  lemma {:induction false} DigitsRun(s: string, n: nat)
    requires n <= |s|
    ensures n <= LeadingDigits(s) <==> forall i :: 0 <= i < n ==> IsDigit(s[i])
  {
    if n > 0 && IsDigit(s[0]) {
      DigitsRun(s[1..], n - 1);
      assert forall i :: 0 <= i < n - 1 ==> s[1..][i] == s[i + 1];
      if forall i :: 0 <= i < n ==> IsDigit(s[i]) {
        forall i | 0 <= i < n - 1 ensures IsDigit(s[1..][i]) {
          assert IsDigit(s[i + 1]);
        }
      }
    }
  }

  /** What the regular expression splits off in front of the name. */
  function Prefix(segment: string): string {
    var digits := OrderDigits(segment);
    if digits > 0 then segment[..digits + 1] else ""
  }

  function Rest(segment: string): (rest: string)
    ensures segment == Prefix(segment) + rest
    ensures segment != "" ==> rest != ""
  {
    var digits := OrderDigits(segment);
    if digits > 0 then segment[digits + 1..] else segment
  }

  /** The prefix is an order with `_`, and is there whenever it can be with something behind it. */
  lemma PrefixMatch(segment: string)
    ensures var prefix := Prefix(segment);
            && (prefix == "" || (AllDigits(prefix[..|prefix| - 1]) && prefix[|prefix| - 1] == '_'))
            && SegmentOrder(segment) == if prefix == "" then MAX_INT32 else OrderValue(prefix[..|prefix| - 1])
    ensures Prefix(segment) == "" ==>
              forall m :: 0 < m && m + 1 < |segment| && segment[m] == '_' ==> !AllDigits(segment[..m])
  {
    var n := OrderDigits(segment);
    if n > 0 {
      assert Prefix(segment)[..n] == segment[..n];
      DigitsRun(segment[..n], n);
    } else {
      forall m | 0 < m && m + 1 < |segment| && segment[m] == '_' ensures !AllDigits(segment[..m]) {
        if AllDigits(segment[..m]) {
          NoOrder(segment, m);
        }
      }
    }
  }

  /** The name is the shortest that leaves nothing but a suffix: the match the expression prefers. */
  lemma NameMatch(segment: string)
    requires segment != ""
    ensures var name := SegmentName(segment);
            && name != "" && name <= Rest(segment)
            && IsSuffix(Rest(segment)[|name|..])
            && forall m :: 1 <= m < |name| ==> !IsSuffix(Rest(segment)[m..])
  {
    NameLengthShortest(Rest(segment), 1);
  }

  lemma NoOrder(segment: string, m: nat)
    requires 0 < m && m + 1 < |segment| && segment[m] == '_' && AllDigits(segment[..m])
    ensures OrderDigits(segment) == m
  {
    DigitsRun(segment[..m], m);
    forall i | 0 <= i < m ensures IsDigit(segment[i]) {
      assert segment[..m][i] == segment[i];
    }
    DigitsRun(segment, m);
    DigitsRun(segment, m + 1);
  }

  datatype PathParts = PathParts(parent: string, order: int, name: string)

  function ParsePath(s: string): PathParts
    requires Matchable(s)
  {
    PathParts(BeforeLastDot(s), SegmentOrder(Segment(s)), SegmentName(Segment(s)))
  }

  // ----- getOrCreateBlock -----

  function ParentPath(path: string): string {
    ReplaceAll(BeforeLastDot(EscapeDots(path)), NUL, "\\.")
  }

  predicate NoNul(path: string) {
    !Contains(path, NUL)
  }

  lemma {:induction false} EscapeLength(path: string, n: nat)
    requires NoNul(path) && n < |EscapeDots(path)|
    ensures |ReplaceAll(EscapeDots(path)[..n], NUL, "\\.")| < |path|
    ensures NoNul(ReplaceAll(EscapeDots(path)[..n], NUL, "\\."))
    decreases |path|
  {
    var e := EscapeDots(path);
    if n == 0 {
      assert e[..0] == "";
    } else {
      assert e[..n][0] == e[0];
      if |path| >= 2 && path[0] == '\\' && path[1] == '.' {
        assert e[..n][1..] == EscapeDots(path[2..])[..n - 1];
        assert NoNul(path[2..]);
        EscapeLength(path[2..], n - 1);
        NoNulConcat("\\.", ReplaceAll(e[..n][1..], NUL, "\\."));
      } else {
        assert path[0] != NUL;
        assert e[..n][1..] == EscapeDots(path[1..])[..n - 1];
        assert NoNul(path[1..]);
        EscapeLength(path[1..], n - 1);
        NoNulConcat([path[0]], ReplaceAll(e[..n][1..], NUL, "\\."));
      }
    }
  }

  lemma NoNulConcat(a: string, b: string)
    requires NoNul(a) && NoNul(b)
    ensures NoNul(a + b)
  {
  }

  lemma ParentShorter(path: string)
    requires NoNul(path) && path != ""
    ensures |ParentPath(path)| < |path| && NoNul(ParentPath(path))
  {
    var e := EscapeDots(path);
    if LastDot(e) >= 0 {
      EscapeLength(path, LastDot(e));
    }
  }

  /** A label path getOrCreateBlock can take apart down to its root. */
  predicate WellFormedPath(path: string)
    decreases |path|
  {
    && NoNul(path) && path != "" && Matchable(EscapeDots(path))
    && (ParentShorter(path); ParentPath(path) != "" ==> WellFormedPath(ParentPath(path)))
  }

  /** Of a path that cannot be taken apart nothing is said: the program stops there. */
  function PartsOf(path: string): PathParts {
    var s := EscapeDots(path);
    if Matchable(s) then ParsePath(s) else PathParts("", MAX_INT32, "")
  }

  function OrderOf(path: string): int {
    PartsOf(path).order
  }

  function NameOf(path: string): string {
    ReplaceAll(PartsOf(path).name, NUL, ".")
  }

  /** The keys of a new block: its name, unless it is a top-level block. */
  function NameKeys(path: string): seq<string> {
    if ParentPath(path) == "" then [] else [NameOf(path)]
  }

  /** Going up from a well-formed label path reaches a top-level block. */
  lemma {:induction false} WellFormedRooted(path: string)
    requires WellFormedPath(path)
    ensures Rooted(path, ParentPath)
    decreases |path|
  {
    ParentShorter(path);
    if ParentPath(path) != "" {
      WellFormedRooted(ParentPath(path));
    }
  }

  // ----- FromLabels -----

  /** parseArgs; loading a nonempty text cannot fail. */
  function ParseArgs(text: string): seq<string> {
    if text == "" then [] else Texts(Tokens(Start(), SkipByteOrderMark(text)))
  }

  function Texts(tokens: seq<Token>): seq<string> {
    if tokens == [] then [] else [tokens[0].text] + Texts(tokens[1..])
  }

  /** The Go templates: any function from a label's value to a text or an error. */
  type Template = string -> Option<string>

  function ArgumentsOf(labels: map<string, string>, template: Template): Arguments {
    path =>
      if path !in labels then None
      else
        var text := template(labels[path]);
        if text.None? then None else Some(ParseArgs(text.value))
  }

  /** The order and the keys a block ends up with. */
  function HeadersOf(args: map<string, seq<string>>): Headers {
    path => Header(OrderOf(path), NameKeys(path) + (if path in args then args[path] else []))
  }

  predicate WellFormedLabels(labels: map<string, string>) {
    forall k :: k in labels ==> WellFormedPath(k)
  }

  lemma IterationRooted(keys: seq<string>, labels: map<string, string>)
    requires Lists(keys, labels) && WellFormedLabels(labels)
    ensures forall k :: k in keys ==> Rooted(k, ParentPath)
  {
    forall k | k in keys ensures Rooted(k, ParentPath) {
      WellFormedRooted(k);
    }
  }

  /** FromLabels, going through the labels in the order `keys`; None is the error of a template. */
  ghost function FromLabels(labels: map<string, string>, keys: seq<string>, template: Template): Option<seq<Tree>>
    requires Lists(keys, labels) && WellFormedLabels(labels)
  {
    IterationRooted(keys, labels);
    Assemble(keys, ParentPath, ArgumentsOf(labels, template), HeadersOf)
  }

  lemma ArgumentsPresent(labels: map<string, string>, keys: seq<string>, template: Template)
    requires Lists(keys, labels)
    ensures AllHaveArguments(keys, ArgumentsOf(labels, template)) <==> forall k :: k in labels ==>
              template(labels[k]).Some?
  {
    var arguments := ArgumentsOf(labels, template);
    forall k | k in labels ensures arguments(k).Some? <==> template(labels[k]).Some? {
    }
  }

  lemma ShuffledMarshal(ts: seq<Tree>, us: seq<Tree>)
    requires ShuffledForest(ts, us)
    ensures Marshal(ts) == Marshal(us)
  {
    ShuffledForestSorts(ts, us);
  }

  /** FromLabels followed by Marshal gives the same bytes, or an error, for every iteration order of the
      label map. */
  lemma FromLabelsDeterministic(labels: map<string, string>, keys: seq<string>, others: seq<string>, template: Template)
    requires Lists(keys, labels) && Lists(others, labels) && WellFormedLabels(labels)
    ensures var r, s := FromLabels(labels, keys, template), FromLabels(labels, others, template);
            && (r.Some? <==> s.Some?)
            && (r.Some? <==> forall k :: k in labels ==> template(labels[k]).Some?)
            && (r.Some? ==> ShuffledForest(r.value, s.value) && Marshal(r.value) == Marshal(s.value))
  {
    IterationRooted(keys, labels);
    ArgumentsPresent(labels, keys, template);
    var arguments := ArgumentsOf(labels, template);
    AnyOrder(keys, others, ParentPath, arguments, HeadersOf);
    var r, s := Assemble(keys, ParentPath, arguments, HeadersOf), Assemble(others, ParentPath, arguments, HeadersOf);
    if r.Some? {
      ShuffledMarshal(r.value, s.value);
    }
  }
}
