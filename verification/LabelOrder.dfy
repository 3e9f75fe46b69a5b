/** Labels for which the order in which Go goes through them shows in the generated Caddyfile: two label
    groups for one site, one of which has the same directive twice. */
module LabelOrders {
  import opened Runes
  import opened Seqs
  import opened Listings
  import opened Lexing
  import opened Trees
  import opened Sorting
  import opened Writing
  import opened RoundTrips
  import opened Merging
  import opened MergeLaws
  import opened MergeShuffles
  import opened MergeOrders
  import opened Processing
  import opened LabelTrees
  import opened LabelPlaces
  import opened Labels
  import opened LabelPaths
  import opened WholeGenerator

  // ----- Plain label paths -----

  /** Nothing that is escaped or split. */
  predicate PlainSegment(s: string) {
    s != "" && !Contains(s, '\\') && !Contains(s, NUL) && !Contains(s, '.') && !Contains(s, '\n')
  }

  lemma PlainTop(path: string)
    requires PlainSegment(path)
    ensures ParentPath(path) == "" && WellFormedPath(path) && NameKeys(path) == []
    ensures OrderOf(path) == SegmentOrder(path)
  {
    EscapeNothing(path);
    LastDotOf("", path);
    assert path[0..] == path && ReplaceAll("", NUL, "\\.") == "";
  }

  lemma PlainSplit(parent: string, segment: string)
    requires PlainSegment(parent) && PlainSegment(segment)
    ensures var e := EscapeDots(parent + "." + segment);
            LastDot(e) == |parent| && Segment(e) == segment && BeforeLastDot(e) == parent
  {
    var path := parent + "." + segment;
    PlainPath(parent, segment);
    EscapeNothing(path);
    LastDotOf(parent, segment);
    assert path[..|parent|] == parent && path[|parent| + 1..] == segment;
  }

  lemma PlainChild(parent: string, segment: string)
    requires PlainSegment(parent) && PlainSegment(segment)
    ensures var path := parent + "." + segment;
            && ParentPath(path) == parent && WellFormedPath(path)
            && OrderOf(path) == SegmentOrder(segment)
            && NameOf(path) == ReplaceAll(SegmentName(segment), NUL, ".")
  {
    var path := parent + "." + segment;
    PlainTop(parent);
    PlainPath(parent, segment);
    PlainSplit(parent, segment);
    ReplaceAllAbsent(parent, NUL, "\\.");
    assert ParentPath(path) == parent;
    ParentShorter(path);
  }

  lemma PlainPath(parent: string, segment: string)
    requires PlainSegment(parent) && PlainSegment(segment)
    ensures !Contains(parent + "." + segment, '\\') && NoNul(parent + "." + segment)
  {
  }

  // ----- Building the tree in two orders -----

  /** Two groups g and h with the same argument, and two directives of group g. */
  datatype Paths4 = Paths4(g: string, k: string, l: string, h: string)

  ghost predicate Groups(p: Paths4, up: Up) {
    && up(p.g) == "" && up(p.h) == "" && up(p.k) == p.g && up(p.l) == p.g
    && p.g != "" && |p.g| < |p.k| && |p.g| < |p.l| && p.h != ""
    && p.g != p.h && p.k != p.l && p.h != p.k && p.h != p.l
  }

  lemma OnePath(b: Named)
    ensures Paths([b]) == PathsOf(b)
  {
    assert [b][1..] == [] && Paths([]) == {};
  }

  lemma TwoPaths(a: Named, b: Named)
    ensures Paths([a, b]) == PathsOf(a) + PathsOf(b)
  {
    OnePath(b);
    assert [a, b][1..] == [b];
  }

  lemma NewTop(b: Building, path: string, up: Up, arguments: Arguments, args: seq<string>)
    requires Rooted(path, up) && path !in Paths(b.blocks) && path !in b.args && arguments(path) == Some(args)
    requires up(path) == ""
    ensures AddLabel(b, path, up, arguments) == Some(Building(b.blocks + [Named(path, [])], b.args[path := args]))
  {
    assert [] + args == args;
  }

  lemma NewBelow(b: Building, path: string, up: Up, arguments: Arguments, args: seq<string>)
    requires Rooted(path, up) && path !in Paths(b.blocks) && path !in b.args && arguments(path) == Some(args)
    requires up(path) != "" && up(path) in Paths(b.blocks)
    ensures AddLabel(b, path, up, arguments)
            == Some(Building(AddUnder(b.blocks, up(path), Named(path, [])), b.args[path := args]))
  {
    assert GetOrCreate(b.blocks, up(path), up) == b.blocks;
    assert [] + args == args;
  }

  /** A new block under the last of the blocks. */
  lemma UnderLast(before: seq<Named>, g: string, kids: seq<Named>, b: Named)
    requires g !in Paths(before) && g !in Paths(kids)
    ensures AddUnder(before + [Named(g, kids)], g, b) == before + [Named(g, kids + [b])]
    decreases |before|
  {
    if before == [] {
      AddUnderAbsent(kids, g, b);
      assert before + [Named(g, kids)] == [Named(g, kids)] && [Named(g, kids)][1..] == [];
    } else {
      AddUnderAbsent(before[0].kids, g, b);
      assert (before + [Named(g, kids)])[1..] == before[1..] + [Named(g, kids)];
      UnderLast(before[1..], g, kids, b);
    }
  }

  ghost function Group(p: Paths4): Named {
    Named(p.g, [Named(p.k, []), Named(p.l, [])])
  }

  ghost predicate GroupArguments(p: Paths4, up: Up, arguments: Arguments, site: seq<string>, more: seq<string>) {
    && Groups(p, up) && Rooted(p.g, up) && Rooted(p.h, up) && Rooted(p.k, up) && Rooted(p.l, up)
    && arguments(p.g) == arguments(p.h) == Some(site) && arguments(p.k) == arguments(p.l) == Some(more)
  }

  ghost function GroupArgs(p: Paths4, site: seq<string>, more: seq<string>): map<string, seq<string>> {
    map[p.g := site, p.k := more, p.l := more, p.h := site]
  }

  /** The labels of group g, after what was built before. */
  lemma AddGroup(b: Building, p: Paths4, up: Up, arguments: Arguments, site: seq<string>, more: seq<string>)
    requires GroupArguments(p, up, arguments, site, more)
    requires Paths(b.blocks) <= {p.h} && b.args.Keys <= {p.h}
    ensures AddLabels(Some(b), [p.g, p.k, p.l], up, arguments)
            == Some(Building(b.blocks + [Group(p)], b.args[p.g := site][p.k := more][p.l := more]))
  {
    var k, l := Named(p.k, []), Named(p.l, []);
    NewTop(b, p.g, up, arguments, site);
    var b1 := Building(b.blocks + [Named(p.g, [])], b.args[p.g := site]);
    AppendPaths(b.blocks, Named(p.g, []));
    NewBelow(b1, p.k, up, arguments, more);
    UnderLast(b.blocks, p.g, [], k);
    assert [] + [k] == [k];
    var b2 := Building(b.blocks + [Named(p.g, [k])], b1.args[p.k := more]);
    AppendPaths(b.blocks, Named(p.g, [k]));
    OnePath(k);
    NewBelow(b2, p.l, up, arguments, more);
    UnderLast(b.blocks, p.g, [k], l);
    assert [k] + [l] == [k, l];
    AddThree(b, p.g, p.k, p.l, up, arguments);
  }

  lemma AddThree(b: Building, x: string, y: string, z: string, up: Up, arguments: Arguments)
    requires Rooted(x, up) && Rooted(y, up) && Rooted(z, up)
    requires AddLabel(b, x, up, arguments).Some?
    requires AddLabel(AddLabel(b, x, up, arguments).value, y, up, arguments).Some?
    ensures AddLabels(Some(b), [x, y, z], up, arguments)
            == AddLabel(AddLabel(AddLabel(b, x, up, arguments).value, y, up, arguments).value, z, up, arguments)
  {
    var b1 := AddLabel(b, x, up, arguments).value;
    var b2 := AddLabel(b1, y, up, arguments).value;
    assert [x, y, z][1..] == [y, z] && [y, z][1..] == [z] && [z][1..] == [];
    assert AddLabels(AddLabel(b2, z, up, arguments), [], up, arguments) == AddLabel(b2, z, up, arguments);
    assert AddLabels(Some(b2), [z], up, arguments) == AddLabel(b2, z, up, arguments);
    assert AddLabels(Some(b1), [y, z], up, arguments) == AddLabels(Some(b2), [z], up, arguments);
  }

  lemma {:induction false} AddLabelsConcat(b: Option<Building>, a: seq<string>, c: seq<string>, up: Up,
                                           arguments: Arguments)
    requires forall k :: k in a + c ==> Rooted(k, up)
    ensures AddLabels(b, a + c, up, arguments) == AddLabels(AddLabels(b, a, up, arguments), c, up, arguments)
    decreases |a|
  {
    if b.Some? && a != [] {
      assert (a + c)[0] == a[0] && (a + c)[1..] == a[1..] + c;
      AddLabelsConcat(AddLabel(b.value, a[0], up, arguments), a[1..], c, up, arguments);
    } else {
      assert a == [] ==> a + c == c;
    }
  }

  lemma AddOne(b: Building, path: string, up: Up, arguments: Arguments)
    requires Rooted(path, up)
    ensures AddLabels(Some(b), [path], up, arguments) == AddLabel(b, path, up, arguments)
  {
    assert [path][1..] == [];
    assert AddLabels(AddLabel(b, path, up, arguments), [], up, arguments) == AddLabel(b, path, up, arguments);
  }

  lemma GroupFirst(p: Paths4, up: Up, arguments: Arguments, site: seq<string>, more: seq<string>)
    requires GroupArguments(p, up, arguments, site, more)
    ensures AddLabels(Some(Building([], map[])), [p.g, p.k, p.l] + [p.h], up, arguments)
            == Some(Building([Group(p), Named(p.h, [])], GroupArgs(p, site, more)))
  {
    var b := Building([], map[]);
    AddGroup(b, p, up, arguments, site, more);
    var b1 := Building([Group(p)], map[p.g := site][p.k := more][p.l := more]);
    assert [] + [Group(p)] == [Group(p)];
    AddLabelsConcat(Some(b), [p.g, p.k, p.l], [p.h], up, arguments);
    OnePath(Group(p));
    TwoPaths(Named(p.k, []), Named(p.l, []));
    NewTop(b1, p.h, up, arguments, site);
    AddOne(b1, p.h, up, arguments);
    assert [Group(p)] + [Named(p.h, [])] == [Group(p), Named(p.h, [])];
    assert b1.args[p.h := site] == GroupArgs(p, site, more);
  }

  lemma GroupLast(p: Paths4, up: Up, arguments: Arguments, site: seq<string>, more: seq<string>)
    requires GroupArguments(p, up, arguments, site, more)
    ensures AddLabels(Some(Building([], map[])), [p.h] + [p.g, p.k, p.l], up, arguments)
            == Some(Building([Named(p.h, []), Group(p)], GroupArgs(p, site, more)))
  {
    var b := Building([], map[]);
    AddLabelsConcat(Some(b), [p.h], [p.g, p.k, p.l], up, arguments);
    NewTop(b, p.h, up, arguments, site);
    AddOne(b, p.h, up, arguments);
    var b1 := Building([Named(p.h, [])], map[p.h := site]);
    assert [] + [Named(p.h, [])] == [Named(p.h, [])];
    OnePath(Named(p.h, []));
    AddGroup(b1, p, up, arguments, site, more);
    assert [Named(p.h, [])] + [Group(p)] == [Named(p.h, []), Group(p)];
    assert b1.args[p.g := site][p.k := more][p.l := more] == GroupArgs(p, site, more);
  }

  // ----- What merging makes of the two trees -----

  function Site(order: int, keys: seq<string>, kids: seq<Tree>): Tree {
    Node(order, keys, kids)
  }

  lemma RenderGroups(p: Paths4, headers: Headers, order: int, site: seq<string>, x: Tree)
    requires headers(p.g) == headers(p.h) == Header(order, site)
    requires headers(p.k) == headers(p.l) == Header(x.order, x.keys) && x.kids == []
    ensures Render([Group(p), Named(p.h, [])], headers) == [Site(order, site, [x, x]), Site(order, site, [])]
    ensures Render([Named(p.h, []), Group(p)], headers) == [Site(order, site, []), Site(order, site, [x, x])]
  {
    var k, l, h := Named(p.k, []), Named(p.l, []), Named(p.h, []);
    assert Render([], headers) == [];
    RenderTwo(k, l, headers);
    RenderTwo(Group(p), h, headers);
    RenderTwo(h, Group(p), headers);
  }

  lemma RenderTwo(a: Named, b: Named, headers: Headers)
    ensures Render([a, b], headers) == [RenderBlock(a, headers), RenderBlock(b, headers)]
  {
    RenderAt([a, b], headers);
  }

  /** If the block with two equal children comes first they stay two; if it is merged, they become one. */
  lemma GroupsMerge(order: int, site: seq<string>, x: Tree)
    requires !IsProxy(Site(order, site, []).FirstKey()) && !IsProxy(x.FirstKey()) && x.kids == []
    ensures var two, none := Site(order, site, [x, x]), Site(order, site, []);
            && Merge([], [two, none]) == [two]
            && Merge([], [none, two]) == [Site(order, site, [x])]
  {
    var two, none := Site(order, site, [x, x]), Site(order, site, []);
    assert Merge([x, x], []) == [x, x];
    MergeTwo([], x, x);
    MergedBlock(x, x);
    MergedBlock(two, none);
    MergedBlock(none, two);
    assert x.keys + [] == x.keys && site + [] == site && Merge([], []) == [];
    MergeOneSame([], x);
    MergeOneSame([x], x);
    assert [MergeBlock(x, x)] + [x][1..] == [x];
    MergeTwo([], two, none);
    MergeTwo([], none, two);
    MergeOneSame([], two);
    MergeOneSame([two], none);
    MergeOneSame([], none);
    MergeOneSame([none], two);
  }

  lemma SortSite(order: int, site: seq<string>, kids: seq<Tree>, x: Tree)
    requires x.kids == [] && forall i :: 0 <= i < |kids| ==> kids[i] == x
    ensures SortForest([Site(order, site, kids)]) == [Site(order, site, kids)]
  {
    LeqTotal(x, x);
    var t := Site(order, site, kids);
    LeqTotal(t, t);
    assert SortedForest([]);
    assert SortedForest(kids);
    SortForestIdentity([t]);
  }

  lemma SiteText(order: int, site: seq<string>, kids: seq<Tree>)
    requires kids != []
    ensures |WriteForest([Site(order, site, kids)], 0)|
            == |WriteKeys(site)| + (if site == [] then 0 else 1) + 4 + |WriteForest(kids, 1)|
  {
    assert [Site(order, site, kids)][1..] == [] && WriteForest([], 0) == "" && |Repeat('\t', 0)| == 0;
  }

  /** The texts differ: the directive is there twice, or once. */
  lemma TextsDiffer(order: int, site: seq<string>, x: Tree)
    requires x.kids == []
    ensures Marshal([Site(order, site, [x, x])]) != Marshal([Site(order, site, [x])])
  {
    SortSite(order, site, [x, x], x);
    SortSite(order, site, [x], x);
    SiteText(order, site, [x, x]);
    SiteText(order, site, [x]);
    assert [x, x][1..] == [x] && [x][1..] == [] && WriteForest([], 1) == "";
    assert |WriteTree(x, 1)| > 0;
  }

  // ----- The labels -----

  /** Two top-level segments with the same Order, and two segments with the same Order and name. */
  predicate SameNames(g: string, h: string, m: string, n: string) {
    && PlainSegment(g) && PlainSegment(h) && PlainSegment(m) && PlainSegment(n)
    && g != h && m != n && SegmentOrder(g) == SegmentOrder(h)
    && SegmentOrder(m) == SegmentOrder(n) && SegmentName(m) == SegmentName(n)
  }

  function PathsOf4(g: string, h: string, m: string, n: string): Paths4 {
    Paths4(g, g + "." + m, g + "." + n, h)
  }

  /** Both groups have the value v, both directives of the first the value w. */
  function GroupLabels(p: Paths4, v: string, w: string): map<string, string> {
    map[p.g := v, p.h := v, p.k := w, p.l := w]
  }

  lemma NamePlain(m: string)
    requires PlainSegment(m)
    ensures ReplaceAll(SegmentName(m), NUL, ".") == SegmentName(m)
  {
    NameMatch(m);
    var name := SegmentName(m);
    var start := |Prefix(m)|;
    forall i | 0 <= i < |name| ensures name[i] != NUL {
      assert name[i] == Rest(m)[i] == m[start + i];
    }
    ReplaceAllAbsent(name, NUL, ".");
  }

  lemma DottedDiffers(g: string, m: string, h: string)
    requires PlainSegment(h)
    ensures g + "." + m != h && |g| < |g + "." + m|
  {
    assert (g + "." + m)[|g|] == '.';
  }

  lemma DottedDistinct(g: string, m: string, n: string)
    requires m != n
    ensures g + "." + m != g + "." + n
  {
    assert (g + "." + m)[|g| + 1..] == m && (g + "." + n)[|g| + 1..] == n;
  }

  lemma GroupPaths(g: string, h: string, m: string, n: string)
    requires SameNames(g, h, m, n)
    ensures var p := PathsOf4(g, h, m, n);
            && Groups(p, ParentPath) && p.g != p.k && p.g != p.l
            && WellFormedPath(p.g) && WellFormedPath(p.h) && WellFormedPath(p.k) && WellFormedPath(p.l)
  {
    PlainTop(g);
    PlainTop(h);
    PlainChild(g, m);
    PlainChild(g, n);
    DottedDiffers(g, m, h);
    DottedDiffers(g, n, h);
    DottedDiffers(g, m, g);
    DottedDiffers(g, n, g);
    DottedDistinct(g, m, n);
  }

  lemma ArgumentAt(labels: map<string, string>, template: Template, path: string, value: string)
    requires path in labels && labels[path] == value && template(value).Some?
    ensures ArgumentsOf(labels, template)(path) == Some(ParseArgs(template(value).value))
  {
  }

  lemma LabelAt(p: Paths4, v: string, w: string) returns (labels: map<string, string>)
    requires Groups(p, ParentPath) && p.g != p.k && p.g != p.l
    ensures labels == GroupLabels(p, v, w) && labels.Keys == {p.g, p.h, p.k, p.l}
    ensures labels[p.g] == labels[p.h] == v && labels[p.k] == labels[p.l] == w
  {
    labels := GroupLabels(p, v, w);
  }

  lemma GroupReady(p: Paths4, v: string, w: string, template: Template)
    requires Groups(p, ParentPath) && p.g != p.k && p.g != p.l && template(v).Some? && template(w).Some?
    requires WellFormedPath(p.g) && WellFormedPath(p.h) && WellFormedPath(p.k) && WellFormedPath(p.l)
    ensures WellFormedLabels(GroupLabels(p, v, w))
    ensures GroupArguments(p, ParentPath, ArgumentsOf(GroupLabels(p, v, w), template),
                           ParseArgs(template(v).value), ParseArgs(template(w).value))
  {
    WellFormedRooted(p.g);
    WellFormedRooted(p.h);
    WellFormedRooted(p.k);
    WellFormedRooted(p.l);
    var labels := LabelAt(p, v, w);
    ArgumentAt(labels, template, p.g, v);
    ArgumentAt(labels, template, p.h, v);
    ArgumentAt(labels, template, p.k, w);
    ArgumentAt(labels, template, p.l, w);
    assert forall k :: k in labels ==> k in {p.g, p.h, p.k, p.l};
  }

  lemma HeaderAt(path: string, args: map<string, seq<string>>)
    requires path in args
    ensures HeadersOf(args)(path) == Header(OrderOf(path), NameKeys(path) + args[path])
  {
  }

  lemma TopHeader(path: string, args: map<string, seq<string>>)
    requires PlainSegment(path) && path in args
    ensures HeadersOf(args)(path) == Header(SegmentOrder(path), args[path])
  {
    HeaderAt(path, args);
    PlainTop(path);
    NothingBefore(args[path]);
  }

  lemma NothingBefore(keys: seq<string>)
    ensures [] + keys == keys
  {
  }

  lemma BelowHeader(parent: string, segment: string, args: map<string, seq<string>>)
    requires PlainSegment(parent) && PlainSegment(segment) && parent + "." + segment in args
    ensures HeadersOf(args)(parent + "." + segment)
            == Header(SegmentOrder(segment), [SegmentName(segment)] + args[parent + "." + segment])
  {
    HeaderAt(parent + "." + segment, args);
    PlainChild(parent, segment);
    NamePlain(segment);
  }

  lemma GroupHeaders(g: string, h: string, m: string, n: string, site: seq<string>, more: seq<string>)
    requires SameNames(g, h, m, n)
    ensures var p := PathsOf4(g, h, m, n);
            var headers := HeadersOf(GroupArgs(p, site, more));
            && headers(p.g) == headers(p.h) == Header(SegmentOrder(g), site)
            && headers(p.k) == headers(p.l) == Header(SegmentOrder(m), [SegmentName(m)] + more)
  {
    var p := PathsOf4(g, h, m, n);
    GroupPaths(g, h, m, n);
    var args := ArgsAt(p, site, more);
    TopHeader(p.g, args);
    TopHeader(p.h, args);
    BelowHeader(p.g, m, args);
    BelowHeader(p.g, n, args);
  }

  lemma ArgsAt(p: Paths4, site: seq<string>, more: seq<string>) returns (args: map<string, seq<string>>)
    requires Groups(p, ParentPath) && p.g != p.k && p.g != p.l
    ensures args == GroupArgs(p, site, more)
    ensures p.g in args && p.h in args && p.k in args && p.l in args
    ensures args[p.g] == args[p.h] == site && args[p.k] == args[p.l] == more
  {
    args := GroupArgs(p, site, more);
  }

  lemma ListsFour<K(!new), V>(a: K, b: K, c: K, d: K, m: map<K, V>)
    requires a != b && a != c && a != d && b != c && b != d && c != d && m.Keys == {a, b, c, d}
    ensures Lists([a, b, c] + [d], m) && Lists([d] + [a, b, c], m)
  {
    var s, t := [a, b, c] + [d], [d] + [a, b, c];
    assert s == [a, b, c, d] && t == [d, a, b, c];
    forall k ensures k in s <==> k in m { assert k in m <==> k in m.Keys; }
    forall k ensures k in t <==> k in m { assert k in m <==> k in m.Keys; }
  }

  lemma GroupListings(p: Paths4, v: string, w: string)
    requires Groups(p, ParentPath) && p.g != p.k && p.g != p.l
    ensures Lists([p.g, p.k, p.l] + [p.h], GroupLabels(p, v, w))
    ensures Lists([p.h] + [p.g, p.k, p.l], GroupLabels(p, v, w))
  {
    ListsFour(p.g, p.k, p.l, p.h, GroupLabels(p, v, w));
  }

  function SiteFirst(order: int, site: seq<string>, x: Tree): seq<Tree> {
    [Site(order, site, [x, x]), Site(order, site, [])]
  }

  function SiteLast(order: int, site: seq<string>, x: Tree): seq<Tree> {
    [Site(order, site, []), Site(order, site, [x, x])]
  }

  lemma GroupAssembled(p: Paths4, arguments: Arguments, headersOf: map<string, seq<string>> -> Headers,
                       order: int, site: seq<string>, more: seq<string>, x: Tree)
    requires GroupArguments(p, ParentPath, arguments, site, more) && x.kids == []
    requires var headers := headersOf(GroupArgs(p, site, more));
             && headers(p.g) == headers(p.h) == Header(order, site)
             && headers(p.k) == headers(p.l) == Header(x.order, x.keys)
    ensures Assemble([p.g, p.k, p.l] + [p.h], ParentPath, arguments, headersOf) == Some(SiteFirst(order, site, x))
    ensures Assemble([p.h] + [p.g, p.k, p.l], ParentPath, arguments, headersOf) == Some(SiteLast(order, site, x))
  {
    GroupFirst(p, ParentPath, arguments, site, more);
    GroupLast(p, ParentPath, arguments, site, more);
    RenderGroups(p, headersOf(GroupArgs(p, site, more)), order, site, x);
  }

  /** The directive, as a block. */
  function Directive(m: string, more: seq<string>): Tree
    requires m != ""
  {
    Node(SegmentOrder(m), [SegmentName(m)] + more, [])
  }

  /** The two readings of the labels. */
  lemma GroupReadings(g: string, h: string, m: string, n: string, v: string, w: string, template: Template)
    requires SameNames(g, h, m, n) && template(v).Some? && template(w).Some?
    ensures var source := LabelSet(GroupLabels(PathsOf4(g, h, m, n), v, w));
            var site, x := ParseArgs(template(v).value), Directive(m, ParseArgs(template(w).value));
            && ReadAs(source, template, Some(SiteFirst(SegmentOrder(g), site, x)))
            && ReadAs(source, template, Some(SiteLast(SegmentOrder(g), site, x)))
  {
    var p, site, more := PathsOf4(g, h, m, n), ParseArgs(template(v).value), ParseArgs(template(w).value);
    var labels := GroupLabels(p, v, w);
    GroupPaths(g, h, m, n);
    GroupReady(p, v, w, template);
    GroupListings(p, v, w);
    GroupHeaders(g, h, m, n, site, more);
    GroupAssembled(p, ArgumentsOf(labels, template), HeadersOf, SegmentOrder(g), site, more, Directive(m, more));
    ReadIn(labels, [p.g, p.k, p.l] + [p.h], template, SiteFirst(SegmentOrder(g), site, Directive(m, more)));
    ReadIn(labels, [p.h] + [p.g, p.k, p.l], template, SiteLast(SegmentOrder(g), site, Directive(m, more)));
  }

  lemma ReadIn(labels: map<string, string>, keys: seq<string>, template: Template, ts: seq<Tree>)
    requires Lists(keys, labels) && WellFormedLabels(labels)
    requires (forall k :: k in keys ==> Rooted(k, ParentPath)) ==>
               Assemble(keys, ParentPath, ArgumentsOf(labels, template), HeadersOf) == Some(ts)
    ensures ReadAs(LabelSet(labels), template, Some(ts))
  {
    IterationRooted(keys, labels);
    assert FromLabels(labels, keys, template) == Some(ts);
  }

  lemma OnlySource(ts: seq<Tree>)
    ensures Accumulate([], Present([Some(ts)])) == Merge([], ts)
  {
    assert [Some(ts)][..0] == [] && [] + [ts] == [ts];
    assert [ts][1..] == [];
  }

  lemma SitesDiffer(order: int, site: seq<string>, x: Tree, accepts: Adapter)
    requires (site == [] || !IsProxy(site[0])) && !IsProxy(x.FirstKey()) && x.kids == []
    ensures Generated(Accumulate([], Present([Some(SiteFirst(order, site, x))])), false, accepts)
            != Generated(Accumulate([], Present([Some(SiteLast(order, site, x))])), false, accepts)
  {
    GroupsMerge(order, site, x);
    OnlySource(SiteFirst(order, site, x));
    OnlySource(SiteLast(order, site, x));
    TextsDiffer(order, site, x);
    TextPresent(order, site, [x, x], x);
    TextPresent(order, site, [x], x);
  }

  lemma TextPresent(order: int, site: seq<string>, kids: seq<Tree>, x: Tree)
    requires kids != [] && x.kids == [] && forall i :: 0 <= i < |kids| ==> kids[i] == x
    ensures Marshal([Site(order, site, kids)]) != ""
  {
    SortSite(order, site, kids, x);
    SiteText(order, site, kids);
  }

  /** Two label groups for one site, and a directive twice in one of them: the generated Caddyfile depends
      on the order in which Go goes through the labels. */
  lemma OrderShows(g: string, h: string, m: string, n: string, v: string, w: string, template: Template,
                   accepts: Adapter)
    returns (input: seq<Tree>, other: seq<Tree>)
    requires SameNames(g, h, m, n) && template(v).Some? && template(w).Some? && !IsProxy(SegmentName(m))
    requires var site := ParseArgs(template(v).value); site == [] || !IsProxy(site[0])
    ensures var source := LabelSet(GroupLabels(PathsOf4(g, h, m, n), v, w));
            ReadAs(source, template, Some(input)) && ReadAs(source, template, Some(other))
    ensures Generated(Accumulate([], Present([Some(input)])), false, accepts)
            != Generated(Accumulate([], Present([Some(other)])), false, accepts)
    ensures !AllBlend(input)
  {
    var site, x := ParseArgs(template(v).value), Directive(m, ParseArgs(template(w).value));
    GroupReadings(g, h, m, n, v, w, template);
    SitesDiffer(SegmentOrder(g), site, x, accepts);
    input, other := SiteFirst(SegmentOrder(g), site, x), SiteLast(SegmentOrder(g), site, x);
    SitesDoNotBlend(SegmentOrder(g), site, x);
  }

  /** One of the blocks has the directive twice, the other not at all. */
  lemma SitesDoNotBlend(order: int, site: seq<string>, x: Tree)
    ensures !AllBlend(SiteFirst(order, site, x))
  {
    var two, none := Site(order, site, [x, x]), Site(order, site, []);
    var ts := SiteFirst(order, site, x);
    assert ts[0] == two && ts[1] == none;
    assert [x, x][1..] == [x] && [x][1..] == [];
    assert |Class([x, x], KeyOf(x))| == 2 && |Class([], KeyOf(x))| == 0;
    assert !Blends(two, none);
  }

  /** For example the groups `caddy_0` and `caddy_1` and the directives `x_0` and `x_1`. */
  lemma SameNamesExample()
    ensures SameNames("caddy_0", "caddy_1", "x_0", "x_1") && SegmentName("x_0") == "x"
  {
    PlainExample("caddy_0");
    PlainExample("caddy_1");
    NamedX("x_0", '0');
    NamedX("x_1", '1');
    assert "caddy_0"[6] != "caddy_1"[6] && "x_0"[2] != "x_1"[2];
  }

  lemma PlainExample(s: string)
    requires s in {"caddy_0", "caddy_1"}
    ensures PlainSegment(s) && SegmentOrder(s) == MAX_INT32
  {
    assert !IsDigit(s[0]) && OrderDigits(s) == 0;
  }

  lemma NamedX(s: string, d: char)
    requires s == ['x', '_', d] && IsDigit(d)
    ensures PlainSegment(s) && SegmentOrder(s) == MAX_INT32 && SegmentName(s) == ['x']
  {
    assert !IsDigit(s[0]) && OrderDigits(s) == 0;
    assert Rest(s) == s && s[2..] == [d] && IsSuffix(s[1..]) by { assert s[1..][1..] == [d]; }
    assert NameLength(s, 1) == 1;
    assert s[..1] == ['x'];
  }
}
