/** Which two blocks are merged, and into what, spelled out (caddyfile/merge.go). */
module MergePairs {
  import opened Trees
  import opened Merging
  import opened MergeLaws
  import opened MergeShuffles

  /** An argument that says which requests a proxy is for. */
  predicate Names(matcher: string) {
    matcher == "*" || (matcher != "" && (matcher[0] == '/' || matcher[0] == '@'))
  }

  lemma NamesExact(key: string)
    ensures Names(key) <==> IsMatcherKey(key)
  {
    if key != "" {
      assert key[..1] == [key[0]];
    }
  }

  predicate NoMatcher(args: seq<string>) {
    args == [] || !Names(args[0])
  }

  lemma ProxyKeys(name: string, args: seq<string>)
    requires name in {"reverse_proxy", "php_fastcgi"}
    ensures var keys := [name] + args;
            && keys[0] == name && keys[1..] == args
            && (args != [] ==> keys[1] == args[0] && keys[2..] == args[1..])
            && GetMatcher(keys) == (if NoMatcher(args) then "*" else args[0])
            && AddedKeys(keys) == (if NoMatcher(args) then args else args[1..])
  {
    if args != [] {
      NamesExact(args[0]);
    }
  }

  lemma OneIntoOne(a: Tree, b: Tree)
    ensures Merge([a], [b]) == if Matches(a, b) then [MergeBlock(a, b)] else [a, b]
  {
    MergeSingle([a], b);
    MergeOneCons(a, [], b);
    assert [a] + [] == [a] && [MergeBlock(a, b)] + [] == [MergeBlock(a, b)] && [] + [b] == [b];
  }

  /** What a proxy block passes requests to, and for which requests: all, if no matcher is written. */
  datatype Handler = Handler(name: string, matcher: string, upstreams: seq<string>)

  /** The ways to write it: with the matcher, or, if it is `*`, without. */
  ghost predicate Writes(keys: seq<string>, p: Handler) {
    && p.name in {"reverse_proxy", "php_fastcgi"} && Names(p.matcher)
    && (|| keys == [p.name, p.matcher] + p.upstreams
        || (p.matcher == "*" && keys == [p.name] + p.upstreams && NoMatcher(p.upstreams)))
  }

  lemma WritesParts(keys: seq<string>, p: Handler)
    requires Writes(keys, p)
    ensures keys != [] && keys[0] == p.name && GetMatcher(keys) == p.matcher && AddedKeys(keys) == p.upstreams
  {
    if keys == [p.name, p.matcher] + p.upstreams {
      var args := [p.matcher] + p.upstreams;
      assert keys == [p.name] + args && args[1..] == p.upstreams;
      ProxyKeys(p.name, args);
    } else {
      ProxyKeys(p.name, p.upstreams);
    }
  }

  /** Proxies of one name for the same requests become one, with the upstreams of both in order. */
  lemma ProxiesMerge(a: Tree, b: Tree, p: Handler, q: Handler)
    requires Writes(a.keys, p) && Writes(b.keys, q) && p.name == q.name && p.matcher == q.matcher
    ensures Merge([a], [b]) == [Node(a.order, a.keys + q.upstreams, Merge(a.kids, b.kids))]
    ensures NoMatcher(q.upstreams) || a.keys != [p.name] ==>
              Writes(a.keys + q.upstreams, Handler(p.name, p.matcher, p.upstreams + q.upstreams))
  {
    WritesParts(a.keys, p);
    WritesParts(b.keys, q);
    OneIntoOne(a, b);
    var keys := a.keys + q.upstreams;
    if a.keys == [p.name, p.matcher] + p.upstreams {
      assert keys == [p.name, p.matcher] + (p.upstreams + q.upstreams);
    } else {
      assert keys == [p.name] + (p.upstreams + q.upstreams);
      assert p.upstreams == [] ==> a.keys == [p.name] && p.upstreams + q.upstreams == q.upstreams;
    }
  }

  /** Proxies for different requests, or of different names, stay apart. */
  lemma ProxiesStayApart(a: Tree, b: Tree, p: Handler, q: Handler)
    requires Writes(a.keys, p) && Writes(b.keys, q) && (p.name != q.name || p.matcher != q.matcher)
    ensures Merge([a], [b]) == [a, b]
  {
    WritesParts(a.keys, p);
    WritesParts(b.keys, q);
    OneIntoOne(a, b);
  }

  /** Other blocks are merged exactly when all their keys are equal. */
  lemma OthersMerge(a: Tree, b: Tree)
    requires a.keys == [] || b.keys == [] || a.keys[0] != b.keys[0] || a.keys[0] !in {"reverse_proxy", "php_fastcgi"}
    ensures Merge([a], [b]) ==
            if a.keys == b.keys then [Node(a.order, a.keys, Merge(a.kids, b.kids))] else [a, b]
  {
    OneIntoOne(a, b);
  }

  /** Without matchers, with the same one, and with two. */
  lemma ProxyExamples(name: string, o: int, xs: seq<string>, ks: seq<Tree>, p: int, ys: seq<string>, ls: seq<Tree>,
                      m: string, n: string)
    requires name in {"reverse_proxy", "php_fastcgi"}
    requires m != "" && n != "" && m[0] in {'/', '@'} && n[0] in {'/', '@'} && m != n
    ensures (xs == [] || xs[0] == "" || (xs[0] != "*" && xs[0][0] !in {'/', '@'}))
            && (ys == [] || ys[0] == "" || (ys[0] != "*" && ys[0][0] !in {'/', '@'})) ==>
              Merge([Node(o, [name] + xs, ks)], [Node(p, [name] + ys, ls)])
              == [Node(o, [name] + xs + ys, Merge(ks, ls))]
    ensures Merge([Node(o, [name, m] + xs, ks)], [Node(p, [name, m] + ys, ls)])
            == [Node(o, [name, m] + xs + ys, Merge(ks, ls))]
    ensures Merge([Node(o, [name, m] + xs, ks)], [Node(p, [name, n] + ys, ls)])
            == [Node(o, [name, m] + xs, ks), Node(p, [name, n] + ys, ls)]
  {
    if NoMatcher(xs) && NoMatcher(ys) {
      ProxiesMerge(Node(o, [name] + xs, ks), Node(p, [name] + ys, ls), Handler(name, "*", xs), Handler(name, "*", ys));
    }
    ProxiesMerge(Node(o, [name, m] + xs, ks), Node(p, [name, m] + ys, ls), Handler(name, m, xs), Handler(name, m, ys));
    ProxiesStayApart(Node(o, [name, m] + xs, ks), Node(p, [name, n] + ys, ls),
                     Handler(name, m, xs), Handler(name, n, ys));
  }
}
