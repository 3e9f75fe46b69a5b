/** Container.Merge (caddyfile/merge.go). */
module Merging {
  import opened Runes
  import opened Seqs
  import opened Trees

  predicate IsProxy(firstKey: string) {
    firstKey == "reverse_proxy" || firstKey == "php_fastcgi"
  }

  predicate IsMatcherKey(value: string) {
    value == "*" || HasPrefix(value, "/") || HasPrefix(value, "@")
  }

  function GetMatcher(keys: seq<string>): string {
    if |keys| <= 1 || !IsMatcherKey(keys[1]) then "*" else keys[1]
  }

  /** The test under which blockB is merged into blockA. */
  predicate Matches(a: Tree, b: Tree) {
    && a.FirstKey() == b.FirstKey()
    && ((IsProxy(b.FirstKey()) && GetMatcher(a.keys) == GetMatcher(b.keys)) || a.keys == b.keys)
  }

  /** The keys mergeReverseProxyLike takes over: all but the name and a matcher right after it. */
  function AddedKeys(keys: seq<string>): seq<string> {
    if |keys| <= 1 then []
    else if IsMatcherKey(keys[1]) then keys[2..]
    else keys[1..]
  }

  /** The index of the first block that b merges into, or the number of blocks. */
  function FirstMatch(ts: seq<Tree>, b: Tree): (i: nat)
    ensures i <= |ts|
    ensures i < |ts| ==> Matches(ts[i], b)
    ensures forall j :: 0 <= j < i ==> !Matches(ts[j], b)
  {
    if ts == [] || Matches(ts[0], b) then 0 else 1 + FirstMatch(ts[1..], b)
  }

  function MergeBlock(a: Tree, b: Tree): Tree
    decreases b, 0
  {
    var proxyLike := IsProxy(b.FirstKey()) && GetMatcher(a.keys) == GetMatcher(b.keys);
    var keys := if proxyLike then a.keys + AddedKeys(b.keys) else a.keys;
    Node(a.order, keys, Merge(a.kids, b.kids))
  }

  /** One turn of the outer loop. */
  function MergeOne(ts: seq<Tree>, b: Tree): seq<Tree>
    decreases b, 1
  {
    var i := FirstMatch(ts, b);
    if i < |ts| then ts[i := MergeBlock(ts[i], b)] else ts + [b]
  }

  function Merge(ts: seq<Tree>, bs: seq<Tree>): seq<Tree>
    decreases bs, 0
  {
    if bs == [] then ts else Merge(MergeOne(ts, bs[0]), bs[1..])
  }

  // ----- Merge keys -----

  datatype MergeKey = Plain(keys: seq<string>) | Proxy(name: string, matcher: string)

  function KeyOf(t: Tree): MergeKey {
    if IsProxy(t.FirstKey()) then Proxy(t.FirstKey(), GetMatcher(t.keys)) else Plain(t.keys)
  }

  /** Blocks are merged exactly when their merge keys are equal. */
  lemma MatchesKeys(a: Tree, b: Tree)
    ensures Matches(a, b) <==> KeyOf(a) == KeyOf(b)
  {
  }

  /** In a proxy block only the first argument looks like a matcher. */
  predicate ProxyShape(t: Tree) {
    IsProxy(t.FirstKey()) ==> forall i :: 2 <= i < |t.keys| ==> !IsMatcherKey(t.keys[i])
  }

  predicate ShapedTree(t: Tree)
    decreases t, 1
  {
    ProxyShape(t) && Shaped(t.kids)
  }

  /** Proxy blocks have the shape at every level. */
  predicate Shaped(ts: seq<Tree>)
    decreases ts, 0
  {
    forall i :: 0 <= i < |ts| ==> ShapedTree(ts[i])
  }

  /** Merging keeps the matcher of a proxy block exactly when the block has an argument already, or
      the first key taken over would not be read as a different matcher. */
  lemma MatcherKept(a: Tree, b: Tree)
    requires KeyOf(a).Proxy? && KeyOf(a) == KeyOf(b)
    ensures var added := AddedKeys(b.keys);
            KeyOf(MergeBlock(a, b)) == KeyOf(a) <==>
            |a.keys| > 1 || added == [] || added[0] == "*" || !IsMatcherKey(added[0])
  {
    var m := MergeBlock(a, b);
    assert m.keys[0] == a.keys[0];
    if |a.keys| > 1 {
      assert m.keys[1] == a.keys[1];
    } else if AddedKeys(b.keys) != [] {
      assert m.keys[1] == AddedKeys(b.keys)[0];
    }
  }

  /** Merging `reverse_proxy * /x` into a bare `reverse_proxy` changes the matcher from * to /x. */
  lemma MatcherCanChange()
    ensures var a, b := Node(0, ["reverse_proxy"], []), Node(0, ["reverse_proxy", "*", "/x"], []);
            && KeyOf(a) == KeyOf(b) == Proxy("reverse_proxy", "*")
            && KeyOf(MergeBlock(a, b)) == Proxy("reverse_proxy", "/x")
  {
    var a, b := Node(0, ["reverse_proxy"], []), Node(0, ["reverse_proxy", "*", "/x"], []);
    assert AddedKeys(b.keys) == ["/x"];
    assert MergeBlock(a, b).keys == ["reverse_proxy", "/x"];
  }

  lemma AddedKeysShape(t: Tree)
    requires ProxyShape(t) && IsProxy(t.FirstKey())
    ensures forall k :: k in AddedKeys(t.keys) ==> !IsMatcherKey(k)
  {
    forall k | k in AddedKeys(t.keys) ensures !IsMatcherKey(k) {
      var i :| 0 <= i < |AddedKeys(t.keys)| && AddedKeys(t.keys)[i] == k;
    }
  }

  lemma AddedKeysConcat(keys: seq<string>, added: seq<string>)
    requires keys != [] && forall k :: k in added ==> !IsMatcherKey(k)
    ensures GetMatcher(keys + added) == GetMatcher(keys)
    ensures AddedKeys(keys + added) == AddedKeys(keys) + added
  {
    if |keys| == 1 {
      assert (keys + added)[1..] == added;
      assert [] + added == added;
    } else {
      assert (keys + added)[1..] == keys[1..] + added && (keys + added)[2..] == keys[2..] + added;
    }
  }

  /** Under the proxy shape a merged block keeps its merge key and its shape, and its upstream keys
      are followed by those of the other block. */
  lemma MergeBlockShape(a: Tree, b: Tree)
    requires ProxyShape(a) && ProxyShape(b) && KeyOf(a) == KeyOf(b)
    ensures var m := MergeBlock(a, b);
            && KeyOf(m) == KeyOf(a) && ProxyShape(m)
            && (KeyOf(a).Proxy? ==> AddedKeys(m.keys) == AddedKeys(a.keys) + AddedKeys(b.keys))
  {
    var m := MergeBlock(a, b);
    if KeyOf(a).Proxy? {
      AddedKeysShape(b);
      var added := AddedKeys(b.keys);
      assert m.keys == a.keys + added;
      AddedKeysConcat(a.keys, added);
      forall i | 2 <= i < |m.keys| ensures !IsMatcherKey(m.keys[i]) {
        assert m.keys[i] == if i < |a.keys| then a.keys[i] else added[i - |a.keys|];
      }
    }
  }

  lemma {:induction false} MergeOneShaped(ts: seq<Tree>, b: Tree)
    requires Shaped(ts) && ShapedTree(b)
    ensures Shaped(MergeOne(ts, b))
    decreases b, 1
  {
    var i := FirstMatch(ts, b);
    if i < |ts| {
      MatchesKeys(ts[i], b);
      MergeBlockShape(ts[i], b);
      MergeShaped(ts[i].kids, b.kids);
    }
  }

  lemma {:induction false} MergeShaped(ts: seq<Tree>, bs: seq<Tree>)
    requires Shaped(ts) && Shaped(bs)
    ensures Shaped(Merge(ts, bs))
    decreases bs, 0
  {
    if bs != [] {
      MergeOneShaped(ts, bs[0]);
      MergeShaped(MergeOne(ts, bs[0]), bs[1..]);
    }
  }
}
