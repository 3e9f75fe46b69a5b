/** The order of siblings, spelled out (compareBlocks, caddyfile/marshal.go). */
module SiblingOrder {
  import opened Runes
  import opened Trees
  import opened Sorting

  // ----- Texts and keys -----

  /** The first n elements are the same, and b goes on. */
  predicate SameUpTo<T(==)>(a: seq<T>, b: seq<T>, n: nat) {
    n <= |a| && n < |b| && a[..n] == b[..n]
  }

  lemma SameTail<T>(a: seq<T>, b: seq<T>, n: nat)
    requires a != [] && b != []
    ensures SameUpTo(a, b, n + 1) <==> a[0] == b[0] && SameUpTo(a[1..], b[1..], n)
  {
    if n + 1 <= |a| && n + 1 < |b| {
      assert a[..n + 1] == [a[0]] + a[1..][..n] && b[..n + 1] == [b[0]] + b[1..][..n];
      if a[..n + 1] == b[..n + 1] {
        assert a[..n + 1][0] == b[..n + 1][0] && a[..n + 1][1..] == b[..n + 1][1..];
      }
    }
  }

  /** The texts differ first at n, where x has the smaller character or ends. */
  predicate TextSplit(x: string, y: string, n: nat) {
    SameUpTo(x, y, n) && (n == |x| || x[n] < y[n])
  }

  ghost predicate TextBefore(x: string, y: string) {
    exists n: nat :: TextSplit(x, y, n)
  }

  lemma {:induction false} StringLessExact(x: string, y: string)
    ensures StringLess(x, y) <==> TextBefore(x, y)
    decreases |x|
  {
    if x != "" && y != "" {
      StringLessExact(x[1..], y[1..]);
      assert TextSplit(x, y, 0) <==> x[0] < y[0];
      if n: nat :| TextSplit(x, y, n) {
        if n > 0 {
          SameTail(x, y, n - 1);
          assert TextSplit(x[1..], y[1..], n - 1);
        }
      }
      if x[0] == y[0] {
        if m: nat :| TextSplit(x[1..], y[1..], m) {
          SameTail(x, y, m);
          assert TextSplit(x, y, m + 1);
        }
      }
    } else if y != "" {
      assert TextSplit(x, y, 0);
    }
  }

  /** The keys differ first at n, where a has the key that comes first or ends. */
  ghost predicate KeysSplit(a: seq<string>, b: seq<string>, n: nat) {
    SameUpTo(a, b, n) && (n == |a| || TextBefore(a[n], b[n]))
  }

  ghost predicate KeysBefore(a: seq<string>, b: seq<string>) {
    exists n: nat :: KeysSplit(a, b, n)
  }

  lemma {:induction false} CompareKeysExact(a: seq<string>, b: seq<string>)
    ensures CompareKeys(a, b) < 0 <==> KeysBefore(a, b)
    decreases |a|
  {
    if a != [] && b != [] {
      CompareKeysExact(a[1..], b[1..]);
      StringLessExact(a[0], b[0]);
      StringLessTrichotomy(a[0], b[0]);
      assert KeysSplit(a, b, 0) <==> TextBefore(a[0], b[0]);
      if n: nat :| KeysSplit(a, b, n) {
        if n > 0 {
          SameTail(a, b, n - 1);
          assert KeysSplit(a[1..], b[1..], n - 1);
        }
      }
      if a[0] == b[0] {
        if m: nat :| KeysSplit(a[1..], b[1..], m) {
          SameTail(a, b, m);
          assert KeysSplit(a, b, m + 1);
        }
      }
    } else if b != [] {
      assert KeysSplit(a, b, 0);
    }
  }

  // ----- Blocks -----

  /** Global options, then snippets, then named matchers, then the rest. */
  function Kind(keys: seq<string>): nat {
    if keys == [] then 0
    else if |keys| == 1 && keys[0] != "" && keys[0][0] == '(' && keys[0][|keys[0]| - 1] == ')' then 1
    else if keys[0] != "" && keys[0][0] == '@' then 2
    else 3
  }

  lemma KindExact(t: Tree)
    ensures t.IsGlobalBlock() <==> Kind(t.keys) == 0
    ensures t.IsSnippet() <==> Kind(t.keys) == 1
    ensures t.IsMatcher() <==> Kind(t.keys) == 2
  {
    if t.keys != [] && t.keys[0] != "" {
      var k := t.keys[0];
      assert k[..1] == [k[0]] && k[|k| - 1..] == [k[|k| - 1]];
    }
  }

  /** The children differ first at n, where a has the one that comes first or no more. */
  ghost predicate KidsSplit(a: seq<Tree>, b: seq<Tree>, n: nat)
    decreases a, 0
  {
    SameUpTo(a, b, n) && (n == |a| || Before(a[n], b[n]))
  }

  ghost predicate KidsBefore(a: seq<Tree>, b: seq<Tree>)
    decreases a, 1
  {
    exists n: nat :: KidsSplit(a, b, n)
  }

  /** Which of two siblings comes first: by kind; then by Order; then by keys; then by children. */
  ghost predicate Before(a: Tree, b: Tree)
    decreases a, 2
  {
    if Kind(a.keys) != Kind(b.keys) then Kind(a.keys) < Kind(b.keys)
    else if a.order != b.order then a.order < b.order
    else if a.keys != b.keys then KeysBefore(a.keys, b.keys)
    else KidsBefore(a.kids, b.kids)
  }

  lemma {:induction false} KidsExact(a: seq<Tree>, b: seq<Tree>)
    ensures CompareKids(a, b) < 0 <==> KidsBefore(a, b)
    decreases a, 0
  {
    if a != [] && b != [] {
      CompareExact(a[0], b[0]);
      CompareAntisymmetric(a[0], b[0]);
      KidsExact(a[1..], b[1..]);
      assert KidsSplit(a, b, 0) <==> Before(a[0], b[0]);
      if n: nat :| KidsSplit(a, b, n) {
        if n > 0 {
          SameTail(a, b, n - 1);
          assert KidsSplit(a[1..], b[1..], n - 1);
        }
      }
      if a[0] == b[0] {
        if m: nat :| KidsSplit(a[1..], b[1..], m) {
          SameTail(a, b, m);
          assert KidsSplit(a, b, m + 1);
        }
      }
    } else if b != [] {
      assert KidsSplit(a, b, 0);
    }
  }

  /** compareBlocks is negative exactly for the block that comes first. */
  lemma {:induction false} CompareExact(a: Tree, b: Tree)
    ensures Compare(a, b) < 0 <==> Before(a, b)
    decreases a, 1
  {
    KindExact(a);
    KindExact(b);
    KeysAntisymmetric(a.keys, b.keys);
    CompareKeysExact(a.keys, b.keys);
    KidsExact(a.kids, b.kids);
  }

  /** After sorting no sibling comes before one that is listed earlier. */
  lemma SortedInOrder(ts: seq<Tree>, i: nat, j: nat)
    requires i < j < |SortForest(ts)|
    ensures !Before(SortForest(ts)[j], SortForest(ts)[i])
  {
    var r := SortForest(ts);
    SortForestCorrect(ts);
    assert Leq(r[i], r[j]);
    CompareAntisymmetric(r[i], r[j]);
    CompareExact(r[j], r[i]);
  }
}
