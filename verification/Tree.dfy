/** The Caddyfile tree (caddyfile/caddyfile.go) as a value, and the sibling order of
    caddyfile/marshal.go. A container is the sequence of its blocks. */
module Trees {
  import opened Runes

  datatype Tree = Node(order: int, keys: seq<string>, kids: seq<Tree>) {

    predicate IsGlobalBlock() {
      keys == []
    }

    predicate IsSnippet() {
      |keys| == 1 && HasPrefix(keys[0], "(") && HasSuffix(keys[0], ")")
    }

    predicate IsMatcher() {
      |keys| > 0 && HasPrefix(keys[0], "@")
    }

    function FirstKey(): string {
      if keys == [] then "" else keys[0]
    }
  }

  /** The order the loop over common keys and the length test after it compute. */
  function CompareKeys(a: seq<string>, b: seq<string>): int {
    if a == [] then (if b == [] then 0 else -1)
    else if b == [] then 1
    else if a[0] != b[0] then (if StringLess(a[0], b[0]) then -1 else 1)
    else CompareKeys(a[1..], b[1..])
  }

  /** compareBlocks */
  function Compare(a: Tree, b: Tree): int
    decreases a, 1
  {
    if a.IsGlobalBlock() != b.IsGlobalBlock() then (if a.IsGlobalBlock() then -1 else 1)
    else if a.IsSnippet() != b.IsSnippet() then (if a.IsSnippet() then -1 else 1)
    else if a.IsMatcher() != b.IsMatcher() then (if a.IsMatcher() then -1 else 1)
    else if a.order != b.order then (if a.order < b.order then -1 else 1)
    else if CompareKeys(a.keys, b.keys) != 0 then CompareKeys(a.keys, b.keys)
    else CompareKids(a.kids, b.kids)
  }

  /** The loop over common children and the length test after it. */
  function CompareKids(a: seq<Tree>, b: seq<Tree>): int
    decreases a, 0
  {
    if a == [] then (if b == [] then 0 else -1)
    else if b == [] then 1
    else if Compare(a[0], b[0]) != 0 then Compare(a[0], b[0])
    else CompareKids(a[1..], b[1..])
  }

  // ----- compareBlocks is a total order -----

  lemma {:induction false} KeysAntisymmetric(a: seq<string>, b: seq<string>)
    ensures CompareKeys(a, b) == -CompareKeys(b, a)
    ensures CompareKeys(a, b) == 0 <==> a == b
    ensures CompareKeys(a, b) in {-1, 0, 1}
  {
    if a != [] && b != [] {
      StringLessTrichotomy(a[0], b[0]);
      KeysAntisymmetric(a[1..], b[1..]);
      assert a == [a[0]] + a[1..] && b == [b[0]] + b[1..];
    }
  }

  lemma {:induction false} KeysTransitive(a: seq<string>, b: seq<string>, c: seq<string>)
    requires CompareKeys(a, b) <= 0 && CompareKeys(b, c) <= 0
    ensures CompareKeys(a, c) <= 0
  {
    if a != [] && b != [] && c != [] {
      StringLessTrichotomy(a[0], b[0]);
      StringLessTrichotomy(b[0], c[0]);
      if a[0] == b[0] == c[0] {
        KeysTransitive(a[1..], b[1..], c[1..]);
      } else if a[0] != b[0] && b[0] != c[0] {
        StringLessTransitive(a[0], b[0], c[0]);
        StringLessTrichotomy(a[0], c[0]);
      }
    }
  }

  /** Swapping the arguments negates the comparison, and it is 0 exactly on equal trees. */
  lemma {:induction false} CompareAntisymmetric(a: Tree, b: Tree)
    ensures Compare(a, b) == -Compare(b, a)
    ensures Compare(a, b) == 0 <==> a == b
    ensures Compare(a, b) in {-1, 0, 1}
    decreases a, 1
  {
    KeysAntisymmetric(a.keys, b.keys);
    KidsAntisymmetric(a.kids, b.kids);
  }

  lemma {:induction false} KidsAntisymmetric(a: seq<Tree>, b: seq<Tree>)
    ensures CompareKids(a, b) == -CompareKids(b, a)
    ensures CompareKids(a, b) == 0 <==> a == b
    ensures CompareKids(a, b) in {-1, 0, 1}
    decreases a, 0
  {
    if a != [] && b != [] {
      CompareAntisymmetric(a[0], b[0]);
      KidsAntisymmetric(a[1..], b[1..]);
      assert a == [a[0]] + a[1..] && b == [b[0]] + b[1..];
    }
  }

  lemma {:induction false} CompareTransitive(a: Tree, b: Tree, c: Tree)
    requires Compare(a, b) <= 0 && Compare(b, c) <= 0
    ensures Compare(a, c) <= 0
    decreases a, 1
  {
    KeysAntisymmetric(a.keys, b.keys);
    KeysAntisymmetric(b.keys, c.keys);
    KeysAntisymmetric(a.keys, c.keys);
    if CompareKeys(a.keys, b.keys) <= 0 && CompareKeys(b.keys, c.keys) <= 0 {
      KeysTransitive(a.keys, b.keys, c.keys);
      if CompareKids(a.kids, b.kids) <= 0 && CompareKids(b.kids, c.kids) <= 0 {
        KidsTransitive(a.kids, b.kids, c.kids);
      }
    }
  }

  lemma {:induction false} KidsTransitive(a: seq<Tree>, b: seq<Tree>, c: seq<Tree>)
    requires CompareKids(a, b) <= 0 && CompareKids(b, c) <= 0
    ensures CompareKids(a, c) <= 0
    decreases a, 0
  {
    if a != [] && b != [] && c != [] {
      CompareAntisymmetric(a[0], b[0]);
      CompareAntisymmetric(b[0], c[0]);
      CompareTransitive(a[0], b[0], c[0]);
      if a[0] == b[0] && b[0] == c[0] {
        KidsTransitive(a[1..], b[1..], c[1..]);
      } else {
        CompareAntisymmetric(a[0], c[0]);
      }
    }
  }

  predicate Leq(a: Tree, b: Tree) {
    Compare(a, b) <= 0
  }

  lemma LeqTotal(a: Tree, b: Tree)
    ensures Leq(a, b) || Leq(b, a)
    ensures Leq(a, b) && Leq(b, a) <==> a == b
  {
    CompareAntisymmetric(a, b);
  }
}
