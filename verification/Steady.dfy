/** Whether a container gets port forwards at all (buildNATRules, loader_gateway.go), and when that does not
    depend on the order in which Go goes through its labels. */
module SteadyForwards {
  import opened Seqs
  import opened Ownership
  import opened NatRules
  import opened PortForwards
  import opened GatewayRows
  import opened Listings

  predicate Required(f: Field) {
    f == Protocol || f == SrcPort || f == DstPort
  }

  ghost predicate Sets(read: Reader, k: string, i: int, f: Field) {
    read(k) == Some(PortLabel(i, f))
  }

  /** Every required field is set, and only to nonempty values. */
  ghost predicate Sure(read: Reader, labels: map<string, string>, i: int) {
    forall f :: Required(f) ==>
      && (exists k :: k in labels && Sets(read, k, i, f))
      && (forall k :: k in labels && Sets(read, k, i, f) ==> labels[k] != "")
  }

  /** Every required field is set to a nonempty value by some label. */
  ghost predicate Possible(read: Reader, labels: map<string, string>, i: int) {
    forall f :: Required(f) ==> exists k :: k in labels && Sets(read, k, i, f) && labels[k] != ""
  }

  /** Some entry is complete whatever the order, or none is in any order. */
  ghost predicate Steady(read: Reader, labels: map<string, string>) {
    (exists i :: Sure(read, labels, i)) || !(exists i :: Possible(read, labels, i))
  }

  function ValueOf(read: Reader, labels: map<string, string>, order: seq<string>, i: int, f: Field): string
    requires forall k :: k in order ==> k in labels
  {
    GetField(EntryAt(CollectEntries(read, labels, order), i), f)
  }

  ghost predicate AnySets(read: Reader, order: seq<string>, i: int, f: Field) {
    exists k :: k in order && Sets(read, k, i, f)
  }

  /** A field has the value of a label that sets it. */
  lemma {:induction false} ValueFromLabel(read: Reader, labels: map<string, string>, order: seq<string>, i: int,
                                          f: Field)
    requires (forall k :: k in order ==> k in labels) && f != Other
    ensures AnySets(read, order, i, f) ==>
              exists k :: k in order && Sets(read, k, i, f) && ValueOf(read, labels, order, i, f) == labels[k]
    ensures !AnySets(read, order, i, f) ==> ValueOf(read, labels, order, i, f) == ""
    decreases |order|
  {
    if order != [] {
      var n := |order| - 1;
      ValueFromLabel(read, labels, order[..n], i, f);
      assert forall k :: k in order <==> k == order[n] || k in order[..n];
      if !Sets(read, order[n], i, f) {
        assert ValueOf(read, labels, order, i, f) == ValueOf(read, labels, order[..n], i, f);
        assert AnySets(read, order, i, f) <==> AnySets(read, order[..n], i, f);
      }
    }
  }

  /** If labels that set a field come in a last group, one of the group decides. */
  lemma {:induction false} LastGroupDecides(read: Reader, labels: map<string, string>, a: seq<string>, b: seq<string>,
                                            i: int, f: Field)
    requires (forall k :: k in a + b ==> k in labels) && f != Other && exists k :: k in b && Sets(read, k, i, f)
    ensures exists k :: k in b && Sets(read, k, i, f) && ValueOf(read, labels, a + b, i, f) == labels[k]
    decreases |b|
  {
    var n := |b| - 1;
    assert (a + b)[..|a + b| - 1] == a + b[..n];
    assert forall k :: k in b <==> k == b[n] || k in b[..n];
    if !Sets(read, b[n], i, f) {
      LastGroupDecides(read, labels, a, b[..n], i, f);
    }
  }

  /** The labels with one kind of value first, then those with the other. */
  lemma GroupedOrder(labels: map<string, string>, emptyLast: bool) returns (a: seq<string>, b: seq<string>)
    ensures Lists(a + b, labels)
    ensures forall k :: k in a ==> (labels[k] == "") != emptyLast
    ensures forall k :: k in b ==> (labels[k] == "") == emptyLast
    ensures forall k :: k in b <==> k in labels && (labels[k] == "") == emptyLast
  {
    a := SomeOrder(set k | k in labels && (labels[k] == "") != emptyLast);
    b := SomeOrder(set k | k in labels && (labels[k] == "") == emptyLast);
    forall k ensures k in a + b <==> k in labels {}
    forall i, j | 0 <= i < |a| && 0 <= j < |b| ensures a[i] != b[j] {
      assert a[i] in a && b[j] in b;
    }
  }

  ghost predicate AnyComplete(es: Entries) {
    exists i :: i in es && CompleteEntry(es[i])
  }

  lemma SureComplete(read: Reader, labels: map<string, string>, order: seq<string>, i: int)
    requires Lists(order, labels) && Sure(read, labels, i)
    ensures AnyComplete(CollectEntries(read, labels, order))
  {
    forall f | Required(f) ensures ValueOf(read, labels, order, i, f) != "" {
      ValueFromLabel(read, labels, order, i, f);
    }
    CompleteByFields(read, labels, order, i);
  }

  lemma CompleteByFields(read: Reader, labels: map<string, string>, order: seq<string>, i: int)
    requires Lists(order, labels) && forall f :: Required(f) ==> ValueOf(read, labels, order, i, f) != ""
    ensures AnyComplete(CollectEntries(read, labels, order))
  {
    var es := CollectEntries(read, labels, order);
    assert ValueOf(read, labels, order, i, Protocol) != "" && ValueOf(read, labels, order, i, SrcPort) != ""
        && ValueOf(read, labels, order, i, DstPort) != "";
    assert i in es && CompleteEntry(es[i]);
  }

  lemma ImpossibleIncomplete(read: Reader, labels: map<string, string>, order: seq<string>)
    requires Lists(order, labels) && !exists i :: Possible(read, labels, i)
    ensures !AnyComplete(CollectEntries(read, labels, order))
  {
    var es := CollectEntries(read, labels, order);
    forall i | i in es ensures !CompleteEntry(es[i]) {
      assert !Possible(read, labels, i);
      var f :| Required(f) && !exists k :: k in labels && Sets(read, k, i, f) && labels[k] != "";
      ValueFromLabel(read, labels, order, i, f);
    }
  }

  lemma NotSureIncomplete(read: Reader, labels: map<string, string>) returns (order: seq<string>)
    requires !exists i :: Sure(read, labels, i)
    ensures Lists(order, labels) && !AnyComplete(CollectEntries(read, labels, order))
  {
    var a, b := GroupedOrder(labels, true);
    order := a + b;
    var es := CollectEntries(read, labels, order);
    forall i | i in es ensures !CompleteEntry(es[i]) {
      assert !Sure(read, labels, i);
      var f :| Required(f) && !((exists k :: k in labels && Sets(read, k, i, f))
                                && forall k :: k in labels && Sets(read, k, i, f) ==> labels[k] != "");
      ValueFromLabel(read, labels, order, i, f);
      if exists k :: k in labels && Sets(read, k, i, f) {
        LastGroupDecides(read, labels, a, b, i, f);
      }
    }
  }

  lemma PossibleComplete(read: Reader, labels: map<string, string>, i: int) returns (order: seq<string>)
    requires Possible(read, labels, i)
    ensures Lists(order, labels) && AnyComplete(CollectEntries(read, labels, order))
  {
    var a, b := GroupedOrder(labels, false);
    order := a + b;
    forall f | Required(f) ensures ValueOf(read, labels, order, i, f) != "" {
      LastGroupDecides(read, labels, a, b, i, f);
    }
    CompleteByFields(read, labels, order, i);
  }

  lemma {:induction false} RuleRowsEmpty(es: Entries, indices: seq<int>, hostIP: string, describe: string -> string)
    requires forall n :: 0 <= n < |indices| ==> indices[n] in es
    ensures RuleRows(es, indices, hostIP, describe) == [] <==> forall n :: 0 <= n < |indices| ==>
              !CompleteEntry(es[indices[n]])
    decreases |indices|
  {
    if indices != [] {
      RuleRowsEmpty(es, indices[..|indices| - 1], hostIP, describe);
    }
  }

  lemma RulesFromEmpty(read: Reader, labels: map<string, string>, order: seq<string>, indices: seq<int>, hostIP: string,
                       describe: string -> string, rules: seq<Row>)
    requires RulesFrom(read, labels, order, indices, hostIP, describe, rules)
    ensures rules != [] <==> AnyComplete(CollectEntries(read, labels, order))
  {
    var es := CollectEntries(read, labels, order);
    RuleRowsEmpty(es, indices, hostIP, describe);
    if AnyComplete(es) {
      var i :| i in es && CompleteEntry(es[i]);
      assert i in indices;
    }
  }

  lemma {:induction false} Greatest(keys: set<int>) returns (m: int)
    requires keys != {}
    ensures m in keys && forall k :: k in keys ==> k <= m
    decreases |keys|
  {
    var first := SomeElement(keys);
    m := first;
    if keys - {first} != {} {
      var n := Greatest(keys - {first});
      m := if n < m then m else n;
    }
    forall k | k in keys ensures k <= m {
      assert k == first || k in keys - {first};
    }
  }

  lemma {:induction false} AscendingListing(keys: set<int>) returns (s: seq<int>)
    ensures Ascending(s) && forall i :: i in s <==> i in keys
    decreases |keys|
  {
    if keys == {} {
      s := [];
    } else {
      var m := Greatest(keys);
      s := AscendingListing(keys - {m});
      assert forall i :: 0 <= i < |s| ==> s[i] in s;
      s := s + [m];
    }
  }

  lemma RulesExist(read: Reader, labels: map<string, string>, order: seq<string>, hostIP: string,
                   describe: string -> string)
    returns (rules: seq<Row>)
    requires Lists(order, labels)
    ensures RulesOf(read, labels, hostIP, describe, rules)
    ensures rules != [] <==> AnyComplete(CollectEntries(read, labels, order))
  {
    var es := CollectEntries(read, labels, order);
    var indices := AscendingListing(es.Keys);
    assert forall n :: 0 <= n < |indices| ==> indices[n] in indices;
    rules := RuleRows(es, indices, hostIP, describe);
    assert RulesFrom(read, labels, order, indices, hostIP, describe, rules);
    RulesFromEmpty(read, labels, order, indices, hostIP, describe, rules);
  }

  /** Whether a container gets port forwards is independent of the iteration order exactly when its labels
      are steady. */
  lemma SteadyExact(read: Reader, labels: map<string, string>, hostIP: string, describe: string -> string)
    ensures Steady(read, labels) <==>
            forall rules, others ::
              RulesOf(read, labels, hostIP, describe, rules) && RulesOf(read, labels, hostIP, describe, others) ==>
              (rules == [] <==> others == [])
  {
    if Steady(read, labels) {
      forall rules, others | RulesOf(read, labels, hostIP, describe, rules)
                             && RulesOf(read, labels, hostIP, describe, others)
        ensures rules == [] <==> others == []
      {
        SteadyRules(read, labels, hostIP, describe, rules);
        SteadyRules(read, labels, hostIP, describe, others);
      }
    } else {
      var i :| Possible(read, labels, i);
      var o1 := NotSureIncomplete(read, labels);
      var o2 := PossibleComplete(read, labels, i);
      var rules := RulesExist(read, labels, o1, hostIP, describe);
      var others := RulesExist(read, labels, o2, hostIP, describe);
    }
  }

  lemma SteadyRules(read: Reader, labels: map<string, string>, hostIP: string, describe: string -> string,
                    rules: seq<Row>)
    requires Steady(read, labels) && RulesOf(read, labels, hostIP, describe, rules)
    ensures rules != [] <==> exists i :: Sure(read, labels, i)
  {
    var order, indices :| RulesFrom(read, labels, order, indices, hostIP, describe, rules);
    RulesFromEmpty(read, labels, order, indices, hostIP, describe, rules);
    if i :| Sure(read, labels, i) {
      SureComplete(read, labels, order, i);
    } else {
      ImpossibleIncomplete(read, labels, order);
    }
  }

  /** Labels without clashes are steady. */
  lemma UnambiguousSteady(read: Reader, labels: map<string, string>)
    requires Unambiguous(read, labels)
    ensures Steady(read, labels)
  {
    if i :| Possible(read, labels, i) {
      forall f | Required(f)
        ensures (exists k :: k in labels && Sets(read, k, i, f))
        ensures (forall k :: k in labels && Sets(read, k, i, f) ==> labels[k] != "")
      {
        var j :| j in labels && Sets(read, j, i, f) && labels[j] != "";
      }
      assert Sure(read, labels, i);
    }
  }
}
