/** reconcileGateway (loader_gateway.go). Every call may fail; Go's maps are gone through in any order. */
module GatewayRows {
  import opened Runes
  import opened Seqs
  import opened Ownership
  import opened Reconciling
  import opened NatRules
  import opened PortForwards
  import opened GatewayState
  import opened RunningContainers
  import opened Listings

  // ----- Port forward rules -----

  /** Rows that some iteration order of the labels gives. */
  ghost predicate RulesOf(read: Reader, labels: map<string, string>, hostIP: string, describe: string -> string,
                          rules: seq<Row>) {
    exists order, indices :: RulesFrom(read, labels, order, indices, hostIP, describe, rules)
  }

  ghost predicate RulesFrom(read: Reader, labels: map<string, string>, order: seq<string>, indices: seq<int>,
                            hostIP: string, describe: string -> string, rules: seq<Row>) {
    && Lists(order, labels) && Ascending(indices)
    && (forall i :: i in indices <==> i in CollectEntries(read, labels, order))
    && (forall i :: 0 <= i < |indices| ==> indices[i] in CollectEntries(read, labels, order))
    && rules == RuleRows(CollectEntries(read, labels, order), indices, hostIP, describe)
  }

  /** Without clashing labels every iteration order gives the same rules. */
  lemma RulesUnique(read: Reader, labels: map<string, string>, hostIP: string, describe: string -> string,
                    rules: seq<Row>, others: seq<Row>)
    requires Unambiguous(read, labels)
    requires RulesOf(read, labels, hostIP, describe, rules) && RulesOf(read, labels, hostIP, describe, others)
    ensures rules == others
  {
    var o1, i1 :| RulesFrom(read, labels, o1, i1, hostIP, describe, rules);
    var o2, i2 :| RulesFrom(read, labels, o2, i2, hostIP, describe, others);
    UnambiguousSameEntries(read, labels, o1, o2);
    AscendingUnique(i1, i2);
  }

  /** sort.Ints on the indices of the entries. */
  method SortedIndices(es: Entries) returns (indices: seq<int>)
    ensures Ascending(indices) && forall i :: i in indices <==> i in es
  {
    indices := [];
    var left := es.Keys;
    while left != {}
      invariant left <= es.Keys && Ascending(indices)
      invariant forall i :: i in indices <==> i in es && i !in left
      invariant forall i, j :: 0 <= i < |indices| && j in left ==> indices[i] < j
      decreases left
    {
      var m := Least(left);
      indices := indices + [m];
      left := left - {m};
    }
  }

  method Least(s: set<int>) returns (m: int)
    requires s != {}
    ensures m in s && forall i :: i in s ==> m <= i
  {
    m := Pick(s);
    var left := s - {m};
    while left != {}
      invariant left <= s && m in s
      invariant forall i :: i in s && i !in left ==> m <= i
      decreases left
    {
      var i := Pick(left);
      if i < m {
        m := i;
      }
      left := left - {i};
    }
  }

  method BuildNATRules(read: Reader, labels: map<string, string>, hostIP: string, describe: string -> string)
    returns (rules: seq<Row>)
    ensures RulesOf(read, labels, hostIP, describe, rules)
  {
    var entries: Entries := map[];
    var left := labels.Keys;
    ghost var order: seq<string> := [];
    while left != {}
      invariant left <= labels.Keys && NoDuplicates(order)
      invariant forall k :: k in order <==> k in labels && k !in left
      invariant entries == CollectEntries(read, labels, order)
      decreases left
    {
      var k := Pick(left);
      assert (order + [k])[..|order|] == order;
      entries := AddPortLabel(entries, read, k, labels[k]);
      order := order + [k];
      left := left - {k};
    }
    var indices := SortedIndices(entries);
    rules := [];
    assert forall i :: 0 <= i < |indices| ==> indices[i] in indices;
    for n := 0 to |indices|
      invariant rules == RuleRows(entries, indices[..n], hostIP, describe)
    {
      assert indices[..n + 1][..n] == indices[..n];
      var e := entries[indices[n]];
      if e.protocol == "" || e.srcPort == "" || e.dstPort == "" {
        assert rules + [] == rules;
        continue;
      }
      rules := rules + [Row(describe(e.description), NatRule("wan", e.protocol, "any", e.srcPort, hostIP, e.dstPort))];
    }
    assert indices[..|indices|] == indices;
    assert RulesFrom(read, labels, order, indices, hostIP, describe, rules);
  }

  lemma {:induction false} RuleRowsDescribe(c: Codec, es: Entries, indices: seq<int>, hostIP: string, cid: string,
                                              describe: string -> string)
    requires Decodes(c) && c.valid(cid) && (forall extra :: describe(extra) == c.make(cid, extra))
    requires forall i :: 0 <= i < |indices| ==> indices[i] in es
    ensures Describe(c, RuleRows(es, indices, hostIP, describe), cid)
    decreases |indices|
  {
    if indices != [] {
      RuleRowsDescribe(c, es, indices[..|indices| - 1], hostIP, cid, describe);
    }
  }

  lemma {:induction false} OverrideRowsDescribe(c: Codec, domains: seq<string>, caddyIP: string, cid: string)
    requires Decodes(c) && c.valid(cid)
    ensures Describe(c, OverrideRows(domains, caddyIP, c.make(cid, "")), cid)
    decreases |domains|
  {
    if domains != [] {
      OverrideRowsDescribe(c, domains[1..], caddyIP, cid);
    }
  }

  lemma {:induction false} OverrideRowsConcat(a: seq<string>, b: seq<string>, caddyIP: string, description: string)
    ensures OverrideRows(a + b, caddyIP, description)
        == OverrideRows(a, caddyIP, description) + OverrideRows(b, caddyIP, description)
    decreases |a|
  {
    if a == [] {
      assert a + b == b;
      assert [] + OverrideRows(b, caddyIP, description) == OverrideRows(b, caddyIP, description);
    } else {
      assert (a + b)[1..] == a[1..] + b;
      OverrideRowsConcat(a[1..], b, caddyIP, description);
      var h := SplitDomain(a[0]);
      var row := if h.None? then [] else [Row(description, HostOverride(h.value.hostname, h.value.domain, caddyIP))];
      ConcatAssociative(row,
                        OverrideRows(a[1..], caddyIP, description), OverrideRows(b, caddyIP, description));
    }
  }

  lemma NextOverride(domains: seq<string>, i: nat, caddyIP: string, description: string)
    requires i < |domains|
    ensures var h := SplitDomain(domains[i]);
            OverrideRows(domains[..i + 1], caddyIP, description) == OverrideRows(domains[..i], caddyIP, description)
              + if h.None? then [] else [Row(description, HostOverride(h.value.hostname, h.value.domain, caddyIP))]
  {
    assert domains[..i + 1] == domains[..i] + [domains[i]];
    OverrideRowsConcat(domains[..i], [domains[i]], caddyIP, description);
    OneOverride(domains[i], caddyIP, description);
  }

  lemma OneOverride(domain: string, caddyIP: string, description: string)
    ensures OverrideRows([domain], caddyIP, description)
            == var h := SplitDomain(domain);
               if h.None? then [] else [Row(description, HostOverride(h.value.hostname, h.value.domain, caddyIP))]
  {
    assert [domain][1..] == [];
  }

  function Describing(c: Codec, cid: string): string -> string {
    extra => c.make(cid, extra)
  }

  /** The host overrides a running container gets, if it has none. */
  function DesiredOverrides(c: Codec, info: ContainerInfo, labelPrefix: string, caddyIP: string,
                            cid: string): seq<Row> {
    if caddyIP == "" then [] else OverrideRows(ExtractDNSTargets(info.labels, labelPrefix), caddyIP, c.make(cid, ""))
  }

  ghost predicate IsForwards(c: Codec, read: Reader, info: ContainerInfo, cid: string, rules: seq<Row>,
                             rows: seq<Row>) {
    && RulesOf(read, info.labels, info.hostIP, Describing(c, cid), rules)
    && rows == if info.hostIP == "" then [] else rules
  }

  /** The port forwards a running container gets, if it has none. */
  ghost predicate DesiredForwards(c: Codec, read: Reader, info: ContainerInfo, cid: string, rows: seq<Row>) {
    exists rules :: IsForwards(c, read, info, cid, rules, rows)
  }

  lemma RulesDescribe(c: Codec, read: Reader, info: ContainerInfo, cid: string, rules: seq<Row>)
    requires Decodes(c) && c.valid(cid) && RulesOf(read, info.labels, info.hostIP, Describing(c, cid), rules)
    ensures Describe(c, rules, cid)
  {
    var order, indices :| RulesFrom(read, info.labels, order, indices, info.hostIP, Describing(c, cid), rules);
    RuleRowsDescribe(c, CollectEntries(read, info.labels, order), indices, info.hostIP, cid, Describing(c, cid));
  }
}
