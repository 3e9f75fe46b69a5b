/** One pass of reconcileGateway (loader_gateway.go) over the State and the router, call by call. */
module GatewayPass {
  import opened Seqs
  import opened Ownership
  import opened Reconciling
  import opened NatRules
  import opened PortForwards
  import opened GatewayState
  import opened GatewayRows
  import opened RunningContainers
  import opened SteadyForwards
  import opened Listings

  // ----- The calls of a pass -----

  /** The calls after `start`: whether one changed DNS rows, which revision is pending, and that no NAT
      rule was touched without a savepoint call before it. Nothing is committed yet. */
  ghost predicate PassLog(calls: seq<Call>, start: seq<Call>, dnsChanged: bool, natRevision: string) {
    && start <= calls
    && (dnsChanged <==> exists i :: |start| <= i < |calls| && calls[i] == DnsChange(true))
    && (forall i :: |start| <= i < |calls| && calls[i].NatChange? ==>
        exists j :: |start| <= j < i && calls[j].SavepointCall?)
    && (forall i :: |start| <= i < |calls| && calls[i].SavepointCall? ==> calls[i].revision in {"", natRevision})
    && (natRevision != "" ==> exists i :: |start| <= i < |calls| && calls[i] == SavepointCall(natRevision))
    && (forall i :: |start| <= i < |calls| ==> !calls[i].ApplyCall? && !calls[i].ReconfigureCall?)
  }

  /** A whole pass: its changes, then Reconfigure exactly if DNS rows changed, then Apply exactly if there
      is a revision. */
  ghost predicate CommitLog(before: seq<Call>, after: seq<Call>) {
    exists changes, dnsChanged, natRevision :: PassLog(changes, before, dnsChanged, natRevision)
      && after == Committed(changes, dnsChanged, natRevision)
  }

  function Committed(changes: seq<Call>, dnsChanged: bool, natRevision: string): seq<Call> {
    changes + (if dnsChanged then [ReconfigureCall] else [])
    + if natRevision != "" then [ApplyCall(natRevision)] else []
  }

  ghost predicate Saved(calls: seq<Call>, start: seq<Call>) {
    exists j :: |start| <= j < |calls| && calls[j].SavepointCall?
  }

  lemma LogDns(calls: seq<Call>, start: seq<Call>, dnsChanged: bool, natRevision: string, ok: bool)
    requires PassLog(calls, start, dnsChanged, natRevision)
    ensures PassLog(calls + [DnsChange(ok)], start, dnsChanged || ok, natRevision)
  {
    var after := calls + [DnsChange(ok)];
    forall i | |start| <= i < |calls| ensures after[i] == calls[i] {}
    if ok { assert after[|calls|] == DnsChange(true); }
    if dnsChanged {
      var i :| |start| <= i < |calls| && calls[i] == DnsChange(true);
      assert after[i] == DnsChange(true);
    }
    if natRevision != "" {
      var i :| |start| <= i < |calls| && calls[i] == SavepointCall(natRevision);
      assert after[i] == SavepointCall(natRevision);
    }
    KeepsSaved(calls, start, DnsChange(ok));
  }

  lemma LogNat(calls: seq<Call>, start: seq<Call>, dnsChanged: bool, natRevision: string, ok: bool)
    requires PassLog(calls, start, dnsChanged, natRevision) && Saved(calls, start)
    ensures PassLog(calls + [NatChange(ok)], start, dnsChanged, natRevision)
    ensures Saved(calls + [NatChange(ok)], start)
  {
    var after := calls + [NatChange(ok)];
    forall i | |start| <= i < |calls| ensures after[i] == calls[i] {}
    if dnsChanged {
      var i :| |start| <= i < |calls| && calls[i] == DnsChange(true);
      assert after[i] == DnsChange(true);
    }
    if natRevision != "" {
      var i :| |start| <= i < |calls| && calls[i] == SavepointCall(natRevision);
      assert after[i] == SavepointCall(natRevision);
    }
    var j :| |start| <= j < |calls| && calls[j].SavepointCall?;
    assert after[j].SavepointCall?;
    KeepsSaved(calls, start, NatChange(ok));
  }

  lemma LogSavepoint(calls: seq<Call>, start: seq<Call>, dnsChanged: bool, natRevision: string)
    requires PassLog(calls, start, dnsChanged, "")
    ensures PassLog(calls + [SavepointCall(natRevision)], start, dnsChanged, natRevision)
    ensures Saved(calls + [SavepointCall(natRevision)], start)
  {
    var after := calls + [SavepointCall(natRevision)];
    forall i | |start| <= i < |calls| ensures after[i] == calls[i] {}
    assert after[|calls|] == SavepointCall(natRevision);
    if dnsChanged {
      var i :| |start| <= i < |calls| && calls[i] == DnsChange(true);
      assert after[i] == DnsChange(true);
    }
    KeepsSaved(calls, start, SavepointCall(natRevision));
  }

  lemma KeepsSaved(calls: seq<Call>, start: seq<Call>, call: Call)
    requires forall i :: |start| <= i < |calls| && calls[i].NatChange? ==>
        exists j :: |start| <= j < i && calls[j].SavepointCall?
    ensures var after := calls + [call];
            forall i :: |start| <= i < |calls| && after[i].NatChange? ==>
                exists j :: |start| <= j < i && after[j].SavepointCall?
  {
    var after := calls + [call];
    forall i | |start| <= i < |calls| && after[i].NatChange?
      ensures exists j :: |start| <= j < i && after[j].SavepointCall?
    {
      assert calls[i].NatChange?;
      var j :| |start| <= j < i && calls[j].SavepointCall?;
      assert after[j].SavepointCall?;
    }
  }

  class Controller {
    const router: Router
    const state: State
    const codec: Codec
    const read: Reader
    const labelPrefix: string
    const caddyIP: string

    constructor (router: Router, state: State, codec: Codec, read: Reader, labelPrefix: string, caddyIP: string)
      ensures this.router == router && this.state == state && this.codec == codec && this.read == read
      ensures this.labelPrefix == labelPrefix && this.caddyIP == caddyIP
    {
      this.router, this.state, this.codec, this.read := router, state, codec, read;
      this.labelPrefix, this.caddyIP := labelPrefix, caddyIP;
    }

    /** The host override table and what is tracked of it, between two steps. */
    ghost function Dns(): Side
      reads router, state
    {
      Side(router.dnsRows, router.dnsBorn, state.dnsUUIDs, multiset{}, map[])
    }

    ghost function Nat(): Side
      reads router, state
    {
      Side(router.natRows, router.natBorn, state.natUUIDs, multiset{}, map[])
    }

    // ----- Removing what containers that are gone had -----

    method RemoveDns(cid: string, changed: bool, ghost natRevision: string, ghost start: seq<Call>)
      returns (dnsChanged: bool)
      requires Safe(codec, Dns()) && PassLog(router.calls, start, changed, natRevision)
      modifies router, state
      ensures Removed(codec, old(Dns()), Dns(), cid) && Nat() == old(Nat())
      ensures old(router.failures) <= router.failures
      ensures router.failures == old(router.failures) && InSync(codec, old(Dns())) ==> InSync(codec, Dns())
      ensures PassLog(router.calls, start, dnsChanged, natRevision)
    {
      ghost var before, other, failures := Dns(), Nat(), router.failures;
      dnsChanged := changed;
      var uuids := state.RemoveDNS(cid);
      EmptyingStarts(codec, before, cid);
      for i := 0 to |uuids|
        invariant Emptying(codec, before, Dns(), cid, i, router.failures == failures)
        invariant Nat() == other && failures <= router.failures
        invariant PassLog(router.calls, start, dnsChanged, natRevision)
      {
        ghost var s, calls, clean := Dns(), router.calls, router.failures == failures;
        var ok := router.DelHostOverride(uuids[i]);
        EmptyingStep(codec, before, s, Dns(), cid, i, clean, router.failures == failures);
        LogDns(calls, start, dnsChanged, natRevision, ok);
        if ok {
          dnsChanged := true;
        }
      }
      EmptyingEnds(codec, before, Dns(), cid, router.failures == failures);
    }

    method RemoveNat(cid: string, ghost dnsChanged: bool, revision: string, ghost start: seq<Call>)
      returns (natRevision: string)
      requires Safe(codec, Nat()) && PassLog(router.calls, start, dnsChanged, revision)
      modifies router, state
      ensures Removed(codec, old(Nat()), Nat(), cid) && Dns() == old(Dns())
      ensures old(router.failures) <= router.failures
      ensures router.failures == old(router.failures) && InSync(codec, old(Nat())) ==> InSync(codec, Nat())
      ensures PassLog(router.calls, start, dnsChanged, natRevision)
    {
      ghost var before, other, failures := Nat(), Dns(), router.failures;
      natRevision := revision;
      var uuids := state.RemoveNAT(cid);
      EmptyingStarts(codec, before, cid);
      for i := 0 to |uuids|
        invariant Emptying(codec, before, Nat(), cid, i, router.failures == failures)
        invariant Dns() == other && failures <= router.failures
        invariant PassLog(router.calls, start, dnsChanged, natRevision)
      {
        natRevision := SavepointOnce(dnsChanged, natRevision, start);
        ghost var s, calls, clean := Nat(), router.calls, router.failures == failures;
        var ok := router.DelNATRule(uuids[i]);
        EmptyingStep(codec, before, s, Nat(), cid, i, clean, router.failures == failures);
        LogNat(calls, start, dnsChanged, natRevision, ok);
      }
      EmptyingEnds(codec, before, Nat(), cid, router.failures == failures);
    }

    /** A savepoint before the first NAT change, asked for again if there was no revision. */
    method SavepointOnce(ghost dnsChanged: bool, revision: string, ghost start: seq<Call>) returns (natRevision: string)
      requires PassLog(router.calls, start, dnsChanged, revision)
      modifies router`calls
      ensures PassLog(router.calls, start, dnsChanged, natRevision) && Saved(router.calls, start)
      ensures revision != "" ==> natRevision == revision && router.calls == old(router.calls)
    {
      natRevision := revision;
      if natRevision == "" {
        ghost var calls := router.calls;
        natRevision := router.Savepoint();
        LogSavepoint(calls, start, dnsChanged, natRevision);
      }
    }

    // ----- Adding what running containers ask for -----

    ghost function WantedOverrides(cid: string, info: ContainerInfo): seq<Row> {
      DesiredOverrides(codec, info, labelPrefix, caddyIP, cid)
    }

    method AddDns(cid: string, info: ContainerInfo, changed: bool, ghost natRevision: string, ghost start: seq<Call>)
      returns (dnsChanged: bool)
      requires Decodes(codec) && codec.valid(cid)
      requires Safe(codec, Dns()) && Dns().Of(cid) == [] && PassLog(router.calls, start, changed, natRevision)
      modifies router, state
      ensures Filling(codec, old(Dns()), Dns(), cid, WantedOverrides(cid, info),
                      router.failures == old(router.failures))
      ensures Nat() == old(Nat()) && old(router.failures) <= router.failures
      ensures PassLog(router.calls, start, dnsChanged, natRevision)
      ensures WantedOverrides(cid, info) == [] ==> router.calls == old(router.calls) && Dns() == old(Dns())
    {
      dnsChanged := changed;
      FillingStarts(codec, Dns(), cid);
      var domains := ExtractDNSTargets(info.labels, labelPrefix);
      if |domains| > 0 && caddyIP == "" {
        return;
      }
      ghost var before, other, failures, calls := Dns(), Nat(), router.failures, router.calls;
      var description := codec.make(cid, "");
      assert codec.decode(description) == cid;
      assert domains[..0] == [];
      for i := 0 to |domains|
        invariant Filling(codec, before, Dns(), cid, OverrideRows(domains[..i], caddyIP, description),
                          router.failures == failures)
        invariant Nat() == other && failures <= router.failures
        invariant PassLog(router.calls, start, dnsChanged, natRevision)
        invariant OverrideRows(domains[..i], caddyIP, description) == [] ==> router.calls == calls && Dns() == before
      {
        ghost var rows := OverrideRows(domains[..i], caddyIP, description);
        NextOverride(domains, i, caddyIP, description);
        var h := SplitDomain(domains[i]);
        if h.None? {
          continue;
        }
        var override := Row(description, HostOverride(h.value.hostname, h.value.domain, caddyIP));
        dnsChanged := AddDnsRow(cid, override, dnsChanged, natRevision, start, before, rows,
                                router.failures == failures);
      }
      assert domains[..|domains|] == domains;
    }

    method AddDnsRow(cid: string, override: Row, changed: bool, ghost natRevision: string, ghost start: seq<Call>,
                     ghost before: Side, ghost rows: seq<Row>, ghost clean: bool)
      returns (dnsChanged: bool)
      requires codec.ours(override.description) && codec.decode(override.description) == cid && cid != ""
      requires Filling(codec, before, Dns(), cid, rows, clean) && PassLog(router.calls, start, changed, natRevision)
      modifies router, state
      ensures Filling(codec, before, Dns(), cid, rows + [override], clean && router.failures == old(router.failures))
      ensures Nat() == old(Nat()) && old(router.failures) <= router.failures
      ensures PassLog(router.calls, start, dnsChanged, natRevision)
    {
      dnsChanged := changed;
      ghost var s, calls := Dns(), router.calls;
      var uuid, ok := router.AddHostOverride(override.rule, override.description);
      LogDns(calls, start, changed, natRevision, ok);
      if !ok {
        FillingFailed(codec, before, s, Dns(), cid, rows, rows + [override], uuid, override, clean);
        return;
      }
      state.AddDNS(cid, uuid);
      FillingAnswered(codec, before, s, cid, rows, uuid, override, clean);
      dnsChanged := true;
    }

    method AddNat(cid: string, info: ContainerInfo, ghost dnsChanged: bool, revision: string, ghost start: seq<Call>)
      returns (natRevision: string, ghost wanted: seq<Row>)
      requires Decodes(codec) && codec.valid(cid)
      requires Safe(codec, Nat()) && Nat().Of(cid) == [] && PassLog(router.calls, start, dnsChanged, revision)
      modifies router, state
      ensures DesiredForwards(codec, read, info, cid, wanted)
      ensures Filling(codec, old(Nat()), Nat(), cid, wanted, router.failures == old(router.failures))
      ensures Dns() == old(Dns()) && old(router.failures) <= router.failures
      ensures PassLog(router.calls, start, dnsChanged, natRevision)
      ensures wanted == [] ==> router.calls == old(router.calls) && Nat() == old(Nat())
    {
      natRevision := revision;
      FillingStarts(codec, Nat(), cid);
      var rules := BuildNATRules(read, info.labels, info.hostIP, Describing(codec, cid));
      wanted := if info.hostIP == "" then [] else rules;
      assert IsForwards(codec, read, info, cid, rules, wanted);
      RulesDescribe(codec, read, info, cid, rules);
      if |rules| > 0 && info.hostIP == "" {
        return;
      }
      assert codec.decode(codec.make(cid, "")) == cid;
      natRevision := AddNatRules(cid, rules, dnsChanged, natRevision, start);
    }

    method AddNatRules(cid: string, rules: seq<Row>, ghost dnsChanged: bool, revision: string, ghost start: seq<Call>)
      returns (natRevision: string)
      requires Describe(codec, rules, cid) && cid != ""
      requires Safe(codec, Nat()) && Nat().Of(cid) == [] && PassLog(router.calls, start, dnsChanged, revision)
      modifies router, state
      ensures Filling(codec, old(Nat()), Nat(), cid, rules, router.failures == old(router.failures))
      ensures Dns() == old(Dns()) && old(router.failures) <= router.failures
      ensures PassLog(router.calls, start, dnsChanged, natRevision)
      ensures rules == [] ==> router.calls == old(router.calls) && Nat() == old(Nat())
    {
      natRevision := revision;
      FillingStarts(codec, Nat(), cid);
      ghost var before, other, failures, calls := Nat(), Dns(), router.failures, router.calls;
      assert rules[..0] == [];
      for i := 0 to |rules|
        invariant Filling(codec, before, Nat(), cid, rules[..i], router.failures == failures)
        invariant Dns() == other && failures <= router.failures
        invariant PassLog(router.calls, start, dnsChanged, natRevision)
        invariant i == 0 ==> router.calls == calls && Nat() == before
      {
        assert rules[..i + 1] == rules[..i] + [rules[i]];
        natRevision := AddNatRow(cid, rules[i], dnsChanged, natRevision, start, before, rules[..i],
                                 router.failures == failures);
      }
      assert rules[..|rules|] == rules;
    }

    method AddNatRow(cid: string, rule: Row, ghost dnsChanged: bool, revision: string, ghost start: seq<Call>,
                     ghost before: Side, ghost rows: seq<Row>, ghost clean: bool)
      returns (natRevision: string)
      requires codec.ours(rule.description) && codec.decode(rule.description) == cid && cid != ""
      requires Filling(codec, before, Nat(), cid, rows, clean) && PassLog(router.calls, start, dnsChanged, revision)
      modifies router, state
      ensures Filling(codec, before, Nat(), cid, rows + [rule], clean && router.failures == old(router.failures))
      ensures Dns() == old(Dns()) && old(router.failures) <= router.failures
      ensures PassLog(router.calls, start, dnsChanged, natRevision)
    {
      natRevision := SavepointOnce(dnsChanged, revision, start);
      ghost var s, calls := Nat(), router.calls;
      var uuid, ok := router.AddNATRule(rule.rule, rule.description);
      LogNat(calls, start, dnsChanged, natRevision, ok);
      if !ok {
        FillingFailed(codec, before, s, Nat(), cid, rows, rows + [rule], uuid, rule, clean);
        return;
      }
      state.AddNAT(cid, uuid);
      FillingAnswered(codec, before, s, cid, rows, uuid, rule, clean);
    }

    // ----- The two loops of a pass -----

    method PruneOne(cid: string, current: map<string, ContainerInfo>, changed: bool, revision: string,
                    ghost start: seq<Call>,
                    ghost dns: Side, ghost forwards: Side, ghost done: set<string>, ghost clean: bool)
      returns (dnsChanged: bool, natRevision: string)
      requires Safe(codec, dns) && Safe(codec, forwards) && PassLog(router.calls, start, changed, revision)
      requires Pruning(codec, dns, Dns(), current.Keys, done, clean)
      requires Pruning(codec, forwards, Nat(), current.Keys, done, clean)
      modifies router, state
      ensures old(router.failures) <= router.failures
      ensures Pruning(codec, dns, Dns(), current.Keys, done + {cid}, clean && router.failures == old(router.failures))
      ensures Pruning(codec, forwards, Nat(), current.Keys, done + {cid},
                      clean && router.failures == old(router.failures))
      ensures PassLog(router.calls, start, dnsChanged, natRevision)
      ensures cid in current ==> router.calls == old(router.calls) && Dns() == old(Dns()) && Nat() == old(Nat())
    {
      ghost var d, n, failures := Dns(), Nat(), router.failures;
      if cid in current {
        dnsChanged, natRevision := changed, revision;
        PruningSkip(codec, dns, d, current.Keys, done, cid, clean);
        PruningSkip(codec, forwards, n, current.Keys, done, cid, clean);
        return;
      }
      dnsChanged := RemoveDns(cid, changed, revision, start);
      natRevision := RemoveNat(cid, dnsChanged, revision, start);
      PruningStep(codec, dns, d, Dns(), current.Keys, done, cid, clean, clean && router.failures == failures);
      PruningStep(codec, forwards, n, Nat(), current.Keys, done, cid, clean, clean && router.failures == failures);
    }

    method Prune(current: map<string, ContainerInfo>, changed: bool, revision: string, ghost start: seq<Call>)
      returns (dnsChanged: bool, natRevision: string, ghost known: set<string>)
      requires Safe(codec, Dns()) && Safe(codec, Nat()) && PassLog(router.calls, start, changed, revision)
      modifies router, state
      ensures known == old(state.dnsUUIDs.Keys + state.natUUIDs.Keys)
      ensures old(router.failures) <= router.failures
      ensures Pruning(codec, old(Dns()), Dns(), current.Keys, known, router.failures == old(router.failures))
      ensures Pruning(codec, old(Nat()), Nat(), current.Keys, known, router.failures == old(router.failures))
      ensures PassLog(router.calls, start, dnsChanged, natRevision)
      ensures known <= current.Keys ==> router.calls == old(router.calls) && Dns() == old(Dns()) && Nat() == old(Nat())
    {
      ghost var dns, forwards, failures := Dns(), Nat(), router.failures;
      dnsChanged, natRevision, known := changed, revision, state.dnsUUIDs.Keys + state.natUUIDs.Keys;
      PruningStarts(codec, dns, current.Keys);
      PruningStarts(codec, forwards, current.Keys);
      var ids := state.KnownContainerIDs();
      ghost var done, d, n, clean := {}, dns, forwards, true;
      for i := 0 to |ids|
        invariant done == Members(ids[..i])
        invariant failures <= router.failures && clean == (router.failures == failures)
        invariant Dns() == d && Nat() == n
        invariant Pruning(codec, dns, d, current.Keys, done, clean)
        invariant Pruning(codec, forwards, n, current.Keys, done, clean)
        invariant PassLog(router.calls, start, dnsChanged, natRevision)
        invariant done <= current.Keys ==> router.calls == old(router.calls) && d == dns && n == forwards
      {
        MembersNext(ids, i);
        dnsChanged, natRevision := PruneOne(ids[i], current, dnsChanged, natRevision, start,
                                            dns, forwards, done, clean);
        d, n, clean := Dns(), Nat(), router.failures == failures;
        done := done + {ids[i]};
      }
      MembersAll(ids, known);
    }

    ghost function DnsWants(current: map<string, ContainerInfo>): (string, seq<Row>) -> bool {
      (id, rows) => id in current && rows == WantedOverrides(id, current[id])
    }

    ghost function NatWants(current: map<string, ContainerInfo>): (string, seq<Row>) -> bool {
      (id, rows) => id in current && DesiredForwards(codec, read, current[id], id, rows)
    }

    /** The container has rows, or asks for none, in both tables. */
    ghost predicate Served(dns: Side, forwards: Side, current: map<string, ContainerInfo>, cid: string) {
      && (dns.Of(cid) == [] ==> forall rows :: DnsWants(current)(cid, rows) ==> rows == [])
      && (forwards.Of(cid) == [] ==> forall rows :: NatWants(current)(cid, rows) ==> rows == [])
    }

    ghost predicate AllServed(dns: Side, forwards: Side, current: map<string, ContainerInfo>) {
      forall cid :: cid in current ==> Served(dns, forwards, current, cid)
    }

    method GrowDns(cid: string, current: map<string, ContainerInfo>, changed: bool, ghost natRevision: string,
                   ghost start: seq<Call>,
                   ghost dns: Side, ghost done: set<string>, ghost clean: bool)
      returns (dnsChanged: bool)
      requires Decodes(codec) && cid in current && codec.valid(cid) && cid !in done
      requires PassLog(router.calls, start, changed, natRevision)
      requires Growing(codec, dns, Dns(), current.Keys, done, DnsWants(current), clean)
      modifies router, state
      ensures Nat() == old(Nat()) && old(router.failures) <= router.failures
      ensures Growing(codec, dns, Dns(), current.Keys, done + {cid}, DnsWants(current),
                      clean && router.failures == old(router.failures))
      ensures PassLog(router.calls, start, dnsChanged, natRevision)
      ensures old(Dns()).Of(cid) != [] || WantedOverrides(cid, current[cid]) == [] ==>
                router.calls == old(router.calls) && Dns() == old(Dns())
    {
      ghost var d, failures := Dns(), router.failures;
      if state.HasDNS(cid) {
        dnsChanged := changed;
        GrowingSkip(codec, dns, d, current.Keys, done, DnsWants(current), clean, clean, cid);
        return;
      }
      dnsChanged := AddDns(cid, current[cid], changed, natRevision, start);
      GrowingStep(codec, dns, d, Dns(), current.Keys, done, DnsWants(current), clean,
                  clean && router.failures == failures, cid, WantedOverrides(cid, current[cid]));
    }

    method GrowNat(cid: string, current: map<string, ContainerInfo>, ghost dnsChanged: bool, revision: string,
                   ghost start: seq<Call>,
                   ghost forwards: Side, ghost done: set<string>, ghost clean: bool)
      returns (natRevision: string)
      requires Decodes(codec) && cid in current && codec.valid(cid) && cid !in done
      requires PassLog(router.calls, start, dnsChanged, revision)
      requires Growing(codec, forwards, Nat(), current.Keys, done, NatWants(current), clean)
      modifies router, state
      ensures Dns() == old(Dns()) && old(router.failures) <= router.failures
      ensures Growing(codec, forwards, Nat(), current.Keys, done + {cid}, NatWants(current),
                      clean && router.failures == old(router.failures))
      ensures PassLog(router.calls, start, dnsChanged, natRevision)
      ensures old(Nat()).Of(cid) != [] || (forall rows :: NatWants(current)(cid, rows) ==> rows == []) ==>
                router.calls == old(router.calls) && Nat() == old(Nat())
    {
      ghost var n, failures := Nat(), router.failures;
      if state.HasNAT(cid) {
        natRevision := revision;
        GrowingSkip(codec, forwards, n, current.Keys, done, NatWants(current), clean, clean, cid);
        return;
      }
      ghost var wanted;
      natRevision, wanted := AddNat(cid, current[cid], dnsChanged, revision, start);
      assert NatWants(current)(cid, wanted);
      GrowingStep(codec, forwards, n, Nat(), current.Keys, done, NatWants(current), clean,
                  clean && router.failures == failures, cid, wanted);
    }

    method GrowOne(cid: string, current: map<string, ContainerInfo>, changed: bool, revision: string,
                   ghost start: seq<Call>,
                   ghost dns: Side, ghost forwards: Side, ghost done: set<string>, ghost clean: bool)
      returns (dnsChanged: bool, natRevision: string)
      requires Decodes(codec) && cid in current && codec.valid(cid) && cid !in done
      requires PassLog(router.calls, start, changed, revision)
      requires Growing(codec, dns, Dns(), current.Keys, done, DnsWants(current), clean)
      requires Growing(codec, forwards, Nat(), current.Keys, done, NatWants(current), clean)
      modifies router, state
      ensures old(router.failures) <= router.failures
      ensures Growing(codec, dns, Dns(), current.Keys, done + {cid}, DnsWants(current),
                      clean && router.failures == old(router.failures))
      ensures Growing(codec, forwards, Nat(), current.Keys, done + {cid}, NatWants(current),
                      clean && router.failures == old(router.failures))
      ensures PassLog(router.calls, start, dnsChanged, natRevision)
      ensures AllServed(old(Dns()), old(Nat()), current) ==>
                router.calls == old(router.calls) && Dns() == old(Dns()) && Nat() == old(Nat())
    {
      ghost var failures := router.failures;
      assert DnsWants(current)(cid, WantedOverrides(cid, current[cid]));
      assert AllServed(Dns(), Nat(), current) ==> Served(Dns(), Nat(), current, cid);
      dnsChanged := GrowDns(cid, current, changed, revision, start, dns, done, clean);
      ghost var between := clean && router.failures == failures;
      natRevision := GrowNat(cid, current, dnsChanged, revision, start, forwards, done,
                             clean && router.failures == failures);
      GrowingFails(codec, dns, Dns(), current.Keys, done + {cid}, DnsWants(current), between,
                   clean && router.failures == failures);
    }

    method Grow(current: map<string, ContainerInfo>, changed: bool, revision: string, ghost start: seq<Call>)
      returns (dnsChanged: bool, natRevision: string)
      requires Decodes(codec) && forall cid :: cid in current ==> codec.valid(cid)
      requires Safe(codec, Dns()) && Safe(codec, Nat()) && PassLog(router.calls, start, changed, revision)
      modifies router, state
      ensures old(router.failures) <= router.failures
      ensures Growing(codec, old(Dns()), Dns(), current.Keys, current.Keys, DnsWants(current),
                      router.failures == old(router.failures))
      ensures Growing(codec, old(Nat()), Nat(), current.Keys, current.Keys, NatWants(current),
                      router.failures == old(router.failures))
      ensures PassLog(router.calls, start, dnsChanged, natRevision)
      ensures AllServed(old(Dns()), old(Nat()), current) ==>
                router.calls == old(router.calls) && Dns() == old(Dns()) && Nat() == old(Nat())
    {
      ghost var dns, forwards, failures := Dns(), Nat(), router.failures;
      ghost var wantsDns, wantsNat := DnsWants(current), NatWants(current);
      dnsChanged, natRevision := changed, revision;
      GrowingStarts(codec, dns, current.Keys, wantsDns);
      GrowingStarts(codec, forwards, current.Keys, wantsNat);
      var ids := ListSet(current.Keys);
      ghost var done, d, n, clean := {}, dns, forwards, true;
      ghost var quiet := AllServed(dns, forwards, current);
      for i := 0 to |ids|
        invariant done == Members(ids[..i])
        invariant failures <= router.failures && clean == (router.failures == failures)
        invariant Dns() == d && Nat() == n
        invariant Growing(codec, dns, d, current.Keys, done, wantsDns, clean)
        invariant Growing(codec, forwards, n, current.Keys, done, wantsNat, clean)
        invariant PassLog(router.calls, start, dnsChanged, natRevision)
        invariant quiet ==> router.calls == old(router.calls) && d == dns && n == forwards
      {
        MembersNext(ids, i);
        dnsChanged, natRevision := GrowOne(ids[i], current, dnsChanged, natRevision, start, dns, forwards, done, clean);
        d, n, clean := Dns(), Nat(), router.failures == failures;
        done := done + {ids[i]};
      }
      MembersAll(ids, current.Keys);
    }

    // ----- A pass -----

    /** Nothing to remove, and nothing to add. */
    ghost predicate Quiet(dns: Side, forwards: Side, current: map<string, ContainerInfo>) {
      && dns.tracked.Keys + forwards.tracked.Keys <= current.Keys
      && AllServed(dns, forwards, current)
    }

    method ReconcileGateway(clients: seq<Client>)
      requires Decodes(codec) && forall cid :: cid in Current(clients, caddyIP) ==> codec.valid(cid)
      requires Safe(codec, Dns()) && Safe(codec, Nat())
      modifies router, state
      ensures old(router.failures) <= router.failures
      // Whichever calls fail: ownership stays safe, and rows that are not ours stay.
      ensures Kept(codec, old(Dns()), Dns()) && Kept(codec, old(Nat()), Nat())
      // If none fails, both tables converge.
      ensures router.failures == old(router.failures) && InSync(codec, old(Dns())) ==>
                var current := Current(clients, caddyIP);
                Converged(codec, old(Dns()), Dns(), current.Keys, DnsWants(current))
      ensures router.failures == old(router.failures) && InSync(codec, old(Nat())) ==>
                var current := Current(clients, caddyIP);
                Converged(codec, old(Nat()), Nat(), current.Keys, NatWants(current))
      // Changes are committed, and only changes.
      ensures CommitLog(old(router.calls), router.calls)
      ensures Quiet(old(Dns()), old(Nat()), Current(clients, caddyIP)) ==>
                router.calls == old(router.calls) && Dns() == old(Dns()) && Nat() == old(Nat())
    {
      var current := ListCurrent(clients, caddyIP);
      var dnsChanged, natRevision := UpdateRows(current);
      ghost var changes := router.calls;
      if dnsChanged {
        router.ReconfigureUnbound();
      }
      if natRevision != "" {
        router.Apply(natRevision);
      }
      assert router.calls == Committed(changes, dnsChanged, natRevision);
    }

    method UpdateRows(current: map<string, ContainerInfo>) returns (dnsChanged: bool, natRevision: string)
      requires Decodes(codec) && forall cid :: cid in current ==> codec.valid(cid)
      requires Safe(codec, Dns()) && Safe(codec, Nat())
      modifies router, state
      ensures old(router.failures) <= router.failures
      ensures Kept(codec, old(Dns()), Dns()) && Kept(codec, old(Nat()), Nat())
      ensures router.failures == old(router.failures) && InSync(codec, old(Dns())) ==>
                Converged(codec, old(Dns()), Dns(), current.Keys, DnsWants(current))
      ensures router.failures == old(router.failures) && InSync(codec, old(Nat())) ==>
                Converged(codec, old(Nat()), Nat(), current.Keys, NatWants(current))
      ensures PassLog(router.calls, old(router.calls), dnsChanged, natRevision)
      ensures Quiet(old(Dns()), old(Nat()), current) ==>
                router.calls == old(router.calls) && Dns() == old(Dns()) && Nat() == old(Nat())
    {
      ghost var dns, forwards, failures, start := Dns(), Nat(), router.failures, router.calls;
      ghost var known;
      dnsChanged, natRevision, known := Prune(current, false, "", start);
      ghost var prunedDns, prunedNat, between := Dns(), Nat(), router.failures;
      dnsChanged, natRevision := Grow(current, dnsChanged, natRevision, start);
      ghost var pruned, grown := between == failures, router.failures == between;
      PassKeeps(codec, dns, prunedDns, Dns(), current.Keys, known, DnsWants(current), pruned, grown);
      PassKeeps(codec, forwards, prunedNat, Nat(), current.Keys, known, NatWants(current), pruned, grown);
    }

    /** Two passes on the same containers: if no call of the first fails, the second makes none. */
    method ReconcileTwice(clients: seq<Client>) returns (ghost clean: bool, ghost firstCalls: seq<Call>)
      requires Decodes(codec) && forall cid :: cid in Current(clients, caddyIP) ==> codec.valid(cid)
      requires InSync(codec, Dns()) && InSync(codec, Nat())
      requires var current := Current(clients, caddyIP);
               forall cid :: cid in current && current[cid].hostIP != "" ==> Steady(read, current[cid].labels)
      modifies router, state
      ensures clean ==> router.calls == firstCalls
      ensures clean ==> var current := Current(clients, caddyIP);
                Converged(codec, old(Dns()), Dns(), current.Keys, DnsWants(current))
                && Converged(codec, old(Nat()), Nat(), current.Keys, NatWants(current))
    {
      ghost var dns, forwards, failures, current := Dns(), Nat(), router.failures, Current(clients, caddyIP);
      ReconcileGateway(clients);
      clean, firstCalls := router.failures == failures, router.calls;
      ghost var dns', forwards' := Dns(), Nat();
      if clean {
        ConvergedQuiet(dns, dns', forwards, forwards', current);
      }
      ReconcileGateway(clients);
    }

    /** After a pass without failures, the next one on the same containers is quiet exactly when every
        container left without port forwards has steady labels. */
    lemma ConvergedQuiet(dns: Side, dns': Side, forwards: Side, forwards': Side, current: map<string, ContainerInfo>)
      requires Converged(codec, dns, dns', current.Keys, DnsWants(current))
      requires Converged(codec, forwards, forwards', current.Keys, NatWants(current))
      ensures Quiet(dns', forwards', current) <==> AllSteady(forwards', current)
    {
      ConvergedTable(codec, dns, dns', current.Keys, DnsWants(current));
      ConvergedTable(codec, forwards, forwards', current.Keys, NatWants(current));
      QuietWhenSteady(dns', forwards', current);
    }

    ghost predicate AllSteady(forwards: Side, current: map<string, ContainerInfo>) {
      forall cid :: cid in current && current[cid].hostIP != "" && forwards.Of(cid) == [] ==>
          Steady(read, current[cid].labels)
    }

    lemma QuietWhenSteady(dns: Side, forwards: Side, current: map<string, ContainerInfo>)
      requires ServedTable(dns, current.Keys, DnsWants(current))
      requires ServedTable(forwards, current.Keys, NatWants(current))
      ensures Quiet(dns, forwards, current) <==> AllSteady(forwards, current)
    {
      forall cid | cid in current
        ensures Served(dns, forwards, current, cid) <==>
                (current[cid].hostIP != "" && forwards.Of(cid) == [] ==> Steady(read, current[cid].labels))
      {
        ServedWhenSteady(dns, forwards, current, cid);
      }
    }

    lemma ServedWhenSteady(dns: Side, forwards: Side, current: map<string, ContainerInfo>, cid: string)
      requires cid in current
      requires dns.Of(cid) == [] ==> DnsWants(current)(cid, [])
      requires forwards.Of(cid) == [] ==> NatWants(current)(cid, [])
      ensures Served(dns, forwards, current, cid) <==>
              (current[cid].hostIP != "" && forwards.Of(cid) == [] ==> Steady(read, current[cid].labels))
    {
      if forwards.Of(cid) == [] {
        ForwardsSteady(read, codec, current[cid], cid);
        assert forall rows :: NatWants(current)(cid, rows) <==> DesiredForwards(codec, read, current[cid], cid, rows);
      }
    }
  }

  /** Given that a container may ask for no port forwards, it never asks for any exactly when its labels are steady. */
  lemma ForwardsSteady(read: Reader, c: Codec, info: ContainerInfo, cid: string)
    requires DesiredForwards(c, read, info, cid, [])
    ensures (forall rows :: DesiredForwards(c, read, info, cid, rows) ==> rows == []) <==>
            (info.hostIP != "" ==> Steady(read, info.labels))
  {
    if info.hostIP != "" {
      SteadyExact(read, info.labels, info.hostIP, Describing(c, cid));
      var none :| IsForwards(c, read, info, cid, none, []);
      forall rules | RulesOf(read, info.labels, info.hostIP, Describing(c, cid), rules)
        ensures IsForwards(c, read, info, cid, rules, rules) && DesiredForwards(c, read, info, cid, rules)
      {
        assert IsForwards(c, read, info, cid, rules, rules);
      }
    }
  }
}
