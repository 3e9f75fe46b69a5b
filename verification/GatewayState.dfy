/** The State maps (gateway/state.go) and the router's API (gateway/dns.go, gateway/portforward.go). */
module GatewayState {
  import opened Seqs
  import opened Ownership
  import opened Gateway
  import opened Listings

  class State {
    var dnsUUIDs: map<string, seq<Uuid>>  // containerID -> DNS override UUIDs
    var natUUIDs: map<string, seq<Uuid>>  // containerID -> NAT rule UUIDs

    constructor ()
      ensures dnsUUIDs == map[] && natUUIDs == map[]
    {
      dnsUUIDs, natUUIDs := map[], map[];
    }

    method AddDNS(containerID: string, uuid: Uuid)
      modifies this`dnsUUIDs
      ensures dnsUUIDs == old(dnsUUIDs)[containerID := Lookup(old(dnsUUIDs), containerID) + [uuid]]
    {
      dnsUUIDs := dnsUUIDs[containerID := Lookup(dnsUUIDs, containerID) + [uuid]];
    }

    method AddNAT(containerID: string, uuid: Uuid)
      modifies this`natUUIDs
      ensures natUUIDs == old(natUUIDs)[containerID := Lookup(old(natUUIDs), containerID) + [uuid]]
    {
      natUUIDs := natUUIDs[containerID := Lookup(natUUIDs, containerID) + [uuid]];
    }

    method RemoveDNS(containerID: string) returns (uuids: seq<Uuid>)
      modifies this`dnsUUIDs
      ensures uuids == Lookup(old(dnsUUIDs), containerID) && dnsUUIDs == old(dnsUUIDs) - {containerID}
    {
      uuids := Lookup(dnsUUIDs, containerID);
      dnsUUIDs := dnsUUIDs - {containerID};
    }

    method RemoveNAT(containerID: string) returns (uuids: seq<Uuid>)
      modifies this`natUUIDs
      ensures uuids == Lookup(old(natUUIDs), containerID) && natUUIDs == old(natUUIDs) - {containerID}
    {
      uuids := Lookup(natUUIDs, containerID);
      natUUIDs := natUUIDs - {containerID};
    }

    predicate HasDNS(containerID: string)
      reads this`dnsUUIDs
    {
      |Lookup(dnsUUIDs, containerID)| > 0
    }

    predicate HasNAT(containerID: string)
      reads this`natUUIDs
    {
      |Lookup(natUUIDs, containerID)| > 0
    }

    /** In any order: Go goes through a map. */
    method KnownContainerIDs() returns (ids: seq<string>)
      ensures NoDuplicates(ids) && forall id :: id in ids <==> id in dnsUUIDs || id in natUUIDs
    {
      var seen := dnsUUIDs.Keys + natUUIDs.Keys;
      ids := ListSet(seen);
    }

    /** ReconcileOnStartup on a new State; either search may fail. */
    method ReconcileOnStartup(dnsList: Option<seq<Uuid>>, natList: Option<seq<Uuid>>, router: Router)
      requires dnsUUIDs == map[] && natUUIDs == map[]
      requires dnsList.Some? ==> Lists(dnsList.value, router.dnsRows)
      requires natList.Some? ==> Lists(natList.value, router.natRows)
      modifies this
      ensures dnsUUIDs == if dnsList.None? then map[] else Rebuild(Descriptions(), router.dnsRows, dnsList.value)
      ensures natUUIDs == if dnsList.None? || natList.None? then map[]
                          else Rebuild(Descriptions(), router.natRows, natList.value)
    {
      if dnsList.None? {
        return;
      }
      assert dnsList.value[..0] == [];
      for i := 0 to |dnsList.value|
        modifies this`dnsUUIDs
        invariant dnsUUIDs == Rebuild(Descriptions(), router.dnsRows, dnsList.value[..i])
      {
        var uuid := dnsList.value[i];
        assert dnsList.value[..i + 1][..i] == dnsList.value[..i];
        var description := router.dnsRows[uuid].description;
        if !OwnedByUs(description) {
          continue;
        }
        var cid := ExtractContainerID(description);
        if cid == "" {
          continue;
        }
        dnsUUIDs := dnsUUIDs[cid := Lookup(dnsUUIDs, cid) + [uuid]];
      }
      assert dnsList.value[..|dnsList.value|] == dnsList.value;
      if natList.None? {
        return;
      }
      assert natList.value[..0] == [];
      for i := 0 to |natList.value|
        modifies this`natUUIDs
        invariant natUUIDs == Rebuild(Descriptions(), router.natRows, natList.value[..i])
      {
        var uuid := natList.value[i];
        assert natList.value[..i + 1][..i] == natList.value[..i];
        var description := router.natRows[uuid].description;
        if !OwnedByUs(description) {
          continue;
        }
        var cid := ExtractContainerID(description);
        if cid == "" {
          continue;
        }
        natUUIDs := natUUIDs[cid := Lookup(natUUIDs, cid) + [uuid]];
      }
      assert natList.value[..|natList.value|] == natList.value;
    }
  }

  function Lookup(m: map<string, seq<Uuid>>, containerID: string): seq<Uuid> {
    if containerID in m then m[containerID] else []
  }

  datatype Call =
    | DnsChange(ok: bool) | NatChange(ok: bool)
    | SavepointCall(revision: string) | ApplyCall(revision: string) | ReconfigureCall

  /** The router: its tables, every row they ever had, and the calls made. Calls fail as they like; a
      failed call may or may not have had its effect. */
  class Router {
    var dnsRows: Rows
    var natRows: Rows
    var dnsBorn: Rows
    var natBorn: Rows
    var calls: seq<Call>
    ghost var failures: nat

    method AddHostOverride(rule: Rule, description: string) returns (uuid: Uuid, ok: bool)
      modifies this
      ensures natRows == old(natRows) && natBorn == old(natBorn) && calls == old(calls) + [DnsChange(ok)]
      ensures failures == old(failures) + if ok then 0 else 1
      ensures ok ==> Added(old(dnsRows), old(dnsBorn), dnsRows, dnsBorn, uuid, Row(description, rule))
      ensures !ok ==> (dnsRows == old(dnsRows) && dnsBorn == old(dnsBorn))
                      || Added(old(dnsRows), old(dnsBorn), dnsRows, dnsBorn, uuid, Row(description, rule))
    {
      var given: Uuid := *;
      var reached: bool := *;
      var answered: bool := *;
      uuid, ok := given, false;
      if reached && given !in dnsBorn {
        dnsRows, dnsBorn := dnsRows[given := Row(description, rule)], dnsBorn[given := Row(description, rule)];
        ok := answered;
      }
      calls := calls + [DnsChange(ok)];
      failures := failures + if ok then 0 else 1;
    }

    method DelHostOverride(uuid: Uuid) returns (ok: bool)
      modifies this
      ensures natRows == old(natRows) && natBorn == old(natBorn) && dnsBorn == old(dnsBorn)
      ensures calls == old(calls) + [DnsChange(ok)]
      ensures failures == old(failures) + if ok then 0 else 1
      ensures dnsRows == old(dnsRows) - {uuid} || (!ok && dnsRows == old(dnsRows))
    {
      var reached: bool := *;
      var answered: bool := *;
      if reached {
        dnsRows := dnsRows - {uuid};
      }
      ok := reached && answered;
      calls := calls + [DnsChange(ok)];
      failures := failures + if ok then 0 else 1;
    }

    method AddNATRule(rule: Rule, description: string) returns (uuid: Uuid, ok: bool)
      modifies this
      ensures dnsRows == old(dnsRows) && dnsBorn == old(dnsBorn) && calls == old(calls) + [NatChange(ok)]
      ensures failures == old(failures) + if ok then 0 else 1
      ensures ok ==> Added(old(natRows), old(natBorn), natRows, natBorn, uuid, Row(description, rule))
      ensures !ok ==> (natRows == old(natRows) && natBorn == old(natBorn))
                      || Added(old(natRows), old(natBorn), natRows, natBorn, uuid, Row(description, rule))
    {
      var given: Uuid := *;
      var reached: bool := *;
      var answered: bool := *;
      uuid, ok := given, false;
      if reached && given !in natBorn {
        natRows, natBorn := natRows[given := Row(description, rule)], natBorn[given := Row(description, rule)];
        ok := answered;
      }
      calls := calls + [NatChange(ok)];
      failures := failures + if ok then 0 else 1;
    }

    method DelNATRule(uuid: Uuid) returns (ok: bool)
      modifies this
      ensures dnsRows == old(dnsRows) && dnsBorn == old(dnsBorn) && natBorn == old(natBorn)
      ensures calls == old(calls) + [NatChange(ok)]
      ensures failures == old(failures) + if ok then 0 else 1
      ensures natRows == old(natRows) - {uuid} || (!ok && natRows == old(natRows))
    {
      var reached: bool := *;
      var answered: bool := *;
      if reached {
        natRows := natRows - {uuid};
      }
      ok := reached && answered;
      calls := calls + [NatChange(ok)];
      failures := failures + if ok then 0 else 1;
    }

    /** Savepoint: "" stands for a failed call and for an answer without a revision. */
    method Savepoint() returns (revision: string)
      modifies this`calls
      ensures calls == old(calls) + [SavepointCall(revision)]
    {
      revision := *;
      calls := calls + [SavepointCall(revision)];
    }

    method Apply(revision: string)
      modifies this`calls
      ensures calls == old(calls) + [ApplyCall(revision)]
    {
      calls := calls + [ApplyCall(revision)];
    }

    method ReconfigureUnbound()
      modifies this`calls
      ensures calls == old(calls) + [ReconfigureCall]
    {
      calls := calls + [ReconfigureCall];
    }
  }

  ghost predicate Added(rows: Rows, born: Rows, rows': Rows, born': Rows, uuid: Uuid, row: Row) {
    uuid !in born && rows' == rows[uuid := row] && born' == born[uuid := row]
  }
}
