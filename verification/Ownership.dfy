/** Ownership of router rows over all runs: the events that change one of the router's two tables or
    what is tracked of it (gateway/state.go, loader_gateway.go), for any coding of descriptions. */
module Ownership {
  import opened Seqs
  import opened Listings

  type Uuid = string

  /** How descriptions say whose rows they are. */
  datatype Codec = Codec(
    ours: string -> bool, decode: string -> string, make: (string, string) -> string, valid: string -> bool)

  /** Descriptions made for valid container IDs decode to them. */
  ghost predicate Decodes(c: Codec) {
    forall cid, extra :: c.valid(cid) ==>
      cid != "" && c.ours(c.make(cid, extra)) && c.decode(c.make(cid, extra)) == cid
  }

  datatype Rule = HostOverride(hostname: string, domain: string, server: string)
                | NatRule(interfaceName: string, protocol: string, source: string, destinationPort: string,
                          target: string, localPort: string)

  datatype Row = Row(description: string, rule: Rule)

  type Rows = map<Uuid, Row>

  /** `rows` is the router's table and `born` every row it ever had. `tracked` is the State map;
      `taken` are UUIDs removed from it that are still to be deleted, `created` rows that have been
      added on the router and are still to be recorded. */
  datatype Side = Side(
    rows: Rows, born: Rows, tracked: map<string, seq<Uuid>>, taken: multiset<Uuid>, created: map<Uuid, string>)
  {
    /** State.dnsUUIDs[cid], State.natUUIDs[cid] */
    function Of(cid: string): seq<Uuid> {
      if cid in tracked then tracked[cid] else []
    }
  }

  // ----- Events -----

  /** RemoveDNS, RemoveNAT */
  function DoTake(s: Side, cid: string): Side {
    s.(tracked := s.tracked - {cid}, taken := s.taken + multiset(s.Of(cid)))
  }

  /** A delete call. */
  function DoDelete(s: Side, uuid: Uuid, deleted: bool): Side {
    s.(rows := if deleted then s.rows - {uuid} else s.rows, taken := s.taken - multiset{uuid})
  }

  /** An add call that reached the router; without an answer the program never learns the UUID. */
  function DoCreate(s: Side, uuid: Uuid, cid: string, row: Row, answered: bool): Side {
    s.(rows := s.rows[uuid := row], born := s.born[uuid := row],
       created := if answered then s.created[uuid := cid] else s.created)
  }

  /** AddDNS, AddNAT */
  function DoRecord(s: Side, uuid: Uuid): Side
    requires uuid in s.created
  {
    var cid := s.created[uuid];
    s.(tracked := s.tracked[cid := s.Of(cid) + [uuid]], created := s.created - {uuid})
  }

  /** The loop of ReconcileOnStartup over the rows of one table. */
  function Rebuild(c: Codec, rows: Rows, order: seq<Uuid>): map<string, seq<Uuid>>
    requires forall u :: u in order ==> u in rows
  {
    if order == [] then map[]
    else
      var n := |order| - 1;
      var before := Rebuild(c, rows, order[..n]);
      var cid := c.decode(rows[order[n]].description);
      if !c.ours(rows[order[n]].description) || cid == "" then before
      else before[cid := (if cid in before then before[cid] else []) + [order[n]]]
  }

  /** A new process: the maps start empty and are filled if the rows could be listed. */
  function DoRestart(c: Codec, s: Side, order: seq<Uuid>, listed: bool): Side
    requires forall u :: u in order ==> u in s.rows
  {
    s.(tracked := if listed then Rebuild(c, s.rows, order) else map[], taken := multiset{}, created := map[])
  }

  function DoForeignAdd(s: Side, uuid: Uuid, row: Row): Side {
    s.(rows := s.rows[uuid := row], born := s.born[uuid := row])
  }

  function DoForeignDelete(s: Side, uuid: Uuid): Side {
    s.(rows := s.rows - {uuid})
  }

  datatype Event =
    | Take(cid: string)
    | Delete(uuid: Uuid, deleted: bool)
    | Create(uuid: Uuid, cid: string, extra: string, rule: Rule, added: bool, answered: bool)
    | Record(uuid: Uuid)
    | Restart(order: seq<Uuid>, listed: bool)
    | ForeignAdd(uuid: Uuid, row: Row)
    | ForeignDelete(uuid: Uuid)

  /** When an event can happen: the router gives fresh UUIDs, container IDs are valid, and deletes and
      records follow from what the program did before. */
  ghost predicate Allowed(c: Codec, s: Side, e: Event) {
    match e
    case Take(_) => true
    case Delete(uuid, _) => uuid in s.taken
    case Create(uuid, cid, _, _, _, _) => uuid !in s.born && c.valid(cid)
    case Record(uuid) => uuid in s.created
    case Restart(order, _) => Lists(order, s.rows)
    case ForeignAdd(uuid, _) => uuid !in s.born
    case ForeignDelete(_) => true
  }

  ghost function Apply(c: Codec, s: Side, e: Event): Side
    requires Allowed(c, s, e)
  {
    match e
    case Take(cid) => DoTake(s, cid)
    case Delete(uuid, deleted) => DoDelete(s, uuid, deleted)
    case Create(uuid, cid, extra, rule, added, answered) =>
      if added then DoCreate(s, uuid, cid, Row(c.make(cid, extra), rule), answered) else s
    case Record(uuid) => DoRecord(s, uuid)
    case Restart(order, listed) => DoRestart(c, s, order, listed)
    case ForeignAdd(uuid, row) => DoForeignAdd(s, uuid, row)
    case ForeignDelete(uuid) => DoForeignDelete(s, uuid)
  }

  // ----- Ownership safety -----

  /** The UUID was given to a row whose description is ours. */
  ghost predicate IsOurs(c: Codec, born: Rows, uuid: Uuid) {
    uuid in born && c.ours(born[uuid].description)
  }

  /** ... and decodes to the container. */
  ghost predicate RowOf(c: Codec, born: Rows, uuid: Uuid, cid: string) {
    IsOurs(c, born, uuid) && c.decode(born[uuid].description) == cid
  }

  ghost predicate TrackedSafe(c: Codec, born: Rows, tracked: map<string, seq<Uuid>>) {
    && (forall cid :: cid in tracked ==> NoDuplicates(tracked[cid]))
    && (forall cid, u :: cid in tracked && u in tracked[cid] ==> RowOf(c, born, u, cid))
  }

  ghost predicate CreatedSafe(c: Codec, s: Side) {
    forall u :: u in s.created ==> RowOf(c, s.born, u, s.created[u]) && u !in s.Of(s.created[u])
  }

  ghost predicate RowsBorn(s: Side) {
    forall u :: u in s.rows ==> u in s.born && s.rows[u] == s.born[u]
  }

  ghost predicate TakenSafe(c: Codec, s: Side) {
    forall u :: u in s.taken ==> IsOurs(c, s.born, u)
  }

  ghost predicate Safe(c: Codec, s: Side) {
    RowsBorn(s) && TrackedSafe(c, s.born, s.tracked) && TakenSafe(c, s) && CreatedSafe(c, s)
  }

  lemma TakeSafe(c: Codec, s: Side, cid: string)
    requires Safe(c, s)
    ensures Safe(c, DoTake(s, cid))
  {
    var t := DoTake(s, cid);
    forall u | u in t.taken ensures IsOurs(c, t.born, u) {
      assert u in s.taken || u in s.Of(cid);
      assert u in s.Of(cid) ==> RowOf(c, s.born, u, cid);
    }
  }

  lemma CreateSafe(c: Codec, s: Side, uuid: Uuid, cid: string, row: Row, answered: bool)
    requires Safe(c, s) && uuid !in s.born && c.ours(row.description) && c.decode(row.description) == cid
    ensures Safe(c, DoCreate(s, uuid, cid, row, answered))
  {
    var t := DoCreate(s, uuid, cid, row, answered);
    forall u, id | RowOf(c, s.born, u, id) ensures RowOf(c, t.born, u, id) {}
    assert RowOf(c, t.born, uuid, cid);
    assert uuid in s.Of(cid) ==> RowOf(c, s.born, uuid, cid);
  }

  lemma RecordSafe(c: Codec, s: Side, uuid: Uuid)
    requires Safe(c, s) && uuid in s.created
    ensures Safe(c, DoRecord(s, uuid))
  {
    var t, cid := DoRecord(s, uuid), s.created[uuid];
    assert RowOf(c, s.born, uuid, cid);
    assert NoDuplicates(t.tracked[cid]);
    forall id, u | id in t.tracked && u in t.tracked[id] ensures RowOf(c, t.born, u, id) {
      if id == cid && u != uuid {
        assert u in s.Of(cid);
      }
    }
    forall u | u in t.created ensures RowOf(c, t.born, u, t.created[u]) && u !in t.Of(t.created[u]) {
      assert RowOf(c, s.born, u, s.created[u]) && u !in s.Of(s.created[u]);
    }
  }

  lemma {:induction false} RebuildSafe(c: Codec, rows: Rows, order: seq<Uuid>)
    requires NoDuplicates(order) && forall u :: u in order ==> u in rows
    ensures TrackedSafe(c, rows, Rebuild(c, rows, order))
    ensures forall cid, u :: cid in Rebuild(c, rows, order) && u in Rebuild(c, rows, order)[cid] ==>
        u in order && cid != ""
    ensures forall u :: u in order && c.ours(rows[u].description) && c.decode(rows[u].description) != "" ==>
              c.decode(rows[u].description) in Rebuild(c, rows, order)
              && u in Rebuild(c, rows, order)[c.decode(rows[u].description)]
    decreases |order|
  {
    if order != [] {
      var n := |order| - 1;
      var last := order[n];
      RebuildSafe(c, rows, order[..n]);
      assert last !in order[..n];
      assert forall u :: u in order <==> u == last || u in order[..n];
    }
  }

  lemma RestartSafe(c: Codec, s: Side, order: seq<Uuid>, listed: bool)
    requires Safe(c, s) && Lists(order, s.rows)
    ensures Safe(c, DoRestart(c, s, order, listed))
  {
    RebuildSafe(c, s.rows, order);
    var t := Rebuild(c, s.rows, order);
    forall cid, u | cid in t && u in t[cid] ensures RowOf(c, s.born, u, cid) {
      assert RowOf(c, s.rows, u, cid);
    }
  }

  lemma ForeignSafe(c: Codec, s: Side, uuid: Uuid, row: Row)
    requires Safe(c, s)
    ensures uuid !in s.born ==> Safe(c, DoForeignAdd(s, uuid, row))
    ensures Safe(c, DoForeignDelete(s, uuid))
  {
    var t := DoForeignAdd(s, uuid, row);
    if uuid !in s.born {
      forall u, id | RowOf(c, s.born, u, id) ensures RowOf(c, t.born, u, id) {}
      forall u | IsOurs(c, s.born, u) ensures IsOurs(c, t.born, u) {}
    }
  }

  /** Every event keeps ownership safe, whichever calls fail. */
  lemma StepSafe(c: Codec, s: Side, e: Event)
    requires Decodes(c) && Safe(c, s) && Allowed(c, s, e)
    ensures Safe(c, Apply(c, s, e))
  {
    match e
    case Take(cid) => TakeSafe(c, s, cid);
    case Delete(uuid, deleted) =>
    case Create(uuid, cid, extra, rule, added, answered) =>
      if added {
        CreateSafe(c, s, uuid, cid, Row(c.make(cid, extra), rule), answered);
      }
    case Record(uuid) => RecordSafe(c, s, uuid);
    case Restart(order, listed) => RestartSafe(c, s, order, listed);
    case ForeignAdd(uuid, row) => ForeignSafe(c, s, uuid, row);
    case ForeignDelete(uuid) => ForeignSafe(c, s, uuid, Row("", HostOverride("", "", "")));
  }

  /** Only somebody else removes a row that is not ours. */
  lemma StepKeepsForeign(c: Codec, s: Side, e: Event, uuid: Uuid)
    requires Safe(c, s) && Allowed(c, s, e)
    requires uuid in s.rows && !c.ours(s.rows[uuid].description) && e != ForeignDelete(uuid)
    ensures uuid in Apply(c, s, e).rows && Apply(c, s, e).rows[uuid] == s.rows[uuid]
  {
    if e.Delete? {
      assert IsOurs(c, s.born, e.uuid);
    }
  }

  /** A run: any events, of any number of passes, failures and restarts, in any order. */
  ghost predicate RunOf(c: Codec, s: Side, events: seq<Event>)
    decreases |events|
  {
    events == [] || (Allowed(c, s, events[0]) && RunOf(c, Apply(c, s, events[0]), events[1..]))
  }

  ghost function AfterEvents(c: Codec, s: Side, events: seq<Event>): Side
    requires RunOf(c, s, events)
    decreases |events|
  {
    if events == [] then s else AfterEvents(c, Apply(c, s, events[0]), events[1..])
  }

  /** In every reachable state ownership is safe, and rows that are not ours are still there unless
      somebody else deleted them. */
  lemma {:induction false} RunSafe(c: Codec, s: Side, events: seq<Event>)
    requires Decodes(c) && Safe(c, s) && RunOf(c, s, events)
    ensures Safe(c, AfterEvents(c, s, events))
    ensures forall u :: u in s.rows && !c.ours(s.rows[u].description) && ForeignDelete(u) !in events ==>
              u in AfterEvents(c, s, events).rows && AfterEvents(c, s, events).rows[u] == s.rows[u]
    decreases |events|
  {
    if events != [] {
      var t := Apply(c, s, events[0]);
      StepSafe(c, s, events[0]);
      RunSafe(c, t, events[1..]);
      forall u | u in s.rows && !c.ours(s.rows[u].description) && ForeignDelete(u) !in events
        ensures u in AfterEvents(c, s, events).rows && AfterEvents(c, s, events).rows[u] == s.rows[u]
      {
        StepKeepsForeign(c, s, events[0], u);
      }
    }
  }

  /** No UUID is tracked twice, in one container or in two. */
  lemma TrackedDistinct(c: Codec, s: Side, c1: string, i1: nat, c2: string, i2: nat)
    requires Safe(c, s) && i1 < |s.Of(c1)| && i2 < |s.Of(c2)| && s.Of(c1)[i1] == s.Of(c2)[i2]
    ensures c1 == c2 && i1 == i2
  {
    assert RowOf(c, s.born, s.tracked[c1][i1], c1) && RowOf(c, s.born, s.tracked[c2][i2], c2);
  }

  // ----- Our rows and what is tracked stay in step -----

  ghost function OwnRows(c: Codec, rows: Rows): set<Uuid> {
    set u | u in rows && c.ours(rows[u].description)
  }

  ghost function TrackedSet(s: Side): set<Uuid> {
    set cid, u | cid in s.tracked && u in s.tracked[cid] :: u
  }

  ghost function TakenSet(s: Side): set<Uuid> {
    set u | u in s.taken
  }

  /** Our rows on the router are exactly the UUIDs that are tracked or on their way in or out, and no UUID
      is in two of these states. */
  ghost predicate InSync(c: Codec, s: Side) {
    && Safe(c, s)
    && OwnRows(c, s.rows) == TrackedSet(s) + TakenSet(s) + s.created.Keys
    && TrackedSet(s) !! TakenSet(s) && TrackedSet(s) !! s.created.Keys && TakenSet(s) !! s.created.Keys
    && (forall u :: s.taken[u] <= 1)
    && (forall u :: u in OwnRows(c, s.rows) ==> c.decode(s.rows[u].description) != "")
  }

  /** Calls succeed and are answered, and nobody else touches our rows. */
  ghost predicate Faultless(c: Codec, s: Side, e: Event) {
    match e
    case Delete(_, deleted) => deleted
    case Create(_, _, _, _, added, answered) => added && answered
    case Restart(_, listed) => listed
    case ForeignAdd(_, row) => !c.ours(row.description)
    case ForeignDelete(uuid) => uuid !in OwnRows(c, s.rows)
    case _ => true
  }

  lemma {:induction false} NoDuplicatesCount<T>(s: seq<T>)
    requires NoDuplicates(s)
    ensures forall x :: multiset(s)[x] <= 1
    decreases |s|
  {
    if s != [] {
      HeadContents(s);
      NoDuplicatesCount(s[1..]);
      assert s[0] !in s[1..];
    }
  }

  ghost function Members<T>(s: seq<T>): set<T> {
    set x | x in s
  }

  lemma MembersNext<T>(s: seq<T>, i: nat)
    requires i < |s|
    ensures s[i] in s && Members(s[..i + 1]) == Members(s[..i]) + {s[i]}
    ensures NoDuplicates(s) ==> s[i] !in Members(s[..i])
  {
  }

  lemma MembersAll<T>(s: seq<T>, all: set<T>)
    requires forall x :: x in s <==> x in all
    ensures Members(s[..|s|]) == all
  {
    assert s[..|s|] == s;
  }

  lemma TakeMoves(c: Codec, s: Side, cid: string)
    requires Safe(c, s)
    ensures TrackedSet(DoTake(s, cid)) == TrackedSet(s) - Members(s.Of(cid))
    ensures TakenSet(DoTake(s, cid)) == TakenSet(s) + Members(s.Of(cid))
    ensures Members(s.Of(cid)) <= TrackedSet(s)
    ensures forall u :: DoTake(s, cid).taken[u] <= s.taken[u] + 1
    ensures forall u :: u !in Members(s.Of(cid)) ==> DoTake(s, cid).taken[u] == s.taken[u]
  {
    var t := DoTake(s, cid);
    forall u | u in TrackedSet(s) && u !in Members(s.Of(cid)) ensures u in TrackedSet(t) {
      var id :| id in s.tracked && u in s.tracked[id];
      assert id in t.tracked;
    }
    forall u | u in TrackedSet(t) ensures u in TrackedSet(s) && u !in Members(s.Of(cid)) {
      var id :| id in t.tracked && u in t.tracked[id];
      assert RowOf(c, s.born, u, id);
      assert u in s.Of(cid) ==> RowOf(c, s.born, u, cid);
    }
    NoDuplicatesCount(s.Of(cid));
    forall u | u in t.taken ensures u in s.taken || u in s.Of(cid) {
    }
  }

  lemma TakeInSync(c: Codec, s: Side, cid: string)
    requires InSync(c, s)
    ensures InSync(c, DoTake(s, cid))
  {
    TakeSafe(c, s, cid);
    TakeMoves(c, s, cid);
    forall u ensures DoTake(s, cid).taken[u] <= 1 {
      if u in Members(s.Of(cid)) {
        assert u !in TakenSet(s);
      }
    }
  }

  lemma RecordInSync(c: Codec, s: Side, uuid: Uuid)
    requires InSync(c, s) && uuid in s.created
    ensures InSync(c, DoRecord(s, uuid))
  {
    var t, cid := DoRecord(s, uuid), s.created[uuid];
    RecordSafe(c, s, uuid);
    forall u | u in TrackedSet(s) + {uuid} ensures u in TrackedSet(t) {
      if u == uuid {
        assert u in t.tracked[cid];
      } else {
        var id :| id in s.tracked && u in s.tracked[id];
        assert id in t.tracked && u in t.tracked[id];
      }
    }
    forall u | u in TrackedSet(t) ensures u in TrackedSet(s) + {uuid} {
      var id :| id in t.tracked && u in t.tracked[id];
      if id == cid && u != uuid { assert u in s.Of(cid); }
    }
    assert TrackedSet(t) == TrackedSet(s) + {uuid};
    assert t.created.Keys == s.created.Keys - {uuid};
  }

  lemma OwnRowsAdd(c: Codec, rows: Rows, uuid: Uuid, row: Row)
    requires uuid !in rows
    ensures OwnRows(c, rows[uuid := row]) == OwnRows(c, rows) + (if c.ours(row.description) then {uuid} else {})
  {
  }

  lemma OwnRowsDelete(c: Codec, rows: Rows, uuid: Uuid)
    ensures OwnRows(c, rows - {uuid}) == OwnRows(c, rows) - {uuid}
  {
  }

  lemma CreateInSync(c: Codec, s: Side, uuid: Uuid, cid: string, row: Row)
    requires InSync(c, s) && uuid !in s.born && c.ours(row.description) && c.decode(row.description) == cid && cid != ""
    ensures InSync(c, DoCreate(s, uuid, cid, row, true))
  {
    var t := DoCreate(s, uuid, cid, row, true);
    CreateSafe(c, s, uuid, cid, row, true);
    assert uuid !in s.rows;
    OwnRowsAdd(c, s.rows, uuid, row);
    assert t.tracked == s.tracked && TrackedSet(t) == TrackedSet(s);
    assert t.taken == s.taken && TakenSet(t) == TakenSet(s);
    assert t.created.Keys == s.created.Keys + {uuid};
  }

  /** After a restart exactly our rows are tracked. */
  lemma RestartInSync(c: Codec, s: Side, order: seq<Uuid>)
    requires Safe(c, s) && Lists(order, s.rows)
    requires forall u :: u in OwnRows(c, s.rows) ==> c.decode(s.rows[u].description) != ""
    ensures TrackedSet(DoRestart(c, s, order, true)) == OwnRows(c, s.rows)
    ensures InSync(c, DoRestart(c, s, order, true))
  {
    var t := DoRestart(c, s, order, true);
    RestartSafe(c, s, order, true);
    RebuildSafe(c, s.rows, order);
    forall u | u in TrackedSet(t) ensures u in OwnRows(c, s.rows) {
      var id :| id in t.tracked && u in t.tracked[id];
      assert RowOf(c, s.rows, u, id);
    }
    forall u | u in OwnRows(c, s.rows) ensures u in TrackedSet(t) {
      assert u in order;
    }
  }

  lemma DeleteInSync(c: Codec, s: Side, uuid: Uuid)
    requires InSync(c, s) && uuid in s.taken
    ensures InSync(c, DoDelete(s, uuid, true))
  {
    var t := DoDelete(s, uuid, true);
    OwnRowsDelete(c, s.rows, uuid);
    assert t.tracked == s.tracked && TrackedSet(t) == TrackedSet(s);
    assert TakenSet(t) == TakenSet(s) - {uuid};
    assert uuid in TakenSet(s);
  }

  lemma ForeignInSync(c: Codec, s: Side, uuid: Uuid, row: Row)
    requires InSync(c, s)
    ensures uuid !in s.born && !c.ours(row.description) ==> InSync(c, DoForeignAdd(s, uuid, row))
    ensures uuid !in OwnRows(c, s.rows) ==> InSync(c, DoForeignDelete(s, uuid))
  {
    ForeignSafe(c, s, uuid, row);
    OwnRowsDelete(c, s.rows, uuid);
    var t, d := DoForeignAdd(s, uuid, row), DoForeignDelete(s, uuid);
    assert TrackedSet(t) == TrackedSet(s) == TrackedSet(d);
    assert TakenSet(t) == TakenSet(s) == TakenSet(d);
    if uuid !in s.born {
      assert uuid !in s.rows;
      OwnRowsAdd(c, s.rows, uuid, row);
    }
  }

  lemma StepInSync(c: Codec, s: Side, e: Event)
    requires Decodes(c) && InSync(c, s) && Allowed(c, s, e) && Faultless(c, s, e)
    ensures InSync(c, Apply(c, s, e))
  {
    match e
    case Take(cid) => TakeInSync(c, s, cid);
    case Create(uuid, cid, extra, rule, added, answered) =>
      CreateInSync(c, s, uuid, cid, Row(c.make(cid, extra), rule));
    case Record(uuid) => RecordInSync(c, s, uuid);
    case Restart(order, listed) => RestartInSync(c, s, order);
    case Delete(uuid, deleted) => DeleteInSync(c, s, uuid);
    case ForeignAdd(uuid, row) => ForeignInSync(c, s, uuid, row);
    case ForeignDelete(uuid) => ForeignInSync(c, s, uuid, Row("", HostOverride("", "", "")));
  }

  ghost predicate FaultlessRun(c: Codec, s: Side, events: seq<Event>)
    requires RunOf(c, s, events)
    decreases |events|
  {
    events == [] || (Faultless(c, s, events[0]) && FaultlessRun(c, Apply(c, s, events[0]), events[1..]))
  }

  lemma {:induction false} RunInSync(c: Codec, s: Side, events: seq<Event>)
    requires Decodes(c) && InSync(c, s) && RunOf(c, s, events) && FaultlessRun(c, s, events)
    ensures InSync(c, AfterEvents(c, s, events))
    decreases |events|
  {
    if events != [] {
      StepInSync(c, s, events[0]);
      RunInSync(c, Apply(c, s, events[0]), events[1..]);
    }
  }

  /** Between passes a new process finds, for every container, the UUIDs the old one tracked. */
  lemma RestartRecovers(c: Codec, s: Side, order: seq<Uuid>, cid: string)
    requires InSync(c, s) && s.taken == multiset{} && s.created == map[] && Lists(order, s.rows)
    ensures multiset(DoRestart(c, s, order, true).Of(cid)) == multiset(s.Of(cid))
  {
    var t := DoRestart(c, s, order, true);
    RestartInSync(c, s, order);
    assert TrackedSet(t) == TrackedSet(s);
    SameMembers(c, s, t, cid);
    SameMembers(c, t, s, cid);
    NoDuplicatesCount(s.Of(cid));
    NoDuplicatesCount(t.Of(cid));
    forall u ensures multiset(t.Of(cid))[u] == multiset(s.Of(cid))[u] {
      assert u in t.Of(cid) <==> u in s.Of(cid);
      assert u in multiset(t.Of(cid)) <==> u in t.Of(cid);
      assert u in multiset(s.Of(cid)) <==> u in s.Of(cid);
    }
  }

  lemma SameMembers(c: Codec, s: Side, t: Side, cid: string)
    requires Safe(c, s) && Safe(c, t) && s.born == t.born && TrackedSet(s) <= TrackedSet(t)
    ensures forall u :: u in s.Of(cid) ==> u in t.Of(cid)
  {
    forall u | u in s.Of(cid) ensures u in t.Of(cid) {
      assert u in TrackedSet(s);
      var id :| id in t.tracked && u in t.tracked[id];
      assert RowOf(c, s.born, u, cid) && RowOf(c, t.born, u, id);
    }
  }

  /** Restart recovery: whatever faultless passes, restarts and foreign edits came before. */
  lemma RestartRecovery(c: Codec, s: Side, events: seq<Event>, order: seq<Uuid>, cid: string)
    requires Decodes(c) && InSync(c, s) && RunOf(c, s, events) && FaultlessRun(c, s, events)
    requires var t := AfterEvents(c, s, events); t.taken == multiset{} && t.created == map[] && Lists(order, t.rows)
    ensures var t := AfterEvents(c, s, events);
            multiset(DoRestart(c, t, order, true).Of(cid)) == multiset(t.Of(cid))
  {
    RunInSync(c, s, events);
    RestartRecovers(c, AfterEvents(c, s, events), order, cid);
  }
}
