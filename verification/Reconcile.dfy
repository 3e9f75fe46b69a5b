/** What one call sequence of reconcileGateway does to one table: the relations its loops establish. */
module Reconciling {
  import opened Seqs
  import opened Ownership
  import opened Listings

  /** The rows that are not ours. */
  ghost function Foreign(c: Codec, rows: Rows): Rows {
    map u | u in rows && !c.ours(rows[u].description) :: rows[u]
  }

  /** Nothing is on its way in or out: the state between two steps of a pass. */
  ghost predicate Settled(s: Side) {
    s.taken == multiset{} && s.created == map[]
  }

  /** The UUIDs in the list, already removed from the State, are being deleted one by one. */
  function Deleting(s: Side, uuids: seq<Uuid>): Side {
    s.(taken := multiset(uuids))
  }

  lemma DeletingStarts(c: Codec, s: Side, cid: string)
    requires Settled(s)
    ensures DoTake(s, cid) == Deleting(s.(tracked := s.tracked - {cid}), s.Of(cid))
    ensures Safe(c, s) ==> Safe(c, DoTake(s, cid))
    ensures InSync(c, s) ==> InSync(c, DoTake(s, cid))
  {
    assert multiset{} + multiset(s.Of(cid)) == multiset(s.Of(cid));
    if Safe(c, s) { TakeSafe(c, s, cid); }
    if InSync(c, s) { TakeInSync(c, s, cid); }
  }

  lemma DeletingNext(s: Side, uuids: seq<Uuid>, deleted: bool)
    requires uuids != []
    ensures DoDelete(Deleting(s, uuids), uuids[0], deleted)
            == Deleting(s.(rows := if deleted then s.rows - {uuids[0]} else s.rows), uuids[1..])
    ensures uuids[0] in Deleting(s, uuids).taken
  {
    HeadContents(uuids);
    assert multiset(uuids) - multiset{uuids[0]} == multiset(uuids[1..]);
  }

  lemma ForeignWithout(c: Codec, rows: Rows, born: Rows, uuid: Uuid)
    requires IsOurs(c, born, uuid) && (uuid in rows ==> rows[uuid] == born[uuid])
    ensures Foreign(c, rows - {uuid}) == Foreign(c, rows)
  {
  }

  lemma DeletingStep(c: Codec, s: Side, uuids: seq<Uuid>, deleted: bool)
    requires uuids != [] && Safe(c, Deleting(s, uuids))
    ensures var t := s.(rows := if deleted then s.rows - {uuids[0]} else s.rows);
            && Safe(c, Deleting(t, uuids[1..]))
            && (InSync(c, Deleting(s, uuids)) && deleted ==> InSync(c, Deleting(t, uuids[1..])))
            && Foreign(c, t.rows) == Foreign(c, s.rows)
  {
    var d := Deleting(s, uuids);
    DeletingNext(s, uuids, deleted);
    assert IsOurs(c, s.born, uuids[0]);
    ForeignWithout(c, s.rows, s.born, uuids[0]);
    if InSync(c, d) && deleted { DeleteInSync(c, d, uuids[0]); }
  }

  /** The result of removing what is tracked for a container that is gone. */
  ghost predicate Removed(c: Codec, s: Side, t: Side, cid: string) {
    && Safe(c, t) && Settled(t) && t.born == s.born
    && t.tracked == s.tracked - {cid}
    && Foreign(c, t.rows) == Foreign(c, s.rows)
    && (forall u :: u in t.rows ==> u in s.rows && t.rows[u] == s.rows[u])
    && (forall u :: u in s.rows && u !in s.Of(cid) ==> u in t.rows)
  }

  /** The loop over the UUIDs of a container that is gone, after `i` of them. */
  ghost predicate Emptying(c: Codec, s: Side, t: Side, cid: string, i: nat, faultless: bool) {
    var uuids := s.Of(cid);
    && i <= |uuids|
    && Settled(t) && t.born == s.born && t.tracked == s.tracked - {cid}
    && Safe(c, Deleting(t, uuids[i..]))
    && Foreign(c, t.rows) == Foreign(c, s.rows)
    && (forall u :: u in t.rows ==> u in s.rows && t.rows[u] == s.rows[u])
    && (forall u :: u in s.rows && u !in uuids[..i] ==> u in t.rows)
    && (faultless && InSync(c, s) ==> InSync(c, Deleting(t, uuids[i..])))
  }

  lemma EmptyingStarts(c: Codec, s: Side, cid: string)
    requires Safe(c, s) && Settled(s)
    ensures Emptying(c, s, s.(tracked := s.tracked - {cid}), cid, 0, true)
  {
    DeletingStarts(c, s, cid);
    assert s.Of(cid)[0..] == s.Of(cid);
  }

  lemma NextUuid(uuids: seq<Uuid>, i: nat)
    requires i < |uuids|
    ensures uuids[i..] != [] && uuids[i..][0] == uuids[i] && uuids[i..][1..] == uuids[i + 1..]
    ensures forall u :: u in uuids[..i + 1] <==> u in uuids[..i] || u == uuids[i]
  {
    assert uuids[..i + 1] == uuids[..i] + [uuids[i]];
  }

  /** The delete call failed and had no effect. */
  lemma EmptyingFailed(c: Codec, s: Side, t: Side, cid: string, i: nat, before: bool)
    requires Emptying(c, s, t, cid, i, before) && i < |s.Of(cid)|
    ensures Emptying(c, s, t, cid, i + 1, false)
  {
    NextUuid(s.Of(cid), i);
    DeletingStep(c, t, s.Of(cid)[i..], false);
    assert t.(rows := t.rows) == t;
  }

  lemma EmptyingDeleted(c: Codec, s: Side, t: Side, cid: string, i: nat, before: bool)
    requires Emptying(c, s, t, cid, i, before) && i < |s.Of(cid)|
    ensures Emptying(c, s, t.(rows := t.rows - {s.Of(cid)[i]}), cid, i + 1, before)
  {
    NextUuid(s.Of(cid), i);
    DeletingStep(c, t, s.Of(cid)[i..], true);
    RowsLeft(s.rows, t.rows, s.Of(cid), i);
  }

  lemma EmptyingStep(c: Codec, s: Side, t: Side, r: Side, cid: string, i: nat, before: bool, after: bool)
    requires Emptying(c, s, t, cid, i, before) && i < |s.Of(cid)| && (after ==> before)
    requires r == t.(rows := t.rows - {s.Of(cid)[i]}) || (!after && r == t)
    ensures Emptying(c, s, r, cid, i + 1, after)
  {
    if r == t.(rows := t.rows - {s.Of(cid)[i]}) {
      EmptyingDeleted(c, s, t, cid, i, before);
    } else {
      EmptyingFailed(c, s, t, cid, i, before);
    }
  }

  lemma RowsLeft(rows: Rows, left: Rows, uuids: seq<Uuid>, i: nat)
    requires i < |uuids| && (forall u :: u in left ==> u in rows && left[u] == rows[u])
    requires forall u :: u in rows && u !in uuids[..i] ==> u in left
    ensures var fewer := left - {uuids[i]};
            && (forall u :: u in fewer ==> u in rows && fewer[u] == rows[u])
            && (forall u :: u in rows && u !in uuids[..i + 1] ==> u in fewer)
  {
    assert uuids[..i + 1] == uuids[..i] + [uuids[i]];
  }

  lemma EmptyingEnds(c: Codec, s: Side, t: Side, cid: string, faultless: bool)
    requires Emptying(c, s, t, cid, |s.Of(cid)|, faultless)
    ensures Removed(c, s, t, cid)
    ensures faultless && InSync(c, s) ==> InSync(c, t)
  {
    var uuids := s.Of(cid);
    assert uuids[|uuids|..] == [] && uuids[..|uuids|] == uuids;
    assert Deleting(t, []) == t;
  }

  /** The rows that a container's tracked UUIDs name, in order. */
  ghost predicate HasRows(s: Side, cid: string, rows: seq<Row>) {
    |s.Of(cid)| == |rows| && forall i :: 0 <= i < |rows| ==> s.Of(cid)[i] in s.rows && s.rows[s.Of(cid)[i]] == rows[i]
  }

  /** Descriptions of these rows decode to the container. */
  ghost predicate Describe(c: Codec, rows: seq<Row>, cid: string) {
    forall i :: 0 <= i < |rows| ==> c.ours(rows[i].description) && c.decode(rows[i].description) == cid
  }

  /** Adding rows for a container only adds: to the router's table, and to the container's list. */
  ghost predicate Extended(c: Codec, s: Side, t: Side, cid: string) {
    && Safe(c, t) && Settled(t)
    && Foreign(c, t.rows) == Foreign(c, s.rows)
    && (forall u :: u in s.rows ==> u in t.rows && t.rows[u] == s.rows[u])
    && (forall u :: u in s.born ==> u in t.born && t.born[u] == s.born[u])
    && (forall id :: id != cid ==> t.Of(id) == s.Of(id))
    && (forall id :: id in t.tracked ==> id in s.tracked || id == cid)
  }

  /** An add call that was answered, and the UUID recorded. */
  lemma AddAnswered(c: Codec, s: Side, cid: string, uuid: Uuid, row: Row, rows: seq<Row>)
    requires Safe(c, s) && Settled(s) && uuid !in s.born && cid != ""
    requires c.ours(row.description) && c.decode(row.description) == cid
    ensures var t := WithRow(s, cid, uuid, row);
            && Extended(c, s, t, cid)
            && (InSync(c, s) ==> InSync(c, t))
            && (HasRows(s, cid, rows) ==> HasRows(t, cid, rows + [row]))
  {
    var m := DoCreate(s, uuid, cid, row, true);
    CreateRecord(s, cid, uuid, row);
    CreateSafe(c, s, uuid, cid, row, true);
    RecordSafe(c, m, uuid);
    if InSync(c, s) {
      CreateInSync(c, s, uuid, cid, row);
      RecordInSync(c, m, uuid);
    }
    AddedExtends(c, s, cid, uuid, row);
    AddedRows(c, s, WithRow(s, cid, uuid, row), cid, uuid, row, rows);
  }

  /** The side with a new row that is recorded for the container. */
  function WithRow(s: Side, cid: string, uuid: Uuid, row: Row): Side {
    s.(rows := s.rows[uuid := row], born := s.born[uuid := row], tracked := s.tracked[cid := s.Of(cid) + [uuid]])
  }

  lemma CreateRecord(s: Side, cid: string, uuid: Uuid, row: Row)
    requires Settled(s)
    ensures uuid in DoCreate(s, uuid, cid, row, true).created
    ensures DoRecord(DoCreate(s, uuid, cid, row, true), uuid) == WithRow(s, cid, uuid, row)
  {
    var m := DoCreate(s, uuid, cid, row, true);
    assert m.created == map[uuid := cid] && m.created - {uuid} == map[];
  }

  lemma AddedExtends(c: Codec, s: Side, cid: string, uuid: Uuid, row: Row)
    requires Safe(c, s) && Settled(s) && uuid !in s.born && c.ours(row.description)
    requires Safe(c, WithRow(s, cid, uuid, row))
    ensures Extended(c, s, WithRow(s, cid, uuid, row), cid)
  {
    assert uuid !in s.rows;
  }

  lemma AddedRows(c: Codec, s: Side, t: Side, cid: string, uuid: Uuid, row: Row, rows: seq<Row>)
    requires Safe(c, s) && uuid !in s.born && t.rows == s.rows[uuid := row]
    requires t.tracked == s.tracked[cid := s.Of(cid) + [uuid]]
    ensures HasRows(s, cid, rows) ==> HasRows(t, cid, rows + [row])
  {
    if HasRows(s, cid, rows) {
      forall i | 0 <= i < |rows| + 1
        ensures t.Of(cid)[i] in t.rows && t.rows[t.Of(cid)[i]] == (rows + [row])[i]
      {
        if i < |rows| {
          assert s.Of(cid)[i] in s.rows;
          assert t.Of(cid)[i] == s.Of(cid)[i];
        }
      }
    }
  }

  /** An add call that reached the router but was not answered. */
  lemma AddUnanswered(c: Codec, s: Side, cid: string, uuid: Uuid, row: Row)
    requires Safe(c, s) && Settled(s) && uuid !in s.born
    requires c.ours(row.description) && c.decode(row.description) == cid
    ensures Extended(c, s, s.(rows := s.rows[uuid := row], born := s.born[uuid := row]), cid)
  {
    CreateSafe(c, s, uuid, cid, row, false);
    assert uuid !in s.rows;
    assert DoCreate(s, uuid, cid, row, false) == s.(rows := s.rows[uuid := row], born := s.born[uuid := row]);
  }

  lemma ExtendedTransitive(c: Codec, s: Side, t: Side, r: Side, cid: string)
    requires Extended(c, s, t, cid) && Extended(c, t, r, cid)
    ensures Extended(c, s, r, cid)
  {
  }

  /** The loop that adds the rows a container asks for, after `rows` of them. */
  ghost predicate Filling(c: Codec, s: Side, t: Side, cid: string, rows: seq<Row>, faultless: bool) {
    && Extended(c, s, t, cid)
    && (faultless ==> HasRows(t, cid, rows))
    && (faultless && InSync(c, s) ==> InSync(c, t))
  }

  lemma FillingStarts(c: Codec, s: Side, cid: string)
    requires Safe(c, s) && Settled(s) && s.Of(cid) == []
    ensures Filling(c, s, s, cid, [], true)
  {
  }

  lemma FillingAnswered(c: Codec, s: Side, t: Side, cid: string, rows: seq<Row>, uuid: Uuid, row: Row, faultless: bool)
    requires Filling(c, s, t, cid, rows, faultless) && uuid !in t.born && cid != ""
    requires c.ours(row.description) && c.decode(row.description) == cid
    ensures Filling(c, s, WithRow(t, cid, uuid, row), cid, rows + [row], faultless)
  {
    AddAnswered(c, t, cid, uuid, row, rows);
    ExtendedTransitive(c, s, t, WithRow(t, cid, uuid, row), cid);
  }

  lemma FillingFailed(c: Codec, s: Side, t: Side, r: Side, cid: string, rows: seq<Row>, after: seq<Row>,
                      uuid: Uuid, row: Row, faultless: bool)
    requires Filling(c, s, t, cid, rows, faultless)
    requires c.ours(row.description) && c.decode(row.description) == cid
    requires r == t || (uuid !in t.born && r == t.(rows := t.rows[uuid := row], born := t.born[uuid := row]))
    ensures Filling(c, s, r, cid, after, false)
  {
    if r != t {
      AddUnanswered(c, t, cid, uuid, row);
      ExtendedTransitive(c, s, t, r, cid);
    }
  }

  // ----- A whole pass -----

  /** The first loop, when it has been through the IDs in `done`. */
  ghost predicate Pruning(c: Codec, s: Side, t: Side, running: set<string>, done: set<string>, faultless: bool) {
    && Safe(c, t) && Settled(t) && t.born == s.born
    && t.tracked == s.tracked - (done - running)
    && Foreign(c, t.rows) == Foreign(c, s.rows)
    && (forall u :: u in t.rows ==> u in s.rows && t.rows[u] == s.rows[u])
    && (forall id, u :: id in running && u in s.Of(id) && u in s.rows ==> u in t.rows)
    && (faultless && InSync(c, s) ==> InSync(c, t))
  }

  lemma PruningStep(c: Codec, s: Side, t: Side, r: Side, running: set<string>, done: set<string>, cid: string,
                    before: bool, after: bool)
    requires Safe(c, s) && Pruning(c, s, t, running, done, before) && cid !in running && Removed(c, t, r, cid)
    requires (after ==> before)
    requires after && InSync(c, t) ==> InSync(c, r)
    ensures Pruning(c, s, r, running, done + {cid}, after)
  {
    assert s.tracked - (done - running) - {cid} == s.tracked - (done + {cid} - running);
    forall id, u | id in running && u in s.Of(id) && u in s.rows ensures u in r.rows {
      OneOwner(c, s, u, id);
      assert t.Of(cid) == s.Of(cid) || t.Of(cid) == [];
    }
  }

  lemma PruningStarts(c: Codec, s: Side, running: set<string>)
    requires Safe(c, s) && Settled(s)
    ensures Pruning(c, s, s, running, {}, true)
  {
    assert s.tracked - ({} - running) == s.tracked;
  }

  lemma PruningSkip(c: Codec, s: Side, t: Side, running: set<string>, done: set<string>, cid: string, faultless: bool)
    requires Pruning(c, s, t, running, done, faultless) && cid in running
    ensures Pruning(c, s, t, running, done + {cid}, faultless)
  {
    assert done + {cid} - running == done - running;
  }

  /** A UUID is tracked for one container only. */
  lemma OneOwner(c: Codec, s: Side, u: Uuid, cid: string)
    requires Safe(c, s) && u in s.Of(cid)
    ensures forall id :: u in s.Of(id) ==> id == cid
  {
    assert RowOf(c, s.born, u, cid);
    forall id | u in s.Of(id) ensures id == cid {
      assert RowOf(c, s.born, u, id);
    }
  }

  /** The second loop, when it has been through the containers in `done`; `faultless` if no call has failed. */
  ghost predicate Growing(c: Codec, s: Side, t: Side, running: set<string>, done: set<string>,
                          desired: (string, seq<Row>) -> bool, faultless: bool) {
    && Safe(c, t) && Settled(t)
    && Foreign(c, t.rows) == Foreign(c, s.rows)
    && (forall u :: u in s.rows ==> u in t.rows && t.rows[u] == s.rows[u])
    && (forall id :: id in t.tracked ==> id in s.tracked || id in running)
    && (forall id :: id !in done || s.Of(id) != [] ==> t.Of(id) == s.Of(id))
    && (faultless && InSync(c, s) ==> InSync(c, t))
    && (faultless ==> forall id :: id in done && s.Of(id) == [] ==>
        exists rows :: desired(id, rows) && HasRows(t, id, rows))
  }

  lemma GrowingStep(c: Codec, s: Side, t: Side, r: Side, running: set<string>, done: set<string>,
                    desired: (string, seq<Row>) -> bool, before: bool, after: bool, cid: string, rows: seq<Row>)
    requires Growing(c, s, t, running, done, desired, before) && cid in running && cid !in done && (after ==> before)
    requires Extended(c, t, r, cid) && t.Of(cid) == []
    requires after && InSync(c, t) ==> InSync(c, r)
    requires after ==> desired(cid, rows) && HasRows(r, cid, rows)
    ensures Growing(c, s, r, running, done + {cid}, desired, after)
  {
    if after {
      forall id | id in done && s.Of(id) == [] ensures exists rows :: desired(id, rows) && HasRows(r, id, rows) {
        var old_rows :| desired(id, old_rows) && HasRows(t, id, old_rows);
        assert r.Of(id) == t.Of(id);
        assert HasRows(r, id, old_rows);
      }
    }
  }

  lemma GrowingSkip(c: Codec, s: Side, t: Side, running: set<string>, done: set<string>,
                    desired: (string, seq<Row>) -> bool, before: bool, after: bool, cid: string)
    requires Growing(c, s, t, running, done, desired, before) && cid !in done && t.Of(cid) != [] && (after ==> before)
    ensures Growing(c, s, t, running, done + {cid}, desired, after)
  {
  }

  lemma GrowingStarts(c: Codec, s: Side, running: set<string>, desired: (string, seq<Row>) -> bool)
    requires Safe(c, s) && Settled(s)
    ensures Growing(c, s, s, running, {}, desired, true)
  {
  }

  lemma GrowingFails(c: Codec, s: Side, t: Side, running: set<string>, done: set<string>,
                     desired: (string, seq<Row>) -> bool, before: bool, after: bool)
    requires Growing(c, s, t, running, done, desired, before) && (after ==> before)
    ensures Growing(c, s, t, running, done, desired, after)
  {
  }

  /** What a pass without failures leaves. `desired(id, rows)` says that these are the rows a container asks for. */
  ghost predicate Converged(c: Codec, s: Side, t: Side, running: set<string>, desired: (string, seq<Row>) -> bool) {
    && InSync(c, t) && Settled(t)
    && Foreign(c, t.rows) == Foreign(c, s.rows)
    && (forall id :: id in t.tracked ==> id in running)
    && (forall id :: id in running && s.Of(id) != [] ==>
          t.Of(id) == s.Of(id) && forall u :: u in s.Of(id) ==> u in s.rows && u in t.rows && t.rows[u] == s.rows[u])
    && (forall id :: id in running && s.Of(id) == [] ==> exists rows :: desired(id, rows) && HasRows(t, id, rows))
  }

  /** After a pass without failures our rows belong to running containers. */
  lemma ConvergedOwners(c: Codec, s: Side, t: Side, running: set<string>, desired: (string, seq<Row>) -> bool, u: Uuid)
    requires Converged(c, s, t, running, desired) && u in OwnRows(c, t.rows)
    ensures c.decode(t.rows[u].description) in running
  {
    assert u in TrackedSet(t);
    var id :| id in t.tracked && u in t.tracked[id];
    assert RowOf(c, t.born, u, id);
  }

  /** ... and a container that had no rows has exactly the rows it asks for, one each. */
  lemma ConvergedRows(c: Codec, s: Side, t: Side, running: set<string>, desired: (string, seq<Row>) -> bool,
                      cid: string)
    returns (rows: seq<Row>)
    requires Converged(c, s, t, running, desired) && cid in running && s.Of(cid) == [] && cid != ""
    ensures desired(cid, rows) && HasRows(t, cid, rows) && NoDuplicates(t.Of(cid))
    ensures forall u :: u in t.Of(cid) <==>
        u in t.rows && c.ours(t.rows[u].description) && c.decode(t.rows[u].description) == cid
  {
    rows :| desired(cid, rows) && HasRows(t, cid, rows);
    forall u | u in t.rows && c.ours(t.rows[u].description) && c.decode(t.rows[u].description) == cid
      ensures u in t.Of(cid)
    {
      assert u in OwnRows(c, t.rows) && u in TrackedSet(t);
      var id :| id in t.tracked && u in t.tracked[id];
      assert RowOf(c, t.born, u, id);
    }
    forall u | u in t.Of(cid)
      ensures u in t.rows && c.ours(t.rows[u].description) && c.decode(t.rows[u].description) == cid
    {
      assert u in TrackedSet(t) && u in OwnRows(c, t.rows);
      assert RowOf(c, t.born, u, cid);
    }
  }

  /** Both loops together, when no call has failed. */
  lemma PassConverges(c: Codec, s: Side, t: Side, r: Side, running: set<string>, known: set<string>,
                      desired: (string, seq<Row>) -> bool)
    requires Safe(c, s) && InSync(c, s) && Pruning(c, s, t, running, known, true)
    requires forall id :: id in s.tracked ==> id in known
    requires Growing(c, t, r, running, running, desired, true)
    ensures Converged(c, s, r, running, desired)
  {
    assert forall id :: id in t.tracked ==> id in running;
    forall id | id in running ensures t.Of(id) == s.Of(id) {
    }
    forall id, u | id in running && s.Of(id) != [] && u in s.Of(id)
      ensures u in s.rows && u in r.rows && r.rows[u] == s.rows[u]
    {
      assert u in TrackedSet(s);
      assert u in OwnRows(c, s.rows);
    }
  }

  /** What every pass keeps, whichever calls fail. */
  ghost predicate Kept(c: Codec, s: Side, t: Side) {
    Safe(c, t) && Settled(t) && Foreign(c, t.rows) == Foreign(c, s.rows)
  }

  lemma PassKeeps(c: Codec, s: Side, t: Side, r: Side, running: set<string>, known: set<string>,
                  desired: (string, seq<Row>) -> bool, pruned: bool, grown: bool)
    requires Safe(c, s) && Pruning(c, s, t, running, known, pruned)
    requires forall id :: id in s.tracked ==> id in known
    requires Growing(c, t, r, running, running, desired, grown)
    ensures Kept(c, s, r)
    ensures pruned && grown && InSync(c, s) ==> Converged(c, s, r, running, desired)
  {
    if pruned && grown && InSync(c, s) {
      PassConverges(c, s, t, r, running, known, desired);
    }
  }

  /** Rows are tracked for running containers only, and one without rows may ask for none. */
  ghost predicate ServedTable(t: Side, running: set<string>, desired: (string, seq<Row>) -> bool) {
    t.tracked.Keys <= running && forall id :: id in running && t.Of(id) == [] ==> desired(id, [])
  }

  lemma ConvergedTable(c: Codec, s: Side, t: Side, running: set<string>, desired: (string, seq<Row>) -> bool)
    requires Converged(c, s, t, running, desired)
    ensures ServedTable(t, running, desired)
  {
    forall id | id in running && t.Of(id) == [] ensures desired(id, []) {
      var rows :| desired(id, rows) && HasRows(t, id, rows);
      assert rows == [];
    }
  }
}
