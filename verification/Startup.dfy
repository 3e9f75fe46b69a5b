/** Startup and the first pass together, with the program's own descriptions and label keys: what failures
    left behind is put right. */
module GatewayStartup {
  import opened Seqs
  import opened Listings
  import opened Ownership
  import opened Gateway
  import opened Reconciling
  import opened NatRules
  import opened GatewayState
  import opened RunningContainers
  import opened GatewayPass

  /** Descriptions with our prefix name a container. */
  ghost predicate OwnNamed(c: Codec, rows: Rows) {
    forall u :: u in rows && c.ours(rows[u].description) ==> c.decode(rows[u].description) != ""
  }

  /** Rows that others add do not pretend to be ours without a container. */
  ghost predicate Honest(c: Codec, e: Event) {
    e.ForeignAdd? ==> c.ours(e.row.description) ==> c.decode(e.row.description) != ""
  }

  lemma StepNamed(c: Codec, s: Side, e: Event)
    requires Decodes(c) && OwnNamed(c, s.born) && Allowed(c, s, e) && Honest(c, e)
    ensures OwnNamed(c, Apply(c, s, e).born)
  {
    if e.Create? {
      assert c.decode(c.make(e.cid, e.extra)) == e.cid;
    }
  }

  lemma {:induction false} RunNamed(c: Codec, s: Side, events: seq<Event>)
    requires Decodes(c) && OwnNamed(c, s.born) && RunOf(c, s, events)
    requires forall i :: 0 <= i < |events| ==> Honest(c, events[i])
    ensures OwnNamed(c, AfterEvents(c, s, events).born)
    decreases |events|
  {
    if events != [] {
      StepNamed(c, s, events[0]);
      RunNamed(c, Apply(c, s, events[0]), events[1..]);
    }
  }

  /** After any run, with any failed calls, a restart that can list the rows tracks exactly our rows. */
  lemma RestartHeals(c: Codec, s: Side, events: seq<Event>, order: seq<Uuid>)
    requires Decodes(c) && Safe(c, s) && OwnNamed(c, s.born) && RunOf(c, s, events)
    requires forall i :: 0 <= i < |events| ==> Honest(c, events[i])
    requires Lists(order, AfterEvents(c, s, events).rows)
    ensures InSync(c, DoRestart(c, AfterEvents(c, s, events), order, true))
  {
    RunSafe(c, s, events);
    RunNamed(c, s, events);
    RestartInSync(c, AfterEvents(c, s, events), order);
  }

  /** A table as it is at startup, and what is then tracked of it; nothing if its rows could not be listed. */
  ghost function Started(rows: Rows, born: Rows, list: Option<seq<Uuid>>): Side
    requires list.Some? ==> Lists(list.value, rows)
  {
    Side(rows, born, if list.Some? then Rebuild(Descriptions(), rows, list.value) else map[], multiset{}, map[])
  }

  /** Startup tracks only rows that are ours; and all of them, if it could list them and they name a container. */
  lemma StartedInSync(rows: Rows, born: Rows, list: Option<seq<Uuid>>)
    requires list.Some? ==> Lists(list.value, rows)
    requires forall u :: u in rows ==> u in born && born[u] == rows[u]
    ensures Safe(Descriptions(), Started(rows, born, list))
    ensures list.Some? && OwnNamed(Descriptions(), rows) ==> InSync(Descriptions(), Started(rows, born, list))
  {
    DescriptionsDecode();
    var s := Side(rows, born, map[], multiset{}, map[]);
    assert Safe(Descriptions(), s);
    if list.Some? {
      RestartSafe(Descriptions(), s, list.value, true);
      if OwnNamed(Descriptions(), rows) {
        RestartInSync(Descriptions(), s, list.value);
      }
    }
  }

  /** Rows whose descriptions do not begin with our tag are there, unchanged, and not tracked. */
  ghost predicate OthersKept(rows: Rows, t: Side) {
    forall u :: u in rows && !(|rows[u].description| >= 17 && rows[u].description[..17] == "[homelab-manager]") ==>
      u in t.rows && t.rows[u] == rows[u] && forall cid :: u !in t.Of(cid)
  }

  lemma KeptOthers(s: Side, t: Side)
    requires Kept(Descriptions(), s, t)
    ensures OthersKept(s.rows, t)
  {
    forall u | u in s.rows && !Tagged(s.rows[u].description)
      ensures u in t.rows && t.rows[u] == s.rows[u] && forall cid :: u !in t.Of(cid)
    {
      OwnedExact(s.rows[u].description);
      assert u in Foreign(Descriptions(), s.rows);
      assert u in Foreign(Descriptions(), t.rows);
      NotTracked(t, u);
    }
  }

  /** Start, and the first pass. Either search at startup can fail, and the second is not tried after the
      first failed; then what it would have found is not tracked. */
  method StartAndReconcile(router: Router, clients: seq<Client>, labelPrefix: string, caddyIP: string,
                           dnsList: Option<seq<Uuid>>, natList: Option<seq<Uuid>>)
    returns (controller: Controller)
    requires dnsList.Some? ==> Lists(dnsList.value, router.dnsRows)
    requires natList.Some? ==> Lists(natList.value, router.natRows)
    requires forall u :: u in router.dnsRows ==> u in router.dnsBorn && router.dnsBorn[u] == router.dnsRows[u]
    requires forall u :: u in router.natRows ==> u in router.natBorn && router.natBorn[u] == router.natRows[u]
    requires forall cid :: cid in Current(clients, caddyIP) ==> ValidID(cid)
    modifies router
    ensures fresh(controller) && controller.codec == Descriptions() && controller.read == ParsePortLabel
    ensures controller.router == router && controller.caddyIP == caddyIP && controller.labelPrefix == labelPrefix
    ensures OthersKept(old(router.dnsRows), controller.Dns()) && OthersKept(old(router.natRows), controller.Nat())
    ensures var natListed := if dnsList.Some? then natList else None;
            var dns, forwards := Started(old(router.dnsRows), old(router.dnsBorn), dnsList),
                                 Started(old(router.natRows), old(router.natBorn), natListed);
            var current := Current(clients, caddyIP);
            && Kept(Descriptions(), dns, controller.Dns()) && Kept(Descriptions(), forwards, controller.Nat())
            && (router.failures == old(router.failures) ==>
                  && (dnsList.Some? && OwnNamed(Descriptions(), old(router.dnsRows)) ==>
                        Converged(Descriptions(), dns, controller.Dns(), current.Keys, controller.DnsWants(current)))
                  && (natListed.Some? && OwnNamed(Descriptions(), old(router.natRows)) ==>
                        Converged(Descriptions(), forwards, controller.Nat(), current.Keys,
                                  controller.NatWants(current))))
  {
    StartedInSync(router.dnsRows, router.dnsBorn, dnsList);
    StartedInSync(router.natRows, router.natBorn, if dnsList.Some? then natList else None);
    DescriptionsDecode();
    var state := new State();
    state.ReconcileOnStartup(dnsList, natList, router);
    controller := new Controller(router, state, Descriptions(), ParsePortLabel, labelPrefix, caddyIP);
    ghost var dns, forwards := controller.Dns(), controller.Nat();
    controller.ReconcileGateway(clients);
    KeptOthers(dns, controller.Dns());
    KeptOthers(forwards, controller.Nat());
  }
}
