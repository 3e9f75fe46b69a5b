/** What holds in every run of overlapping updates, what one update alone achieves, and what overlapping
    costs (loader.go). */
module PushResults {
  import opened Seqs
  import opened Pushing

  // ----- Over all runs -----

  /** A server's recorded version never exceeds the configuration it last accepted, and is not the newest
      version unless the server has the newest configuration. */
  lemma CaughtUp(env: Env, actions: seq<Action>, server: Server)
    requires Run(env, INITIAL, actions)
    ensures var s := After(env, INITIAL, actions);
            && s.Version(server) <= s.HeldIndex(server) <= |s.writes|
            && (Unbumped(s) == {} && s.Version(server) == s.lastVersion > 0 ==>
                  && server in s.held && s.held[server].index == |s.writes|
                  && env.addAdminListen(server, s.writes[|s.writes| - 1]) == Some(s.held[server].body))
  {
    InitialInv(env);
    RunKeeps(env, INITIAL, actions);
  }

  /** Of two goroutines past the flag of the same server, one is the other. */
  lemma OneAtATime(env: Env, actions: seq<Action>, p: Id, q: Id)
    requires Run(env, INITIAL, actions)
    ensures var s := After(env, INITIAL, actions);
            Holds(s, p) && Holds(s, q) && s.pushers[p].server == s.pushers[q].server ==> p == q
  {
    InitialInv(env);
    RunKeeps(env, INITIAL, actions);
  }

  /** When no update is in flight no goroutine is left, no flag is set, and every write has its version. */
  lemma IdleClean(env: Env, s: Loader)
    requires Inv(env, s) && s.Idle()
    ensures s.pushers == map[] && s.updating == map[] && s.lastVersion == |s.writes|
  {
    assert Unbumped(s) == {};
    assert forall server :: server in s.updating ==> Holds(s, s.updating[server]);
  }

  // ----- Where configurations come from -----

  ghost predicate FromAdapter(env: Env, json: Json) {
    exists caddyfile :: env.adapt(caddyfile) == Some(json)
  }

  /** Every configuration is what the adapter made of some Caddyfile. */
  ghost predicate Sourced(env: Env, s: Loader) {
    && (forall i :: 0 <= i < |s.writes| ==> FromAdapter(env, s.writes[i]))
    && (forall u :: u in s.updates && s.updates[u].step.Adapted? ==>
        env.adapt(s.updates[u].caddyfile) == Some(s.updates[u].step.json))
  }

  lemma UpdateSourced(env: Env, s: Loader, a: Action)
    requires Sourced(env, s) && UpdateAction(a) && Enabled(s, a)
    ensures Sourced(env, NextUpdate(env, s, a))
  {
    if a.Write? {
      assert FromAdapter(env, s.updates[a.u].step.json);
    }
  }

  lemma StepSourced(env: Env, s: Loader, a: Action)
    requires Sourced(env, s) && Enabled(s, a)
    ensures Sourced(env, Next(env, s, a))
  {
    if UpdateAction(a) {
      UpdateSourced(env, s, a);
    } else if !a.Begin? {
      PusherFrame(env, s, a);
    }
  }

  lemma PusherFrame(env: Env, s: Loader, a: Action)
    requires !a.Begin? && !UpdateAction(a) && Enabled(s, a)
    ensures var t := NextPusher(env, s, a);
            && t.updates == s.updates && t.writes == s.writes
            && t.lastCaddyfile == s.lastCaddyfile && t.lastVersion == s.lastVersion
  {
  }

  lemma {:induction false} RunSourced(env: Env, s: Loader, actions: seq<Action>)
    requires Sourced(env, s) && Run(env, s, actions)
    ensures Sourced(env, After(env, s, actions))
    decreases |actions|
  {
    if actions != [] {
      StepSourced(env, s, actions[0]);
      RunSourced(env, Next(env, s, actions[0]), actions[1..]);
    }
  }

  /** What a server runs was adapted from some Caddyfile: nothing is pushed before the first adaptation. */
  lemma HeldIsAdapted(env: Env, actions: seq<Action>, server: Server) returns (caddyfile: string, json: Json)
    requires Run(env, INITIAL, actions) && server in After(env, INITIAL, actions).held
    ensures env.adapt(caddyfile) == Some(json)
    ensures env.addAdminListen(server, json) == Some(After(env, INITIAL, actions).held[server].body)
    ensures json in After(env, INITIAL, actions).writes
  {
    InitialInv(env);
    RunKeeps(env, INITIAL, actions);
    RunSourced(env, INITIAL, actions);
    var s := After(env, INITIAL, actions);
    json := s.writes[s.held[server].index - 1];
    caddyfile :| env.adapt(caddyfile) == Some(json);
  }

  // ----- Sections that do not overlap -----

  /** From comparing with lastCaddyfile to writing lastJSONConfig. */
  predicate InSection(update: Update) {
    update.step.Compared? || update.step.Stored? || update.step.Adapted?
  }

  ghost predicate NoSection(s: Loader) {
    forall u :: u in s.updates ==> !InSection(s.updates[u])
  }

  /** No update compares while another is in that section; the pushing of updates may overlap. */
  ghost predicate SectionsApart(env: Env, s: Loader, actions: seq<Action>)
    requires Run(env, s, actions)
    decreases |actions|
  {
    || actions == []
    || ((actions[0].Compare? ==> NoSection(s)) && SectionsApart(env, Next(env, s, actions[0]), actions[1..]))
  }

  /** lastJSONConfig is what the adapter makes of lastCaddyfile, if it adapts. */
  ghost predicate UpToDate(env: Env, s: Loader) {
    s.lastCaddyfile != "" && env.adapt(s.lastCaddyfile).Some? ==>
      s.writes != [] && s.writes[|s.writes| - 1] == env.adapt(s.lastCaddyfile).value
  }

  /** What is known while an update is in its section. */
  ghost predicate SectionInv(env: Env, s: Loader, update: Update) {
    match update.step
    case Compared(changed) => UpToDate(env, s) && changed == (update.caddyfile != s.lastCaddyfile)
    case Stored(changed) => s.lastCaddyfile == update.caddyfile && (changed || UpToDate(env, s))
    case Adapted(json) => s.lastCaddyfile == update.caddyfile && env.adapt(update.caddyfile) == Some(json)
    case _ => true
  }

  ghost predicate UpToDateInv(env: Env, s: Loader) {
    && (forall u, v :: u in s.updates && v in s.updates && InSection(s.updates[u]) && InSection(s.updates[v]) ==>
        u == v)
    && (NoSection(s) ==> UpToDate(env, s))
    && (forall u :: u in s.updates ==> SectionInv(env, s, s.updates[u]))
  }

  /** A step in the section: it goes on, or ends with an up-to-date configuration. */
  lemma SectionStep(env: Env, s: Loader, a: Action)
    requires UpdateAction(a) && Enabled(s, a) && (a.Compare? || InSection(s.updates[a.u]))
    requires SectionInv(env, s, s.updates[a.u]) && (a.Compare? ==> UpToDate(env, s))
    ensures var t := NextUpdate(env, s, a);
            if a.u in t.updates && InSection(t.updates[a.u]) then SectionInv(env, t, t.updates[a.u])
            else UpToDate(env, t)
  {
  }

  lemma SectionFrame(env: Env, s: Loader, a: Action)
    requires Enabled(s, a)
    ensures var t := Next(env, s, a);
            && (forall u :: u in s.updates && (if a.Begin? || UpdateAction(a) then u != a.u else true) ==>
                  u in t.updates && t.updates[u] == s.updates[u])
            && (forall u :: u in t.updates && u !in s.updates ==> a.Begin? && u == a.u && t.updates[u].step.Generated?)
            && (!(UpdateAction(a) && (a.Compare? || InSection(s.updates[a.u]))) ==>
                  t.lastCaddyfile == s.lastCaddyfile && t.writes == s.writes)
  {
  }

  /** A step outside the section. */
  lemma OutsideStep(env: Env, s: Loader, a: Action)
    requires UpdateAction(a) && Enabled(s, a) && !a.Compare? && !InSection(s.updates[a.u])
    ensures var t := NextUpdate(env, s, a); a.u in t.updates ==> !InSection(t.updates[a.u])
  {
  }

  lemma StepUpToDate(env: Env, s: Loader, a: Action)
    requires UpToDateInv(env, s) && Enabled(s, a) && (a.Compare? ==> NoSection(s))
    ensures UpToDateInv(env, Next(env, s, a))
  {
    var t := Next(env, s, a);
    SectionFrame(env, s, a);
    if UpdateAction(a) && (a.Compare? || InSection(s.updates[a.u])) {
      SectionStep(env, s, a);
      forall u | u in t.updates && u != a.u ensures !InSection(t.updates[u]) {
        assert u in s.updates && t.updates[u] == s.updates[u];
      }
    } else {
      if UpdateAction(a) {
        OutsideStep(env, s, a);
      }
      forall u | u in t.updates && InSection(t.updates[u]) ensures u in s.updates && t.updates[u] == s.updates[u] {
        assert u in s.updates;
      }
      assert NoSection(t) ==> NoSection(s);
    }
  }

  lemma {:induction false} RunUpToDate(env: Env, s: Loader, actions: seq<Action>)
    requires UpToDateInv(env, s) && Run(env, s, actions) && SectionsApart(env, s, actions)
    ensures UpToDateInv(env, After(env, s, actions))
    decreases |actions|
  {
    if actions != [] {
      StepUpToDate(env, s, actions[0]);
      RunUpToDate(env, Next(env, s, actions[0]), actions[1..]);
    }
  }

  /** If only these sections do not overlap, the configuration is the one of the last Caddyfile whenever no
      update is in its section. */
  lemma SectionsUpToDate(env: Env, actions: seq<Action>)
    requires Run(env, INITIAL, actions) && SectionsApart(env, INITIAL, actions)
    requires NoSection(After(env, INITIAL, actions))
    ensures UpToDate(env, After(env, INITIAL, actions))
  {
    RunUpToDate(env, INITIAL, actions);
  }

  // ----- What one update alone achieves -----

  /** Pushes are accepted and answered, and the admin address can always be added. */
  ghost predicate FaultlessAction(env: Env, a: Action) {
    && (a.Send? ==> a.accepted && a.answered)
    && forall server, json :: env.addAdminListen(server, json).Some?
  }

  ghost predicate AloneAction(env: Env, a: Action) {
    !a.Begin? && FaultlessAction(env, a)
  }

  ghost predicate ServedNow(s: Loader, server: Server) {
    s.Version(server) >= s.lastVersion
  }

  ghost predicate Underway(s: Loader, p: Id, server: Server) {
    p in s.pushers && s.pushers[p].server == server
  }

  /** A server that is still to be served will be: it is to be spawned, or some goroutine works on it. */
  ghost predicate Attended(s: Loader, server: Server, left: seq<Server>) {
    server in left || ServedNow(s, server) || exists p :: Underway(s, p, server)
  }

  /** A goroutine works with the newest version, and clears its flag when the server has it. */
  ghost predicate Diligent(s: Loader, pusher: Pusher) {
    match pusher.step
    case Starting => true
    case Flagged => true
    case Versioned(version) => version == s.lastVersion
    case Outdated(version) => version == s.lastVersion
    case Loaded(version, _, _) => version == s.lastVersion
    case Answered(version) => version == s.lastVersion
    case Clearing => ServedNow(s, pusher.server)
  }

  /** The one update, as far as it is. */
  ghost predicate Advances(env: Env, s: Loader, update: Update) {
    match update.step
    case Generated => update.caddyfile == s.lastCaddyfile || env.adapt(update.caddyfile).Some?
    case Compared(changed) => changed ==> env.adapt(update.caddyfile).Some?
    case Stored(changed) => changed ==> env.adapt(update.caddyfile).Some?
    case Adapted(_) => true
    case Written => true
    case Spawning(left) => forall server :: server in update.servers ==> Attended(s, server, left)
  }

  ghost predicate AllNewest(s: Loader, servers: seq<Server>) {
    forall server :: server in servers ==> ServedNow(s, server)
  }

  ghost predicate AllDiligent(s: Loader) {
    forall p :: p in s.pushers ==> Diligent(s, s.pushers[p])
  }

  ghost predicate AloneInv(env: Env, s: Loader, u: Id, servers: seq<Server>) {
    && (forall v :: v in s.updates ==> v == u && s.updates[v].servers == servers)
    && AllDiligent(s)
    && if u in s.updates then Advances(env, s, s.updates[u]) else AllNewest(s, servers)
  }

  /** Goroutines run only while their update is spawning or waiting. */
  lemma NoPushers(env: Env, s: Loader, u: Id, servers: seq<Server>)
    requires Awaited(s) && AloneInv(env, s, u, servers) && u in s.updates && !s.updates[u].step.Spawning?
    ensures s.pushers == map[]
  {
  }

  lemma NoneLeft(s: Loader, u: Id)
    requires Awaited(s) && (forall v :: v in s.updates ==> v == u)
    requires forall p :: p in s.pushers ==> s.pushers[p].owner != u
    ensures s.pushers == map[]
  {
  }

  lemma SpawnAttends(s: Loader, t: Loader, p: Id, server: Server, left: seq<Server>)
    requires left != [] && p !in s.pushers && p in t.pushers && t.pushers[p].server == left[0]
    requires t.pushers == s.pushers[p := t.pushers[p]] && t.versions == s.versions && t.lastVersion == s.lastVersion
    requires Attended(s, server, left)
    ensures Attended(t, server, left[1..])
  {
    if server == left[0] {
      assert Underway(t, p, server);
    } else if q :| Underway(s, q, server) {
      assert Underway(t, q, server);
    }
  }

  lemma AloneUpdateStep(env: Env, s: Loader, a: Action, u: Id, servers: seq<Server>)
    requires Awaited(s) && AloneInv(env, s, u, servers) && UpdateAction(a) && Enabled(s, a) && !a.Spawn?
    ensures AloneInv(env, NextUpdate(env, s, a), u, servers)
  {
    var t := NextUpdate(env, s, a);
    if !s.updates[u].step.Spawning? {
      NoPushers(env, s, u, servers);
    } else {
      NoneLeft(s, u);
      forall server | server in servers ensures ServedNow(t, server) {
        assert Attended(s, server, []);
      }
    }
  }

  lemma AloneSpawn(env: Env, s: Loader, p: Id, u: Id, servers: seq<Server>)
    requires AloneInv(env, s, u, servers) && Enabled(s, Spawn(u, p))
    ensures AloneInv(env, NextUpdate(env, s, Spawn(u, p)), u, servers)
  {
    var t := NextUpdate(env, s, Spawn(u, p));
    forall server | server in servers ensures Attended(t, server, t.updates[u].step.left) {
      SpawnAttends(s, t, p, server, s.updates[u].step.left);
    }
  }

  /** What a goroutine does keeps it diligent, and no server loses the newest version. */
  lemma PusherDiligent(env: Env, s: Loader, a: Action)
    requires FlagsHeld(s) && AllDiligent(s) && AloneAction(env, a) && !UpdateAction(a) && Enabled(s, a)
    ensures var t := NextPusher(env, s, a);
            AllDiligent(t) && forall server :: ServedNow(s, server) ==> ServedNow(t, server)
  {
    var t := NextPusher(env, s, a);
    assert Diligent(s, s.pushers[a.p]);
    forall server | ServedNow(s, server) ensures ServedNow(t, server) {}
    forall q | q in t.pushers ensures Diligent(t, t.pushers[q]) {
      if q != a.p {
        assert t.pushers[q] == s.pushers[q] && Diligent(s, s.pushers[q]);
      }
    }
  }

  lemma PusherAttends(env: Env, s: Loader, a: Action, server: Server, left: seq<Server>)
    requires FlagsHeld(s) && AllDiligent(s) && AloneAction(env, a) && !UpdateAction(a) && Enabled(s, a)
    requires Attended(s, server, left)
    ensures Attended(NextPusher(env, s, a), server, left)
  {
    var t := NextPusher(env, s, a);
    PusherDiligent(env, s, a);
    if server !in left && !ServedNow(s, server) {
      var p :| Underway(s, p, server);
      assert Diligent(s, s.pushers[p]);
      if p in t.pushers {
        assert Underway(t, p, server);
      } else {
        assert a.TakeFlag?;
        assert Holds(s, s.updating[server]);
        assert Underway(t, s.updating[server], server);
      }
    }
  }

  lemma AlonePusherStep(env: Env, s: Loader, a: Action, u: Id, servers: seq<Server>)
    requires Inv(env, s) && AloneInv(env, s, u, servers) && AloneAction(env, a) && !UpdateAction(a) && Enabled(s, a)
    ensures AloneInv(env, NextPusher(env, s, a), u, servers)
  {
    var t := NextPusher(env, s, a);
    PusherDiligent(env, s, a);
    assert t.updates == s.updates && t.lastCaddyfile == s.lastCaddyfile;
    if u in s.updates && s.updates[u].step.Spawning? {
      forall server | server in servers ensures Attended(t, server, t.updates[u].step.left) {
        PusherAttends(env, s, a, server, s.updates[u].step.left);
      }
    }
  }

  lemma {:induction false} AloneRun(env: Env, s: Loader, actions: seq<Action>, u: Id, servers: seq<Server>)
    requires Inv(env, s) && AloneInv(env, s, u, servers) && Run(env, s, actions)
    requires forall i :: 0 <= i < |actions| ==> AloneAction(env, actions[i])
    ensures AloneInv(env, After(env, s, actions), u, servers)
    decreases |actions|
  {
    if actions != [] {
      var a := actions[0];
      StepKeeps(env, s, a);
      if a.Spawn? {
        AloneSpawn(env, s, a.p, u, servers);
      } else if UpdateAction(a) {
        AloneUpdateStep(env, s, a, u, servers);
      } else {
        AlonePusherStep(env, s, a, u, servers);
      }
      AloneRun(env, Next(env, s, a), actions[1..], u, servers);
    }
  }

  /** An update that starts when no other is in flight, and its steps until it ends. */
  ghost predicate RunsAlone(env: Env, s: Loader, u: Id, caddyfile: string, servers: seq<Server>, actions: seq<Action>) {
    && s.Idle() && Enabled(s, Begin(u, caddyfile, servers))
    && Run(env, Next(env, s, Begin(u, caddyfile, servers)), actions)
    && (forall i :: 0 <= i < |actions| ==> AloneAction(env, actions[i]))
    && After(env, Next(env, s, Begin(u, caddyfile, servers)), actions).Idle()
  }

  ghost predicate HasNewest(env: Env, s: Loader, server: Server) {
    && s.Version(server) == s.lastVersion == |s.writes|
    && (s.writes != [] ==>
          && server in s.held && s.held[server].index == |s.writes|
          && env.addAdminListen(server, s.writes[|s.writes| - 1]) == Some(s.held[server].body))
  }

  lemma ServedHasNewest(env: Env, s: Loader, server: Server)
    requires Inv(env, s) && s.Idle() && ServedNow(s, server)
    ensures HasNewest(env, s, server)
  {
    IdleClean(env, s);
  }

  lemma AloneFrom(env: Env, s: Loader, u: Id, caddyfile: string, servers: seq<Server>, actions: seq<Action>,
                  server: Server)
    requires Inv(env, s) && RunsAlone(env, s, u, caddyfile, servers, actions) && server in servers
    requires caddyfile == s.lastCaddyfile || env.adapt(caddyfile).Some?
    ensures HasNewest(env, After(env, Next(env, s, Begin(u, caddyfile, servers)), actions), server)
  {
    IdleClean(env, s);
    var started := Next(env, s, Begin(u, caddyfile, servers));
    StepKeeps(env, s, Begin(u, caddyfile, servers));
    AloneRun(env, started, actions, u, servers);
    RunKeeps(env, started, actions);
    ServedHasNewest(env, After(env, started, actions), server);
  }

  /** Whatever happened before: when an update runs alone, its Caddyfile adapts, and its pushes are
      accepted and answered, then in every interleaving of its goroutines all its servers end up with the
      newest configuration. */
  lemma AloneServes(env: Env, before: seq<Action>, u: Id, caddyfile: string, servers: seq<Server>,
                    actions: seq<Action>, server: Server)
    requires Run(env, INITIAL, before) && server in servers
    requires RunsAlone(env, After(env, INITIAL, before), u, caddyfile, servers, actions)
    requires caddyfile == After(env, INITIAL, before).lastCaddyfile || env.adapt(caddyfile).Some?
    ensures var s := After(env, INITIAL, before);
            HasNewest(env, After(env, Next(env, s, Begin(u, caddyfile, servers)), actions), server)
  {
    InitialInv(env);
    RunKeeps(env, INITIAL, before);
    AloneFrom(env, After(env, INITIAL, before), u, caddyfile, servers, actions, server);
  }
}
