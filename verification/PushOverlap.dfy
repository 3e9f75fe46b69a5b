/** What overlapping updates can do to each other although no call fails (loader.go). */
module PushOverlap {
  import opened Seqs
  import opened Pushing
  import opened PushResults

  lemma Then(env: Env, s: Loader, actions: seq<Action>, a: Action)
    requires Run(env, s, actions) && Enabled(After(env, s, actions), a)
    ensures Run(env, s, actions + [a]) && After(env, s, actions + [a]) == Next(env, After(env, s, actions), a)
    decreases |actions|
  {
    if actions == [] {
      assert actions + [a] == [a] && [a][1..] == [];
    } else {
      assert (actions + [a])[1..] == actions[1..] + [a];
      Then(env, Next(env, s, actions[0]), actions[1..], a);
    }
  }

  /** An update up to its Store statement. */
  function StoredBy(s: Loader, u: Id, caddyfile: string, servers: seq<Server>): Loader {
    s.(lastCaddyfile := caddyfile, updates := s.updates[u := Update(caddyfile, servers, Stored(true))])
  }

  /** The rest of it, up to its goroutines. */
  function BumpedBy(s: Loader, u: Id, json: Json): Loader
    requires u in s.updates
  {
    s.(writes := s.writes + [json], lastVersion := s.lastVersion + 1,
       updates := s.updates[u := s.updates[u].(step := Spawning(s.updates[u].servers))])
  }

  lemma ToStored(env: Env, s: Loader, actions: seq<Action>, u: Id, caddyfile: string, servers: seq<Server>)
    returns (more: seq<Action>)
    requires Run(env, s, actions)
    requires var t := After(env, s, actions); u !in t.updates && caddyfile != "" && caddyfile != t.lastCaddyfile
    ensures Run(env, s, more) && After(env, s, more) == StoredBy(After(env, s, actions), u, caddyfile, servers)
    ensures more == actions + [Begin(u, caddyfile, servers), Compare(u), Store(u)]
  {
    var t := After(env, s, actions);
    Then(env, s, actions, Begin(u, caddyfile, servers));
    var m1 := actions + [Begin(u, caddyfile, servers)];
    Then(env, s, m1, Compare(u));
    var m2 := m1 + [Compare(u)];
    Then(env, s, m2, Store(u));
    more := m2 + [Store(u)];
    assert After(env, s, more).updates == StoredBy(t, u, caddyfile, servers).updates;
  }

  lemma ToBumped(env: Env, s: Loader, actions: seq<Action>, u: Id, json: Json) returns (more: seq<Action>)
    requires Run(env, s, actions)
    requires var t := After(env, s, actions);
             u in t.updates && t.updates[u].step == Stored(true) && env.adapt(t.updates[u].caddyfile) == Some(json)
    ensures Run(env, s, more) && After(env, s, more) == BumpedBy(After(env, s, actions), u, json)
    ensures more == actions + [Adapt(u), Write(u), Bump(u)]
  {
    var t := After(env, s, actions);
    Then(env, s, actions, Adapt(u));
    var m1 := actions + [Adapt(u)];
    Then(env, s, m1, Write(u));
    var m2 := m1 + [Write(u)];
    Then(env, s, m2, Bump(u));
    more := m2 + [Bump(u)];
    assert After(env, s, more).updates == BumpedBy(t, u, json).updates;
  }

  lemma ToFinished(env: Env, s: Loader, actions: seq<Action>, u: Id) returns (more: seq<Action>)
    requires Run(env, s, actions) && Enabled(After(env, s, actions), Finish(u))
    ensures var t := After(env, s, actions); Run(env, s, more) && After(env, s, more) == t.(updates := t.updates - {u})
    ensures more == actions + [Finish(u)]
  {
    Then(env, s, actions, Finish(u));
    more := actions + [Finish(u)];
  }

  /** Two updates that overlap can end with the configuration of the older Caddyfile. */
  lemma LostUpdate(env: Env, older: string, newer: string) returns (actions: seq<Action>)
    requires older != "" && newer != "" && older != newer
    requires env.adapt(older).Some? && env.adapt(newer).Some? && env.adapt(older) != env.adapt(newer)
    ensures Run(env, INITIAL, actions)
    ensures var s := After(env, INITIAL, actions);
            && s.Idle() && s.lastCaddyfile == newer && !UpToDate(env, s)
            && s.writes == [env.adapt(newer).value, env.adapt(older).value]
  {
    actions := ToStored(env, INITIAL, [], 0, older, []);
    actions := ToStored(env, INITIAL, actions, 1, newer, []);
    actions := ToBumped(env, INITIAL, actions, 1, env.adapt(newer).value);
    actions := ToFinished(env, INITIAL, actions, 1);
    actions := ToBumped(env, INITIAL, actions, 0, env.adapt(older).value);
    actions := ToFinished(env, INITIAL, actions, 0);
  }

  ghost predicate Repeats(actions: seq<Action>, caddyfile: string) {
    forall i :: 0 <= i < |actions| && actions[i].Begin? ==> actions[i].caddyfile == caddyfile
  }

  ghost predicate Unchanging(s: Loader, update: Update) {
    update.caddyfile == s.lastCaddyfile
    && match update.step
       case Generated => true
       case Compared(changed) => !changed
       case Stored(changed) => !changed
       case Spawning(_) => true
       case _ => false
  }

  ghost predicate AllUnchanging(s: Loader) {
    forall u :: u in s.updates ==> Unchanging(s, s.updates[u])
  }

  lemma UnchangingStep(env: Env, s: Loader, a: Action)
    requires AllUnchanging(s) && Enabled(s, a) && Repeats([a], s.lastCaddyfile)
    ensures var t := Next(env, s, a); AllUnchanging(t) && t.lastCaddyfile == s.lastCaddyfile && t.writes == s.writes
  {
    var t := Next(env, s, a);
    assert a == [a][0];
    if UpdateAction(a) {
      assert Unchanging(s, s.updates[a.u]);
    } else if !a.Begin? {
      assert t.updates == s.updates;
    }
  }

  /** ... and stays so, however many updates follow, until the Caddyfile changes again. */
  lemma {:induction false} StaysStale(env: Env, s: Loader, actions: seq<Action>)
    requires AllUnchanging(s) && Run(env, s, actions) && Repeats(actions, s.lastCaddyfile)
    ensures var t := After(env, s, actions); t.lastCaddyfile == s.lastCaddyfile && t.writes == s.writes
    ensures !UpToDate(env, s) ==> !UpToDate(env, After(env, s, actions))
    decreases |actions|
  {
    if actions != [] {
      assert [actions[0]][0] == actions[0];
      UnchangingStep(env, s, actions[0]);
      forall i | 0 <= i < |actions[1..]| && actions[1..][i].Begin?
        ensures actions[1..][i].caddyfile == s.lastCaddyfile
      {
        assert actions[1..][i] == actions[i + 1];
      }
      StaysStale(env, Next(env, s, actions[0]), actions[1..]);
    }
  }

  // ----- A server left behind -----

  function RecordedBy(s: Loader, p: Id): Loader
    requires p in s.pushers && s.pushers[p].step.Loaded?
  {
    var server, step := s.pushers[p].server, s.pushers[p].step;
    s.(held := s.held[server := Holding(step.index, step.body)], versions := s.versions[server := step.version],
       updating := s.updating - {server}, pushers := s.pushers - {p})
  }

  /** The goroutine p of update u has set the flag. */
  function FlaggedBy(s: Loader, u: Id, p: Id, server: Server): Loader
    requires u in s.updates
  {
    s.(updates := s.updates[u := s.updates[u].(step := Spawning([]))], updating := s.updating[server := p],
       pushers := s.pushers[p := Pusher(u, server, Flagged)])
  }

  lemma ToFlagged(env: Env, s: Loader, actions: seq<Action>, u: Id, p: Id, server: Server) returns (more: seq<Action>)
    requires Run(env, s, actions)
    requires var t := After(env, s, actions);
             u in t.updates && t.updates[u].step == Spawning([server]) && p !in t.pushers && server !in t.updating
    ensures Run(env, s, more) && After(env, s, more) == FlaggedBy(After(env, s, actions), u, p, server)
    ensures more == actions + [Spawn(u, p), TakeFlag(p)]
  {
    var t := After(env, s, actions);
    Then(env, s, actions, Spawn(u, p));
    var m1 := actions + [Spawn(u, p)];
    Then(env, s, m1, TakeFlag(p));
    more := m1 + [TakeFlag(p)];
    assert [server][1..] == [];
    assert After(env, s, more).pushers == FlaggedBy(t, u, p, server).pushers;
  }

  lemma ToLoaded(env: Env, s: Loader, actions: seq<Action>, p: Id, body: Json) returns (more: seq<Action>)
    requires Run(env, s, actions)
    requires var t := After(env, s, actions);
             && p in t.pushers && t.pushers[p].step.Flagged?
             && t.Version(t.pushers[p].server) < t.lastVersion && t.writes != []
             && env.addAdminListen(t.pushers[p].server, t.writes[|t.writes| - 1]) == Some(body)
    ensures var t := After(env, s, actions);
            Run(env, s, more) && After(env, s, more) == PusherAt(t, p, Loaded(t.lastVersion, |t.writes|, body))
    ensures more == actions + [ReadVersion(p), Check(p), Load(p)]
  {
    var t := After(env, s, actions);
    Then(env, s, actions, ReadVersion(p));
    var m1 := actions + [ReadVersion(p)];
    Then(env, s, m1, Check(p));
    var m2 := m1 + [Check(p)];
    Then(env, s, m2, Load(p));
    more := m2 + [Load(p)];
  }

  lemma ToRecorded(env: Env, s: Loader, actions: seq<Action>, p: Id) returns (more: seq<Action>)
    requires Run(env, s, actions)
    requires var t := After(env, s, actions); p in t.pushers && t.pushers[p].step.Loaded?
    ensures Run(env, s, more) && After(env, s, more) == RecordedBy(After(env, s, actions), p)
    ensures more == actions + [Send(p, true, true), Record(p), ClearFlag(p)]
  {
    var t := After(env, s, actions);
    Then(env, s, actions, Send(p, true, true));
    var m1 := actions + [Send(p, true, true)];
    Then(env, s, m1, Record(p));
    var m2 := m1 + [Record(p)];
    Then(env, s, m2, ClearFlag(p));
    more := m2 + [ClearFlag(p)];
    assert After(env, s, more).pushers == RecordedBy(t, p).pushers;
  }

  /** A goroutine that finds the flag set leaves at once. */
  lemma ToSkipped(env: Env, s: Loader, actions: seq<Action>, u: Id, p: Id, server: Server) returns (more: seq<Action>)
    requires Run(env, s, actions)
    requires var t := After(env, s, actions);
             u in t.updates && t.updates[u].step == Spawning([server]) && p !in t.pushers && server in t.updating
    ensures var t := After(env, s, actions);
            && Run(env, s, more)
            && After(env, s, more) == t.(updates := t.updates[u := t.updates[u].(step := Spawning([]))])
    ensures more == actions + [Spawn(u, p), TakeFlag(p)]
  {
    var t := After(env, s, actions);
    Then(env, s, actions, Spawn(u, p));
    var m1 := actions + [Spawn(u, p)];
    Then(env, s, m1, TakeFlag(p));
    more := m1 + [TakeFlag(p)];
    assert [server][1..] == [];
    assert After(env, s, more).pushers == t.pushers;
  }

  ghost predicate NoFailures(actions: seq<Action>) {
    forall i :: 0 <= i < |actions| && actions[i].Send? ==> actions[i].accepted && actions[i].answered
  }

  /** The first update, up to the sending of its configuration. */
  lemma FirstLoads(env: Env, older: string, server: Server, body: Json) returns (actions: seq<Action>)
    requires older != "" && env.adapt(older).Some? && env.addAdminListen(server, env.adapt(older).value) == Some(body)
    ensures Run(env, INITIAL, actions) && NoFailures(actions)
    ensures After(env, INITIAL, actions) ==
            Loader(older, [env.adapt(older).value], 1, map[], map[server := 0], map[],
                   map[0 := Update(older, [server], Spawning([]))], map[0 := Pusher(0, server, Loaded(1, 1, body))])
  {
    var a1 := ToStored(env, INITIAL, [], 0, older, [server]);
    var a2 := ToBumped(env, INITIAL, a1, 0, env.adapt(older).value);
    var a3 := ToFlagged(env, INITIAL, a2, 0, 0, server);
    actions := ToLoaded(env, INITIAL, a3, 0, body);
  }

  /** When a second update meets the flag of the first, all calls can succeed and the server still be left
      with the older configuration when both have ended. */
  lemma LeftBehind(env: Env, older: string, newer: string, server: Server, body: Json) returns (actions: seq<Action>)
    requires older != "" && newer != "" && older != newer && env.adapt(older).Some? && env.adapt(newer).Some?
    requires env.addAdminListen(server, env.adapt(older).value) == Some(body)
    ensures Run(env, INITIAL, actions) && NoFailures(actions)
    ensures var s := After(env, INITIAL, actions);
            && s.Idle() && s.writes == [env.adapt(older).value, env.adapt(newer).value]
            && s.held == map[server := Holding(1, body)] && s.Version(server) == 1 < s.lastVersion
  {
    var a3 := FirstLoads(env, older, server, body);
    var a6 := SecondSkips(env, a3, newer, server);
    var a7 := ToRecorded(env, INITIAL, a6, 0);
    var a8 := ToFinished(env, INITIAL, a7, 1);
    actions := ToFinished(env, INITIAL, a8, 0);
  }

  /** The second update, up to where its goroutine has met the flag. */
  lemma SecondSkips(env: Env, before: seq<Action>, newer: string, server: Server) returns (actions: seq<Action>)
    requires Run(env, INITIAL, before) && NoFailures(before) && newer != "" && env.adapt(newer).Some?
    requires var s := After(env, INITIAL, before);
             1 !in s.updates && 1 !in s.pushers && server in s.updating && s.lastCaddyfile != newer
    ensures Run(env, INITIAL, actions) && NoFailures(actions)
    ensures var s := After(env, INITIAL, before);
            After(env, INITIAL, actions) ==
            s.(lastCaddyfile := newer, writes := s.writes + [env.adapt(newer).value], lastVersion := s.lastVersion + 1,
               updates := s.updates[1 := Update(newer, [server], Spawning([]))])
  {
    var a4 := ToStored(env, INITIAL, before, 1, newer, [server]);
    var a5 := ToBumped(env, INITIAL, a4, 1, env.adapt(newer).value);
    actions := ToSkipped(env, INITIAL, a5, 1, 1, server);
  }

  /** An update whose Caddyfile cannot be adapted pushes nothing, but its Caddyfile is remembered. */
  lemma FailedAdaptation(env: Env, before: seq<Action>, u: Id, caddyfile: string, servers: seq<Server>)
    returns (actions: seq<Action>)
    requires Run(env, INITIAL, before) && caddyfile != "" && env.adapt(caddyfile) == None
    requires var s := After(env, INITIAL, before); u !in s.updates && s.lastCaddyfile != caddyfile
    ensures actions == before + [Begin(u, caddyfile, servers), Compare(u), Store(u), Adapt(u)]
    ensures Run(env, INITIAL, actions)
    ensures After(env, INITIAL, actions) == After(env, INITIAL, before).(lastCaddyfile := caddyfile)
  {
    var s := After(env, INITIAL, before);
    var stored := ToStored(env, INITIAL, before, u, caddyfile, servers);
    Then(env, INITIAL, stored, Adapt(u));
    actions := stored + [Adapt(u)];
    assert s.updates[u := Update(caddyfile, servers, Stored(true))] - {u} == s.updates;
  }

  /** So the next update with that Caddyfile does not try to adapt it again: it pushes what there was before. */
  lemma NotTriedAgain(env: Env, before: seq<Action>, u: Id, caddyfile: string, servers: seq<Server>)
    returns (actions: seq<Action>)
    requires Run(env, INITIAL, before) && caddyfile != ""
    requires var s := After(env, INITIAL, before); u !in s.updates && s.lastCaddyfile == caddyfile
    ensures actions == before + [Begin(u, caddyfile, servers), Compare(u), Store(u), Adapt(u)]
    ensures Run(env, INITIAL, actions)
    ensures var s := After(env, INITIAL, before);
            After(env, INITIAL, actions) ==
            s.(updates := s.updates[u := Update(caddyfile, servers, Spawning(servers))])
  {
    var s := After(env, INITIAL, before);
    Then(env, INITIAL, before, Begin(u, caddyfile, servers));
    var m1 := before + [Begin(u, caddyfile, servers)];
    Then(env, INITIAL, m1, Compare(u));
    var m2 := m1 + [Compare(u)];
    Then(env, INITIAL, m2, Store(u));
    var m3 := m2 + [Store(u)];
    Then(env, INITIAL, m3, Adapt(u));
    actions := m3 + [Adapt(u)];
    assert After(env, INITIAL, actions).updates == s.updates[u := Update(caddyfile, servers, Spawning(servers))];
  }
}
