/** Pushing configurations to the controlled servers (update and updateServer in loader.go): overlapping
    updates, and one goroutine per server for each, as interleaved steps. */
module Pushing {
  import opened Seqs

  type Id = nat
  type Server = string
  type Json = string

  /** The libraries: the Caddyfile adapter, and the admin address added for a server. Both may fail. */
  datatype Env = Env(adapt: string -> Option<Json>, addAdminListen: (Server, Json) -> Option<Json>)

  /** Where an update is. Compare and Store are the two statements on lastCaddyfile, Write and Bump those on
      lastJSONConfig and lastVersion. */
  datatype UpdateStep =
    | Generated
    | Compared(changed: bool)
    | Stored(changed: bool)
    | Adapted(json: Json)
    | Written
    | Spawning(left: seq<Server>)

  datatype Update = Update(caddyfile: string, servers: seq<Server>, step: UpdateStep)

  /** Where a goroutine of updateServer is. From Flagged on it holds the updating flag of its server. */
  datatype PusherStep =
    | Starting
    | Flagged
    | Versioned(version: nat)
    | Outdated(version: nat)
    | Loaded(version: nat, index: nat, body: Json)
    | Answered(version: nat)
    | Clearing

  datatype Pusher = Pusher(owner: Id, server: Server, step: PusherStep)

  /** What a server runs: which write of lastJSONConfig it came from, and the text. */
  datatype Holding = Holding(index: nat, body: Json)

  /** `writes` are the values lastJSONConfig has had, oldest first; `updating` says which goroutine set each
      flag of serversUpdating. */
  datatype Loader = Loader(
    lastCaddyfile: string, writes: seq<Json>, lastVersion: nat,
    versions: map<Server, nat>, updating: map<Server, Id>, held: map<Server, Holding>,
    updates: map<Id, Update>, pushers: map<Id, Pusher>)
  {
    /** serversVersions.Get */
    function Version(server: Server): nat {
      if server in versions then versions[server] else 0
    }

    function HeldIndex(server: Server): nat {
      if server in held then held[server].index else 0
    }

    predicate Idle() {
      updates == map[]
    }
  }

  const INITIAL := Loader("", [], 0, map[], map[], map[], map[], map[])

  datatype Action =
    | Begin(u: Id, caddyfile: string, servers: seq<Server>)
    | Compare(u: Id) | Store(u: Id) | Adapt(u: Id) | Write(u: Id) | Bump(u: Id) | Spawn(u: Id, p: Id) | Finish(u: Id)
    | TakeFlag(p: Id) | ReadVersion(p: Id) | Check(p: Id) | Load(p: Id)
    | Send(p: Id, accepted: bool, answered: bool) | Record(p: Id) | ClearFlag(p: Id)

  predicate UpdateAction(a: Action) {
    a.Compare? || a.Store? || a.Adapt? || a.Write? || a.Bump? || a.Spawn? || a.Finish?
  }

  predicate Enabled(s: Loader, a: Action) {
    match a
    case Begin(u, caddyfile, _) => u !in s.updates && caddyfile != ""
    case Compare(u) => u in s.updates && s.updates[u].step.Generated?
    case Store(u) => u in s.updates && s.updates[u].step.Compared?
    case Adapt(u) => u in s.updates && s.updates[u].step.Stored?
    case Write(u) => u in s.updates && s.updates[u].step.Adapted?
    case Bump(u) => u in s.updates && s.updates[u].step.Written?
    case Spawn(u, p) => u in s.updates && s.updates[u].step.Spawning? && s.updates[u].step.left != [] && p !in s.pushers
    case Finish(u) =>
      u in s.updates && s.updates[u].step == Spawning([]) && forall p :: p in s.pushers ==> s.pushers[p].owner != u
    case TakeFlag(p) => p in s.pushers && s.pushers[p].step.Starting?
    case ReadVersion(p) => p in s.pushers && s.pushers[p].step.Flagged?
    case Check(p) => p in s.pushers && s.pushers[p].step.Versioned?
    case Load(p) => p in s.pushers && s.pushers[p].step.Outdated?
    case Send(p, accepted, answered) => p in s.pushers && s.pushers[p].step.Loaded?
    case Record(p) => p in s.pushers && s.pushers[p].step.Answered?
    case ClearFlag(p) => p in s.pushers && s.pushers[p].step.Clearing?
  }

  function At(s: Loader, u: Id, step: UpdateStep): Loader
    requires u in s.updates
  {
    s.(updates := s.updates[u := s.updates[u].(step := step)])
  }

  function PusherAt(s: Loader, p: Id, step: PusherStep): Loader
    requires p in s.pushers
  {
    s.(pushers := s.pushers[p := s.pushers[p].(step := step)])
  }

  function NextUpdate(env: Env, s: Loader, a: Action): Loader
    requires UpdateAction(a) && Enabled(s, a)
  {
    var update := s.updates[a.u];
    match a
    case Compare(u) => At(s, u, Compared(update.caddyfile != s.lastCaddyfile))
    case Store(u) => At(s.(lastCaddyfile := update.caddyfile), u, Stored(update.step.changed))
    case Adapt(u) =>
      if !update.step.changed then At(s, u, Spawning(update.servers))
      else
        var json := env.adapt(update.caddyfile);
        if json.None? then s.(updates := s.updates - {u}) else At(s, u, Adapted(json.value))
    case Write(u) => At(s.(writes := s.writes + [update.step.json]), u, Written)
    case Bump(u) => At(s.(lastVersion := s.lastVersion + 1), u, Spawning(update.servers))
    case Spawn(u, p) =>
      At(s.(pushers := s.pushers[p := Pusher(u, update.step.left[0], Starting)]), u, Spawning(update.step.left[1..]))
    case Finish(u) => s.(updates := s.updates - {u})
  }

  function NextPusher(env: Env, s: Loader, a: Action): Loader
    requires !a.Begin? && !UpdateAction(a) && Enabled(s, a)
  {
    var pusher := s.pushers[a.p];
    match a
    case TakeFlag(p) =>
      if pusher.server in s.updating then s.(pushers := s.pushers - {p})
      else PusherAt(s.(updating := s.updating[pusher.server := p]), p, Flagged)
    case ReadVersion(p) => PusherAt(s, p, Versioned(s.lastVersion))
    case Check(p) =>
      var version := pusher.step.version;
      PusherAt(s, p, if s.Version(pusher.server) >= version then Clearing else Outdated(version))
    case Load(p) =>
      var json := if s.writes == [] then "" else s.writes[|s.writes| - 1];
      var body := env.addAdminListen(pusher.server, json);
      PusherAt(s, p, if body.None? then Clearing else Loaded(pusher.step.version, |s.writes|, body.value))
    case Send(p, accepted, answered) =>
      var holding := Holding(pusher.step.index, pusher.step.body);
      var after := if accepted then s.(held := s.held[pusher.server := holding]) else s;
      PusherAt(after, p, if accepted && answered then Answered(pusher.step.version) else Clearing)
    case Record(p) => PusherAt(s.(versions := s.versions[pusher.server := pusher.step.version]), p, Clearing)
    case ClearFlag(p) => s.(updating := s.updating - {pusher.server}, pushers := s.pushers - {p})
  }

  function Next(env: Env, s: Loader, a: Action): Loader
    requires Enabled(s, a)
  {
    if a.Begin? then s.(updates := s.updates[a.u := Update(a.caddyfile, a.servers, Generated)])
    else if UpdateAction(a) then NextUpdate(env, s, a)
    else NextPusher(env, s, a)
  }

  ghost predicate Run(env: Env, s: Loader, actions: seq<Action>)
    decreases |actions|
  {
    actions == [] || (Enabled(s, actions[0]) && Run(env, Next(env, s, actions[0]), actions[1..]))
  }

  ghost function After(env: Env, s: Loader, actions: seq<Action>): Loader
    requires Run(env, s, actions)
    decreases |actions|
  {
    if actions == [] then s else After(env, Next(env, s, actions[0]), actions[1..])
  }

  // ----- What every step keeps -----

  /** Updates that have written lastJSONConfig and not yet raised lastVersion. */
  function Unbumped(s: Loader): set<Id> {
    set u | u in s.updates && s.updates[u].step.Written?
  }

  predicate Holds(s: Loader, p: Id) {
    p in s.pushers && !s.pushers[p].step.Starting?
  }

  /** At most one goroutine has the flag of a server, and each flag has a goroutine that will clear it. */
  ghost predicate FlagsHeld(s: Loader) {
    && (forall p :: Holds(s, p) ==> s.pushers[p].server in s.updating && s.updating[s.pushers[p].server] == p)
    && (forall server :: server in s.updating ==>
        Holds(s, s.updating[server]) && s.pushers[s.updating[server]].server == server)
  }

  /** Recorded versions are of configurations that were accepted, and those were adapted before. */
  ghost predicate VersionsBehind(env: Env, s: Loader) {
    && (forall server :: server in s.versions ==> server in s.held && s.versions[server] <= s.held[server].index)
    && (forall server :: server in s.held ==>
          && 1 <= s.held[server].index <= |s.writes|
          && env.addAdminListen(server, s.writes[s.held[server].index - 1]) == Some(s.held[server].body))
  }

  ghost predicate PusherInOrder(env: Env, s: Loader, pusher: Pusher) {
    match pusher.step
    case Starting => true
    case Flagged => true
    case Versioned(version) => version <= s.lastVersion
    case Outdated(version) => 0 < version <= s.lastVersion && s.Version(pusher.server) < version
    case Loaded(version, index, body) =>
      && 0 < version <= index <= |s.writes| && version <= s.lastVersion && s.HeldIndex(pusher.server) <= index
      && s.Version(pusher.server) < version
      && env.addAdminListen(pusher.server, s.writes[index - 1]) == Some(body)
    case Answered(version) =>
      0 < version <= s.HeldIndex(pusher.server) && version <= s.lastVersion && s.Version(pusher.server) < version
    case Clearing => true
  }

  ghost predicate PushersInOrder(env: Env, s: Loader) {
    forall p :: p in s.pushers ==> PusherInOrder(env, s, s.pushers[p])
  }

  /** Goroutines belong to updates that wait for them. */
  ghost predicate Awaited(s: Loader) {
    forall p :: p in s.pushers ==> s.pushers[p].owner in s.updates && s.updates[s.pushers[p].owner].step.Spawning?
  }

  ghost predicate Counted(s: Loader) {
    && s.lastVersion + |Unbumped(s)| == |s.writes|
    && forall server :: server in s.versions ==> s.versions[server] <= s.lastVersion
  }

  ghost predicate Inv(env: Env, s: Loader) {
    FlagsHeld(s) && VersionsBehind(env, s) && PushersInOrder(env, s) && Awaited(s) && Counted(s)
  }

  /** Versions, recorded versions, accepted configurations and the list of writes only move forward. */
  ghost predicate Forward(s: Loader, t: Loader) {
    && s.lastVersion <= t.lastVersion && s.writes <= t.writes
    && (forall server :: server in s.held ==> server in t.held && s.held[server].index <= t.held[server].index)
    && forall server :: server in s.versions ==> server in t.versions && s.versions[server] <= t.versions[server]
  }

  lemma UnbumpedStep(s: Loader, t: Loader, u: Id, update: Update)
    requires t.updates == s.updates[u := update]
    ensures update.step.Written? && u !in Unbumped(s) ==> |Unbumped(t)| == |Unbumped(s)| + 1
    ensures !update.step.Written? && u in Unbumped(s) ==> |Unbumped(t)| == |Unbumped(s)| - 1
    ensures !update.step.Written? && u !in Unbumped(s) ==> |Unbumped(t)| == |Unbumped(s)|
  {
    if update.step.Written? {
      assert Unbumped(t) == Unbumped(s) + {u};
    } else {
      assert Unbumped(t) == Unbumped(s) - {u};
    }
  }

  /** Later writes and versions change nothing for a goroutine whose server accepts nothing meanwhile. */
  lemma OrderKept(env: Env, s: Loader, t: Loader, pusher: Pusher)
    requires PusherInOrder(env, s, pusher) && s.lastVersion <= t.lastVersion && s.writes <= t.writes
    requires s.HeldIndex(pusher.server) == t.HeldIndex(pusher.server)
    requires s.Version(pusher.server) == t.Version(pusher.server)
    ensures PusherInOrder(env, t, pusher)
  {
  }

  lemma BehindKept(env: Env, s: Loader, t: Loader)
    requires VersionsBehind(env, s) && t.held == s.held && t.versions == s.versions && s.writes <= t.writes
    ensures VersionsBehind(env, t)
  {
  }

  lemma UpdateStepKeeps(env: Env, s: Loader, a: Action)
    requires Inv(env, s) && UpdateAction(a) && Enabled(s, a) && !a.Spawn?
    ensures Inv(env, NextUpdate(env, s, a)) && Forward(s, NextUpdate(env, s, a))
  {
    UpdateStepFrame(env, s, a);
    UpdateStepCounts(env, s, a);
    var t := NextUpdate(env, s, a);
    BehindKept(env, s, t);
    forall p | p in t.pushers ensures PusherInOrder(env, t, t.pushers[p]) {
      OrderKept(env, s, t, s.pushers[p]);
    }
    UpdateStepFlags(s, t);
  }

  lemma UpdateStepFlags(s: Loader, t: Loader)
    requires FlagsHeld(s) && t.pushers == s.pushers && t.updating == s.updating
    ensures FlagsHeld(t)
  {
  }

  lemma UpdateStepFrame(env: Env, s: Loader, a: Action)
    requires Awaited(s) && UpdateAction(a) && Enabled(s, a) && !a.Spawn?
    ensures var t := NextUpdate(env, s, a);
            && t.pushers == s.pushers && t.updating == s.updating && t.held == s.held && t.versions == s.versions
            && s.lastVersion <= t.lastVersion && s.writes <= t.writes && Awaited(t)
  {
  }

  lemma UpdateStepCounts(env: Env, s: Loader, a: Action)
    requires Counted(s) && UpdateAction(a) && Enabled(s, a) && !a.Spawn?
    ensures Counted(NextUpdate(env, s, a))
  {
    var t := NextUpdate(env, s, a);
    if a.u in t.updates {
      UnbumpedStep(s, t, a.u, t.updates[a.u]);
    } else {
      assert Unbumped(t) == Unbumped(s);
    }
  }

  lemma SpawnKeeps(env: Env, s: Loader, u: Id, p: Id)
    requires Inv(env, s) && Enabled(s, Spawn(u, p))
    ensures Inv(env, NextUpdate(env, s, Spawn(u, p))) && Forward(s, NextUpdate(env, s, Spawn(u, p)))
  {
    var t := NextUpdate(env, s, Spawn(u, p));
    UnbumpedStep(s, t, u, t.updates[u]);
    assert FlagsHeld(t);
    forall q | q in t.pushers && q != p ensures PusherInOrder(env, t, t.pushers[q]) {
      assert PusherInOrder(env, s, s.pushers[q]);
    }
  }

  lemma BeginKeeps(env: Env, s: Loader, a: Action)
    requires Inv(env, s) && a.Begin? && Enabled(s, a)
    ensures Inv(env, Next(env, s, a)) && Forward(s, Next(env, s, a))
  {
    var t := Next(env, s, a);
    UnbumpedStep(s, t, a.u, t.updates[a.u]);
    forall p | Holds(s, p) ensures Holds(t, p) {}
  }

  lemma TakeFlagFlags(env: Env, s: Loader, p: Id)
    requires FlagsHeld(s) && Enabled(s, TakeFlag(p))
    ensures FlagsHeld(NextPusher(env, s, TakeFlag(p)))
  {
  }

  lemma ClearFlagFlags(env: Env, s: Loader, p: Id)
    requires FlagsHeld(s) && Enabled(s, ClearFlag(p))
    ensures FlagsHeld(NextPusher(env, s, ClearFlag(p)))
  {
    assert Holds(s, p);
  }

  /** A step that takes and clears no flag. */
  lemma HolderFlags(s: Loader, t: Loader, p: Id)
    requires FlagsHeld(s) && Holds(s, p) && Holds(t, p) && t.pushers == s.pushers[p := t.pushers[p]]
    requires t.pushers[p].server == s.pushers[p].server && t.updating == s.updating
    ensures FlagsHeld(t)
  {
    forall q ensures Holds(t, q) <==> Holds(s, q) {}
  }

  lemma PusherFlags(env: Env, s: Loader, a: Action)
    requires FlagsHeld(s) && !a.Begin? && !UpdateAction(a) && Enabled(s, a)
    ensures FlagsHeld(NextPusher(env, s, a))
  {
    if a.TakeFlag? {
      TakeFlagFlags(env, s, a.p);
    } else if a.ClearFlag? {
      ClearFlagFlags(env, s, a.p);
    } else {
      HolderFlags(s, NextPusher(env, s, a), a.p);
    }
  }

  lemma SendBehind(env: Env, s: Loader, p: Id, accepted: bool, answered: bool)
    requires VersionsBehind(env, s) && Enabled(s, Send(p, accepted, answered)) && PusherInOrder(env, s, s.pushers[p])
    ensures VersionsBehind(env, NextPusher(env, s, Send(p, accepted, answered)))
    ensures Forward(s, NextPusher(env, s, Send(p, accepted, answered)))
  {
  }

  lemma PusherBehind(env: Env, s: Loader, a: Action)
    requires VersionsBehind(env, s) && !a.Begin? && !UpdateAction(a) && Enabled(s, a)
    requires PusherInOrder(env, s, s.pushers[a.p])
    ensures VersionsBehind(env, NextPusher(env, s, a)) && Forward(s, NextPusher(env, s, a))
  {
    if a.Send? {
      SendBehind(env, s, a.p, a.accepted, a.answered);
    } else if !a.Record? {
      BehindKept(env, s, NextPusher(env, s, a));
    }
  }

  lemma OwnOrder(env: Env, s: Loader, a: Action)
    requires !a.Begin? && !UpdateAction(a) && Enabled(s, a) && PusherInOrder(env, s, s.pushers[a.p])
    requires VersionsBehind(env, s)
    requires s.lastVersion <= |s.writes|
    ensures var t := NextPusher(env, s, a); a.p in t.pushers ==> PusherInOrder(env, t, t.pushers[a.p])
  {
  }

  lemma PusherOrder(env: Env, s: Loader, a: Action)
    requires FlagsHeld(s) && VersionsBehind(env, s) && PushersInOrder(env, s) && s.lastVersion <= |s.writes|
    requires !a.Begin? && !UpdateAction(a) && Enabled(s, a)
    ensures PushersInOrder(env, NextPusher(env, s, a))
  {
    var t, p := NextPusher(env, s, a), a.p;
    OwnOrder(env, s, a);
    forall q | q in t.pushers && q != p ensures PusherInOrder(env, t, t.pushers[q]) {
      OthersOrder(env, s, a, q);
    }
  }

  /** A goroutine past its flag does not notice what those of other servers do. */
  lemma OthersFrame(env: Env, s: Loader, a: Action, q: Id)
    requires FlagsHeld(s) && !a.Begin? && !UpdateAction(a) && Enabled(s, a) && q != a.p && Holds(s, q)
    ensures var t, server := NextPusher(env, s, a), s.pushers[q].server;
            && t.lastVersion == s.lastVersion && t.writes == s.writes
            && t.HeldIndex(server) == s.HeldIndex(server) && t.Version(server) == s.Version(server)
  {
    assert a.Send? || a.Record? ==> Holds(s, a.p);
    assert a.Send? || a.Record? ==> s.pushers[q].server != s.pushers[a.p].server;
  }

  lemma OthersOrder(env: Env, s: Loader, a: Action, q: Id)
    requires FlagsHeld(s) && PushersInOrder(env, s) && !a.Begin? && !UpdateAction(a) && Enabled(s, a)
    requires q in NextPusher(env, s, a).pushers && q != a.p
    ensures var t := NextPusher(env, s, a); PusherInOrder(env, t, t.pushers[q])
  {
    var t := NextPusher(env, s, a);
    assert t.pushers[q] == s.pushers[q];
    if !s.pushers[q].step.Starting? {
      assert Holds(s, q);
      OthersFrame(env, s, a, q);
      OrderKept(env, s, t, s.pushers[q]);
    }
  }

  lemma PusherStepKeeps(env: Env, s: Loader, a: Action)
    requires Inv(env, s) && !a.Begin? && !UpdateAction(a) && Enabled(s, a)
    ensures Inv(env, NextPusher(env, s, a)) && Forward(s, NextPusher(env, s, a))
  {
    assert PusherInOrder(env, s, s.pushers[a.p]);
    PusherFlags(env, s, a);
    PusherBehind(env, s, a);
    PusherOrder(env, s, a);
    PusherCounts(env, s, a);
  }

  lemma PusherCounts(env: Env, s: Loader, a: Action)
    requires Counted(s) && Awaited(s) && !a.Begin? && !UpdateAction(a) && Enabled(s, a)
    requires PusherInOrder(env, s, s.pushers[a.p])
    ensures Counted(NextPusher(env, s, a)) && Awaited(NextPusher(env, s, a))
  {
    assert Unbumped(NextPusher(env, s, a)) == Unbumped(s);
  }

  lemma StepKeeps(env: Env, s: Loader, a: Action)
    requires Inv(env, s) && Enabled(s, a)
    ensures Inv(env, Next(env, s, a)) && Forward(s, Next(env, s, a))
  {
    if a.Begin? {
      BeginKeeps(env, s, a);
    } else if a.Spawn? {
      SpawnKeeps(env, s, a.u, a.p);
    } else if UpdateAction(a) {
      UpdateStepKeeps(env, s, a);
    } else {
      PusherStepKeeps(env, s, a);
    }
  }

  lemma InitialInv(env: Env)
    ensures Inv(env, INITIAL)
  {
  }

  lemma {:induction false} RunKeeps(env: Env, s: Loader, actions: seq<Action>)
    requires Inv(env, s) && Run(env, s, actions)
    ensures Inv(env, After(env, s, actions)) && Forward(s, After(env, s, actions))
    decreases |actions|
  {
    if actions != [] {
      StepKeeps(env, s, actions[0]);
      RunKeeps(env, Next(env, s, actions[0]), actions[1..]);
    }
  }
}
