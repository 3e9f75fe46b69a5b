/** Which servers overlapping updates leave behind (loader.go), when no call fails: exactly those for which no
    goroutine read the version late enough. */
module PushServed {
  import opened Seqs
  import opened Pushing
  import opened PushResults

  /** The goroutine has read this version or a later one, and has not yet recorded it. */
  ghost predicate Carries(s: Loader, p: Id, server: Server, version: nat) {
    && p in s.pushers && s.pushers[p].server == server
    && match s.pushers[p].step
       case Versioned(v) => v >= version
       case Outdated(v) => v >= version
       case Loaded(v, _, _) => v >= version
       case Answered(v) => v >= version
       case _ => false
  }

  /** The server has this version or a later one, or a goroutine is on the way with it. */
  ghost predicate Assured(s: Loader, server: Server, version: nat) {
    s.Version(server) >= version || exists p :: Carries(s, p, server, version)
  }

  /** A goroutine of the server reads lastVersion, which is this version or a later one. */
  ghost predicate ReadsAt(s: Loader, a: Action, server: Server, version: nat) {
    a.ReadVersion? && Enabled(s, a) && s.pushers[a.p].server == server && s.lastVersion >= version
  }

  lemma UpdatePushers(env: Env, s: Loader, a: Action)
    requires Enabled(s, a) && (a.Begin? || UpdateAction(a))
    ensures var t := Next(env, s, a);
            && t.versions == s.versions
            && (if a.Spawn? then a.p !in s.pushers && a.p in t.pushers && t.pushers[a.p].step.Starting?
                                 && t.pushers == s.pushers[a.p := t.pushers[a.p]]
                else t.pushers == s.pushers)
  {
  }

  lemma UpdateAssured(env: Env, s: Loader, a: Action, server: Server, version: nat)
    requires Enabled(s, a) && (a.Begin? || UpdateAction(a))
    ensures Assured(Next(env, s, a), server, version) <==> Assured(s, server, version)
  {
    var t := Next(env, s, a);
    UpdatePushers(env, s, a);
    forall p ensures Carries(t, p, server, version) <==> Carries(s, p, server, version) {}
  }

  lemma OtherCarries(env: Env, s: Loader, a: Action, q: Id, server: Server, version: nat)
    requires Enabled(s, a) && !a.Begin? && !UpdateAction(a) && q != a.p
    ensures Carries(NextPusher(env, s, a), q, server, version) <==> Carries(s, q, server, version)
  {
  }

  /** What the goroutine carries is not lost: it is carried on, or the server has it. */
  lemma OwnCarries(env: Env, s: Loader, a: Action, server: Server, version: nat)
    requires Enabled(s, a) && !a.Begin? && !UpdateAction(a) && FaultlessAction(env, a)
    requires Carries(s, a.p, server, version)
    ensures var t := NextPusher(env, s, a); Carries(t, a.p, server, version) || t.Version(server) >= version
  {
  }

  /** A goroutine carries only what it has read. */
  lemma OwnRead(env: Env, s: Loader, a: Action, server: Server, version: nat)
    requires Enabled(s, a) && !a.Begin? && !UpdateAction(a)
    requires Carries(NextPusher(env, s, a), a.p, server, version)
    ensures Carries(s, a.p, server, version) || ReadsAt(s, a, server, version)
  {
  }

  lemma VersionStep(env: Env, s: Loader, a: Action, server: Server, version: nat)
    requires Inv(env, s) && Enabled(s, a) && !a.Begin? && !UpdateAction(a)
    ensures var t := NextPusher(env, s, a);
            && (s.Version(server) >= version ==> t.Version(server) >= version)
            && (t.Version(server) >= version ==> s.Version(server) >= version || Carries(s, a.p, server, version))
  {
    assert PusherInOrder(env, s, s.pushers[a.p]);
  }

  lemma PusherAssured(env: Env, s: Loader, a: Action, server: Server, version: nat)
    requires Inv(env, s) && Enabled(s, a) && !a.Begin? && !UpdateAction(a) && FaultlessAction(env, a)
    ensures Assured(NextPusher(env, s, a), server, version) <==>
        Assured(s, server, version) || ReadsAt(s, a, server, version)
  {
    var t := NextPusher(env, s, a);
    VersionStep(env, s, a, server, version);
    if p :| Carries(s, p, server, version) {
      if p == a.p {
        OwnCarries(env, s, a, server, version);
      } else {
        OtherCarries(env, s, a, p, server, version);
      }
    }
    if p :| Carries(t, p, server, version) {
      if p == a.p {
        OwnRead(env, s, a, server, version);
      } else {
        OtherCarries(env, s, a, p, server, version);
      }
    }
    if ReadsAt(s, a, server, version) {
      assert Carries(t, a.p, server, version);
    }
  }

  /** Somewhere in the run a goroutine of the server reads this version or a later one. */
  ghost predicate ReadSince(env: Env, s: Loader, actions: seq<Action>, server: Server, version: nat)
    requires Run(env, s, actions)
    decreases |actions|
  {
    actions != [] &&
    (ReadsAt(s, actions[0], server, version) || ReadSince(env, Next(env, s, actions[0]), actions[1..], server, version))
  }

  ghost predicate AllFaultless(env: Env, actions: seq<Action>) {
    forall i :: 0 <= i < |actions| ==> FaultlessAction(env, actions[i])
  }

  lemma {:induction false} RunAssured(env: Env, s: Loader, actions: seq<Action>, server: Server, version: nat)
    requires Inv(env, s) && Run(env, s, actions) && AllFaultless(env, actions)
    ensures Assured(After(env, s, actions), server, version) <==>
            Assured(s, server, version) || ReadSince(env, s, actions, server, version)
    decreases |actions|
  {
    if actions != [] {
      var a := actions[0];
      assert FaultlessAction(env, a);
      StepKeeps(env, s, a);
      if a.Begin? || UpdateAction(a) {
        UpdateAssured(env, s, a, server, version);
      } else {
        PusherAssured(env, s, a, server, version);
      }
      RunAssured(env, Next(env, s, a), actions[1..], server, version);
    }
  }

  /** However updates overlap, when no call fails and all goroutines have ended: a server has this version
      or a later one if and only if one of its goroutines read lastVersion when it was that high. */
  lemma ServedExactly(env: Env, actions: seq<Action>, server: Server, version: nat)
    requires Run(env, INITIAL, actions) && AllFaultless(env, actions) && After(env, INITIAL, actions).pushers == map[]
    requires version > 0
    ensures After(env, INITIAL, actions).Version(server) >= version <==>
        ReadSince(env, INITIAL, actions, server, version)
  {
    InitialInv(env);
    RunAssured(env, INITIAL, actions, server, version);
  }

  /** A goroutine that has the flag reads the version before it ends. */
  lemma {:induction false} FlaggedReads(env: Env, s: Loader, actions: seq<Action>, p: Id, version: nat)
    requires Run(env, s, actions) && p in s.pushers && s.pushers[p].step.Flagged? && version <= s.lastVersion
    requires p !in After(env, s, actions).pushers
    ensures ReadSince(env, s, actions, s.pushers[p].server, version)
    decreases |actions|
  {
    var a := actions[0];
    if a != ReadVersion(p) {
      var t := Next(env, s, a);
      FlagStays(env, s, a, p);
      FlaggedReads(env, t, actions[1..], p, version);
    }
  }

  lemma FlagStays(env: Env, s: Loader, a: Action, p: Id)
    requires Enabled(s, a) && p in s.pushers && s.pushers[p].step.Flagged? && a != ReadVersion(p)
    ensures var t := Next(env, s, a); p in t.pushers && t.pushers[p] == s.pushers[p] && s.lastVersion <= t.lastVersion
  {
  }

  /** Whatever happened before and whatever overlaps: a goroutine that finds the flag clear leaves its server
      at least at the version there was, if no call fails from then on. So only a goroutine that meets the
      flag leaves a server behind. */
  lemma FlagClearServes(env: Env, before: seq<Action>, p: Id, actions: seq<Action>)
    requires Run(env, INITIAL, before) && Enabled(After(env, INITIAL, before), TakeFlag(p))
    requires var s := After(env, INITIAL, before);
             && s.pushers[p].server !in s.updating && Run(env, Next(env, s, TakeFlag(p)), actions)
             && After(env, Next(env, s, TakeFlag(p)), actions).pushers == map[]
    requires AllFaultless(env, actions)
    ensures var s := After(env, INITIAL, before);
            After(env, Next(env, s, TakeFlag(p)), actions).Version(s.pushers[p].server) >= s.lastVersion
  {
    InitialInv(env);
    RunKeeps(env, INITIAL, before);
    var s := After(env, INITIAL, before);
    StepKeeps(env, s, TakeFlag(p));
    var t := Next(env, s, TakeFlag(p));
    FlaggedReads(env, t, actions, p, s.lastVersion);
    RunAssured(env, t, actions, s.pushers[p].server, s.lastVersion);
  }

  // ----- What is recorded was answered -----

  /** A server accepts this version and answers so. */
  ghost predicate AnswersAt(s: Loader, a: Action, server: Server, version: nat) {
    && a.Send? && a.accepted && a.answered && Enabled(s, a) && s.pushers[a.p].server == server
    && s.pushers[a.p].step.version == version
  }

  ghost predicate AnsweredIn(env: Env, s: Loader, actions: seq<Action>, server: Server, version: nat)
    requires Run(env, s, actions)
    decreases |actions|
  {
    actions != [] &&
    (AnswersAt(s, actions[0], server, version)
     || AnsweredIn(env, Next(env, s, actions[0]), actions[1..], server, version))
  }

  /** The version is recorded for the server, or a goroutine is about to record it. */
  ghost predicate Confirmed(s: Loader, server: Server, version: nat) {
    (server in s.versions && s.versions[server] == version)
    || exists p :: p in s.pushers && s.pushers[p].server == server && s.pushers[p].step == Answered(version)
  }

  lemma StepConfirmed(env: Env, s: Loader, a: Action, server: Server, version: nat)
    requires Enabled(s, a) && Confirmed(Next(env, s, a), server, version)
    ensures Confirmed(s, server, version) || AnswersAt(s, a, server, version)
  {
    var t := Next(env, s, a);
    if a.Begin? || UpdateAction(a) {
      UpdatePushers(env, s, a);
    }
    if p :| p in t.pushers && t.pushers[p].server == server && t.pushers[p].step == Answered(version) {
      assert p in s.pushers && s.pushers[p].server == server;
    }
  }

  lemma {:induction false} RunConfirmed(env: Env, s: Loader, actions: seq<Action>, server: Server, version: nat)
    requires Run(env, s, actions) && Confirmed(After(env, s, actions), server, version)
    ensures Confirmed(s, server, version) || AnsweredIn(env, s, actions, server, version)
    decreases |actions|
  {
    if actions != [] {
      RunConfirmed(env, Next(env, s, actions[0]), actions[1..], server, version);
      if Confirmed(Next(env, s, actions[0]), server, version) {
        StepConfirmed(env, s, actions[0], server, version);
      }
    }
  }

  /** Whatever fails: a version is recorded for a server only if the server accepted it and answered so. */
  lemma RecordedAnswered(env: Env, actions: seq<Action>, server: Server)
    requires Run(env, INITIAL, actions) && server in After(env, INITIAL, actions).versions
    ensures AnsweredIn(env, INITIAL, actions, server, After(env, INITIAL, actions).versions[server])
  {
    RunConfirmed(env, INITIAL, actions, server, After(env, INITIAL, actions).versions[server]);
  }
}
