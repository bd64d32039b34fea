/**
 Which launch tokens an app still creates. A request that has been admitted runs to its end
 whatever happens to the app in between, so deregistering the app or revoking it as an agent
 stops new requests at most.
 */
module AppLaunches {
  import opened Wrappers
  import opened Clock
  import opened Claims
  import opened Crypto
  import opened Store
  import opened Revocation
  import opened Tokens
  import opened Delegation
  import opened Identity
  import opened Admin
  import opened Broker
  import opened CallRuns
  import opened Fresh
  import opened History
  import Scope
  import opened Provenance
  import opened Renewal
  import opened Finality
  import opened AppTokens
  import opened AppLife
  import opened Ceiling
  import opened Deregistration

  /** A launch token recorded under the app, created by the app itself. */
  predicate StoredFor(b: Broker, token: string, appId: string) {
    token in b.grants && b.grants[token].rec.appId == appId && b.grants[token].rec.createdBy == AppSub(appId)
  }

  /** The run loses no revocation and stores a launch token of the app. */
  ghost predicate StoresAgain(env: Env, b: Broker, steps: seq<Step>, appId: string) {
    && Run(env, b, steps).Some? && LossFreeRun(env, b, steps)
    && exists token :: token !in b.grants && StoredFor(Run(env, b, steps).value, token, appId)
  }

  /** An admitted request of the app that will be stored under the ceiling read, or under one that can still be set. */
  predicate InFlight(b: Broker, c: Call, appId: string) {
    && (c.Launching? || c.WithinCeiling?) && OfApp(b, c.parent, appId) && LaunchFieldMissing(c.lreq).None?
    && (c.Launching? ==> Scope.AllWellFormed(c.lreq.allowedScope))
  }

  ghost predicate SomeInFlight(b: Broker, appId: string) {
    exists k: nat :: k in b.calls && InFlight(b, b.calls[k], appId)
  }

  // ---------- a request in flight is stored ----------

  /** A request past the ceiling check is stored by its next step, whatever has happened to the app. */
  lemma CheckedStores(env: Env, b: Broker, k: nat, appId: string, token: string)
    requires HistoryOk(env, b) && k in b.calls && b.calls[k].WithinCeiling? && InFlight(b, b.calls[k], appId)
    requires token !in b.grants
    ensures Next(env, b, StoreLaunch(k, token)).Some? && StoredFor(Next(env, b, StoreLaunch(k, token)).value, token, appId)
  {
    assert CallOk(b, b.calls[k]);
  }

  /** The app with exactly the requested scopes for a ceiling. */
  function Raised(b: Broker, appId: string, scopes: seq<string>): Broker
    requires appId in b.apps
  {
    b.(apps := b.apps[appId := b.apps[appId].(ceiling := scopes)])
  }

  lemma RaisingGoes(env: Env, b: Broker, appId: string, scopes: seq<string>)
    requires HistoryOk(env, b) && appId in b.apps && Scope.AllWellFormed(scopes)
    ensures Leads(env, b, [ChangeApp(SetCeiling(appId, scopes))], Raised(b, appId, scopes))
    ensures HistoryOk(env, Raised(b, appId, scopes))
  {
    LeadsOne(env, b, ChangeApp(SetCeiling(appId, scopes)), Raised(b, appId, scopes));
    RevocationsApart(env, b, b.rev, b.saved, Raised(b, appId, scopes).apps);
  }

  lemma RaisedReads(b: Broker, parent: nat, appId: string, lreq: LaunchReq)
    requires OfApp(b, parent, appId) && appId in b.apps && Scope.AllWellFormed(lreq.allowedScope)
    ensures var raised := Raised(b, appId, lreq.allowedScope);
            CeilingRead(raised, parent, lreq) == WithinCeiling(parent, lreq, appId, Some(lreq.allowedScope))
  {
    Scope.SubsetReflexiveExactly(lreq.allowedScope);
  }

  lemma ReadGoes(env: Env, b: Broker, k: nat)
    requires HistoryOk(env, b) && k in b.calls && b.calls[k].Launching?
    ensures var end := SetCall(b, k, CeilingRead(b, b.calls[k].parent, b.calls[k].lreq));
            Leads(env, b, [ReadCeiling(k)], end) && HistoryOk(env, end)
  {
    assert CallOk(b, b.calls[k]);
    var end := SetCall(b, k, CeilingRead(b, b.calls[k].parent, b.calls[k].lreq));
    NextKeepsHistory(env, b, ReadCeiling(k));
    LeadsOne(env, b, ReadCeiling(k), end);
  }

  /** A request before the check passes it once the ceiling is what it asks for. */
  lemma UncheckedPasses(env: Env, b: Broker, k: nat, appId: string) returns (steps: seq<Step>, end: Broker)
    requires HistoryOk(env, b) && appId in b.apps && k in b.calls && b.calls[k].Launching? && InFlight(b, b.calls[k], appId)
    ensures Leads(env, b, steps, end) && HistoryOk(env, end) && end.grants == b.grants
    ensures k in end.calls && end.calls[k].WithinCeiling? && InFlight(end, end.calls[k], appId)
  {
    var c := b.calls[k];
    var raise, mid := [ChangeApp(SetCeiling(appId, c.lreq.allowedScope))], Raised(b, appId, c.lreq.allowedScope);
    RaisingGoes(env, b, appId, c.lreq.allowedScope);
    RaisedReads(b, c.parent, appId, c.lreq);
    ReadGoes(env, mid, k);
    end := SetCall(mid, k, CeilingRead(mid, c.parent, c.lreq));
    LeadsOn(env, b, raise, mid, [ReadCeiling(k)], end);
    steps := raise + [ReadCeiling(k)];
  }

  /** A request in flight can run on to a stored launch token, deregistered or revoked as the app may be. */
  lemma InFlightStores(env: Env, b: Broker, k: nat, appId: string) returns (steps: seq<Step>)
    requires HistoryOk(env, b) && appId in b.apps && k in b.calls && InFlight(b, b.calls[k], appId)
    ensures NoRestart(steps) && StoresAgain(env, b, steps, appId)
  {
    var mid := b;
    steps := [];
    if b.calls[k].Launching? {
      steps, mid := UncheckedPasses(env, b, k, appId);
    }
    var token := UnusedLaunchToken(mid);
    CheckedStores(env, mid, k, appId, token);
    var end := Next(env, mid, StoreLaunch(k, token)).value;
    LeadsOne(env, mid, StoreLaunch(k, token), end);
    LeadsOn(env, b, steps, mid, [StoreLaunch(k, token)], end);
    steps := steps + [StoreLaunch(k, token)];
    NoRestartLosesNothing(env, b, steps);
    assert token !in b.grants && StoredFor(Run(env, b, steps).value, token, appId);
  }

  // ---------- nothing else is ----------

  lemma LaunchesApart(env: Env, b: Broker, s: Step, k: nat)
    requires Next(env, b, s).Some? && k in Next(env, b, s).value.calls && Next(env, b, s).value.calls[k].Launching?
    requires !s.BeginLaunch? && !s.ReadCeiling? && !s.StoreLaunch?
    ensures k in b.calls && b.calls[k] == Next(env, b, s).value.calls[k]
  {
    if s.ReadLaunch? || s.TakeNonce? || s.TakeLaunch? || s.IssueAgent? || s.RecordAgent? {
      RegisterMoves(env, b, s, k);
    } else if s.BeginDelegate? || s.ExtendChain? || s.IssueDelegated? {
      DelegateMoves(env, b, s, k);
    }
  }

  lemma LaunchMoves(env: Env, b: Broker, s: Step, k: nat, appId: string)
    requires HistoryOk(env, b) && (s.BeginLaunch? || s.ReadCeiling? || s.StoreLaunch?)
    requires LaunchStep(env, b, s).Some?
    requires k in LaunchStep(env, b, s).value.calls && InFlight(b, LaunchStep(env, b, s).value.calls[k], appId)
    ensures || (k in b.calls && InFlight(b, b.calls[k], appId))
            || (s.BeginLaunch? && OfApp(b, s.parent, appId) && Admitted(env, b, s.parent))
  {
    if s.ReadCeiling? && s.call == k && LaunchStep(env, b, s).value.calls[k].WithinCeiling? {
      Scope.WithinWellFormed(b.calls[k].lreq.allowedScope, b.apps[appId].ceiling);
    }
  }

  /** A request in flight was so before, or has just been admitted. */
  lemma LaunchersKept(env: Env, b: Broker, s: Step, k: nat, appId: string)
    requires HistoryOk(env, b) && Next(env, b, s).Some?
    requires k in Next(env, b, s).value.calls && InFlight(Next(env, b, s).value, Next(env, b, s).value.calls[k], appId)
    ensures || (k in b.calls && InFlight(b, b.calls[k], appId))
            || (s.BeginLaunch? && OfApp(b, s.parent, appId) && Admitted(env, b, s.parent))
  {
    if s.BeginLaunch? || s.ReadCeiling? || s.StoreLaunch? {
      assert Next(env, b, s) == LaunchStep(env, b, s);
      LaunchMoves(env, b, s, k, appId);
    } else {
      LaunchersApart(env, b, s, k);
      NextExtends(env, b, s);
      StayedInFlight(b, Next(env, b, s).value, k, appId);
    }
  }

  lemma LaunchersApart(env: Env, b: Broker, s: Step, k: nat)
    requires Next(env, b, s).Some? && !s.BeginLaunch? && !s.ReadCeiling? && !s.StoreLaunch?
    requires k in Next(env, b, s).value.calls
    requires Next(env, b, s).value.calls[k].Launching? || Next(env, b, s).value.calls[k].WithinCeiling?
    ensures k in b.calls && b.calls[k] == Next(env, b, s).value.calls[k]
  {
    if Next(env, b, s).value.calls[k].Launching? {
      LaunchesApart(env, b, s, k);
    } else {
      CeilingsApart(env, b, s, k);
    }
  }

  lemma StayedInFlight(b: Broker, b': Broker, k: nat, appId: string)
    requires k in b.calls && k in b'.calls && b'.calls[k] == b.calls[k] && CallOk(b, b.calls[k])
    requires b.issued <= b'.issued && InFlight(b', b'.calls[k], appId)
    ensures InFlight(b, b.calls[k], appId)
  {
    assert b'.issued[b.calls[k].parent] == b.issued[b.calls[k].parent];
  }

  /** What is stored for the app was in flight. */
  lemma StoredWasInFlight(env: Env, b: Broker, s: Step, token: string, appId: string)
    requires HistoryOk(env, b) && Next(env, b, s).Some?
    requires token !in b.grants && StoredFor(Next(env, b, s).value, token, appId)
    ensures SomeInFlight(b, appId)
  {
    GrantsOnlyByStore(env, b, s, token);
    assert CallOk(b, b.calls[s.call]);
    assert InFlight(b, b.calls[s.call], appId);
  }

  /** A closed app that no longer acts and has no request in flight stays so, and nothing is stored for it. */
  lemma NextStoresNothing(env: Env, b: Broker, s: Step, appId: string)
    requires HistoryOk(env, b) && Next(env, b, s).Some?
    requires !StillActs(env, b, appId) && !SomeInFlight(b, appId)
    ensures !SomeInFlight(Next(env, b, s).value, appId)
    ensures forall token | StoredFor(Next(env, b, s).value, token, appId) :: token in b.grants
  {
    var b' := Next(env, b, s).value;
    if k: nat :| k in b'.calls && InFlight(b', b'.calls[k], appId) {
      LaunchersKept(env, b, s, k, appId);
      if s.BeginLaunch? && OfApp(b, s.parent, appId) && Admitted(env, b, s.parent) {
        AdmittedNotRevokedAsAgent(env, b, s.parent, appId);
      }
      assert false;
    }
    forall token | StoredFor(b', token, appId) ensures token in b.grants {
      if token !in b.grants {
        StoredWasInFlight(env, b, s, token, appId);
      }
    }
  }

  lemma {:induction false} RunStoresNothing(env: Env, b: Broker, steps: seq<Step>, appId: string)
    requires InOrder(env, b) && SpiffeLaw(env.p) && Closed(b, appId)
    requires !StillActs(env, b, appId) && !SomeInFlight(b, appId)
    requires Run(env, b, steps).Some? && LossFreeRun(env, b, steps)
    ensures !SomeInFlight(Run(env, b, steps).value, appId)
    ensures forall token | StoredFor(Run(env, b, steps).value, token, appId) :: token in b.grants
  {
    if steps == [] {
    } else {
      var n := |steps| - 1;
      var mid := Run(env, b, steps[..n]).value;
      RunStoresNothing(env, b, steps[..n], appId);
      RunStaysOver(env, b, steps[..n], appId);
      RunKeepsOrder(env, b, steps[..n]);
      NextStoresNothing(env, mid, steps[n], appId);
      StoredStays(env, mid, steps[n], appId);
    }
  }

  lemma StoredStays(env: Env, b: Broker, s: Step, appId: string)
    requires Next(env, b, s).Some?
    ensures forall token | token in b.grants && StoredFor(Next(env, b, s).value, token, appId) :: StoredFor(b, token, appId)
  {
    NextExtends(env, b, s);
  }

  // ---------- exactly ----------

  /**
   A launch token of a registered app is stored, by some continuation that loses no revocation, exactly when a request
   of the app is in flight or another can begin: the app can log in, or still acts.
   */
  lemma CreatesAgainExactly(env: Env, b: Broker, appId: string)
    requires InOrder(env, b) && SpiffeLaw(env.p) && appId in b.apps
    requires Unix(b.now) > 0 && env.svc.cfg.defaultTtl > 0
    ensures (exists later :: StoresAgain(env, b, later, appId)) <==>
              Live(b, appId) || StillActs(env, b, appId) || SomeInFlight(b, appId)
  {
    if k: nat :| k in b.calls && InFlight(b, b.calls[k], appId) {
      var later := InFlightStores(env, b, k, appId);
      assert StoresAgain(env, b, later, appId);
    } else if Live(b, appId) || StillActs(env, b, appId) {
      var later := StoredByActing(env, b, appId);
      assert StoresAgain(env, b, later, appId);
    } else {
      forall later | Run(env, b, later).Some? && LossFreeRun(env, b, later)
        ensures !StoresAgain(env, b, later, appId)
      {
        RunStoresNothing(env, b, later, appId);
      }
    }
  }

  /** Once the app is revoked as an agent, what is still stored for it is what was in flight. */
  lemma RevokedCreatesExactly(env: Env, b: Broker, appId: string)
    requires InOrder(env, b) && SpiffeLaw(env.p) && appId in b.apps && AppSub(appId) in b.rev.agents
    ensures (exists later :: StoresAgain(env, b, later, appId)) <==> SomeInFlight(b, appId)
  {
    if k: nat :| k in b.calls && InFlight(b, b.calls[k], appId) {
      var later := InFlightStores(env, b, k, appId);
      assert StoresAgain(env, b, later, appId);
    } else {
      forall later | Run(env, b, later).Some? && LossFreeRun(env, b, later)
        ensures !StoresAgain(env, b, later, appId)
      {
        RunStoresNothing(env, b, later, appId);
      }
    }
  }

  /** An app that acts begins a request, which is stored. */
  lemma StoredByActing(env: Env, b: Broker, appId: string) returns (later: seq<Step>)
    requires InOrder(env, b) && SpiffeLaw(env.p) && appId in b.apps && (Live(b, appId) || StillActs(env, b, appId))
    requires Unix(b.now) > 0 && env.svc.cfg.defaultTtl > 0
    ensures StoresAgain(env, b, later, appId)
  {
    var first, mid, i := ComesToAct(env, b, appId);
    RunKeepsOrder(env, b, first);
    RunExtends(env, b, first);
    ActiveExactly(env, b, first, appId);
    var rest := RequestStored(env, mid, i, appId);
    later := first + rest;
    RunConcat(env, b, first, rest);
    NoRestartLosesNothing(env, b, later);
    var token :| token !in mid.grants && StoredFor(Run(env, mid, rest).value, token, appId);
    assert token !in b.grants && StoredFor(Run(env, b, later).value, token, appId);
  }

  /** A request with one well-formed scope, begun under an admitted token of the app. */
  lemma RequestStored(env: Env, b: Broker, i: nat, appId: string) returns (steps: seq<Step>)
    requires HistoryOk(env, b) && NamesOk(b) && appId in b.apps && OfApp(b, i, appId) && Admitted(env, b, i)
    ensures NoRestart(steps) && StoresAgain(env, b, steps, appId)
  {
    var call := UnusedCall(b);
    var lreq := LaunchReq("agent", [APP_LAUNCH], 0, None, 0);
    BeginsWhenAdmitted(env, b, call, i, lreq, appId);
    LaunchTokensPlain();
    Scope.TextWellFormed("app", LAUNCH_TOKENS, "*");
    var start, mid := BeginLaunch(call, i, lreq), SetCall(b, call, Launching(i, lreq));
    NextKeepsHistory(env, b, start);
    LeadsOne(env, b, start, mid);
    var rest := InFlightStores(env, mid, call, appId);
    steps := [start] + rest;
    RunConcat(env, b, [start], rest);
    NoRestartLosesNothing(env, b, steps);
    var token :| token !in mid.grants && StoredFor(Run(env, mid, rest).value, token, appId);
    assert token !in b.grants && StoredFor(Run(env, b, steps).value, token, appId);
  }

  /** The app deregistered and revoked as an agent. */
  function ShutOff(b: Broker, appId: string): Broker
    requires appId in b.apps
  {
    RevokeIn(Off(b, appId), Entry("agent", AppSub(appId)), true)
  }

  function ShutSteps(appId: string): seq<Step> {
    [ChangeApp(Deactivate(appId)), Revoke("agent", AppSub(appId), true)]
  }

  lemma ShuttingGoes(env: Env, b: Broker, appId: string)
    requires HistoryOk(env, b) && appId in b.apps
    ensures Leads(env, b, ShutSteps(appId), ShutOff(b, appId)) && HistoryOk(env, ShutOff(b, appId))
  {
    var off, revoke := Off(b, appId), Revoke("agent", AppSub(appId), true);
    DeregisterGoes(env, b, appId);
    LeadsOne(env, off, revoke, ShutOff(b, appId));
    LeadsOn(env, b, [ChangeApp(Deactivate(appId))], off, [revoke], ShutOff(b, appId));
    RevocationsApart(env, off, ShutOff(b, appId).rev, ShutOff(b, appId).saved, off.apps);
  }

  lemma RevokedAdmitsNone(env: Env, b: Broker, appId: string)
    requires AppSub(appId) in b.rev.agents
    ensures !StillActs(env, b, appId) && forall i: nat | OfApp(b, i, appId) :: !Admitted(env, b, i)
  {
    forall i: nat | OfApp(b, i, appId) ensures !Admitted(env, b, i) {
      if Admitted(env, b, i) {
        AdmittedNotRevokedAsAgent(env, b, i, appId);
      }
    }
  }

  /**
   Deregistering an app and revoking it as an agent, between the ceiling check and the storing of a launch-token
   request, leaves no token of the app admitted, and yet the launch token is stored under the app.
   */
  lemma LaunchOutlivesRevocation(env: Env, b: Broker, k: nat, appId: string, token: string)
    requires HistoryOk(env, b) && appId in b.apps && k in b.calls && b.calls[k].WithinCeiling?
    requires InFlight(b, b.calls[k], appId) && token !in b.grants
    ensures var end := Run(env, b, ShutSteps(appId) + [StoreLaunch(k, token)]);
            && end.Some? && Inactive(end.value, appId) && StoredFor(end.value, token, appId)
            && !StillActs(env, end.value, appId) && forall i: nat | OfApp(end.value, i, appId) :: !Admitted(env, end.value, i)
  {
    var mid := ShutOff(b, appId);
    ShuttingGoes(env, b, appId);
    CheckedStores(env, mid, k, appId, token);
    RunSnoc(env, b, ShutSteps(appId), StoreLaunch(k, token));
    var end := Next(env, mid, StoreLaunch(k, token)).value;
    NextApps(env, mid, StoreLaunch(k, token));
    StepGrowsRevocations(env, mid, StoreLaunch(k, token));
    RevokedAdmitsNone(env, end, appId);
  }
}
