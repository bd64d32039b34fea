/** How long an app can go on acting with tokens it holds: as long as it renews them. */
module AppLife {
  import opened Wrappers
  import opened Clock
  import opened Claims
  import opened Crypto
  import opened Store
  import opened Revocation
  import opened Tokens
  import opened Delegation
  import opened Identity
  import opened Admin
  import opened Broker
  import opened CallRuns
  import opened Fresh
  import opened History
  import Scope
  import opened Provenance
  import opened Finality
  import opened Renewal
  import opened AppTokens

  /** The steps lead from one state to the other, with no restart. */
  ghost predicate Leads(env: Env, b: Broker, steps: seq<Step>, end: Broker) {
    NoRestart(steps) && Run(env, b, steps) == Some(end)
  }

  lemma LeadsOn(env: Env, b: Broker, first: seq<Step>, mid: Broker, rest: seq<Step>, end: Broker)
    requires Leads(env, b, first, mid) && Leads(env, mid, rest, end)
    ensures Leads(env, b, first + rest, end)
  {
    RunConcat(env, b, first, rest);
  }

  lemma LeadsOne(env: Env, b: Broker, s: Step, end: Broker)
    requires !s.Restart? && Next(env, b, s) == Some(end)
    ensures Leads(env, b, [s], end)
  {
    RunOne(env, b, s);
  }

  /** The token at q can do, for the same subject, what the token at p could. */
  predicate Succeeds(b: Broker, p: nat, end: Broker, q: nat) {
    && p < |b.issued| && q < |end.issued|
    && end.issued[q].claims.sub == b.issued[p].claims.sub && end.issued[q].claims.scope == b.issued[p].claims.scope
  }

  /** An admitted token renewed on the spot has an admitted successor of the same lifetime, issued now. */
  lemma RenewedAtOnce(env: Env, b: Broker, p: nat) returns (steps: seq<Step>, b1: Broker)
    requires HistoryOk(env, b) && Admitted(env, b, p) && Unix(b.now) > 0
    ensures Leads(env, b, steps, b1) && HistoryOk(env, b1)
    ensures b1.now == b.now && b1.apps == b.apps && Succeeds(b, p, b1, |b.issued|) && Admitted(env, b1, |b.issued|)
    ensures Lifetime(b1.issued[|b.issued|].claims) == Lifetime(b.issued[p].claims)
    ensures b1.issued[|b.issued|].claims.iat == Unix(b.now)
  {
    var call := UnusedCall(b);
    var jti := UnusedJti(b);
    steps := RenewSteps(call, p, true, 0, jti);
    b1 := AfterRenew(env, b, call, p, true, 0, jti);
    RenewGoes(env, b, call, p, true, 0, jti);
    RunKeepsHistory(env, b, steps);
    RenewedIsAdmitted(env, b, p, b1.rev, jti);
    assert Justified(env, b, p);
    var pc := b.issued[p].claims;
    RenewalKeepsLifetime(env.svc.cfg, RequestOf(env, b, p), pc.iat, pc.jti, Unix(b.now), jti);
  }

  /** A token lives through the last second of its lifetime. */
  lemma AdmittedToTheEnd(env: Env, b: Broker, i: nat, life: nat)
    requires Admitted(env, b, i) && b.issued[i].claims.iat == Unix(b.now) && Lifetime(b.issued[i].claims) == life
    requires b.issued[i].claims.nbf <= Unix(b.now)
    ensures Admitted(env, b.(now := b.now + life * SECOND), i)
  {
    assert Unix(b.now + life * SECOND) == Unix(b.now) + life;
  }

  /** Renewed on the spot and kept to the end of its lifetime. */
  lemma OneLifetime(env: Env, b: Broker, p: nat) returns (steps: seq<Step>, end: Broker)
    requires HistoryOk(env, b) && Admitted(env, b, p) && Unix(b.now) > 0 && Lifetime(b.issued[p].claims) > 0
    ensures Leads(env, b, steps, end) && HistoryOk(env, end)
    ensures end.now == b.now + Lifetime(b.issued[p].claims) * SECOND && end.apps == b.apps
    ensures Succeeds(b, p, end, |b.issued|) && Admitted(env, end, |b.issued|)
    ensures Lifetime(end.issued[|b.issued|].claims) == Lifetime(b.issued[p].claims)
  {
    var renew, b1 := RenewedAtOnce(env, b, p);
    var n, life := |b.issued|, Lifetime(b.issued[p].claims);
    assert Justified(env, b1, n);
    AdmittedToTheEnd(env, b1, n, life);
    end := b1.(now := b1.now + life * SECOND);
    TickKeeps(env, b1, life * SECOND);
    TickGoes(env, b1, Tick(life * SECOND));
    LeadsOne(env, b1, Tick(life * SECOND), end);
    steps := renew + [Tick(life * SECOND)];
    LeadsOn(env, b, renew, b1, [Tick(life * SECOND)], end);
  }

  /** Renewing whenever the lifetime is over, the holder of an admitted token still has one at any later time. */
  lemma {:induction false} KeptAlive(env: Env, b: Broker, p: nat, until: int) returns (steps: seq<Step>, end: Broker, q: nat)
    requires HistoryOk(env, b) && Admitted(env, b, p) && Unix(b.now) > 0 && Lifetime(b.issued[p].claims) > 0
    ensures Leads(env, b, steps, end)
    ensures end.now >= until && end.apps == b.apps && Admitted(env, end, q) && Succeeds(b, p, end, q)
    decreases if b.now < until then until - b.now else 0
  {
    if b.now >= until {
      steps, end, q := [], b, p;
    } else {
      var first, mid := OneLifetime(env, b, p);
      var rest;
      rest, end, q := KeptAlive(env, mid, |b.issued|, until);
      LeadsOn(env, b, first, mid, rest, end);
      steps := first + rest;
    }
  }

  /** The app deregistered. */
  function Off(b: Broker, appId: string): Broker
    requires appId in b.apps
  {
    b.(apps := b.apps[appId := b.apps[appId].(active := false)])
  }

  lemma DeregisterGoes(env: Env, b: Broker, appId: string)
    requires HistoryOk(env, b) && appId in b.apps
    ensures Leads(env, b, [ChangeApp(Deactivate(appId))], Off(b, appId)) && HistoryOk(env, Off(b, appId))
  {
    LeadsOne(env, b, ChangeApp(Deactivate(appId)), Off(b, appId));
    RevocationsApart(env, b, b.rev, b.saved, Off(b, appId).apps);
  }

  /** The app is off and a launch token of this request has been stored for it. */
  predicate CreatedThough(end: Broker, appId: string, lreq: LaunchReq, token: string, at: int) {
    && appId in end.apps && !end.apps[appId].active
    && token in end.grants && end.grants[token].rec.appId == appId
    && end.grants[token].rec.allowedScope == lreq.allowedScope && end.grants[token].rec.createdAt >= at
  }

  /**
   A deregistered app that holds an admitted token can renew it past any time and then create a launch token, with
   any scopes within its ceiling.
   */
  lemma DeregisteredAppContinues(env: Env, b: Broker, appId: string, p: nat, until: int, lreq: LaunchReq)
    returns (later: seq<Step>, end: Broker, token: string)
    requires HistoryOk(env, b) && NamesOk(b) && appId in b.apps && OfApp(b, p, appId) && Admitted(env, b, p)
    requires Unix(b.now) > 0 && Lifetime(b.issued[p].claims) > 0
    requires LaunchFieldMissing(lreq).None? && Scope.Subset(lreq.allowedScope, b.apps[appId].ceiling)
    ensures Leads(env, b, [ChangeApp(Deactivate(appId))] + later, end)
    ensures token !in b.grants && CreatedThough(end, appId, lreq, token, until)
  {
    var stop, off := [ChangeApp(Deactivate(appId))], Off(b, appId);
    DeregisterGoes(env, b, appId);
    var alive, mid, q := KeptAlive(env, off, p, until);
    AppTokenShape(env, b, p, appId);
    AppMayLaunch(mid.issued[q].claims);
    token := UnusedLaunchToken(mid);
    RunExtends(env, off, alive);
    var launch;
    launch, end := LaunchedBy(env, mid, q, appId, lreq, token);
    LeadsOn(env, off, alive, mid, launch, end);
    later := alive + launch;
    LeadsOn(env, b, stop, off, later, end);
  }

  /** An admitted token of an app creates a launch token within the app's ceiling. */
  lemma LaunchedBy(env: Env, b: Broker, i: nat, appId: string, lreq: LaunchReq, token: string)
    returns (steps: seq<Step>, end: Broker)
    requires Admitted(env, b, i) && OfApp(b, i, appId) && MayLaunch(b.issued[i].claims) && token !in b.grants
    requires appId in b.apps && LaunchFieldMissing(lreq).None? && Scope.Subset(lreq.allowedScope, b.apps[appId].ceiling)
    ensures Leads(env, b, steps, end)
    ensures end.apps == b.apps && token in end.grants && end.grants[token].rec.appId == appId
    ensures end.grants[token].rec.allowedScope == lreq.allowedScope && end.grants[token].rec.createdAt == b.now
  {
    var call := UnusedCall(b);
    steps := LaunchSteps(call, i, lreq, token);
    end := AfterLaunch(b, call, i, lreq, token);
    assert steps[..3] == steps;
    LaunchGoes(env, b, call, i, lreq, token);
  }
}
