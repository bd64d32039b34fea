/**
 What deregistering an app stops, exactly. Logins already past their status check still
 issue. Tokens the app holds, or is about to be given, go on acting and renewing; once none
 is left they never come back, and an agent-level revocation of the app leaves none.
 The launch tokens that follow are the subject of AppLaunches.
 */
module Deregistration {
  import opened Wrappers
  import opened Clock
  import opened Claims
  import opened Crypto
  import opened Store
  import opened Revocation
  import opened Tokens
  import opened Delegation
  import opened Identity
  import opened Admin
  import opened Broker
  import opened Fresh
  import opened History
  import opened Provenance
  import opened Renewal
  import opened Finality
  import opened AppTokens
  import opened AppLife

  predicate Inactive(b: Broker, appId: string) {
    appId in b.apps && !b.apps[appId].active
  }

  predicate Deregisters(s: Step, appId: string) {
    s == ChangeApp(Deactivate(appId))
  }

  predicate NeverDeregisters(steps: seq<Step>, appId: string) {
    forall i | 0 <= i < |steps| :: !Deregisters(steps[i], appId)
  }

  lemma NeverUntilLast(steps: seq<Step>, appId: string)
    requires steps != []
    ensures NeverDeregisters(steps, appId) <==>
              NeverDeregisters(steps[..|steps| - 1], appId) && !Deregisters(steps[|steps| - 1], appId)
  {
    var before := steps[..|steps| - 1];
    if NeverDeregisters(before, appId) && !Deregisters(steps[|steps| - 1], appId) {
      forall i | 0 <= i < |steps| ensures !Deregisters(steps[i], appId) {
        assert i < |before| ==> steps[i] == before[i];
      }
    }
  }

  lemma AppsThenActive(apps: map<string, AppRecord>, s: Step, appId: string)
    requires appId in apps
    ensures appId in AppsThen(apps, s)
    ensures AppsThen(apps, s)[appId].active <==> apps[appId].active && !Deregisters(s, appId)
  {
  }

  /** An app is active after a run exactly when it was before and no step deregistered it: nothing reactivates one. */
  lemma {:induction false} ActiveExactly(env: Env, b: Broker, steps: seq<Step>, appId: string)
    requires appId in b.apps && Run(env, b, steps).Some?
    ensures appId in Run(env, b, steps).value.apps
    ensures Run(env, b, steps).value.apps[appId].active <==>
              b.apps[appId].active && NeverDeregisters(steps, appId)
  {
    if steps == [] {
    } else {
      var n := |steps| - 1;
      ActiveExactly(env, b, steps[..n], appId);
      NeverUntilLast(steps, appId);
      NextApps(env, Run(env, b, steps[..n]).value, steps[n]);
      AppsThenActive(Run(env, b, steps[..n]).value.apps, steps[n], appId);
    }
  }

  // ---------- logins ----------

  /** The call has found the app active and will issue to it. */
  predicate PastCheck(b: Broker, call: nat, appId: string) {
    call in b.calls && b.calls[call].LoggingIn? && b.calls[call].appId == appId
  }

  /** A login issues to a still active app exactly when the app was not deregistered since its status was read. */
  lemma LoginToActiveExactly(env: Env, b: Broker, call: nat, appId: string, between: seq<Step>, jti: string)
    requires call !in b.calls && appId in b.apps && b.apps[appId].active
    requires var read := Next(env, b, BeginLogin(call, appId)).value;
             && Run(env, read, between).Some? && PastCheck(Run(env, read, between).value, call, appId)
             && FreshJti(Run(env, read, between).value, jti)
    ensures var mid := Run(env, Next(env, b, BeginLogin(call, appId)).value, between).value;
            var end := Next(env, mid, IssueLogin(call, jti));
            && end.Some? && |end.value.issued| == |mid.issued| + 1
            && end.value.issued[|mid.issued|].origin.ByApp? && end.value.issued[|mid.issued|].origin.appId == appId
            && appId in end.value.apps
            && (end.value.apps[appId].active <==> NeverDeregisters(between, appId))
  {
    var read := Next(env, b, BeginLogin(call, appId)).value;
    assert read.apps == b.apps;
    ActiveExactly(env, read, between, appId);
  }

  /** The step sets this app's token lifetime. */
  predicate SetsTtl(s: Step, appId: string) {
    s.ChangeApp? && s.op.SetTtl? && s.op.appId == appId && 60 <= s.op.ttl <= 86400
  }

  /** The app's token lifetime after the steps: the last one set, or the given one. */
  function TtlAfter(ttl: int, steps: seq<Step>, appId: string): int {
    if steps == [] then ttl
    else if SetsTtl(steps[|steps| - 1], appId) then steps[|steps| - 1].op.ttl
    else TtlAfter(ttl, steps[..|steps| - 1], appId)
  }

  lemma AppsThenTtl(apps: map<string, AppRecord>, s: Step, appId: string)
    requires appId in apps
    ensures appId in AppsThen(apps, s)
    ensures AppsThen(apps, s)[appId].tokenTtl == if SetsTtl(s, appId) then s.op.ttl else apps[appId].tokenTtl
  {
  }

  lemma {:induction false} TtlFollows(env: Env, b: Broker, steps: seq<Step>, appId: string)
    requires appId in b.apps && Run(env, b, steps).Some?
    ensures appId in Run(env, b, steps).value.apps
    ensures Run(env, b, steps).value.apps[appId].tokenTtl == TtlAfter(b.apps[appId].tokenTtl, steps, appId)
  {
    if steps == [] {
    } else {
      var n := |steps| - 1;
      TtlFollows(env, b, steps[..n], appId);
      NextApps(env, Run(env, b, steps[..n]).value, steps[n]);
      AppsThenTtl(Run(env, b, steps[..n]).value.apps, steps[n], appId);
    }
  }

  /**
   A login issues a token that lives as long as the app's lifetime last set before its status was read; one set since
   then does not bind it.
   */
  lemma LoginLivesAsSet(env: Env, b: Broker, before: seq<Step>, call: nat, appId: string, later: Broker, jti: string)
    requires appId in b.apps && Run(env, b, before).Some?
    requires var mid := Run(env, b, before).value;
             && call !in mid.calls && appId in mid.apps && mid.apps[appId].active
             && call in later.calls && later.calls[call] == Next(env, mid, BeginLogin(call, appId)).value.calls[call]
    requires FreshJti(later, jti)
    ensures var end := Next(env, later, IssueLogin(call, jti));
            && end.Some? && |end.value.issued| == |later.issued| + 1
            && LivesFor(env.svc.cfg, end.value.issued[|later.issued|].claims, TtlAfter(b.apps[appId].tokenTtl, before, appId))
  {
    TtlFollows(env, b, before, appId);
  }

  /** Deregistering an app between the status check and the issuance of a login leaves it with a new token. */
  lemma LoginOutlivesDeregistration(env: Env, b: Broker, call: nat, appId: string, jti: string)
    requires PastCheck(b, call, appId) && appId in b.apps && FreshJti(b, jti)
    ensures var end := Run(env, b, [ChangeApp(Deactivate(appId)), IssueLogin(call, jti)]);
            && end.Some? && Inactive(end.value, appId) && |end.value.issued| == |b.issued| + 1
            && OfApp(end.value, |b.issued|, appId)
  {
    var steps := [ChangeApp(Deactivate(appId)), IssueLogin(call, jti)];
    assert Next(env, b, steps[0]) == Some(Off(b, appId));
    TwoTaken(env, b, steps, Off(b, appId));
    assert steps[..2] == steps;
  }

  /** A login past its check was so before, or has just found the app active. */
  lemma LoginsKept(env: Env, b: Broker, s: Step, call: nat, appId: string)
    requires Next(env, b, s).Some? && PastCheck(Next(env, b, s).value, call, appId)
    ensures PastCheck(b, call, appId) || (s.BeginLogin? && appId in b.apps && b.apps[appId].active)
  {
    if s.BeginLogin? || s.IssueLogin? {
      assert Next(env, b, s) == LoginStep(env, b, s);
    } else {
      LoginsApart(env, b, s, call);
    }
  }

  lemma LoginsApart(env: Env, b: Broker, s: Step, call: nat)
    requires Next(env, b, s).Some? && !s.BeginLogin? && !s.IssueLogin?
    requires call in Next(env, b, s).value.calls && Next(env, b, s).value.calls[call].LoggingIn?
    ensures call in b.calls && b.calls[call] == Next(env, b, s).value.calls[call]
  {
    if s.ReadLaunch? || s.TakeNonce? || s.TakeLaunch? || s.IssueAgent? || s.RecordAgent? {
      RegisterMoves(env, b, s, call);
    } else if s.BeginDelegate? || s.ExtendChain? || s.IssueDelegated? {
      DelegateMoves(env, b, s, call);
    }
  }

  /** Some step of the run issues to the app at a login. */
  ghost predicate LoginIssues(env: Env, b: Broker, steps: seq<Step>, appId: string) {
    && Run(env, b, steps).Some?
    && exists i | |b.issued| <= i < |Run(env, b, steps).value.issued| ::
         LoggedIn(Run(env, b, steps).value, i, appId)
  }

  predicate LoggedIn(b: Broker, i: nat, appId: string) {
    i < |b.issued| && b.issued[i].origin.ByApp? && b.issued[i].origin.appId == appId
  }

  lemma LoginTokensKept(env: Env, b: Broker, s: Step, i: nat, appId: string)
    requires Next(env, b, s).Some? && LoggedIn(Next(env, b, s).value, i, appId)
    ensures LoggedIn(b, i, appId) || (s.IssueLogin? && PastCheck(b, s.call, appId))
  {
    NextExtends(env, b, s);
    if i < |b.issued| {
      assert Next(env, b, s).value.issued[i] == b.issued[i];
    } else {
      LoginOriginNew(env, b, s, i);
    }
  }

  lemma LoginOriginNew(env: Env, b: Broker, s: Step, i: nat)
    requires Next(env, b, s).Some? && |b.issued| <= i < |Next(env, b, s).value.issued|
    requires Next(env, b, s).value.issued[i].origin.ByApp?
    ensures s.IssueLogin? && PastCheck(b, s.call, Next(env, b, s).value.issued[i].origin.appId)
  {
  }

  /** With no login past its check, none gets past it and none issues. */
  lemma {:induction false} NoLoginIssues(env: Env, b: Broker, steps: seq<Step>, appId: string)
    requires Inactive(b, appId) && (forall k: nat :: !PastCheck(b, k, appId)) && Run(env, b, steps).Some?
    ensures forall k: nat :: !PastCheck(Run(env, b, steps).value, k, appId)
    ensures forall i: nat | LoggedIn(Run(env, b, steps).value, i, appId) :: i < |b.issued|
  {
    if steps == [] {
    } else {
      var n := |steps| - 1;
      var mid, end := Run(env, b, steps[..n]).value, Run(env, b, steps).value;
      NoLoginIssues(env, b, steps[..n], appId);
      ActiveExactly(env, b, steps[..n], appId);
      forall k: nat ensures !PastCheck(end, k, appId) {
        if PastCheck(end, k, appId) {
          LoginsKept(env, mid, steps[n], k, appId);
        }
      }
      forall i: nat | LoggedIn(end, i, appId) ensures i < |b.issued| {
        LoginTokensKept(env, mid, steps[n], i, appId);
      }
    }
  }

  /** Once deregistered, an app is issued a token at a login, by some continuation, exactly if a login is past its check. */
  lemma DeregisteredForGood(env: Env, b: Broker, appId: string)
    requires Inactive(b, appId)
    ensures (exists later :: LoginIssues(env, b, later, appId)) <==> exists k: nat :: PastCheck(b, k, appId)
  {
    if k: nat :| PastCheck(b, k, appId) {
      var jti := UnusedJti(b);
      RunOne(env, b, IssueLogin(k, jti));
      assert LoggedIn(Run(env, b, [IssueLogin(k, jti)]).value, |b.issued|, appId);
      assert LoginIssues(env, b, [IssueLogin(k, jti)], appId);
    } else {
      forall later | Run(env, b, later).Some? ensures !LoginIssues(env, b, later, appId) {
        NoLoginIssues(env, b, later, appId);
      }
    }
  }

  // ---------- acting on ----------

  /** Whether the app is active plays no part in a launch-token request: it is admitted and decided alike either way. */
  lemma LaunchTokensContinue(env: Env, b: Broker, appId: string, i: nat, lreq: LaunchReq)
    requires appId in b.apps && i < |b.issued|
    ensures Admitted(env, Off(b, appId), i) <==> Admitted(env, b, i)
    ensures CeilingRead(Off(b, appId), i, lreq) == CeilingRead(b, i, lreq)
  {
    SameCeilingSameDecision(b.apps, Off(b, appId).apps, b.issued[i].claims.sub, lreq);
  }

  lemma SameCeilingSameDecision(apps: map<string, AppRecord>, apps': map<string, AppRecord>, sub: string, req: LaunchReq)
    requires apps.Keys == apps'.Keys && forall a | a in apps :: apps'[a].ceiling == apps[a].ceiling
    ensures CeilingDecision(apps', sub, req.allowedScope) == CeilingDecision(apps, sub, req.allowedScope)
  {
  }

  /** The call will give the app a token. */
  predicate Supplies(b: Broker, c: Call, appId: string) {
    || (c.LoggingIn? && c.appId == appId)
    || ((c.Renewing? || c.Replacing?) && OfApp(b, c.parent, appId))
  }

  /** The app is not revoked as an agent, and holds an admitted token or is about to be given one. */
  ghost predicate StillActs(env: Env, b: Broker, appId: string) {
    && AppSub(appId) !in b.rev.agents
    && (|| (exists i: nat :: OfApp(b, i, appId) && Admitted(env, b, i))
        || (exists k: nat :: k in b.calls && Supplies(b, b.calls[k], appId)))
  }

  /** Every token was issued at or before the present. */
  predicate IssuedInPast(b: Broker) {
    forall i | 0 <= i < |b.issued| :: b.issued[i].claims.iat <= Unix(b.now)
  }

  predicate RevocationsGrow(r: Revocations, q: Revocations) {
    r.tokens <= q.tokens && r.agents <= q.agents && r.tasks <= q.tasks && r.chains <= q.chains
  }

  lemma StepGrowsRevocations(env: Env, b: Broker, s: Step)
    requires Next(env, b, s).Some? && (s.Restart? ==> Intact(b))
    ensures RevocationsGrow(b.rev, Next(env, b, s).value.rev)
  {
    if !s.Restart? {
      StepRevokes(env, b, s);
    }
  }

  /** A token refused now is refused ever after. */
  lemma RefusedStaysRefused(env: Env, b: Broker, b': Broker, i: nat)
    requires HistoryOk(env, b) && IssuedInPast(b) && Extends(b, b') && RevocationsGrow(b.rev, b'.rev)
    requires i < |b.issued| && Admitted(env, b', i)
    ensures Admitted(env, b, i)
  {
    assert Justified(env, b, i);
    assert b'.issued[i] == b.issued[i];
    assert Unix(b.now) <= Unix(b'.now);
    var c := b.issued[i].claims;
    assert c.nbf == c.iat;
    assert !IsRevoked(b.rev, c);
  }

  lemma SuppliersKept(env: Env, b: Broker, s: Step, k: nat, appId: string)
    requires HistoryOk(env, b) && Inactive(b, appId) && Next(env, b, s).Some?
    requires k in Next(env, b, s).value.calls && Supplies(Next(env, b, s).value, Next(env, b, s).value.calls[k], appId)
    ensures || (k in b.calls && Supplies(b, b.calls[k], appId))
            || (s.BeginRenew? && OfApp(b, s.parent, appId) && Admitted(env, b, s.parent))
  {
    var b' := Next(env, b, s).value;
    NextExtends(env, b, s);
    if b'.calls[k].LoggingIn? {
      LoginsKept(env, b, s, k, appId);
    } else {
      var p := b'.calls[k].parent;
      RenewersKept(env, b, s, k, p);
      if k in b.calls && RenewsToken(b.calls[k], p) {
        assert CallOk(b, b.calls[k]);
      }
      assert b'.issued[p] == b.issued[p];
    }
  }

  /** A new token of the app comes from a call that was to supply it. */
  lemma NewTokenSupplied(env: Env, b: Broker, s: Step, i: nat, appId: string)
    requires HistoryOk(env, b) && NamesOk(b) && SpiffeLaw(env.p) && Next(env, b, s).Some?
    requires OfApp(Next(env, b, s).value, i, appId) && i >= |b.issued|
    ensures exists k: nat :: k in b.calls && Supplies(b, b.calls[k], appId)
  {
    var b' := Next(env, b, s).value;
    NextKeepsHistory(env, b, s);
    NextKeepsNames(env, b, s);
    NextExtends(env, b, s);
    AppTokenShape(env, b', i, appId);
    match b'.issued[i].origin
    case ByApp(_, _) =>
      LoginTokensKept(env, b, s, i, appId);
      assert Supplies(b, b.calls[s.call], appId);
    case ByRenewal(p) =>
      ChildrenKept(env, b, s, i, p);
      assert b'.issued[p] == b.issued[p];
      assert Supplies(b, b.calls[s.call], appId);
  }

  /** No login gives the app a token it can use: it is deregistered or revoked as an agent. */
  predicate Closed(b: Broker, appId: string) {
    Inactive(b, appId) || AppSub(appId) in b.rev.agents
  }

  lemma NextStaysClosed(env: Env, b: Broker, s: Step, appId: string)
    requires Closed(b, appId) && Next(env, b, s).Some? && (s.Restart? ==> Intact(b))
    ensures Closed(Next(env, b, s).value, appId)
  {
    StepGrowsRevocations(env, b, s);
    NextApps(env, b, s);
    if Inactive(b, appId) {
      AppsThenActive(b.apps, s, appId);
    }
  }

  /** A closed app that can no longer act never can again, unless a restart loses a revocation. */
  lemma NextStaysOver(env: Env, b: Broker, s: Step, appId: string)
    requires HistoryOk(env, b) && NamesOk(b) && IssuedInPast(b) && SpiffeLaw(env.p)
    requires Closed(b, appId) && !StillActs(env, b, appId)
    requires Next(env, b, s).Some? && (s.Restart? ==> Intact(b))
    ensures !StillActs(env, Next(env, b, s).value, appId)
  {
    var b' := Next(env, b, s).value;
    NextExtends(env, b, s);
    StepGrowsRevocations(env, b, s);
    if AppSub(appId) !in b'.rev.agents {
      forall i: nat | OfApp(b', i, appId) ensures !Admitted(env, b', i) {
        if i >= |b.issued| {
          NewTokenSupplied(env, b, s, i, appId);
        } else {
          assert b'.issued[i] == b.issued[i];
          assert OfApp(b, i, appId);
          if Admitted(env, b', i) {
            RefusedStaysRefused(env, b, b', i);
          }
        }
      }
      forall k: nat | k in b'.calls ensures !Supplies(b', b'.calls[k], appId) {
        if Supplies(b', b'.calls[k], appId) {
          SuppliersKept(env, b, s, k, appId);
        }
      }
    }
  }

  /** The states the theorems below are about. */
  ghost predicate InOrder(env: Env, b: Broker) {
    HistoryOk(env, b) && NamesOk(b) && IssuedInPast(b)
  }

  lemma RegisterIssuesNow(env: Env, b: Broker, s: Step)
    requires IssuedInPast(b) && RegisterStep.requires(env, b, s) && RegisterStep(env, b, s).Some?
    ensures IssuedInPast(RegisterStep(env, b, s).value)
  {
  }

  lemma DelegateIssuesNow(env: Env, b: Broker, s: Step)
    requires IssuedInPast(b) && DelegateStep.requires(env, b, s) && DelegateStep(env, b, s).Some?
    ensures IssuedInPast(DelegateStep(env, b, s).value)
  {
  }

  lemma RenewIssuesNow(env: Env, b: Broker, s: Step)
    requires IssuedInPast(b) && RenewStep.requires(env, b, s) && RenewStep(env, b, s).Some?
    ensures IssuedInPast(RenewStep(env, b, s).value)
  {
  }

  lemma NextIssuesNow(env: Env, b: Broker, s: Step)
    requires IssuedInPast(b) && Next(env, b, s).Some?
    ensures IssuedInPast(Next(env, b, s).value)
  {
    if s.ReadLaunch? || s.TakeNonce? || s.TakeLaunch? || s.IssueAgent? || s.RecordAgent? {
      RegisterIssuesNow(env, b, s);
    } else if s.BeginDelegate? || s.ExtendChain? || s.IssueDelegated? {
      DelegateIssuesNow(env, b, s);
    } else if s.BeginRenew? || s.RevokeOld? || s.IssueRenewed? {
      RenewIssuesNow(env, b, s);
    }
  }

  lemma {:induction false} RunKeepsOrder(env: Env, b: Broker, steps: seq<Step>)
    requires InOrder(env, b) && SpiffeLaw(env.p) && Run(env, b, steps).Some?
    ensures InOrder(env, Run(env, b, steps).value)
  {
    if steps == [] {
    } else {
      var n := |steps| - 1;
      RunKeepsOrder(env, b, steps[..n]);
      NextKeepsHistory(env, Run(env, b, steps[..n]).value, steps[n]);
      NextKeepsNames(env, Run(env, b, steps[..n]).value, steps[n]);
      NextIssuesNow(env, Run(env, b, steps[..n]).value, steps[n]);
    }
  }

  /** Every reachable state is one of them. */
  lemma ReachableInOrder(env: Env, start: int, steps: seq<Step>)
    requires SpiffeLaw(env.p) && Run(env, Start(start), steps).Some?
    ensures InOrder(env, Run(env, Start(start), steps).value)
  {
    RunKeepsOrder(env, Start(start), steps);
  }

  lemma {:induction false} RunStaysOver(env: Env, b: Broker, steps: seq<Step>, appId: string)
    requires InOrder(env, b) && SpiffeLaw(env.p) && Closed(b, appId) && !StillActs(env, b, appId)
    requires Run(env, b, steps).Some? && LossFreeRun(env, b, steps)
    ensures Closed(Run(env, b, steps).value, appId) && !StillActs(env, Run(env, b, steps).value, appId)
  {
    if steps == [] {
    } else {
      var n := |steps| - 1;
      RunStaysOver(env, b, steps[..n], appId);
      RunKeepsOrder(env, b, steps[..n]);
      NextStaysClosed(env, Run(env, b, steps[..n]).value, steps[n], appId);
      NextStaysOver(env, Run(env, b, steps[..n]).value, steps[n], appId);
    }
  }

  /** The middleware admits a launch-token request with this token of the app. */
  predicate Requests(env: Env, b: Broker, call: nat, i: nat, lreq: LaunchReq, appId: string) {
    OfApp(b, i, appId) && Next(env, b, BeginLaunch(call, i, lreq)).Some?
  }

  /** The run loses no revocation, and at its end a launch-token request of the app begins. */
  ghost predicate RequestsAgain(env: Env, b: Broker, steps: seq<Step>, appId: string) {
    && Run(env, b, steps).Some? && LossFreeRun(env, b, steps)
    && exists call: nat, i: nat, lreq :: Requests(env, Run(env, b, steps).value, call, i, lreq, appId)
  }

  lemma BeginsWhenAdmitted(env: Env, b: Broker, call: nat, i: nat, lreq: LaunchReq, appId: string)
    requires OfApp(b, i, appId) && call !in b.calls && HistoryOk(env, b) && NamesOk(b)
    ensures Requests(env, b, call, i, lreq, appId) <==> Admitted(env, b, i)
    ensures Admitted(env, b, i) ==> Next(env, b, BeginLaunch(call, i, lreq)) == Some(SetCall(b, call, Launching(i, lreq)))
  {
    AppTokenShape(env, b, i, appId);
    AppMayLaunch(b.issued[i].claims);
  }

  /** A token just issued to an app that is not revoked as an agent is admitted. */
  lemma AppTokenAdmitted(env: Env, b: Broker, req: IssueReq, jti: string, rev: Revocations)
    requires IsApp(req.sub) && req.taskId == "" && req.chain == [] && Unix(b.now) > 0
    requires env.svc.cfg.defaultTtl > 0 && jti != "" && jti !in rev.tokens && req.sub !in rev.agents
    ensures Admit(env.svc.cfg, Some(rev), IssuedClaims(env.svc.cfg, req, Unix(b.now), jti), Unix(b.now)).Ok?
  {
    assert EffectiveTtl(env.svc.cfg, req.ttl) > 0;
  }

  /** A call that is to supply the app carries on to an admitted token. */
  lemma SupplyGoes(env: Env, b: Broker, k: nat, appId: string) returns (steps: seq<Step>, end: Broker)
    requires HistoryOk(env, b) && NamesOk(b) && AppSub(appId) !in b.rev.agents && k in b.calls
    requires Supplies(b, b.calls[k], appId) && Unix(b.now) > 0 && env.svc.cfg.defaultTtl > 0
    ensures Leads(env, b, steps, end) && OfApp(end, |b.issued|, appId) && Admitted(env, end, |b.issued|)
    ensures end.issued[|b.issued|].claims.scope == APP_SCOPE
  {
    var jti := UnusedJti(b);
    if b.calls[k].LoggingIn? {
      var req := AppLoginReq(AudienceOf(env.realm.audience), appId, b.calls[k].ttl);
      end := SetCall(Append(env, b, req, jti, ByApp(appId, b.calls[k].ttl)), k, Returned);
      steps := [IssueLogin(k, jti)];
      LeadsOne(env, b, IssueLogin(k, jti), end);
      AppTokenAdmitted(env, b, req, jti, b.rev);
    } else {
      steps, end := RenewalSupplyGoes(env, b, k, appId, jti);
    }
  }

  lemma RenewalSupplyGoes(env: Env, b: Broker, k: nat, appId: string, jti: string) returns (steps: seq<Step>, end: Broker)
    requires HistoryOk(env, b) && NamesOk(b) && AppSub(appId) !in b.rev.agents && k in b.calls
    requires (b.calls[k].Renewing? || b.calls[k].Replacing?) && OfApp(b, b.calls[k].parent, appId)
    requires FreshJti(b, jti) && jti !in b.rev.tokens && Unix(b.now) > 0 && env.svc.cfg.defaultTtl > 0
    ensures Leads(env, b, steps, end) && OfApp(end, |b.issued|, appId) && Admitted(env, end, |b.issued|)
    ensures end.issued[|b.issued|].claims.scope == APP_SCOPE
  {
    var p := b.calls[k].parent;
    AppTokenShape(env, b, p, appId);
    var mid := b;
    steps := [];
    if b.calls[k].Renewing? {
      steps := [RevokeOld(k, true)];
      mid := SetCall(RevokeIn(b, Entry("token", b.issued[p].claims.jti), true), k, Replacing(p));
      LeadsOne(env, b, RevokeOld(k, true), mid);
    }
    var req := RenewalReq(env.svc.cfg, b.issued[p].claims);
    IssueRenewedGoes(env, mid, k, p, jti);
    end := SetCall(Append(env, mid, req, jti, ByRenewal(p)), k, Returned);
    LeadsOne(env, mid, IssueRenewed(k, jti), end);
    LeadsOn(env, b, steps, mid, [IssueRenewed(k, jti)], end);
    steps := steps + [IssueRenewed(k, jti)];
    AppTokenAdmitted(env, mid, req, jti, mid.rev);
  }

  /** A run without restart loses no revocation. */
  lemma {:induction false} NoRestartLosesNothing(env: Env, b: Broker, steps: seq<Step>)
    requires NoRestart(steps)
    ensures LossFreeRun(env, b, steps)
  {
    if steps == [] {
    } else {
      NoRestartLosesNothing(env, b, steps[..|steps| - 1]);
    }
  }

  /** The app is registered, active and not revoked as an agent: it can log in. */
  predicate Live(b: Broker, appId: string) {
    appId in b.apps && b.apps[appId].active && AppSub(appId) !in b.rev.agents
  }

  /** An app comes to hold an admitted token wherever it can log in or still acts. */
  lemma ComesToAct(env: Env, b: Broker, appId: string) returns (steps: seq<Step>, end: Broker, i: nat)
    requires InOrder(env, b) && (Live(b, appId) || StillActs(env, b, appId))
    requires Unix(b.now) > 0 && env.svc.cfg.defaultTtl > 0
    ensures Leads(env, b, steps, end) && OfApp(end, i, appId) && Admitted(env, end, i)
  {
    if j: nat :| OfApp(b, j, appId) && Admitted(env, b, j) {
      steps, end, i := [], b, j;
    } else if k: nat :| k in b.calls && Supplies(b, b.calls[k], appId) && AppSub(appId) !in b.rev.agents {
      steps, end := SupplyGoes(env, b, k, appId);
      i := |b.issued|;
    } else {
      var call := UnusedCall(b);
      var mid := SetCall(b, call, LoggingIn(appId, b.apps[appId].tokenTtl));
      LeadsOne(env, b, BeginLogin(call, appId), mid);
      LoginKeepsHistory(env, b, call, appId);
      var rest;
      rest, end := SupplyGoes(env, mid, call, appId);
      LeadsOn(env, b, [BeginLogin(call, appId)], mid, rest, end);
      steps, i := [BeginLogin(call, appId)] + rest, |b.issued|;
    }
  }

  lemma LoginKeepsHistory(env: Env, b: Broker, call: nat, appId: string)
    requires HistoryOk(env, b) && NamesOk(b) && Next(env, b, BeginLogin(call, appId)).Some?
    ensures HistoryOk(env, Next(env, b, BeginLogin(call, appId)).value) && NamesOk(Next(env, b, BeginLogin(call, appId)).value)
  {
    NextKeepsHistory(env, b, BeginLogin(call, appId));
    LoginKeepsNames(env, b, BeginLogin(call, appId));
  }

  /**
   A registered app can begin another launch-token request, by some continuation that loses no revocation, exactly when
   it can log in, or is not revoked as an agent and holds an admitted token or has a login or renewal under way.
   */
  lemma RequestsAgainExactly(env: Env, b: Broker, appId: string)
    requires InOrder(env, b) && SpiffeLaw(env.p) && appId in b.apps
    requires Unix(b.now) > 0 && env.svc.cfg.defaultTtl > 0
    ensures (exists later :: RequestsAgain(env, b, later, appId)) <==> Live(b, appId) || StillActs(env, b, appId)
  {
    if Live(b, appId) || StillActs(env, b, appId) {
      var later := ActsAgain(env, b, appId);
      assert RequestsAgain(env, b, later, appId);
    } else {
      forall later | Run(env, b, later).Some? && LossFreeRun(env, b, later)
        ensures !RequestsAgain(env, b, later, appId)
      {
        RunStaysOver(env, b, later, appId);
        NoneRequests(env, Run(env, b, later).value, appId);
      }
    }
  }

  lemma NoneRequests(env: Env, b: Broker, appId: string)
    requires !StillActs(env, b, appId)
    ensures forall call: nat, i: nat, lreq :: !Requests(env, b, call, i, lreq, appId)
  {
    forall call: nat, i: nat, lreq ensures !Requests(env, b, call, i, lreq, appId) {
      if OfApp(b, i, appId) && Admitted(env, b, i) {
        AdmittedNotRevokedAsAgent(env, b, i, appId);
        assert StillActs(env, b, appId);
      }
    }
  }

  lemma AdmittedNotRevokedAsAgent(env: Env, b: Broker, i: nat, appId: string)
    requires OfApp(b, i, appId) && Admitted(env, b, i)
    ensures AppSub(appId) !in b.rev.agents
  {
  }

  lemma ActsAgain(env: Env, b: Broker, appId: string) returns (later: seq<Step>)
    requires InOrder(env, b) && SpiffeLaw(env.p) && (Live(b, appId) || StillActs(env, b, appId))
    requires Unix(b.now) > 0 && env.svc.cfg.defaultTtl > 0
    ensures RequestsAgain(env, b, later, appId)
  {
    var end, i;
    later, end, i := ComesToAct(env, b, appId);
    RunKeepsOrder(env, b, later);
    NoRestartLosesNothing(env, b, later);
    var call := UnusedCall(end);
    var lreq := LaunchReq("agent", [APP_LAUNCH], 0, None, 0);
    BeginsWhenAdmitted(env, end, call, i, lreq, appId);
    assert Requests(env, Run(env, b, later).value, call, i, lreq, appId);
  }

  /**
   Revoking the app's subject at agent level ends its tokens: none of them passes in any later state, so no request of
   the app begins. Requests that began before are not stopped.
   */
  lemma AgentRevocationEnds(env: Env, start: int, before: seq<Step>, appId: string, dbOk: bool, later: seq<Step>)
    requires Run(env, Start(start), before).Some? && (dbOk || NoRestart(later))
    requires Run(env, Next(env, Run(env, Start(start), before).value, Revoke("agent", AppSub(appId), dbOk)).value, later).Some?
    ensures var end := Run(env, Next(env, Run(env, Start(start), before).value,
                                     Revoke("agent", AppSub(appId), dbOk)).value, later).value;
            !StillActs(env, end, appId) && forall i: nat | OfApp(end, i, appId) :: !Admitted(env, end, i)
  {
    var e := Entry("agent", AppSub(appId));
    var b0 := Run(env, Start(start), before).value;
    var b1 := Next(env, b0, Revoke("agent", AppSub(appId), dbOk)).value;
    ReachableHistory(env, start, before);
    RunKeepsSaved(env, Start(start), before);
    RevokeTakesHold(env, b0, e, dbOk);
    RunKeepsListed(env, b1, later, e);
  }
}
