/**
 What every token of every reachable state says, by where it came from: whom it names, what it may do, how long it lives
 and what was read before it was issued. The claims are set out against the requests, with their defaults.
 */
module Issuance {
  import opened Wrappers
  import opened Clock
  import opened Claims
  import opened Crypto
  import opened Store
  import opened Revocation
  import opened Tokens
  import opened Delegation
  import opened Identity
  import opened Admin
  import opened Broker
  import opened History
  import opened Registration
  import Scope
  import opened Provenance

  /** A token issued at a login: this subject and these scopes, and no task, orchestrator or chain. */
  predicate LoginClaims(env: Env, c: TknClaims, sub: string, scope: seq<string>, ttl: int) {
    && c.sub == sub && c.scope == scope && c.taskId == "" && c.orchId == "" && c.sid == "" && c.chain == []
    && c.chainHash == "" && LivesFor(env.svc.cfg, c, ttl)
  }

  /** A token issued at a registration with a launch token and a nonce read in time. */
  ghost predicate AgentClaims(env: Env, b: Broker, c: TknClaims, token: string, nonce: string, readAt: int, usedAt: int) {
    && token in b.grants && nonce in b.nonceBorn
    && var asked, rec := b.grants[token].asked, b.grants[token].rec;
    && SpiffeNamed(env, c) && c.sid == "" && c.chain == [] && c.chainHash == ""
    && Scope.AllWellFormed(c.scope) && Scope.Meaning(c.scope) <= Scope.Meaning(asked.allowedScope)
    && LivesFor(env.svc.cfg, c, if asked.maxTtl > 0 then asked.maxTtl else 300)
    && rec.createdAt <= readAt <= rec.createdAt + (if asked.ttl > 0 then asked.ttl else 30) * 1_000_000_000
    && b.nonceBorn[nonce] <= usedAt <= b.nonceBorn[nonce] + 30_000_000_000
    && readAt <= usedAt && Unix(usedAt) <= c.iat
  }

  /** A token issued by delegation: complete, short of five links before, within the delegator's scopes. */
  ghost predicate DelegateClaims(env: Env, pc: TknClaims, c: TknClaims, req: DelegReq, at: int) {
    && HandedOn(env.p, env.svc, env.svc.signingKey, pc, req, at, c) && |pc.chain| < 5
    && Scope.AllWellFormed(c.scope) && Scope.Meaning(c.scope) <= Scope.Meaning(pc.scope)
  }

  ghost predicate SaysByOrigin(env: Env, b: Broker, i: nat)
    requires i < |b.issued|
  {
    var c := b.issued[i].claims;
    match b.issued[i].origin
    case ByAdmin =>
      LoginClaims(env, c, "admin", ["admin:launch-tokens:*", "admin:revoke:*", "admin:audit:*"], env.adminTtl)
    case ByApp(appId, ttl) =>
      LoginClaims(env, c, "app:" + appId, ["app:launch-tokens:*", "app:agents:*", "app:audit:read"], ttl)
    case ByLaunch(token, nonce, readAt, usedAt) => AgentClaims(env, b, c, token, nonce, readAt, usedAt)
    case ByDelegation(parent, req, at) => parent < i && DelegateClaims(env, b.issued[parent].claims, c, req, at)
    case ByRenewal(parent) => parent < i && Renews(env.svc.cfg, b.issued[parent].claims, c, c.iat, c.jti)
  }

  /** The broker's issuer and audience, and in force from its issue on. */
  predicate FromBroker(env: Env, c: TknClaims) {
    c.iss == env.svc.cfg.issuer && c.nbf == c.iat && c.aud == (if env.realm.audience == "" then [] else [env.realm.audience])
  }

  lemma LoginScopes()
    ensures ADMIN_SCOPE == ["admin:launch-tokens:*", "admin:revoke:*", "admin:audit:*"]
    ensures APP_SCOPE == ["app:launch-tokens:*", "app:agents:*", "app:audit:read"]
  {
    assert Scope.ScopeText("admin", "launch-tokens", "*") == "admin:launch-tokens:*";
    assert Scope.ScopeText("admin", "revoke", "*") == "admin:revoke:*";
    assert Scope.ScopeText("admin", "audit", "*") == "admin:audit:*";
    assert Scope.ScopeText("app", "launch-tokens", "*") == "app:launch-tokens:*";
    assert Scope.ScopeText("app", "agents", "*") == "app:agents:*";
    assert Scope.ScopeText("app", "audit", "read") == "app:audit:read";
  }

  lemma LoginSays(env: Env, b: Broker, i: nat)
    requires i < |b.issued| && Justified(env, b, i) && (b.issued[i].origin.ByAdmin? || b.issued[i].origin.ByApp?)
    ensures SaysByOrigin(env, b, i)
  {
    LoginScopes();
  }

  lemma AgentSays(env: Env, b: Broker, i: nat, token: string, nonce: string, readAt: int, usedAt: int)
    requires i < |b.issued| && Justified(env, b, i) && GrantsOk(b)
    requires b.issued[i].origin == ByLaunch(token, nonce, readAt, usedAt)
    ensures AgentClaims(env, b, b.issued[i].claims, token, nonce, readAt, usedAt)
  {
    assert GrantOk(b, b.grants[token]);
    Scope.SubsetIsInclusion(b.issued[i].claims.scope, b.grants[token].rec.allowedScope);
  }

  lemma DelegateSays(env: Env, b: Broker, i: nat, parent: nat, req: DelegReq, at: int)
    requires i < |b.issued| && Justified(env, b, i) && b.issued[i].origin == ByDelegation(parent, req, at)
    ensures parent < i && DelegateClaims(env, b.issued[parent].claims, b.issued[i].claims, req, at)
  {
    var c, pc := b.issued[i].claims, b.issued[parent].claims;
    HandedOnBy(env.p, env.svc, env.svc.signingKey, pc, req, at, c.iat, c.jti);
    Scope.SubsetIsInclusion(req.scope, pc.scope);
  }

  lemma RenewalSays(env: Env, b: Broker, i: nat, parent: nat)
    requires i < |b.issued| && Justified(env, b, i) && b.issued[i].origin == ByRenewal(parent)
    ensures parent < i && Renews(env.svc.cfg, b.issued[parent].claims, b.issued[i].claims, b.issued[i].claims.iat,
                                 b.issued[i].claims.jti)
  {
    RenewedClaims(env.svc.cfg, b.issued[parent].claims, b.issued[i].claims.iat, b.issued[i].claims.jti);
  }

  lemma FromThisBroker(env: Env, b: Broker, i: nat)
    requires i < |b.issued| && Justified(env, b, i)
    ensures b.issued[i].claims.iss == env.svc.cfg.issuer && b.issued[i].claims.nbf == b.issued[i].claims.iat
  {
  }

  /** In every reachable state every token says what was asked for it. */
  lemma IssuedAsAsked(env: Env, start: int, steps: seq<Step>, i: nat)
    requires Run(env, Start(start), steps).Some? && i < |Run(env, Start(start), steps).value.issued|
    ensures FromBroker(env, Run(env, Start(start), steps).value.issued[i].claims)
    ensures SaysByOrigin(env, Run(env, Start(start), steps).value, i)
  {
    var b := Run(env, Start(start), steps).value;
    ReachableHistory(env, start, steps);
    AudienceInherited(env, b, i);
    FromThisBroker(env, b, i);
    assert Justified(env, b, i);
    match b.issued[i].origin
    case ByLaunch(token, nonce, readAt, usedAt) => AgentSays(env, b, i, token, nonce, readAt, usedAt);
    case ByDelegation(parent, req, at) => DelegateSays(env, b, i, parent, req, at);
    case ByRenewal(parent) => RenewalSays(env, b, i, parent);
    case _ => LoginSays(env, b, i);
  }

  // ---------- lifetimes ----------

  /** The lifetime asked for the first token of the lineage. */
  function FirstAsked(env: Env, b: Broker, i: nat): int
    requires i < |b.issued|
  {
    match b.issued[FirstOfLineage(b, i)].origin
    case ByAdmin => env.adminTtl
    case ByApp(_, ttl) => ttl
    case ByLaunch(token, _, _, _) =>
      if token in b.grants && b.grants[token].asked.maxTtl > 0 then b.grants[token].asked.maxTtl else 300
    case ByDelegation(_, req, _) => if req.ttl > 0 then req.ttl else 60
    case ByRenewal(_) => 0
  }

  lemma {:induction false} FirstIsNoRenewal(env: Env, b: Broker, i: nat)
    requires HistoryOk(env, b) && i < |b.issued|
    ensures !b.issued[FirstOfLineage(b, i)].origin.ByRenewal?
  {
    assert Justified(env, b, i);
    if b.issued[i].origin.ByRenewal? {
      FirstIsNoRenewal(env, b, b.issued[i].origin.parent);
    }
  }

  /** However often it has been renewed, a token lives as long as its lineage's first was asked to, within the maximum. */
  lemma LivesAsFirstAsked(env: Env, start: int, steps: seq<Step>, i: nat)
    requires Run(env, Start(start), steps).Some? && i < |Run(env, Start(start), steps).value.issued|
    ensures var b := Run(env, Start(start), steps).value;
            LivesFor(env.svc.cfg, b.issued[i].claims, FirstAsked(env, b, i))
  {
    var b := Run(env, Start(start), steps).value;
    ReachableHistory(env, start, steps);
    WholeRunLifetimes(env, start, steps, i);
    FirstIsNoRenewal(env, b, i);
    IssuedAsAsked(env, start, steps, FirstOfLineage(b, i));
  }

  // ---------- launch tokens as asked for ----------

  /** Unless its request said it was not for single use, a launch token yields at most one agent token. */
  lemma OneAgentUnlessAsked(env: Env, start: int, steps: seq<Step>, i: nat, j: nat, token: string)
    requires Run(env, Start(start), steps).Some?
    requires var b := Run(env, Start(start), steps).value;
             && i < |b.issued| && j < |b.issued| && b.issued[i].origin.ByLaunch? && b.issued[j].origin.ByLaunch?
             && b.issued[i].origin.token == token == b.issued[j].origin.token
             && token in b.grants && b.grants[token].asked.singleUse != Some(false)
    ensures i == j
  {
    var b := Run(env, Start(start), steps).value;
    ReachableHistory(env, start, steps);
    assert GrantOk(b, b.grants[token]);
    SingleUseIssuesOnce(env, start, steps, i, j);
  }

  /** A launch-token request begins exactly under an admitted token that holds one of the two launch-token scopes itself. */
  lemma LaunchBeginsExactly(env: Env, b: Broker, call: nat, i: nat, lreq: LaunchReq)
    ensures Next(env, b, BeginLaunch(call, i, lreq)).Some? <==>
              && call !in b.calls && Admitted(env, b, i)
              && ("admin:launch-tokens:*" in b.issued[i].claims.scope || "app:launch-tokens:*" in b.issued[i].claims.scope)
  {
    if Admitted(env, b, i) {
      MayLaunchExactly(b.issued[i].claims);
    }
  }

  lemma MayLaunchExactly(c: TknClaims)
    ensures MayLaunch(c) <==> "admin:launch-tokens:*" in c.scope || "app:launch-tokens:*" in c.scope
  {
    LaunchTokensPlain();
    LoginScopes();
    Scope.WildcardWithinExactly("admin", LAUNCH_TOKENS, c.scope);
    Scope.WildcardWithinExactly("app", LAUNCH_TOKENS, c.scope);
    assert ADMIN_SCOPE[0] == ADMIN_LAUNCH && APP_SCOPE[0] == APP_LAUNCH;
  }

  // ---------- one token a call ----------

  /** The call that the step issues a token for. */
  function IssuesFor(s: Step): Option<nat> {
    match s
    case IssueLogin(call, _) => Some(call)
    case IssueAgent(call, _, _) => Some(call)
    case IssueRenewed(call, _) => Some(call)
    case IssueDelegated(call, _) => Some(call)
    case _ => None
  }

  /** The call has issued its token or ended without one. */
  predicate Done(b: Broker, call: nat) {
    call in b.calls && (b.calls[call].Returned? || b.calls[call].Enrolled?)
  }

  lemma IssuesWhenDone(env: Env, b: Broker, s: Step)
    requires IssuesFor(s).Some? && Next(env, b, s).Some?
    ensures !Done(b, IssuesFor(s).value) && Done(Next(env, b, s).value, IssuesFor(s).value)
  {
  }

  lemma RegisterLeavesDone(env: Env, b: Broker, s: Step, call: nat)
    requires Done(b, call)
    requires s.ReadLaunch? || s.TakeNonce? || s.TakeLaunch? || s.IssueAgent? || s.RecordAgent?
    requires RegisterStep(env, b, s).Some?
    ensures Done(RegisterStep(env, b, s).value, call)
  {
  }

  lemma DelegateLeavesDone(env: Env, b: Broker, s: Step, call: nat)
    requires Done(b, call)
    requires s.BeginDelegate? || s.ExtendChain? || s.IssueDelegated?
    requires DelegateStep(env, b, s).Some?
    ensures Done(DelegateStep(env, b, s).value, call)
  {
  }

  lemma RenewLeavesDone(env: Env, b: Broker, s: Step, call: nat)
    requires Done(b, call)
    requires s.BeginRenew? || s.RevokeOld? || s.IssueRenewed?
    requires RenewStep(env, b, s).Some?
    ensures Done(RenewStep(env, b, s).value, call)
  {
  }

  lemma NextLeavesDone(env: Env, b: Broker, s: Step, call: nat)
    requires Done(b, call) && !s.Restart? && Next(env, b, s).Some?
    ensures Done(Next(env, b, s).value, call)
  {
    if s.ReadLaunch? || s.TakeNonce? || s.TakeLaunch? || s.IssueAgent? || s.RecordAgent? {
      RegisterLeavesDone(env, b, s, call);
    } else if s.BeginDelegate? || s.ExtendChain? || s.IssueDelegated? {
      DelegateLeavesDone(env, b, s, call);
    } else if s.BeginRenew? || s.RevokeOld? || s.IssueRenewed? {
      RenewLeavesDone(env, b, s, call);
    }
  }

  lemma {:induction false} DoneAfterIssue(env: Env, b: Broker, steps: seq<Step>, i: nat, call: nat)
    requires Run(env, b, steps).Some? && i < |steps| && IssuesFor(steps[i]) == Some(call)
    requires forall j | i < j < |steps| :: !steps[j].Restart?
    ensures Done(Run(env, b, steps).value, call)
  {
    var n := |steps| - 1;
    var mid := Run(env, b, steps[..n]).value;
    if i == n {
      IssuesWhenDone(env, mid, steps[n]);
    } else {
      DoneAfterIssue(env, b, steps[..n], i, call);
      NextLeavesDone(env, mid, steps[n], call);
    }
  }

  /** At every interleaving, no call issues twice: of two issuances under one call number a restart lies between. */
  lemma OneTokenPerCall(env: Env, b: Broker, steps: seq<Step>, i: nat, j: nat, call: nat)
    requires Run(env, b, steps).Some? && i < j < |steps|
    requires IssuesFor(steps[i]) == IssuesFor(steps[j]) == Some(call)
    ensures exists k | i < k < j :: steps[k].Restart?
  {
    RunParts(env, b, steps, j);
    if forall k | i < k < j :: !steps[k].Restart? {
      DoneAfterIssue(env, b, steps[..j], i, call);
      RunParts(env, b, steps, j + 1);
      assert steps[..j + 1][..j] == steps[..j];
      IssuesWhenDone(env, Run(env, b, steps[..j]).value, steps[j]);
    }
  }

  /** Every first part of a run is one. */
  lemma {:induction false} RunParts(env: Env, b: Broker, steps: seq<Step>, n: nat)
    requires n <= |steps| && Run(env, b, steps).Some?
    ensures Run(env, b, steps[..n]).Some?
    decreases |steps|
  {
    if n == |steps| {
      assert steps[..n] == steps;
    } else {
      RunParts(env, b, steps[..|steps| - 1], n);
      assert steps[..|steps| - 1][..n] == steps[..n];
    }
  }

  /** A restart loses nonces, launch tokens and agents: whatever was created before is unknown until created anew. */
  lemma RestartForgets(env: Env, b: Broker, req: RegisterReq, dreq: DelegReq, claims: TknClaims)
    ensures var b' := Next(env, b, Restart).value;
            && Next(env, b, Restart).Some? && b'.calls == map[] && b'.issued == b.issued && b'.apps == b.apps
            && CheckLaunch(b'.mem, req, b'.now).Err? && SpendNonce(env.p, b'.mem, req, b'.now).1.Some?
            && Refusal(b'.mem.agents, claims, dreq).Some?
  {
  }
}
