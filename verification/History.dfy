/**
 Where every issued token comes from. `Justified` says how a token was issued from
 what existed before it; it holds of every token in every reachable state.
 */
module History {
  import opened Wrappers
  import opened Clock
  import opened Claims
  import opened Crypto
  import opened Store
  import opened Revocation
  import opened Tokens
  import opened Delegation
  import opened Identity
  import opened Admin
  import opened Broker
  import Scope

  /** The launch token a registration read, and when: within its validity, and for scopes it allows. */
  predicate LaunchRead(b: Broker, token: string, scope: seq<string>, readAt: int) {
    && token in b.grants && Scope.Subset(scope, b.grants[token].rec.allowedScope)
    && b.grants[token].rec.createdAt <= readAt <= b.grants[token].rec.expiresAt && readAt <= b.now
  }

  /** The nonce it used after that, and when. */
  predicate LaunchUse(b: Broker, token: string, scope: seq<string>, nonce: string, readAt: int, usedAt: int) {
    && LaunchRead(b, token, scope, readAt) && readAt <= usedAt <= b.now
    && nonce in b.nonceBorn && b.nonceBorn[nonce] <= usedAt <= b.nonceBorn[nonce] + NONCE_TTL
  }

  /** The subject is a SPIFFE identifier made for the token's orchestrator and task. */
  ghost predicate SpiffeNamed(env: Env, c: TknClaims) {
    exists instance :: env.p.spiffeId(env.realm.trustDomain, c.orchId, c.taskId, instance) == Some(c.sub)
  }

  /** How the i-th token was issued. */
  ghost predicate Justified(env: Env, b: Broker, i: nat)
    requires i < |b.issued|
  {
    var c := b.issued[i].claims;
    var cfg := env.svc.cfg;
    match b.issued[i].origin
    case ByAdmin => c == IssuedClaims(cfg, AdminLoginReq(AudienceOf(env.realm.audience), env.adminTtl), c.iat, c.jti)
    case ByApp(appId, ttl) => c == IssuedClaims(cfg, AppLoginReq(AudienceOf(env.realm.audience), appId, ttl), c.iat, c.jti)
    case ByLaunch(token, nonce, readAt, usedAt) =>
      && LaunchUse(b, token, c.scope, nonce, readAt, usedAt) && b.grants[token].creator < i
      && Unix(usedAt) <= c.iat
      && SpiffeNamed(env, c)
      && c == IssuedClaims(cfg, RegistrationReq(env.realm, c.sub, c.orchId, c.taskId, c.scope, b.grants[token].rec.maxTtl),
                           c.iat, c.jti)
    case ByDelegation(parent, req, at) =>
      && parent < i
      && |b.issued[parent].claims.chain| < MAX_DELEG_DEPTH
      && Scope.Subset(req.scope, b.issued[parent].claims.scope)
      && c == IssuedClaims(cfg, DelegatedReq(env.p, env.svc.signingKey, b.issued[parent].claims, req, at), c.iat, c.jti)
    case ByRenewal(parent) =>
      && parent < i
      && c == IssuedClaims(cfg, RenewalReq(cfg, b.issued[parent].claims), c.iat, c.jti)
  }

  /** What a call in flight already knows. */
  predicate CallOk(b: Broker, c: Call) {
    match c
    case HoldsLaunch(req, rec, readAt) =>
      LaunchRead(b, req.launchToken, req.requestedScope, readAt) && b.grants[req.launchToken].rec == rec
    case HoldsNonce(req, rec, readAt, usedAt) =>
      && LaunchUse(b, req.launchToken, req.requestedScope, req.nonce, readAt, usedAt)
      && b.grants[req.launchToken].rec == rec
    case Cleared(req, rec, readAt, usedAt) =>
      && LaunchUse(b, req.launchToken, req.requestedScope, req.nonce, readAt, usedAt)
      && b.grants[req.launchToken].rec == rec
    case Renewing(parent) => parent < |b.issued|
    case Replacing(parent) => parent < |b.issued|
    case Delegating(parent, _) => parent < |b.issued|
    case Chained(parent, req, _) =>
      parent < |b.issued| && |b.issued[parent].claims.chain| < MAX_DELEG_DEPTH
      && Scope.Subset(req.scope, b.issued[parent].claims.scope)
    case Launching(parent, _) => parent < |b.issued|
    case WithinCeiling(parent, lreq, appId, ceiling) =>
      parent < |b.issued| && CeilingOk(b.issued[parent].claims.sub, lreq.allowedScope, appId, ceiling)
    case _ => true
  }

  /** An app's request lies within the ceiling read; other requests carry neither app nor ceiling. */
  predicate CeilingOk(sub: string, scope: seq<string>, appId: string, ceiling: Option<seq<string>>) {
    && appId == (if IsApp(sub) then sub[4..] else "")
    && (ceiling.Some? <==> IsApp(sub))
    && (ceiling.Some? ==> Scope.Subset(scope, ceiling.value))
  }

  /** Stored nonces and launch tokens are the created ones; only `consumed` marks are new. */
  predicate MemoryOk(b: Broker) {
    && (forall n | n in b.mem.nonces ::
          n in b.nonceBorn && b.nonceBorn[n] <= b.now && b.mem.nonces[n].expiresAt == b.nonceBorn[n] + NONCE_TTL)
    && (forall t | t in b.mem.launchTokens ::
          t in b.grants && b.grants[t].rec == b.mem.launchTokens[t].(consumedAt := None))
  }

  predicate GrantOk(b: Broker, g: Grant) {
    && AskedFor(g.rec, g.asked) && g.rec.createdAt <= b.now
    && g.rec.consumedAt == None && g.creator < |b.issued|
    && g.rec.createdBy == b.issued[g.creator].claims.sub
    && CeilingOk(g.rec.createdBy, g.rec.allowedScope, g.rec.appId, g.ceiling)
  }

  predicate GrantsOk(b: Broker) {
    forall t | t in b.grants :: GrantOk(b, b.grants[t])
  }

  ghost predicate DistinctJtis(b: Broker) {
    forall i, j | 0 <= i < j < |b.issued| :: b.issued[i].claims.jti != b.issued[j].claims.jti
  }

  ghost predicate HistoryOk(env: Env, b: Broker) {
    && (forall i | 0 <= i < |b.issued| :: Justified(env, b, i))
    && (forall k | k in b.calls :: CallOk(b, b.calls[k]))
    && MemoryOk(b)
    && GrantsOk(b)
    && DistinctJtis(b)
  }

  lemma JustifiedStable(env: Env, b: Broker, b': Broker)
    requires Extends(b, b') && forall i | 0 <= i < |b.issued| :: Justified(env, b, i)
    ensures forall i | 0 <= i < |b.issued| :: Justified(env, b', i)
  {
    forall i | 0 <= i < |b.issued| ensures Justified(env, b', i) {
      assert Justified(env, b, i);
      assert b'.issued[i] == b.issued[i];
      match b.issued[i].origin
      case ByDelegation(parent, _, _) => assert b'.issued[parent] == b.issued[parent];
      case ByRenewal(parent) => assert b'.issued[parent] == b.issued[parent];
      case _ =>
    }
  }

  lemma GrantsStable(b: Broker, b': Broker)
    requires Extends(b, b') && GrantsOk(b) && b'.grants == b.grants
    ensures GrantsOk(b')
  {
    forall t | t in b'.grants ensures GrantOk(b', b'.grants[t]) {
      assert GrantOk(b, b.grants[t]);
      assert b'.issued[b.grants[t].creator] == b.issued[b.grants[t].creator];
    }
  }

  lemma CallStable(b: Broker, b': Broker, c: Call)
    requires Extends(b, b') && CallOk(b, c)
    ensures CallOk(b', c)
  {
  }

  /** A step that issues nothing keeps the history when its memory, its grants and the call it moved are in order. */
  lemma QuietStep(env: Env, b: Broker, b': Broker)
    requires HistoryOk(env, b) && Extends(b, b') && b'.issued == b.issued
    requires MemoryOk(b') && GrantsOk(b')
    requires forall k | k in b'.calls :: (k in b.calls && b'.calls[k] == b.calls[k]) || CallOk(b', b'.calls[k])
    ensures HistoryOk(env, b')
  {
    JustifiedStable(env, b, b');
    forall k | k in b'.calls ensures CallOk(b', b'.calls[k]) {
      if k in b.calls && b'.calls[k] == b.calls[k] {
        CallStable(b, b', b.calls[k]);
      }
    }
  }

  lemma IssuingStep(env: Env, b: Broker, b': Broker, e: Issued)
    requires HistoryOk(env, b) && Extends(b, b') && b'.issued == b.issued + [e]
    requires b'.mem == b.mem && b'.grants == b.grants && b'.nonceBorn == b.nonceBorn && b'.now == b.now
    requires forall k | k in b'.calls :: (k in b.calls && b'.calls[k] == b.calls[k]) || CallOk(b', b'.calls[k])
    requires FreshJti(b, e.claims.jti) && Justified(env, b', |b.issued|)
    ensures HistoryOk(env, b')
  {
    JustifiedStable(env, b, b');
    GrantsStable(b, b');
    forall k | k in b'.calls ensures CallOk(b', b'.calls[k]) {
      if k in b.calls && b'.calls[k] == b.calls[k] {
        CallStable(b, b', b.calls[k]);
      }
    }
    FreshStaysDistinct(b, b', e);
  }

  lemma FreshStaysDistinct(b: Broker, b': Broker, e: Issued)
    requires DistinctJtis(b) && b'.issued == b.issued + [e] && FreshJti(b, e.claims.jti)
    ensures DistinctJtis(b')
  {
    forall i, j | 0 <= i < j < |b'.issued| ensures b'.issued[i].claims.jti != b'.issued[j].claims.jti {
      if j < |b.issued| {
        assert b.issued[i].claims.jti != b.issued[j].claims.jti;
      }
    }
  }

  /** A step that only moves one call and changes memory. */
  lemma CallMoves(env: Env, b: Broker, m: Memory, call: nat, c: Call)
    requires HistoryOk(env, b) && MemoryOk(b.(mem := m)) && CallOk(b, c)
    ensures HistoryOk(env, SetCall(b.(mem := m), call, c))
  {
    var b' := SetCall(b.(mem := m), call, c);
    GrantsStable(b, b');
    CallStable(b, b', c);
    QuietStep(env, b, b');
  }

  /** A step that moves one call and issues a token for it. */
  lemma CallIssues(env: Env, b: Broker, req: IssueReq, jti: string, origin: Origin, call: nat, c: Call)
    requires HistoryOk(env, b) && FreshJti(b, jti) && (c.Returned? || c.Enrolled?)
    requires Justified(env, Append(env, b, req, jti, origin), |b.issued|)
    ensures HistoryOk(env, SetCall(Append(env, b, req, jti, origin), call, c))
  {
    var b' := Append(env, b, req, jti, origin);
    IssuingStep(env, b, b', b'.issued[|b.issued|]);
    CallMoves(env, b', b'.mem, call, c);
  }

  // ---------- registration ----------

  lemma ReadLaunchKeeps(env: Env, b: Broker, call: nat)
    requires HistoryOk(env, b) && RegisterStep(env, b, ReadLaunch(call)).Some?
    ensures HistoryOk(env, RegisterStep(env, b, ReadLaunch(call)).value)
  {
    var req := b.calls[call].req;
    match CheckLaunch(b.mem, req, b.now)
    case Err(_) => CallMoves(env, b, b.mem, call, Returned);
    case Ok(rec) =>
      FoundIsGranted(b, req, rec);
      CallMoves(env, b, b.mem, call, HoldsLaunch(req, rec, b.now));
  }

  lemma FoundIsGranted(b: Broker, req: RegisterReq, rec: LaunchToken)
    requires MemoryOk(b) && GrantsOk(b) && CheckLaunch(b.mem, req, b.now) == Ok(rec)
    ensures CallOk(b, HoldsLaunch(req, rec, b.now))
  {
    assert GrantOk(b, b.grants[req.launchToken]);
  }

  /** Consuming a nonce leaves the memory in order, and when it succeeds the nonce is young enough. */
  lemma SpentNonceOk(env: Env, b: Broker, req: RegisterReq, rec: LaunchToken, readAt: int)
    requires MemoryOk(b) && CallOk(b, HoldsLaunch(req, rec, readAt))
    ensures var (m, err) := SpendNonce(env.p, b.mem, req, b.now);
            MemoryOk(b.(mem := m)) && (err.None? ==> CallOk(b, HoldsNonce(req, rec, readAt, b.now)))
  {
  }

  lemma TakeNonceKeeps(env: Env, b: Broker, call: nat)
    requires HistoryOk(env, b) && RegisterStep(env, b, TakeNonce(call)).Some?
    ensures HistoryOk(env, RegisterStep(env, b, TakeNonce(call)).value)
  {
    var c := b.calls[call];
    assert CallOk(b, c);
    SpentNonceOk(env, b, c.req, c.rec, c.readAt);
    var (m, err) := SpendNonce(env.p, b.mem, c.req, b.now);
    CallMoves(env, b, m, call, if err.Some? then Returned else HoldsNonce(c.req, c.rec, c.readAt, b.now));
  }

  lemma SpentLaunchOk(b: Broker, req: RegisterReq, rec: LaunchToken)
    requires MemoryOk(b)
    ensures MemoryOk(b.(mem := SpendLaunch(b.mem, req, rec, b.now).0))
  {
  }

  lemma TakeLaunchKeeps(env: Env, b: Broker, call: nat)
    requires HistoryOk(env, b) && RegisterStep(env, b, TakeLaunch(call)).Some?
    ensures HistoryOk(env, RegisterStep(env, b, TakeLaunch(call)).value)
  {
    var c := b.calls[call];
    assert CallOk(b, c);
    SpentLaunchOk(b, c.req, c.rec);
    var (m, err) := SpendLaunch(b.mem, c.req, c.rec, b.now);
    CallMoves(env, b, m, call, if err.Some? then Returned else Cleared(c.req, c.rec, c.readAt, c.usedAt));
  }

  lemma IssueAgentKeeps(env: Env, b: Broker, call: nat, instance: string, jti: string)
    requires HistoryOk(env, b) && RegisterStep(env, b, IssueAgent(call, instance, jti)).Some?
    ensures HistoryOk(env, RegisterStep(env, b, IssueAgent(call, instance, jti)).value)
  {
    var c := b.calls[call];
    assert CallOk(b, c);
    match env.p.spiffeId(env.realm.trustDomain, c.req.orchId, c.req.taskId, instance)
    case None => CallMoves(env, b, b.mem, call, Returned);
    case Some(agentId) =>
      var req := RegistrationReq(env.realm, agentId, c.req.orchId, c.req.taskId, c.req.requestedScope, c.rec.maxTtl);
      var origin := ByLaunch(c.req.launchToken, c.req.nonce, c.readAt, c.usedAt);
      RegistrationJustified(env, b, c, instance, agentId, jti);
      CallIssues(env, b, req, jti, origin, call, Enrolled(c.req, c.rec, agentId));
  }

  lemma RegistrationJustified(env: Env, b: Broker, c: Call, instance: string, agentId: string, jti: string)
    requires c.Cleared? && CallOk(b, c) && GrantsOk(b)
    requires env.p.spiffeId(env.realm.trustDomain, c.req.orchId, c.req.taskId, instance) == Some(agentId)
    ensures Justified(env, Append(env, b, RegistrationReq(env.realm, agentId, c.req.orchId, c.req.taskId,
                                                          c.req.requestedScope, c.rec.maxTtl),
                                  jti, ByLaunch(c.req.launchToken, c.req.nonce, c.readAt, c.usedAt)), |b.issued|)
  {
    assert GrantOk(b, b.grants[c.req.launchToken]);
  }

  lemma RegisterStepKeeps(env: Env, b: Broker, s: Step)
    requires HistoryOk(env, b)
    requires s.ReadLaunch? || s.TakeNonce? || s.TakeLaunch? || s.IssueAgent? || s.RecordAgent?
    requires RegisterStep(env, b, s).Some?
    ensures HistoryOk(env, RegisterStep(env, b, s).value)
  {
    match s
    case ReadLaunch(call) => ReadLaunchKeeps(env, b, call);
    case TakeNonce(call) => TakeNonceKeeps(env, b, call);
    case TakeLaunch(call) => TakeLaunchKeeps(env, b, call);
    case IssueAgent(call, instance, jti) => IssueAgentKeeps(env, b, call, instance, jti);
    case RecordAgent(call) =>
      var c := b.calls[call];
      CallMoves(env, b, AddAgent(b.mem, c.agentId, NewAgent(env.p, c.req, c.rec, b.now)), call, Returned);
  }

  // ---------- renewal and delegation ----------

  /** Revocations and apps have no part in the history. */
  lemma RevocationsApart(env: Env, b: Broker, rev: Revocations, saved: seq<Entry>, apps: map<string, AppRecord>)
    requires HistoryOk(env, b)
    ensures HistoryOk(env, b.(rev := rev, saved := saved, apps := apps))
  {
    var b' := b.(rev := rev, saved := saved, apps := apps);
    GrantsStable(b, b');
    QuietStep(env, b, b');
  }

  lemma RenewStepKeeps(env: Env, b: Broker, s: Step)
    requires HistoryOk(env, b)
    requires s.BeginRenew? || s.RevokeOld? || s.IssueRenewed?
    requires RenewStep(env, b, s).Some?
    ensures HistoryOk(env, RenewStep(env, b, s).value)
  {
    match s
    case BeginRenew(call, parent) => CallMoves(env, b, b.mem, call, Renewing(parent));
    case RevokeOld(call, dbOk) =>
      var parent := b.calls[call].parent;
      var r := RevokeIn(b, Entry("token", b.issued[parent].claims.jti), dbOk);
      RevocationsApart(env, b, r.rev, r.saved, b.apps);
      CallMoves(env, r, r.mem, call, Replacing(parent));
    case IssueRenewed(call, jti) =>
      var parent := b.calls[call].parent;
      CallIssues(env, b, RenewalReq(env.svc.cfg, b.issued[parent].claims), jti, ByRenewal(parent), call, Returned);
  }

  lemma IssueDelegatedKeeps(env: Env, b: Broker, call: nat, jti: string)
    requires HistoryOk(env, b) && DelegateStep(env, b, IssueDelegated(call, jti)).Some?
    ensures HistoryOk(env, DelegateStep(env, b, IssueDelegated(call, jti)).value)
  {
    var c := b.calls[call];
    assert CallOk(b, c);
    var req := DelegatedReq(env.p, env.svc.signingKey, b.issued[c.parent].claims, c.dreq, c.recordedAt);
    CallIssues(env, b, req, jti, ByDelegation(c.parent, c.dreq, c.recordedAt), call, Returned);
  }

  lemma DelegateStepKeeps(env: Env, b: Broker, s: Step)
    requires HistoryOk(env, b)
    requires s.BeginDelegate? || s.ExtendChain? || s.IssueDelegated?
    requires DelegateStep(env, b, s).Some?
    ensures HistoryOk(env, DelegateStep(env, b, s).value)
  {
    match s
    case BeginDelegate(call, parent, dreq) => CallMoves(env, b, b.mem, call, Delegating(parent, dreq));
    case ExtendChain(call) =>
      var c := b.calls[call];
      var refused := Refusal(b.mem.agents, b.issued[c.parent].claims, c.dreq).Some?;
      CallMoves(env, b, b.mem, call, if refused then Returned else Chained(c.parent, c.dreq, b.now));
    case IssueDelegated(call, jti) => IssueDelegatedKeeps(env, b, call, jti);
  }

  // ---------- launch tokens and logins ----------

  /** Reading the ceiling leaves a call that knows the request is within it. */
  lemma CeilingReadOk(b: Broker, parent: nat, lreq: LaunchReq)
    requires parent < |b.issued|
    ensures CallOk(b, CeilingRead(b, parent, lreq))
  {
  }

  /** A stored launch token is recorded under the ceiling its request was checked against. */
  lemma GrantMade(b: Broker, c: Call, token: string)
    requires MemoryOk(b) && GrantsOk(b) && c.WithinCeiling? && CallOk(b, c) && token !in b.grants
    requires LaunchFieldMissing(c.lreq).None?
    ensures var rec := LaunchRecord(c.lreq, b.issued[c.parent].claims.sub, c.appId, b.now);
            var b' := b.(mem := AddLaunchToken(b.mem, token, rec), grants := b.grants[token := Grant(rec, c.lreq, c.ceiling, c.parent)]);
            Extends(b, b') && MemoryOk(b') && GrantsOk(b')
  {
    var rec := LaunchRecord(c.lreq, b.issued[c.parent].claims.sub, c.appId, b.now);
    var b' := b.(mem := AddLaunchToken(b.mem, token, rec), grants := b.grants[token := Grant(rec, c.lreq, c.ceiling, c.parent)]);
    forall t | t in b'.grants ensures GrantOk(b', b'.grants[t]) {
      assert t != token ==> GrantOk(b, b.grants[t]);
    }
  }

  lemma StoreLaunchKeeps(env: Env, b: Broker, call: nat, token: string)
    requires HistoryOk(env, b) && LaunchStep(env, b, StoreLaunch(call, token)).Some?
    ensures HistoryOk(env, LaunchStep(env, b, StoreLaunch(call, token)).value)
  {
    var c := b.calls[call];
    assert CallOk(b, c);
    if LaunchFieldMissing(c.lreq).Some? {
      CallMoves(env, b, b.mem, call, Returned);
    } else {
      GrantMade(b, c, token);
      var rec := LaunchRecord(c.lreq, b.issued[c.parent].claims.sub, c.appId, b.now);
      var b' := b.(mem := AddLaunchToken(b.mem, token, rec), grants := b.grants[token := Grant(rec, c.lreq, c.ceiling, c.parent)]);
      QuietStep(env, b, b');
      CallMoves(env, b', b'.mem, call, Returned);
    }
  }

  lemma LaunchStepKeeps(env: Env, b: Broker, s: Step)
    requires HistoryOk(env, b)
    requires s.BeginLaunch? || s.ReadCeiling? || s.StoreLaunch?
    requires LaunchStep(env, b, s).Some?
    ensures HistoryOk(env, LaunchStep(env, b, s).value)
  {
    match s
    case BeginLaunch(call, parent, lreq) => CallMoves(env, b, b.mem, call, Launching(parent, lreq));
    case ReadCeiling(call) =>
      var c := b.calls[call];
      CeilingReadOk(b, c.parent, c.lreq);
      CallMoves(env, b, b.mem, call, CeilingRead(b, c.parent, c.lreq));
    case StoreLaunch(call, token) => StoreLaunchKeeps(env, b, call, token);
  }

  lemma LoginStepKeeps(env: Env, b: Broker, s: Step)
    requires HistoryOk(env, b)
    requires s.BeginLogin? || s.IssueLogin?
    requires LoginStep(env, b, s).Some?
    ensures HistoryOk(env, LoginStep(env, b, s).value)
  {
    match s
    case BeginLogin(call, appId) => CallMoves(env, b, b.mem, call, LoginStep(env, b, s).value.calls[call]);
    case IssueLogin(call, jti) =>
      var c := b.calls[call];
      CallIssues(env, b, AppLoginReq(AudienceOf(env.realm.audience), c.appId, c.ttl), jti, ByApp(c.appId, c.ttl),
                 call, Returned);
  }

  // ---------- every step ----------

  lemma AdminLoginKeeps(env: Env, b: Broker, jti: string)
    requires HistoryOk(env, b) && FreshJti(b, jti)
    ensures HistoryOk(env, Append(env, b, AdminLoginReq(AudienceOf(env.realm.audience), env.adminTtl), jti, ByAdmin))
  {
    var b' := Append(env, b, AdminLoginReq(AudienceOf(env.realm.audience), env.adminTtl), jti, ByAdmin);
    IssuingStep(env, b, b', b'.issued[|b.issued|]);
  }

  lemma TickKeeps(env: Env, b: Broker, elapsed: nat)
    requires HistoryOk(env, b)
    ensures HistoryOk(env, b.(now := b.now + elapsed))
  {
    GrantsStable(b, b.(now := b.now + elapsed));
    QuietStep(env, b, b.(now := b.now + elapsed));
  }

  lemma RestartKeeps(env: Env, b: Broker)
    requires HistoryOk(env, b)
    ensures HistoryOk(env, Restarted(b))
  {
    GrantsStable(b, Restarted(b));
    QuietStep(env, b, Restarted(b));
  }

  lemma CreateNonceKeeps(env: Env, b: Broker, nonce: string)
    requires HistoryOk(env, b) && nonce !in b.nonceBorn
    ensures HistoryOk(env, b.(mem := AddNonce(b.mem, nonce, b.now), nonceBorn := b.nonceBorn[nonce := b.now]))
  {
    var b' := b.(mem := AddNonce(b.mem, nonce, b.now), nonceBorn := b.nonceBorn[nonce := b.now]);
    GrantsStable(b, b');
    QuietStep(env, b, b');
  }

  lemma ChangeAppKeeps(env: Env, b: Broker, op: AppOp)
    requires HistoryOk(env, b)
    ensures HistoryOk(env, Next(env, b, ChangeApp(op)).value)
  {
    RevocationsApart(env, b, b.rev, b.saved, Next(env, b, ChangeApp(op)).value.apps);
  }

  lemma BeginRegisterKeeps(env: Env, b: Broker, call: nat, req: RegisterReq)
    requires HistoryOk(env, b)
    ensures HistoryOk(env, SetCall(b, call, Registering(req)))
  {
    CallMoves(env, b, b.mem, call, Registering(req));
  }

  lemma RevokeKeeps(env: Env, b: Broker, e: Entry, dbOk: bool)
    requires HistoryOk(env, b)
    ensures HistoryOk(env, RevokeIn(b, e, dbOk))
  {
    RevocationsApart(env, b, RevokeIn(b, e, dbOk).rev, RevokeIn(b, e, dbOk).saved, b.apps);
  }

  lemma OtherStepKeeps(env: Env, b: Broker, s: Step)
    requires HistoryOk(env, b) && Next(env, b, s).Some?
    requires s.Tick? || s.Restart? || s.CreateNonce? || s.ChangeApp? || s.BeginRegister? || s.Revoke?
    ensures HistoryOk(env, Next(env, b, s).value)
  {
    if s.Tick? {
      TickKeeps(env, b, s.elapsed);
    } else if s.Restart? {
      RestartKeeps(env, b);
    } else if s.CreateNonce? {
      CreateNonceKeeps(env, b, s.nonce);
    } else if s.ChangeApp? {
      ChangeAppKeeps(env, b, s.op);
    } else if s.BeginRegister? {
      BeginRegisterKeeps(env, b, s.call, s.req);
    } else {
      RevokeKeeps(env, b, Entry(s.level, s.target), s.dbOk);
    }
  }

  lemma NextKeepsHistory(env: Env, b: Broker, s: Step)
    requires HistoryOk(env, b) && Next(env, b, s).Some?
    ensures HistoryOk(env, Next(env, b, s).value)
  {
    if s.ReadLaunch? || s.TakeNonce? || s.TakeLaunch? || s.IssueAgent? || s.RecordAgent? {
      RegisterStepKeeps(env, b, s);
    } else if s.BeginRenew? || s.RevokeOld? || s.IssueRenewed? {
      RenewStepKeeps(env, b, s);
    } else if s.BeginDelegate? || s.ExtendChain? || s.IssueDelegated? {
      DelegateStepKeeps(env, b, s);
    } else if s.BeginLaunch? || s.ReadCeiling? || s.StoreLaunch? {
      LaunchStepKeeps(env, b, s);
    } else if s.BeginLogin? || s.IssueLogin? {
      LoginStepKeeps(env, b, s);
    } else if s.AdminLogin? {
      AdminLoginKeeps(env, b, s.jti);
    } else {
      OtherStepKeeps(env, b, s);
    }
  }

  lemma {:induction false} RunKeepsHistory(env: Env, b: Broker, steps: seq<Step>)
    requires HistoryOk(env, b) && Run(env, b, steps).Some?
    ensures HistoryOk(env, Run(env, b, steps).value)
  {
    if steps == [] {
    } else {
      RunKeepsHistory(env, b, steps[..|steps| - 1]);
      NextKeepsHistory(env, Run(env, b, steps[..|steps| - 1]).value, steps[|steps| - 1]);
    }
  }

  /** Every state a run reaches, at any interleaving, is in order. */
  lemma ReachableHistory(env: Env, start: int, steps: seq<Step>)
    requires Run(env, Start(start), steps).Some?
    ensures HistoryOk(env, Run(env, Start(start), steps).value)
  {
    RunKeepsHistory(env, Start(start), steps);
  }
}
