/**
 What follows for every token of every reachable state: its authority never exceeds
 its root's, its delegation chain is the true list of its delegators, and renewal
 keeps its lifetime.
 */
module Provenance {
  import opened Wrappers
  import opened Claims
  import opened Crypto
  import opened Store
  import opened Tokens
  import opened Delegation
  import opened Identity
  import opened Admin
  import opened Broker
  import opened History
  import Scope

  /** The token a delegation or renewal started from. */
  function Parent(b: Broker, i: nat): Option<nat>
    requires i < |b.issued|
  {
    match b.issued[i].origin
    case ByDelegation(parent, _, _) => Some(parent)
    case ByRenewal(parent) => Some(parent)
    case _ => None
  }

  /** Follow delegations and renewals back to the first token. */
  function Root(b: Broker, i: nat): (r: nat)
    requires i < |b.issued|
    ensures r <= i
  {
    match Parent(b, i)
    case Some(parent) => if parent < i then Root(b, parent) else i
    case None => i
  }

  /** What a root token was allowed by. */
  function Authority(b: Broker, r: nat): seq<string>
    requires r < |b.issued|
  {
    match b.issued[r].origin
    case ByAdmin => ADMIN_SCOPE
    case ByApp(_, _) => APP_SCOPE
    case ByLaunch(token, _, _, _) => if token in b.grants then b.grants[token].rec.allowedScope else []
    case _ => []
  }

  lemma AdminScopeReflexive()
    ensures Scope.Subset(ADMIN_SCOPE, ADMIN_SCOPE)
  {
    LaunchTokensPlain();
    Scope.TextWellFormed("admin", LAUNCH_TOKENS, "*");
    Scope.TextWellFormed("admin", "revoke", "*");
    Scope.TextWellFormed("admin", "audit", "*");
    Scope.ThreePassOn(ADMIN_SCOPE[0], ADMIN_SCOPE[1], ADMIN_SCOPE[2]);
  }

  lemma AppScopeReflexive()
    ensures Scope.Subset(APP_SCOPE, APP_SCOPE)
  {
    LaunchTokensPlain();
    Scope.TextWellFormed("app", LAUNCH_TOKENS, "*");
    Scope.TextWellFormed("app", "agents", "*");
    Scope.TextWellFormed("app", "audit", "read");
    Scope.ThreePassOn(APP_SCOPE[0], APP_SCOPE[1], APP_SCOPE[2]);
  }

  lemma LaunchTokensPlain()
    ensures ':' !in LAUNCH_TOKENS && LAUNCH_TOKENS != ""
  {
  }

  lemma {:induction false} ScopeWithinRoot(env: Env, b: Broker, i: nat)
    requires HistoryOk(env, b) && i < |b.issued|
    ensures Scope.Subset(b.issued[i].claims.scope, Authority(b, Root(b, i)))
  {
    assert Justified(env, b, i);
    match b.issued[i].origin
    case ByDelegation(parent, req, _) =>
      ScopeWithinRoot(env, b, parent);
      Scope.SubsetTransitive(req.scope, b.issued[parent].claims.scope, Authority(b, Root(b, i)));
    case ByRenewal(parent) => ScopeWithinRoot(env, b, parent);
    case ByLaunch(_, _, _, _) =>
    case ByAdmin =>
      AdminScopeReflexive();
    case ByApp(_, _) =>
      AppScopeReflexive();
  }

  /** No token of any run can do more than its root's authority; under an app, no more than the ceiling it was checked against. */
  lemma WholeRunAttenuation(env: Env, start: int, steps: seq<Step>, i: nat)
    requires Run(env, Start(start), steps).Some? && i < |Run(env, Start(start), steps).value.issued|
    ensures var b := Run(env, Start(start), steps).value;
            var root := b.issued[Root(b, i)].origin;
            && Scope.Meaning(b.issued[i].claims.scope) <= Scope.Meaning(Authority(b, Root(b, i)))
            && (root.ByAdmin? || root.ByApp? || root.ByLaunch?)
            && (root.ByLaunch? ==> root.token in b.grants)
            && (root.ByLaunch? && b.grants[root.token].rec.appId != "" ==>
                  && b.grants[root.token].ceiling.Some?
                  && Scope.Meaning(b.issued[i].claims.scope) <= Scope.Meaning(b.grants[root.token].ceiling.value))
  {
    ReachableHistory(env, start, steps);
    var b := Run(env, Start(start), steps).value;
    var scope, r := b.issued[i].claims.scope, Root(b, i);
    ScopeWithinRoot(env, b, i);
    Scope.SubsetIsInclusion(scope, Authority(b, r));
    RootIsFirst(env, b, i);
    assert Justified(env, b, r);
    var root := b.issued[r].origin;
    if root.ByLaunch? && b.grants[root.token].rec.appId != "" {
      var g := b.grants[root.token];
      assert GrantOk(b, g);
      Scope.SubsetTransitive(scope, g.rec.allowedScope, g.ceiling.value);
      Scope.SubsetIsInclusion(scope, g.ceiling.value);
    }
  }

  lemma {:induction false} RootIsFirst(env: Env, b: Broker, i: nat)
    requires HistoryOk(env, b) && i < |b.issued|
    ensures Parent(b, Root(b, i)) == None
  {
    assert Justified(env, b, i);
    if Parent(b, i).Some? {
      RootIsFirst(env, b, Parent(b, i).value);
    }
  }

  // ---------- delegation chains ----------

  /** The j-th token is the delegator of link k of a chain, for the same task, orchestrator and audience. */
  predicate DelegatorOf(b: Broker, c: TknClaims, k: nat, j: nat) {
    && k < |c.chain| && j < |b.issued|
    && var d := b.issued[j].claims;
    && d.sub == c.chain[k].agent && d.scope == c.chain[k].scope && d.chain == c.chain[..k]
    && d.taskId == c.taskId && d.orchId == c.orchId && d.aud == c.aud
  }

  /** Some token issued before the i-th is that delegator. */
  predicate HasDelegator(b: Broker, c: TknClaims, k: nat, i: nat) {
    exists j | 0 <= j < i :: DelegatorOf(b, c, k, j)
  }

  /** Each link holds no more than the one before it. */
  predicate Descending(chain: seq<DelegRecord>) {
    forall k: nat | k + 1 < |chain| :: Scope.Subset(chain[k + 1].scope, chain[k].scope)
  }

  /** Every link of the chain has its delegator among the tokens issued before. */
  predicate AllDelegatorsIssued(b: Broker, c: TknClaims, i: nat) {
    forall k: nat | k < |c.chain| :: HasDelegator(b, c, k, i)
  }

  /** Each link carries the broker's signature over its own content. */
  predicate AllSigned(env: Env, chain: seq<DelegRecord>) {
    forall k | 0 <= k < |chain| :: Signed(env.p, env.svc.signingKey, chain[k])
  }

  predicate AllVerify(env: Env, chain: seq<DelegRecord>) {
    forall k | 0 <= k < |chain| :: LinkVerifies(env.p, env.svc.pubKey, chain[k])
  }

  /** At most five links, descending to the token's own scope, hashed and each signed. */
  predicate ChainShape(env: Env, c: TknClaims) {
    && |c.chain| <= 5
    && Descending(c.chain)
    && (c.chain != [] ==> Scope.Subset(c.scope, c.chain[|c.chain| - 1].scope))
    && c.chainHash == (if c.chain == [] then "" else env.p.hex(env.p.sha256(env.p.chainJson(c.chain))))
    && AllSigned(env, c.chain)
  }

  predicate ChainTrue(env: Env, b: Broker, i: nat)
    requires i < |b.issued|
  {
    ChainShape(env, b.issued[i].claims) && AllDelegatorsIssued(b, b.issued[i].claims, i)
  }

  lemma {:induction false} ChainIsTrue(env: Env, b: Broker, i: nat)
    requires HistoryOk(env, b) && i < |b.issued|
    ensures ChainTrue(env, b, i)
    decreases i
  {
    assert Justified(env, b, i);
    match b.issued[i].origin
    case ByAdmin =>
    case ByApp(_, _) =>
    case ByLaunch(_, _, _, _) =>
    case ByRenewal(parent) =>
      ChainIsTrue(env, b, parent);
      var c, pc := b.issued[i].claims, b.issued[parent].claims;
      forall k: nat | k < |c.chain| ensures HasDelegator(b, c, k, i) {
        assert HasDelegator(b, pc, k, parent);
        var j :| 0 <= j < parent && DelegatorOf(b, pc, k, j);
        assert DelegatorOf(b, c, k, j);
      }
    case ByDelegation(parent, _, _) =>
      ChainIsTrue(env, b, parent);
      var added := DelegatedFacts(env, b, i);
      DelegationChainTrue(env, b, i, parent, added);
  }

  /** Claims made from a parent's by delegation. */
  predicate Delegated(env: Env, c: TknClaims, pc: TknClaims, added: DelegRecord) {
    && Signed(env.p, env.svc.signingKey, added) && added.agent == pc.sub && added.scope == pc.scope
    && |pc.chain| < MAX_DELEG_DEPTH && c.chain == pc.chain + [added] && c.chainHash == ChainHash(env.p, c.chain)
    && c.taskId == pc.taskId && c.orchId == pc.orchId && c.aud == pc.aud && Scope.Subset(c.scope, pc.scope)
  }

  lemma DelegatedFacts(env: Env, b: Broker, i: nat) returns (added: DelegRecord)
    requires i < |b.issued| && Justified(env, b, i) && b.issued[i].origin.ByDelegation?
    ensures Delegated(env, b.issued[i].claims, b.issued[b.issued[i].origin.parent].claims, added)
  {
    var o := b.issued[i].origin;
    var pc := b.issued[o.parent].claims;
    added := SignedRecord(env.p, env.svc.signingKey, pc.sub, pc.scope, o.recordedAt);
  }

  lemma DelegationChainTrue(env: Env, b: Broker, i: nat, parent: nat, added: DelegRecord)
    requires parent < i < |b.issued| && ChainTrue(env, b, parent)
    requires Delegated(env, b.issued[i].claims, b.issued[parent].claims, added)
    ensures ChainTrue(env, b, i)
  {
    var c, pc := b.issued[i].claims, b.issued[parent].claims;
    LongerChainDelegators(b, c, pc, parent, i, added);
    LongerChainShape(env, c, pc, added);
  }

  lemma LongerChainShape(env: Env, c: TknClaims, pc: TknClaims, added: DelegRecord)
    requires Delegated(env, c, pc, added) && ChainShape(env, pc)
    ensures ChainShape(env, c)
  {
    LongerChainDescends(pc.chain, pc.scope, added);
    LongerChainSigned(env, pc.chain, added);
    assert c.chain[|c.chain| - 1] == added;
  }

  lemma LongerChainSigned(env: Env, chain: seq<DelegRecord>, added: DelegRecord)
    requires AllSigned(env, chain) && Signed(env.p, env.svc.signingKey, added)
    ensures AllSigned(env, chain + [added])
  {
    var longer := chain + [added];
    forall k | 0 <= k < |longer| ensures Signed(env.p, env.svc.signingKey, longer[k]) {
      if k < |chain| {
        assert longer[k] == chain[k];
      }
    }
  }

  lemma LongerChainDescends(chain: seq<DelegRecord>, scope: seq<string>, added: DelegRecord)
    requires Descending(chain) && added.scope == scope
    requires chain != [] ==> Scope.Subset(scope, chain[|chain| - 1].scope)
    ensures Descending(chain + [added])
  {
    var longer := chain + [added];
    forall k: nat | k + 1 < |longer| ensures Scope.Subset(longer[k + 1].scope, longer[k].scope) {
      if k + 1 < |chain| {
        assert longer[k] == chain[k] && longer[k + 1] == chain[k + 1];
      } else {
        assert longer[k] == chain[|chain| - 1] && longer[k + 1] == added;
      }
    }
  }

  lemma LongerChainDelegators(b: Broker, c: TknClaims, pc: TknClaims, parent: nat, i: nat, added: DelegRecord)
    requires parent < i <= |b.issued| && pc == b.issued[parent].claims
    requires c.chain == pc.chain + [added] && added.agent == pc.sub && added.scope == pc.scope
    requires c.taskId == pc.taskId && c.orchId == pc.orchId && c.aud == pc.aud
    requires AllDelegatorsIssued(b, pc, parent)
    ensures AllDelegatorsIssued(b, c, i)
  {
    forall k: nat | k < |c.chain| ensures HasDelegator(b, c, k, i) {
      if k == |pc.chain| {
        assert c.chain[..k] == pc.chain;
        assert DelegatorOf(b, c, k, parent);
      } else {
        assert HasDelegator(b, pc, k, parent);
        var j :| 0 <= j < parent && DelegatorOf(b, pc, k, j);
        assert c.chain[..k] == pc.chain[..k];
        assert DelegatorOf(b, c, k, j);
      }
    }
  }

  /**
   In every reachable state a token's chain lists its real delegators, in order, each handing on no more than it had,
   and the signature of every link verifies under the broker's key.
   */
  lemma DelegationProvenance(env: Env, start: int, steps: seq<Step>, i: nat)
    requires Run(env, Start(start), steps).Some? && i < |Run(env, Start(start), steps).value.issued|
    ensures ChainTrue(env, Run(env, Start(start), steps).value, i)
    ensures SignatureLaw(env.p) && HexLaws(env.p) && env.svc.pubKey == env.p.publicKey(env.svc.signingKey) ==>
              AllVerify(env, Run(env, Start(start), steps).value.issued[i].claims.chain)
  {
    ReachableHistory(env, start, steps);
    ChainIsTrue(env, Run(env, Start(start), steps).value, i);
    SignedChainVerifies(env, Run(env, Start(start), steps).value.issued[i].claims.chain);
  }

  lemma SignedChainVerifies(env: Env, chain: seq<DelegRecord>)
    requires AllSigned(env, chain)
    ensures SignatureLaw(env.p) && HexLaws(env.p) && env.svc.pubKey == env.p.publicKey(env.svc.signingKey) ==>
              AllVerify(env, chain)
  {
    if SignatureLaw(env.p) && HexLaws(env.p) && env.svc.pubKey == env.p.publicKey(env.svc.signingKey) {
      forall k | 0 <= k < |chain| ensures LinkVerifies(env.p, env.svc.pubKey, chain[k]) {
        SignedVerifies(env.p, env.svc.signingKey, chain[k]);
      }
    }
  }

  /** Every token carries the configured audience, so the audience check of the middleware never refuses one. */
  lemma {:induction false} AudienceInherited(env: Env, b: Broker, i: nat)
    requires HistoryOk(env, b) && i < |b.issued|
    ensures b.issued[i].claims.aud == AudienceOf(env.realm.audience)
  {
    assert Justified(env, b, i);
    match b.issued[i].origin
    case ByDelegation(parent, _, _) => AudienceInherited(env, b, parent);
    case ByRenewal(parent) => AudienceInherited(env, b, parent);
    case _ =>
  }

  // ---------- lifetimes ----------

  function Lifetime(c: TknClaims): int {
    c.exp - c.iat
  }

  /** The request the i-th token was issued for. */
  function RequestOf(env: Env, b: Broker, i: nat): IssueReq
    requires i < |b.issued| && Justified(env, b, i)
  {
    var c := b.issued[i].claims;
    match b.issued[i].origin
    case ByAdmin => AdminLoginReq(AudienceOf(env.realm.audience), env.adminTtl)
    case ByApp(appId, ttl) => AppLoginReq(AudienceOf(env.realm.audience), appId, ttl)
    case ByLaunch(token, _, _, _) =>
      RegistrationReq(env.realm, c.sub, c.orchId, c.taskId, c.scope, b.grants[token].rec.maxTtl)
    case ByDelegation(parent, req, at) =>
      DelegatedReq(env.p, env.svc.signingKey, b.issued[parent].claims, req, at)
    case ByRenewal(parent) => RenewalReq(env.svc.cfg, b.issued[parent].claims)
  }

  /** Lifetimes respect the configured bounds, and any number of renewals leaves the lifetime as first issued. */
  lemma {:induction false} RenewalsKeepLifetime(env: Env, b: Broker, i: nat)
    requires HistoryOk(env, b) && i < |b.issued|
    ensures env.svc.cfg.maxTtl > 0 ==> Lifetime(b.issued[i].claims) <= env.svc.cfg.maxTtl
    ensures env.svc.cfg.defaultTtl > 0 ==> Lifetime(b.issued[i].claims) > 0
    ensures Lifetime(b.issued[i].claims) == Lifetime(b.issued[FirstOfLineage(b, i)].claims)
  {
    assert Justified(env, b, i);
    var c := b.issued[i].claims;
    LifetimeBounds(env.svc.cfg, RequestOf(env, b, i), c.iat, c.jti);
    if b.issued[i].origin.ByRenewal? {
      var parent := b.issued[i].origin.parent;
      assert Justified(env, b, parent);
      var pc := b.issued[parent].claims;
      RenewalKeepsLifetime(env.svc.cfg, RequestOf(env, b, parent), pc.iat, pc.jti, c.iat, c.jti);
      RenewalsKeepLifetime(env, b, parent);
    }
  }

  /** Follow renewals back to the token first issued. */
  function FirstOfLineage(b: Broker, i: nat): (r: nat)
    requires i < |b.issued|
    ensures r <= i
  {
    if b.issued[i].origin.ByRenewal? && b.issued[i].origin.parent < i then FirstOfLineage(b, b.issued[i].origin.parent)
    else i
  }

  lemma WholeRunLifetimes(env: Env, start: int, steps: seq<Step>, i: nat)
    requires Run(env, Start(start), steps).Some? && i < |Run(env, Start(start), steps).value.issued|
    ensures var b := Run(env, Start(start), steps).value;
            var life := Lifetime(b.issued[i].claims);
            && (env.svc.cfg.maxTtl > 0 ==> life <= env.svc.cfg.maxTtl)
            && (env.svc.cfg.defaultTtl > 0 ==> life > 0)
            && life == Lifetime(b.issued[FirstOfLineage(b, i)].claims)
  {
    ReachableHistory(env, start, steps);
    RenewalsKeepLifetime(env, Run(env, Start(start), steps).value, i);
  }
}
