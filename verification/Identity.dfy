/**
 Agent registration (internal/identity/id_svc.go): a program over the store whose
 steps can interleave with other calls. The functions below are its steps; the
 method runs them one after the other.
 */
module Identity {
  import opened Wrappers
  import opened Clock
  import opened Claims
  import opened Crypto
  import opened Store
  import opened Revocation
  import Scope
  import opened Tokens

  const PUBLIC_KEY_SIZE: nat := 32
  const DEFAULT_REGISTRATION_TTL: int := 300

  datatype RegisterReq = RegisterReq(
    launchToken: string, nonce: string, publicKey: string, signature: string, orchId: string, taskId: string,
    requestedScope: seq<string>)

  datatype RegisterError =
    | ErrMissingField | ErrLaunchToken(cause: StoreError) | ErrScopeViolation | ErrNonce(cause: StoreError)
    | ErrInvalidPublicKey | ErrInvalidSignature | ErrConsume(cause: StoreError) | ErrSpiffe

  datatype RegisterResp = RegisterResp(agentId: string, issued: IssueResp)

  /** Names configured at start-up. */
  datatype Realm = Realm(trustDomain: string, audience: string)

  function AudienceOf(audience: string): seq<string> {
    if audience == "" then [] else [audience]
  }

  predicate FieldMissing(req: RegisterReq) {
    || req.launchToken == "" || req.nonce == "" || req.publicKey == "" || req.signature == ""
    || req.orchId == "" || req.taskId == "" || req.requestedScope == []
  }

  /** Read the launch token and compare scopes; nothing is consumed yet. */
  function CheckLaunch(m: Memory, req: RegisterReq, now: int): Result<LaunchToken, RegisterError> {
    if FieldMissing(req) then Err(ErrMissingField)
    else
      match FindLaunchToken(m, req.launchToken, now)
      case Err(e) => Err(ErrLaunchToken(e))
      case Ok(rec) => if Scope.Subset(req.requestedScope, rec.allowedScope) then Ok(rec) else Err(ErrScopeViolation)
  }

  /** The text whose signature proves possession: the nonce's bytes, or the nonce as it stands if it is not hex. */
  function SignedNonceText(p: Primitives, nonce: string): string {
    match p.decodeHex(nonce)
    case Some(bytes) => bytes
    case None => nonce
  }

  /** The key and the signed nonce. */
  function ProofError(p: Primitives, req: RegisterReq): Option<RegisterError> {
    match p.decodeStd(req.publicKey)
    case None => Some(ErrInvalidPublicKey)
    case Some(key) =>
      if |key| != PUBLIC_KEY_SIZE then Some(ErrInvalidPublicKey)
      else
        match p.decodeStd(req.signature)
        case None => Some(ErrInvalidSignature)
        case Some(sig) =>
          if p.verify(key, SignedNonceText(p, req.nonce), sig) then None else Some(ErrInvalidSignature)
  }

  /** Consume the nonce, then check the proof of possession. */
  function SpendNonce(p: Primitives, m: Memory, req: RegisterReq, now: int): (Memory, Option<RegisterError>) {
    match UseNonce(m, req.nonce, now)
    case (m', Some(e)) => (m', Some(ErrNonce(e)))
    case (m', None) => (m', ProofError(p, req))
  }

  /** Consume a single-use launch token. */
  function SpendLaunch(m: Memory, req: RegisterReq, rec: LaunchToken, now: int): (Memory, Option<RegisterError>) {
    if !rec.singleUse then (m, None)
    else
      match UseLaunchToken(m, req.launchToken, now)
      case (m', Some(e)) => (m', Some(ErrConsume(e)))
      case (m', None) => (m', None)
  }

  function RegistrationTtl(maxTtl: int): int {
    if maxTtl <= 0 then DEFAULT_REGISTRATION_TTL else maxTtl
  }

  /** The request a registration issues. */
  function RegistrationReq(realm: Realm, agentId: string, orchId: string, taskId: string, scope: seq<string>, maxTtl: int)
    : IssueReq
  {
    IssueReq(agentId, AudienceOf(realm.audience), scope, taskId, orchId, "", RegistrationTtl(maxTtl), [], "")
  }

  function NewAgent(p: Primitives, req: RegisterReq, rec: LaunchToken, now: int): AgentRecord {
    var key := match p.decodeStd(req.publicKey) case Some(k) => k case None => "";
    AgentRecord(key, req.orchId, req.taskId, req.requestedScope, now, now, rec.appId)
  }

  /** The clock readings of one call, in program order, and its random values. */
  datatype Inputs = Inputs(readAt: int, nonceAt: int, launchAt: int, issuedAt: int, savedAt: int,
                           instance: string, jti: string)

  function Registered(p: Primitives, svc: Service, realm: Realm, m: Memory, req: RegisterReq, x: Inputs)
    : (Memory, Result<RegisterResp, RegisterError>)
  {
    match CheckLaunch(m, req, x.readAt)
    case Err(e) => (m, Err(e))
    case Ok(rec) =>
      match SpendNonce(p, m, req, x.nonceAt)
      case (m1, Some(e)) => (m1, Err(e))
      case (m1, None) =>
        match SpendLaunch(m1, req, rec, x.launchAt)
        case (m2, Some(e)) => (m2, Err(e))
        case (m2, None) =>
          match p.spiffeId(realm.trustDomain, req.orchId, req.taskId, x.instance)
          case None => (m2, Err(ErrSpiffe))
          case Some(agentId) =>
            var issueReq := RegistrationReq(realm, agentId, req.orchId, req.taskId, req.requestedScope, rec.maxTtl);
            (AddAgent(m2, agentId, NewAgent(p, req, rec, x.savedAt)),
             Ok(RegisterResp(agentId, Issue(p, svc, issueReq, Unix(x.issuedAt), x.jti))))
  }

  // ---------- what a registration takes and gives ----------

  /** The signature is one over the nonce's bytes, or over the nonce itself if it is no hex, by the 32-byte key presented. */
  predicate Possesses(p: Primitives, req: RegisterReq) {
    && p.decodeStd(req.publicKey).Some? && |p.decodeStd(req.publicKey).value| == 32 && p.decodeStd(req.signature).Some?
    && p.verify(p.decodeStd(req.publicKey).value,
                if p.decodeHex(req.nonce).Some? then p.decodeHex(req.nonce).value else req.nonce,
                p.decodeStd(req.signature).value)
  }

  /** Every field is there; the launch token was unexpired and unconsumed when read and permits the scopes. */
  ghost predicate LaunchAllows(m: Memory, req: RegisterReq, readAt: int) {
    && req.launchToken != "" && req.nonce != "" && req.publicKey != "" && req.signature != ""
    && req.orchId != "" && req.taskId != "" && req.requestedScope != []
    && req.launchToken in m.launchTokens
    && var rec := m.launchTokens[req.launchToken];
    && readAt <= rec.expiresAt && rec.consumedAt.None?
    && Scope.AllWellFormed(req.requestedScope) && Scope.Meaning(req.requestedScope) <= Scope.Meaning(rec.allowedScope)
  }

  predicate NonceGood(m: Memory, nonce: string, at: int) {
    nonce in m.nonces && !m.nonces[nonce].consumed && at <= m.nonces[nonce].expiresAt
  }

  ghost predicate MayRegister(p: Primitives, realm: Realm, m: Memory, req: RegisterReq, x: Inputs) {
    && LaunchAllows(m, req, x.readAt) && NonceGood(m, req.nonce, x.nonceAt) && Possesses(p, req)
    && p.spiffeId(realm.trustDomain, req.orchId, req.taskId, x.instance).Some?
  }

  /** The claims of a registered agent. */
  predicate ClaimsOfAgent(cfg: Config, realm: Realm, req: RegisterReq, agentId: string, maxTtl: int, c: TknClaims) {
    && c.iss == cfg.issuer && c.sub == agentId && c.aud == (if realm.audience == "" then [] else [realm.audience])
    && c.scope == req.requestedScope && c.taskId == req.taskId && c.orchId == req.orchId && c.sid == ""
    && c.chain == [] && c.chainHash == "" && c.iat == c.nbf && LivesFor(cfg, c, if maxTtl > 0 then maxTtl else 300)
  }

  /** The store after a registration: nonce and single-use launch token consumed, the agent stored with the proved key. */
  ghost predicate EnrolledIn(p: Primitives, m: Memory, m': Memory, req: RegisterReq, x: Inputs, agentId: string)
    requires req.launchToken in m.launchTokens && req.nonce in m.nonces && p.decodeStd(req.publicKey).Some?
  {
    var rec := m.launchTokens[req.launchToken];
    && m'.nonces == m.nonces[req.nonce := NonceRecord(m.nonces[req.nonce].expiresAt, true)]
    && m'.launchTokens == (if rec.singleUse then m.launchTokens[req.launchToken := rec.(consumedAt := Some(x.launchAt))]
                           else m.launchTokens)
    && m'.agents == m.agents[agentId := AgentRecord(p.decodeStd(req.publicKey).value, req.orchId, req.taskId,
                                                    req.requestedScope, x.savedAt, x.savedAt, rec.appId)]
    && m'.jtis == m.jtis
  }

  lemma LaunchAllowsExactly(m: Memory, req: RegisterReq, now: int)
    ensures CheckLaunch(m, req, now).Ok? <==> LaunchAllows(m, req, now)
    ensures CheckLaunch(m, req, now).Ok? ==> CheckLaunch(m, req, now).value == m.launchTokens[req.launchToken]
  {
    if req.launchToken in m.launchTokens {
      Scope.SubsetIsInclusion(req.requestedScope, m.launchTokens[req.launchToken].allowedScope);
    }
  }

  lemma NonceSpentExactly(p: Primitives, m: Memory, req: RegisterReq, now: int)
    ensures var (m', err) := SpendNonce(p, m, req, now);
            && (err.None? <==> NonceGood(m, req.nonce, now) && Possesses(p, req))
            && m'.launchTokens == m.launchTokens && m'.agents == m.agents && m'.jtis == m.jtis
            && (NonceGood(m, req.nonce, now) ==>
                  m'.nonces == m.nonces[req.nonce := NonceRecord(m.nonces[req.nonce].expiresAt, true)])
  {
  }

  /**
   Register succeeds exactly when every field is there, the launch token is known, unexpired and unconsumed and permits
   the scopes, the nonce is known, unused and in time, and the key signed it; and a name can be made.
   */
  lemma RegisterSucceedsExactly(p: Primitives, svc: Service, realm: Realm, m: Memory, req: RegisterReq, x: Inputs)
    ensures Registered(p, svc, realm, m, req, x).1.Ok? <==> MayRegister(p, realm, m, req, x)
  {
    LaunchAllowsExactly(m, req, x.readAt);
    NonceSpentExactly(p, m, req, x.nonceAt);
  }

  /** Then the token and the store are those of the agent named; a refusal stores no agent. */
  lemma RegisterGives(p: Primitives, svc: Service, realm: Realm, m: Memory, req: RegisterReq, x: Inputs)
    ensures var (m', r) := Registered(p, svc, realm, m, req, x);
            && (r.Ok? ==>
                  && MayRegister(p, realm, m, req, x)
                  && Some(r.value.agentId) == p.spiffeId(realm.trustDomain, req.orchId, req.taskId, x.instance)
                  && EnrolledIn(p, m, m', req, x, r.value.agentId)
                  && var issued := r.value.issued;
                  && ClaimsOfAgent(svc.cfg, realm, req, r.value.agentId, m.launchTokens[req.launchToken].maxTtl, issued.claims)
                  && issued.claims.iat == Unix(x.issuedAt) && issued.claims.jti == x.jti
                  && issued.accessToken == Sign(p, svc, issued.claims)
                  && issued.expiresIn == issued.claims.exp - issued.claims.iat)
            && (r.Err? ==> m'.agents == m.agents && m'.jtis == m.jtis)
            && (r.Err? && r.error != ErrSpiffe ==> m'.launchTokens == m.launchTokens)
  {
    RegisterSucceedsExactly(p, svc, realm, m, req, x);
    LaunchAllowsExactly(m, req, x.readAt);
    NonceSpentExactly(p, m, req, x.nonceAt);
  }

  predicate KeyReads(p: Primitives, req: RegisterReq) {
    p.decodeStd(req.publicKey).Some? && |p.decodeStd(req.publicKey).value| == 32
  }

  /** Which refusal it is: the launch token's before the scope's, the nonce's before the key's and the signature's. */
  lemma RegisterRefuses(p: Primitives, svc: Service, realm: Realm, m: Memory, req: RegisterReq, x: Inputs)
    ensures var (m', r) := Registered(p, svc, realm, m, req, x);
            var known := req.launchToken in m.launchTokens && x.readAt <= m.launchTokens[req.launchToken].expiresAt
                         && m.launchTokens[req.launchToken].consumedAt.None?;
            var allowed, good := LaunchAllows(m, req, x.readAt), NonceGood(m, req.nonce, x.nonceAt);
            && (!allowed ==> r.Err? && m' == m)
            && (r.Err? && r.error.ErrLaunchToken? ==> !known)
            && (r == Err(ErrScopeViolation) ==> known && !allowed)
            && (allowed && !good ==> r.Err? && r.error.ErrNonce?)
            && (allowed && good && !KeyReads(p, req) ==> r == Err(ErrInvalidPublicKey))
            && (allowed && good && KeyReads(p, req) && !Possesses(p, req) ==> r == Err(ErrInvalidSignature))
            && (allowed && good && Possesses(p, req) ==>
                  (p.spiffeId(realm.trustDomain, req.orchId, req.taskId, x.instance).None? <==> r == Err(ErrSpiffe)))
  {
    LaunchAllowsExactly(m, req, x.readAt);
    NonceSpentExactly(p, m, req, x.nonceAt);
  }

  class IdSvc {
    const p: Primitives
    const svc: Service
    const realm: Realm
    const store: SqlStore

    constructor (p: Primitives, svc: Service, realm: Realm, store: SqlStore)
      ensures this.p == p && this.svc == svc && this.realm == realm && this.store == store
    {
      this.p := p;
      this.svc := svc;
      this.realm := realm;
      this.store := store;
    }

    method Register(req: RegisterReq, x: Inputs) returns (r: Result<RegisterResp, RegisterError>)
      modifies store
      ensures (store.State(), r) == Registered(p, svc, realm, old(store.State()), req, x)
      ensures r.Ok? <==> MayRegister(p, realm, old(store.State()), req, x)
      ensures r.Ok? ==> EnrolledIn(p, old(store.State()), store.State(), req, x, r.value.agentId)
    {
      RegisterGives(p, svc, realm, store.State(), req, x);
      RegisterSucceedsExactly(p, svc, realm, store.State(), req, x);
      if FieldMissing(req) {
        return Err(ErrMissingField);
      }
      var found := store.GetLaunchToken(req.launchToken, x.readAt);
      if found.Err? {
        return Err(ErrLaunchToken(found.error));
      }
      var rec := found.value;
      var attenuated := Scope.ScopeIsSubset(req.requestedScope, rec.allowedScope);
      if !attenuated {
        return Err(ErrScopeViolation);
      }
      var nonceErr := store.ConsumeNonce(req.nonce, x.nonceAt);
      if nonceErr.Some? {
        return Err(ErrNonce(nonceErr.value));
      }
      var proof := ProofError(p, req);
      if proof.Some? {
        return Err(proof.value);
      }
      if rec.singleUse {
        var launchErr := store.ConsumeLaunchToken(req.launchToken, x.launchAt);
        match launchErr {
          case Some(e) => return Err(ErrConsume(e));
          case None =>
        }
      }
      var spiffe := p.spiffeId(realm.trustDomain, req.orchId, req.taskId, x.instance);
      if spiffe.None? {
        return Err(ErrSpiffe);
      }
      var agentId := spiffe.value;
      var ttl := rec.maxTtl;
      if ttl <= 0 {
        ttl := DEFAULT_REGISTRATION_TTL;
      }
      var aud := if realm.audience == "" then [] else [realm.audience];
      var issued := Issue(p, svc, IssueReq(agentId, aud, req.requestedScope, req.taskId, req.orchId, "", ttl, [], ""),
                          Unix(x.issuedAt), x.jti);
      store.SaveAgent(agentId, NewAgent(p, req, rec, x.savedAt));
      return Ok(RegisterResp(agentId, issued));
    }
  }

  /** A refused scope consumes nothing: neither the nonce nor the launch token. */
  lemma ScopeViolationConsumesNothing(p: Primitives, svc: Service, realm: Realm, m: Memory, req: RegisterReq, x: Inputs)
    requires !FieldMissing(req) && FindLaunchToken(m, req.launchToken, x.readAt).Ok?
    ensures var (m', r) := Registered(p, svc, realm, m, req, x);
            r == Err(ErrScopeViolation) <==>
              !Scope.Subset(req.requestedScope, FindLaunchToken(m, req.launchToken, x.readAt).value.allowedScope)
    ensures Registered(p, svc, realm, m, req, x).1 == Err(ErrScopeViolation) ==>
              Registered(p, svc, realm, m, req, x).0 == m
  {
  }
}
