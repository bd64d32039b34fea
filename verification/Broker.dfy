/**
 The broker's credential lifecycle as one state machine. A step is one atomic
 action: a store, database or revocation call, an issuance, a clock tick or a restart.
 Register, Renew, Delegate, launch-token creation and app login are programs of several
 steps, and any number of their calls may be in flight at once. Releasing a token is the
 Revoke step of its own identifier.

 `issued`, `grants` and `nonceBorn` record what has ever been issued or created;
 no step reads them except to choose fresh random values and to name the token a
 call was made with.
 */
module Broker {
  import opened Wrappers
  import opened Clock
  import opened Claims
  import opened Crypto
  import opened Store
  import opened Revocation
  import opened Tokens
  import opened Delegation
  import opened Identity
  import opened Admin
  import Scope

  datatype Env = Env(p: Primitives, svc: Service, realm: Realm, adminTtl: int)

  datatype Origin =
    | ByAdmin
    | ByApp(appId: string, ttl: int)
    | ByLaunch(token: string, nonce: string, readAt: int, usedAt: int)
    | ByDelegation(parent: nat, req: DelegReq, recordedAt: int)
    | ByRenewal(parent: nat)

  datatype Issued = Issued(claims: TknClaims, origin: Origin)

  /** A launch token as stored, with its request, the ceiling that was checked against and the token it was created with. */
  datatype Grant = Grant(rec: LaunchToken, asked: LaunchReq, ceiling: Option<seq<string>>, creator: nat)

  /** Where a call stands, with the local variables it still needs. */
  datatype Call =
    | Registering(req: RegisterReq)
    | HoldsLaunch(req: RegisterReq, rec: LaunchToken, readAt: int)
    | HoldsNonce(req: RegisterReq, rec: LaunchToken, readAt: int, usedAt: int)
    | Cleared(req: RegisterReq, rec: LaunchToken, readAt: int, usedAt: int)
    | Enrolled(req: RegisterReq, rec: LaunchToken, agentId: string)
    | Renewing(parent: nat)
    | Replacing(parent: nat)
    | Delegating(parent: nat, dreq: DelegReq)
    | Chained(parent: nat, dreq: DelegReq, recordedAt: int)
    | Launching(parent: nat, lreq: LaunchReq)
    | WithinCeiling(parent: nat, lreq: LaunchReq, appId: string, ceiling: Option<seq<string>>)
    | LoggingIn(appId: string, ttl: int)
    | Returned

  datatype Broker = Broker(
    now: int,
    mem: Memory,
    rev: Revocations,
    saved: seq<Entry>,
    apps: map<string, AppRecord>,
    calls: map<nat, Call>,
    issued: seq<Issued>,
    grants: map<string, Grant>,
    nonceBorn: map<string, int>)

  datatype AppOp =
    | NewApp(appId: string, name: string, clientId: string, scopes: seq<string>, ttl: int, defaultTtl: int)
    | SetCeiling(appId: string, scopes: seq<string>)
    | SetTtl(appId: string, ttl: int)
    | Deactivate(appId: string)

  datatype Step =
    | Tick(elapsed: nat)
    | Restart
    | CreateNonce(nonce: string)
    | ChangeApp(op: AppOp)
    | AdminLogin(jti: string)
    | BeginLogin(call: nat, appId: string)
    | IssueLogin(call: nat, jti: string)
    | BeginLaunch(call: nat, parent: nat, lreq: LaunchReq)
    | ReadCeiling(call: nat)
    | StoreLaunch(call: nat, token: string)
    | BeginRegister(call: nat, req: RegisterReq)
    | ReadLaunch(call: nat)
    | TakeNonce(call: nat)
    | TakeLaunch(call: nat)
    | IssueAgent(call: nat, instance: string, jti: string)
    | RecordAgent(call: nat)
    | BeginRenew(call: nat, parent: nat)
    | RevokeOld(call: nat, dbOk: bool)
    | IssueRenewed(call: nat, jti: string)
    | BeginDelegate(call: nat, parent: nat, dreq: DelegReq)
    | ExtendChain(call: nat)
    | IssueDelegated(call: nat, jti: string)
    | Revoke(level: string, target: string, dbOk: bool)

  function Start(now: int): Broker {
    Broker(now, EmptyMemory, NothingRevoked, [], map[], map[], [], map[], map[])
  }

  /** Verify accepts the i-th issued token now. */
  predicate Admitted(env: Env, b: Broker, i: nat) {
    i < |b.issued| && Admit(env.svc.cfg, Some(b.rev), b.issued[i].claims, Unix(b.now)).Ok?
  }

  predicate FreshJti(b: Broker, jti: string) {
    jti != "" && forall i | 0 <= i < |b.issued| :: b.issued[i].claims.jti != jti
  }

  function Append(env: Env, b: Broker, req: IssueReq, jti: string, origin: Origin): Broker {
    b.(issued := b.issued + [Issued(IssuedClaims(env.svc.cfg, req, Unix(b.now), jti), origin)])
  }

  function SetCall(b: Broker, call: nat, c: Call): Broker {
    b.(calls := b.calls[call := c])
  }

  function RevokeIn(b: Broker, e: Entry, dbOk: bool): Broker {
    b.(rev := Add(b.rev, e), saved := if dbOk then Inserted(b.saved, e) else b.saved)
  }

  /** A new process: memory is lost, revocations are reloaded, calls in flight are gone. */
  function Restarted(b: Broker): Broker {
    b.(mem := EmptyMemory, rev := AddAll(NothingRevoked, b.saved), calls := map[])
  }

  function AppsAfter(apps: map<string, AppRecord>, op: AppOp): Result<map<string, AppRecord>, AppError> {
    match op
    case NewApp(appId, name, clientId, scopes, ttl, defaultTtl) => WithApp(apps, appId, name, clientId, scopes, ttl, defaultTtl)
    case SetCeiling(appId, scopes) => WithCeiling(apps, appId, scopes)
    case SetTtl(appId, ttl) => WithTtl(apps, appId, ttl)
    case Deactivate(appId) => WithoutApp(apps, appId)
  }

  /** The scope check of the two launch-token routes. */
  predicate MayLaunch(c: TknClaims) {
    Scope.Subset([ADMIN_LAUNCH], c.scope) || Scope.Subset([APP_LAUNCH], c.scope)
  }

  /** The steps of an app login: read the record, and after the password check issue. */
  function LoginStep(env: Env, b: Broker, s: Step): Option<Broker>
    requires s.BeginLogin? || s.IssueLogin?
  {
    match s
    case BeginLogin(call, appId) =>
      if call in b.calls then None
      else Some(SetCall(b, call, if appId in b.apps && b.apps[appId].active then LoggingIn(appId, b.apps[appId].tokenTtl)
                                 else Returned))
    case IssueLogin(call, jti) =>
      if call !in b.calls || !b.calls[call].LoggingIn? || !FreshJti(b, jti) then None
      else
        var c := b.calls[call];
        Some(SetCall(Append(env, b, AppLoginReq(AudienceOf(env.realm.audience), c.appId, c.ttl), jti, ByApp(c.appId, c.ttl)),
                     call, Returned))
  }

  /** The steps of a launch-token request: the middleware admits it, the ceiling is read, the record is stored. */
  function LaunchStep(env: Env, b: Broker, s: Step): Option<Broker>
    requires s.BeginLaunch? || s.ReadCeiling? || s.StoreLaunch?
  {
    match s
    case BeginLaunch(call, parent, lreq) =>
      if call in b.calls || !Admitted(env, b, parent) || !MayLaunch(b.issued[parent].claims) then None
      else Some(SetCall(b, call, Launching(parent, lreq)))
    case ReadCeiling(call) =>
      if call !in b.calls || !b.calls[call].Launching? || b.calls[call].parent >= |b.issued| then None
      else
        var c := b.calls[call];
        Some(SetCall(b, call, CeilingRead(b, c.parent, c.lreq)))
    case StoreLaunch(call, token) =>
      if call !in b.calls || !b.calls[call].WithinCeiling? || b.calls[call].parent >= |b.issued| || token in b.grants
      then None
      else
        var c := b.calls[call];
        if LaunchFieldMissing(c.lreq).Some? then Some(SetCall(b, call, Returned))
        else
          var rec := LaunchRecord(c.lreq, b.issued[c.parent].claims.sub, c.appId, b.now);
          Some(SetCall(b.(mem := AddLaunchToken(b.mem, token, rec),
                          grants := b.grants[token := Grant(rec, c.lreq, c.ceiling, c.parent)]), call, Returned))
  }

  /** Where the ceiling decision leaves a request of the token at this index. */
  function CeilingRead(b: Broker, parent: nat, lreq: LaunchReq): Call
    requires parent < |b.issued|
  {
    var sub := b.issued[parent].claims.sub;
    match CeilingDecision(b.apps, sub, lreq.allowedScope)
    case Err(_) => Returned
    case Ok(appId) =>
      WithinCeiling(parent, lreq, appId, if IsApp(sub) && appId in b.apps then Some(b.apps[appId].ceiling) else None)
  }

  /** The steps of a Register call. */
  function RegisterStep(env: Env, b: Broker, s: Step): Option<Broker>
    requires s.ReadLaunch? || s.TakeNonce? || s.TakeLaunch? || s.IssueAgent? || s.RecordAgent?
  {
    if s.call !in b.calls then None
    else
      var c := b.calls[s.call];
      match s
      case ReadLaunch(call) =>
        if !c.Registering? then None
        else (match CheckLaunch(b.mem, c.req, b.now)
              case Err(_) => Some(SetCall(b, call, Returned))
              case Ok(rec) => Some(SetCall(b, call, HoldsLaunch(c.req, rec, b.now))))
      case TakeNonce(call) =>
        if !c.HoldsLaunch? then None
        else
          var (m, err) := SpendNonce(env.p, b.mem, c.req, b.now);
          Some(SetCall(b.(mem := m), call, if err.Some? then Returned else HoldsNonce(c.req, c.rec, c.readAt, b.now)))
      case TakeLaunch(call) =>
        if !c.HoldsNonce? then None
        else
          var (m, err) := SpendLaunch(b.mem, c.req, c.rec, b.now);
          Some(SetCall(b.(mem := m), call, if err.Some? then Returned else Cleared(c.req, c.rec, c.readAt, c.usedAt)))
      case IssueAgent(call, instance, jti) =>
        if !c.Cleared? || !FreshJti(b, jti) then None
        else (match env.p.spiffeId(env.realm.trustDomain, c.req.orchId, c.req.taskId, instance)
              case None => Some(SetCall(b, call, Returned))
              case Some(agentId) =>
                var req := RegistrationReq(env.realm, agentId, c.req.orchId, c.req.taskId, c.req.requestedScope, c.rec.maxTtl);
                Some(SetCall(Append(env, b, req, jti, ByLaunch(c.req.launchToken, c.req.nonce, c.readAt, c.usedAt)),
                             call, Enrolled(c.req, c.rec, agentId))))
      case RecordAgent(call) =>
        if !c.Enrolled? then None
        else Some(SetCall(b.(mem := AddAgent(b.mem, c.agentId, NewAgent(env.p, c.req, c.rec, b.now))), call, Returned))
  }

  /** The steps of a Renew call: verify, revoke the predecessor, issue. */
  function RenewStep(env: Env, b: Broker, s: Step): Option<Broker>
    requires s.BeginRenew? || s.RevokeOld? || s.IssueRenewed?
  {
    match s
    case BeginRenew(call, parent) =>
      if call in b.calls || !Admitted(env, b, parent) then None else Some(SetCall(b, call, Renewing(parent)))
    case RevokeOld(call, dbOk) =>
      if call !in b.calls || !b.calls[call].Renewing? || b.calls[call].parent >= |b.issued| then None
      else
        var parent := b.calls[call].parent;
        Some(SetCall(RevokeIn(b, Entry("token", b.issued[parent].claims.jti), dbOk), call, Replacing(parent)))
    case IssueRenewed(call, jti) =>
      if call !in b.calls || !b.calls[call].Replacing? || b.calls[call].parent >= |b.issued| || !FreshJti(b, jti) then None
      else
        var parent := b.calls[call].parent;
        Some(SetCall(Append(env, b, RenewalReq(env.svc.cfg, b.issued[parent].claims), jti, ByRenewal(parent)),
                     call, Returned))
  }

  /** The steps of a Delegate call: the middleware verifies, the checks run, the token is issued. */
  function DelegateStep(env: Env, b: Broker, s: Step): Option<Broker>
    requires s.BeginDelegate? || s.ExtendChain? || s.IssueDelegated?
  {
    match s
    case BeginDelegate(call, parent, dreq) =>
      if call in b.calls || !Admitted(env, b, parent) then None else Some(SetCall(b, call, Delegating(parent, dreq)))
    case ExtendChain(call) =>
      if call !in b.calls || !b.calls[call].Delegating? || b.calls[call].parent >= |b.issued| then None
      else
        var c := b.calls[call];
        Some(SetCall(b, call, if Refusal(b.mem.agents, b.issued[c.parent].claims, c.dreq).Some? then Returned
                              else Chained(c.parent, c.dreq, b.now)))
    case IssueDelegated(call, jti) =>
      if call !in b.calls || !b.calls[call].Chained? || b.calls[call].parent >= |b.issued| || !FreshJti(b, jti) then None
      else
        var c := b.calls[call];
        var req := DelegatedReq(env.p, env.svc.signingKey, b.issued[c.parent].claims, c.dreq, c.recordedAt);
        Some(SetCall(Append(env, b, req, jti, ByDelegation(c.parent, c.dreq, c.recordedAt)), call, Returned))
  }

  /** The state after a step, or None where the step cannot be taken. */
  function Next(env: Env, b: Broker, s: Step): Option<Broker> {
    match s
    case Tick(elapsed) => Some(b.(now := b.now + elapsed))
    case Restart => Some(Restarted(b))
    case CreateNonce(nonce) =>
      if nonce in b.nonceBorn then None
      else Some(b.(mem := AddNonce(b.mem, nonce, b.now), nonceBorn := b.nonceBorn[nonce := b.now]))
    case ChangeApp(op) =>
      (match AppsAfter(b.apps, op)
       case Err(_) => Some(b)
       case Ok(apps) => Some(b.(apps := apps)))
    case AdminLogin(jti) =>
      if !FreshJti(b, jti) then None
      else Some(Append(env, b, AdminLoginReq(AudienceOf(env.realm.audience), env.adminTtl), jti, ByAdmin))
    case BeginLogin(_, _) => LoginStep(env, b, s)
    case IssueLogin(_, _) => LoginStep(env, b, s)
    case BeginLaunch(_, _, _) => LaunchStep(env, b, s)
    case ReadCeiling(_) => LaunchStep(env, b, s)
    case StoreLaunch(_, _) => LaunchStep(env, b, s)
    case BeginRegister(call, req) => if call in b.calls then None else Some(SetCall(b, call, Registering(req)))
    case ReadLaunch(_) => RegisterStep(env, b, s)
    case TakeNonce(_) => RegisterStep(env, b, s)
    case TakeLaunch(_) => RegisterStep(env, b, s)
    case IssueAgent(_, _, _) => RegisterStep(env, b, s)
    case RecordAgent(_) => RegisterStep(env, b, s)
    case BeginRenew(_, _) => RenewStep(env, b, s)
    case RevokeOld(_, _) => RenewStep(env, b, s)
    case IssueRenewed(_, _) => RenewStep(env, b, s)
    case BeginDelegate(_, _, _) => DelegateStep(env, b, s)
    case ExtendChain(_) => DelegateStep(env, b, s)
    case IssueDelegated(_, _) => DelegateStep(env, b, s)
    case Revoke(level, target, dbOk) =>
      if target == "" || !KnownLevel(level) then None else Some(RevokeIn(b, Entry(level, target), dbOk))
  }

  function Run(env: Env, b: Broker, steps: seq<Step>): Option<Broker> {
    if steps == [] then Some(b)
    else
      match Run(env, b, steps[..|steps| - 1])
      case None => None
      case Some(mid) => Next(env, mid, steps[|steps| - 1])
  }

  // ---------- what every step keeps ----------

  ghost predicate Extends(b: Broker, b': Broker) {
    && b.now <= b'.now
    && b.issued <= b'.issued
    && (forall t | t in b.grants :: t in b'.grants && b'.grants[t] == b.grants[t])
    && (forall n | n in b.nonceBorn :: n in b'.nonceBorn && b'.nonceBorn[n] == b.nonceBorn[n])
  }

  lemma RegisterStepExtends(env: Env, b: Broker, s: Step)
    requires s.ReadLaunch? || s.TakeNonce? || s.TakeLaunch? || s.IssueAgent? || s.RecordAgent?
    requires RegisterStep(env, b, s).Some?
    ensures var b' := RegisterStep(env, b, s).value;
            Extends(b, b') && |b'.issued| <= |b.issued| + 1
  {
  }

  lemma RenewStepExtends(env: Env, b: Broker, s: Step)
    requires s.BeginRenew? || s.RevokeOld? || s.IssueRenewed?
    requires RenewStep(env, b, s).Some?
    ensures var b' := RenewStep(env, b, s).value;
            Extends(b, b') && |b'.issued| <= |b.issued| + 1
  {
  }

  lemma DelegateStepExtends(env: Env, b: Broker, s: Step)
    requires s.BeginDelegate? || s.ExtendChain? || s.IssueDelegated?
    requires DelegateStep(env, b, s).Some?
    ensures var b' := DelegateStep(env, b, s).value;
            Extends(b, b') && |b'.issued| <= |b.issued| + 1
  {
  }

  lemma LoginStepExtends(env: Env, b: Broker, s: Step)
    requires s.BeginLogin? || s.IssueLogin?
    requires LoginStep(env, b, s).Some?
    ensures var b' := LoginStep(env, b, s).value;
            Extends(b, b') && |b'.issued| <= |b.issued| + 1
  {
  }

  lemma LaunchStepExtends(env: Env, b: Broker, s: Step)
    requires s.BeginLaunch? || s.ReadCeiling? || s.StoreLaunch?
    requires LaunchStep(env, b, s).Some?
    ensures var b' := LaunchStep(env, b, s).value;
            Extends(b, b') && |b'.issued| <= |b.issued| + 1
  {
  }

  /** Issued tokens, created launch tokens and created nonces stay on record; the clock never goes back. */
  lemma NextExtends(env: Env, b: Broker, s: Step)
    requires Next(env, b, s).Some?
    ensures Extends(b, Next(env, b, s).value)
    ensures |Next(env, b, s).value.issued| <= |b.issued| + 1
  {
    if s.ReadLaunch? || s.TakeNonce? || s.TakeLaunch? || s.IssueAgent? || s.RecordAgent? {
      RegisterStepExtends(env, b, s);
    } else if s.BeginRenew? || s.RevokeOld? || s.IssueRenewed? {
      RenewStepExtends(env, b, s);
    } else if s.BeginDelegate? || s.ExtendChain? || s.IssueDelegated? {
      DelegateStepExtends(env, b, s);
    } else if s.BeginLogin? || s.IssueLogin? {
      LoginStepExtends(env, b, s);
    } else if s.BeginLaunch? || s.ReadCeiling? || s.StoreLaunch? {
      LaunchStepExtends(env, b, s);
    }
  }

  predicate RegisterKind(c: Call) {
    c.Registering? || c.HoldsLaunch? || c.HoldsNonce? || c.Cleared? || c.Enrolled? || c.Returned?
  }

  lemma RegisterMoves(env: Env, b: Broker, s: Step, k: nat)
    requires s.ReadLaunch? || s.TakeNonce? || s.TakeLaunch? || s.IssueAgent? || s.RecordAgent?
    requires RegisterStep(env, b, s).Some? && k in RegisterStep(env, b, s).value.calls
    ensures var c := RegisterStep(env, b, s).value.calls[k];
            (k in b.calls && b.calls[k] == c) || RegisterKind(c)
  {
  }

  predicate DelegateKind(c: Call) {
    c.Delegating? || c.Chained? || c.Returned?
  }

  lemma DelegateMoves(env: Env, b: Broker, s: Step, k: nat)
    requires s.BeginDelegate? || s.ExtendChain? || s.IssueDelegated?
    requires DelegateStep(env, b, s).Some? && k in DelegateStep(env, b, s).value.calls
    ensures var c := DelegateStep(env, b, s).value.calls[k];
            (k in b.calls && b.calls[k] == c) || DelegateKind(c)
  {
  }

  /** The apps after a step: only a change of an app touches them. */
  function AppsThen(apps: map<string, AppRecord>, s: Step): map<string, AppRecord> {
    if s.ChangeApp? && AppsAfter(apps, s.op).Ok? then AppsAfter(apps, s.op).value else apps
  }

  lemma RegisterLeavesApps(env: Env, b: Broker, s: Step)
    requires s.ReadLaunch? || s.TakeNonce? || s.TakeLaunch? || s.IssueAgent? || s.RecordAgent?
    requires RegisterStep(env, b, s).Some?
    ensures RegisterStep(env, b, s).value.apps == b.apps
  {
  }

  lemma DelegateLeavesApps(env: Env, b: Broker, s: Step)
    requires s.BeginDelegate? || s.ExtendChain? || s.IssueDelegated?
    requires DelegateStep(env, b, s).Some?
    ensures DelegateStep(env, b, s).value.apps == b.apps
  {
  }

  lemma RenewLeavesApps(env: Env, b: Broker, s: Step)
    requires s.BeginRenew? || s.RevokeOld? || s.IssueRenewed?
    requires RenewStep(env, b, s).Some?
    ensures RenewStep(env, b, s).value.apps == b.apps
  {
  }

  lemma LaunchLeavesApps(env: Env, b: Broker, s: Step)
    requires s.BeginLaunch? || s.ReadCeiling? || s.StoreLaunch?
    requires LaunchStep(env, b, s).Some?
    ensures LaunchStep(env, b, s).value.apps == b.apps
  {
  }

  lemma NextApps(env: Env, b: Broker, s: Step)
    requires Next(env, b, s).Some?
    ensures Next(env, b, s).value.apps == AppsThen(b.apps, s)
  {
    if s.ReadLaunch? || s.TakeNonce? || s.TakeLaunch? || s.IssueAgent? || s.RecordAgent? {
      RegisterLeavesApps(env, b, s);
    } else if s.BeginDelegate? || s.ExtendChain? || s.IssueDelegated? {
      DelegateLeavesApps(env, b, s);
    } else if s.BeginRenew? || s.RevokeOld? || s.IssueRenewed? {
      RenewLeavesApps(env, b, s);
    } else if s.BeginLaunch? || s.ReadCeiling? || s.StoreLaunch? {
      LaunchLeavesApps(env, b, s);
    }
  }

  lemma {:induction false} RunExtends(env: Env, b: Broker, steps: seq<Step>)
    requires Run(env, b, steps).Some?
    ensures Extends(b, Run(env, b, steps).value)
  {
    if steps == [] {
    } else {
      RunExtends(env, b, steps[..|steps| - 1]);
      NextExtends(env, Run(env, b, steps[..|steps| - 1]).value, steps[|steps| - 1]);
    }
  }

  // ---------- runs of known steps ----------

  lemma RunTakes(env: Env, b: Broker, steps: seq<Step>, n: nat)
    requires n < |steps| && Run(env, b, steps[..n]).Some?
    ensures Run(env, b, steps[..n + 1]) == Next(env, Run(env, b, steps[..n]).value, steps[n])
  {
    assert steps[..n + 1][..n] == steps[..n];
  }

  lemma TickGoes(env: Env, b: Broker, s: Step)
    requires s.Tick?
    ensures Next(env, b, s) == Some(b.(now := b.now + s.elapsed))
  {
  }

  /** Two more steps of a run: a tick and the step proper. */
  lemma AfterTick(env: Env, b: Broker, steps: seq<Step>, n: nat, mid: Broker)
    requires n + 1 < |steps| && steps[n].Tick?
    requires Run(env, b, steps[..n]) == Some(mid)
    ensures Run(env, b, steps[..n + 2]) == Next(env, mid.(now := mid.now + steps[n].elapsed), steps[n + 1])
  {
    TickGoes(env, mid, steps[n]);
    RunTakes(env, b, steps, n);
    RunTakes(env, b, steps, n + 1);
  }

  lemma TwoTaken(env: Env, b: Broker, steps: seq<Step>, mid: Broker)
    requires |steps| >= 2 && Next(env, b, steps[0]) == Some(mid)
    ensures Run(env, b, steps[..2]) == Next(env, mid, steps[1])
  {
    assert Run(env, b, steps[..0]) == Some(b);
    RunTakes(env, b, steps, 0);
    RunTakes(env, b, steps, 1);
  }

  lemma IssueRenewedGoes(env: Env, b: Broker, k: nat, p: nat, jti: string)
    requires k in b.calls && b.calls[k] == Replacing(p) && p < |b.issued| && FreshJti(b, jti)
    ensures Next(env, b, IssueRenewed(k, jti))
         == Some(SetCall(Append(env, b, RenewalReq(env.svc.cfg, b.issued[p].claims), jti, ByRenewal(p)), k, Returned))
  {
  }

  /** Two steps, a tick and a step. */
  lemma TwoTickOne(env: Env, b: Broker, steps: seq<Step>, b1: Broker, b2: Broker, b3: Broker, end: Broker)
    requires |steps| == 4 && steps[2].Tick?
    requires Next(env, b, steps[0]) == Some(b1) && Next(env, b1, steps[1]) == Some(b2)
    requires b3 == b2.(now := b2.now + steps[2].elapsed) && Next(env, b3, steps[3]) == Some(end)
    ensures Run(env, b, steps) == Some(end)
  {
    TwoTaken(env, b, steps, b1);
    AfterTick(env, b, steps, 2, b2);
    assert steps[..4] == steps;
  }

  lemma RunOne(env: Env, b: Broker, s: Step)
    ensures Run(env, b, [s]) == Next(env, b, s)
  {
    assert [s][..0] == [];
  }

  function AndThen(env: Env, b: Option<Broker>, s: Step): Option<Broker> {
    match b
    case None => None
    case Some(mid) => Next(env, mid, s)
  }

  lemma RunSnoc(env: Env, b: Broker, steps: seq<Step>, s: Step)
    ensures Run(env, b, steps + [s]) == AndThen(env, Run(env, b, steps), s)
  {
    assert (steps + [s])[..|steps|] == steps;
  }

  /** A run is its first part and then the rest. */
  lemma {:induction false} RunConcat(env: Env, b: Broker, first: seq<Step>, rest: seq<Step>)
    requires Run(env, b, first).Some?
    ensures Run(env, b, first + rest) == Run(env, Run(env, b, first).value, rest)
  {
    if rest == [] {
      assert first + rest == first;
    } else {
      var n := |rest| - 1;
      var some, last := rest[..n], rest[n];
      RunConcat(env, b, first, some);
      RunSnoc(env, b, first + some, last);
      RunSnoc(env, Run(env, b, first).value, some, last);
      assert first + rest == (first + some) + [last] && rest == some + [last];
    }
  }

  lemma FourSteps(env: Env, b: Broker, steps: seq<Step>, b1: Broker, b2: Broker, b3: Broker, b4: Broker)
    requires |steps| == 4
    requires Next(env, b, steps[0]) == Some(b1) && Next(env, b1, steps[1]) == Some(b2)
    requires Next(env, b2, steps[2]) == Some(b3) && Next(env, b3, steps[3]) == Some(b4)
    ensures Run(env, b, steps) == Some(b4)
  {
    assert Run(env, b, steps[..0]) == Some(b);
    assert steps[..1][..0] == steps[..0];
    assert Run(env, b, steps[..1]) == Some(b1);
    assert steps[..2][..1] == steps[..1];
    assert Run(env, b, steps[..2]) == Some(b2);
    assert steps[..3][..2] == steps[..2];
    assert Run(env, b, steps[..3]) == Some(b3);
  }
}
