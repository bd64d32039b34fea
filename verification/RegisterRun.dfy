/** The sequential Register of module Identity is one run of the machine's Register steps. */
module RegisterRun {
  import opened Wrappers
  import opened Clock
  import opened Claims
  import opened Crypto
  import opened Store
  import opened Tokens
  import opened Identity
  import opened Broker

  predicate InProgramOrder(x: Inputs) {
    x.readAt <= x.nonceAt <= x.launchAt <= x.issuedAt <= x.savedAt
  }

  /** All steps of one call, with the clock moving between them. */
  function CallSteps(call: nat, req: RegisterReq, x: Inputs): seq<Step>
    requires InProgramOrder(x)
  {
    [BeginRegister(call, req), ReadLaunch(call),
     Tick(x.nonceAt - x.readAt), TakeNonce(call),
     Tick(x.launchAt - x.nonceAt), TakeLaunch(call),
     Tick(x.issuedAt - x.launchAt), IssueAgent(call, x.instance, x.jti),
     Tick(x.savedAt - x.issuedAt), RecordAgent(call)]
  }

  /** How many of them are taken: a refused call stops at the step that refused it. */
  function StepsTaken(env: Env, m: Memory, req: RegisterReq, x: Inputs): (n: nat)
    ensures n <= 10
  {
    match CheckLaunch(m, req, x.readAt)
    case Err(_) => 2
    case Ok(rec) =>
      var (m1, e1) := SpendNonce(env.p, m, req, x.nonceAt);
      var (m2, e2) := SpendLaunch(m1, req, rec, x.launchAt);
      if e1.Some? then 4
      else if e2.Some? then 6
      else if env.p.spiffeId(env.realm.trustDomain, req.orchId, req.taskId, x.instance).None? then 8
      else 10
  }

  /** The outcome of a sequential call, seen in the machine. */
  ghost predicate Outcome(b: Broker, call: nat, after: Option<Broker>, mem: Memory, r: Result<RegisterResp, RegisterError>) {
    && after.Some? && after.value.mem == mem && after.value.calls == b.calls[call := Returned]
    && match r
       case Err(_) => after.value.issued == b.issued
       case Ok(resp) =>
         && |after.value.issued| == |b.issued| + 1 && b.issued <= after.value.issued
         && after.value.issued[|b.issued|].claims == resp.issued.claims
  }

  /** The state after the first two steps. */
  lemma AfterRead(env: Env, b: Broker, call: nat, req: RegisterReq, x: Inputs)
    requires InProgramOrder(x) && b.now == x.readAt && call !in b.calls
    ensures var checked := CheckLaunch(b.mem, req, x.readAt);
            var stage := if checked.Ok? then HoldsLaunch(req, checked.value, x.readAt) else Returned;
            Run(env, b, CallSteps(call, req, x)[..2]) == Some(SetCall(b, call, stage))
  {
    var steps := CallSteps(call, req, x);
    assert Run(env, b, steps[..0]) == Some(b);
    RunTakes(env, b, steps, 0);
    RunTakes(env, b, steps, 1);
    var checked := CheckLaunch(b.mem, req, x.readAt);
    Overwrite(b.calls, call, Registering(req), if checked.Ok? then HoldsLaunch(req, checked.value, x.readAt) else Returned);
  }

  lemma Overwrite(calls: map<nat, Call>, k: nat, c: Call, d: Call)
    ensures calls[k := c][k := d] == calls[k := d]
  {
  }

  /** The state of a call that has reached a stage at a given time, everything else as at its start. */
  function Stage(b: Broker, call: nat, c: Call, m: Memory, now: int): Broker {
    SetCall(b.(mem := m, now := now), call, c)
  }

  lemma NonceStep(env: Env, b: Broker, call: nat, req: RegisterReq, rec: LaunchToken, readAt: int, at: int)
    ensures var (m, err) := SpendNonce(env.p, b.mem, req, at);
            Next(env, Stage(b, call, HoldsLaunch(req, rec, readAt), b.mem, at), TakeNonce(call))
            == Some(Stage(b, call, if err.Some? then Returned else HoldsNonce(req, rec, readAt, at), m, at))
  {
    var (m, err) := SpendNonce(env.p, b.mem, req, at);
    Overwrite(b.calls, call, HoldsLaunch(req, rec, readAt), if err.Some? then Returned else HoldsNonce(req, rec, readAt, at));
  }

  /** The same from a stage of one call. */
  lemma StageTick(env: Env, b: Broker, base: Broker, steps: seq<Step>, n: nat, call: nat, c: Call, m: Memory, now: int,
                  later: int)
    requires n + 1 < |steps| && now <= later && steps[n] == Tick(later - now)
    requires Run(env, b, steps[..n]) == Some(Stage(base, call, c, m, now))
    ensures Run(env, b, steps[..n + 2]) == Next(env, Stage(base, call, c, m, later), steps[n + 1])
  {
    var mid := Stage(base, call, c, m, now);
    AfterTick(env, b, steps, n, mid);
    assert mid.(now := mid.now + steps[n].elapsed) == Stage(base, call, c, m, later);
  }

  lemma AfterNonce(env: Env, b: Broker, call: nat, req: RegisterReq, x: Inputs, rec: LaunchToken)
    requires InProgramOrder(x) && b.now == x.readAt
    requires Run(env, b, CallSteps(call, req, x)[..2]) == Some(Stage(b, call, HoldsLaunch(req, rec, x.readAt), b.mem, x.readAt))
    ensures var (m, err) := SpendNonce(env.p, b.mem, req, x.nonceAt);
            Run(env, b, CallSteps(call, req, x)[..4])
            == Some(Stage(b, call, if err.Some? then Returned else HoldsNonce(req, rec, x.readAt, x.nonceAt), m, x.nonceAt))
  {
    StageTick(env, b, b, CallSteps(call, req, x), 2, call, HoldsLaunch(req, rec, x.readAt), b.mem, x.readAt, x.nonceAt);
    NonceStep(env, b, call, req, rec, x.readAt, x.nonceAt);
  }

  lemma AfterLaunch(env: Env, b: Broker, call: nat, req: RegisterReq, x: Inputs, rec: LaunchToken, m: Memory)
    requires InProgramOrder(x)
    requires Run(env, b, CallSteps(call, req, x)[..4])
          == Some(Stage(b, call, HoldsNonce(req, rec, x.readAt, x.nonceAt), m, x.nonceAt))
    ensures var (m', err) := SpendLaunch(m, req, rec, x.launchAt);
            Run(env, b, CallSteps(call, req, x)[..6])
            == Some(Stage(b, call, if err.Some? then Returned else Cleared(req, rec, x.readAt, x.nonceAt), m', x.launchAt))
  {
    StageTick(env, b, b, CallSteps(call, req, x), 4, call, HoldsNonce(req, rec, x.readAt, x.nonceAt), m, x.nonceAt, x.launchAt);
    LaunchSpent(env, b, call, req, rec, x.readAt, x.nonceAt, m, x.launchAt);
  }

  lemma LaunchSpent(env: Env, b: Broker, call: nat, req: RegisterReq, rec: LaunchToken, readAt: int,
                    usedAt: int, m: Memory, at: int)
    ensures var (m', err) := SpendLaunch(m, req, rec, at);
            Next(env, Stage(b, call, HoldsNonce(req, rec, readAt, usedAt), m, at), TakeLaunch(call))
            == Some(Stage(b, call, if err.Some? then Returned else Cleared(req, rec, readAt, usedAt), m', at))
  {
    var (m', err) := SpendLaunch(m, req, rec, at);
    Overwrite(b.calls, call, HoldsNonce(req, rec, readAt, usedAt), if err.Some? then Returned else Cleared(req, rec, readAt, usedAt));
  }

  /** The token an uninterrupted registration issues. */
  function IssuedToken(env: Env, agentId: string, req: RegisterReq, rec: LaunchToken, x: Inputs): Issued {
    Issued(IssuedClaims(env.svc.cfg,
                        RegistrationReq(env.realm, agentId, req.orchId, req.taskId, req.requestedScope, rec.maxTtl),
                        Unix(x.issuedAt), x.jti),
           ByLaunch(req.launchToken, req.nonce, x.readAt, x.nonceAt))
  }

  lemma IssueStep(env: Env, b: Broker, call: nat, req: RegisterReq, x: Inputs, rec: LaunchToken, m: Memory)
    requires FreshJti(b, x.jti)
    ensures Next(env, Stage(b, call, Cleared(req, rec, x.readAt, x.nonceAt), m, x.issuedAt), IssueAgent(call, x.instance, x.jti))
         == match env.p.spiffeId(env.realm.trustDomain, req.orchId, req.taskId, x.instance)
            case None => Some(Stage(b, call, Returned, m, x.issuedAt))
            case Some(agentId) =>
              Some(Stage(b, call, Enrolled(req, rec, agentId), m, x.issuedAt)
                   .(issued := b.issued + [IssuedToken(env, agentId, req, rec, x)]))
  {
    var cleared := Cleared(req, rec, x.readAt, x.nonceAt);
    Overwrite(b.calls, call, cleared, Returned);
    match env.p.spiffeId(env.realm.trustDomain, req.orchId, req.taskId, x.instance)
    case None =>
    case Some(agentId) => Overwrite(b.calls, call, cleared, Enrolled(req, rec, agentId));
  }

  lemma AfterIssue(env: Env, b: Broker, call: nat, req: RegisterReq, x: Inputs, rec: LaunchToken, m: Memory)
    requires InProgramOrder(x) && FreshJti(b, x.jti)
    requires Run(env, b, CallSteps(call, req, x)[..6])
          == Some(Stage(b, call, Cleared(req, rec, x.readAt, x.nonceAt), m, x.launchAt))
    ensures Run(env, b, CallSteps(call, req, x)[..8])
         == match env.p.spiffeId(env.realm.trustDomain, req.orchId, req.taskId, x.instance)
            case None => Some(Stage(b, call, Returned, m, x.issuedAt))
            case Some(agentId) =>
              Some(Stage(b, call, Enrolled(req, rec, agentId), m, x.issuedAt)
                   .(issued := b.issued + [IssuedToken(env, agentId, req, rec, x)]))
  {
    StageTick(env, b, b, CallSteps(call, req, x), 6, call, Cleared(req, rec, x.readAt, x.nonceAt), m, x.launchAt, x.issuedAt);
    IssueStep(env, b, call, req, x, rec, m);
  }

  lemma AfterRecord(env: Env, b: Broker, call: nat, req: RegisterReq, x: Inputs, rec: LaunchToken, m: Memory,
                    agentId: string, issued: seq<Issued>)
    requires InProgramOrder(x)
    requires Run(env, b, CallSteps(call, req, x)[..8])
          == Some(Stage(b, call, Enrolled(req, rec, agentId), m, x.issuedAt).(issued := issued))
    ensures Run(env, b, CallSteps(call, req, x)[..10])
         == Some(Stage(b, call, Returned, AddAgent(m, agentId, NewAgent(env.p, req, rec, x.savedAt)), x.savedAt)
                 .(issued := issued))
  {
    var base := b.(issued := issued);
    StageTick(env, b, base, CallSteps(call, req, x), 8, call, Enrolled(req, rec, agentId), m, x.issuedAt, x.savedAt);
    AgentRecorded(env, base, call, req, rec, m, agentId, x.savedAt);
  }

  lemma AgentRecorded(env: Env, b: Broker, call: nat, req: RegisterReq, rec: LaunchToken, m: Memory, agentId: string,
                      at: int)
    ensures Next(env, Stage(b, call, Enrolled(req, rec, agentId), m, at), RecordAgent(call))
         == Some(Stage(b, call, Returned, AddAgent(m, agentId, NewAgent(env.p, req, rec, at)), at))
  {
    Overwrite(b.calls, call, Enrolled(req, rec, agentId), Returned);
  }

  /**
   Run without interruption, a call leaves the store and the issued tokens exactly as the sequential
   Register does: one token more when it succeeds, none when it is refused.
   */
  lemma RegisterIsRun(env: Env, b: Broker, call: nat, req: RegisterReq, x: Inputs)
    requires InProgramOrder(x) && b.now == x.readAt && call !in b.calls && FreshJti(b, x.jti)
    ensures var (mem, r) := Registered(env.p, env.svc, env.realm, b.mem, req, x);
            Outcome(b, call, Run(env, b, CallSteps(call, req, x)[..StepsTaken(env, b.mem, req, x)]), mem, r)
  {
    AfterRead(env, b, call, req, x);
    var checked := CheckLaunch(b.mem, req, x.readAt);
    if checked.Ok? {
      AfterNonce(env, b, call, req, x, checked.value);
      var (m1, e1) := SpendNonce(env.p, b.mem, req, x.nonceAt);
      if e1.None? {
        FinishesAfterNonce(env, b, call, req, x, checked.value, m1);
      }
    }
  }

  lemma FinishesAfterNonce(env: Env, b: Broker, call: nat, req: RegisterReq, x: Inputs, rec: LaunchToken, m1: Memory)
    requires InProgramOrder(x) && FreshJti(b, x.jti)
    requires CheckLaunch(b.mem, req, x.readAt) == Ok(rec) && SpendNonce(env.p, b.mem, req, x.nonceAt) == (m1, None)
    requires Run(env, b, CallSteps(call, req, x)[..4])
          == Some(Stage(b, call, HoldsNonce(req, rec, x.readAt, x.nonceAt), m1, x.nonceAt))
    ensures var (mem, r) := Registered(env.p, env.svc, env.realm, b.mem, req, x);
            Outcome(b, call, Run(env, b, CallSteps(call, req, x)[..StepsTaken(env, b.mem, req, x)]), mem, r)
  {
    AfterLaunch(env, b, call, req, x, rec, m1);
    var (m2, e2) := SpendLaunch(m1, req, rec, x.launchAt);
    if e2.None? {
      AfterIssue(env, b, call, req, x, rec, m2);
      var spiffe := env.p.spiffeId(env.realm.trustDomain, req.orchId, req.taskId, x.instance);
      if spiffe.Some? {
        AfterRecord(env, b, call, req, x, rec, m2, spiffe.value,
                    b.issued + [IssuedToken(env, spiffe.value, req, rec, x)]);
      }
    }
  }
}
