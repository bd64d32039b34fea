/**
 Registered agents. Every agent record in memory belongs to a token issued at a registration, under the same name, and
 holds the key that signed that registration's nonce.
 */
module Enrolment {
  import opened Wrappers
  import opened Claims
  import opened Crypto
  import opened Store
  import opened Revocation
  import opened Tokens
  import opened Delegation
  import opened Identity
  import opened Admin
  import opened Broker
  import opened History

  predicate SignsNonce(p: Primitives, key: string, nonce: string, sig: string) {
    p.verify(key, if p.decodeHex(nonce).Some? then p.decodeHex(nonce).value else nonce, sig)
  }

  /** A 32-byte key under which some signature of the nonce's bytes verifies. */
  ghost predicate KeyProved(p: Primitives, key: string, nonce: string) {
    |key| == 32 && exists sig :: SignsNonce(p, key, nonce, sig)
  }

  /** The i-th token was issued to this agent at its registration, for this task, with these scopes. */
  predicate IssuedTo(b: Broker, i: nat, id: string, token: string, nonce: string, orchId: string, taskId: string,
                     scope: seq<string>)
  {
    && i < |b.issued| && b.issued[i].origin.ByLaunch? && b.issued[i].origin.token == token
    && b.issued[i].origin.nonce == nonce && b.issued[i].claims.sub == id && b.issued[i].claims.orchId == orchId
    && b.issued[i].claims.taskId == taskId && b.issued[i].claims.scope == scope
  }

  ghost predicate Stands(env: Env, b: Broker, id: string, rec: AgentRecord, i: nat, token: string, nonce: string) {
    && IssuedTo(b, i, id, token, nonce, rec.orchId, rec.taskId, rec.scope) && KeyProved(env.p, rec.publicKey, nonce)
    && token in b.grants && b.grants[token].rec.appId == rec.appId
  }

  /** Such a token stands behind the agent record, and its launch token names the record's app. */
  ghost predicate StandsFor(env: Env, b: Broker, id: string, rec: AgentRecord) {
    exists i: nat, token, nonce :: Stands(env, b, id, rec, i, token, nonce)
  }

  /** A call that has spent its nonce has shown its key, and one that has issued knows its token. */
  ghost predicate CallProved(env: Env, b: Broker, c: Call) {
    && (c.HoldsNonce? || c.Cleared? || c.Enrolled? ==>
          && Possesses(env.p, c.req) && c.req.launchToken in b.grants && b.grants[c.req.launchToken].rec == c.rec)
    && (c.Enrolled? ==> exists i: nat ::
          IssuedTo(b, i, c.agentId, c.req.launchToken, c.req.nonce, c.req.orchId, c.req.taskId, c.req.requestedScope))
  }

  ghost predicate EnrolOk(env: Env, b: Broker) {
    && (forall id | id in b.mem.agents :: StandsFor(env, b, id, b.mem.agents[id]))
    && (forall k | k in b.calls :: CallProved(env, b, b.calls[k]))
  }

  lemma StandsStable(env: Env, b: Broker, b': Broker, id: string, rec: AgentRecord)
    requires Extends(b, b') && StandsFor(env, b, id, rec)
    ensures StandsFor(env, b', id, rec)
  {
    var i: nat, token, nonce :| Stands(env, b, id, rec, i, token, nonce);
    assert b'.issued[i] == b.issued[i];
    assert Stands(env, b', id, rec, i, token, nonce);
  }

  lemma ProvedStable(env: Env, b: Broker, b': Broker, c: Call)
    requires Extends(b, b') && CallProved(env, b, c)
    ensures CallProved(env, b', c)
  {
    if c.Enrolled? {
      var i: nat :| IssuedTo(b, i, c.agentId, c.req.launchToken, c.req.nonce, c.req.orchId, c.req.taskId, c.req.requestedScope);
      assert b'.issued[i] == b.issued[i];
      assert IssuedTo(b', i, c.agentId, c.req.launchToken, c.req.nonce, c.req.orchId, c.req.taskId, c.req.requestedScope);
    }
  }

  /** The step leaves every other call and agent alone, and what it moves is in order. */
  ghost predicate MovesOnly(env: Env, b: Broker, b': Broker, k: nat) {
    && Extends(b, b')
    && (forall l | l in b'.calls && l != k :: l in b.calls && b'.calls[l] == b.calls[l])
    && (k in b'.calls ==> CallProved(env, b', b'.calls[k]))
    && (forall id | id in b'.mem.agents ::
          (id in b.mem.agents && b'.mem.agents[id] == b.mem.agents[id]) || StandsFor(env, b', id, b'.mem.agents[id]))
  }

  lemma MovesKeep(env: Env, b: Broker, b': Broker, k: nat)
    requires EnrolOk(env, b) && MovesOnly(env, b, b', k)
    ensures EnrolOk(env, b')
  {
    forall id | id in b'.mem.agents ensures StandsFor(env, b', id, b'.mem.agents[id]) {
      if id in b.mem.agents && b'.mem.agents[id] == b.mem.agents[id] {
        StandsStable(env, b, b', id, b.mem.agents[id]);
      }
    }
    forall l | l in b'.calls ensures CallProved(env, b', b'.calls[l]) {
      if l != k {
        ProvedStable(env, b, b', b.calls[l]);
      }
    }
  }

  lemma TakeNonceProves(env: Env, b: Broker, call: nat)
    requires HistoryOk(env, b) && RegisterStep(env, b, TakeNonce(call)).Some?
    ensures MovesOnly(env, b, RegisterStep(env, b, TakeNonce(call)).value, call)
  {
    var c := b.calls[call];
    assert CallOk(b, c);
    NonceSpentExactly(env.p, b.mem, c.req, b.now);
  }

  lemma TakeLaunchProves(env: Env, b: Broker, call: nat)
    requires EnrolOk(env, b) && RegisterStep(env, b, TakeLaunch(call)).Some?
    ensures MovesOnly(env, b, RegisterStep(env, b, TakeLaunch(call)).value, call)
  {
    var c := b.calls[call];
    assert CallProved(env, b, c);
    assert SpendLaunch(b.mem, c.req, c.rec, b.now).0.agents == b.mem.agents;
  }

  lemma IssueAgentProves(env: Env, b: Broker, call: nat, instance: string, jti: string)
    requires EnrolOk(env, b) && RegisterStep(env, b, IssueAgent(call, instance, jti)).Some?
    ensures MovesOnly(env, b, RegisterStep(env, b, IssueAgent(call, instance, jti)).value, call)
  {
    var c := b.calls[call];
    var b' := RegisterStep(env, b, IssueAgent(call, instance, jti)).value;
    assert CallProved(env, b, c);
    if b'.calls[call].Enrolled? {
      assert IssuedTo(b', |b.issued|, b'.calls[call].agentId, c.req.launchToken, c.req.nonce, c.req.orchId, c.req.taskId,
                      c.req.requestedScope);
    }
  }

  lemma RecordAgentProves(env: Env, b: Broker, call: nat)
    requires EnrolOk(env, b) && RegisterStep(env, b, RecordAgent(call)).Some?
    ensures MovesOnly(env, b, RegisterStep(env, b, RecordAgent(call)).value, call)
  {
    var c := b.calls[call];
    var b' := RegisterStep(env, b, RecordAgent(call)).value;
    assert CallProved(env, b, c);
    var i: nat :| IssuedTo(b, i, c.agentId, c.req.launchToken, c.req.nonce, c.req.orchId, c.req.taskId, c.req.requestedScope);
    AgentStands(env, b, c, i);
    StandsStable(env, b, b', c.agentId, b'.mem.agents[c.agentId]);
  }

  lemma AgentStands(env: Env, b: Broker, c: Call, i: nat)
    requires c.Enrolled? && CallProved(env, b, c)
    requires IssuedTo(b, i, c.agentId, c.req.launchToken, c.req.nonce, c.req.orchId, c.req.taskId, c.req.requestedScope)
    ensures forall at :: StandsFor(env, b, c.agentId, NewAgent(env.p, c.req, c.rec, at))
  {
    var key, sig := env.p.decodeStd(c.req.publicKey).value, env.p.decodeStd(c.req.signature).value;
    assert SignsNonce(env.p, key, c.req.nonce, sig);
    forall at ensures StandsFor(env, b, c.agentId, NewAgent(env.p, c.req, c.rec, at)) {
      assert Stands(env, b, c.agentId, NewAgent(env.p, c.req, c.rec, at), i, c.req.launchToken, c.req.nonce);
    }
  }

  lemma ReadLaunchProves(env: Env, b: Broker, call: nat)
    requires RegisterStep(env, b, ReadLaunch(call)).Some?
    ensures MovesOnly(env, b, RegisterStep(env, b, ReadLaunch(call)).value, call)
  {
  }

  lemma RegisterKeepsEnrol(env: Env, b: Broker, s: Step)
    requires HistoryOk(env, b) && EnrolOk(env, b)
    requires s.ReadLaunch? || s.TakeNonce? || s.TakeLaunch? || s.IssueAgent? || s.RecordAgent?
    requires RegisterStep(env, b, s).Some?
    ensures EnrolOk(env, RegisterStep(env, b, s).value)
  {
    if s.ReadLaunch? {
      ReadLaunchProves(env, b, s.call);
    } else if s.TakeNonce? {
      TakeNonceProves(env, b, s.call);
    } else if s.TakeLaunch? {
      TakeLaunchProves(env, b, s.call);
    } else if s.IssueAgent? {
      IssueAgentProves(env, b, s.call, s.instance, s.jti);
    } else {
      RecordAgentProves(env, b, s.call);
    }
    MovesKeep(env, b, RegisterStep(env, b, s).value, s.call);
  }

  lemma DelegateMovesOne(env: Env, b: Broker, s: Step)
    requires s.BeginDelegate? || s.ExtendChain? || s.IssueDelegated?
    requires DelegateStep(env, b, s).Some?
    ensures MovesOnly(env, b, DelegateStep(env, b, s).value, s.call)
  {
  }

  lemma RenewMovesOne(env: Env, b: Broker, s: Step)
    requires s.BeginRenew? || s.RevokeOld? || s.IssueRenewed?
    requires RenewStep(env, b, s).Some?
    ensures MovesOnly(env, b, RenewStep(env, b, s).value, s.call)
  {
  }

  lemma LaunchMovesOne(env: Env, b: Broker, s: Step)
    requires s.BeginLaunch? || s.ReadCeiling? || s.StoreLaunch?
    requires LaunchStep(env, b, s).Some?
    ensures MovesOnly(env, b, LaunchStep(env, b, s).value, s.call)
  {
  }

  lemma LoginMovesOne(env: Env, b: Broker, s: Step)
    requires s.BeginLogin? || s.IssueLogin?
    requires LoginStep(env, b, s).Some?
    ensures MovesOnly(env, b, LoginStep(env, b, s).value, s.call)
  {
  }

  lemma OthersMoveNone(env: Env, b: Broker, s: Step)
    requires s.Tick? || s.Restart? || s.CreateNonce? || s.ChangeApp? || s.AdminLogin? || s.Revoke?
    requires Next(env, b, s).Some? && EnrolOk(env, b)
    ensures EnrolOk(env, Next(env, b, s).value)
  {
    var b' := Next(env, b, s).value;
    NextExtends(env, b, s);
    forall id | id in b'.mem.agents ensures StandsFor(env, b', id, b'.mem.agents[id]) {
      StandsStable(env, b, b', id, b.mem.agents[id]);
    }
    forall l | l in b'.calls ensures CallProved(env, b', b'.calls[l]) {
      ProvedStable(env, b, b', b.calls[l]);
    }
  }

  lemma NextKeepsEnrol(env: Env, b: Broker, s: Step)
    requires HistoryOk(env, b) && EnrolOk(env, b) && Next(env, b, s).Some?
    ensures EnrolOk(env, Next(env, b, s).value)
  {
    var b' := Next(env, b, s).value;
    if s.ReadLaunch? || s.TakeNonce? || s.TakeLaunch? || s.IssueAgent? || s.RecordAgent? {
      RegisterKeepsEnrol(env, b, s);
    } else if s.BeginDelegate? || s.ExtendChain? || s.IssueDelegated? {
      DelegateMovesOne(env, b, s);
      MovesKeep(env, b, b', s.call);
    } else if s.BeginRenew? || s.RevokeOld? || s.IssueRenewed? {
      RenewMovesOne(env, b, s);
      MovesKeep(env, b, b', s.call);
    } else if s.BeginLaunch? || s.ReadCeiling? || s.StoreLaunch? {
      LaunchMovesOne(env, b, s);
      MovesKeep(env, b, b', s.call);
    } else if s.BeginLogin? || s.IssueLogin? {
      LoginMovesOne(env, b, s);
      MovesKeep(env, b, b', s.call);
    } else if s.BeginRegister? {
      MovesKeep(env, b, b', s.call);
    } else {
      OthersMoveNone(env, b, s);
    }
  }

  lemma {:induction false} RunKeepsEnrol(env: Env, start: int, steps: seq<Step>)
    requires Run(env, Start(start), steps).Some?
    ensures EnrolOk(env, Run(env, Start(start), steps).value)
  {
    if steps == [] {
    } else {
      var before := steps[..|steps| - 1];
      RunKeepsEnrol(env, start, before);
      ReachableHistory(env, start, before);
      NextKeepsEnrol(env, Run(env, Start(start), before).value, steps[|steps| - 1]);
    }
  }

  /**
   In every reachable state every agent record belongs to a token issued at a registration: same name, orchestrator, task
   and scopes, the app of the launch token used, and the 32-byte key that signed the nonce used.
   */
  lemma EveryAgentEnrolled(env: Env, start: int, steps: seq<Step>, id: string)
    requires Run(env, Start(start), steps).Some? && id in Run(env, Start(start), steps).value.mem.agents
    ensures StandsFor(env, Run(env, Start(start), steps).value, id, Run(env, Start(start), steps).value.mem.agents[id])
  {
    RunKeepsEnrol(env, start, steps);
  }
}
