/**
 Tokens of apps. Agents are named by SPIFFE identifiers, so only a login and renewals of it
 give a token whose subject is an app; every such token looks like the login's.
 */
module AppTokens {
  import opened Wrappers
  import opened Claims
  import opened Crypto
  import opened Store
  import opened Revocation
  import opened Tokens
  import opened Delegation
  import opened Identity
  import opened Admin
  import opened Broker
  import opened History
  import Scope
  import opened Provenance

  /** The subject of an app's tokens. */
  function AppSub(appId: string): (sub: string)
    ensures IsApp(sub) && sub[4..] == appId
  {
    "app:" + appId
  }

  /** The call will store or name this agent. */
  predicate CallNames(c: Call, id: string) {
    (c.Enrolled? && c.agentId == id) || (c.Chained? && c.dreq.delegateTo == id)
  }

  /** No agent, known or about to be, has the name of an app, and no token was issued to such an agent. */
  ghost predicate NamesOk(b: Broker) {
    && (forall id | id in b.mem.agents :: !IsApp(id))
    && (forall k, id | k in b.calls && CallNames(b.calls[k], id) :: !IsApp(id))
    && (forall i | 0 <= i < |b.issued| && (b.issued[i].origin.ByLaunch? || b.issued[i].origin.ByDelegation?) ::
          !IsApp(b.issued[i].claims.sub))
  }

  /** The calls of other kinds name nobody, and no agent is stored. */
  ghost predicate NamesQuiet(b: Broker, b': Broker) {
    && b'.mem.agents.Keys <= b.mem.agents.Keys
    && b.issued <= b'.issued
    && (forall k, id | k in b'.calls && CallNames(b'.calls[k], id) :: k in b.calls && CallNames(b.calls[k], id))
    && (forall i | |b.issued| <= i < |b'.issued| :: !b'.issued[i].origin.ByLaunch? && !b'.issued[i].origin.ByDelegation?)
  }

  lemma QuietKeepsNames(b: Broker, b': Broker)
    requires NamesOk(b) && NamesQuiet(b, b')
    ensures NamesOk(b')
  {
    forall i | 0 <= i < |b'.issued| && (b'.issued[i].origin.ByLaunch? || b'.issued[i].origin.ByDelegation?)
      ensures !IsApp(b'.issued[i].claims.sub)
    {
      assert i < |b.issued| && b'.issued[i] == b.issued[i];
    }
  }

  lemma RegisterKeepsNames(env: Env, b: Broker, s: Step)
    requires SpiffeLaw(env.p) && NamesOk(b)
    requires s.ReadLaunch? || s.TakeNonce? || s.TakeLaunch? || s.IssueAgent? || s.RecordAgent?
    requires RegisterStep(env, b, s).Some?
    ensures NamesOk(RegisterStep(env, b, s).value)
  {
    var b' := RegisterStep(env, b, s).value;
    if s.IssueAgent? && b'.issued != b.issued {
      AgentIssuedNamed(env, b, s.call, s.instance, s.jti);
    } else if s.RecordAgent? {
      AgentRecordNamed(env, b, s.call);
    } else {
      CheckingNamesNobody(env, b, s);
      QuietKeepsNames(b, b');
    }
  }

  lemma CheckingNamesNobody(env: Env, b: Broker, s: Step)
    requires s.ReadLaunch? || s.TakeNonce? || s.TakeLaunch? || s.IssueAgent?
    requires RegisterStep(env, b, s).Some? && RegisterStep(env, b, s).value.issued == b.issued
    ensures NamesQuiet(b, RegisterStep(env, b, s).value)
  {
    if s.TakeNonce? || s.TakeLaunch? {
      SpendingNamesNobody(env, b, s);
    }
  }

  lemma SpendingNamesNobody(env: Env, b: Broker, s: Step)
    requires s.TakeNonce? || s.TakeLaunch?
    requires RegisterStep(env, b, s).Some?
    ensures NamesQuiet(b, RegisterStep(env, b, s).value)
  {
    var c := b.calls[s.call];
    assert SpendNonce(env.p, b.mem, c.req, b.now).0.agents == b.mem.agents;
    assert SpendLaunch(b.mem, c.req, c.rec, b.now).0.agents == b.mem.agents;
  }

  lemma AgentRecordNamed(env: Env, b: Broker, call: nat)
    requires NamesOk(b) && RegisterStep(env, b, RecordAgent(call)).Some?
    ensures NamesOk(RegisterStep(env, b, RecordAgent(call)).value)
  {
    assert CallNames(b.calls[call], b.calls[call].agentId);
  }

  lemma SpiffeIsNoApp(p: Primitives, id: string)
    requires "spiffe://" <= id
    ensures !IsApp(id)
  {
    assert id[0] == 's';
  }

  lemma AgentIssuedNamed(env: Env, b: Broker, call: nat, instance: string, jti: string)
    requires SpiffeLaw(env.p) && NamesOk(b)
    requires RegisterStep(env, b, IssueAgent(call, instance, jti)).Some?
    ensures NamesOk(RegisterStep(env, b, IssueAgent(call, instance, jti)).value)
  {
    var c := b.calls[call];
    var name := env.p.spiffeId(env.realm.trustDomain, c.req.orchId, c.req.taskId, instance);
    if name.Some? {
      SpiffeIsNoApp(env.p, name.value);
    }
  }

  lemma DelegateKeepsNames(env: Env, b: Broker, s: Step)
    requires NamesOk(b)
    requires s.BeginDelegate? || s.ExtendChain? || s.IssueDelegated?
    requires DelegateStep(env, b, s).Some?
    ensures NamesOk(DelegateStep(env, b, s).value)
  {
    if s.IssueDelegated? {
      assert CallNames(b.calls[s.call], b.calls[s.call].dreq.delegateTo);
    }
  }

  lemma RenewKeepsNames(env: Env, b: Broker, s: Step)
    requires NamesOk(b)
    requires s.BeginRenew? || s.RevokeOld? || s.IssueRenewed?
    requires RenewStep(env, b, s).Some?
    ensures NamesOk(RenewStep(env, b, s).value)
  {
    QuietKeepsNames(b, RenewStep(env, b, s).value);
  }

  lemma LaunchKeepsNames(env: Env, b: Broker, s: Step)
    requires NamesOk(b)
    requires s.BeginLaunch? || s.ReadCeiling? || s.StoreLaunch?
    requires LaunchStep(env, b, s).Some?
    ensures NamesOk(LaunchStep(env, b, s).value)
  {
    QuietKeepsNames(b, LaunchStep(env, b, s).value);
  }

  lemma LoginKeepsNames(env: Env, b: Broker, s: Step)
    requires NamesOk(b)
    requires s.BeginLogin? || s.IssueLogin?
    requires LoginStep(env, b, s).Some?
    ensures NamesOk(LoginStep(env, b, s).value)
  {
    QuietKeepsNames(b, LoginStep(env, b, s).value);
  }

  lemma NextKeepsNames(env: Env, b: Broker, s: Step)
    requires SpiffeLaw(env.p) && NamesOk(b) && Next(env, b, s).Some?
    ensures NamesOk(Next(env, b, s).value)
  {
    if s.ReadLaunch? || s.TakeNonce? || s.TakeLaunch? || s.IssueAgent? || s.RecordAgent? {
      RegisterKeepsNames(env, b, s);
    } else if s.BeginRenew? || s.RevokeOld? || s.IssueRenewed? {
      RenewKeepsNames(env, b, s);
    } else if s.BeginDelegate? || s.ExtendChain? || s.IssueDelegated? {
      DelegateKeepsNames(env, b, s);
    } else if s.BeginLaunch? || s.ReadCeiling? || s.StoreLaunch? {
      LaunchKeepsNames(env, b, s);
    } else if s.BeginLogin? || s.IssueLogin? {
      LoginKeepsNames(env, b, s);
    } else {
      OthersNameNobody(env, b, s);
      QuietKeepsNames(b, Next(env, b, s).value);
    }
  }

  lemma OthersNameNobody(env: Env, b: Broker, s: Step)
    requires Next(env, b, s).Some?
    requires s.Tick? || s.Restart? || s.CreateNonce? || s.ChangeApp? || s.AdminLogin? || s.BeginRegister? || s.Revoke?
    ensures NamesQuiet(b, Next(env, b, s).value)
  {
  }

  lemma {:induction false} RunKeepsNames(env: Env, b: Broker, steps: seq<Step>)
    requires SpiffeLaw(env.p) && NamesOk(b) && Run(env, b, steps).Some?
    ensures NamesOk(Run(env, b, steps).value)
  {
    if steps == [] {
    } else {
      RunKeepsNames(env, b, steps[..|steps| - 1]);
      NextKeepsNames(env, Run(env, b, steps[..|steps| - 1]).value, steps[|steps| - 1]);
    }
  }

  /** A token of this app. */
  predicate OfApp(b: Broker, i: nat, appId: string) {
    i < |b.issued| && b.issued[i].claims.sub == AppSub(appId)
  }

  lemma AdminIsNoApp()
    ensures !IsApp("admin")
  {
    assert "admin"[0] == 'a' && "admin"[1] == 'd';
  }

  /** An app's token comes from its login, through renewals only, and carries exactly the login's authority. */
  lemma {:induction false} AppTokenShape(env: Env, b: Broker, i: nat, appId: string)
    requires HistoryOk(env, b) && NamesOk(b) && OfApp(b, i, appId)
    ensures var c := b.issued[i].claims;
            c.scope == APP_SCOPE && c.taskId == "" && c.chain == []
    ensures match b.issued[i].origin
            case ByApp(a, _) => a == appId
            case ByRenewal(parent) => parent < i && OfApp(b, parent, appId)
            case _ => false
  {
    assert Justified(env, b, i);
    var sub := b.issued[i].claims.sub;
    assert IsApp(sub);
    match b.issued[i].origin
    case ByApp(a, _) => assert sub == AppSub(a) && sub[4..] == a;
    case ByRenewal(parent) => AppTokenShape(env, b, parent, appId);
    case ByAdmin => AdminIsNoApp();
    case ByLaunch(_, _, _, _) =>
    case ByDelegation(_, _, _) =>
  }

  lemma AppMayLaunch(c: TknClaims)
    requires c.scope == APP_SCOPE
    ensures MayLaunch(c)
  {
    LaunchTokensPlain();
    Scope.TextWellFormed("app", LAUNCH_TOKENS, "*");
    assert c.scope[0] == APP_LAUNCH;
    Scope.MemberWithin(APP_LAUNCH, c.scope);
  }
}
