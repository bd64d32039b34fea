/**
 Registration under concurrency: single-use launch tokens and nonces are spent at
 most once, at every interleaving of any number of calls and across restarts.
 */
module Registration {
  import opened Wrappers
  import opened Clock
  import opened Claims
  import opened Store
  import opened Revocation
  import opened Tokens
  import opened Delegation
  import opened Identity
  import opened Admin
  import opened Broker
  import opened History

  /** Whoever can claim a nonce or a launch token: a call in flight or an issued token. */
  datatype Holder = InCall(call: nat) | InToken(index: nat)

  /** The nonce a call in flight has spent and may still issue for. */
  function CallNonce(c: Call): Option<string> {
    if c.HoldsNonce? || c.Cleared? then Some(c.req.nonce) else None
  }

  function NonceOf(b: Broker, h: Holder): Option<string> {
    match h
    case InCall(k) =>
      if k in b.calls then CallNonce(b.calls[k]) else None
    case InToken(i) =>
      if i < |b.issued| && b.issued[i].origin.ByLaunch? then Some(b.issued[i].origin.nonce) else None
  }

  predicate SingleUse(b: Broker, token: string) {
    token in b.grants && b.grants[token].rec.singleUse
  }

  /** The single-use launch token a call has spent and may still issue for. */
  function CallToken(b: Broker, c: Call): Option<string> {
    if c.Cleared? && SingleUse(b, c.req.launchToken) then Some(c.req.launchToken) else None
  }

  /** The single-use launch token a holder has spent. */
  function TokenOf(b: Broker, h: Holder): Option<string> {
    match h
    case InCall(k) =>
      if k in b.calls then CallToken(b, b.calls[k]) else None
    case InToken(i) =>
      if i < |b.issued| && b.issued[i].origin.ByLaunch? && SingleUse(b, b.issued[i].origin.token)
      then Some(b.issued[i].origin.token) else None
  }

  predicate NonceSpent(b: Broker, n: string) {
    n in b.nonceBorn && (n in b.mem.nonces ==> b.mem.nonces[n].consumed)
  }

  predicate TokenSpent(b: Broker, t: string) {
    t in b.grants && (t in b.mem.launchTokens ==> b.mem.launchTokens[t].consumedAt.Some?)
  }

  ghost predicate NoncesExclusive(b: Broker) {
    && (forall h | NonceOf(b, h).Some? :: NonceSpent(b, NonceOf(b, h).value))
    && (forall h, h' | h != h' && NonceOf(b, h).Some? :: NonceOf(b, h) != NonceOf(b, h'))
  }

  ghost predicate TokensExclusive(b: Broker) {
    && (forall h | TokenOf(b, h).Some? :: TokenSpent(b, TokenOf(b, h).value))
    && (forall h, h' | h != h' && TokenOf(b, h).Some? :: TokenOf(b, h) != TokenOf(b, h'))
  }

  // ---------- nonces ----------

  /** No holder gains a nonce and no nonce is restored. */
  lemma NoncesQuiet(b: Broker, b': Broker)
    requires NoncesExclusive(b)
    requires forall h :: NonceOf(b', h) == NonceOf(b, h) || NonceOf(b', h) == None
    requires forall n | NonceSpent(b, n) :: NonceSpent(b', n)
    ensures NoncesExclusive(b')
  {
    forall h | NonceOf(b', h).Some? ensures NonceSpent(b', NonceOf(b', h).value) {
      assert NonceOf(b, h) == NonceOf(b', h);
    }
    forall h, h' | h != h' && NonceOf(b', h).Some? ensures NonceOf(b', h) != NonceOf(b', h') {
      assert NonceOf(b, h) == NonceOf(b', h);
      assert NonceOf(b', h') == NonceOf(b, h') || NonceOf(b', h') == None;
    }
  }

  /** One holder gains a nonce that nobody held, or takes it over from another. */
  lemma NonceMoves(b: Broker, b': Broker, n: string, to: Holder)
    requires NoncesExclusive(b)
    requires forall h | h != to :: NonceOf(b', h) == NonceOf(b, h) || NonceOf(b', h) == None
    requires forall h | h != to :: NonceOf(b', h) != Some(n)
    requires NonceOf(b', to) == Some(n) && NonceSpent(b', n)
    requires forall m | NonceSpent(b, m) :: NonceSpent(b', m)
    ensures NoncesExclusive(b')
  {
    forall h, h' | h != h' && NonceOf(b', h).Some? ensures NonceOf(b', h) != NonceOf(b', h') {
      if h != to && h' != to {
        assert NonceOf(b, h) == NonceOf(b', h);
        assert NonceOf(b', h') == NonceOf(b, h') || NonceOf(b', h') == None;
      }
    }
    forall h | NonceOf(b', h).Some? ensures NonceSpent(b', NonceOf(b', h).value) {
      if h != to {
        assert NonceOf(b, h) == NonceOf(b', h);
      }
    }
  }

  /** A call that lets its nonce go, or takes one that was not spent before. */
  lemma CallNonceSet(b: Broker, m: Memory, call: nat, c: Call)
    requires NoncesExclusive(b)
    requires forall n | NonceSpent(b, n) :: NonceSpent(b.(mem := m), n)
    requires CallNonce(c).Some? ==> !NonceSpent(b, CallNonce(c).value) && NonceSpent(b.(mem := m), CallNonce(c).value)
    ensures NoncesExclusive(SetCall(b.(mem := m), call, c))
  {
    var b' := SetCall(b.(mem := m), call, c);
    forall n | NonceSpent(b, n) ensures NonceSpent(b', n) {
      assert NonceSpent(b.(mem := m), n);
    }
    forall h | h != InCall(call) ensures NonceOf(b', h) == NonceOf(b, h) {
    }
    if CallNonce(c).Some? {
      forall h | h != InCall(call) ensures NonceOf(b', h) != CallNonce(c) {
        assert NonceOf(b, h).Some? ==> NonceSpent(b, NonceOf(b, h).value);
      }
      NonceMoves(b, b', CallNonce(c).value, InCall(call));
    } else {
      NoncesQuiet(b, b');
    }
  }

  /** Consuming a nonce keeps what is spent and, when it succeeds, spends one that was not. */
  lemma NonceTaken(env: Env, b: Broker, req: RegisterReq)
    requires MemoryOk(b)
    ensures var (m, err) := SpendNonce(env.p, b.mem, req, b.now);
            && (forall n | NonceSpent(b, n) :: NonceSpent(b.(mem := m), n))
            && (err.None? ==> !NonceSpent(b, req.nonce) && NonceSpent(b.(mem := m), req.nonce))
  {
  }

  lemma TakeNonceExclusive(env: Env, b: Broker, call: nat)
    requires HistoryOk(env, b) && NoncesExclusive(b)
    requires RegisterStep(env, b, TakeNonce(call)).Some?
    ensures NoncesExclusive(RegisterStep(env, b, TakeNonce(call)).value)
  {
    var c := b.calls[call];
    var (m, err) := SpendNonce(env.p, b.mem, c.req, b.now);
    NonceTaken(env, b, c.req);
    CallNonceSet(b, m, call, if err.Some? then Returned else HoldsNonce(c.req, c.rec, c.readAt, b.now));
  }

  /** The nonce of a call passes to the token it issues. */
  lemma NonceIssued(b: Broker, e: Issued, call: nat, c: Call)
    requires NoncesExclusive(b) && e.origin.ByLaunch? && CallNonce(c).None?
    requires call in b.calls && CallNonce(b.calls[call]) == Some(e.origin.nonce)
    ensures NoncesExclusive(SetCall(b.(issued := b.issued + [e]), call, c))
  {
    var b' := SetCall(b.(issued := b.issued + [e]), call, c);
    var n, from, to := e.origin.nonce, InCall(call), InToken(|b.issued|);
    assert NonceOf(b, from) == Some(n);
    forall h | h != to ensures NonceOf(b', h) != Some(n) && (NonceOf(b', h) == NonceOf(b, h) || NonceOf(b', h) == None) {
      if h != from {
        assert NonceOf(b', h) == NonceOf(b, h);
        assert NonceOf(b, from) != NonceOf(b, h);
      }
    }
    assert NonceSpent(b, n);
    NonceMoves(b, b', n, to);
  }

  lemma IssueAgentNonces(env: Env, b: Broker, call: nat, instance: string, jti: string)
    requires NoncesExclusive(b)
    requires RegisterStep(env, b, IssueAgent(call, instance, jti)).Some?
    ensures NoncesExclusive(RegisterStep(env, b, IssueAgent(call, instance, jti)).value)
  {
    var b' := RegisterStep(env, b, IssueAgent(call, instance, jti)).value;
    if b'.issued == b.issued {
      CallNonceSet(b, b.mem, call, Returned);
    } else {
      NonceIssued(b, b'.issued[|b.issued|], call, b'.calls[call]);
    }
  }

  lemma NextNonces(env: Env, b: Broker, s: Step)
    requires HistoryOk(env, b) && NoncesExclusive(b) && Next(env, b, s).Some?
    ensures NoncesExclusive(Next(env, b, s).value)
  {
    var b' := Next(env, b, s).value;
    if s.TakeNonce? {
      TakeNonceExclusive(env, b, s.call);
    } else if s.IssueAgent? {
      IssueAgentNonces(env, b, s.call, s.instance, s.jti);
    } else {
      StepNoncesQuiet(env, b, s);
      NonceUsesShrink(b, b');
      NoncesQuiet(b, b');
    }
  }

  /** No call and no registration gains a nonce, and no nonce is restored. */
  ghost predicate NoncesUndisturbed(b: Broker, b': Broker) {
    && Extends(b, b')
    && (forall k | k in b'.calls && CallNonce(b'.calls[k]).Some? ::
          k in b.calls && CallNonce(b.calls[k]) == CallNonce(b'.calls[k]))
    && (forall i | |b.issued| <= i < |b'.issued| :: !b'.issued[i].origin.ByLaunch?)
    && (forall n | NonceSpent(b, n) :: NonceSpent(b', n))
  }

  lemma RegisterNoncesQuiet(env: Env, b: Broker, s: Step)
    requires s.ReadLaunch? || s.TakeLaunch? || s.RecordAgent?
    requires RegisterStep(env, b, s).Some?
    ensures NoncesUndisturbed(b, RegisterStep(env, b, s).value)
  {
  }

  lemma RenewNoncesQuiet(env: Env, b: Broker, s: Step)
    requires s.BeginRenew? || s.RevokeOld? || s.IssueRenewed?
    requires RenewStep(env, b, s).Some?
    ensures NoncesUndisturbed(b, RenewStep(env, b, s).value)
  {
  }

  lemma DelegateNoncesQuiet(env: Env, b: Broker, s: Step)
    requires s.BeginDelegate? || s.ExtendChain? || s.IssueDelegated?
    requires DelegateStep(env, b, s).Some?
    ensures NoncesUndisturbed(b, DelegateStep(env, b, s).value)
  {
  }

  lemma LaunchNoncesQuiet(env: Env, b: Broker, s: Step)
    requires s.BeginLaunch? || s.ReadCeiling? || s.StoreLaunch?
    requires LaunchStep(env, b, s).Some?
    ensures NoncesUndisturbed(b, LaunchStep(env, b, s).value)
  {
  }

  lemma LoginNoncesQuiet(env: Env, b: Broker, s: Step)
    requires s.BeginLogin? || s.IssueLogin?
    requires LoginStep(env, b, s).Some?
    ensures NoncesUndisturbed(b, LoginStep(env, b, s).value)
  {
  }

  lemma StepNoncesQuiet(env: Env, b: Broker, s: Step)
    requires Next(env, b, s).Some? && !s.TakeNonce? && !s.IssueAgent?
    ensures NoncesUndisturbed(b, Next(env, b, s).value)
  {
    if s.ReadLaunch? || s.TakeLaunch? || s.RecordAgent? {
      RegisterNoncesQuiet(env, b, s);
    } else if s.BeginRenew? || s.RevokeOld? || s.IssueRenewed? {
      RenewNoncesQuiet(env, b, s);
    } else if s.BeginDelegate? || s.ExtendChain? || s.IssueDelegated? {
      DelegateNoncesQuiet(env, b, s);
    } else if s.BeginLaunch? || s.ReadCeiling? || s.StoreLaunch? {
      LaunchNoncesQuiet(env, b, s);
    } else if s.BeginLogin? || s.IssueLogin? {
      LoginNoncesQuiet(env, b, s);
    } else {
      NextExtends(env, b, s);
    }
  }

  lemma NonceUsesShrink(b: Broker, b': Broker)
    requires NoncesUndisturbed(b, b')
    ensures forall h :: NonceOf(b', h) == NonceOf(b, h) || NonceOf(b', h) == None
  {
    forall h ensures NonceOf(b', h) == NonceOf(b, h) || NonceOf(b', h) == None {
      match h
      case InToken(i) =>
        if i < |b.issued| {
          assert b'.issued[i] == b.issued[i];
        }
      case InCall(_) =>
    }
  }

  // ---------- single-use launch tokens ----------

  lemma TokensQuiet(b: Broker, b': Broker)
    requires TokensExclusive(b)
    requires forall h :: TokenOf(b', h) == TokenOf(b, h) || TokenOf(b', h) == None
    requires forall t | TokenSpent(b, t) :: TokenSpent(b', t)
    ensures TokensExclusive(b')
  {
    forall h | TokenOf(b', h).Some? ensures TokenSpent(b', TokenOf(b', h).value) {
      assert TokenOf(b, h) == TokenOf(b', h);
    }
    forall h, h' | h != h' && TokenOf(b', h).Some? ensures TokenOf(b', h) != TokenOf(b', h') {
      assert TokenOf(b, h) == TokenOf(b', h);
      assert TokenOf(b', h') == TokenOf(b, h') || TokenOf(b', h') == None;
    }
  }

  lemma TokenMoves(b: Broker, b': Broker, t: string, to: Holder)
    requires TokensExclusive(b)
    requires forall h | h != to :: TokenOf(b', h) == TokenOf(b, h) || TokenOf(b', h) == None
    requires forall h | h != to :: TokenOf(b', h) != Some(t)
    requires TokenOf(b', to) == Some(t) && TokenSpent(b', t)
    requires forall m | TokenSpent(b, m) :: TokenSpent(b', m)
    ensures TokensExclusive(b')
  {
    forall h, h' | h != h' && TokenOf(b', h).Some? ensures TokenOf(b', h) != TokenOf(b', h') {
      if h != to && h' != to {
        assert TokenOf(b, h) == TokenOf(b', h);
        assert TokenOf(b', h') == TokenOf(b, h') || TokenOf(b', h') == None;
      }
    }
    forall h | TokenOf(b', h).Some? ensures TokenSpent(b', TokenOf(b', h).value) {
      if h != to {
        assert TokenOf(b, h) == TokenOf(b', h);
      }
    }
  }

  /** A call that lets its launch token go, or takes one that was not spent before. */
  lemma CallTokenSet(b: Broker, m: Memory, call: nat, c: Call)
    requires TokensExclusive(b)
    requires forall t | TokenSpent(b, t) :: TokenSpent(b.(mem := m), t)
    requires CallToken(b, c).Some? ==>
               !TokenSpent(b, CallToken(b, c).value) && TokenSpent(b.(mem := m), CallToken(b, c).value)
    ensures TokensExclusive(SetCall(b.(mem := m), call, c))
  {
    var b' := SetCall(b.(mem := m), call, c);
    forall t | TokenSpent(b, t) ensures TokenSpent(b', t) {
      assert TokenSpent(b.(mem := m), t);
    }
    forall h | h != InCall(call) ensures TokenOf(b', h) == TokenOf(b, h) {
    }
    if CallToken(b, c).Some? {
      forall h | h != InCall(call) ensures TokenOf(b', h) != CallToken(b, c) {
        assert TokenOf(b, h).Some? ==> TokenSpent(b, TokenOf(b, h).value);
      }
      TokenMoves(b, b', CallToken(b, c).value, InCall(call));
    } else {
      TokensQuiet(b, b');
    }
  }

  /** Consuming a launch token keeps what is spent and, when it succeeds, spends one that was not. */
  lemma LaunchTaken(b: Broker, req: RegisterReq, rec: LaunchToken)
    requires MemoryOk(b) && req.launchToken in b.grants
    ensures var (m, err) := SpendLaunch(b.mem, req, rec, b.now);
            && (forall t | TokenSpent(b, t) :: TokenSpent(b.(mem := m), t))
            && (err.None? && rec.singleUse ==> !TokenSpent(b, req.launchToken) && TokenSpent(b.(mem := m), req.launchToken))
  {
  }

  lemma TakeLaunchExclusive(env: Env, b: Broker, call: nat)
    requires HistoryOk(env, b) && TokensExclusive(b)
    requires RegisterStep(env, b, TakeLaunch(call)).Some?
    ensures TokensExclusive(RegisterStep(env, b, TakeLaunch(call)).value)
  {
    var c := b.calls[call];
    assert CallOk(b, c);
    var (m, err) := SpendLaunch(b.mem, c.req, c.rec, b.now);
    LaunchTaken(b, c.req, c.rec);
    CallTokenSet(b, m, call, if err.Some? then Returned else Cleared(c.req, c.rec, c.readAt, c.usedAt));
  }

  /** The launch token of a call passes to the token it issues. */
  lemma LaunchIssued(b: Broker, e: Issued, call: nat, c: Call)
    requires TokensExclusive(b) && e.origin.ByLaunch? && !c.Cleared?
    requires call in b.calls && b.calls[call].Cleared? && b.calls[call].req.launchToken == e.origin.token
    ensures TokensExclusive(SetCall(b.(issued := b.issued + [e]), call, c))
  {
    var b' := SetCall(b.(issued := b.issued + [e]), call, c);
    var t, from, to := e.origin.token, InCall(call), InToken(|b.issued|);
    if SingleUse(b, t) {
      assert TokenOf(b, from) == Some(t);
      forall h | h != to ensures TokenOf(b', h) != Some(t) && (TokenOf(b', h) == TokenOf(b, h) || TokenOf(b', h) == None) {
        if h != from {
          assert TokenOf(b', h) == TokenOf(b, h);
          assert TokenOf(b, from) != TokenOf(b, h);
        }
      }
      assert TokenSpent(b, t);
      TokenMoves(b, b', t, to);
    } else {
      TokensQuiet(b, b');
    }
  }

  lemma IssueAgentTokens(env: Env, b: Broker, call: nat, instance: string, jti: string)
    requires TokensExclusive(b)
    requires RegisterStep(env, b, IssueAgent(call, instance, jti)).Some?
    ensures TokensExclusive(RegisterStep(env, b, IssueAgent(call, instance, jti)).value)
  {
    var b' := RegisterStep(env, b, IssueAgent(call, instance, jti)).value;
    if b'.issued == b.issued {
      CallTokenSet(b, b.mem, call, Returned);
    } else {
      LaunchIssued(b, b'.issued[|b.issued|], call, b'.calls[call]);
    }
  }

  /** No call becomes cleared, no registration issues, and no launch token is restored. */
  ghost predicate LaunchesQuiet(b: Broker, b': Broker) {
    && Extends(b, b')
    && (forall k | k in b'.calls && b'.calls[k].Cleared? :: k in b.calls && b'.calls[k] == b.calls[k])
    && (forall i | |b.issued| <= i < |b'.issued| :: !b'.issued[i].origin.ByLaunch?)
    && (forall t | TokenSpent(b, t) :: TokenSpent(b', t))
  }

  lemma RegisterLaunchesQuiet(env: Env, b: Broker, s: Step)
    requires s.ReadLaunch? || s.TakeNonce? || s.RecordAgent?
    requires RegisterStep(env, b, s).Some?
    ensures LaunchesQuiet(b, RegisterStep(env, b, s).value)
  {
    if s.TakeNonce? {
      NonceLeavesLaunches(env, b, s.call);
    }
  }

  lemma NonceLeavesLaunches(env: Env, b: Broker, call: nat)
    requires RegisterStep(env, b, TakeNonce(call)).Some?
    ensures LaunchesQuiet(b, RegisterStep(env, b, TakeNonce(call)).value)
  {
    assert SpendNonce(env.p, b.mem, b.calls[call].req, b.now).0.launchTokens == b.mem.launchTokens;
  }

  lemma RenewLaunchesQuiet(env: Env, b: Broker, s: Step)
    requires s.BeginRenew? || s.RevokeOld? || s.IssueRenewed?
    requires RenewStep(env, b, s).Some?
    ensures LaunchesQuiet(b, RenewStep(env, b, s).value)
  {
  }

  lemma DelegateLaunchesQuiet(env: Env, b: Broker, s: Step)
    requires s.BeginDelegate? || s.ExtendChain? || s.IssueDelegated?
    requires DelegateStep(env, b, s).Some?
    ensures LaunchesQuiet(b, DelegateStep(env, b, s).value)
  {
  }

  lemma LaunchTokensQuiet(env: Env, b: Broker, s: Step)
    requires s.BeginLaunch? || s.ReadCeiling? || s.StoreLaunch?
    requires LaunchStep(env, b, s).Some?
    ensures LaunchesQuiet(b, LaunchStep(env, b, s).value)
  {
  }

  lemma LoginLaunchesQuiet(env: Env, b: Broker, s: Step)
    requires s.BeginLogin? || s.IssueLogin?
    requires LoginStep(env, b, s).Some?
    ensures LaunchesQuiet(b, LoginStep(env, b, s).value)
  {
  }

  lemma StepLaunchesQuiet(env: Env, b: Broker, s: Step)
    requires Next(env, b, s).Some? && !s.TakeLaunch? && !s.IssueAgent?
    ensures LaunchesQuiet(b, Next(env, b, s).value)
  {
    if s.ReadLaunch? || s.TakeNonce? || s.RecordAgent? {
      RegisterLaunchesQuiet(env, b, s);
    } else if s.BeginRenew? || s.RevokeOld? || s.IssueRenewed? {
      RenewLaunchesQuiet(env, b, s);
    } else if s.BeginDelegate? || s.ExtendChain? || s.IssueDelegated? {
      DelegateLaunchesQuiet(env, b, s);
    } else if s.BeginLaunch? || s.ReadCeiling? || s.StoreLaunch? {
      LaunchTokensQuiet(env, b, s);
    } else if s.BeginLogin? || s.IssueLogin? {
      LoginLaunchesQuiet(env, b, s);
    } else {
      NextExtends(env, b, s);
    }
  }

  lemma TokenUsesShrink(env: Env, b: Broker, b': Broker)
    requires HistoryOk(env, b) && LaunchesQuiet(b, b')
    ensures forall h :: TokenOf(b', h) == TokenOf(b, h) || TokenOf(b', h) == None
  {
    forall h ensures TokenOf(b', h) == TokenOf(b, h) || TokenOf(b', h) == None {
      match h
      case InToken(i) =>
        if i < |b.issued| {
          assert Justified(env, b, i);
          assert b'.issued[i] == b.issued[i];
        }
      case InCall(k) =>
        if k in b.calls {
          assert CallOk(b, b.calls[k]);
        }
    }
  }

  lemma NextTokens(env: Env, b: Broker, s: Step)
    requires HistoryOk(env, b) && TokensExclusive(b) && Next(env, b, s).Some?
    ensures TokensExclusive(Next(env, b, s).value)
  {
    if s.TakeLaunch? {
      TakeLaunchExclusive(env, b, s.call);
    } else if s.IssueAgent? {
      IssueAgentTokens(env, b, s.call, s.instance, s.jti);
    } else {
      StepLaunchesQuiet(env, b, s);
      TokenUsesShrink(env, b, Next(env, b, s).value);
      TokensQuiet(b, Next(env, b, s).value);
    }
  }

  // ---------- whole runs ----------

  lemma {:induction false} RunExclusive(env: Env, start: int, steps: seq<Step>)
    requires Run(env, Start(start), steps).Some?
    ensures HistoryOk(env, Run(env, Start(start), steps).value)
    ensures NoncesExclusive(Run(env, Start(start), steps).value)
    ensures TokensExclusive(Run(env, Start(start), steps).value)
  {
    ReachableHistory(env, start, steps);
    if steps == [] {
    } else {
      var before := steps[..|steps| - 1];
      RunExclusive(env, start, before);
      var b := Run(env, Start(start), before).value;
      NextNonces(env, b, steps[|steps| - 1]);
      NextTokens(env, b, steps[|steps| - 1]);
    }
  }

  /** At every interleaving, a single-use launch token yields at most one issued agent token. */
  lemma SingleUseIssuesOnce(env: Env, start: int, steps: seq<Step>, i: nat, j: nat)
    requires Run(env, Start(start), steps).Some?
    requires var b := Run(env, Start(start), steps).value;
             && i < |b.issued| && j < |b.issued|
             && b.issued[i].origin.ByLaunch? && b.issued[j].origin.ByLaunch?
             && b.issued[i].origin.token == b.issued[j].origin.token
             && SingleUse(b, b.issued[i].origin.token)
    ensures i == j
  {
    RunExclusive(env, start, steps);
    var b := Run(env, Start(start), steps).value;
    assert TokenOf(b, InToken(i)) == TokenOf(b, InToken(j));
  }

  /** Two registrations never share a nonce, and each nonce is consumed within 30 seconds of its creation. */
  lemma NoncesUsedOnceInTime(env: Env, start: int, steps: seq<Step>)
    requires Run(env, Start(start), steps).Some?
    ensures var b := Run(env, Start(start), steps).value;
            && (forall i, j | 0 <= i < j < |b.issued| && b.issued[i].origin.ByLaunch? && b.issued[j].origin.ByLaunch? ::
                  b.issued[i].origin.nonce != b.issued[j].origin.nonce)
            && (forall i | 0 <= i < |b.issued| && b.issued[i].origin.ByLaunch? ::
                  var n := b.issued[i].origin.nonce;
                  n in b.nonceBorn && 0 <= b.issued[i].origin.usedAt - b.nonceBorn[n] <= 30_000_000_000)
  {
    RunExclusive(env, start, steps);
    var b := Run(env, Start(start), steps).value;
    forall i | 0 <= i < |b.issued| && b.issued[i].origin.ByLaunch?
      ensures LaunchUse(b, b.issued[i].origin.token, b.issued[i].claims.scope, b.issued[i].origin.nonce,
                        b.issued[i].origin.readAt, b.issued[i].origin.usedAt)
    {
      assert Justified(env, b, i);
    }
    forall i, j | 0 <= i < j < |b.issued| && b.issued[i].origin.ByLaunch? && b.issued[j].origin.ByLaunch?
      ensures b.issued[i].origin.nonce != b.issued[j].origin.nonce
    {
      assert NonceOf(b, InToken(i)) != NonceOf(b, InToken(j));
    }
  }
}
