/**
 Renewal replaces a token: the predecessor is revoked before the successor exists.
 Renewals of one token that do not overlap leave at most one live token a lineage;
 renewals that do overlap can leave two.
 */
module Renewal {
  import opened Wrappers
  import opened Clock
  import opened Claims
  import opened Store
  import opened Revocation
  import opened Tokens
  import opened Delegation
  import opened Identity
  import opened Admin
  import opened Broker
  import opened CallRuns
  import opened History
  import opened Provenance
  import opened Finality

  predicate RevokedJti(b: Broker, i: nat) {
    i < |b.issued| && b.issued[i].claims.jti in b.rev.tokens
  }

  predicate RenewsToken(c: Call, p: nat) {
    (c.Renewing? || c.Replacing?) && c.parent == p
  }

  // ---------- the predecessor is revoked first ----------

  ghost predicate ReplacingRevoked(b: Broker) {
    forall k | k in b.calls && b.calls[k].Replacing? :: RevokedJti(b, b.calls[k].parent)
  }

  lemma TokensGrow(env: Env, b: Broker, s: Step)
    requires Next(env, b, s).Some? && !s.Restart?
    ensures b.rev.tokens <= Next(env, b, s).value.rev.tokens
  {
  }

  /** No call starts or moves on with a renewal. */
  ghost predicate RenewalsQuiet(b: Broker, b': Broker) {
    forall k | k in b'.calls && (b'.calls[k].Renewing? || b'.calls[k].Replacing?) ::
      k in b.calls && b'.calls[k] == b.calls[k]
  }

  lemma RegisterRenewalsQuiet(env: Env, b: Broker, s: Step)
    requires s.ReadLaunch? || s.TakeNonce? || s.TakeLaunch? || s.IssueAgent? || s.RecordAgent?
    requires RegisterStep(env, b, s).Some?
    ensures RenewalsQuiet(b, RegisterStep(env, b, s).value)
  {
  }

  lemma DelegateRenewalsQuiet(env: Env, b: Broker, s: Step)
    requires s.BeginDelegate? || s.ExtendChain? || s.IssueDelegated?
    requires DelegateStep(env, b, s).Some?
    ensures RenewalsQuiet(b, DelegateStep(env, b, s).value)
  {
  }

  lemma LaunchRenewalsQuiet(env: Env, b: Broker, s: Step)
    requires s.BeginLaunch? || s.ReadCeiling? || s.StoreLaunch? || s.BeginLogin? || s.IssueLogin?
    requires Next(env, b, s).Some?
    ensures RenewalsQuiet(b, Next(env, b, s).value)
  {
  }

  lemma StepRenewalsQuiet(env: Env, b: Broker, s: Step)
    requires Next(env, b, s).Some? && !s.BeginRenew? && !s.RevokeOld? && !s.IssueRenewed?
    ensures RenewalsQuiet(b, Next(env, b, s).value)
  {
    if s.ReadLaunch? || s.TakeNonce? || s.TakeLaunch? || s.IssueAgent? || s.RecordAgent? {
      RegisterRenewalsQuiet(env, b, s);
    } else if s.BeginDelegate? || s.ExtendChain? || s.IssueDelegated? {
      DelegateRenewalsQuiet(env, b, s);
    } else if s.BeginLaunch? || s.ReadCeiling? || s.StoreLaunch? || s.BeginLogin? || s.IssueLogin? {
      LaunchRenewalsQuiet(env, b, s);
    }
  }

  lemma RenewStepReplaces(env: Env, b: Broker, s: Step, k: nat)
    requires s.BeginRenew? || s.RevokeOld? || s.IssueRenewed?
    requires RenewStep(env, b, s).Some?
    requires k in RenewStep(env, b, s).value.calls && RenewStep(env, b, s).value.calls[k].Replacing?
    ensures var b' := RenewStep(env, b, s).value;
            (k in b.calls && b.calls[k] == b'.calls[k]) || RevokedJti(b', b'.calls[k].parent)
  {
  }

  /** Calls that come to replace a token come from revoking it. */
  lemma CallsToReplace(env: Env, b: Broker, s: Step, k: nat)
    requires Next(env, b, s).Some? && k in Next(env, b, s).value.calls && Next(env, b, s).value.calls[k].Replacing?
    ensures (k in b.calls && b.calls[k] == Next(env, b, s).value.calls[k])
            || RevokedJti(Next(env, b, s).value, Next(env, b, s).value.calls[k].parent)
  {
    if s.BeginRenew? || s.RevokeOld? || s.IssueRenewed? {
      RenewStepReplaces(env, b, s, k);
    } else {
      StepRenewalsQuiet(env, b, s);
    }
  }

  lemma NextReplacing(env: Env, b: Broker, s: Step)
    requires ReplacingRevoked(b) && Next(env, b, s).Some?
    ensures ReplacingRevoked(Next(env, b, s).value)
  {
    var b' := Next(env, b, s).value;
    NextExtends(env, b, s);
    forall k | k in b'.calls && b'.calls[k].Replacing? ensures RevokedJti(b', b'.calls[k].parent) {
      CallsToReplace(env, b, s, k);
      if k in b.calls && b.calls[k] == b'.calls[k] {
        TokensGrow(env, b, s);
        assert b'.issued[b'.calls[k].parent] == b.issued[b'.calls[k].parent];
      }
    }
  }

  lemma {:induction false} RunReplacing(env: Env, start: int, steps: seq<Step>)
    requires Run(env, Start(start), steps).Some?
    ensures ReplacingRevoked(Run(env, Start(start), steps).value)
  {
    if steps == [] {
    } else {
      RunReplacing(env, start, steps[..|steps| - 1]);
      NextReplacing(env, Run(env, Start(start), steps[..|steps| - 1]).value, steps[|steps| - 1]);
    }
  }

  /** At every interleaving, when a renewed token is issued its predecessor is already revoked. */
  lemma PredecessorRevokedFirst(env: Env, start: int, steps: seq<Step>, call: nat, jti: string)
    requires Run(env, Start(start), steps).Some?
    requires Next(env, Run(env, Start(start), steps).value, IssueRenewed(call, jti)).Some?
    ensures var b := Run(env, Start(start), steps).value;
            var b' := Next(env, b, IssueRenewed(call, jti)).value;
            var n := |b.issued|;
            && |b'.issued| == n + 1 && b'.issued[n].origin.ByRenewal?
            && b'.issued[n].origin.parent < n
            && RevokedJti(b, b'.issued[n].origin.parent)
  {
    RunReplacing(env, start, steps);
  }

  // ---------- renewals that do not overlap ----------

  /** Nothing revoked so far would be lost by a restart. */
  predicate Intact(b: Broker) {
    AddAll(NothingRevoked, b.saved) == b.rev
  }

  /** The token is the first of its lineage or was renewed from it. */
  predicate InLineage(b: Broker, i: nat, first: nat) {
    i < |b.issued| && FirstOfLineage(b, i) == first
  }

  lemma {:induction false} LineageStable(b: Broker, b': Broker, i: nat)
    requires i < |b.issued| && b.issued <= b'.issued
    ensures FirstOfLineage(b', i) == FirstOfLineage(b, i)
  {
    assert b'.issued[i] == b.issued[i];
    if b.issued[i].origin.ByRenewal? && b.issued[i].origin.parent < i {
      LineageStable(b, b', b.issued[i].origin.parent);
    }
  }

  /** A restart would leave the revoked tokens of the lineage revoked. */
  ghost predicate LineageIntact(b: Broker, first: nat) {
    forall i: nat | InLineage(b, i, first) && RevokedJti(b, i) :: RevokedJti(Restarted(b), i)
  }

  /** As far as this lineage goes: no restart loses a revocation, and no renewal of a token begins during another. */
  ghost predicate CarefulStep(b: Broker, s: Step, first: nat) {
    && (s.Restart? ==> LineageIntact(b, first))
    && (s.BeginRenew? && InLineage(b, s.parent, first) ==> forall k | k in b.calls :: !RenewsToken(b.calls[k], s.parent))
  }

  ghost predicate CarefulRun(env: Env, b: Broker, steps: seq<Step>, first: nat) {
    steps == []
    || (&& CarefulRun(env, b, steps[..|steps| - 1], first)
        && match Run(env, b, steps[..|steps| - 1])
           case Some(mid) => CarefulStep(mid, steps[|steps| - 1], first)
           case None => true)
  }

  predicate ChildOf(b: Broker, i: nat, p: nat) {
    i < |b.issued| && b.issued[i].origin == ByRenewal(p)
  }

  ghost predicate ParentsRevoked(b: Broker, first: nat) {
    forall i: nat, p: nat | ChildOf(b, i, p) && InLineage(b, p, first) :: RevokedJti(b, p)
  }

  ghost predicate OneSuccessor(b: Broker, first: nat) {
    && (forall i: nat, j: nat, p: nat | InLineage(b, p, first) && ChildOf(b, i, p) && ChildOf(b, j, p) :: i == j)
    && (forall k, l, p: nat | InLineage(b, p, first) && k in b.calls && l in b.calls
                              && RenewsToken(b.calls[k], p) && RenewsToken(b.calls[l], p) :: k == l)
    && (forall k, i: nat, p: nat | InLineage(b, p, first) && k in b.calls && RenewsToken(b.calls[k], p) :: !ChildOf(b, i, p))
  }

  lemma ChildrenKept(env: Env, b: Broker, s: Step, i: nat, p: nat)
    requires Next(env, b, s).Some? && ChildOf(Next(env, b, s).value, i, p)
    ensures ChildOf(b, i, p) || (s.IssueRenewed? && i == |b.issued| && s.call in b.calls && b.calls[s.call] == Replacing(p))
  {
    NextExtends(env, b, s);
    if i < |b.issued| {
      assert Next(env, b, s).value.issued[i] == b.issued[i];
    } else if s.IssueRenewed? {
      assert Next(env, b, s) == RenewStep(env, b, s);
    } else {
      OthersRenewNothing(env, b, s, i);
    }
  }

  lemma OthersRenewNothing(env: Env, b: Broker, s: Step, i: nat)
    requires Next(env, b, s).Some? && !s.IssueRenewed? && |b.issued| <= i < |Next(env, b, s).value.issued|
    ensures !Next(env, b, s).value.issued[i].origin.ByRenewal?
  {
  }

  /** A renewed token stays revoked, unless a restart loses that revocation. */
  lemma ParentStaysRevoked(env: Env, b: Broker, s: Step, i: nat, p: nat)
    requires ReplacingRevoked(b) && Next(env, b, s).Some? && ChildOf(Next(env, b, s).value, i, p)
    requires ChildOf(b, i, p) ==> RevokedJti(b, p)
    requires s.Restart? && RevokedJti(b, p) ==> RevokedJti(Restarted(b), p)
    ensures p < |b.issued| && RevokedJti(Next(env, b, s).value, p)
  {
    NextExtends(env, b, s);
    ChildrenKept(env, b, s, i, p);
    assert Next(env, b, s).value.issued[p] == b.issued[p];
    if !s.Restart? {
      TokensGrow(env, b, s);
    }
  }

  lemma NextParentsRevoked(env: Env, b: Broker, s: Step, first: nat)
    requires HistoryOk(env, b) && ReplacingRevoked(b) && ParentsRevoked(b, first)
    requires Next(env, b, s).Some? && CarefulStep(b, s, first)
    ensures ParentsRevoked(Next(env, b, s).value, first)
  {
    var b' := Next(env, b, s).value;
    NextExtends(env, b, s);
    forall i: nat, p: nat | ChildOf(b', i, p) && InLineage(b', p, first) ensures RevokedJti(b', p) {
      ChildrenKept(env, b, s, i, p);
      ParentOld(env, b, i, p);
      LineageStable(b, b', p);
      ParentStaysRevoked(env, b, s, i, p);
    }
  }

  /** What has been or is being renewed has been issued. */
  lemma ParentOld(env: Env, b: Broker, i: nat, p: nat)
    requires HistoryOk(env, b)
    ensures ChildOf(b, i, p) ==> p < |b.issued|
    ensures i in b.calls && RenewsToken(b.calls[i], p) ==> p < |b.issued|
  {
    if ChildOf(b, i, p) {
      assert Justified(env, b, i);
    }
    if i in b.calls && RenewsToken(b.calls[i], p) {
      assert CallOk(b, b.calls[i]);
    }
  }

  /** Every restart of the run finds all revocations persisted. */
  predicate LossFreeRun(env: Env, b: Broker, steps: seq<Step>) {
    steps == []
    || (&& LossFreeRun(env, b, steps[..|steps| - 1])
        && match Run(env, b, steps[..|steps| - 1])
           case Some(mid) => steps[|steps| - 1].Restart? ==> Intact(mid)
           case None => true)
  }

  /** While restarts lose no revocation, every token ever renewed stays revoked, at every interleaving. */
  lemma {:induction false} PredecessorsStayRevoked(env: Env, start: int, steps: seq<Step>)
    requires Run(env, Start(start), steps).Some? && LossFreeRun(env, Start(start), steps)
    ensures var b := Run(env, Start(start), steps).value;
            forall i: nat, p: nat | ChildOf(b, i, p) :: RevokedJti(b, p)
  {
    if steps == [] {
    } else {
      var before, s := steps[..|steps| - 1], steps[|steps| - 1];
      var b, b' := Run(env, Start(start), before).value, Run(env, Start(start), steps).value;
      PredecessorsStayRevoked(env, start, before);
      RunReplacing(env, start, before);
      forall i: nat, p: nat | ChildOf(b', i, p) ensures RevokedJti(b', p) {
        ParentStaysRevoked(env, b, s, i, p);
      }
    }
  }

  /** A renewing call was there before, moved on from there, or has just begun on an admitted token. */
  lemma RenewersKept(env: Env, b: Broker, s: Step, k: nat, p: nat)
    requires Next(env, b, s).Some? && k in Next(env, b, s).value.calls
    requires RenewsToken(Next(env, b, s).value.calls[k], p)
    ensures (k in b.calls && RenewsToken(b.calls[k], p) && !(s.IssueRenewed? && s.call == k))
            || (s.BeginRenew? && s.call == k && s.parent == p && Admitted(env, b, p))
  {
    if s.BeginRenew? || s.RevokeOld? || s.IssueRenewed? {
      assert Next(env, b, s) == RenewStep(env, b, s);
    } else {
      StepRenewalsQuiet(env, b, s);
    }
  }

  /** A token that has been or is being renewed after a step was in the lineage before it. */
  lemma RenewedWasInLineage(env: Env, b: Broker, s: Step, x: nat, p: nat, first: nat)
    requires HistoryOk(env, b) && Next(env, b, s).Some? && InLineage(Next(env, b, s).value, p, first)
    requires var b' := Next(env, b, s).value;
             ChildOf(b', x, p) || (x in b'.calls && RenewsToken(b'.calls[x], p))
    ensures InLineage(b, p, first)
  {
    var b' := Next(env, b, s).value;
    NextExtends(env, b, s);
    if ChildOf(b', x, p) {
      ChildrenKept(env, b, s, x, p);
      ParentOld(env, b, if ChildOf(b, x, p) then x else s.call, p);
    } else {
      RenewersKept(env, b, s, x, p);
      ParentOld(env, b, x, p);
    }
    LineageStable(b, b', p);
  }

  lemma NoTwins(env: Env, b: Broker, s: Step, i: nat, j: nat, p: nat, first: nat)
    requires HistoryOk(env, b) && OneSuccessor(b, first) && Next(env, b, s).Some?
    requires var b' := Next(env, b, s).value;
             InLineage(b', p, first) && ChildOf(b', i, p) && ChildOf(b', j, p)
    ensures i == j
  {
    RenewedWasInLineage(env, b, s, i, p, first);
    ChildrenKept(env, b, s, i, p);
    ChildrenKept(env, b, s, j, p);
    if s.IssueRenewed? && s.call in b.calls && b.calls[s.call] == Replacing(p) {
      assert !ChildOf(b, i, p) && !ChildOf(b, j, p);
    }
  }

  lemma NoTwoRenewers(env: Env, b: Broker, s: Step, k: nat, l: nat, p: nat, first: nat)
    requires HistoryOk(env, b) && OneSuccessor(b, first) && Next(env, b, s).Some? && CarefulStep(b, s, first)
    requires var b' := Next(env, b, s).value;
             && InLineage(b', p, first) && k in b'.calls && l in b'.calls
             && RenewsToken(b'.calls[k], p) && RenewsToken(b'.calls[l], p)
    ensures k == l
  {
    RenewedWasInLineage(env, b, s, k, p, first);
    RenewersKept(env, b, s, k, p);
    RenewersKept(env, b, s, l, p);
  }

  lemma RenewerHasNoChild(env: Env, b: Broker, s: Step, k: nat, i: nat, p: nat, first: nat)
    requires HistoryOk(env, b) && ParentsRevoked(b, first) && OneSuccessor(b, first) && Next(env, b, s).Some?
    requires var b' := Next(env, b, s).value;
             InLineage(b', p, first) && k in b'.calls && RenewsToken(b'.calls[k], p)
    ensures !ChildOf(Next(env, b, s).value, i, p)
  {
    RenewedWasInLineage(env, b, s, k, p, first);
    RenewersKept(env, b, s, k, p);
    assert ChildOf(b, i, p) ==> RevokedJti(b, p);
    if ChildOf(Next(env, b, s).value, i, p) {
      ChildrenKept(env, b, s, i, p);
      assert false;
    }
  }

  lemma NextOneSuccessor(env: Env, b: Broker, s: Step, first: nat)
    requires HistoryOk(env, b) && ParentsRevoked(b, first) && OneSuccessor(b, first)
    requires Next(env, b, s).Some? && CarefulStep(b, s, first)
    ensures OneSuccessor(Next(env, b, s).value, first)
  {
    var b' := Next(env, b, s).value;
    forall i: nat, j: nat, p: nat | InLineage(b', p, first) && ChildOf(b', i, p) && ChildOf(b', j, p) ensures i == j {
      NoTwins(env, b, s, i, j, p, first);
    }
    forall k, l, p: nat | InLineage(b', p, first) && k in b'.calls && l in b'.calls
                          && RenewsToken(b'.calls[k], p) && RenewsToken(b'.calls[l], p)
      ensures k == l
    {
      NoTwoRenewers(env, b, s, k, l, p, first);
    }
    forall k, i: nat, p: nat | InLineage(b', p, first) && k in b'.calls && RenewsToken(b'.calls[k], p)
      ensures !ChildOf(b', i, p)
    {
      RenewerHasNoChild(env, b, s, k, i, p, first);
    }
  }

  lemma {:induction false} CarefulRunInvariant(env: Env, start: int, steps: seq<Step>, first: nat)
    requires Run(env, Start(start), steps).Some? && CarefulRun(env, Start(start), steps, first)
    ensures ParentsRevoked(Run(env, Start(start), steps).value, first)
    ensures OneSuccessor(Run(env, Start(start), steps).value, first)
  {
    if steps == [] {
    } else {
      var before := steps[..|steps| - 1];
      var b := Run(env, Start(start), before).value;
      CarefulRunInvariant(env, start, before, first);
      ReachableHistory(env, start, before);
      RunReplacing(env, start, before);
      NextParentsRevoked(env, b, steps[|steps| - 1], first);
      NextOneSuccessor(env, b, steps[|steps| - 1], first);
    }
  }

  /** Between an earlier and a later token of one lineage, the earlier has been renewed. */
  lemma {:induction false} EarlierWasRenewed(env: Env, b: Broker, i: nat, j: nat, first: nat) returns (c: nat)
    requires HistoryOk(env, b) && OneSuccessor(b, first) && i < j
    requires InLineage(b, i, first) && InLineage(b, j, first)
    ensures ChildOf(b, c, i) && c <= j
    decreases j, i
  {
    assert Justified(env, b, j);
    var p := b.issued[j].origin.parent;
    assert ChildOf(b, j, p);
    if p == i {
      c := j;
    } else if p > i {
      c := EarlierWasRenewed(env, b, i, p, first);
    } else {
      c := EarlierWasRenewed(env, b, p, i, first);
      assert false;
    }
  }

  /**
   A lineage whose tokens are never renewed twice at a time, and lose no revocation at a restart, has at most one
   unrevoked token, whatever happens to all other tokens.
   */
  lemma OneLiveTokenPerLineage(env: Env, start: int, steps: seq<Step>, first: nat, i: nat, j: nat)
    requires Run(env, Start(start), steps).Some? && CarefulRun(env, Start(start), steps, first)
    requires var b := Run(env, Start(start), steps).value;
             InLineage(b, i, first) && InLineage(b, j, first) && !RevokedJti(b, i) && !RevokedJti(b, j)
    ensures i == j
  {
    var b := Run(env, Start(start), steps).value;
    ReachableHistory(env, start, steps);
    CarefulRunInvariant(env, start, steps, first);
    if i < j {
      var c := EarlierWasRenewed(env, b, i, j, first);
    } else if j < i {
      var c := EarlierWasRenewed(env, b, j, i, first);
    }
  }

  // ---------- renewals that overlap ----------

  /** The claims of a renewal of an admitted token, issued now, are themselves admitted. */
  lemma RenewedIsAdmitted(env: Env, b: Broker, p: nat, rev: Revocations, jti: string)
    requires HistoryOk(env, b) && Unix(b.now) > 0 && Admitted(env, b, p)
    requires rev == Add(b.rev, Entry("token", b.issued[p].claims.jti)) && jti !in rev.tokens && jti != ""
    ensures var c := IssuedClaims(env.svc.cfg, RenewalReq(env.svc.cfg, b.issued[p].claims), Unix(b.now), jti);
            Admit(env.svc.cfg, Some(rev), c, Unix(b.now)) == Ok(c)
  {
    assert Justified(env, b, p);
    var pc := b.issued[p].claims;
    RenewalKeepsLifetime(env.svc.cfg, RequestOf(env, b, p), pc.iat, pc.jti, Unix(b.now), jti);
  }

  function OverlapSteps(k: nat, l: nat, jti: string, jti': string): seq<Step> {
    [RevokeOld(k, true), RevokeOld(l, true), IssueRenewed(k, jti), IssueRenewed(l, jti')]
  }

  /** The state after those steps. */
  function AfterOverlap(env: Env, b: Broker, k: nat, l: nat, p: nat, jti: string, jti': string): Broker
    requires p < |b.issued|
  {
    var pc := b.issued[p].claims;
    var b2 := BothReplacing(b, k, l, p);
    var b3 := SetCall(Append(env, b2, RenewalReq(env.svc.cfg, pc), jti, ByRenewal(p)), k, Returned);
    SetCall(Append(env, b3, RenewalReq(env.svc.cfg, pc), jti', ByRenewal(p)), l, Returned)
  }

  function BothReplacing(b: Broker, k: nat, l: nat, p: nat): Broker
    requires p < |b.issued|
  {
    var e := Entry("token", b.issued[p].claims.jti);
    SetCall(RevokeIn(SetCall(RevokeIn(b, e, true), k, Replacing(p)), e, true), l, Replacing(p))
  }

  lemma RevokeOldGoes(env: Env, b: Broker, k: nat, p: nat)
    requires p < |b.issued| && k in b.calls && b.calls[k] == Renewing(p)
    ensures Next(env, b, RevokeOld(k, true))
         == Some(SetCall(RevokeIn(b, Entry("token", b.issued[p].claims.jti), true), k, Replacing(p)))
  {
  }

  lemma OverlapRuns(env: Env, b: Broker, k: nat, l: nat, p: nat, jti: string, jti': string)
    requires p < |b.issued| && k != l && k in b.calls && l in b.calls && b.calls[k] == b.calls[l] == Renewing(p)
    requires jti != jti' && FreshJti(b, jti) && FreshJti(b, jti')
    ensures Run(env, b, OverlapSteps(k, l, jti, jti')) == Some(AfterOverlap(env, b, k, l, p, jti, jti'))
  {
    var pc := b.issued[p].claims;
    var b1 := SetCall(RevokeIn(b, Entry("token", pc.jti), true), k, Replacing(p));
    var b2 := BothReplacing(b, k, l, p);
    var b3 := SetCall(Append(env, b2, RenewalReq(env.svc.cfg, pc), jti, ByRenewal(p)), k, Returned);
    RevokeOldGoes(env, b, k, p);
    RevokeOldGoes(env, b1, l, p);
    IssueRenewedGoes(env, b2, k, p, jti);
    assert FreshJti(b3, jti');
    IssueRenewedGoes(env, b3, l, p, jti');
    FourSteps(env, b, OverlapSteps(k, l, jti, jti'), b1, b2, b3, AfterOverlap(env, b, k, l, p, jti, jti'));
  }

  /**
   As soon as two renewals of one admitted token are both past verification, the run can continue to two
   live tokens of one lineage, although every revocation is persisted.
   */
  lemma OverlapSplitsLineage(env: Env, b: Broker, k: nat, l: nat, p: nat, jti: string, jti': string)
    requires HistoryOk(env, b) && Unix(b.now) > 0 && Admitted(env, b, p)
    requires k != l && k in b.calls && l in b.calls && b.calls[k] == b.calls[l] == Renewing(p)
    requires jti != jti' && FreshJti(b, jti) && FreshJti(b, jti')
    requires jti !in b.rev.tokens && jti' !in b.rev.tokens
    ensures var after := Run(env, b, OverlapSteps(k, l, jti, jti'));
            var n := |b.issued|;
            && after.Some? && |after.value.issued| == n + 2
            && FirstOfLineage(after.value, n) == FirstOfLineage(after.value, n + 1) == FirstOfLineage(after.value, p)
            && Admitted(env, after.value, n) && Admitted(env, after.value, n + 1)
  {
    var after := AfterOverlap(env, b, k, l, p, jti, jti');
    OverlapRuns(env, b, k, l, p, jti, jti');
    SiblingsShareLineage(b, after, p);
    RenewedIsAdmitted(env, b, p, after.rev, jti);
    RenewedIsAdmitted(env, b, p, after.rev, jti');
  }

  lemma SiblingsShareLineage(b: Broker, after: Broker, p: nat)
    requires p < |b.issued| && b.issued <= after.issued && |after.issued| == |b.issued| + 2
    requires after.issued[|b.issued|].origin == after.issued[|b.issued| + 1].origin == ByRenewal(p)
    ensures FirstOfLineage(after, |b.issued|) == FirstOfLineage(after, p) == FirstOfLineage(after, |b.issued| + 1)
  {
  }

  /** Nothing prevents that overlap: a second renewal may begin while the first has only verified. */
  lemma OverlapCanBegin(env: Env, b: Broker, k: nat, l: nat, p: nat)
    requires Admitted(env, b, p) && k != l && k !in b.calls && l !in b.calls
    ensures var first := Next(env, b, BeginRenew(k, p));
            && first.Some? && Next(env, first.value, BeginRenew(l, p)).Some?
            && Next(env, first.value, BeginRenew(l, p)).value == b.(calls := b.calls[k := Renewing(p)][l := Renewing(p)])
  {
  }

  // ---------- a lost revocation ----------

  function LostSteps(call: nat, p: nat, jti: string): seq<Step> {
    [BeginRenew(call, p), RevokeOld(call, false), IssueRenewed(call, jti), Restart]
  }

  function AfterLost(env: Env, b: Broker, p: nat, jti: string): Broker
    requires p < |b.issued|
  {
    Restarted(Append(env, b, RenewalReq(env.svc.cfg, b.issued[p].claims), jti, ByRenewal(p)))
  }

  /**
   Without every revocation persisted the restart condition cannot be dropped: a renewal whose predecessor's revocation
   was not written leaves predecessor and successor both admitted after a restart.
   */
  lemma LostRevocationSplitsLineage(env: Env, b: Broker, call: nat, p: nat, jti: string)
    requires HistoryOk(env, b) && Unix(b.now) > 0 && Admitted(env, b, p) && call !in b.calls && FreshJti(b, jti)
    requires SavedInForce(b) && jti !in b.rev.tokens
    ensures var end := AfterLost(env, b, p, jti);
            && Run(env, b, LostSteps(call, p, jti)) == Some(end)
            && Admitted(env, end, p) && Admitted(env, end, |b.issued|)
            && FirstOfLineage(end, |b.issued|) == FirstOfLineage(end, p)
  {
    LostRuns(env, b, call, p, jti);
    LoadedOnlySaved(b);
    RenewedAfterRestart(env, b, p, jti);
  }

  lemma LoadedOnlySaved(b: Broker)
    requires SavedInForce(b)
    ensures var r := AddAll(NothingRevoked, b.saved);
            r.tokens <= b.rev.tokens && r.agents <= b.rev.agents && r.tasks <= b.rev.tasks && r.chains <= b.rev.chains
  {
    var r := AddAll(NothingRevoked, b.saved);
    forall e ensures Listed(r, e) ==> Listed(b.rev, e) {
      LoadLists(NothingRevoked, b.saved, e);
    }
    forall x | x in r.tokens ensures x in b.rev.tokens { assert Listed(r, Entry("token", x)); }
    forall x | x in r.agents ensures x in b.rev.agents { assert Listed(r, Entry("agent", x)); }
    forall x | x in r.tasks ensures x in b.rev.tasks { assert Listed(r, Entry("task", x)); }
    forall x | x in r.chains ensures x in b.rev.chains { assert Listed(r, Entry("chain", x)); }
  }

  lemma LostRuns(env: Env, b: Broker, call: nat, p: nat, jti: string)
    requires Admitted(env, b, p) && call !in b.calls && FreshJti(b, jti)
    ensures Run(env, b, LostSteps(call, p, jti)) == Some(AfterLost(env, b, p, jti))
  {
    var b2 := Replaced(b, call, p, false);
    var b3 := SetCall(Append(env, b2, RenewalReq(env.svc.cfg, b.issued[p].claims), jti, ByRenewal(p)), call, Returned);
    RenewOpens(env, b, call, p, false);
    IssueRenewedGoes(env, b2, call, p, jti);
    RestartGoes(env, b3);
    assert Restarted(b3) == AfterLost(env, b, p, jti);
    FourSteps(env, b, LostSteps(call, p, jti), SetCall(b, call, Renewing(p)), b2, b3, AfterLost(env, b, p, jti));
  }

  lemma RestartGoes(env: Env, b: Broker)
    ensures Next(env, b, Restart) == Some(Restarted(b))
  {
  }

  lemma RenewedAfterRestart(env: Env, b: Broker, p: nat, jti: string)
    requires HistoryOk(env, b) && Unix(b.now) > 0 && Admitted(env, b, p) && FreshJti(b, jti) && jti !in b.rev.tokens
    requires var r := AddAll(NothingRevoked, b.saved);
             r.tokens <= b.rev.tokens && r.agents <= b.rev.agents && r.tasks <= b.rev.tasks && r.chains <= b.rev.chains
    ensures var end := AfterLost(env, b, p, jti);
            && Admitted(env, end, p) && Admitted(env, end, |b.issued|)
            && FirstOfLineage(end, |b.issued|) == FirstOfLineage(end, p)
  {
    var end := AfterLost(env, b, p, jti);
    var pc := b.issued[p].claims;
    assert end.issued[p] == b.issued[p];
    RenewedIsAdmitted(env, b, p, Add(b.rev, Entry("token", pc.jti)), jti);
  }
}
