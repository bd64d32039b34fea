/**
 Revocation over whole runs: it is never undone, it survives restarts when it was
 persisted, and it reaches every descendant of the tokens it names, also those
 issued afterwards.
 */
module Finality {
  import opened Wrappers
  import opened Clock
  import opened Claims
  import opened Crypto
  import opened Store
  import opened Revocation
  import opened Tokens
  import opened Delegation
  import opened Identity
  import opened Admin
  import opened Broker
  import opened History
  import opened Provenance

  /** Every persisted revocation is in force. */
  ghost predicate SavedInForce(b: Broker) {
    forall e | e in b.saved :: KnownLevel(e.level) && Listed(b.rev, e)
  }

  /** The entry a step revokes. */
  function AddedEntry(b: Broker, s: Step): Option<Entry> {
    match s
    case Revoke(level, target, _) => Some(Entry(level, target))
    case RevokeOld(call, _) =>
      if call in b.calls && b.calls[call].Renewing? && b.calls[call].parent < |b.issued|
      then Some(Entry("token", b.issued[b.calls[call].parent].claims.jti)) else None
    case _ => None
  }

  lemma RegisterRevokesNothing(env: Env, b: Broker, s: Step)
    requires s.ReadLaunch? || s.TakeNonce? || s.TakeLaunch? || s.IssueAgent? || s.RecordAgent?
    requires RegisterStep(env, b, s).Some?
    ensures var b' := RegisterStep(env, b, s).value;
            b'.rev == b.rev && b'.saved == b.saved
  {
  }

  lemma DelegateRevokesNothing(env: Env, b: Broker, s: Step)
    requires s.BeginDelegate? || s.ExtendChain? || s.IssueDelegated?
    requires DelegateStep(env, b, s).Some?
    ensures var b' := DelegateStep(env, b, s).value;
            b'.rev == b.rev && b'.saved == b.saved
  {
  }

  lemma LaunchRevokesNothing(env: Env, b: Broker, s: Step)
    requires s.BeginLaunch? || s.ReadCeiling? || s.StoreLaunch? || s.BeginLogin? || s.IssueLogin?
    requires Next(env, b, s).Some?
    ensures var b' := Next(env, b, s).value;
            b'.rev == b.rev && b'.saved == b.saved
  {
  }

  predicate DbOk(s: Step) {
    (s.Revoke? ==> s.dbOk) && (s.RevokeOld? ==> s.dbOk)
  }

  /** What a step other than a restart does to the revocations, in memory and in the table. */
  lemma StepRevokes(env: Env, b: Broker, s: Step)
    requires Next(env, b, s).Some? && !s.Restart?
    ensures var b' := Next(env, b, s).value;
            match AddedEntry(b, s)
            case Some(e) =>
              && KnownLevel(e.level) && b'.rev == Add(b.rev, e)
              && b'.saved == if DbOk(s) then Inserted(b.saved, e) else b.saved
            case None => b'.rev == b.rev && b'.saved == b.saved
  {
    if s.ReadLaunch? || s.TakeNonce? || s.TakeLaunch? || s.IssueAgent? || s.RecordAgent? {
      RegisterRevokesNothing(env, b, s);
    } else if s.BeginDelegate? || s.ExtendChain? || s.IssueDelegated? {
      DelegateRevokesNothing(env, b, s);
    } else if s.BeginLaunch? || s.ReadCeiling? || s.StoreLaunch? || s.BeginLogin? || s.IssueLogin? {
      LaunchRevokesNothing(env, b, s);
    }
  }

  lemma NextKeepsSaved(env: Env, b: Broker, s: Step)
    requires SavedInForce(b) && Next(env, b, s).Some?
    ensures SavedInForce(Next(env, b, s).value)
  {
    var b' := Next(env, b, s).value;
    if s.Restart? {
      forall e | e in b'.saved ensures KnownLevel(e.level) && Listed(b'.rev, e) {
        LoadLists(NothingRevoked, b.saved, e);
      }
    } else {
      StepRevokes(env, b, s);
    }
  }

  /** A listed entry stays listed; only a restart can drop it, and only if it was not persisted. */
  lemma NextKeepsListed(env: Env, b: Broker, s: Step, e: Entry)
    requires SavedInForce(b) && Next(env, b, s).Some? && Listed(b.rev, e) && (e in b.saved || !s.Restart?)
    ensures Listed(Next(env, b, s).value.rev, e)
    ensures e in b.saved ==> e in Next(env, b, s).value.saved
  {
    if s.Restart? {
      LoadLists(NothingRevoked, b.saved, e);
    } else {
      StepRevokes(env, b, s);
    }
  }

  lemma {:induction false} RunKeepsSaved(env: Env, b: Broker, steps: seq<Step>)
    requires SavedInForce(b) && Run(env, b, steps).Some?
    ensures SavedInForce(Run(env, b, steps).value)
  {
    if steps == [] {
    } else {
      RunKeepsSaved(env, b, steps[..|steps| - 1]);
      NextKeepsSaved(env, Run(env, b, steps[..|steps| - 1]).value, steps[|steps| - 1]);
    }
  }

  predicate NoRestart(steps: seq<Step>) {
    forall i | 0 <= i < |steps| :: !steps[i].Restart?
  }

  lemma {:induction false} RunKeepsListed(env: Env, b: Broker, steps: seq<Step>, e: Entry)
    requires SavedInForce(b) && Run(env, b, steps).Some? && Listed(b.rev, e) && (e in b.saved || NoRestart(steps))
    ensures Listed(Run(env, b, steps).value.rev, e)
    ensures e in b.saved ==> e in Run(env, b, steps).value.saved
  {
    if steps == [] {
    } else {
      var before := steps[..|steps| - 1];
      RunKeepsListed(env, b, before, e);
      RunKeepsSaved(env, b, before);
      NextKeepsListed(env, Run(env, b, before).value, steps[|steps| - 1], e);
    }
  }

  // ---------- descendants ----------

  predicate Descends(b: Broker, a: nat, i: nat)
    requires i < |b.issued|
  {
    i == a || (Parent(b, i).Some? && Parent(b, i).value < i && Descends(b, a, Parent(b, i).value))
  }

  predicate RenewedFrom(b: Broker, a: nat, i: nat)
    requires i < |b.issued|
  {
    i == a || (b.issued[i].origin.ByRenewal? && b.issued[i].origin.parent < i && RenewedFrom(b, a, b.issued[i].origin.parent))
  }

  /** The tokens a revocation of the a-th token's target reaches, by level. */
  predicate Reaches(b: Broker, level: string, a: nat, i: nat)
    requires i < |b.issued|
  {
    if level == "task" || level == "chain" then Descends(b, a, i)
    else if level == "agent" then RenewedFrom(b, a, i)
    else a == i
  }

  lemma {:induction false} TargetInherited(env: Env, b: Broker, e: Entry, a: nat, i: nat)
    requires HistoryOk(env, b) && a < |b.issued| && i < |b.issued|
    requires Targets(e, b.issued[a].claims) && Reaches(b, e.level, a, i)
    ensures Targets(e, b.issued[i].claims)
    decreases i
  {
    assert Justified(env, b, i);
    if i != a {
      TargetInherited(env, b, e, a, Parent(b, i).value);
    }
  }

  lemma RevokeTakesHold(env: Env, b: Broker, e: Entry, dbOk: bool)
    requires HistoryOk(env, b) && SavedInForce(b) && Next(env, b, Revoke(e.level, e.target, dbOk)).Some?
    ensures var b' := Next(env, b, Revoke(e.level, e.target, dbOk)).value;
            HistoryOk(env, b') && SavedInForce(b') && Listed(b'.rev, e) && (dbOk ==> e in b'.saved)
  {
    NextKeepsHistory(env, b, Revoke(e.level, e.target, dbOk));
    NextKeepsSaved(env, b, Revoke(e.level, e.target, dbOk));
    AddLists(b.rev, e, e);
  }

  /**
   Once revoked, always refused: after the Revoke step, in every later state, every token the revocation
   reaches fails verification at every time, whenever it was issued.
   */
  lemma RevocationFinalAndHereditary(env: Env, start: int, before: seq<Step>, e: Entry, dbOk: bool, later: seq<Step>,
                                     a: nat, i: nat, at: int)
    requires Run(env, Start(start), before).Some?
    requires Next(env, Run(env, Start(start), before).value, Revoke(e.level, e.target, dbOk)).Some?
    requires Run(env, Next(env, Run(env, Start(start), before).value, Revoke(e.level, e.target, dbOk)).value, later).Some?
    requires dbOk || NoRestart(later)
    requires var b := Run(env, Next(env, Run(env, Start(start), before).value,
                                    Revoke(e.level, e.target, dbOk)).value, later).value;
             && a < |b.issued| && i < |b.issued|
             && Targets(e, b.issued[a].claims) && Reaches(b, e.level, a, i)
    ensures var b := Run(env, Next(env, Run(env, Start(start), before).value,
                                   Revoke(e.level, e.target, dbOk)).value, later).value;
            && Admit(env.svc.cfg, Some(b.rev), b.issued[i].claims, at).Err?
            && (Lawful(env.p) && env.svc.pubKey == env.p.publicKey(env.svc.signingKey) ==>
                  Verify(env.p, env.svc, Some(b.rev), Sign(env.p, env.svc, b.issued[i].claims), at).Err?)
  {
    var b0 := Run(env, Start(start), before).value;
    var b1 := Next(env, b0, Revoke(e.level, e.target, dbOk)).value;
    var b := Run(env, b1, later).value;
    ReachableHistory(env, start, before);
    RunKeepsSaved(env, Start(start), before);
    RevokeTakesHold(env, b0, e, dbOk);
    RunKeepsHistory(env, b1, later);
    RunKeepsListed(env, b1, later, e);
    TargetInherited(env, b, e, a, i);
    RevokedExactly(b.rev, b.issued[i].claims);
    if Lawful(env.p) && env.svc.pubKey == env.p.publicKey(env.svc.signingKey) {
      VerifyOfSigned(env.p, env.svc, Some(b.rev), b.issued[i].claims, at);
    }
  }

  /** The step writes the entry to the database. */
  predicate Writes(b: Broker, s: Step, e: Entry) {
    AddedEntry(b, s) == Some(e) && DbOk(s)
  }

  /** Some step of the run does. */
  predicate WrittenBy(env: Env, b: Broker, steps: seq<Step>, e: Entry) {
    && steps != []
    && (|| WrittenBy(env, b, steps[..|steps| - 1], e)
        || match Run(env, b, steps[..|steps| - 1])
           case Some(mid) => Writes(mid, steps[|steps| - 1], e)
           case None => false)
  }

  lemma NextSaves(env: Env, b: Broker, s: Step, e: Entry)
    requires Next(env, b, s).Some?
    ensures e in Next(env, b, s).value.saved <==> e in b.saved || Writes(b, s, e)
  {
    if !s.Restart? {
      StepRevokes(env, b, s);
    }
  }

  lemma {:induction false} RunSaves(env: Env, b: Broker, steps: seq<Step>, e: Entry)
    requires Run(env, b, steps).Some?
    ensures e in Run(env, b, steps).value.saved <==> e in b.saved || WrittenBy(env, b, steps, e)
  {
    if steps == [] {
    } else {
      RunSaves(env, b, steps[..|steps| - 1], e);
      NextSaves(env, Run(env, b, steps[..|steps| - 1]).value, steps[|steps| - 1], e);
    }
  }

  /** The database holds each entry once, however often it was revoked. */
  lemma {:induction false} SavedOnce(env: Env, start: int, steps: seq<Step>)
    requires Run(env, Start(start), steps).Some?
    ensures var saved := Run(env, Start(start), steps).value.saved;
            forall i, j | 0 <= i < j < |saved| :: saved[i] != saved[j]
  {
    if steps == [] {
    } else {
      var n := |steps| - 1;
      SavedOnce(env, start, steps[..n]);
      if !steps[n].Restart? {
        StepRevokes(env, Run(env, Start(start), steps[..n]).value, steps[n]);
      }
    }
  }

  /**
   A revocation whose persistence failed is in force after a restart, whatever happened before it, exactly if the entry
   was in the database already or some step since then wrote it.
   */
  lemma UnpersistedLostExactly(env: Env, b: Broker, e: Entry, between: seq<Step>)
    requires e.target != "" && KnownLevel(e.level) && SavedInForce(b)
    requires Run(env, Next(env, b, Revoke(e.level, e.target, false)).value, between).Some?
    ensures var revoked := Next(env, b, Revoke(e.level, e.target, false)).value;
            var restarted := Next(env, Run(env, revoked, between).value, Restart).value;
            Listed(restarted.rev, e) <==> e in b.saved || WrittenBy(env, revoked, between, e)
  {
    var revoked := Next(env, b, Revoke(e.level, e.target, false)).value;
    NextKeepsSaved(env, b, Revoke(e.level, e.target, false));
    RunKeepsSaved(env, revoked, between);
    RunSaves(env, revoked, between, e);
    LoadLists(NothingRevoked, Run(env, revoked, between).value.saved, e);
  }

  /** When every revocation so far was persisted, a restart restores the revocation state exactly. */
  ghost predicate AllPersisted(steps: seq<Step>) {
    forall i | 0 <= i < |steps| :: DbOk(steps[i])
  }

  lemma SameEntriesSameLists(r: Revocations, q: Revocations)
    requires forall e :: Listed(r, e) <==> Listed(q, e)
    ensures r == q
  {
    forall x ensures x in r.tokens <==> x in q.tokens { assert Listed(r, Entry("token", x)) <==> Listed(q, Entry("token", x)); }
    forall x ensures x in r.agents <==> x in q.agents { assert Listed(r, Entry("agent", x)) <==> Listed(q, Entry("agent", x)); }
    forall x ensures x in r.tasks <==> x in q.tasks { assert Listed(r, Entry("task", x)) <==> Listed(q, Entry("task", x)); }
    forall x ensures x in r.chains <==> x in q.chains { assert Listed(r, Entry("chain", x)) <==> Listed(q, Entry("chain", x)); }
  }

  lemma {:induction false} RestartRestores(env: Env, start: int, steps: seq<Step>)
    requires Run(env, Start(start), steps).Some? && AllPersisted(steps)
    ensures var b := Run(env, Start(start), steps).value;
            Next(env, b, Restart).value.rev == b.rev
  {
    if steps == [] {
    } else {
      var before := steps[..|steps| - 1];
      RestartRestores(env, start, before);
      var b := Run(env, Start(start), before).value;
      var b' := Run(env, Start(start), steps).value;
      var s := steps[|steps| - 1];
      if !s.Restart? {
        StepRevokes(env, b, s);
      }
      forall e ensures Listed(AddAll(NothingRevoked, b'.saved), e) <==> Listed(b'.rev, e) {
        LoadLists(NothingRevoked, b'.saved, e);
        LoadLists(NothingRevoked, b.saved, e);
        var added := AddedEntry(b, s);
        if added.Some? {
          AddLists(b.rev, added.value, e);
        }
      }
      SameEntriesSameLists(AddAll(NothingRevoked, b'.saved), b'.rev);
    }
  }
}
