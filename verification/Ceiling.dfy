/**
 The ceiling of an app. A launch-token request is checked against the ceiling at one store
 call and stored at a later one, so a stored token respects the ceiling as it was read.
 */
module Ceiling {
  import opened Wrappers
  import opened Claims
  import opened Crypto
  import opened Store
  import opened Tokens
  import opened Delegation
  import opened Identity
  import opened Admin
  import opened Broker
  import opened CallRuns
  import opened Clock
  import opened Fresh
  import opened History
  import Scope
  import opened Provenance
  import opened AppTokens

  // ---------- the ceiling a launch token carries ----------

  /** Step k of the run reads the ceiling for this call, finding this one in the app's record. */
  ghost predicate ReadAt(env: Env, start: int, steps: seq<Step>, k: nat, call: nat, appId: string,
                         ceiling: Option<seq<string>>)
  {
    && k < |steps| && steps[k] == ReadCeiling(call)
    && var mid := Run(env, Start(start), steps[..k]);
    && mid.Some?
    && (ceiling.Some? ==> appId in mid.value.apps && ceiling == Some(mid.value.apps[appId].ceiling))
  }

  ghost predicate WasRead(env: Env, start: int, steps: seq<Step>, call: nat, appId: string, ceiling: Option<seq<string>>) {
    exists k: nat :: ReadAt(env, start, steps, k, call, appId, ceiling)
  }

  /** A call that knows a ceiling knew it before or has just read it. */
  lemma CeilingKnown(env: Env, b: Broker, s: Step, k: nat)
    requires Next(env, b, s).Some? && k in Next(env, b, s).value.calls && Next(env, b, s).value.calls[k].WithinCeiling?
    ensures var c := Next(env, b, s).value.calls[k];
            || (k in b.calls && b.calls[k] == c)
            || (s == ReadCeiling(k) && (c.ceiling.Some? ==> c.appId in b.apps && c.ceiling == Some(b.apps[c.appId].ceiling)))
  {
    if s.BeginLaunch? || s.ReadCeiling? || s.StoreLaunch? {
      LaunchCeilingKnown(env, b, s, k);
    } else {
      CeilingsApart(env, b, s, k);
    }
  }

  lemma LaunchCeilingKnown(env: Env, b: Broker, s: Step, k: nat)
    requires s.BeginLaunch? || s.ReadCeiling? || s.StoreLaunch?
    requires LaunchStep(env, b, s).Some?
    requires k in LaunchStep(env, b, s).value.calls && LaunchStep(env, b, s).value.calls[k].WithinCeiling?
    ensures var c := LaunchStep(env, b, s).value.calls[k];
            || (k in b.calls && b.calls[k] == c)
            || (s == ReadCeiling(k) && (c.ceiling.Some? ==> c.appId in b.apps && c.ceiling == Some(b.apps[c.appId].ceiling)))
  {
  }

  lemma CeilingsApart(env: Env, b: Broker, s: Step, k: nat)
    requires Next(env, b, s).Some? && k in Next(env, b, s).value.calls && Next(env, b, s).value.calls[k].WithinCeiling?
    requires !s.BeginLaunch? && !s.ReadCeiling? && !s.StoreLaunch?
    ensures k in b.calls && b.calls[k] == Next(env, b, s).value.calls[k]
  {
    if s.ReadLaunch? || s.TakeNonce? || s.TakeLaunch? || s.IssueAgent? || s.RecordAgent? {
      RegisterMoves(env, b, s, k);
    } else if s.BeginDelegate? || s.ExtendChain? || s.IssueDelegated? {
      DelegateMoves(env, b, s, k);
    }
  }

  lemma {:induction false} CallCeilingRead(env: Env, start: int, steps: seq<Step>, call: nat)
    requires Run(env, Start(start), steps).Some? && call in Run(env, Start(start), steps).value.calls
    requires Run(env, Start(start), steps).value.calls[call].WithinCeiling?
    ensures var c := Run(env, Start(start), steps).value.calls[call];
            WasRead(env, start, steps, call, c.appId, c.ceiling)
  {
    if steps == [] {
    } else {
      var n := |steps| - 1;
      var b := Run(env, Start(start), steps[..n]).value;
      var c := Run(env, Start(start), steps).value.calls[call];
      CeilingKnown(env, b, steps[n], call);
      if call in b.calls && b.calls[call] == c {
        CallCeilingRead(env, start, steps[..n], call);
        var k: nat :| ReadAt(env, start, steps[..n], k, call, c.appId, c.ceiling);
        assert steps[..n][..k] == steps[..k];
        assert ReadAt(env, start, steps, k, call, c.appId, c.ceiling);
      } else {
        assert ReadAt(env, start, steps, n, call, c.appId, c.ceiling);
      }
    }
  }

  /** One call read the ceiling at step k and stored the launch token at the later step l. */
  ghost predicate ReadThenStored(env: Env, start: int, steps: seq<Step>, k: nat, l: nat, call: nat, token: string, g: Grant) {
    k < l < |steps| && steps[l] == StoreLaunch(call, token) && ReadAt(env, start, steps, k, call, g.rec.appId, g.ceiling)
  }

  ghost predicate WasReadThenStored(env: Env, start: int, steps: seq<Step>, token: string, g: Grant) {
    exists k: nat, l: nat, call: nat :: ReadThenStored(env, start, steps, k, l, call, token, g)
  }

  lemma GrantsOnlyByStore(env: Env, b: Broker, s: Step, token: string)
    requires Next(env, b, s).Some? && token !in b.grants && token in Next(env, b, s).value.grants
    ensures s.StoreLaunch? && s.token == token && s.call in b.calls && b.calls[s.call].WithinCeiling?
    ensures var g, c := Next(env, b, s).value.grants[token], b.calls[s.call];
            g.rec.appId == c.appId && g.ceiling == c.ceiling && g.rec.allowedScope == c.lreq.allowedScope
  {
  }

  lemma LaterRead(env: Env, start: int, steps: seq<Step>, k: nat, call: nat, appId: string, ceiling: Option<seq<string>>)
    requires steps != [] && ReadAt(env, start, steps[..|steps| - 1], k, call, appId, ceiling)
    ensures ReadAt(env, start, steps, k, call, appId, ceiling)
  {
    assert steps[..|steps| - 1][..k] == steps[..k];
  }

  /** The step that stores a launch token follows the one that read its ceiling. */
  lemma StoredAfterRead(env: Env, start: int, steps: seq<Step>, token: string)
    requires steps != [] && Run(env, Start(start), steps).Some?
    requires var before := Run(env, Start(start), steps[..|steps| - 1]).value;
             token !in before.grants && token in Run(env, Start(start), steps).value.grants
    ensures WasReadThenStored(env, start, steps, token, Run(env, Start(start), steps).value.grants[token])
  {
    var n := |steps| - 1;
    var g := Run(env, Start(start), steps).value.grants[token];
    GrantsOnlyByStore(env, Run(env, Start(start), steps[..n]).value, steps[n], token);
    CallCeilingRead(env, start, steps[..n], steps[n].call);
    var k: nat :| ReadAt(env, start, steps[..n], k, steps[n].call, g.rec.appId, g.ceiling);
    LaterRead(env, start, steps, k, steps[n].call, g.rec.appId, g.ceiling);
    assert ReadThenStored(env, start, steps, k, n, steps[n].call, token, g);
  }

  /** The recorded ceiling is the app's at the step that read it, whatever becomes of the app before or after storing. */
  lemma {:induction false} CeilingIsFromCheck(env: Env, start: int, steps: seq<Step>, token: string)
    requires Run(env, Start(start), steps).Some? && token in Run(env, Start(start), steps).value.grants
    ensures WasReadThenStored(env, start, steps, token, Run(env, Start(start), steps).value.grants[token])
  {
    if steps == [] {
    } else {
      var n := |steps| - 1;
      NextExtends(env, Run(env, Start(start), steps[..n]).value, steps[n]);
      if token in Run(env, Start(start), steps[..n]).value.grants {
        CeilingIsFromCheck(env, start, steps[..n], token);
        StoredEarlier(env, start, steps, token, Run(env, Start(start), steps).value.grants[token]);
      } else {
        StoredAfterRead(env, start, steps, token);
      }
    }
  }

  lemma StoredEarlier(env: Env, start: int, steps: seq<Step>, token: string, g: Grant)
    requires steps != [] && WasReadThenStored(env, start, steps[..|steps| - 1], token, g)
    ensures WasReadThenStored(env, start, steps, token, g)
  {
    var before := steps[..|steps| - 1];
    var k: nat, l: nat, call: nat :| ReadThenStored(env, start, before, k, l, call, token, g);
    LaterRead(env, start, steps, k, call, g.rec.appId, g.ceiling);
    assert ReadThenStored(env, start, steps, k, l, call, token, g);
  }

  // ---------- the ceiling in force when the token is stored ----------

  /** The step sets this app's ceiling. */
  predicate SetsCeiling(s: Step, appId: string) {
    s.ChangeApp? && s.op.SetCeiling? && s.op.appId == appId && Scope.AllWellFormed(s.op.scopes)
  }

  /** The ceiling after the steps: the last one set, or the given one. */
  function CeilingAfter(ceiling: seq<string>, steps: seq<Step>, appId: string): seq<string> {
    if steps == [] then ceiling
    else
      var s := steps[|steps| - 1];
      if SetsCeiling(s, appId) then s.op.scopes else CeilingAfter(ceiling, steps[..|steps| - 1], appId)
  }

  lemma AppsThenCeiling(apps: map<string, AppRecord>, s: Step, appId: string)
    requires appId in apps
    ensures appId in AppsThen(apps, s)
    ensures AppsThen(apps, s)[appId].ceiling == if SetsCeiling(s, appId) then s.op.scopes else apps[appId].ceiling
  {
  }

  lemma {:induction false} CeilingFollows(env: Env, b: Broker, steps: seq<Step>, appId: string)
    requires appId in b.apps && Run(env, b, steps).Some?
    ensures var end := Run(env, b, steps).value;
            appId in end.apps && end.apps[appId].ceiling == CeilingAfter(b.apps[appId].ceiling, steps, appId)
  {
    if steps == [] {
    } else {
      var n := |steps| - 1;
      CeilingFollows(env, b, steps[..n], appId);
      NextApps(env, Run(env, b, steps[..n]).value, steps[n]);
      AppsThenCeiling(Run(env, b, steps[..n]).value.apps, steps[n], appId);
    }
  }

  /**
   A request checked against the app's ceiling is stored within the ceiling then in force exactly when its scopes lie
   within the last ceiling set in between; with none set in between they always do.
   */
  lemma StoredWithinCeilingExactly(env: Env, b: Broker, call: nat, appId: string, between: seq<Step>, token: string)
    requires HistoryOk(env, b) && call in b.calls && b.calls[call].WithinCeiling? && appId in b.apps
    requires b.calls[call].appId == appId && b.calls[call].ceiling == Some(b.apps[appId].ceiling)
    requires Run(env, b, between).Some?
    requires var mid := Run(env, b, between).value;
             && call in mid.calls && mid.calls[call] == b.calls[call] && token !in mid.grants
             && Next(env, mid, StoreLaunch(call, token)).Some?
             && token in Next(env, mid, StoreLaunch(call, token)).value.grants
    ensures var end := Next(env, Run(env, b, between).value, StoreLaunch(call, token)).value;
            var asked, inForce := end.grants[token].rec.allowedScope, CeilingAfter(b.apps[appId].ceiling, between, appId);
            && appId in end.apps && end.apps[appId].ceiling == inForce
            && (Scope.Subset(asked, end.apps[appId].ceiling) <==> Scope.Subset(b.calls[call].lreq.allowedScope, inForce))
            && ((forall i | 0 <= i < |between| :: !SetsCeiling(between[i], appId)) ==>
                  Scope.Subset(asked, end.apps[appId].ceiling))
  {
    var mid := Run(env, b, between).value;
    assert CallOk(b, b.calls[call]);
    CeilingFollows(env, b, between, appId);
    GrantsOnlyByStore(env, mid, StoreLaunch(call, token), token);
    NextApps(env, mid, StoreLaunch(call, token));
    NoneSetNoChange(b.apps[appId].ceiling, between, appId);
  }

  lemma {:induction false} NoneSetNoChange(ceiling: seq<string>, steps: seq<Step>, appId: string)
    ensures (forall i | 0 <= i < |steps| :: !SetsCeiling(steps[i], appId)) ==> CeilingAfter(ceiling, steps, appId) == ceiling
  {
    if steps == [] {
    } else {
      NoneSetNoChange(ceiling, steps[..|steps| - 1], appId);
    }
  }

  /** Narrowing the ceiling between check and storage leaves a stored token that exceeds it. */
  lemma NarrowedMeanwhile(env: Env, b: Broker, call: nat, appId: string, narrower: seq<string>, token: string)
    requires call in b.calls && b.calls[call].WithinCeiling? && b.calls[call].parent < |b.issued| && appId in b.apps
    requires b.calls[call].appId == appId && LaunchFieldMissing(b.calls[call].lreq).None? && token !in b.grants
    requires Scope.AllWellFormed(narrower) && !Scope.Subset(b.calls[call].lreq.allowedScope, narrower)
    ensures var end := Run(env, b, [ChangeApp(SetCeiling(appId, narrower)), StoreLaunch(call, token)]);
            && end.Some? && token in end.value.grants && appId in end.value.apps
            && end.value.grants[token].rec.appId == appId
            && !Scope.Subset(end.value.grants[token].rec.allowedScope, end.value.apps[appId].ceiling)
  {
    var change, store := ChangeApp(SetCeiling(appId, narrower)), StoreLaunch(call, token);
    var mid := b.(apps := b.apps[appId := b.apps[appId].(ceiling := narrower)]);
    assert Next(env, b, change) == Some(mid);
    TwoTaken(env, b, [change, store], mid);
    assert [change, store][..2] == [change, store];
  }

  // ---------- everything made under an app ----------

  /** The token descends from a login of the app: by renewal, by delegation, or through a launch token it created. */
  predicate MadeUnder(b: Broker, i: nat, appId: string)
    requires i < |b.issued|
  {
    match b.issued[i].origin
    case ByAdmin => false
    case ByApp(a, _) => a == appId
    case ByLaunch(t, _, _, _) => t in b.grants && b.grants[t].creator < i && MadeUnder(b, b.grants[t].creator, appId)
    case ByDelegation(parent, _, _) => parent < i && MadeUnder(b, parent, appId)
    case ByRenewal(parent) => parent < i && MadeUnder(b, parent, appId)
  }

  /** The launch token was created with a token made under the app. */
  predicate CreatedUnder(b: Broker, g: Grant, appId: string) {
    g.creator < |b.issued| && MadeUnder(b, g.creator, appId)
  }

  lemma {:induction false} UnderOwnApp(env: Env, b: Broker, i: nat, appId: string, named: string)
    requires HistoryOk(env, b) && NamesOk(b) && OfApp(b, i, named) && MadeUnder(b, i, appId)
    ensures named == appId
  {
    AppTokenShape(env, b, i, named);
    match b.issued[i].origin
    case ByApp(_, _) =>
    case ByRenewal(parent) => UnderOwnApp(env, b, parent, appId, named);
  }

  lemma {:induction false} RootUnder(env: Env, b: Broker, i: nat, appId: string)
    requires HistoryOk(env, b) && i < |b.issued| && MadeUnder(b, i, appId)
    ensures MadeUnder(b, Root(b, i), appId)
  {
    assert Justified(env, b, i);
    match b.issued[i].origin
    case ByDelegation(parent, _, _) => RootUnder(env, b, parent, appId);
    case ByRenewal(parent) => RootUnder(env, b, parent, appId);
    case _ =>
  }

  /**
   A launch token created under an app is checked against that app's ceiling exactly when its creator's subject is
   the app itself; then it carries that ceiling, and otherwise neither ceiling nor app.
   */
  lemma CappedExactly(env: Env, b: Broker, token: string, appId: string)
    requires HistoryOk(env, b) && NamesOk(b) && token in b.grants && CreatedUnder(b, b.grants[token], appId)
    ensures var g := b.grants[token];
            && (g.ceiling.Some? <==> OfApp(b, g.creator, appId))
            && (g.ceiling.Some? ==> g.rec.appId == appId && Scope.Subset(g.rec.allowedScope, g.ceiling.value))
            && (g.ceiling.None? ==> g.rec.appId == "")
  {
    var g := b.grants[token];
    assert GrantOk(b, g);
    var sub := b.issued[g.creator].claims.sub;
    if IsApp(sub) {
      assert sub == AppSub(sub[4..]);
      UnderOwnApp(env, b, g.creator, appId, sub[4..]);
    }
  }

  /** The token stays within its root: the app's own scopes, or the ceiling if the app itself made the launch token. */
  ghost predicate CappedBelow(b: Broker, i: nat, root: Origin, appId: string)
    requires i < |b.issued|
  {
    || (root.ByApp? && root.appId == appId && Scope.Meaning(b.issued[i].claims.scope) <= Scope.Meaning(APP_SCOPE))
    || (&& root.ByLaunch? && root.token in b.grants && CreatedUnder(b, b.grants[root.token], appId)
        && (OfApp(b, b.grants[root.token].creator, appId) ==>
              && b.grants[root.token].rec.appId == appId && b.grants[root.token].ceiling.Some?
              && Scope.Meaning(b.issued[i].claims.scope) <= Scope.Meaning(b.grants[root.token].ceiling.value)))
  }

  /**
   Over all runs: a token that an app's launch token stands behind lies within the ceiling checked for that app
   exactly as far as the launch token's creator is the app itself.
   */
  lemma AppLineageCapped(env: Env, start: int, steps: seq<Step>, i: nat, appId: string)
    requires SpiffeLaw(env.p) && Run(env, Start(start), steps).Some?
    requires i < |Run(env, Start(start), steps).value.issued| && MadeUnder(Run(env, Start(start), steps).value, i, appId)
    ensures var b := Run(env, Start(start), steps).value;
            CappedBelow(b, i, b.issued[Root(b, i)].origin, appId)
  {
    var b := Run(env, Start(start), steps).value;
    ReachableHistory(env, start, steps);
    RunKeepsNames(env, Start(start), steps);
    WholeRunAttenuation(env, start, steps, i);
    RootUnder(env, b, i, appId);
    RootIsFirst(env, b, i);
    assert Justified(env, b, Root(b, i));
    match b.issued[Root(b, i)].origin
    case ByLaunch(token, _, _, _) =>
      CappedExactly(env, b, token, appId);
      if OfApp(b, b.grants[token].creator, appId) {
        ScopeWithinCeiling(env, b, i, token);
      }
    case _ =>
  }

  lemma ScopeWithinCeiling(env: Env, b: Broker, i: nat, token: string)
    requires HistoryOk(env, b) && i < |b.issued| && token in b.grants && b.grants[token].ceiling.Some?
    requires b.issued[Root(b, i)].origin.ByLaunch? && b.issued[Root(b, i)].origin.token == token
    ensures Scope.Meaning(b.issued[i].claims.scope) <= Scope.Meaning(b.grants[token].ceiling.value)
  {
    var scope, g := b.issued[i].claims.scope, b.grants[token];
    ScopeWithinRoot(env, b, i);
    assert GrantOk(b, g);
    Scope.SubsetTransitive(scope, g.rec.allowedScope, g.ceiling.value);
    Scope.SubsetIsInclusion(scope, g.ceiling.value);
  }

  // ---------- around the ceiling ----------

  /** The app's request to hand its right to create launch tokens to an agent. */
  function HandOver(agent: string, ttl: int): DelegReq {
    DelegReq(agent, [APP_LAUNCH], ttl)
  }

  lemma HandOverAccepted(b: Broker, claims: TknClaims, agent: string, ttl: int)
    requires claims.scope == APP_SCOPE && claims.chain == [] && agent in b.mem.agents && agent != ""
    ensures Refusal(b.mem.agents, claims, HandOver(agent, ttl)).None?
  {
    LaunchTokensPlain();
    Scope.TextWellFormed("app", LAUNCH_TOKENS, "*");
    assert claims.scope[0] == APP_LAUNCH;
    Scope.MemberWithin(APP_LAUNCH, claims.scope);
  }

  /** The token an agent is handed is admitted and may create launch tokens. */
  lemma HandedOver(env: Env, b: Broker, call: nat, p: nat, appId: string, agent: string, ttl: int, jti: string)
    requires HistoryOk(env, b) && NamesOk(b) && OfApp(b, p, appId) && Admitted(env, b, p) && Unix(b.now) > 0
    requires agent != "" && agent !in b.rev.agents && AppSub(appId) !in b.rev.chains && jti != "" && jti !in b.rev.tokens
    ensures var end := AfterDelegate(env, b, call, p, HandOver(agent, ttl), 0, jti);
            && Admitted(env, end, |b.issued|) && MayLaunch(end.issued[|b.issued|].claims)
            && end.issued[|b.issued|].claims.sub == agent
  {
    AppTokenShape(env, b, p, appId);
    var end := AfterDelegate(env, b, call, p, HandOver(agent, ttl), 0, jti);
    var c := end.issued[|b.issued|].claims;
    assert c.chain[0].agent == AppSub(appId);
    assert c.exp > c.iat;
    LaunchTokensPlain();
    Scope.TextWellFormed("app", LAUNCH_TOKENS, "*");
    Scope.MemberWithin(APP_LAUNCH, c.scope);
  }

  /**
   An app may delegate its right to create launch tokens, and the ceiling is looked up by subject: an agent it hands
   the right to creates launch tokens of any scopes, under the app and with no ceiling.
   */
  lemma DelegateEscapesCeiling(env: Env, b: Broker, p: nat, appId: string, agent: string, ttl: int, lreq: LaunchReq)
    returns (steps: seq<Step>, end: Broker, token: string)
    requires HistoryOk(env, b) && NamesOk(b) && OfApp(b, p, appId) && Admitted(env, b, p) && MadeUnder(b, p, appId)
    requires agent in b.mem.agents && agent != "" && agent !in b.rev.agents && AppSub(appId) !in b.rev.chains
    requires Unix(b.now) > 0 && LaunchFieldMissing(lreq).None?
    ensures Run(env, b, steps) == Some(end)
    ensures token !in b.grants && token in end.grants && CreatedUnder(end, end.grants[token], appId)
    ensures end.grants[token].rec.allowedScope == lreq.allowedScope
    ensures end.grants[token].ceiling == None && end.grants[token].rec.appId == ""
  {
    var call := UnusedCall(b);
    var jti := UnusedJti(b);
    AppTokenShape(env, b, p, appId);
    HandOverAccepted(b, b.issued[p].claims, agent, ttl);
    DelegateGoes(env, b, call, p, HandOver(agent, ttl), 0, jti);
    HandedOver(env, b, call, p, appId, agent, ttl, jti);
    var first, mid := DelegateSteps(call, p, HandOver(agent, ttl), 0, jti), AfterDelegate(env, b, call, p, HandOver(agent, ttl), 0, jti);
    token := UnusedLaunchToken(mid);
    var rest;
    rest, end := LaunchedFreely(env, mid, |b.issued|, lreq, token);
    steps := first + rest;
    RunConcat(env, b, first, rest);
    UnderKept(b, mid, p, appId);
    UnderKept(mid, end, |b.issued|, appId);
  }

  /** A caller that is no app creates launch tokens unchecked. */
  lemma LaunchedFreely(env: Env, b: Broker, i: nat, lreq: LaunchReq, token: string) returns (steps: seq<Step>, end: Broker)
    requires Admitted(env, b, i) && MayLaunch(b.issued[i].claims) && !IsApp(b.issued[i].claims.sub)
    requires token !in b.grants && LaunchFieldMissing(lreq).None?
    ensures Run(env, b, steps) == Some(end) && end.issued == b.issued && end.grants.Keys == b.grants.Keys + {token}
    ensures forall t | t in b.grants :: end.grants[t] == b.grants[t]
    ensures end.grants[token].creator == i && end.grants[token].ceiling == None && end.grants[token].rec.appId == ""
    ensures end.grants[token].rec.allowedScope == lreq.allowedScope
  {
    var call := UnusedCall(b);
    steps := LaunchSteps(call, i, lreq, token);
    end := AfterLaunch(b, call, i, lreq, token);
    assert steps[..3] == steps;
    LaunchGoes(env, b, call, i, lreq, token);
  }

  /** Descent is not undone. */
  lemma {:induction false} UnderKept(b: Broker, b': Broker, i: nat, appId: string)
    requires i < |b.issued| && MadeUnder(b, i, appId) && b.issued <= b'.issued
    requires forall t | t in b.grants :: t in b'.grants && b'.grants[t] == b.grants[t]
    ensures MadeUnder(b', i, appId)
  {
    assert b'.issued[i] == b.issued[i];
    match b.issued[i].origin
    case ByLaunch(t, _, _, _) => UnderKept(b, b', b.grants[t].creator, appId);
    case ByDelegation(parent, _, _) => UnderKept(b, b', parent, appId);
    case ByRenewal(parent) => UnderKept(b, b', parent, appId);
    case _ =>
  }
}
