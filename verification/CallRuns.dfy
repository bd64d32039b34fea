/** The sequential Renew, Delegate and launch-token creation are runs of the machine's steps, from the token text on. */
module CallRuns {
  import opened Wrappers
  import opened Clock
  import opened Claims
  import opened Crypto
  import opened Store
  import opened Revocation
  import opened Tokens
  import opened Delegation
  import opened Admin
  import opened Broker

  /** The text under which the i-th token was handed out. */
  function TokenText(env: Env, b: Broker, i: nat): string
    requires i < |b.issued|
  {
    Sign(env.p, env.svc, b.issued[i].claims)
  }

  predicate OwnKeys(env: Env) {
    env.svc.pubKey == env.p.publicKey(env.svc.signingKey)
  }

  /** A call begins exactly when its token text verifies, and then to the claims issued. */
  lemma BeginsExactly(env: Env, b: Broker, i: nat)
    requires Lawful(env.p) && OwnKeys(env) && i < |b.issued|
    ensures var verified := Verify(env.p, env.svc, Some(b.rev), TokenText(env, b, i), Unix(b.now));
            && (verified.Ok? <==> Admitted(env, b, i))
            && (verified.Ok? ==> verified.value == b.issued[i].claims)
  {
    VerifyOfSigned(env.p, env.svc, Some(b.rev), b.issued[i].claims, Unix(b.now));
  }

  function RenewSteps(call: nat, i: nat, dbOk: bool, elapsed: nat, jti: string): seq<Step> {
    [BeginRenew(call, i), RevokeOld(call, dbOk), Tick(elapsed), IssueRenewed(call, jti)]
  }

  /** What Renew leaves behind: the predecessor revoked, and one token more. */
  function AfterRenew(env: Env, b: Broker, call: nat, i: nat, dbOk: bool, elapsed: nat, jti: string): Broker
    requires i < |b.issued|
  {
    var claims, e := b.issued[i].claims, Entry("token", b.issued[i].claims.jti);
    var renewed := IssuedClaims(env.svc.cfg, RenewalReq(env.svc.cfg, claims), Unix(b.now + elapsed), jti);
    b.(now := b.now + elapsed, rev := Add(b.rev, e), saved := if dbOk then Inserted(b.saved, e) else b.saved,
       calls := b.calls[call := Returned], issued := b.issued + [Issued(renewed, ByRenewal(i))])
  }

  /** An uninterrupted renewal of a token text is refused with the text, or ends as Renew does. */
  lemma RenewIsRun(env: Env, b: Broker, call: nat, i: nat, dbOk: bool, elapsed: nat, jti: string)
    requires Lawful(env.p) && OwnKeys(env) && i < |b.issued| && call !in b.calls && FreshJti(b, jti)
    ensures match Verify(env.p, env.svc, Some(b.rev), TokenText(env, b, i), Unix(b.now))
            case Err(_) => Next(env, b, BeginRenew(call, i)) == None
            case Ok(claims) =>
              Run(env, b, RenewSteps(call, i, dbOk, elapsed, jti)) == Some(AfterRenew(env, b, call, i, dbOk, elapsed, jti))
  {
    BeginsExactly(env, b, i);
    if Admitted(env, b, i) {
      RenewGoes(env, b, call, i, dbOk, elapsed, jti);
    }
  }

  /** A renewal that has revoked its predecessor. */
  function Replaced(b: Broker, call: nat, i: nat, dbOk: bool): Broker
    requires i < |b.issued|
  {
    SetCall(RevokeIn(SetCall(b, call, Renewing(i)), Entry("token", b.issued[i].claims.jti), dbOk), call, Replacing(i))
  }

  lemma RenewOpens(env: Env, b: Broker, call: nat, i: nat, dbOk: bool)
    requires Admitted(env, b, i) && call !in b.calls
    ensures Next(env, b, BeginRenew(call, i)) == Some(SetCall(b, call, Renewing(i)))
    ensures Next(env, SetCall(b, call, Renewing(i)), RevokeOld(call, dbOk)) == Some(Replaced(b, call, i, dbOk))
  {
  }

  lemma RenewGoes(env: Env, b: Broker, call: nat, i: nat, dbOk: bool, elapsed: nat, jti: string)
    requires Admitted(env, b, i) && call !in b.calls && FreshJti(b, jti)
    ensures Run(env, b, RenewSteps(call, i, dbOk, elapsed, jti)) == Some(AfterRenew(env, b, call, i, dbOk, elapsed, jti))
  {
    RenewOpens(env, b, call, i, dbOk);
    RenewEnds(env, b, call, i, dbOk, elapsed, jti);
    var b2 := Replaced(b, call, i, dbOk);
    TwoTickOne(env, b, RenewSteps(call, i, dbOk, elapsed, jti), SetCall(b, call, Renewing(i)), b2,
               b2.(now := b2.now + elapsed), AfterRenew(env, b, call, i, dbOk, elapsed, jti));
  }

  lemma RenewEnds(env: Env, b: Broker, call: nat, i: nat, dbOk: bool, elapsed: nat, jti: string)
    requires i < |b.issued| && FreshJti(b, jti)
    ensures var b2 := Replaced(b, call, i, dbOk);
            Next(env, b2.(now := b2.now + elapsed), IssueRenewed(call, jti))
            == Some(AfterRenew(env, b, call, i, dbOk, elapsed, jti))
  {
    var b3 := Replaced(b, call, i, dbOk).(now := b.now + elapsed);
    assert b3.calls[call := Returned] == b.calls[call := Returned];
    IssueRenewedGoes(env, b3, call, i, jti);
  }

  function DelegateSteps(call: nat, i: nat, req: DelegReq, elapsed: nat, jti: string): seq<Step> {
    [BeginDelegate(call, i, req), ExtendChain(call), Tick(elapsed), IssueDelegated(call, jti)]
  }

  function AfterDelegate(env: Env, b: Broker, call: nat, i: nat, req: DelegReq, elapsed: nat, jti: string): Broker
    requires i < |b.issued|
  {
    var made := DelegatedReq(env.p, env.svc.signingKey, b.issued[i].claims, req, b.now);
    var delegated := IssuedClaims(env.svc.cfg, made, Unix(b.now + elapsed), jti);
    b.(now := b.now + elapsed, calls := b.calls[call := Returned],
       issued := b.issued + [Issued(delegated, ByDelegation(i, req, b.now))])
  }

  /** An uninterrupted delegation under a verified token issues nothing when refused, and otherwise ends as Delegate does. */
  lemma DelegateIsRun(env: Env, b: Broker, call: nat, i: nat, req: DelegReq, elapsed: nat, jti: string)
    requires Lawful(env.p) && OwnKeys(env) && i < |b.issued| && call !in b.calls && FreshJti(b, jti)
    ensures match Verify(env.p, env.svc, Some(b.rev), TokenText(env, b, i), Unix(b.now))
            case Err(_) => Next(env, b, BeginDelegate(call, i, req)) == None
            case Ok(claims) =>
              var steps := DelegateSteps(call, i, req, elapsed, jti);
              if Refusal(b.mem.agents, claims, req).Some?
              then Run(env, b, steps[..2]) == Some(SetCall(b, call, Returned))
              else Run(env, b, steps) == Some(AfterDelegate(env, b, call, i, req, elapsed, jti))
  {
    BeginsExactly(env, b, i);
    if Admitted(env, b, i) {
      if Refusal(b.mem.agents, b.issued[i].claims, req).Some? {
        DelegateRefused(env, b, call, i, req, elapsed, jti);
      } else {
        DelegateGoes(env, b, call, i, req, elapsed, jti);
      }
    }
  }

  lemma DelegateRefused(env: Env, b: Broker, call: nat, i: nat, req: DelegReq, elapsed: nat, jti: string)
    requires Admitted(env, b, i) && call !in b.calls && Refusal(b.mem.agents, b.issued[i].claims, req).Some?
    ensures Run(env, b, DelegateSteps(call, i, req, elapsed, jti)[..2]) == Some(SetCall(b, call, Returned))
  {
    var b1 := SetCall(b, call, Delegating(i, req));
    var steps := DelegateSteps(call, i, req, elapsed, jti);
    assert Next(env, b1, ExtendChain(call)) == Some(SetCall(b1, call, Returned));
    TwoTaken(env, b, steps, b1);
    assert b1.calls[call := Returned] == b.calls[call := Returned];
  }

  /** A delegation whose checks have passed. */
  function Checked(b: Broker, call: nat, i: nat, req: DelegReq): Broker {
    SetCall(SetCall(b, call, Delegating(i, req)), call, Chained(i, req, b.now))
  }

  lemma DelegateOpens(env: Env, b: Broker, call: nat, i: nat, req: DelegReq)
    requires Admitted(env, b, i) && call !in b.calls && Refusal(b.mem.agents, b.issued[i].claims, req).None?
    ensures Next(env, b, BeginDelegate(call, i, req)) == Some(SetCall(b, call, Delegating(i, req)))
    ensures Next(env, SetCall(b, call, Delegating(i, req)), ExtendChain(call)) == Some(Checked(b, call, i, req))
  {
  }

  lemma DelegateGoes(env: Env, b: Broker, call: nat, i: nat, req: DelegReq, elapsed: nat, jti: string)
    requires Admitted(env, b, i) && call !in b.calls && FreshJti(b, jti)
    requires Refusal(b.mem.agents, b.issued[i].claims, req).None?
    ensures Run(env, b, DelegateSteps(call, i, req, elapsed, jti)) == Some(AfterDelegate(env, b, call, i, req, elapsed, jti))
  {
    DelegateOpens(env, b, call, i, req);
    DelegateEnds(env, b, call, i, req, elapsed, jti);
    var b2 := Checked(b, call, i, req);
    TwoTickOne(env, b, DelegateSteps(call, i, req, elapsed, jti), SetCall(b, call, Delegating(i, req)), b2,
               b2.(now := b2.now + elapsed), AfterDelegate(env, b, call, i, req, elapsed, jti));
  }

  lemma DelegateEnds(env: Env, b: Broker, call: nat, i: nat, req: DelegReq, elapsed: nat, jti: string)
    requires i < |b.issued| && FreshJti(b, jti)
    ensures var b2 := Checked(b, call, i, req);
            Next(env, b2.(now := b2.now + elapsed), IssueDelegated(call, jti))
            == Some(AfterDelegate(env, b, call, i, req, elapsed, jti))
  {
    var b3 := Checked(b, call, i, req).(now := b.now + elapsed);
    assert b3.calls[call := Returned] == b.calls[call := Returned];
    IssueDelegatedGoes(env, b3, call, i, req, b.now, jti);
  }

  lemma IssueDelegatedGoes(env: Env, b: Broker, call: nat, i: nat, req: DelegReq, at: int, jti: string)
    requires call in b.calls && b.calls[call] == Chained(i, req, at) && i < |b.issued| && FreshJti(b, jti)
    ensures Next(env, b, IssueDelegated(call, jti))
         == Some(SetCall(Append(env, b, DelegatedReq(env.p, env.svc.signingKey, b.issued[i].claims, req, at), jti,
                                ByDelegation(i, req, at)), call, Returned))
  {
  }

  function LaunchSteps(call: nat, i: nat, lreq: LaunchReq, token: string): seq<Step> {
    [BeginLaunch(call, i, lreq), ReadCeiling(call), StoreLaunch(call, token)]
  }

  /** A request over the ceiling stops at the step that read it. */
  function LaunchStepsTaken(b: Broker, i: nat, lreq: LaunchReq): (n: nat)
    requires i < |b.issued|
    ensures n <= 3
  {
    if CeilingDecision(b.apps, b.issued[i].claims.sub, lreq.allowedScope).Err? then 2 else 3
  }

  /** What the handler leaves behind: the decided record stored, or nothing. */
  function AfterLaunch(b: Broker, call: nat, i: nat, lreq: LaunchReq, token: string): Broker
    requires i < |b.issued|
  {
    var sub := b.issued[i].claims.sub;
    match LaunchDecision(b.apps, sub, lreq, b.now)
    case Err(_) => SetCall(b, call, Returned)
    case Ok(rec) =>
      var ceiling := if IsApp(sub) then Some(b.apps[sub[4..]].ceiling) else None;
      SetCall(b.(mem := AddLaunchToken(b.mem, token, rec), grants := b.grants[token := Grant(rec, lreq, ceiling, i)]), call, Returned)
  }

  /** The uninterrupted launch-token handler under a verified token is the machine's run of that call. */
  lemma LaunchIsRun(env: Env, b: Broker, call: nat, i: nat, lreq: LaunchReq, token: string)
    requires Lawful(env.p) && OwnKeys(env) && i < |b.issued| && call !in b.calls && token !in b.grants
    ensures match Verify(env.p, env.svc, Some(b.rev), TokenText(env, b, i), Unix(b.now))
            case Err(_) => Next(env, b, BeginLaunch(call, i, lreq)) == None
            case Ok(claims) =>
              if !MayLaunch(claims) then Next(env, b, BeginLaunch(call, i, lreq)) == None
              else Run(env, b, LaunchSteps(call, i, lreq, token)[..LaunchStepsTaken(b, i, lreq)])
                   == Some(AfterLaunch(b, call, i, lreq, token))
  {
    BeginsExactly(env, b, i);
    if Admitted(env, b, i) && MayLaunch(b.issued[i].claims) {
      LaunchGoes(env, b, call, i, lreq, token);
    }
  }

  lemma LaunchOpens(env: Env, b: Broker, call: nat, i: nat, lreq: LaunchReq)
    requires Admitted(env, b, i) && MayLaunch(b.issued[i].claims) && call !in b.calls
    ensures Next(env, b, BeginLaunch(call, i, lreq)) == Some(SetCall(b, call, Launching(i, lreq)))
    ensures Next(env, SetCall(b, call, Launching(i, lreq)), ReadCeiling(call)) == Some(SetCall(b, call, CeilingRead(b, i, lreq)))
  {
    var b1 := SetCall(b, call, Launching(i, lreq));
    assert CeilingRead(b1, i, lreq) == CeilingRead(b, i, lreq);
    assert b1.calls[call := CeilingRead(b, i, lreq)] == b.calls[call := CeilingRead(b, i, lreq)];
  }

  lemma LaunchStores(env: Env, b: Broker, call: nat, i: nat, lreq: LaunchReq, token: string)
    requires i < |b.issued| && token !in b.grants
    requires CeilingDecision(b.apps, b.issued[i].claims.sub, lreq.allowedScope).Ok?
    ensures Next(env, SetCall(b, call, CeilingRead(b, i, lreq)), StoreLaunch(call, token))
         == Some(AfterLaunch(b, call, i, lreq, token))
  {
    assert b.calls[call := CeilingRead(b, i, lreq)][call := Returned] == b.calls[call := Returned];
  }

  lemma LaunchGoes(env: Env, b: Broker, call: nat, i: nat, lreq: LaunchReq, token: string)
    requires Admitted(env, b, i) && MayLaunch(b.issued[i].claims) && call !in b.calls && token !in b.grants
    ensures Run(env, b, LaunchSteps(call, i, lreq, token)[..LaunchStepsTaken(b, i, lreq)])
         == Some(AfterLaunch(b, call, i, lreq, token))
  {
    var steps := LaunchSteps(call, i, lreq, token);
    LaunchOpens(env, b, call, i, lreq);
    TwoTaken(env, b, steps, SetCall(b, call, Launching(i, lreq)));
    if CeilingDecision(b.apps, b.issued[i].claims.sub, lreq.allowedScope).Ok? {
      LaunchStores(env, b, call, i, lreq, token);
      RunTakes(env, b, steps, 2);
    }
  }

  // ---------- tokens from outside ----------

  function IssuedClaimsOf(b: Broker): set<TknClaims> {
    set i | 0 <= i < |b.issued| :: b.issued[i].claims
  }

  /**
   Whatever text verifies in a state, a call can begin with it exactly as the machine lets it: it carries the claims of
   an issued token that is admitted, or it holds a forgery of the broker's signature.
   */
  lemma AcceptedWasIssued(env: Env, b: Broker, signed: set<string>, tokenStr: string)
    requires EncodingLaws(env.p) && JsonLaws(env.p) && BrokerTexts(env.p, env.svc, IssuedClaimsOf(b), signed)
    requires Verify(env.p, env.svc, Some(b.rev), tokenStr, Unix(b.now)).Ok?
    ensures || (exists i: nat :: Admitted(env, b, i)
                                 && b.issued[i].claims == Verify(env.p, env.svc, Some(b.rev), tokenStr, Unix(b.now)).value)
            || HoldsForgery(env.p, env.svc, signed, tokenStr)
  {
    VerifyAcceptsOnlyIssued(env.p, env.svc, Some(b.rev), IssuedClaimsOf(b), signed, tokenStr, Unix(b.now));
    var c := Verify(env.p, env.svc, Some(b.rev), tokenStr, Unix(b.now)).value;
    if c in IssuedClaimsOf(b) {
      var i: nat :| i < |b.issued| && b.issued[i].claims == c;
      AdmittedClaims(env.p, env.svc, Some(b.rev), tokenStr, Unix(b.now));
      assert Admitted(env, b, i);
    }
  }
}
