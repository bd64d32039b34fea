/** Scope-attenuated delegation with a signed, hashed chain (internal/deleg/deleg_svc.go). */
module Delegation {
  import opened Wrappers
  import opened Text
  import opened Clock
  import opened Claims
  import opened Crypto
  import opened Store
  import opened Revocation
  import Scope
  import opened Tokens

  const MAX_DELEG_DEPTH: nat := 5
  const DEFAULT_DELEG_TTL: int := 60

  datatype DelegReq = DelegReq(delegateTo: string, scope: seq<string>, ttl: int)

  datatype DelegError = ErrMissingField | ErrDepthExceeded | ErrScopeViolation | ErrDelegateNotFound

  datatype DelegResp = DelegResp(issued: IssueResp, chain: seq<DelegRecord>)

  /** The loop of scopeCSV. */
  method ScopeCSV(scopes: seq<string>) returns (result: string)
    ensures result == Join(scopes, ',')
  {
    result := "";
    for i := 0 to |scopes|
      invariant result == Join(scopes[..i], ',')
    {
      assert scopes[..i + 1] == scopes[..i] + [scopes[i]];
      if i > 0 {
        JoinSnoc(scopes[..i], scopes[i], ',');
        result := result + ",";
      } else {
        assert scopes[..0] == [] && [] + [scopes[0]] == [scopes[0]];
      }
      result := result + scopes[i];
    }
    assert scopes[..|scopes|] == scopes;
  }

  /** What a delegation record's signature covers. */
  function RecordContent(p: Primitives, agent: string, scope: seq<string>, at: int): string {
    agent + "|" + Join(scope, ',') + "|" + p.timeText(at)
  }

  function SignedRecord(p: Primitives, key: string, agent: string, scope: seq<string>, at: int): DelegRecord {
    DelegRecord(agent, scope, at, p.hex(p.sign(key, RecordContent(p, agent, scope, at))))
  }

  function ChainHash(p: Primitives, chain: seq<DelegRecord>): string {
    Digest(p, p.chainJson(chain))
  }

  /** The checks made before a record is added, in order. */
  function Refusal(agents: map<string, AgentRecord>, claims: TknClaims, req: DelegReq): Option<DelegError> {
    if req.delegateTo == "" || req.scope == [] then Some(ErrMissingField)
    else if |claims.chain| >= MAX_DELEG_DEPTH then Some(ErrDepthExceeded)
    else if !Scope.Subset(req.scope, claims.scope) then Some(ErrScopeViolation)
    else if req.delegateTo !in agents then Some(ErrDelegateNotFound)
    else None
  }

  function ExtendedChain(p: Primitives, key: string, claims: TknClaims, at: int): seq<DelegRecord> {
    claims.chain + [SignedRecord(p, key, claims.sub, claims.scope, at)]
  }

  /** The request a delegation issues. */
  function DelegatedReq(p: Primitives, key: string, claims: TknClaims, req: DelegReq, at: int): IssueReq {
    var chain := ExtendedChain(p, key, claims, at);
    IssueReq(req.delegateTo, claims.aud, req.scope, claims.taskId, claims.orchId, "",
             if req.ttl <= 0 then DEFAULT_DELEG_TTL else req.ttl, chain, ChainHash(p, chain))
  }

  /** The record's signature is this key's over agent, comma-joined scopes and time, with bars between them. */
  predicate Signed(p: Primitives, key: string, r: DelegRecord) {
    r.signature == p.hex(p.sign(key, r.agent + "|" + Join(r.scope, ',') + "|" + p.timeText(r.delegatedAt)))
  }

  /** The record's signature reads as hex and verifies for that text. */
  predicate LinkVerifies(p: Primitives, pubKey: string, r: DelegRecord) {
    && p.decodeHex(r.signature).Some?
    && p.verify(pubKey, r.agent + "|" + Join(r.scope, ',') + "|" + p.timeText(r.delegatedAt), p.decodeHex(r.signature).value)
  }

  lemma SignedVerifies(p: Primitives, key: string, r: DelegRecord)
    requires Signed(p, key, r)
    ensures SignatureLaw(p) && HexLaws(p) ==> LinkVerifies(p, p.publicKey(key), r)
  {
    var text := r.agent + "|" + Join(r.scope, ',') + "|" + p.timeText(r.delegatedAt);
    if SignatureLaw(p) && HexLaws(p) {
      assert p.verify(p.publicKey(key), text, p.sign(key, text));
      assert p.decodeHex(p.hex(p.sign(key, text))) == Some(p.sign(key, text));
    }
  }

  /** A delegate's claims: its name and scope, the delegator's surroundings, and one signed record more. */
  predicate HandedOn(p: Primitives, svc: Service, key: string, claims: TknClaims, req: DelegReq, at: int, c: TknClaims) {
    && c.iss == svc.cfg.issuer && c.sub == req.delegateTo && c.scope == req.scope && c.aud == claims.aud
    && c.taskId == claims.taskId && c.orchId == claims.orchId && c.sid == "" && c.iat == c.nbf
    && LivesFor(svc.cfg, c, if req.ttl > 0 then req.ttl else 60)
    && |c.chain| == |claims.chain| + 1 && c.chain[..|claims.chain|] == claims.chain
    && c.chainHash == p.hex(p.sha256(p.chainJson(c.chain)))
    && var link := c.chain[|claims.chain|];
    && link.agent == claims.sub && link.scope == claims.scope && link.delegatedAt == at && Signed(p, key, link)
  }

  lemma HandedOnBy(p: Primitives, svc: Service, key: string, claims: TknClaims, req: DelegReq, at: int, now: int, jti: string)
    ensures HandedOn(p, svc, key, claims, req, at, IssuedClaims(svc.cfg, DelegatedReq(p, key, claims, req, at), now, jti))
  {
  }

  /** A delegation goes through exactly when it is complete, short of five links, to a known agent and within the scopes. */
  lemma RefusedExactly(agents: map<string, AgentRecord>, claims: TknClaims, req: DelegReq)
    ensures Refusal(agents, claims, req).None? <==>
              && req.delegateTo != "" && req.scope != [] && |claims.chain| < 5
              && Scope.AllWellFormed(req.scope) && Scope.Meaning(req.scope) <= Scope.Meaning(claims.scope)
              && req.delegateTo in agents
  {
    Scope.SubsetIsInclusion(req.scope, claims.scope);
  }

  class DelegSvc {
    const p: Primitives
    const svc: Service
    const signingKey: string
    const store: SqlStore

    constructor (p: Primitives, svc: Service, signingKey: string, store: SqlStore)
      ensures this.p == p && this.svc == svc && this.signingKey == signingKey && this.store == store
    {
      this.p := p;
      this.svc := svc;
      this.signingKey := signingKey;
      this.store := store;
    }

    method SignRecord(agent: string, scope: seq<string>, at: int) returns (rec: DelegRecord)
      ensures rec == SignedRecord(p, signingKey, agent, scope, at)
      ensures rec.agent == agent && rec.scope == scope && rec.delegatedAt == at && Signed(p, signingKey, rec)
      ensures SignatureLaw(p) && HexLaws(p) ==> LinkVerifies(p, p.publicKey(signingKey), rec)
    {
      var csv := ScopeCSV(scope);
      var content := agent + "|" + csv + "|" + p.timeText(at);
      rec := DelegRecord(agent, scope, at, p.hex(p.sign(signingKey, content)));
      SignedVerifies(p, signingKey, rec);
    }

    /** `at` and `issuedAt` are the clock readings for the record and for the token. */
    method Delegate(claims: TknClaims, req: DelegReq, at: int, issuedAt: int, jti: string)
      returns (r: Result<DelegResp, DelegError>)
      ensures match Refusal(store.agents, claims, req)
              case Some(e) => r == Err(e)
              case None =>
                && r.Ok? && r.value.chain == ExtendedChain(p, signingKey, claims, at)
                && r.value.issued == Issue(p, svc, DelegatedReq(p, signingKey, claims, req, at), Unix(issuedAt), jti)
      ensures r.Ok? <==>
                && req.delegateTo != "" && req.scope != [] && |claims.chain| < 5
                && Scope.AllWellFormed(req.scope) && Scope.Meaning(req.scope) <= Scope.Meaning(claims.scope)
                && req.delegateTo in store.agents
      ensures r.Ok? ==>
                && HandedOn(p, svc, signingKey, claims, req, at, r.value.issued.claims)
                && r.value.chain == r.value.issued.claims.chain
    {
      RefusedExactly(store.agents, claims, req);
      HandedOnBy(p, svc, signingKey, claims, req, at, Unix(issuedAt), jti);
      if req.delegateTo == "" || req.scope == [] {
        return Err(ErrMissingField);
      }
      if |claims.chain| >= MAX_DELEG_DEPTH {
        return Err(ErrDepthExceeded);
      }
      var attenuated := Scope.ScopeIsSubset(req.scope, claims.scope);
      if !attenuated {
        return Err(ErrScopeViolation);
      }
      var agent := store.GetAgent(req.delegateTo);
      if agent.Err? {
        return Err(ErrDelegateNotFound);
      }
      var chain := claims.chain;
      var newRecord := SignRecord(claims.sub, claims.scope, at);
      chain := chain + [newRecord];
      var ttl := req.ttl;
      if ttl <= 0 {
        ttl := DEFAULT_DELEG_TTL;
      }
      var issued := Issue(p, svc, IssueReq(req.delegateTo, claims.aud, req.scope, claims.taskId, claims.orchId, "",
                                           ttl, chain, ChainHash(p, chain)), Unix(issuedAt), jti);
      return Ok(DelegResp(issued, chain));
    }
  }

  // ---------- what a record signature pins down ----------

  lemma ContentJoins(p: Primitives, agent: string, scope: seq<string>, at: int)
    ensures RecordContent(p, agent, scope, at) == Join([agent, Join(scope, ','), p.timeText(at)], '|')
  {
    var parts := [agent, Join(scope, ','), p.timeText(at)];
    assert parts[1..] == [parts[1], parts[2]];
    assert parts[1..][1..] == [parts[2]];
    assert Join(parts[1..], '|') == parts[1] + "|" + parts[2];
    assert agent + "|" + (parts[1] + "|" + parts[2]) == RecordContent(p, agent, scope, at);
  }

  /**
   For bar-free agents and non-empty scope lists, two records are signed over the same content exactly
   when agent and instant agree and the scope lists agree once split at commas.
   */
  lemma ContentEqualExactly(p: Primitives, a: string, s: seq<string>, t: int, a': string, s': seq<string>, t': int)
    requires TimeLaws(p) && '|' !in a && '|' !in a' && s != [] && s' != []
    ensures RecordContent(p, a, s, t) == RecordContent(p, a', s', t') <==>
            a == a' && t == t' && FlatSplit(s, ',') == FlatSplit(s', ',')
  {
    JoinEqualIff(s, s', ',');
    if RecordContent(p, a, s, t) == RecordContent(p, a', s', t') {
      ContentJoins(p, a, s, t);
      ContentJoins(p, a', s', t');
      var x, y := [a, Join(s, ','), p.timeText(t)], [a', Join(s', ','), p.timeText(t')];
      assert x[..1] == [a] && x[2..] == [p.timeText(t)] && y[..1] == [a'] && y[2..] == [p.timeText(t')];
      JoinUniqueButOne(x, y, 1, '|');
      assert x[0] == y[0] && x[1] == y[1] && x[2] == y[2];
      TimeTextInjective(p, t, t');
    }
  }

  /** With comma-free scopes the signed content determines the record; a scope may hold bars. */
  lemma ContentDecodable(p: Primitives, a: string, s: seq<string>, t: int, a': string, s': seq<string>, t': int)
    requires TimeLaws(p) && '|' !in a && '|' !in a' && s != [] && s' != []
    requires FreeOf(s, ',') && FreeOf(s', ',')
    requires RecordContent(p, a, s, t) == RecordContent(p, a', s', t')
    ensures a == a' && s == s' && t == t'
  {
    ContentEqualExactly(p, a, s, t, a', s', t');
    FlatSplitFree(s, ',');
    FlatSplitFree(s', ',');
  }

  /**
   A comma inside an identifier is a well-formed scope, and then two scope lists share one signed content:
   `read:data:a,write:data:b` as one scope or as two.
   */
  lemma CommaScopesCollide(p: Primitives, agent: string, at: int, x: string, y: string)
    requires Scope.WellFormed(x) && Scope.WellFormed(y)
    ensures Scope.AllWellFormed([x + "," + y]) && Scope.AllWellFormed([x, y]) && [x + "," + y] != [x, y]
    ensures RecordContent(p, agent, [x + "," + y], at) == RecordContent(p, agent, [x, y], at)
  {
    CommaScopeWellFormed(x, y);
    JoinTwo(x, y, x + "," + y);
    assert |[x + "," + y]| != |[x, y]|;
  }

  lemma CommaScopeWellFormed(x: string, y: string)
    requires Scope.WellFormed(x)
    ensures Scope.WellFormed(x + "," + y)
  {
    LongerIdentifierWellFormed(x, "," + y);
    assert x + ("," + y) == x + "," + y;
  }

  lemma JoinTwo(x: string, y: string, one: string)
    requires one == x + "," + y
    ensures Join([x, y], ',') == one == Join([one], ',')
  {
    assert [x, y][1..] == [y];
  }

  lemma LongerIdentifierWellFormed(x: string, more: string)
    requires Scope.WellFormed(x)
    ensures Scope.WellFormed(x + more)
  {
    var q := Scope.ParseScope(x).value;
    Scope.ParseScopeExact(x, q);
    var longer := q.(identifier := q.identifier + more);
    assert longer.action + ":" + (longer.resource + ":" + longer.identifier) == x + more;
    Scope.RenderedParses(x + more, longer);
  }

  /** Splitting the csv at commas gives the scopes back exactly when no scope holds a comma. */
  lemma CsvReadsBackExactly(scopes: seq<string>)
    requires scopes != []
    ensures Split(Join(scopes, ','), ',') == scopes <==> FreeOf(scopes, ',')
  {
    SplitJoin(scopes, ',');
    if FreeOf(scopes, ',') {
      FlatSplitFree(scopes, ',');
    }
    SplitPartsFree(Join(scopes, ','), ',');
  }

  // ---------- one key, two uses ----------

  /** No agent name holds a bar, and no scope a comma. */
  predicate Plain(r: DelegRecord) {
    '|' !in r.agent && r.scope != [] && FreeOf(r.scope, ',')
  }

  predicate SameLink(r: DelegRecord, q: DelegRecord) {
    r.agent == q.agent && r.scope == q.scope && r.delegatedAt == q.delegatedAt
  }

  /** Every text the key has signed is the input of a token or the content of one of these records. */
  ghost predicate LinkTexts(p: Primitives, svc: Service, issued: set<TknClaims>, records: set<DelegRecord>, signed: set<string>) {
    forall m | m in signed ::
      || (exists c | c in issued :: m == SigningInput(p, svc, c))
      || (exists r | r in records :: m == RecordContent(p, r.agent, r.scope, r.delegatedAt))
  }

  /**
   A link that verifies is one the broker signed: with another agent, scope list or time it shows a text the key never
   signed, and a signature that verifies for it. No signed token passes as a link.
   */
  lemma LinkVerifiesOnlySigned(p: Primitives, svc: Service, issued: set<TknClaims>, records: set<DelegRecord>,
                               signed: set<string>, link: DelegRecord)
    requires TimeLaws(p) && EncodingLaws(p) && LinkTexts(p, svc, issued, records, signed)
    requires Plain(link) && (forall r | r in records :: Plain(r)) && LinkVerifies(p, svc.pubKey, link)
    ensures || (exists r | r in records :: SameLink(r, link))
            || Forgery(p, svc.pubKey, signed, link.agent + "|" + Join(link.scope, ',') + "|" + p.timeText(link.delegatedAt),
                       p.decodeHex(link.signature).value)
  {
    var text := RecordContent(p, link.agent, link.scope, link.delegatedAt);
    if text in signed {
      forall c | c in issued ensures text != SigningInput(p, svc, c) {
        RecordIsNoSigningInput(p, p.encode(p.headerJson(Header("EdDSA", "JWT", svc.kid))), p.encode(p.claimsJson(c)),
                               link.agent, link.scope, link.delegatedAt);
      }
      var r :| r in records && text == RecordContent(p, r.agent, r.scope, r.delegatedAt);
      ContentDecodable(p, link.agent, link.scope, link.delegatedAt, r.agent, r.scope, r.delegatedAt);
      assert SameLink(r, link);
    }
  }

  /** Every text the broker's key has signed is the input of an issued token or the content of a delegation record. */
  ghost predicate BrokerTexts(p: Primitives, svc: Service, issued: set<TknClaims>, signed: set<string>) {
    forall m | m in signed ::
      || (exists c | c in issued :: m == SigningInput(p, svc, c))
      || (exists a, s, t :: m == RecordContent(p, a, s, t))
  }

  /** A signature that verifies for a text its key never signed. */
  predicate Forgery(p: Primitives, pubKey: string, signed: set<string>, text: string, sig: string) {
    text !in signed && p.verify(pubKey, text, sig)
  }

  /** Between accepted dots there is only base64 text, so no bar. */
  lemma AcceptedShape(p: Primitives, svc: Service, rev: Option<Revocations>, tokenStr: string, now: int)
    requires EncodingLaws(p) && Verify(p, svc, rev, tokenStr, now).Ok?
    ensures var (header, payload, signature) := SplitToken(tokenStr).value;
            && Base64Text(header) && Base64Text(payload)
            && p.decode(signature).Some? && p.verify(svc.pubKey, header + "." + payload, p.decode(signature).value)
            && p.decode(payload).Some?
            && p.parseClaims(p.decode(payload).value) == Some(Verify(p, svc, rev, tokenStr, now).value)
  {
  }

  lemma RecordIsNoSigningInput(p: Primitives, header: string, payload: string, a: string, s: seq<string>, t: int)
    requires Base64Text(header) && Base64Text(payload)
    ensures header + "." + payload != RecordContent(p, a, s, t)
  {
    var input, content := header + "." + payload, RecordContent(p, a, s, t);
    assert content[|a|] == '|';
    if |a| < |input| {
      assert input[|a|] in header || input[|a|] == '.' || input[|a|] in payload;
    }
  }

  lemma SigningInputFixesPayload(p: Primitives, svc: Service, header: string, payload: string, c: TknClaims)
    requires EncodingLaws(p) && Base64Text(header)
    requires header + "." + payload == SigningInput(p, svc, c)
    ensures payload == p.encode(p.claimsJson(c))
  {
    var h := p.encode(p.headerJson(Header("EdDSA", "JWT", svc.kid)));
    assert Base64Text(h);
    CutChar(header, '.', payload);
    CutChar(h, '.', p.encode(p.claimsJson(c)));
  }

  /** The token text holds a forgery: its first two parts were never signed, yet its third verifies for them. */
  predicate HoldsForgery(p: Primitives, svc: Service, signed: set<string>, tokenStr: string) {
    match SplitToken(tokenStr)
    case None => false
    case Some((header, payload, signature)) =>
      p.decode(signature).Some? && Forgery(p, svc.pubKey, signed, header + "." + payload, p.decode(signature).value)
  }

  /**
   One key signs tokens and delegation records. A text accepted as a token carries claims the broker issued, or it
   holds a forgery; no signed delegation record passes as a token.
   */
  lemma VerifyAcceptsOnlyIssued(p: Primitives, svc: Service, rev: Option<Revocations>, issued: set<TknClaims>,
                                signed: set<string>, tokenStr: string, now: int)
    requires EncodingLaws(p) && JsonLaws(p) && BrokerTexts(p, svc, issued, signed)
    requires Verify(p, svc, rev, tokenStr, now).Ok?
    ensures Verify(p, svc, rev, tokenStr, now).value in issued || HoldsForgery(p, svc, signed, tokenStr)
  {
    AcceptedShape(p, svc, rev, tokenStr, now);
    var (header, payload, signature) := SplitToken(tokenStr).value;
    if header + "." + payload in signed {
      SignedShapeIssued(p, svc, issued, signed, header, payload);
    }
  }

  /** A signed text of token shape is the input of an issued token. */
  lemma SignedShapeIssued(p: Primitives, svc: Service, issued: set<TknClaims>, signed: set<string>, header: string,
                          payload: string)
    requires EncodingLaws(p) && JsonLaws(p) && BrokerTexts(p, svc, issued, signed)
    requires Base64Text(header) && Base64Text(payload) && header + "." + payload in signed
    ensures p.decode(payload).Some? && p.parseClaims(p.decode(payload).value).Some?
    ensures p.parseClaims(p.decode(payload).value).value in issued
  {
    forall a, s, t ensures header + "." + payload != RecordContent(p, a, s, t) {
      RecordIsNoSigningInput(p, header, payload, a, s, t);
    }
    var c :| c in issued && header + "." + payload == SigningInput(p, svc, c);
    SigningInputFixesPayload(p, svc, header, payload, c);
    assert p.decode(payload) == Some(p.claimsJson(c));
    assert p.parseClaims(p.claimsJson(c)) == Some(c);
  }

  /** A token text handed out holds no forgery, whatever else the key has signed. */
  lemma IssuedHoldsNoForgery(p: Primitives, svc: Service, signed: set<string>, claims: TknClaims)
    requires EncodingLaws(p) && SigningInput(p, svc, claims) in signed
    ensures !HoldsForgery(p, svc, signed, Sign(p, svc, claims))
  {
    SplitUndoesSign(p, svc, claims);
  }
}
