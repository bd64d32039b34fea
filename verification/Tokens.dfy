/**
 Issue, verify and renew tokens (internal/token/tkn_svc.go). `Service` is the
 configuration and the keys of one TknSvc; times are Unix seconds.
 */
module Tokens {
  import opened Wrappers
  import opened Text
  import opened Clock
  import opened Claims
  import opened Crypto
  import opened Revocation

  datatype Config = Config(issuer: string, defaultTtl: int, maxTtl: int)

  datatype Service = Service(cfg: Config, signingKey: string, pubKey: string, kid: string)

  datatype IssueReq = IssueReq(
    sub: string, aud: seq<string>, scope: seq<string>, taskId: string, orchId: string, sid: string,
    ttl: int, chain: seq<DelegRecord>, chainHash: string)

  datatype IssueResp = IssueResp(accessToken: string, expiresIn: int, claims: TknClaims)

  function EffectiveTtl(cfg: Config, requested: int): int {
    var ttl := if requested <= 0 then cfg.defaultTtl else requested;
    if cfg.maxTtl > 0 && ttl > cfg.maxTtl then cfg.maxTtl else ttl
  }

  function IssuedClaims(cfg: Config, req: IssueReq, now: int, jti: string): TknClaims {
    TknClaims(cfg.issuer, req.sub, req.aud, now + EffectiveTtl(cfg, req.ttl), now, now, jti, req.sid,
              req.scope, req.taskId, req.orchId, req.chain, req.chainHash)
  }

  /** The RFC 7638 thumbprint of an Ed25519 key. */
  function ComputeKid(p: Primitives, pubKey: string): string {
    p.encode(p.sha256("{\"crv\":\"Ed25519\",\"kty\":\"OKP\",\"x\":\"" + p.encode(pubKey) + "\"}"))
  }

  function NewService(p: Primitives, signingKey: string, pubKey: string, cfg: Config): Service {
    Service(cfg, signingKey, pubKey, ComputeKid(p, pubKey))
  }

  function SigningInput(p: Primitives, svc: Service, claims: TknClaims): string {
    p.encode(p.headerJson(Header("EdDSA", "JWT", svc.kid))) + "." + p.encode(p.claimsJson(claims))
  }

  function Sign(p: Primitives, svc: Service, claims: TknClaims): string {
    var input := SigningInput(p, svc, claims);
    input + "." + p.encode(p.sign(svc.signingKey, input))
  }

  function Issue(p: Primitives, svc: Service, req: IssueReq, now: int, jti: string): IssueResp {
    var claims := IssuedClaims(svc.cfg, req, now, jti);
    IssueResp(Sign(p, svc, claims), EffectiveTtl(svc.cfg, req.ttl), claims)
  }

  /** Header, payload and signature: the text is split at its first two dots. */
  function SplitToken(s: string): Option<(string, string, string)> {
    match Cut(s, ".")
    case None => None
    case Some((header, rest)) =>
      match Cut(rest, ".")
      case None => None
      case Some((payload, signature)) => Some((header, payload, signature))
  }

  /** What is checked of decoded claims: structure, time, issuer, revocation. `None` means no revoker is set. */
  function Admit(cfg: Config, rev: Option<Revocations>, claims: TknClaims, now: int): Result<TknClaims, TokenError> {
    match Validate(claims, now)
    case Some(e) => Err(e)
    case None =>
      if cfg.issuer != "" && claims.iss != cfg.issuer then Err(ErrInvalidIssuer)
      else if rev.Some? && IsRevoked(rev.value, claims) then Err(ErrTokenRevoked)
      else Ok(claims)
  }

  function Verify(p: Primitives, svc: Service, rev: Option<Revocations>, tokenStr: string, now: int)
    : Result<TknClaims, TokenError>
  {
    match SplitToken(tokenStr)
    case None => Err(ErrInvalidToken)
    case Some((header, payload, signature)) =>
      match p.decode(header)
      case None => Err(ErrInvalidToken)
      case Some(headerText) =>
        match p.parseHeader(headerText)
        case None => Err(ErrInvalidToken)
        case Some(h) =>
          if h.alg != "EdDSA" || (h.kid != "" && h.kid != svc.kid) then Err(ErrInvalidToken)
          else
            match p.decode(signature)
            case None => Err(ErrSignatureInvalid)
            case Some(sig) =>
              if !p.verify(svc.pubKey, header + "." + payload, sig) then Err(ErrSignatureInvalid)
              else
                match p.decode(payload)
                case None => Err(ErrInvalidToken)
                case Some(payloadText) =>
                  match p.parseClaims(payloadText)
                  case None => Err(ErrInvalidToken)
                  case Some(claims) => Admit(svc.cfg, rev, claims, now)
  }

  /** The request a renewal issues from verified claims. */
  function RenewalReq(cfg: Config, c: TknClaims): IssueReq {
    var originalTtl := if c.exp - c.iat <= 0 then cfg.defaultTtl else c.exp - c.iat;
    IssueReq(c.sub, c.aud, c.scope, c.taskId, c.orchId, c.sid, originalTtl, c.chain, c.chainHash)
  }

  /** The claims live as long as asked for, or by default, but no longer than a positive maximum. */
  predicate LivesFor(cfg: Config, c: TknClaims, asked: int) {
    && (asked > 0 && (cfg.maxTtl <= 0 || asked <= cfg.maxTtl) ==> c.exp - c.iat == asked)
    && (asked <= 0 && (cfg.maxTtl <= 0 || cfg.defaultTtl <= cfg.maxTtl) ==> c.exp - c.iat == cfg.defaultTtl)
    && (0 < cfg.maxTtl < (if asked > 0 then asked else cfg.defaultTtl) ==> c.exp - c.iat == cfg.maxTtl)
  }

  /** New identifier, new times and the old lifetime; everything else as in the predecessor. */
  predicate Renews(cfg: Config, prior: TknClaims, c: TknClaims, now: int, jti: string) {
    && c == prior.(iss := cfg.issuer, jti := jti, iat := now, nbf := now, exp := c.exp)
    && LivesFor(cfg, c, prior.exp - prior.iat)
  }

  lemma RenewedClaims(cfg: Config, claims: TknClaims, now: int, jti: string)
    ensures Renews(cfg, claims, IssuedClaims(cfg, RenewalReq(cfg, claims), now, jti), now, jti)
  {
  }

  class TknSvc {
    const p: Primitives
    const svc: Service
    var revoker: RevSvc?

    constructor (p: Primitives, signingKey: string, pubKey: string, cfg: Config)
      ensures this.p == p && svc == NewService(p, signingKey, pubKey, cfg) && revoker == null
      ensures svc.kid == p.encode(p.sha256("{\"crv\":\"Ed25519\",\"kty\":\"OKP\",\"x\":\"" + p.encode(pubKey) + "\"}"))
    {
      this.p := p;
      svc := NewService(p, signingKey, pubKey, cfg);
      revoker := null;
    }

    method SetRevoker(r: RevSvc)
      modifies this`revoker
      ensures revoker == r
    {
      revoker := r;
    }

    function Revoked(): Option<Revocations>
      reads this, revoker
    {
      if revoker == null then None else Some(revoker.State())
    }

    /** `verifiedAt` and `issuedAt` are the two clock readings; `dbOk` says whether the revocation is persisted. */
    method Renew(tokenStr: string, verifiedAt: int, issuedAt: int, jti: string, dbOk: bool)
      returns (r: Result<IssueResp, TokenError>)
      modifies if revoker == null then {} else {revoker as object, revoker.table}
      ensures match old(Verify(p, svc, Revoked(), tokenStr, verifiedAt))
              case Err(e) =>
                r == Err(e) && (revoker != null ==> revoker.State() == old(revoker.State())
                                                    && revoker.table.rows == old(revoker.table.rows))
              case Ok(claims) =>
                && r == Ok(Issue(p, svc, RenewalReq(svc.cfg, claims), issuedAt, jti))
                && Renews(svc.cfg, claims, r.value.claims, issuedAt, jti)
                && (revoker != null ==>
                      && revoker.State() == Add(old(revoker.State()), Entry("token", claims.jti))
                      && revoker.table.rows == if dbOk then Inserted(old(revoker.table.rows), Entry("token", claims.jti))
                                               else old(revoker.table.rows))
    {
      var verified := Verify(p, svc, Revoked(), tokenStr, verifiedAt);
      if verified.Err? {
        return Err(verified.error);
      }
      var claims := verified.value;
      AdmittedClaims(p, svc, Revoked(), tokenStr, verifiedAt);
      if revoker != null {
        var revocation := revoker.RevokeByJTI(claims.jti, dbOk);
      }
      RenewedClaims(svc.cfg, claims, issuedAt, jti);
      var originalTtl := claims.exp - claims.iat;
      if originalTtl <= 0 {
        originalTtl := svc.cfg.defaultTtl;
      }
      return Ok(Issue(p, svc, IssueReq(claims.sub, claims.aud, claims.scope, claims.taskId, claims.orchId, claims.sid,
                                       originalTtl, claims.chain, claims.chainHash), issuedAt, jti));
    }
  }

  // ---------- the token text ----------

  lemma AdmittedClaims(p: Primitives, svc: Service, rev: Option<Revocations>, tokenStr: string, now: int)
    requires Verify(p, svc, rev, tokenStr, now).Ok?
    ensures var c := Verify(p, svc, rev, tokenStr, now).value;
            c.jti != "" && c.sub != "" && Admit(svc.cfg, rev, c, now) == Ok(c)
  {
  }

  /** Three parts between two dots. */
  predicate Parts(s: string, header: string, payload: string, signature: string) {
    s == header + "." + payload + "." + signature && '.' !in header && '.' !in payload
  }

  /** The parts are signed by this service's key under its algorithm and key name, and the payload reads as the claims. */
  predicate SignedParts(p: Primitives, svc: Service, header: string, payload: string, signature: string, c: TknClaims) {
    && p.decode(header).Some? && p.parseHeader(p.decode(header).value).Some?
    && var h := p.parseHeader(p.decode(header).value).value;
    && h.alg == "EdDSA" && (h.kid == "" || h.kid == svc.kid)
    && p.decode(signature).Some? && p.verify(svc.pubKey, header + "." + payload, p.decode(signature).value)
    && p.decode(payload).Some? && p.parseClaims(p.decode(payload).value) == Some(c)
  }

  /** The claims name a subject, an identifier and an expiry, are in force now and come from the configured issuer. */
  predicate InForce(cfg: Config, c: TknClaims, now: int) {
    && c.sub != "" && c.jti != "" && 0 < c.exp && now <= c.exp && (c.nbf == 0 || c.nbf <= now)
    && (cfg.issuer == "" || c.iss == cfg.issuer)
  }

  ghost predicate SignedText(p: Primitives, svc: Service, s: string, c: TknClaims) {
    exists h, q, t :: Parts(s, h, q, t) && SignedParts(p, svc, h, q, t, c)
  }

  /** Whatever the text: it verifies to these claims exactly when they are signed in it, in force and not revoked. */
  lemma VerifyAcceptsExactly(p: Primitives, svc: Service, rev: Option<Revocations>, s: string, c: TknClaims, now: int)
    ensures Verify(p, svc, rev, s, now) == Ok(c) <==>
              && SignedText(p, svc, s, c) && InForce(svc.cfg, c, now)
              && !(rev.Some? && exists e :: Listed(rev.value, e) && Targets(e, c))
  {
    AdmitExactly(svc.cfg, rev, c, now);
    if Verify(p, svc, rev, s, now) == Ok(c) {
      var (h, q, t) := SplitToken(s).value;
      SplitParts(s);
      VerifyByParts(p, svc, rev, s, h, q, t, c, now);
    }
    if SignedText(p, svc, s, c) {
      var h, q, t :| Parts(s, h, q, t) && SignedParts(p, svc, h, q, t, c);
      PartsSplit(s, h, q, t);
      VerifyByParts(p, svc, rev, s, h, q, t, c, now);
    }
  }

  lemma AdmitExactly(cfg: Config, rev: Option<Revocations>, c: TknClaims, now: int)
    ensures Admit(cfg, rev, c, now) == Ok(c) <==>
              InForce(cfg, c, now) && !(rev.Some? && exists e :: Listed(rev.value, e) && Targets(e, c))
    ensures Admit(cfg, rev, c, now) == Err(ErrTokenRevoked) <==>
              InForce(cfg, c, now) && rev.Some? && exists e :: Listed(rev.value, e) && Targets(e, c)
  {
    if rev.Some? {
      RevokedExactly(rev.value, c);
    }
  }

  lemma VerifyByParts(p: Primitives, svc: Service, rev: Option<Revocations>, s: string, h: string, q: string, t: string,
                      c: TknClaims, now: int)
    requires SplitToken(s) == Some((h, q, t))
    ensures Verify(p, svc, rev, s, now) == Ok(c) <==>
              SignedParts(p, svc, h, q, t, c) && Admit(svc.cfg, rev, c, now) == Ok(c)
  {
  }

  lemma SplitParts(s: string)
    requires SplitToken(s).Some?
    ensures var (h, q, t) := SplitToken(s).value; Parts(s, h, q, t)
  {
    var (h, rest) := Cut(s, ".").value;
    var (q, t) := Cut(rest, ".").value;
    CutParts(s, ".");
    CutParts(rest, ".");
    CutCharExact(s, '.');
    CutCharExact(rest, '.');
    ThreeParts(h, q, t);
  }

  lemma ThreeParts(h: string, q: string, t: string)
    ensures h + "." + (q + "." + t) == h + "." + q + "." + t
  {
  }

  lemma PartsSplit(s: string, h: string, q: string, t: string)
    requires Parts(s, h, q, t)
    ensures SplitToken(s) == Some((h, q, t))
  {
    ThreeParts(h, q, t);
    CutChar(h, '.', q + "." + t);
    CutChar(q, '.', t);
  }

  /** Splitting at the dots undoes signing, because the encoding has no dot (RFC 7515, section 7.1). */
  lemma SplitUndoesSign(p: Primitives, svc: Service, claims: TknClaims)
    requires EncodingLaws(p)
    ensures SplitToken(Sign(p, svc, claims))
         == Some((p.encode(p.headerJson(Header("EdDSA", "JWT", svc.kid))), p.encode(p.claimsJson(claims)),
                  p.encode(p.sign(svc.signingKey, SigningInput(p, svc, claims)))))
  {
    var h := p.encode(p.headerJson(Header("EdDSA", "JWT", svc.kid)));
    var c := p.encode(p.claimsJson(claims));
    var s := p.encode(p.sign(svc.signingKey, SigningInput(p, svc, claims)));
    assert Sign(p, svc, claims) == h + "." + (c + "." + s);
    assert Base64Text(h) && Base64Text(c);
    CutChar(h, '.', c + "." + s);
    CutChar(c, '.', s);
  }

  /** A token signed by this service is judged by its claims alone. */
  lemma VerifyOfSigned(p: Primitives, svc: Service, rev: Option<Revocations>, claims: TknClaims, now: int)
    requires Lawful(p) && svc.pubKey == p.publicKey(svc.signingKey)
    ensures Verify(p, svc, rev, Sign(p, svc, claims), now) == Admit(svc.cfg, rev, claims, now)
  {
    SplitUndoesSign(p, svc, claims);
    var header := Header("EdDSA", "JWT", svc.kid);
    assert p.parseHeader(p.headerJson(header)) == Some(header);
    assert p.decode(p.encode(p.headerJson(header))) == Some(p.headerJson(header));
  }

  /** A freshly issued token verifies to its own claims exactly from issue through expiry, unless revoked. */
  lemma IssueThenVerify(p: Primitives, svc: Service, rev: Option<Revocations>, req: IssueReq, issuedAt: int,
                        jti: string, now: int)
    requires Lawful(p) && svc.pubKey == p.publicKey(svc.signingKey)
    requires req.sub != "" && jti != "" && issuedAt > 0
    ensures var issued := Issue(p, svc, req, issuedAt, jti);
            var verified := Verify(p, svc, rev, issued.accessToken, now);
            && (verified == Ok(issued.claims) <==>
                  && issued.claims.iat <= now <= issued.claims.exp
                  && !(rev.Some? && IsRevoked(rev.value, issued.claims)))
            && (verified.Ok? ==> verified.value == issued.claims)
  {
    VerifyOfSigned(p, svc, rev, IssuedClaims(svc.cfg, req, issuedAt, jti), now);
  }

  /** The claims a token text carries do not depend on when or against which revocations it is verified. */
  lemma VerifiedClaimsFixed(p: Primitives, svc: Service, rev: Option<Revocations>, now: int,
                            rev': Option<Revocations>, now': int, tokenStr: string)
    requires Verify(p, svc, rev, tokenStr, now).Ok? && Verify(p, svc, rev', tokenStr, now').Ok?
    ensures Verify(p, svc, rev, tokenStr, now) == Verify(p, svc, rev', tokenStr, now')
  {
  }

  // ---------- lifetimes ----------

  /** What Issue promises is what the claims say, and that is the lifetime asked for, within the configured bounds. */
  lemma LifetimeExactly(p: Primitives, svc: Service, req: IssueReq, now: int, jti: string)
    ensures var issued := Issue(p, svc, req, now, jti);
            && LivesFor(svc.cfg, issued.claims, req.ttl) && issued.claims.iat == issued.claims.nbf == now
            && issued.expiresIn == issued.claims.exp - issued.claims.iat
  {
  }

  /** Issue never exceeds a positive MaxTTL, and a positive DefaultTTL makes every lifetime positive. */
  lemma LifetimeBounds(cfg: Config, req: IssueReq, now: int, jti: string)
    ensures var c := IssuedClaims(cfg, req, now, jti);
            && (cfg.maxTtl > 0 ==> c.exp - c.iat <= cfg.maxTtl)
            && (cfg.defaultTtl > 0 ==> c.exp - c.iat > 0)
  {
  }

  /** Under one configuration a renewal lives exactly as long as the token it replaces. */
  lemma RenewalKeepsLifetime(cfg: Config, req: IssueReq, issuedAt: int, jti: string, renewedAt: int, jti': string)
    ensures var c := IssuedClaims(cfg, req, issuedAt, jti);
            var c' := IssuedClaims(cfg, RenewalReq(cfg, c), renewedAt, jti');
            c'.exp - c'.iat == c.exp - c.iat
  {
  }
}
