/** Token claims and their structural check (internal/token/tkn_claims.go). */
module Claims {
  import opened Wrappers

  datatype DelegRecord = DelegRecord(agent: string, scope: seq<string>, delegatedAt: int, signature: string)

  datatype TknClaims = TknClaims(
    iss: string, sub: string, aud: seq<string>, exp: int, nbf: int, iat: int, jti: string, sid: string,
    scope: seq<string>, taskId: string, orchId: string, chain: seq<DelegRecord>, chainHash: string)

  datatype TokenError =
    | ErrInvalidToken | ErrSignatureInvalid | ErrTokenRevoked | ErrInvalidIssuer
    | ErrTokenExpired | ErrTokenNotYetValid | ErrMissingJTI | ErrMissingSubject | ErrNoExpiry

  function Validate(c: TknClaims, now: int): Option<TokenError> {
    if c.sub == "" then Some(ErrMissingSubject)
    else if c.jti == "" then Some(ErrMissingJTI)
    else if c.exp <= 0 then Some(ErrNoExpiry)
    else if now > c.exp then Some(ErrTokenExpired)
    else if c.nbf != 0 && now < c.nbf then Some(ErrTokenNotYetValid)
    else None
  }
}
