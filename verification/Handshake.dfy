/**
 The three-step mutual authentication between agents (internal/mutauth/mut_auth_hdl.go).
 The steps run at different times, against the store and the revocations of their moment.
 */
module Handshake {
  import opened Wrappers
  import opened Claims
  import opened Crypto
  import opened Store
  import opened Revocation
  import opened Tokens
  import opened Delegation
  import opened Identity

  datatype HandshakeReq = HandshakeReq(initiatorToken: string, initiatorId: string, targetAgentId: string, nonce: string)

  datatype HandshakeResp = HandshakeResp(responderToken: string, responderId: string, signedNonce: string, nonce: string)

  datatype HandshakeError =
    | ErrHandshakeToken | ErrUnknownAgent | ErrNonceMismatch | ErrPeerMismatch | ErrInitiatorMismatch
    | ErrResponderMismatch | ErrAgentNotBound

  /** What one step sees: the token service, revocations, agents, the time, and the discovery bindings if any. */
  datatype View = View(p: Primitives, svc: Service, rev: Option<Revocations>, agents: map<string, AgentRecord>,
                       now: int, bindings: Option<map<string, string>>)

  function VerifyIn(v: View, token: string): Result<TknClaims, TokenError> {
    Verify(v.p, v.svc, v.rev, token, v.now)
  }

  /** The nonce is fresh randomness. */
  function InitiateHandshake(v: View, token: string, target: string, nonce: string): Result<HandshakeReq, HandshakeError> {
    match VerifyIn(v, token)
    case Err(_) => Err(ErrHandshakeToken)
    case Ok(claims) =>
      if claims.sub !in v.agents || target !in v.agents then Err(ErrUnknownAgent)
      else Ok(HandshakeReq(token, claims.sub, target, nonce))
  }

  function RespondToHandshake(v: View, req: HandshakeReq, token: string, key: string, counterNonce: string)
    : Result<HandshakeResp, HandshakeError>
  {
    match VerifyIn(v, req.initiatorToken)
    case Err(_) => Err(ErrHandshakeToken)
    case Ok(init) =>
      if init.sub != req.initiatorId then Err(ErrInitiatorMismatch)
      else if init.sub !in v.agents then Err(ErrUnknownAgent)
      else
        match VerifyIn(v, token)
        case Err(_) => Err(ErrHandshakeToken)
        case Ok(resp) =>
          if resp.sub !in v.agents then Err(ErrUnknownAgent)
          else if resp.sub != req.targetAgentId then Err(ErrPeerMismatch)
          else if v.bindings.Some? && req.targetAgentId !in v.bindings.value then Err(ErrAgentNotBound)
          else Ok(HandshakeResp(token, resp.sub, v.p.sign(key, req.nonce), counterNonce))
  }

  function CompleteHandshake(v: View, resp: HandshakeResp, originalNonce: string): Result<bool, HandshakeError> {
    match VerifyIn(v, resp.responderToken)
    case Err(_) => Err(ErrHandshakeToken)
    case Ok(claims) =>
      if claims.sub != resp.responderId then Err(ErrResponderMismatch)
      else if claims.sub !in v.agents then Err(ErrUnknownAgent)
      else if !v.p.verify(v.agents[claims.sub].publicKey, originalNonce, resp.signedNonce) then Err(ErrNonceMismatch)
      else Ok(true)
  }

  /** The token verifies, and its subject is a registered agent. */
  predicate LiveAgent(v: View, token: string) {
    VerifyIn(v, token).Ok? && VerifyIn(v, token).value.sub in v.agents
  }

  /**
   A handshake is begun exactly by a registered agent towards another registered one, and answered exactly by the agent it
   names, if that is bound wherever bindings are kept, to the agent whose token it shows; the nonce signed is the one sent.
   */
  lemma BegunAndAnsweredExactly(v: View, token: string, target: string, nonce: string, req: HandshakeReq, key: string,
                                counterNonce: string)
    ensures var begun := InitiateHandshake(v, token, target, nonce);
            && (begun.Ok? <==> LiveAgent(v, token) && target in v.agents)
            && (begun.Ok? ==> begun.value == HandshakeReq(token, VerifyIn(v, token).value.sub, target, nonce))
    ensures var answered := RespondToHandshake(v, req, token, key, counterNonce);
            && (answered.Ok? <==>
                  && LiveAgent(v, req.initiatorToken) && VerifyIn(v, req.initiatorToken).value.sub == req.initiatorId
                  && LiveAgent(v, token) && VerifyIn(v, token).value.sub == req.targetAgentId
                  && (v.bindings.Some? ==> req.targetAgentId in v.bindings.value))
            && (answered.Ok? ==>
                  answered.value == HandshakeResp(token, req.targetAgentId, v.p.sign(key, req.nonce), counterNonce))
  {
  }

  /** This signature over this nonce verifies under the signer's own public half and no other. */
  ghost predicate SignatureBinds(p: Primitives, key: string, nonce: string) {
    forall pub :: p.verify(pub, nonce, p.sign(key, nonce)) <==> pub == p.publicKey(key)
  }

  /**
   An honest exchange completes exactly when, at completion, the responder's token still verifies, its agent is
   still registered, and the registered key is that of the private key it signed with. Both parties are then the
   ones named: the initiator by its own token, the responder as the intended target.
   */
  lemma HonestHandshakeExactly(v1: View, v2: View, v3: View, initToken: string, target: string, nonce: string,
                               respToken: string, key: string, counterNonce: string)
    requires v1.p == v2.p == v3.p && v1.svc == v2.svc == v3.svc && SignatureBinds(v1.p, key, nonce)
    requires InitiateHandshake(v1, initToken, target, nonce).Ok?
    requires var req := InitiateHandshake(v1, initToken, target, nonce).value;
             RespondToHandshake(v2, req, respToken, key, counterNonce).Ok?
    ensures var req := InitiateHandshake(v1, initToken, target, nonce).value;
            var resp := RespondToHandshake(v2, req, respToken, key, counterNonce).value;
            && (CompleteHandshake(v3, resp, req.nonce) == Ok(true) <==>
                  && VerifyIn(v3, respToken).Ok? && target in v3.agents
                  && v3.agents[target].publicKey == v3.p.publicKey(key))
            && resp.responderId == target && VerifyIn(v2, respToken).value.sub == target
            && req.initiatorId == VerifyIn(v1, initToken).value.sub == VerifyIn(v2, initToken).value.sub
  {
    var req := InitiateHandshake(v1, initToken, target, nonce).value;
    VerifiedClaimsFixed(v1.p, v1.svc, v1.rev, v1.now, v2.rev, v2.now, initToken);
    if VerifyIn(v3, respToken).Ok? {
      VerifiedClaimsFixed(v1.p, v1.svc, v2.rev, v2.now, v3.rev, v3.now, respToken);
    }
  }

  // ---------- who a completed handshake is with ----------

  /** The agent's live token and registered key, as completion looks them up. */
  predicate KeyOf(v: View, id: string, token: string, key: string) {
    && VerifyIn(v, token).Ok? && VerifyIn(v, token).value.sub == id
    && id in v.agents && v.agents[id].publicKey == v.p.publicKey(key)
  }

  /** Any registered agent that signs the nonce completes a handshake meant for another. */
  lemma OtherAgentCompletes(v: View, req: HandshakeReq, other: string, token: string, key: string, counterNonce: string)
    requires SignatureLaw(v.p) && KeyOf(v, other, token, key) && other != req.targetAgentId
    ensures var resp := HandshakeResp(token, other, v.p.sign(key, req.nonce), counterNonce);
            CompleteHandshake(v, resp, req.nonce) == Ok(true) && resp.responderId != req.targetAgentId
  {
    assert v.p.verify(v.p.publicKey(key), req.nonce, v.p.sign(key, req.nonce));
  }

  /**
   An honest reply to a request rewritten in transit, its nonce kept, completes the original handshake: with
   whatever target, and for whatever initiator, the delivered request named.
   */
  lemma RewrittenRequestCompletes(seen: View, v: View, req: HandshakeReq, delivered: HandshakeReq, token: string,
                                  key: string, counterNonce: string)
    requires SignatureLaw(v.p) && seen.p == v.p && delivered.nonce == req.nonce
    requires RespondToHandshake(seen, delivered, token, key, counterNonce).Ok?
    requires KeyOf(v, delivered.targetAgentId, token, key)
    ensures var resp := RespondToHandshake(seen, delivered, token, key, counterNonce).value;
            CompleteHandshake(v, resp, req.nonce) == Ok(true) && resp.responderId == delivered.targetAgentId
  {
    assert v.p.verify(v.p.publicKey(key), req.nonce, v.p.sign(key, req.nonce));
  }

  /** One RespondToHandshake call: what the responder saw, was asked and used. */
  datatype Reply = Reply(seen: View, req: HandshakeReq, token: string, key: string, counterNonce: string)

  function ResponseOf(r: Reply): Result<HandshakeResp, HandshakeError> {
    RespondToHandshake(r.seen, r.req, r.token, r.key, r.counterNonce)
  }

  /** The reply was given by this agent as the target of the request, to this nonce, with the initiator verified. */
  predicate AnsweredAs(r: Reply, id: string, nonce: string) {
    && ResponseOf(r).Ok? && r.req.nonce == nonce
    && r.req.targetAgentId == id && VerifyIn(r.seen, r.token).Ok? && VerifyIn(r.seen, r.token).value.sub == id
    && VerifyIn(r.seen, r.req.initiatorToken).Ok?
    && VerifyIn(r.seen, r.req.initiatorToken).value.sub == r.req.initiatorId
  }

  ghost predicate AnsweredBy(replies: set<Reply>, id: string, nonce: string) {
    exists r | r in replies :: AnsweredAs(r, id, nonce)
  }

  /** Every text the agent's key has signed proved possession at a registration, or was the nonce of a reply it gave. */
  ghost predicate AgentTexts(p: Primitives, id: string, signed: set<string>, registrations: set<RegisterReq>,
                             replies: set<Reply>)
  {
    forall m | m in signed ::
      || (exists q | q in registrations :: m == SignedNonceText(p, q.nonce))
      || (exists r | r in replies :: ResponseOf(r).Ok? && ResponseOf(r).value.responderId == id && m == r.req.nonce)
  }

  /**
   A completed handshake is with the intended target exactly when the caller finds the target's name in the response,
   which completion itself never compares. Then the target has answered this nonce, with the initiator of the
   request it received verified, or its key is forged.
   */
  lemma CompletionAgrees(v: View, req: HandshakeReq, resp: HandshakeResp, signed: set<string>,
                         registrations: set<RegisterReq>, replies: set<Reply>)
    requires AgentTexts(v.p, req.targetAgentId, signed, registrations, replies)
    requires forall q | q in registrations :: SignedNonceText(v.p, q.nonce) != req.nonce
    requires CompleteHandshake(v, resp, req.nonce) == Ok(true)
    ensures VerifyIn(v, resp.responderToken).value.sub == req.targetAgentId <==> resp.responderId == req.targetAgentId
    ensures resp.responderId == req.targetAgentId ==>
              || AnsweredBy(replies, req.targetAgentId, req.nonce)
              || Forgery(v.p, v.agents[req.targetAgentId].publicKey, signed, req.nonce, resp.signedNonce)
  {
    if resp.responderId == req.targetAgentId && req.nonce in signed {
      var r :| r in replies && ResponseOf(r).Ok? && ResponseOf(r).value.responderId == req.targetAgentId
               && req.nonce == r.req.nonce;
      ReplyIsTargets(r);
      assert AnsweredAs(r, req.targetAgentId, req.nonce);
    }
  }

  lemma ReplyIsTargets(r: Reply)
    requires ResponseOf(r).Ok?
    ensures AnsweredAs(r, ResponseOf(r).value.responderId, r.req.nonce)
  {
  }

  /**
   While the target has not itself answered this nonce, no response made out to it completes the handshake, recorded
   from another exchange or put together from parts, unless its key is forged.
   */
  lemma ReplayRefused(v: View, req: HandshakeReq, resp: HandshakeResp, signed: set<string>,
                      registrations: set<RegisterReq>, replies: set<Reply>)
    requires AgentTexts(v.p, req.targetAgentId, signed, registrations, replies)
    requires forall q | q in registrations :: SignedNonceText(v.p, q.nonce) != req.nonce
    requires !AnsweredBy(replies, req.targetAgentId, req.nonce) && resp.responderId == req.targetAgentId
    ensures || CompleteHandshake(v, resp, req.nonce).Err?
            || Forgery(v.p, v.agents[req.targetAgentId].publicKey, signed, req.nonce, resp.signedNonce)
  {
    if CompleteHandshake(v, resp, req.nonce).Ok? {
      CompletionAgrees(v, req, resp, signed, registrations, replies);
    }
  }

  // ---------- the same key at registration ----------

  /** The agent has signed this text as the nonce of a reply it gave. */
  ghost predicate RepliedTo(replies: set<Reply>, id: string, text: string) {
    exists r | r in replies :: ResponseOf(r).Ok? && ResponseOf(r).value.responderId == id && r.req.nonce == text
  }

  /** The agent has proved possession of its key with this nonce. */
  predicate ProvedWith(registrations: set<RegisterReq>, nonce: string) {
    exists q | q in registrations :: q.nonce == nonce
  }

  /** A nonce as the broker makes them: the hex text of its bytes. */
  ghost predicate HexNonce(p: Primitives, nonce: string) {
    exists bytes :: nonce == p.hex(bytes)
  }

  lemma HexNonceUnique(p: Primitives, m: string, n: string)
    requires HexLaws(p) && HexNonce(p, m) && HexNonce(p, n) && SignedNonceText(p, m) == SignedNonceText(p, n)
    ensures m == n
  {
    var x :| m == p.hex(x);
    var y :| n == p.hex(y);
    assert p.decodeHex(p.hex(x)) == Some(x) && p.decodeHex(p.hex(y)) == Some(y);
  }

  /**
   What a registration's proof says about the agent whose key it names: the agent signed for this very nonce, or it
   answered a handshake whose nonce was the bytes of this one, or its key is forged.
   */
  lemma RegistrationProves(p: Primitives, id: string, req: RegisterReq, signed: set<string>,
                           registrations: set<RegisterReq>, replies: set<Reply>)
    requires HexLaws(p) && AgentTexts(p, id, signed, registrations, replies) && ProofError(p, req).None?
    requires HexNonce(p, req.nonce) && forall q | q in registrations :: HexNonce(p, q.nonce)
    ensures || ProvedWith(registrations, req.nonce)
            || RepliedTo(replies, id, SignedNonceText(p, req.nonce))
            || Forgery(p, p.decodeStd(req.publicKey).value, signed, SignedNonceText(p, req.nonce),
                       p.decodeStd(req.signature).value)
  {
    var text := SignedNonceText(p, req.nonce);
    if text in signed && !RepliedTo(replies, id, text) {
      var q :| q in registrations && text == SignedNonceText(p, q.nonce);
      HexNonceUnique(p, q.nonce, req.nonce);
    }
  }

  /** The second case cannot be left out: a responder signs whatever nonce it is sent, and its reply passes as a proof. */
  lemma ReplyPassesAsProof(r: Reply, req: RegisterReq)
    requires SignatureLaw(r.seen.p) && ResponseOf(r).Ok? && r.req.nonce == SignedNonceText(r.seen.p, req.nonce)
    requires |r.seen.p.publicKey(r.key)| == PUBLIC_KEY_SIZE
    requires r.seen.p.decodeStd(req.publicKey) == Some(r.seen.p.publicKey(r.key))
    requires r.seen.p.decodeStd(req.signature) == Some(ResponseOf(r).value.signedNonce)
    ensures ProofError(r.seen.p, req).None?
  {
    var p := r.seen.p;
    assert p.verify(p.publicKey(r.key), r.req.nonce, p.sign(r.key, r.req.nonce));
  }
}
