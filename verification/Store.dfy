/**
 The in-memory half of SqlStore (internal/store/sql_store.go): nonces, launch
 tokens, agents and consumed activation JTIs. Every Go method holds the store's
 mutex for its whole body, so each is one atomic step.
 */
module Store {
  import opened Wrappers
  import opened Clock

  const NONCE_TTL: int := 30 * SECOND

  datatype NonceRecord = NonceRecord(expiresAt: int, consumed: bool)

  datatype LaunchToken = LaunchToken(
    agentName: string, allowedScope: seq<string>, maxTtl: int, singleUse: bool, createdAt: int, expiresAt: int,
    consumedAt: Option<int>, createdBy: string, appId: string)

  datatype AgentRecord = AgentRecord(
    publicKey: string, orchId: string, taskId: string, scope: seq<string>, registeredAt: int, lastSeen: int,
    appId: string)

  datatype StoreError =
    | ErrNonceNotFound | ErrNonceConsumed | ErrTokenNotFound | ErrTokenExpired | ErrTokenConsumed | ErrAgentNotFound

  datatype Memory = Memory(
    nonces: map<string, NonceRecord>, launchTokens: map<string, LaunchToken>, agents: map<string, AgentRecord>,
    jtis: map<string, int>)

  const EmptyMemory := Memory(map[], map[], map[], map[])

  function AddNonce(m: Memory, nonce: string, now: int): Memory {
    m.(nonces := m.nonces[nonce := NonceRecord(now + NONCE_TTL, false)])
  }

  function UseNonce(m: Memory, nonce: string, now: int): (Memory, Option<StoreError>) {
    if nonce !in m.nonces then (m, Some(ErrNonceNotFound))
    else if m.nonces[nonce].consumed then (m, Some(ErrNonceConsumed))
    else if now > m.nonces[nonce].expiresAt then (m.(nonces := m.nonces - {nonce}), Some(ErrNonceNotFound))
    else (m.(nonces := m.nonces[nonce := m.nonces[nonce].(consumed := true)]), None)
  }

  function AddLaunchToken(m: Memory, token: string, rec: LaunchToken): Memory {
    m.(launchTokens := m.launchTokens[token := rec])
  }

  function FindLaunchToken(m: Memory, token: string, now: int): Result<LaunchToken, StoreError> {
    if token !in m.launchTokens then Err(ErrTokenNotFound)
    else if now > m.launchTokens[token].expiresAt then Err(ErrTokenExpired)
    else if m.launchTokens[token].consumedAt.Some? then Err(ErrTokenConsumed)
    else Ok(m.launchTokens[token])
  }

  function UseLaunchToken(m: Memory, token: string, now: int): (Memory, Option<StoreError>) {
    if token !in m.launchTokens then (m, Some(ErrTokenNotFound))
    else if m.launchTokens[token].consumedAt.Some? then (m, Some(ErrTokenConsumed))
    else (m.(launchTokens := m.launchTokens[token := m.launchTokens[token].(consumedAt := Some(now))]), None)
  }

  function AddAgent(m: Memory, id: string, rec: AgentRecord): Memory {
    m.(agents := m.agents[id := rec])
  }

  function UseActivation(m: Memory, jti: string, exp: int): (Memory, Option<StoreError>) {
    if jti in m.jtis then (m, Some(ErrTokenConsumed)) else (m.(jtis := m.jtis[jti := exp * SECOND]), None)
  }

  function ExpiredJtis(m: Memory, now: int): set<string> {
    set j | j in m.jtis && m.jtis[j] < now
  }

  function Pruned(m: Memory, now: int): Memory {
    m.(jtis := m.jtis - ExpiredJtis(m, now))
  }

  class SqlStore {
    var nonces: map<string, NonceRecord>
    var launchTokens: map<string, LaunchToken>
    var agents: map<string, AgentRecord>
    var jtiConsumption: map<string, int>

    constructor ()
      ensures State() == EmptyMemory
    {
      nonces, launchTokens, agents, jtiConsumption := map[], map[], map[], map[];
    }

    function State(): Memory
      reads this
    {
      Memory(nonces, launchTokens, agents, jtiConsumption)
    }

    method CreateNonce(nonce: string, now: int)
      modifies this
      ensures State() == AddNonce(old(State()), nonce, now)
      ensures State() == old(State()).(nonces := old(nonces)[nonce := NonceRecord(now + 30_000_000_000, false)])
    {
      nonces := nonces[nonce := NonceRecord(now + NONCE_TTL, false)];
    }

    method ConsumeNonce(nonce: string, now: int) returns (err: Option<StoreError>)
      modifies this
      ensures (State(), err) == UseNonce(old(State()), nonce, now)
      ensures err.None? <==> nonce in old(nonces) && !old(nonces)[nonce].consumed && now <= old(nonces)[nonce].expiresAt
      ensures err.None? ==> nonces == old(nonces)[nonce := NonceRecord(old(nonces)[nonce].expiresAt, true)]
      ensures err.Some? ==> err.value == if nonce in old(nonces) && old(nonces)[nonce].consumed then ErrNonceConsumed
                                         else ErrNonceNotFound
      ensures err.Some? ==> nonces == if err.value.ErrNonceNotFound? then old(nonces) - {nonce} else old(nonces)
      ensures launchTokens == old(launchTokens) && agents == old(agents) && jtiConsumption == old(jtiConsumption)
    {
      if nonce !in nonces {
        return Some(ErrNonceNotFound);
      }
      var rec := nonces[nonce];
      if rec.consumed {
        return Some(ErrNonceConsumed);
      }
      if now > rec.expiresAt {
        nonces := nonces - {nonce};
        return Some(ErrNonceNotFound);
      }
      nonces := nonces[nonce := rec.(consumed := true)];
      return None;
    }

    method SaveLaunchToken(token: string, rec: LaunchToken)
      modifies this
      ensures State() == AddLaunchToken(old(State()), token, rec)
      ensures State() == old(State()).(launchTokens := old(launchTokens)[token := rec])
    {
      launchTokens := launchTokens[token := rec];
    }

    method GetLaunchToken(token: string, now: int) returns (r: Result<LaunchToken, StoreError>)
      ensures r == FindLaunchToken(State(), token, now)
      ensures r.Ok? <==> token in launchTokens && now <= launchTokens[token].expiresAt
                         && launchTokens[token].consumedAt.None?
      ensures r.Ok? ==> r.value == launchTokens[token]
      ensures r.Err? ==> (r.error == ErrTokenNotFound <==> token !in launchTokens)
      ensures r.Err? ==> (r.error == ErrTokenExpired <==> token in launchTokens && now > launchTokens[token].expiresAt)
      ensures r.Err? ==> r.error.ErrTokenNotFound? || r.error.ErrTokenExpired? || r.error.ErrTokenConsumed?
    {
      if token !in launchTokens {
        return Err(ErrTokenNotFound);
      }
      var rec := launchTokens[token];
      if now > rec.expiresAt {
        return Err(ErrTokenExpired);
      }
      if rec.consumedAt.Some? {
        return Err(ErrTokenConsumed);
      }
      return Ok(rec);
    }

    method ConsumeLaunchToken(token: string, now: int) returns (err: Option<StoreError>)
      modifies this
      ensures (State(), err) == UseLaunchToken(old(State()), token, now)
      ensures err.None? <==> token in old(launchTokens) && old(launchTokens)[token].consumedAt.None?
      ensures err.Some? ==> err.value == if token in old(launchTokens) then ErrTokenConsumed else ErrTokenNotFound
      ensures launchTokens.Keys == old(launchTokens).Keys
      ensures forall t | t in launchTokens ::
                launchTokens[t] == if t == token && err.None? then old(launchTokens)[t].(consumedAt := Some(now))
                                   else old(launchTokens)[t]
      ensures nonces == old(nonces) && agents == old(agents) && jtiConsumption == old(jtiConsumption)
    {
      if token !in launchTokens {
        return Some(ErrTokenNotFound);
      }
      var rec := launchTokens[token];
      if rec.consumedAt.Some? {
        return Some(ErrTokenConsumed);
      }
      launchTokens := launchTokens[token := rec.(consumedAt := Some(now))];
      return None;
    }

    method SaveAgent(id: string, rec: AgentRecord)
      modifies this
      ensures State() == AddAgent(old(State()), id, rec)
      ensures State() == old(State()).(agents := old(agents)[id := rec])
    {
      agents := agents[id := rec];
    }

    method GetAgent(id: string) returns (r: Result<AgentRecord, StoreError>)
      ensures r == if id in agents then Ok(agents[id]) else Err(ErrAgentNotFound)
    {
      if id !in agents {
        return Err(ErrAgentNotFound);
      }
      return Ok(agents[id]);
    }

    method ConsumeActivationToken(jti: string, exp: int) returns (err: Option<StoreError>)
      modifies this
      ensures (State(), err) == UseActivation(old(State()), jti, exp)
      ensures err == if jti in old(jtiConsumption) then Some(ErrTokenConsumed) else None
      ensures State() == if err.Some? then old(State())
                         else old(State()).(jtis := old(jtiConsumption)[jti := exp * 1_000_000_000])
    {
      if jti in jtiConsumption {
        return Some(ErrTokenConsumed);
      }
      jtiConsumption := jtiConsumption[jti := exp * SECOND];
      return None;
    }

    method PruneExpiredJTIs(now: int) returns (pruned: int)
      modifies this
      ensures State() == Pruned(old(State()), now)
      ensures pruned == |ExpiredJtis(old(State()), now)|
      ensures jtiConsumption == map j | j in old(jtiConsumption) && old(jtiConsumption)[j] >= now :: old(jtiConsumption)[j]
      ensures pruned == |old(jtiConsumption)| - |jtiConsumption|
    {
      pruned := 0;
      var todo := jtiConsumption.Keys;
      ghost var before := jtiConsumption;
      ghost var gone: set<string> := {};
      while todo != {}
        invariant unchanged(`nonces) && unchanged(`launchTokens) && unchanged(`agents)
        invariant gone !! todo && forall j :: j in gone || j in todo <==> (j in before && before[j] < now) || j in todo
        invariant todo <= before.Keys && jtiConsumption == before - gone
        invariant pruned == |gone|
        decreases todo
      {
        var jti :| jti in todo;
        todo := todo - {jti};
        if jtiConsumption[jti] < now {
          jtiConsumption := jtiConsumption - {jti};
          gone := gone + {jti};
          pruned := pruned + 1;
        }
      }
      assert gone == ExpiredJtis(old(State()), now);
    }
  }

  // ---------- activation tokens over whole histories ----------

  datatype JtiOp = Activate(jti: string, exp: int) | Prune(now: int)

  function JtiRun(m: Memory, ops: seq<JtiOp>): Memory {
    if ops == [] then m
    else
      var before := JtiRun(m, ops[..|ops| - 1]);
      match ops[|ops| - 1]
      case Activate(jti, exp) => UseActivation(before, jti, exp).0
      case Prune(now) => Pruned(before, now)
  }

  /** An activation token is accepted once: until a prune after its expiry, every later use is refused. */
  lemma {:induction false} ActivationAcceptedOnce(m: Memory, jti: string, exp: int, ops: seq<JtiOp>, exp': int)
    requires UseActivation(m, jti, exp).1.None?
    requires forall i | 0 <= i < |ops| :: ops[i].Prune? ==> ops[i].now <= exp * SECOND
    ensures var later := JtiRun(UseActivation(m, jti, exp).0, ops);
            && jti in later.jtis && later.jtis[jti] == exp * SECOND
            && UseActivation(later, jti, exp') == (later, Some(ErrTokenConsumed))
  {
    if ops == [] {
    } else {
      ActivationAcceptedOnce(m, jti, exp, ops[..|ops| - 1], exp');
    }
  }
}
