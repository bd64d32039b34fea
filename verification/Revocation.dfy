/**
 Four-level revocation (internal/revoke/rev_svc.go) and its table in SQLite
 (internal/store/sql_store.go). The Go maps hold only `true`, so each is a set.
 */
module Revocation {
  import opened Wrappers
  import opened Claims

  datatype Entry = Entry(level: string, target: string)

  datatype Revocations = Revocations(tokens: set<string>, agents: set<string>, tasks: set<string>, chains: set<string>)

  datatype RevokeError = ErrInvalidLevel | ErrMissingTarget

  const NothingRevoked := Revocations({}, {}, {}, {})

  predicate KnownLevel(level: string) {
    level == "token" || level == "agent" || level == "task" || level == "chain"
  }

  /** The revocation list of an entry's level with its target added; an unknown level adds nothing. */
  function Add(r: Revocations, e: Entry): Revocations {
    if e.level == "token" then r.(tokens := r.tokens + {e.target})
    else if e.level == "agent" then r.(agents := r.agents + {e.target})
    else if e.level == "task" then r.(tasks := r.tasks + {e.target})
    else if e.level == "chain" then r.(chains := r.chains + {e.target})
    else r
  }

  function AddAll(r: Revocations, entries: seq<Entry>): Revocations {
    if entries == [] then r
    else Add(AddAll(r, entries[..|entries| - 1]), entries[|entries| - 1])
  }

  predicate IsRevoked(r: Revocations, c: TknClaims) {
    || c.jti in r.tokens
    || c.sub in r.agents
    || (c.taskId != "" && c.taskId in r.tasks)
    || (|c.chain| > 0 && c.chain[0].agent in r.chains)
  }

  /** INSERT OR IGNORE under UNIQUE(level, target). */
  function Inserted(rows: seq<Entry>, e: Entry): seq<Entry> {
    if e in rows then rows else rows + [e]
  }

  class RevocationTable {
    var rows: seq<Entry>

    constructor ()
      ensures rows == []
    {
      rows := [];
    }

    /** `dbOk` says whether the database accepts the statement. */
    method SaveRevocation(level: string, target: string, dbOk: bool) returns (ok: bool)
      modifies this
      ensures ok == dbOk
      ensures rows == if dbOk then Inserted(old(rows), Entry(level, target)) else old(rows)
      ensures rows == old(rows) + if dbOk && Entry(level, target) !in old(rows) then [Entry(level, target)] else []
    {
      if dbOk && Entry(level, target) !in rows {
        rows := rows + [Entry(level, target)];
      }
      return dbOk;
    }
  }

  class RevSvc {
    var tokens: set<string>
    var agents: set<string>
    var tasks: set<string>
    var chains: set<string>
    const table: RevocationTable

    constructor (table: RevocationTable)
      ensures State() == NothingRevoked && this.table == table
    {
      tokens, agents, tasks, chains := {}, {}, {}, {};
      this.table := table;
    }

    function State(): Revocations
      reads this
    {
      Revocations(tokens, agents, tasks, chains)
    }

    method Check(claims: TknClaims) returns (revoked: bool)
      ensures revoked == IsRevoked(State(), claims)
    {
      if claims.jti in tokens {
        return true;
      }
      if claims.sub in agents {
        return true;
      }
      if claims.taskId != "" && claims.taskId in tasks {
        return true;
      }
      if |claims.chain| > 0 {
        if claims.chain[0].agent in chains {
          return true;
        }
      }
      return false;
    }

    method Revoke(level: string, target: string, dbOk: bool) returns (r: Result<int, RevokeError>)
      modifies this, table
      ensures r.Ok? <==> target != "" && KnownLevel(level)
      ensures r.Ok? ==> r.value == 1 && State() == Add(old(State()), Entry(level, target))
      ensures r.Ok? && dbOk ==> table.rows == Inserted(old(table.rows), Entry(level, target))
      ensures r.Err? ==> r.error == if target == "" then ErrMissingTarget else ErrInvalidLevel
      ensures r.Err? ==> State() == old(State())
      ensures r.Err? || !dbOk ==> table.rows == old(table.rows)
    {
      if target == "" {
        return Err(ErrMissingTarget);
      }
      if level == "token" {
        tokens := tokens + {target};
      } else if level == "agent" {
        agents := agents + {target};
      } else if level == "task" {
        tasks := tasks + {target};
      } else if level == "chain" {
        chains := chains + {target};
      } else {
        return Err(ErrInvalidLevel);
      }
      var saved := table.SaveRevocation(level, target, dbOk);
      return Ok(1);
    }

    method RevokeByJTI(jti: string, dbOk: bool) returns (r: Result<int, RevokeError>)
      modifies this, table
      ensures r.Ok? <==> jti != ""
      ensures State() == if jti != "" then Add(old(State()), Entry("token", jti)) else old(State())
      ensures table.rows == if jti != "" && dbOk then Inserted(old(table.rows), Entry("token", jti)) else old(table.rows)
    {
      r := Revoke("token", jti, dbOk);
    }

    method LoadFromEntries(entries: seq<Entry>)
      modifies this
      ensures State() == AddAll(old(State()), entries)
    {
      for i := 0 to |entries|
        invariant State() == AddAll(old(State()), entries[..i])
      {
        var e := entries[i];
        assert entries[..i + 1][..i] == entries[..i];
        if e.level == "token" {
          tokens := tokens + {e.target};
        } else if e.level == "agent" {
          agents := agents + {e.target};
        } else if e.level == "task" {
          tasks := tasks + {e.target};
        } else if e.level == "chain" {
          chains := chains + {e.target};
        }
      }
      assert entries[..|entries|] == entries;
    }
  }

  // ---------- revocation as a set of entries ----------

  /** The entry is on the list of its level. */
  predicate Listed(r: Revocations, e: Entry) {
    || (e.level == "token" && e.target in r.tokens)
    || (e.level == "agent" && e.target in r.agents)
    || (e.level == "task" && e.target in r.tasks)
    || (e.level == "chain" && e.target in r.chains)
  }

  /** The entry is about these claims. */
  predicate Targets(e: Entry, c: TknClaims) {
    || (e.level == "token" && e.target == c.jti)
    || (e.level == "agent" && e.target == c.sub)
    || (e.level == "task" && e.target == c.taskId != "")
    || (e.level == "chain" && |c.chain| > 0 && e.target == c.chain[0].agent)
  }

  /** Claims are revoked exactly when some listed entry is about them. */
  lemma RevokedExactly(r: Revocations, c: TknClaims)
    ensures IsRevoked(r, c) <==> exists e :: Listed(r, e) && Targets(e, c)
  {
    if c.jti in r.tokens {
      assert Listed(r, Entry("token", c.jti)) && Targets(Entry("token", c.jti), c);
    } else if c.sub in r.agents {
      assert Listed(r, Entry("agent", c.sub)) && Targets(Entry("agent", c.sub), c);
    } else if c.taskId != "" && c.taskId in r.tasks {
      assert Listed(r, Entry("task", c.taskId)) && Targets(Entry("task", c.taskId), c);
    } else if |c.chain| > 0 && c.chain[0].agent in r.chains {
      assert Listed(r, Entry("chain", c.chain[0].agent)) && Targets(Entry("chain", c.chain[0].agent), c);
    }
  }

  lemma AddLists(r: Revocations, e: Entry, f: Entry)
    ensures Listed(Add(r, e), f) <==> Listed(r, f) || (e == f && KnownLevel(e.level))
  {
  }

  /** Loading lists exactly what was listed before and the loaded entries of a known level. */
  lemma {:induction false} LoadLists(r: Revocations, entries: seq<Entry>, f: Entry)
    ensures Listed(AddAll(r, entries), f) <==> Listed(r, f) || (f in entries && KnownLevel(f.level))
  {
    if entries == [] {
    } else {
      var n := |entries| - 1;
      LoadLists(r, entries[..n], f);
      AddLists(AddAll(r, entries[..n]), entries[n], f);
      assert entries == entries[..n] + [entries[n]];
    }
  }
}
