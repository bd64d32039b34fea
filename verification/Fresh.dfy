/** Random values and call numbers that nothing has used yet always exist. */
module Fresh {
  import opened Wrappers
  import opened Text
  import opened Claims
  import opened Revocation
  import opened Broker

  lemma {:induction false} LongerThanAll(used: set<string>) returns (n: nat)
    ensures forall t | t in used :: |t| < n
    decreases |used|
  {
    if used == {} {
      n := 0;
    } else {
      var t :| t in used;
      n := LongerThanAll(used - {t});
      assert used == (used - {t}) + {t};
      n := if |t| < n then n else |t| + 1;
    }
  }

  lemma UnusedText(used: set<string>) returns (t: string)
    ensures t !in used && t != ""
  {
    var n := LongerThanAll(used);
    t := Zeros(n + 1);
  }

  lemma {:induction false} UnusedNumber(used: set<nat>) returns (n: nat)
    ensures forall k | k in used :: k < n
    decreases |used|
  {
    if used == {} {
      n := 0;
    } else {
      var k :| k in used;
      n := UnusedNumber(used - {k});
      assert used == (used - {k}) + {k};
      n := if k < n then n else k + 1;
    }
  }

  lemma UnusedCall(b: Broker) returns (call: nat)
    ensures call !in b.calls
  {
    call := UnusedNumber(b.calls.Keys);
  }

  lemma UnusedLaunchToken(b: Broker) returns (token: string)
    ensures token !in b.grants
  {
    token := UnusedText(b.grants.Keys);
  }

  /** A token identifier that no token has and no revocation names, in memory or in the table. */
  lemma UnusedJti(b: Broker) returns (jti: string)
    ensures FreshJti(b, jti) && jti !in b.rev.tokens && Entry("token", jti) !in b.saved
  {
    var issued := set i | 0 <= i < |b.issued| :: b.issued[i].claims.jti;
    var saved := set e | e in b.saved :: e.target;
    jti := UnusedText(issued + b.rev.tokens + saved);
    forall i | 0 <= i < |b.issued| ensures b.issued[i].claims.jti != jti {
      assert b.issued[i].claims.jti in issued;
    }
    forall e | e in b.saved ensures e != Entry("token", jti) {
      assert e.target in saved;
    }
  }
}
