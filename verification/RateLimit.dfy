/**
 The per-key token bucket (internal/authz/rate_mw.go). Times are seconds as
 reals; a history is the list of calls one limiter receives, in clock order.
 */
module RateLimit {
  import opened Wrappers

  datatype Limits = Limits(rate: real, burst: int)

  datatype Bucket = Bucket(tokens: real, lastSeen: real)

  type Clients = map<string, Bucket>

  datatype Call = Call(key: string, time: real)

  /** Tokens that accrue between two instants. */
  function Gain(cfg: Limits, from: real, to: real): real {
    (to - from) * cfg.rate
  }

  lemma GainNonnegative(cfg: Limits, from: real, to: real)
    requires cfg.rate >= 0.0 && from <= to
    ensures Gain(cfg, from, to) >= 0.0
  {
  }

  lemma GainAdds(cfg: Limits, a: real, b: real, c: real)
    ensures Gain(cfg, a, b) + Gain(cfg, b, c) == Gain(cfg, a, c)
  {
  }

  function Refilled(cfg: Limits, b: Bucket, now: real): real {
    var tokens := b.tokens + Gain(cfg, b.lastSeen, now);
    if tokens > cfg.burst as real then cfg.burst as real else tokens
  }

  /** What one call does to its key's bucket, and whether the call is granted. */
  function Serve(cfg: Limits, slot: Option<Bucket>, now: real): (Bucket, bool) {
    match slot
    case None => (Bucket(cfg.burst as real - 1.0, now), true)
    case Some(b) =>
      var tokens := Refilled(cfg, b, now);
      if tokens < 1.0 then (Bucket(tokens, now), false) else (Bucket(tokens - 1.0, now), true)
  }

  function Slot(clients: Clients, key: string): Option<Bucket> {
    if key in clients then Some(clients[key]) else None
  }

  class RateLimiter {
    var clients: Clients
    const limits: Limits

    constructor (rate: real, burst: int)
      ensures clients == map[] && limits == Limits(rate, burst)
    {
      clients := map[];
      limits := Limits(rate, burst);
    }

    method Allow(key: string, now: real) returns (ok: bool)
      modifies this`clients
      ensures (clients, ok) == After(limits, old(clients), Call(key, now))
    {
      if key !in clients {
        clients := clients[key := Bucket(limits.burst as real - 1.0, now)];
        return true;
      }
      var b := clients[key];
      var elapsed := now - b.lastSeen;
      var tokens := b.tokens + elapsed * limits.rate;
      assert tokens == b.tokens + Gain(limits, b.lastSeen, now);
      if tokens > limits.burst as real {
        tokens := limits.burst as real;
      }
      assert tokens == Refilled(limits, b, now);
      if tokens < 1.0 {
        clients := clients[key := Bucket(tokens, now)];
        return false;
      }
      clients := clients[key := Bucket(tokens - 1.0, now)];
      return true;
    }
  }

  // ---------- histories ----------

  function After(cfg: Limits, clients: Clients, call: Call): (Clients, bool) {
    var (b, ok) := Serve(cfg, Slot(clients, call.key), call.time);
    (clients[call.key := b], ok)
  }

  function Answers(cfg: Limits, clients: Clients, calls: seq<Call>): (answers: seq<bool>)
    ensures |answers| == |calls|
    decreases |calls|
  {
    if calls == [] then []
    else
      var (next, ok) := After(cfg, clients, calls[0]);
      [ok] + Answers(cfg, next, calls[1..])
  }

  function KeyAnswers(cfg: Limits, slot: Option<Bucket>, times: seq<real>): (answers: seq<bool>)
    ensures |answers| == |times|
    decreases |times|
  {
    if times == [] then []
    else
      var (b, ok) := Serve(cfg, slot, times[0]);
      [ok] + KeyAnswers(cfg, Some(b), times[1..])
  }

  function TimesOf(calls: seq<Call>, key: string): seq<real> {
    if calls == [] then []
    else (if calls[0].key == key then [calls[0].time] else []) + TimesOf(calls[1..], key)
  }

  function AnswersOf(calls: seq<Call>, answers: seq<bool>, key: string): seq<bool>
    requires |answers| == |calls|
  {
    if calls == [] then []
    else (if calls[0].key == key then [answers[0]] else []) + AnswersOf(calls[1..], answers[1..], key)
  }

  /** A key is answered as if it were alone: other keys in the history do not matter. */
  lemma {:induction false} KeysIndependent(cfg: Limits, clients: Clients, calls: seq<Call>, key: string)
    ensures AnswersOf(calls, Answers(cfg, clients, calls), key)
         == KeyAnswers(cfg, Slot(clients, key), TimesOf(calls, key))
    decreases |calls|
  {
    if calls == [] {
    } else {
      var (next, ok) := After(cfg, clients, calls[0]);
      var rest := Answers(cfg, next, calls[1..]);
      KeysIndependent(cfg, next, calls[1..], key);
      assert Answers(cfg, clients, calls)[1..] == rest;
      if calls[0].key == key {
        var times := TimesOf(calls, key);
        assert times[0] == calls[0].time && times[1..] == TimesOf(calls[1..], key);
      } else {
        assert Slot(next, key) == Slot(clients, key);
        assert TimesOf(calls, key) == TimesOf(calls[1..], key);
      }
    }
  }

  /** How many granted calls fall into the window [s, t]. */
  function GrantedWithin(times: seq<real>, answers: seq<bool>, s: real, t: real): nat
    requires |answers| == |times|
  {
    if times == [] then 0
    else (if answers[0] && s <= times[0] <= t then 1 else 0) + GrantedWithin(times[1..], answers[1..], s, t)
  }

  ghost predicate NonDecreasing(times: seq<real>) {
    forall i, j | 0 <= i < j < |times| :: times[i] <= times[j]
  }

  ghost predicate ClockOrder(calls: seq<Call>) {
    forall i, j | 0 <= i < j < |calls| :: calls[i].time <= calls[j].time
  }

  /** Between 0 and burst tokens, last touched no later than the given instant. */
  predicate BucketOk(cfg: Limits, b: Bucket, now: real) {
    0.0 <= b.tokens <= cfg.burst as real && b.lastSeen <= now
  }

  lemma ServeKeepsBucket(cfg: Limits, slot: Option<Bucket>, now: real)
    requires cfg.burst >= 1 && cfg.rate >= 0.0
    requires slot.Some? ==> BucketOk(cfg, slot.value, now)
    ensures BucketOk(cfg, Serve(cfg, slot, now).0, now)
  {
    if slot.Some? {
      GainNonnegative(cfg, slot.value.lastSeen, now);
    }
  }

  lemma {:induction false} BucketsBounded(cfg: Limits, clients: Clients, calls: seq<Call>, since: real)
    requires cfg.burst >= 1 && cfg.rate >= 0.0 && ClockOrder(calls)
    requires forall k | k in clients :: BucketOk(cfg, clients[k], since)
    requires calls != [] ==> since <= calls[0].time
    ensures forall k | k in FinalClients(cfg, clients, calls) ::
              0.0 <= FinalClients(cfg, clients, calls)[k].tokens <= cfg.burst as real
    decreases |calls|
  {
    if calls == [] {
    } else {
      ServeKeepsBucket(cfg, Slot(clients, calls[0].key), calls[0].time);
      BucketsBounded(cfg, After(cfg, clients, calls[0]).0, calls[1..], calls[0].time);
    }
  }

  function FinalClients(cfg: Limits, clients: Clients, calls: seq<Call>): Clients
    decreases |calls|
  {
    if calls == [] then clients else FinalClients(cfg, After(cfg, clients, calls[0]).0, calls[1..])
  }

  /** From a known bucket the grants up to `t` are paid by its tokens and the refill. */
  lemma {:induction false} GrantsPaid(cfg: Limits, b: Bucket, times: seq<real>, s: real, t: real)
    requires cfg.burst >= 1 && cfg.rate >= 0.0 && NonDecreasing(times)
    requires BucketOk(cfg, b, if times == [] then b.lastSeen else times[0])
    requires b.lastSeen <= t
    ensures GrantedWithin(times, KeyAnswers(cfg, Some(b), times), s, t) as real
            <= b.tokens + Gain(cfg, b.lastSeen, t)
    decreases |times|
  {
    GainNonnegative(cfg, b.lastSeen, t);
    if times == [] {
    } else {
      var (next, ok) := Serve(cfg, Some(b), times[0]);
      ServeKeepsBucket(cfg, Some(b), times[0]);
      assert KeyAnswers(cfg, Some(b), times)[1..] == KeyAnswers(cfg, Some(next), times[1..]);
      if times[0] <= t {
        GainAdds(cfg, b.lastSeen, times[0], t);
        GrantsPaid(cfg, next, times[1..], s, t);
      } else {
        NoGrantsAfter(times[1..], KeyAnswers(cfg, Some(next), times[1..]), s, t);
      }
    }
  }

  lemma {:induction false} NoGrantsAfter(times: seq<real>, answers: seq<bool>, s: real, t: real)
    requires |answers| == |times| && forall i | 0 <= i < |times| :: times[i] > t
    ensures GrantedWithin(times, answers, s, t) == 0
  {
    if times == [] {
    } else {
      NoGrantsAfter(times[1..], answers[1..], s, t);
    }
  }

  lemma {:induction false} KeyRateBound(cfg: Limits, slot: Option<Bucket>, times: seq<real>, s: real, t: real)
    requires cfg.burst >= 1 && cfg.rate >= 0.0 && NonDecreasing(times) && s <= t
    requires slot.Some? ==> BucketOk(cfg, slot.value, if times == [] then slot.value.lastSeen else times[0])
    ensures GrantedWithin(times, KeyAnswers(cfg, slot, times), s, t) as real
            <= cfg.burst as real + Gain(cfg, s, t)
    decreases |times|
  {
    GainNonnegative(cfg, s, t);
    if times == [] {
    } else {
      var (next, ok) := Serve(cfg, slot, times[0]);
      ServeKeepsBucket(cfg, slot, times[0]);
      assert KeyAnswers(cfg, slot, times)[1..] == KeyAnswers(cfg, Some(next), times[1..]);
      if s <= times[0] <= t {
        GrantsPaid(cfg, next, times[1..], s, t);
        GainAdds(cfg, s, times[0], t);
        GainNonnegative(cfg, s, times[0]);
      } else {
        KeyRateBound(cfg, Some(next), times[1..], s, t);
      }
    }
  }

  lemma {:induction false} TimesOrdered(calls: seq<Call>, key: string)
    requires ClockOrder(calls)
    ensures NonDecreasing(TimesOf(calls, key))
    ensures forall i | 0 <= i < |TimesOf(calls, key)| :: calls != [] && calls[0].time <= TimesOf(calls, key)[i]
  {
    if calls == [] {
    } else {
      TimesOrdered(calls[1..], key);
    }
  }

  /** Over any history and any window a key is granted at most burst + rate * length calls. */
  lemma RateBound(cfg: Limits, calls: seq<Call>, key: string, s: real, t: real)
    requires cfg.burst >= 1 && cfg.rate >= 0.0 && ClockOrder(calls) && s <= t
    ensures |AnswersOf(calls, Answers(cfg, map[], calls), key)| == |TimesOf(calls, key)|
    ensures GrantedWithin(TimesOf(calls, key), AnswersOf(calls, Answers(cfg, map[], calls), key), s, t) as real
            <= cfg.burst as real + Gain(cfg, s, t)
  {
    KeysIndependent(cfg, map[], calls, key);
    TimesOrdered(calls, key);
    KeyRateBound(cfg, None, TimesOf(calls, key), s, t);
  }

  /** Without a burst of at least one the bound fails on the very first call of a key. */
  lemma RateBoundNeedsBurst(cfg: Limits, key: string, now: real)
    requires cfg.burst < 1
    ensures Answers(cfg, map[], [Call(key, now)]) == [true]
    ensures GrantedWithin([now], [true], now, now) as real > cfg.burst as real + Gain(cfg, now, now)
  {
    assert [Call(key, now)][1..] == [];
    assert [now][1..] == [] && [true][1..] == [];
  }

  /** Consecutive instants at least 1/rate apart. */
  ghost predicate Spaced(cfg: Limits, times: seq<real>) {
    forall i | 0 <= i < |times| - 1 :: Gain(cfg, times[i], times[i + 1]) >= 1.0
  }

  lemma {:induction false} SpacedKeyServed(cfg: Limits, slot: Option<Bucket>, times: seq<real>)
    requires cfg.burst >= 1 && cfg.rate > 0.0 && Spaced(cfg, times)
    requires slot.Some? ==> slot.value.tokens >= 0.0
    requires slot.Some? && times != [] ==> Gain(cfg, slot.value.lastSeen, times[0]) >= 1.0
    ensures forall i | 0 <= i < |times| :: KeyAnswers(cfg, slot, times)[i]
    decreases |times|
  {
    if times == [] {
    } else {
      var (next, ok) := Serve(cfg, slot, times[0]);
      assert Spaced(cfg, times[1..]) by {
        forall i | 0 <= i < |times[1..]| - 1 ensures Gain(cfg, times[1..][i], times[1..][i + 1]) >= 1.0 {
          assert Gain(cfg, times[i + 1], times[i + 2]) >= 1.0;
        }
      }
      if |times| > 1 {
        assert Gain(cfg, times[0], times[1]) >= 1.0;
      }
      SpacedKeyServed(cfg, Some(next), times[1..]);
      forall i | 0 <= i < |times| ensures KeyAnswers(cfg, slot, times)[i] {
        if i > 0 {
          assert KeyAnswers(cfg, slot, times)[i] == KeyAnswers(cfg, Some(next), times[1..])[i - 1];
        }
      }
    }
  }

  /** A caller that spaces its requests at least 1/rate apart is never denied, whatever others do. */
  lemma SpacedCallerServed(cfg: Limits, calls: seq<Call>, key: string)
    requires cfg.burst >= 1 && cfg.rate > 0.0 && Spaced(cfg, TimesOf(calls, key))
    ensures forall ok | ok in AnswersOf(calls, Answers(cfg, map[], calls), key) :: ok
  {
    KeysIndependent(cfg, map[], calls, key);
    SpacedKeyServed(cfg, None, TimesOf(calls, key));
  }

  // ---------- bursts ----------

  /** While the bucket has a token for each of the calls to come, all are granted. */
  lemma {:induction false} TokensServe(cfg: Limits, slot: Option<Bucket>, times: seq<real>)
    requires cfg.rate >= 0.0 && NonDecreasing(times) && times != []
    requires |times| <= cfg.burst
    requires slot.Some? ==> Refilled(cfg, slot.value, times[0]) >= |times| as real
    ensures forall i | 0 <= i < |times| :: KeyAnswers(cfg, slot, times)[i]
    decreases |times|
  {
    var (next, ok) := Serve(cfg, slot, times[0]);
    if |times| > 1 {
      GainNonnegative(cfg, times[0], times[1]);
      TokensServe(cfg, Some(next), times[1..]);
    }
    forall i | 0 <= i < |times| ensures KeyAnswers(cfg, slot, times)[i] {
      if i > 0 {
        assert KeyAnswers(cfg, slot, times)[i] == KeyAnswers(cfg, Some(next), times[1..])[i - 1];
      }
    }
  }

  /** A key never seen, or idle for long enough to refill, is granted a whole burst, at once or not, whatever others do. */
  lemma BurstServed(cfg: Limits, clients: Clients, calls: seq<Call>, key: string)
    requires cfg.rate >= 0.0 && ClockOrder(calls) && TimesOf(calls, key) != [] && |TimesOf(calls, key)| <= cfg.burst
    requires key in clients ==>
               clients[key].tokens >= 0.0 && Gain(cfg, clients[key].lastSeen, TimesOf(calls, key)[0]) >= cfg.burst as real
    ensures forall ok | ok in AnswersOf(calls, Answers(cfg, clients, calls), key) :: ok
  {
    KeysIndependent(cfg, clients, calls, key);
    TimesOrdered(calls, key);
    TokensServe(cfg, Slot(clients, key), TimesOf(calls, key));
  }

  function AtOnce(n: nat, t: real): (times: seq<real>)
    ensures |times| == n && forall i | 0 <= i < |times| :: times[i] == t
  {
    seq(n, i => t)
  }

  lemma {:induction false} BucketAtOnce(cfg: Limits, tokens: int, n: nat, t: real)
    requires 0 <= tokens <= cfg.burst
    ensures var answers := KeyAnswers(cfg, Some(Bucket(tokens as real, t)), AtOnce(n, t));
            forall i | 0 <= i < |answers| :: answers[i] <==> i < tokens
  {
    if n > 0 {
      var left := if tokens > 0 then tokens - 1 else 0;
      BucketAtOnce(cfg, left, n - 1, t);
      OneAtOnce(cfg, tokens, n, t);
    }
  }

  lemma OneAtOnce(cfg: Limits, tokens: int, n: nat, t: real)
    requires 0 <= tokens <= cfg.burst && n > 0
    ensures var left := if tokens > 0 then tokens - 1 else 0;
            KeyAnswers(cfg, Some(Bucket(tokens as real, t)), AtOnce(n, t))
            == [tokens > 0] + KeyAnswers(cfg, Some(Bucket(left as real, t)), AtOnce(n - 1, t))
  {
    var b := Bucket(tokens as real, t);
    var left := if tokens > 0 then tokens - 1 else 0;
    var times := AtOnce(n, t);
    assert times != [] && times[0] == t && times[1..] == AtOnce(n - 1, t);
    assert Gain(cfg, t, t) == 0.0;
    assert Refilled(cfg, b, t) == tokens as real;
    assert Serve(cfg, Some(b), t) == (Bucket(left as real, t), tokens > 0);
    var rest := KeyAnswers(cfg, Some(Bucket(left as real, t)), times[1..]);
    assert KeyAnswers(cfg, Some(b), times) == [tokens > 0] + rest;
    assert KeyAnswers(cfg, Some(Bucket(left as real, t)), AtOnce(n - 1, t)) == rest;
  }

  /** Of any number of calls at one instant, a new key is granted the first `burst` and denied the rest. */
  lemma BurstExactly(cfg: Limits, n: nat, t: real, i: nat)
    requires cfg.burst >= 1 && i < n
    ensures KeyAnswers(cfg, None, AtOnce(n, t))[i] <==> i < cfg.burst
  {
    var times, first := AtOnce(n, t), Bucket((cfg.burst - 1) as real, t);
    assert times != [] && times[0] == t && times[1..] == AtOnce(n - 1, t);
    BucketAtOnce(cfg, cfg.burst - 1, n - 1, t);
    assert Serve(cfg, None, t) == (first, true);
    assert KeyAnswers(cfg, None, times) == [true] + KeyAnswers(cfg, Some(first), times[1..]);
  }

  // ---------- a denied call leaves no trace ----------

  /** `late` is `early` after an uncapped refill that took nothing. */
  predicate Drifted(cfg: Limits, early: Bucket, late: Bucket) {
    late.tokens == early.tokens + Gain(cfg, early.lastSeen, late.lastSeen)
  }

  lemma {:induction false} DriftUnseen(cfg: Limits, clients: Clients, key: string, late: Bucket, calls: seq<Call>)
    requires key in clients && Drifted(cfg, clients[key], late)
    ensures Answers(cfg, clients[key := late], calls) == Answers(cfg, clients, calls)
    decreases |calls|
  {
    if calls == [] {
    } else {
      var early, call := clients[key], calls[0];
      if call.key == key {
        GainAdds(cfg, early.lastSeen, late.lastSeen, call.time);
        assert Serve(cfg, Some(late), call.time) == Serve(cfg, Some(early), call.time);
        assert clients[key := late][key := Serve(cfg, Some(late), call.time).0]
            == clients[key := Serve(cfg, Some(early), call.time).0];
      } else {
        var next := After(cfg, clients, call).0;
        assert After(cfg, clients[key := late], call).0 == next[key := late];
        DriftUnseen(cfg, next, key, late, calls[1..]);
      }
    }
  }

  /** Deleting a denied call from a history leaves every other answer as it was. */
  lemma {:induction false} DeniedCallUnobservable(cfg: Limits, clients: Clients, calls: seq<Call>, i: nat)
    requires cfg.burst >= 1
    requires i < |calls| && !Answers(cfg, clients, calls)[i]
    ensures Answers(cfg, clients, calls[..i] + calls[i + 1..])
         == Answers(cfg, clients, calls)[..i] + Answers(cfg, clients, calls)[i + 1..]
    decreases i
  {
    var (next, ok) := After(cfg, clients, calls[0]);
    var without, all := calls[..i] + calls[i + 1..], Answers(cfg, clients, calls);
    if i == 0 {
      DeniedHeadUnseen(cfg, clients, calls[0], calls[1..]);
      assert without == calls[1..] && all[..0] + all[1..] == all[1..];
    } else {
      var rest := Answers(cfg, next, calls[1..]);
      DeniedCallUnobservable(cfg, next, calls[1..], i - 1);
      TailWithout(calls, i);
      HeadWithout(ok, rest, i);
    }
  }

  lemma TailWithout(calls: seq<Call>, i: nat)
    requires 0 < i < |calls|
    ensures var without := calls[..i] + calls[i + 1..];
            without[0] == calls[0] && without[1..] == calls[1..][..i - 1] + calls[1..][i..]
  {
  }

  lemma HeadWithout(ok: bool, rest: seq<bool>, i: nat)
    requires 0 < i <= |rest|
    ensures var all := [ok] + rest;
            [ok] + (rest[..i - 1] + rest[i..]) == all[..i] + all[i + 1..]
  {
  }

  lemma DeniedHeadUnseen(cfg: Limits, clients: Clients, call: Call, calls: seq<Call>)
    requires cfg.burst >= 1 && !After(cfg, clients, call).1
    ensures Answers(cfg, After(cfg, clients, call).0, calls) == Answers(cfg, clients, calls)
  {
    var next := After(cfg, clients, call).0;
    assert next == clients[call.key := Serve(cfg, Some(clients[call.key]), call.time).0];
    DriftUnseen(cfg, clients, call.key, next[call.key], calls);
  }
}
