/**
 Agent liveness by heartbeats (internal/mutauth/heartbeat.go). A sweep counts
 whole missed intervals since the agent was last looked at and revokes agents
 that reach the limit.
 */
module Heartbeat {
  import opened Wrappers
  import opened Text
  import opened Clock
  import opened Revocation

  const DEFAULT_MAX_MISS: int := 3
  const DEFAULT_INTERVAL: int := 30 * SECOND

  datatype Pulse = Pulse(state: string, lastSeen: int, missed: int)

  datatype Policy = Policy(maxMiss: int, interval: int)

  /** Integer division of Go, which truncates toward zero. */
  function TruncDiv(a: int, b: int): int
    requires b > 0
  {
    if a >= 0 then a / b else -((-a) / b)
  }

  function MissedSince(pol: Policy, p: Pulse, now: int): int
    requires pol.interval > 0
  {
    TruncDiv(now - p.lastSeen, pol.interval)
  }

  function SweptPulse(pol: Policy, p: Pulse, now: int): Pulse
    requires pol.interval > 0
  {
    var missed := MissedSince(pol, p, now);
    if missed <= 0 then p else Pulse(p.state, now, p.missed + missed)
  }

  /** The sweep at `now` finds this agent over the limit. */
  predicate OverLimit(pol: Policy, p: Pulse, now: int)
    requires pol.interval > 0
  {
    var missed := MissedSince(pol, p, now);
    missed > 0 && p.missed + missed >= pol.maxMiss
  }

  function Swept(pol: Policy, agents: map<string, Pulse>, now: int): map<string, Pulse>
    requires pol.interval > 0
  {
    map id | id in agents :: SweptPulse(pol, agents[id], now)
  }

  /** The sweep revokes this agent; revocation refuses the empty name. */
  predicate Doomed(pol: Policy, id: string, p: Pulse, now: int)
    requires pol.interval > 0
  {
    id != "" && OverLimit(pol, p, now)
  }

  function RevokedBySweep(pol: Policy, agents: map<string, Pulse>, now: int): set<string>
    requires pol.interval > 0
  {
    set id | id in agents && Doomed(pol, id, agents[id], now)
  }

  function Liveness(pol: Policy, agents: map<string, Pulse>, id: string, now: int): (bool, int)
    requires pol.interval > 0
  {
    if id !in agents then (false, 0)
    else
      var total := agents[id].missed + MissedSince(pol, agents[id], now);
      (total < pol.maxMiss, total)
  }

  class HeartbeatMgr {
    var agents: map<string, Pulse>
    const revSvc: RevSvc?
    var maxMiss: int
    var interval: int

    constructor (revSvc: RevSvc?)
      ensures agents == map[] && this.revSvc == revSvc
      ensures Settings() == Policy(3, 30_000_000_000)
    {
      agents := map[];
      this.revSvc := revSvc;
      maxMiss := DEFAULT_MAX_MISS;
      interval := DEFAULT_INTERVAL;
    }

    function Settings(): Policy
      reads this
    {
      Policy(maxMiss, interval)
    }

    method RecordHeartbeat(agentID: string, state: string, now: int)
      modifies this`agents
      ensures agents == old(agents)[agentID := Pulse(state, now, 0)]
    {
      agents := agents[agentID := Pulse(state, now, 0)];
    }

    method CheckLiveness(agentID: string, now: int) returns (alive: bool, missedCount: int)
      requires interval > 0
      ensures (alive, missedCount) == Liveness(Settings(), agents, agentID, now)
    {
      if agentID !in agents {
        return false, 0;
      }
      var s := agents[agentID];
      var elapsed := now - s.lastSeen;
      var total := s.missed + TruncDiv(elapsed, interval);
      return total < maxMiss, total;
    }

    /** The map is visited in no particular order; `dbOk` says whose revocation the database accepts. */
    method Sweep(now: int, dbOk: string -> bool)
      requires interval > 0
      modifies this`agents
      modifies if revSvc == null then {} else {revSvc as object, revSvc.table}
      ensures agents == Swept(Settings(), old(agents), now)
      ensures revSvc != null ==>
                && var r := old(revSvc.State());
                && revSvc.State() == r.(agents := r.agents + RevokedBySweep(Settings(), old(agents), now))
      ensures revSvc != null ==> forall e ::
                e in revSvc.table.rows <==>
                e in old(revSvc.table.rows)
                || (e.level == "agent" && e.target in RevokedBySweep(Settings(), old(agents), now) && dbOk(e.target))
    {
      var todo := agents.Keys;
      ghost var doomed := RevokedBySweep(Settings(), agents, now);
      while todo != {}
        invariant todo <= agents.Keys == old(agents.Keys)
        invariant forall id | id in agents ::
                    agents[id] == if id in todo then old(agents)[id] else SweptPulse(Settings(), old(agents)[id], now)
        invariant revSvc != null ==>
                    && var r := old(revSvc.State());
                    && revSvc.State() == r.(agents := r.agents + (doomed - todo))
        invariant revSvc != null ==> forall e ::
                    e in revSvc.table.rows <==>
                    e in old(revSvc.table.rows) || (e.level == "agent" && e.target in doomed - todo && dbOk(e.target))
        decreases todo
      {
        var id :| id in todo;
        ghost var visited := doomed - todo;
        SweepAgent(id, now, dbOk(id));
        todo := todo - {id};
        assert id in doomed <==> Doomed(Settings(), id, old(agents)[id], now);
        assert doomed - todo == if id in doomed then visited + {id} else visited;
      }
    }

    /** One visit of the sweep. */
    method SweepAgent(id: string, now: int, dbOk: bool)
      requires interval > 0 && id in agents
      modifies this`agents
      modifies if revSvc == null then {} else {revSvc as object, revSvc.table}
      ensures agents == old(agents)[id := SweptPulse(Settings(), old(agents)[id], now)]
      ensures revSvc != null ==>
                && var r := old(revSvc.State());
                && revSvc.State() == if Doomed(Settings(), id, old(agents)[id], now)
                                     then r.(agents := r.agents + {id}) else r
      ensures revSvc != null ==> forall e ::
                e in revSvc.table.rows <==>
                e in old(revSvc.table.rows)
                || (Doomed(Settings(), id, old(agents)[id], now) && dbOk && e == Entry("agent", id))
    {
      var s := agents[id];
      var missed := TruncDiv(now - s.lastSeen, interval);
      if missed > 0 {
        agents := agents[id := Pulse(s.state, now, s.missed + missed)];
        if s.missed + missed >= maxMiss && revSvc != null {
          var r := revSvc.Revoke("agent", id, dbOk);
        }
      }
    }
  }

  method Itoa(n: int) returns (s: string)
    ensures s == if n < 0 then "" else Decimal(n)
  {
    if n == 0 {
      return "0";
    }
    var rest := n;
    s := "";
    while rest > 0
      invariant n < 0 ==> rest == n && s == ""
      invariant n > 0 ==> rest >= 0 && Decimal(n) == (if rest == 0 then "" else Decimal(rest)) + s
      decreases rest
    {
      s := [Digit(rest % 10)] + s;
      rest := rest / 10;
    }
  }

  // ---------- histories ----------

  datatype Event = Beat(id: string, state: string, at: int) | SweepAt(at: int)

  /** The tracked agents, and the agents this monitor has revoked. */
  datatype Watch = Watch(agents: map<string, Pulse>, revoked: set<string>)

  function After(pol: Policy, w: Watch, e: Event): Watch
    requires pol.interval > 0
  {
    match e
    case Beat(id, state, at) => w.(agents := w.agents[id := Pulse(state, at, 0)])
    case SweepAt(at) => Watch(Swept(pol, w.agents, at), w.revoked + RevokedBySweep(pol, w.agents, at))
  }

  function Run(pol: Policy, events: seq<Event>): Watch
    requires pol.interval > 0
  {
    if events == [] then Watch(map[], {})
    else After(pol, Run(pol, events[..|events| - 1]), events[|events| - 1])
  }

  function LastBeat(events: seq<Event>, id: string): Option<int> {
    if events == [] then None
    else
      var e := events[|events| - 1];
      if e.Beat? && e.id == id then Some(e.at) else LastBeat(events[..|events| - 1], id)
  }

  predicate InClockOrder(events: seq<Event>) {
    forall i, j | 0 <= i < j < |events| :: events[i].at <= events[j].at
  }

  lemma WholeIntervals(x: int, interval: int)
    requires interval > 0 && x >= 0
    ensures (x / interval) * interval <= x < (x / interval + 1) * interval
  {
  }

  /** Counted intervals pay for the time since the heartbeat at least once and at most twice. */
  ghost predicate Accounted(pol: Policy, w: Watch, id: string, beat: Option<int>, now: int)
    requires pol.interval > 0
  {
    && (id in w.agents <==> beat.Some?)
    && (id in w.agents ==>
          var p := w.agents[id];
          && p.missed >= 0 && p.lastSeen <= now
          && p.missed * pol.interval <= p.lastSeen - beat.value <= 2 * (p.missed * pol.interval)
          && (p.missed >= pol.maxMiss && id != "" ==> id in w.revoked))
  }

  lemma SweepAccounts(pol: Policy, p: Pulse, beat: int, now: int)
    requires pol.interval > 0 && p.missed >= 0 && p.lastSeen <= now
    requires p.missed * pol.interval <= p.lastSeen - beat <= 2 * (p.missed * pol.interval)
    ensures var q := SweptPulse(pol, p, now);
            && q.missed >= 0 && q.lastSeen <= now && MissedSince(pol, p, now) >= 0
            && q.missed * pol.interval <= q.lastSeen - beat <= 2 * (q.missed * pol.interval)
            && (p.missed + MissedSince(pol, p, now)) * pol.interval <= now - beat
            && now - q.lastSeen < pol.interval
  {
    var k := MissedSince(pol, p, now);
    GapCounted(now - p.lastSeen, k, pol.interval);
    Distribute(p.missed, k, pol.interval);
  }

  lemma Distribute(a: int, b: int, c: int)
    ensures (a + b) * c == a * c + b * c
  {
  }

  /** Whole intervals of a gap pay for it at least once, and when there are any at most twice. */
  lemma GapCounted(gap: int, k: int, interval: int)
    requires interval > 0 && gap >= 0 && k == TruncDiv(gap, interval)
    ensures k >= 0 && k * interval <= gap && (k == 0 ==> gap < interval) && (k > 0 ==> gap <= 2 * (k * interval))
  {
    WholeIntervals(gap, interval);
    Distribute(k, 1, interval);
    if k > 0 {
      Multiply(1, k, interval);
    }
  }

  lemma {:induction false} RunAccounts(pol: Policy, events: seq<Event>, id: string, now: int)
    requires pol.interval > 0 && pol.maxMiss >= 1 && InClockOrder(events)
    requires events != [] ==> events[|events| - 1].at <= now
    ensures Accounted(pol, Run(pol, events), id, LastBeat(events, id), now)
  {
    if events == [] {
    } else {
      var n := |events| - 1;
      var w := Run(pol, events[..n]);
      RunAccounts(pol, events[..n], id, events[n].at);
      if events[n].SweepAt? && id in w.agents {
        SweepAccounts(pol, w.agents[id], LastBeat(events[..n], id).value, events[n].at);
      }
    }
  }

  /** No sweep revokes an agent whose last heartbeat is less than maxMiss intervals old. */
  lemma NoEarlyRevocation(pol: Policy, events: seq<Event>, id: string, now: int)
    requires pol.interval > 0 && pol.maxMiss >= 1 && InClockOrder(events)
    requires events != [] ==> events[|events| - 1].at <= now
    requires id in RevokedBySweep(pol, Run(pol, events).agents, now)
    ensures LastBeat(events, id).Some? && now - LastBeat(events, id).value >= pol.maxMiss * pol.interval
  {
    RunAccounts(pol, events, id, now);
    var p := Run(pol, events).agents[id];
    SweepAccounts(pol, p, LastBeat(events, id).value, now);
    Multiply(pol.maxMiss, p.missed + MissedSince(pol, p, now), pol.interval);
  }

  lemma Multiply(a: int, b: int, c: int)
    requires a <= b && c >= 0
    ensures a * c <= b * c
  {
  }

  lemma LongSilenceCounted(missed: int, maxMiss: int, interval: int, counted: int, rest: int)
    requires interval > 0 && counted <= 2 * (missed * interval) && rest < interval
    requires counted + rest >= (2 * maxMiss - 1) * interval
    ensures missed >= maxMiss
  {
    assert (2 * missed + 1) * interval == 2 * (missed * interval) + interval;
    if missed < maxMiss {
      Multiply(2 * missed + 1, 2 * maxMiss - 1, interval);
    }
  }

  lemma FitsDivides(k: int, x: int, interval: int)
    requires interval > 0 && x >= 0 && k * interval <= x
    ensures k <= x / interval
  {
    WholeIntervals(x, interval);
    if k > x / interval {
      Multiply(x / interval + 1, k, interval);
    }
  }

  /** After a sweep at least 2 * maxMiss - 1 intervals past its last heartbeat, a named agent is revoked. */
  lemma SilentAgentRevoked(pol: Policy, events: seq<Event>, id: string)
    requires pol.interval > 0 && pol.maxMiss >= 1 && InClockOrder(events)
    requires events != [] && events[|events| - 1].SweepAt?
    requires id != "" && LastBeat(events, id).Some?
    requires events[|events| - 1].at - LastBeat(events, id).value >= (2 * pol.maxMiss - 1) * pol.interval
    ensures id in Run(pol, events).revoked
  {
    var n := |events| - 1;
    var now := events[n].at;
    var beat := LastBeat(events, id).value;
    RunAccounts(pol, events, id, now);
    RunAccounts(pol, events[..n], id, now);
    var p := Run(pol, events[..n]).agents[id];
    SweepAccounts(pol, p, beat, now);
    var q := Run(pol, events).agents[id];
    assert q == SweptPulse(pol, p, now);
    LongSilenceCounted(q.missed, pol.maxMiss, pol.interval, q.lastSeen - beat, now - q.lastSeen);
  }

  /** The reported count never exceeds the whole intervals since the last heartbeat. */
  lemma LivenessNotOvercounted(pol: Policy, events: seq<Event>, id: string, now: int)
    requires pol.interval > 0 && pol.maxMiss >= 1 && InClockOrder(events)
    requires events != [] ==> events[|events| - 1].at <= now
    ensures var (alive, total) := Liveness(pol, Run(pol, events).agents, id, now);
            && 0 <= total
            && (LastBeat(events, id).None? ==> !alive && total == 0)
            && (LastBeat(events, id).Some? ==>
                  && total <= (now - LastBeat(events, id).value) / pol.interval
                  && (alive <==> total < pol.maxMiss))
  {
    RunAccounts(pol, events, id, now);
    if LastBeat(events, id).Some? {
      var beat := LastBeat(events, id).value;
      CountPaid(pol, events, id, now);
      FitsDivides(Liveness(pol, Run(pol, events).agents, id, now).1, now - beat, pol.interval);
    }
  }

  lemma CountPaid(pol: Policy, events: seq<Event>, id: string, now: int)
    requires pol.interval > 0 && pol.maxMiss >= 1 && InClockOrder(events)
    requires events != [] ==> events[|events| - 1].at <= now
    requires LastBeat(events, id).Some?
    ensures var total := Liveness(pol, Run(pol, events).agents, id, now).1;
            0 <= total && total * pol.interval <= now - LastBeat(events, id).value
    ensures LastBeat(events, id).value <= now
  {
    RunAccounts(pol, events, id, now);
    var p := Run(pol, events).agents[id];
    SweepAccounts(pol, p, LastBeat(events, id).value, now);
    Multiply(0, p.missed, pol.interval);
  }

  /** The count covers at least half of the whole intervals since the last heartbeat, and all of them if no sweep came since. */
  lemma LivenessNotUndercounted(pol: Policy, events: seq<Event>, id: string, now: int)
    requires pol.interval > 0 && pol.maxMiss >= 1 && InClockOrder(events)
    requires events != [] ==> events[|events| - 1].at <= now
    requires LastBeat(events, id).Some?
    ensures var total := Liveness(pol, Run(pol, events).agents, id, now).1;
            (now - LastBeat(events, id).value) / pol.interval <= 2 * total
    ensures NoSweepSince(events, id) ==>
              Liveness(pol, Run(pol, events).agents, id, now).1 == (now - LastBeat(events, id).value) / pol.interval
  {
    RunAccounts(pol, events, id, now);
    var p, beat := Run(pol, events).agents[id], LastBeat(events, id).value;
    HalfCovered(now - beat, p.lastSeen - beat, p.missed, TruncDiv(now - p.lastSeen, pol.interval), pol.interval);
    if NoSweepSince(events, id) {
      UnsweptPulse(pol, events, id);
    }
  }

  lemma HalfCovered(all: int, counted: int, missed: int, since: int, interval: int)
    requires interval > 0 && 0 <= counted <= 2 * (missed * interval) && counted <= all && missed >= 0
    requires since == TruncDiv(all - counted, interval)
    ensures all / interval <= 2 * (missed + since)
  {
    GapCounted(all - counted, since, interval);
    WholeIntervals(all - counted, interval);
    WholeIntervals(all, interval);
    Distribute(since, 1, interval);
    if all / interval > 2 * (missed + since) {
      Multiply(2 * missed + since + 1, all / interval, interval);
      Distribute(2 * missed + since, 1, interval);
      Distribute(2 * missed, since, interval);
      Distribute(missed, missed, interval);
      assert false;
    }
  }

  predicate NoSweepSince(events: seq<Event>, id: string) {
    events == []
    || (var e := events[|events| - 1];
        !e.SweepAt? && ((e.Beat? && e.id == id) || NoSweepSince(events[..|events| - 1], id)))
  }

  lemma {:induction false} UnsweptPulse(pol: Policy, events: seq<Event>, id: string)
    requires pol.interval > 0 && NoSweepSince(events, id) && LastBeat(events, id).Some?
    ensures var agents := Run(pol, events).agents;
            id in agents && agents[id].lastSeen == LastBeat(events, id).value && agents[id].missed == 0
  {
    var e := events[|events| - 1];
    if !(e.Beat? && e.id == id) {
      UnsweptPulse(pol, events[..|events| - 1], id);
    }
  }

  /** An agent silent for 2 * maxMiss intervals is reported as not alive, swept or not. */
  lemma SilentAgentNotAlive(pol: Policy, events: seq<Event>, id: string, now: int)
    requires pol.interval > 0 && pol.maxMiss >= 1 && InClockOrder(events)
    requires events != [] ==> events[|events| - 1].at <= now
    requires LastBeat(events, id).Some? && now - LastBeat(events, id).value >= (2 * pol.maxMiss - 1) * pol.interval
    ensures !Liveness(pol, Run(pol, events).agents, id, now).0
  {
    LivenessNotUndercounted(pol, events, id, now);
    LivenessNotOvercounted(pol, events, id, now);
    FitsDivides(2 * pol.maxMiss - 1, now - LastBeat(events, id).value, pol.interval);
  }

  /** A heartbeat clears the count: an agent heard from within the interval is alive. */
  lemma HeardAgentAlive(pol: Policy, events: seq<Event>, id: string, now: int)
    requires pol.interval > 0 && pol.maxMiss >= 1 && InClockOrder(events)
    requires events != [] ==> events[|events| - 1].at <= now
    requires LastBeat(events, id).Some? && now - LastBeat(events, id).value < pol.maxMiss * pol.interval
    ensures Liveness(pol, Run(pol, events).agents, id, now).0
  {
    RunAccounts(pol, events, id, now);
    CountPaid(pol, events, id, now);
    var total := Liveness(pol, Run(pol, events).agents, id, now).1;
    if total >= pol.maxMiss {
      Multiply(pol.maxMiss, total, pol.interval);
      assert false;
    }
  }
}
