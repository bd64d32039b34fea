/**
 Restarting the log from its table. With every event persisted, a restart changes
 nothing as long as the text order of the ids is their numeric order, which holds
 for at most 999,999 events.
 */
module AuditRestart {
  import opened Wrappers
  import opened Text
  import opened Crypto
  import opened Redaction
  import opened Audit
  import opened AuditChain

  const MAX_ORDERED: nat := 999_999

  // ---------- text order of ids ----------

  lemma MillionIsPow()
    ensures Pow10(6) == 1_000_000
  {
    assert Pow10(1) == 10 * Pow10(0);
    assert Pow10(2) == 10 * Pow10(1);
    assert Pow10(3) == 10 * Pow10(2);
    assert Pow10(4) == 10 * Pow10(3);
    assert Pow10(5) == 10 * Pow10(4);
    assert Pow10(6) == 10 * Pow10(5);
  }

  lemma SmallIdsOrdered(i: nat, j: nat)
    requires i < j <= MAX_ORDERED
    ensures TextLess(EventId(i), EventId(j))
  {
    MillionIsPow();
    PaddedIsDigits(i, 6);
    PaddedIsDigits(j, 6);
    DigitsOrdered(i, j, 6);
    TextLessPrefix("evt-", Padded(i, ID_WIDTH), Padded(j, ID_WIDTH));
  }

  lemma MillionBeforeItsPredecessor()
    ensures TextLess(EventId(1_000_000), EventId(999_999))
  {
  }

  /** Text order is numeric order on the first n ids exactly when n is at most 999,999. */
  lemma IdOrderExactly(n: nat)
    ensures (forall i: nat, j: nat | 1 <= i < j <= n :: TextLess(EventId(i), EventId(j))) <==> n <= MAX_ORDERED
  {
    if n <= MAX_ORDERED {
      forall i: nat, j: nat | 1 <= i < j <= n ensures TextLess(EventId(i), EventId(j)) {
        SmallIdsOrdered(i, j);
      }
    } else {
      var i, j := 999_999, 1_000_000;
      MillionBeforeItsPredecessor();
      TextLessTotal(EventId(i), EventId(j));
      assert !TextLess(EventId(i), EventId(j));
    }
  }

  // ---------- reopening ----------

  function RowsOf(p: Primitives, events: seq<AuditEvent>): (rows: seq<Row>)
    ensures |rows| == |events| && forall i | 0 <= i < |rows| :: rows[i] == ToRow(p, events[i])
  {
    seq(|events|, i requires 0 <= i < |events| => ToRow(p, events[i]))
  }

  /** The log a new process starts from; None when the table cannot be read. */
  function Reopened(p: Primitives, rows: seq<Row>): Option<Log> {
    match Decoded(p, SortById(rows))
    case None => None
    case Some(events) => Some(LogOf(events))
  }

  lemma {:induction false} DecodedRows(p: Primitives, events: seq<AuditEvent>)
    requires TimeLaws(p)
    ensures Decoded(p, RowsOf(p, events)) == Some(events)
  {
    if events == [] {
    } else {
      var before, last := events[..|events| - 1], events[|events| - 1];
      assert events == before + [last];
      DecodedRows(p, before);
      RowRoundTrip(p, last);
      RowsSnoc(p, before, last);
      DecodedSnoc(p, RowsOf(p, before), ToRow(p, last));
    }
  }

  lemma RowsSnoc(p: Primitives, events: seq<AuditEvent>, e: AuditEvent)
    ensures RowsOf(p, events + [e]) == RowsOf(p, events) + [ToRow(p, e)]
  {
  }

  lemma DecodedSnoc(p: Primitives, rows: seq<Row>, r: Row)
    requires Decoded(p, rows).Some? && FromRow(p, r).Some?
    ensures Decoded(p, rows + [r]) == Some(Decoded(p, rows).value + [FromRow(p, r).value])
  {
    assert (rows + [r])[..|rows|] == rows;
  }

  lemma SmallRowsOrdered(p: Primitives, events: seq<AuditEvent>)
    requires IdsByPosition(events) && |events| <= MAX_ORDERED
    ensures OrderedById(RowsOf(p, events))
  {
    var rows := RowsOf(p, events);
    forall i, j | 0 <= i < j < |rows| ensures !TextLess(rows[j].id, rows[i].id) {
      SmallIdsOrdered(i + 1, j + 1);
      TextLessTotal(rows[i].id, rows[j].id);
    }
  }

  lemma {:induction false} DecodedKeepsIds(p: Primitives, rows: seq<Row>)
    ensures Decoded(p, rows).Some? ==>
              |Decoded(p, rows).value| == |rows|
              && forall i | 0 <= i < |rows| :: Decoded(p, rows).value[i].id == rows[i].id
  {
    if rows == [] {
    } else {
      DecodedKeepsIds(p, rows[..|rows| - 1]);
    }
  }

  /** A log whose events are all in the table comes back unchanged exactly when it has at most 999,999 of them. */
  lemma ReopenExactly(p: Primitives, log: Log)
    requires TimeLaws(p) && Sound(p, log)
    ensures Reopened(p, RowsOf(p, log.events)) == Some(log) <==> |log.events| <= MAX_ORDERED
  {
    var rows := RowsOf(p, log.events);
    if |log.events| <= MAX_ORDERED {
      SmallRowsOrdered(p, log.events);
      SortOfOrdered(rows);
      DecodedRows(p, log.events);
    } else {
      MillionBeforeItsPredecessor();
      DisorderShows(p, log, 999_998, 999_999);
    }
  }

  /** Ids whose text order is not their order in the log come back differently. */
  lemma DisorderShows(p: Primitives, log: Log, i: nat, j: nat)
    requires i < j < |log.events| && IdsByPosition(log.events)
    requires TextLess(EventId(j + 1), EventId(i + 1))
    ensures Reopened(p, RowsOf(p, log.events)) != Some(log)
  {
    var sorted := SortById(RowsOf(p, log.events));
    SortByIdSorts(RowsOf(p, log.events));
    DecodedKeepsIds(p, sorted);
    assert |sorted| == |multiset(sorted)| == |log.events|;
    assert !TextLess(sorted[j].id, sorted[i].id);
  }

  // ---------- runs with restarts ----------

  datatype Op = Rec(req: RecordReq, at: int, dbOk: bool) | Reopen

  datatype World = World(log: Log, rows: seq<Row>)

  function Saved(p: Primitives, rows: seq<Row>, e: AuditEvent, dbOk: bool): seq<Row> {
    if dbOk && !HasId(rows, e.id) then rows + [ToRow(p, e)] else rows
  }

  /** The log and table after one call or restart. */
  function OpAfter(p: Primitives, lower: char -> char, w: World, op: Op): Option<World> {
    match op
    case Rec(req, at, dbOk) =>
      var log := Recorded(p, lower, w.log, req, at);
      Some(World(log, Saved(p, w.rows, log.events[|log.events| - 1], dbOk)))
    case Reopen =>
      match Reopened(p, w.rows)
      case None => None
      case Some(log) => Some(World(log, w.rows))
  }

  /** The log and table after a run from here; None when a restart finds the table unreadable. */
  function RunOps(p: Primitives, lower: char -> char, w: World, ops: seq<Op>): Option<World> {
    if ops == [] then Some(w)
    else
      match RunOps(p, lower, w, ops[..|ops| - 1])
      case None => None
      case Some(mid) => OpAfter(p, lower, mid, ops[|ops| - 1])
  }

  /** A chained log, and a table of exactly its events; at first both are empty. */
  ghost predicate InStep(p: Primitives, w: World) {
    Sound(p, w.log) && w.rows == RowsOf(p, w.log.events)
  }

  lemma StartsInStep(p: Primitives)
    ensures InStep(p, World(EmptyLog, []))
  {
    assert RowsOf(p, []) == [];
  }

  predicate AllAccepted(ops: seq<Op>) {
    forall i | 0 <= i < |ops| :: ops[i].Rec? ==> ops[i].dbOk
  }

  function WithoutReopens(ops: seq<Op>): seq<Op> {
    if ops == [] then []
    else if ops[|ops| - 1].Reopen? then WithoutReopens(ops[..|ops| - 1])
    else WithoutReopens(ops[..|ops| - 1]) + [ops[|ops| - 1]]
  }

  lemma FreshIdSaved(p: Primitives, events: seq<AuditEvent>, e: AuditEvent)
    requires IdsByPosition(events + [e])
    ensures Saved(p, RowsOf(p, events), e, true) == RowsOf(p, events + [e])
  {
    var rows := RowsOf(p, events);
    assert (events + [e])[|events|] == e;
    if HasId(rows, e.id) {
      var i :| 0 <= i < |rows| && rows[i].id == e.id;
      assert (events + [e])[i].id == EventId(i + 1);
      EventIdInjective(i + 1, |events| + 1);
      assert false;
    }
  }

  lemma LastApart(ops: seq<Op>)
    requires ops != []
    ensures ops[..|ops| - 1] + [ops[|ops| - 1]] == ops
  {
  }

  lemma RunOpsSnoc(p: Primitives, lower: char -> char, w: World, ops: seq<Op>, op: Op)
    requires RunOps(p, lower, w, ops).Some?
    ensures RunOps(p, lower, w, ops + [op]) == OpAfter(p, lower, RunOps(p, lower, w, ops).value, op)
  {
    assert (ops + [op])[..|ops|] == ops;
  }

  lemma RecordedAndSaved(p: Primitives, lower: char -> char, w: World, req: RecordReq, at: int)
    requires InStep(p, w)
    ensures var w' := OpAfter(p, lower, w, Rec(req, at, true)).value;
            InStep(p, w') && |w'.log.events| == |w.log.events| + 1
  {
    RecordKeepsSound(p, lower, w.log, req, at);
    FreshIdSaved(p, w.log.events, NextEvent(p, lower, w.log, req, at));
  }

  /** The log is the one of the same calls without restarts, and the table holds exactly its events. */
  ghost predicate Transparent(p: Primitives, lower: char -> char, w: World, ops: seq<Op>) {
    && RunOps(p, lower, w, ops).Some? && RunOps(p, lower, w, WithoutReopens(ops)) == RunOps(p, lower, w, ops)
    && var end := RunOps(p, lower, w, ops).value;
    && InStep(p, end) && |end.log.events| == |w.log.events| + |WithoutReopens(ops)|
  }

  lemma ReopenTransparent(p: Primitives, lower: char -> char, w: World, ops: seq<Op>)
    requires TimeLaws(p) && Transparent(p, lower, w, ops) && |w.log.events| + |WithoutReopens(ops)| <= MAX_ORDERED
    ensures Transparent(p, lower, w, ops + [Reopen])
  {
    var end := RunOps(p, lower, w, ops).value;
    ReopenExactly(p, end.log);
    assert OpAfter(p, lower, end, Reopen) == Some(end);
    RunOpsSnoc(p, lower, w, ops, Reopen);
    ReopenDropped(ops);
  }

  lemma ReopenDropped(ops: seq<Op>)
    ensures WithoutReopens(ops + [Reopen]) == WithoutReopens(ops)
  {
    assert (ops + [Reopen])[..|ops|] == ops;
  }

  lemma RecordTransparent(p: Primitives, lower: char -> char, w: World, ops: seq<Op>, req: RecordReq, at: int)
    requires Transparent(p, lower, w, ops)
    ensures Transparent(p, lower, w, ops + [Rec(req, at, true)])
  {
    var op, plain, end := Rec(req, at, true), WithoutReopens(ops), RunOps(p, lower, w, ops).value;
    RecordedAndSaved(p, lower, end, req, at);
    RunOpsSnoc(p, lower, w, ops, op);
    RunOpsSnoc(p, lower, w, plain, op);
    RecordKept(ops, op);
    assert RunOps(p, lower, w, ops + [op]) == OpAfter(p, lower, end, op) == RunOps(p, lower, w, WithoutReopens(ops + [op]));
  }

  lemma RecordKept(ops: seq<Op>, op: Op)
    requires op.Rec?
    ensures WithoutReopens(ops + [op]) == WithoutReopens(ops) + [op]
  {
    assert (ops + [op])[..|ops|] == ops;
  }

  /**
   With every save accepted and at most 999,999 events, restarts anywhere in the run are invisible: the log
   is the one of the same calls without restarts, and the table holds exactly its events.
   */
  lemma {:induction false} RestartTransparent(p: Primitives, lower: char -> char, w: World, ops: seq<Op>)
    requires TimeLaws(p) && InStep(p, w)
    requires AllAccepted(ops) && |w.log.events| + |WithoutReopens(ops)| <= MAX_ORDERED
    ensures Transparent(p, lower, w, ops)
  {
    if ops == [] {
    } else {
      var before, last := ops[..|ops| - 1], ops[|ops| - 1];
      LastApart(ops);
      assert AllAccepted(before);
      RestartTransparent(p, lower, w, before);
      if last.Reopen? {
        ReopenTransparent(p, lower, w, before);
      } else {
        RecordTransparent(p, lower, w, before, last.req, last.at);
      }
    }
  }

  // ---------- saves that fail ----------

  predicate OnlyRecords(ops: seq<Op>) {
    forall i | 0 <= i < |ops| :: ops[i].Rec?
  }

  lemma AcceptedUntilLast(ops: seq<Op>)
    requires ops != [] && OnlyRecords(ops)
    ensures OnlyRecords(ops[..|ops| - 1])
    ensures AllAccepted(ops) <==> AllAccepted(ops[..|ops| - 1]) && ops[|ops| - 1].dbOk
  {
    var before := ops[..|ops| - 1];
    if AllAccepted(before) && ops[|ops| - 1].dbOk {
      forall i | 0 <= i < |ops| ensures ops[i].Rec? ==> ops[i].dbOk {
        assert i < |before| ==> ops[i] == before[i];
      }
    }
    forall i | 0 <= i < |before| ensures before[i].Rec? {
      assert before[i] == ops[i];
    }
    assert AllAccepted(ops) ==> forall i | 0 <= i < |before| :: before[i] == ops[i] && ops[i].dbOk;
  }

  /** Accepted saves leave log and table in step; a refused one leaves the table short for good. */
  lemma {:induction false} TableFollows(p: Primitives, lower: char -> char, w: World, recs: seq<Op>)
    requires InStep(p, w) && OnlyRecords(recs)
    ensures RunOps(p, lower, w, recs).Some?
    ensures var end := RunOps(p, lower, w, recs).value;
            && (if AllAccepted(recs) then InStep(p, end) else |end.rows| < |end.log.events|)
            && |end.log.events| == |w.log.events| + |recs|
  {
    if recs == [] {
    } else {
      var n := |recs| - 1;
      AcceptedUntilLast(recs);
      TableFollows(p, lower, w, recs[..n]);
      if AllAccepted(recs[..n]) && recs[n].dbOk {
        RecordedAndSaved(p, lower, RunOps(p, lower, w, recs[..n]).value, recs[n].req, recs[n].at);
      }
    }
  }

  /**
   After any Record calls, reopening gives the log back exactly when every save was accepted and the events are at
   most 999,999: nothing later makes up for a lost save.
   */
  lemma ReopensAfterExactly(p: Primitives, lower: char -> char, w: World, recs: seq<Op>)
    requires TimeLaws(p) && InStep(p, w) && OnlyRecords(recs)
    ensures RunOps(p, lower, w, recs).Some?
    ensures var end := RunOps(p, lower, w, recs).value;
            Reopened(p, end.rows) == Some(end.log) <==>
              AllAccepted(recs) && |w.log.events| + |recs| <= MAX_ORDERED
  {
    TableFollows(p, lower, w, recs);
    var end := RunOps(p, lower, w, recs).value;
    if AllAccepted(recs) {
      ReopenExactly(p, end.log);
    } else {
      ReopenedLength(p, end.rows);
    }
  }

  lemma ReopenedLength(p: Primitives, rows: seq<Row>)
    ensures Reopened(p, rows).Some? ==> |Reopened(p, rows).value.events| == |rows|
  {
    SortByIdSorts(rows);
    assert |SortById(rows)| == |multiset(SortById(rows))| == |rows|;
    DecodedKeepsIds(p, SortById(rows));
  }

  lemma GapStaysOrdered(p: Primitives, events: seq<AuditEvent>, e: AuditEvent)
    requires IdsByPosition(events) && e.id == EventId(|events| + 2) && |events| + 2 <= MAX_ORDERED
    ensures OrderedById(RowsOf(p, events + [e])) && !HasId(RowsOf(p, events), e.id)
  {
    var rows := RowsOf(p, events + [e]);
    RowsSnoc(p, events, e);
    forall i, j | 0 <= i < j < |rows| ensures !TextLess(rows[j].id, rows[i].id) {
      SmallIdsOrdered(i + 1, if j < |events| then j + 1 else j + 2);
      TextLessTotal(rows[i].id, rows[j].id);
    }
    forall i | 0 <= i < |events| ensures RowsOf(p, events)[i].id != e.id {
      if RowsOf(p, events)[i].id == e.id {
        EventIdInjective(i + 1, |events| + 2);
      }
    }
  }

  /** One save refused, the next accepted. */
  lemma GapReopens(p: Primitives, lower: char -> char, w: World, lost: RecordReq, kept: RecordReq, at: int, at': int)
    requires TimeLaws(p) && InStep(p, w) && |w.log.events| + 2 <= MAX_ORDERED
    ensures var log := Recorded(p, lower, w.log, lost, at);
            var e := NextEvent(p, lower, log, kept, at');
            && e.id == EventId(|w.log.events| + 2)
            && Saved(p, w.rows, e, true) == RowsOf(p, w.log.events + [e])
            && Reopened(p, RowsOf(p, w.log.events + [e])) == Some(LogOf(w.log.events + [e]))
  {
    var log := Recorded(p, lower, w.log, lost, at);
    var e := NextEvent(p, lower, log, kept, at');
    NextEventLinks(p, lower, log, kept, at');
    GapStaysOrdered(p, w.log.events, e);
    RowsSnoc(p, w.log.events, e);
    SortOfOrdered(RowsOf(p, w.log.events + [e]));
    DecodedRows(p, w.log.events + [e]);
  }

  function GapOps(lost: RecordReq, kept: RecordReq, at: int, at': int): seq<Op> {
    [Rec(lost, at, false)] + [Rec(kept, at', true)] + [Reopen]
  }

  /**
   A refused save followed by an accepted one breaks the log at the next restart: the log read back skips an identifier,
   and the next event is given one that the table holds already, so that even an accepted save does not store it.
   */
  lemma LostSaveReissuesId(p: Primitives, lower: char -> char, w: World, lost: RecordReq, kept: RecordReq,
                           at: int, at': int, next: RecordReq, later: int)
    requires TimeLaws(p) && InStep(p, w) && |w.log.events| + 2 <= MAX_ORDERED
    ensures RunOps(p, lower, w, GapOps(lost, kept, at, at')).Some?
    ensures var reopened := RunOps(p, lower, w, GapOps(lost, kept, at, at')).value;
            var e := NextEvent(p, lower, reopened.log, next, later);
            && !Sound(p, reopened.log) && HasId(reopened.rows, e.id)
            && OpAfter(p, lower, reopened, Rec(next, later, true)).value.rows == reopened.rows
  {
    var log := Recorded(p, lower, w.log, lost, at);
    var e := NextEvent(p, lower, log, kept, at');
    var n := |w.log.events|;
    GapReopens(p, lower, w, lost, kept, at, at');
    GapRuns(p, lower, w, lost, kept, at, at');
    var reopened := World(LogOf(w.log.events + [e]), RowsOf(p, w.log.events + [e]));
    NextEventLinks(p, lower, reopened.log, next, later);
    assert reopened.rows[n].id == EventId(n + 2);
    SkippedIdShows(p, reopened.log, n);
  }

  lemma SkippedIdShows(p: Primitives, log: Log, n: nat)
    requires n < |log.events| && log.events[n].id == EventId(n + 2)
    ensures !Sound(p, log)
  {
    if Sound(p, log) {
      assert log.events[n].id == EventId(n + 1);
      EventIdInjective(n + 1, n + 2);
    }
  }

  lemma RunOneOp(p: Primitives, lower: char -> char, w: World, op: Op)
    ensures RunOps(p, lower, w, [op]) == OpAfter(p, lower, w, op)
  {
    assert [op][..0] == [];
  }

  lemma ThreeOps(p: Primitives, lower: char -> char, w: World, a: Op, b: Op, c: Op, w1: World, w2: World)
    requires OpAfter(p, lower, w, a) == Some(w1) && OpAfter(p, lower, w1, b) == Some(w2)
    ensures RunOps(p, lower, w, [a] + [b] + [c]) == OpAfter(p, lower, w2, c)
  {
    RunOneOp(p, lower, w, a);
    RunOpsSnoc(p, lower, w, [a], b);
    RunOpsSnoc(p, lower, w, [a] + [b], c);
  }

  lemma GapRuns(p: Primitives, lower: char -> char, w: World, lost: RecordReq, kept: RecordReq, at: int, at': int)
    requires TimeLaws(p) && InStep(p, w) && |w.log.events| + 2 <= MAX_ORDERED
    ensures var e := NextEvent(p, lower, Recorded(p, lower, w.log, lost, at), kept, at');
            RunOps(p, lower, w, GapOps(lost, kept, at, at'))
            == Some(World(LogOf(w.log.events + [e]), RowsOf(p, w.log.events + [e])))
  {
    var log := Recorded(p, lower, w.log, lost, at);
    var e := NextEvent(p, lower, log, kept, at');
    var rows := RowsOf(p, w.log.events + [e]);
    GapReopens(p, lower, w, lost, kept, at, at');
    ThreeOps(p, lower, w, Rec(lost, at, false), Rec(kept, at', true), Reopen, World(log, w.rows),
             World(Recorded(p, lower, log, kept, at'), rows));
  }

  // ---------- no secrets in the clear ----------

  /** Redaction would change nothing more: after the name of a secret and a separator comes only the mask. */
  ghost predicate Masked(lower: char -> char, detail: string) {
    RedactedAs(lower, detail, detail)
  }

  ghost predicate EventsMasked(lower: char -> char, events: seq<AuditEvent>) {
    forall i | 0 <= i < |events| :: Masked(lower, events[i].detail)
  }

  ghost predicate RowsMasked(lower: char -> char, rows: seq<Row>) {
    forall r | r in rows :: Masked(lower, r.detail)
  }

  lemma RecordedMasked(p: Primitives, lower: char -> char, log: Log, req: RecordReq, now: int)
    ensures Masked(lower, NextEvent(p, lower, log, req, now).detail)
  {
    var bare := AuditEvent(EventId(log.counter + 1), now, req.eventType, req.agentId, req.taskId, req.orchId,
                           SanitizePII(lower, req.detail), "", "", 0, "", 0, "", log.prevHash);
    OptionsAreTaken(bare, req.options);
    SanitizeIdempotent(lower, req.detail);
    RedactedExactly(lower, SanitizePII(lower, req.detail));
  }

  lemma {:induction false} DecodedMasked(p: Primitives, lower: char -> char, rows: seq<Row>)
    requires RowsMasked(lower, rows) && Decoded(p, rows).Some?
    ensures EventsMasked(lower, Decoded(p, rows).value)
  {
    if rows == [] {
    } else {
      DecodedMasked(p, lower, rows[..|rows| - 1]);
    }
  }

  lemma ReopenedMasked(p: Primitives, lower: char -> char, rows: seq<Row>)
    requires RowsMasked(lower, rows) && Reopened(p, rows).Some?
    ensures EventsMasked(lower, Reopened(p, rows).value.events)
  {
    SortByIdSorts(rows);
    forall r | r in SortById(rows) ensures Masked(lower, r.detail) {
      assert r in multiset(SortById(rows));
    }
    DecodedMasked(p, lower, SortById(rows));
  }

  /** Over any calls and restarts, accepted saves or not, neither the log nor its table holds a detail in the clear. */
  lemma {:induction false} NothingInTheClear(p: Primitives, lower: char -> char, w: World, ops: seq<Op>)
    requires EventsMasked(lower, w.log.events) && RowsMasked(lower, w.rows) && RunOps(p, lower, w, ops).Some?
    ensures EventsMasked(lower, RunOps(p, lower, w, ops).value.log.events)
    ensures RowsMasked(lower, RunOps(p, lower, w, ops).value.rows)
  {
    if ops == [] {
    } else {
      var n := |ops| - 1;
      var mid := RunOps(p, lower, w, ops[..n]).value;
      NothingInTheClear(p, lower, w, ops[..n]);
      match ops[n]
      case Rec(req, at, _) => RecordedMasked(p, lower, mid.log, req, at);
      case Reopen => ReopenedMasked(p, lower, mid.rows);
    }
  }
}
