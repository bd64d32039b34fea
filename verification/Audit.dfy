/**
 The hash-chained audit log (internal/audit/audit_log.go) and its table in SQLite
 (internal/store/sql_store.go).
 */
module Audit {
  import opened Wrappers
  import opened Text
  import opened Crypto
  import opened Redaction

  const HASH_WIDTH: nat := 64
  const GENESIS: string := AllZeros(HASH_WIDTH)
  const ID_WIDTH: nat := 6

  function AllZeros(n: nat): (s: string)
    ensures |s| == n && forall c | c in s :: c == '0'
  {
    seq(n, i => '0')
  }

  datatype AuditEvent = AuditEvent(
    id: string, timestamp: int, eventType: string, agentId: string, taskId: string, orchId: string, detail: string,
    resource: string, outcome: string, delegDepth: int, delegChainHash: string, bytesTransferred: int,
    hash: string, prevHash: string)

  datatype RecordOption =
    | WithResource(resource: string)
    | WithOutcome(outcome: string)
    | WithDelegDepth(depth: int)
    | WithDelegChainHash(chainHash: string)
    | WithBytesTransferred(bytes: int)

  datatype RecordReq = RecordReq(
    eventType: string, agentId: string, taskId: string, orchId: string, detail: string, options: seq<RecordOption>)

  function WithOption(e: AuditEvent, o: RecordOption): AuditEvent {
    match o
    case WithResource(r) => e.(resource := r)
    case WithOutcome(r) => e.(outcome := r)
    case WithDelegDepth(d) => e.(delegDepth := d)
    case WithDelegChainHash(h) => e.(delegChainHash := h)
    case WithBytesTransferred(n) => e.(bytesTransferred := n)
  }

  function WithOptions(e: AuditEvent, options: seq<RecordOption>): AuditEvent {
    if options == [] then e else WithOption(WithOptions(e, options[..|options| - 1]), options[|options| - 1])
  }

  function EventId(n: nat): string {
    "evt-" + Padded(n, ID_WIDTH)
  }

  /** The fields hashed, in order; they are joined with bars. */
  function HashedFields(p: Primitives, e: AuditEvent): seq<string> {
    [e.prevHash, e.id, p.timeText(e.timestamp), e.eventType, e.agentId, e.taskId, e.orchId, e.detail,
     e.resource, e.outcome, FormatInt(e.delegDepth), e.delegChainHash, FormatInt(e.bytesTransferred)]
  }

  function HashInput(p: Primitives, e: AuditEvent): string {
    Join(HashedFields(p, e), '|')
  }

  function ComputeHash(p: Primitives, e: AuditEvent): string {
    Digest(p, HashInput(p, e))
  }

  /** The fields of AuditLog. */
  datatype Log = Log(events: seq<AuditEvent>, prevHash: string, counter: nat)

  const EmptyLog := Log([], GENESIS, 0)

  /** The event a Record call appends. */
  function NextEvent(p: Primitives, lower: char -> char, log: Log, req: RecordReq, now: int): AuditEvent {
    var bare := AuditEvent(EventId(log.counter + 1), now, req.eventType, req.agentId, req.taskId, req.orchId,
                           SanitizePII(lower, req.detail), "", "", 0, "", 0, "", log.prevHash);
    var e := WithOptions(bare, req.options);
    e.(hash := ComputeHash(p, e))
  }

  function Recorded(p: Primitives, lower: char -> char, log: Log, req: RecordReq, now: int): Log {
    var e := NextEvent(p, lower, log, req, now);
    Log(log.events + [e], e.hash, log.counter + 1)
  }

  // ---------- what Record writes ----------

  datatype OptionKind = ResourceKind | OutcomeKind | DepthKind | ChainHashKind | BytesKind

  function KindOf(o: RecordOption): OptionKind {
    match o
    case WithResource(_) => ResourceKind
    case WithOutcome(_) => OutcomeKind
    case WithDelegDepth(_) => DepthKind
    case WithDelegChainHash(_) => ChainHashKind
    case WithBytesTransferred(_) => BytesKind
  }

  /** The last option of a kind. */
  function LastOf(options: seq<RecordOption>, kind: OptionKind): (last: Option<RecordOption>)
    ensures last.Some? ==> KindOf(last.value) == kind
  {
    if options == [] then None
    else if KindOf(options[|options| - 1]) == kind then Some(options[|options| - 1])
    else LastOf(options[..|options| - 1], kind)
  }

  /** The optional field of this kind holds what the last such option says, and nothing where there is none. */
  predicate OptionTaken(e: AuditEvent, options: seq<RecordOption>, kind: OptionKind) {
    var last := LastOf(options, kind);
    match kind
    case ResourceKind => e.resource == if last.Some? then last.value.resource else ""
    case OutcomeKind => e.outcome == if last.Some? then last.value.outcome else ""
    case DepthKind => e.delegDepth == if last.Some? then last.value.depth else 0
    case ChainHashKind => e.delegChainHash == if last.Some? then last.value.chainHash else ""
    case BytesKind => e.bytesTransferred == if last.Some? then last.value.bytes else 0
  }

  ghost predicate OptionsTaken(e: AuditEvent, options: seq<RecordOption>) {
    forall kind :: OptionTaken(e, options, kind)
  }

  /** The event written for a request: its parties and time, its detail redacted, its options, linked to the hash before. */
  ghost predicate Writes(p: Primitives, lower: char -> char, log: Log, req: RecordReq, now: int, e: AuditEvent) {
    && e.id == EventId(log.counter + 1) && e.timestamp == now && e.eventType == req.eventType && e.agentId == req.agentId
    && e.taskId == req.taskId && e.orchId == req.orchId && RedactedAs(lower, req.detail, e.detail)
    && OptionsTaken(e, req.options) && e.prevHash == log.prevHash && e.hash == ComputeHash(p, e)
  }

  /** An event without options set. */
  predicate Bare(e: AuditEvent) {
    e.resource == "" && e.outcome == "" && e.delegDepth == 0 && e.delegChainHash == "" && e.bytesTransferred == 0
  }

  predicate SameBase(e: AuditEvent, f: AuditEvent) {
    && e.id == f.id && e.timestamp == f.timestamp && e.eventType == f.eventType && e.agentId == f.agentId
    && e.taskId == f.taskId && e.orchId == f.orchId && e.detail == f.detail && e.prevHash == f.prevHash && e.hash == f.hash
  }

  lemma {:induction false} OptionsAreTaken(bare: AuditEvent, options: seq<RecordOption>)
    requires Bare(bare)
    ensures OptionsTaken(WithOptions(bare, options), options) && SameBase(WithOptions(bare, options), bare)
  {
    if options == [] {
    } else {
      OptionsAreTaken(bare, options[..|options| - 1]);
      var e := WithOptions(bare, options[..|options| - 1]);
      forall kind ensures OptionTaken(WithOptions(bare, options), options, kind) {
        OneMoreTaken(e, options, kind);
      }
    }
  }

  lemma OneMoreTaken(e: AuditEvent, options: seq<RecordOption>, kind: OptionKind)
    requires options != [] && OptionTaken(e, options[..|options| - 1], kind)
    ensures OptionTaken(WithOption(e, options[|options| - 1]), options, kind)
  {
  }

  lemma NextEventWrites(p: Primitives, lower: char -> char, log: Log, req: RecordReq, now: int)
    ensures Writes(p, lower, log, req, now, NextEvent(p, lower, log, req, now))
  {
    var bare := AuditEvent(EventId(log.counter + 1), now, req.eventType, req.agentId, req.taskId, req.orchId,
                           SanitizePII(lower, req.detail), "", "", 0, "", 0, "", log.prevHash);
    OptionsAreTaken(bare, req.options);
    RedactedExactly(lower, req.detail);
    var e := WithOptions(bare, req.options);
    var hashed := e.(hash := ComputeHash(p, e));
    assert HashedFields(p, hashed) == HashedFields(p, e);
    forall kind ensures OptionTaken(hashed, req.options, kind) {
      assert OptionTaken(e, req.options, kind);
    }
  }

  /** Whatever stands after a "=" that follows the name of a secret leaves no trace in the log. */
  lemma SecretLeavesNoTrace(p: Primitives, lower: char -> char, log: Log, req: RecordReq, key: string, secret: string,
                            other: string, now: int)
    requires NamesSecret(lower, key) && '=' !in key && req.detail == key + "=" + secret
    ensures Recorded(p, lower, log, req, now) == Recorded(p, lower, log, req.(detail := key + "=" + other), now)
    ensures Recorded(p, lower, log, req, now).events[|log.events|].detail == key + "=" + "***REDACTED***"
  {
    var req' := req.(detail := key + "=" + other);
    SecretDropped(lower, key, secret, other);
    assert NextEvent(p, lower, log, req', now) == NextEvent(p, lower, log, req, now);
    NextEventWrites(p, lower, log, req, now);
    SecretNamed(lower, key, secret);
  }

  lemma SecretNamed(lower: char -> char, key: string, rest: string)
    requires NamesSecret(lower, key) && '=' !in key
    ensures SecretBefore(lower, key + "=" + rest, "=", key, rest)
  {
    CutChar(key, '=', rest);
    SensitiveNames(lower, key);
    KeyIsSecret(lower, key + "=" + rest, "=");
  }

  lemma SecretDropped(lower: char -> char, key: string, secret: string, other: string)
    requires NamesSecret(lower, key) && '=' !in key
    ensures SanitizePII(lower, key + "=" + secret) == SanitizePII(lower, key + "=" + other)
  {
    CutChar(key, '=', secret);
    SensitiveNames(lower, key);
    TailDroppedAfterEquals(lower, key + "=" + secret, other);
  }

  function LogOf(events: seq<AuditEvent>): Log {
    if events == [] then EmptyLog else Log(events, events[|events| - 1].hash, |events|)
  }

  // ---------- rows ----------

  /** A row of audit_events; None is NULL. */
  datatype Row = Row(
    id: string, timestamp: string, eventType: string, agentId: string, taskId: string, orchId: string, detail: string,
    resource: Option<string>, outcome: Option<string>, delegDepth: Option<int>, delegChainHash: Option<string>,
    bytesTransferred: Option<int>, hash: string, prevHash: string)

  function NullableString(s: string): Option<string> {
    if s == "" then None else Some(s)
  }

  function NullableInt(n: int): Option<int> {
    if n == 0 then None else Some(n)
  }

  function StringOf(s: Option<string>): string {
    match s case Some(v) => v case None => ""
  }

  function IntOf(n: Option<int>): int {
    match n case Some(v) => v case None => 0
  }

  function ToRow(p: Primitives, e: AuditEvent): Row {
    Row(e.id, p.timeText(e.timestamp), e.eventType, e.agentId, e.taskId, e.orchId, e.detail,
        NullableString(e.resource), NullableString(e.outcome), NullableInt(e.delegDepth),
        NullableString(e.delegChainHash), NullableInt(e.bytesTransferred), e.hash, e.prevHash)
  }

  function FromRow(p: Primitives, r: Row): Option<AuditEvent> {
    match p.parseTime(r.timestamp)
    case None => None
    case Some(t) =>
      Some(AuditEvent(r.id, t, r.eventType, r.agentId, r.taskId, r.orchId, r.detail,
                      StringOf(r.resource), StringOf(r.outcome), IntOf(r.delegDepth), StringOf(r.delegChainHash),
                      IntOf(r.bytesTransferred), r.hash, r.prevHash))
  }

  /** Storing an event and reading it back loses nothing: empty and zero values pass through NULL. */
  lemma RowRoundTrip(p: Primitives, e: AuditEvent)
    requires TimeLaws(p)
    ensures FromRow(p, ToRow(p, e)) == Some(e)
  {
    assert p.parseTime(p.timeText(e.timestamp)) == Some(e.timestamp);
  }

  predicate HasId(rows: seq<Row>, id: string) {
    exists i | 0 <= i < |rows| :: rows[i].id == id
  }

  // ---------- ORDER BY id ASC ----------

  function InsertById(r: Row, rows: seq<Row>): seq<Row> {
    if rows == [] || !TextLess(rows[0].id, r.id) then [r] + rows else [rows[0]] + InsertById(r, rows[1..])
  }

  function SortById(rows: seq<Row>): seq<Row> {
    if rows == [] then [] else InsertById(rows[0], SortById(rows[1..]))
  }

  ghost predicate OrderedById(rows: seq<Row>) {
    forall i, j | 0 <= i < j < |rows| :: !TextLess(rows[j].id, rows[i].id)
  }

  lemma {:induction false} InsertKeeps(r: Row, rows: seq<Row>)
    ensures multiset(InsertById(r, rows)) == multiset(rows) + multiset{r}
    ensures OrderedById(rows) ==> OrderedById(InsertById(r, rows))
  {
    if rows != [] && TextLess(rows[0].id, r.id) {
      InsertKeeps(r, rows[1..]);
      assert rows == [rows[0]] + rows[1..];
      if OrderedById(rows) {
        HeadStaysFirst(r, rows);
      }
    } else if OrderedById(rows) {
      InsertedFirst(r, rows);
    }
  }

  lemma HeadStaysFirst(r: Row, rows: seq<Row>)
    requires rows != [] && OrderedById(rows) && TextLess(rows[0].id, r.id)
    requires multiset(InsertById(r, rows[1..])) == multiset(rows[1..]) + multiset{r}
    ensures forall j | 0 <= j < |InsertById(r, rows[1..])| :: !TextLess(InsertById(r, rows[1..])[j].id, rows[0].id)
  {
    var rest := InsertById(r, rows[1..]);
    forall j | 0 <= j < |rest| ensures !TextLess(rest[j].id, rows[0].id) {
      assert rest[j] in multiset(rest);
      if rest[j] == r {
        TextLessTotal(rows[0].id, r.id);
      } else {
        assert rest[j] in rows[1..];
      }
    }
  }

  lemma InsertedFirst(r: Row, rows: seq<Row>)
    requires OrderedById(rows) && (rows != [] ==> !TextLess(rows[0].id, r.id))
    ensures OrderedById([r] + rows)
  {
    forall j | 0 <= j < |rows| ensures !TextLess(rows[j].id, r.id) {
      if j > 0 && TextLess(rows[j].id, r.id) {
        TextLessTotal(rows[0].id, r.id);
        TextLessTotal(rows[j].id, rows[0].id);
        if rows[0].id != r.id {
          TextLessTransitive(rows[j].id, r.id, rows[0].id);
        }
        assert false;
      }
    }
  }

  /** The rows read are the table's rows, in text order of their ids. */
  lemma {:induction false} SortByIdSorts(rows: seq<Row>)
    ensures multiset(SortById(rows)) == multiset(rows) && OrderedById(SortById(rows))
  {
    if rows == [] {
    } else {
      SortByIdSorts(rows[1..]);
      InsertKeeps(rows[0], SortById(rows[1..]));
      assert rows == [rows[0]] + rows[1..];
    }
  }

  lemma {:induction false} SortOfOrdered(rows: seq<Row>)
    requires OrderedById(rows)
    ensures SortById(rows) == rows
  {
    if rows == [] {
    } else {
      assert OrderedById(rows[1..]) by {
        forall i, j | 0 <= i < j < |rows[1..]| ensures !TextLess(rows[1..][j].id, rows[1..][i].id) {
          assert !TextLess(rows[j + 1].id, rows[i + 1].id);
        }
      }
      SortOfOrdered(rows[1..]);
      assert |rows| > 1 ==> !TextLess(rows[1].id, rows[0].id);
      assert rows == [rows[0]] + rows[1..];
    }
  }

  /** All rows decoded, or None at the first bad timestamp. */
  function Decoded(p: Primitives, rows: seq<Row>): Option<seq<AuditEvent>> {
    if rows == [] then Some([])
    else
      match (Decoded(p, rows[..|rows| - 1]), FromRow(p, rows[|rows| - 1]))
      case (Some(events), Some(e)) => Some(events + [e])
      case _ => None
  }

  lemma {:induction false} DecodedPrefix(p: Primitives, rows: seq<Row>, n: nat)
    requires n <= |rows| && Decoded(p, rows).Some?
    ensures Decoded(p, rows[..n]).Some?
    decreases |rows| - n
  {
    if n == |rows| {
      assert rows[..n] == rows;
    } else {
      DecodedPrefix(p, rows, n + 1);
      assert rows[..n + 1][..n] == rows[..n];
    }
  }

  class AuditTable {
    var rows: seq<Row>

    constructor ()
      ensures rows == []
    {
      rows := [];
    }

    /** INSERT under the primary key; `dbOk` says whether the database accepts statements. */
    method SaveAuditEvent(p: Primitives, e: AuditEvent, dbOk: bool) returns (ok: bool)
      modifies this
      ensures ok <==> dbOk && !HasId(old(rows), e.id)
      ensures rows == if ok then old(rows) + [ToRow(p, e)] else old(rows)
    {
      if !dbOk || HasId(rows, e.id) {
        return false;
      }
      rows := rows + [ToRow(p, e)];
      return true;
    }

    method LoadAllAuditEvents(p: Primitives) returns (events: Option<seq<AuditEvent>>)
      ensures events == Decoded(p, SortById(rows))
    {
      events := DecodeRows(p, SortById(rows));
    }
  }

  method DecodeRows(p: Primitives, rows: seq<Row>) returns (r: Option<seq<AuditEvent>>)
    ensures r == Decoded(p, rows)
  {
    var events := [];
    for i := 0 to |rows|
      invariant Decoded(p, rows[..i]) == Some(events)
    {
      assert rows[..i + 1][..i] == rows[..i];
      var e := FromRow(p, rows[i]);
      if e.None? {
        assert Decoded(p, rows[..i + 1]) == None;
        if Decoded(p, rows).Some? {
          DecodedPrefix(p, rows, i + 1);
        }
        return None;
      }
      events := events + [e.value];
    }
    assert rows[..|rows|] == rows;
    return Some(events);
  }

  // ---------- the log ----------

  class AuditLog {
    const p: Primitives
    const lower: char -> char
    var events: seq<AuditEvent>
    var prevHash: string
    var counter: nat
    const table: AuditTable?

    constructor New(p: Primitives, lower: char -> char, table: AuditTable?)
      ensures this.p == p && this.lower == lower && this.table == table && State() == EmptyLog
    {
      this.p := p;
      this.lower := lower;
      this.table := table;
      events, prevHash, counter := [], GENESIS, 0;
    }

    constructor WithEvents(p: Primitives, lower: char -> char, table: AuditTable?, existing: seq<AuditEvent>)
      ensures this.p == p && this.lower == lower && this.table == table && State() == LogOf(existing)
    {
      this.p := p;
      this.lower := lower;
      this.table := table;
      events := existing;
      if |existing| > 0 {
        prevHash := existing[|existing| - 1].hash;
        counter := |existing|;
      } else {
        prevHash := GENESIS;
        counter := 0;
      }
    }

    function State(): Log
      reads this
    {
      Log(events, prevHash, counter)
    }

    method Record(req: RecordReq, now: int, dbOk: bool)
      modifies this, if table == null then {} else {table as object}
      ensures State() == Recorded(p, lower, old(State()), req, now)
      ensures |events| == |old(events)| + 1 && events[..|old(events)|] == old(events)
      ensures Writes(p, lower, old(State()), req, now, events[|old(events)|])
      ensures prevHash == events[|old(events)|].hash && counter == old(counter) + 1
      ensures table != null ==>
                var e := events[|old(events)|];
                table.rows == if dbOk && !HasId(old(table.rows), e.id) then old(table.rows) + [ToRow(p, e)]
                              else old(table.rows)
    {
      NextEventWrites(p, lower, State(), req, now);
      counter := counter + 1;
      var evt := AuditEvent(EventId(counter), now, req.eventType, req.agentId, req.taskId, req.orchId,
                            SanitizePII(lower, req.detail), "", "", 0, "", 0, "", prevHash);
      ghost var bare := evt;
      for i := 0 to |req.options|
        invariant evt == WithOptions(bare, req.options[..i])
        invariant events == old(events) && prevHash == old(prevHash) && counter == old(counter) + 1
        invariant table != null ==> table.rows == old(table.rows)
      {
        assert req.options[..i + 1][..i] == req.options[..i];
        evt := WithOption(evt, req.options[i]);
      }
      assert req.options[..|req.options|] == req.options;
      evt := evt.(hash := ComputeHash(p, evt));
      assert evt == NextEvent(p, lower, old(State()), req, now);
      prevHash := evt.hash;
      events := events + [evt];
      if table != null {
        var saved := table.SaveAuditEvent(p, evt, dbOk);
      }
    }
  }
}
