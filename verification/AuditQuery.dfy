/** Filtered, paged queries over the log in memory and over its table. */
module AuditQuery {
  import opened Wrappers
  import opened Text
  import opened Crypto
  import opened Audit
  import opened AuditChain
  import opened AuditRestart

  const DEFAULT_LIMIT: nat := 100
  const MAX_LIMIT: nat := 1000

  datatype Filters = Filters(agentId: string, taskId: string, eventType: string, outcome: string,
                             since: Option<int>, until: Option<int>, limit: int, offset: int)

  predicate Wanted(field: string, value: string) {
    field == "" || value == field
  }

  predicate Matches(f: Filters, e: AuditEvent) {
    && Wanted(f.agentId, e.agentId) && Wanted(f.taskId, e.taskId) && Wanted(f.eventType, e.eventType)
    && Wanted(f.outcome, e.outcome)
    && (f.since.Some? ==> e.timestamp >= f.since.value)
    && (f.until.Some? ==> e.timestamp <= f.until.value)
  }

  /** The matching events, in insertion order. */
  function Matching(f: Filters, events: seq<AuditEvent>): seq<AuditEvent> {
    if events == [] then []
    else
      var n := |events| - 1;
      if Matches(f, events[n]) then Matching(f, events[..n]) + [events[n]] else Matching(f, events[..n])
  }

  function PageSize(limit: int): nat {
    if limit <= 0 then DEFAULT_LIMIT else if limit > MAX_LIMIT then MAX_LIMIT else limit
  }

  /** At most a page of the list from an offset; a negative offset is none. */
  function Page<T>(all: seq<T>, limit: int, offset: int): seq<T> {
    var rest := if offset <= 0 then all else if offset >= |all| then [] else all[offset..];
    if |rest| > PageSize(limit) then rest[..PageSize(limit)] else rest
  }

  /** The query over the log's events; Go's nil slice is the empty sequence. */
  method Query(events: seq<AuditEvent>, f: Filters) returns (page: seq<AuditEvent>, total: nat)
    ensures page == Page(Matching(f, events), f.limit, f.offset)
    ensures total == |Matching(f, events)|
  {
    var matched := [];
    for i := 0 to |events|
      invariant matched == Matching(f, events[..i])
    {
      assert events[..i + 1][..i] == events[..i];
      var evt := events[i];
      if f.agentId != "" && evt.agentId != f.agentId {
        continue;
      }
      if f.taskId != "" && evt.taskId != f.taskId {
        continue;
      }
      if f.eventType != "" && evt.eventType != f.eventType {
        continue;
      }
      if f.outcome != "" && evt.outcome != f.outcome {
        continue;
      }
      if f.since.Some? && evt.timestamp < f.since.value {
        continue;
      }
      if f.until.Some? && evt.timestamp > f.until.value {
        continue;
      }
      matched := matched + [evt];
    }
    assert events[..|events|] == events;
    total := |matched|;
    if f.offset > 0 {
      if f.offset >= |matched| {
        return [], total;
      }
      matched := matched[f.offset..];
    }
    var limit := f.limit;
    if limit <= 0 {
      limit := DEFAULT_LIMIT;
    }
    if limit > MAX_LIMIT {
      limit := MAX_LIMIT;
    }
    if |matched| > limit {
      matched := matched[..limit];
    }
    return matched, total;
  }

  // ---------- paging ----------

  /** The pages at offsets `from`, `from + size`, ... put together. */
  function AllPages<T>(all: seq<T>, size: nat, from: nat): seq<T>
    requires size > 0
    decreases if from < |all| then |all| - from else 0
  {
    if from >= |all| then [] else Page(all, size, from) + AllPages(all, size, from + size)
  }

  lemma {:induction false} PagesCover<T>(all: seq<T>, size: nat, from: nat)
    requires 1 <= size <= MAX_LIMIT && from <= |all|
    ensures AllPages(all, size, from) == all[from..]
    decreases |all| - from
  {
    if from < |all| {
      if from + size <= |all| {
        PagesCover(all, size, from + size);
        assert all[from..] == all[from..][..size] + all[from + size..];
      } else {
        assert AllPages(all, size, from + size) == [];
      }
    }
  }

  /**
   Fetching page after page with any size from 1 to 1000 gives exactly the matching events in insertion
   order, each once; nothing lies beyond the last page.
   */
  lemma PagingIsComplete(events: seq<AuditEvent>, f: Filters, size: nat)
    requires 1 <= size <= MAX_LIMIT
    ensures AllPages(Matching(f, events), size, 0) == Matching(f, events)
    ensures forall offset: nat | offset >= |Matching(f, events)| > 0 :: Page(Matching(f, events), size, offset) == []
  {
    PagesCover(Matching(f, events), size, 0);
  }

  /** What a filter asks of an event: each named party, type and outcome, and a time from `since` through `until`. */
  predicate Asked(f: Filters, e: AuditEvent) {
    && f.agentId in {"", e.agentId} && f.taskId in {"", e.taskId} && f.eventType in {"", e.eventType}
    && f.outcome in {"", e.outcome}
    && !(f.since.Some? && e.timestamp < f.since.value) && !(f.until.Some? && f.until.value < e.timestamp)
  }

  /** The matches in one part of the log follow those in the part before it. */
  lemma {:induction false} MatchingConcat(f: Filters, a: seq<AuditEvent>, b: seq<AuditEvent>)
    ensures Matching(f, a + b) == Matching(f, a) + Matching(f, b)
  {
    if b == [] {
      assert a + b == a;
    } else {
      var n := |b| - 1;
      MatchingConcat(f, a, b[..n]);
      assert (a + b)[..|a| + n] == a + b[..n] && (a + b)[|a| + n] == b[n];
    }
  }

  /** A page has at most 1000 entries, 100 if no limit is given, and starts where the offset says. */
  lemma PageExactly<T>(all: seq<T>, limit: int, offset: int)
    ensures var page := Page(all, limit, offset);
            var start := if offset > 0 then offset else 0;
            var size := if limit > 1000 then 1000 else if limit > 0 then limit else 100;
            && |page| == (if start >= |all| then 0 else if |all| - start > size then size else |all| - start)
            && forall k | 0 <= k < |page| :: page[k] == all[start + k]
  {
  }

  /** Matching depends on neither limit nor offset, keeps multiplicities, and drops only what is not asked for. */
  lemma {:induction false} MatchingExact(events: seq<AuditEvent>, f: Filters, limit: int, offset: int, e: AuditEvent)
    ensures Matching(f.(limit := limit, offset := offset), events) == Matching(f, events)
    ensures multiset(Matching(f, events))[e] == if Asked(f, e) then multiset(events)[e] else 0
  {
    if events == [] {
    } else {
      var n := |events| - 1;
      MatchingExact(events[..n], f, limit, offset, e);
      assert events == events[..n] + [events[n]];
      assert Matches(f.(limit := limit, offset := offset), events[n]) == Matches(f, events[n]);
    }
  }

  // ---------- the SQL query ----------

  predicate ColumnIs(column: Option<string>, value: string) {
    column == Some(value)
  }

  /** The WHERE clause; times are compared as text. */
  predicate RowMatches(p: Primitives, f: Filters, r: Row) {
    && (f.eventType != "" ==> r.eventType == f.eventType)
    && (f.agentId != "" ==> r.agentId == f.agentId)
    && (f.taskId != "" ==> r.taskId == f.taskId)
    && (f.since.Some? ==> !TextLess(r.timestamp, p.timeText(f.since.value)))
    && (f.until.Some? ==> !TextLess(p.timeText(f.until.value), r.timestamp))
    && (f.outcome != "" ==> ColumnIs(r.outcome, f.outcome))
  }

  function Selected(p: Primitives, f: Filters, rows: seq<Row>): seq<Row> {
    if rows == [] then []
    else
      var n := |rows| - 1;
      if RowMatches(p, f, rows[n]) then Selected(p, f, rows[..n]) + [rows[n]] else Selected(p, f, rows[..n])
  }

  /** SELECT ... WHERE ... ORDER BY id ASC LIMIT ? OFFSET ?, with its separate COUNT. */
  method QueryAuditEvents(p: Primitives, rows: seq<Row>, f: Filters) returns (page: Option<seq<AuditEvent>>, total: nat)
    ensures total == |Selected(p, f, rows)|
    ensures page == Decoded(p, Page(SortById(Selected(p, f, rows)), f.limit, f.offset))
  {
    var selected := Selected(p, f, rows);
    total := |selected|;
    page := DecodeRows(p, Page(SortById(selected), f.limit, f.offset));
  }

  /** Comparing this time with the filter's as text comes out as comparing them as times. */
  predicate TextTells(p: Primitives, f: Filters, t: int) {
    && (f.since.Some? ==> (TextLess(p.timeText(t), p.timeText(f.since.value)) <==> t < f.since.value))
    && (f.until.Some? ==> (TextLess(p.timeText(f.until.value), p.timeText(t)) <==> f.until.value < t))
  }

  /** It does for every event of the log; without time filters there is nothing to compare. */
  predicate TimesTell(p: Primitives, f: Filters, events: seq<AuditEvent>) {
    forall i | 0 <= i < |events| :: TextTells(p, f, events[i].timestamp)
  }

  lemma {:induction false} SelectedIsMatching(p: Primitives, f: Filters, events: seq<AuditEvent>)
    requires TimesTell(p, f, events)
    ensures Selected(p, f, RowsOf(p, events)) == RowsOf(p, Matching(f, events))
  {
    if events == [] {
    } else {
      var n := |events| - 1;
      var rows := RowsOf(p, events);
      SelectedIsMatching(p, f, events[..n]);
      assert rows[..n] == RowsOf(p, events[..n]);
      assert rows[n] == ToRow(p, events[n]);
      assert RowMatches(p, f, rows[n]) == Matches(f, events[n]);
    }
  }

  /** Selecting keeps the order of the rows. */
  lemma {:induction false} SelectedOrdered(p: Primitives, f: Filters, rows: seq<Row>)
    requires OrderedById(rows)
    ensures OrderedById(Selected(p, f, rows))
    ensures forall r | r in Selected(p, f, rows) :: r in rows
  {
    if rows == [] {
    } else {
      var n := |rows| - 1;
      SelectedOrdered(p, f, rows[..n]);
      forall r | r in Selected(p, f, rows[..n]) ensures !TextLess(rows[n].id, r.id) {
        var i :| 0 <= i < n && rows[..n][i] == r;
        assert !TextLess(rows[n].id, rows[i].id);
      }
    }
  }

  lemma PageOfRows(p: Primitives, events: seq<AuditEvent>, limit: int, offset: int)
    ensures Page(RowsOf(p, events), limit, offset) == RowsOf(p, Page(events, limit, offset))
  {
  }

  /**
   The query over the table returns the same page and total as the query in memory, for at most 999,999 persisted events,
   as far as the text order of their times and the filter's is the order of the times; without time filters, always.
   */
  lemma QueriesAgree(p: Primitives, log: Log, f: Filters)
    requires TimeLaws(p) && Sound(p, log) && |log.events| <= MAX_ORDERED
    requires TimesTell(p, f, log.events)
    ensures var selected := Selected(p, f, RowsOf(p, log.events));
            && Decoded(p, Page(SortById(selected), f.limit, f.offset))
               == Some(Page(Matching(f, log.events), f.limit, f.offset))
            && |selected| == |Matching(f, log.events)|
  {
    var rows := RowsOf(p, log.events);
    SmallRowsOrdered(p, log.events);
    SelectedOrdered(p, f, rows);
    SortOfOrdered(Selected(p, f, rows));
    SelectedIsMatching(p, f, log.events);
    PageOfRows(p, Matching(f, log.events), f.limit, f.offset);
    DecodedRows(p, Page(Matching(f, log.events), f.limit, f.offset));
  }
}
