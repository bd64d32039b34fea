/** Tamper evidence: two chains from genesis with one last hash are one chain, or the logs hold a hash collision. */
module AuditChain {
  import opened Wrappers
  import opened Text
  import opened Crypto
  import opened Redaction
  import opened Audit

  function LastHash(events: seq<AuditEvent>): string {
    if events == [] then GENESIS else events[|events| - 1].hash
  }

  ghost predicate WellChained(p: Primitives, events: seq<AuditEvent>) {
    forall i | 0 <= i < |events| ::
      events[i].prevHash == LastHash(events[..i]) && events[i].hash == ComputeHash(p, events[i])
  }

  ghost predicate IdsByPosition(events: seq<AuditEvent>) {
    forall i | 0 <= i < |events| :: events[i].id == EventId(i + 1)
  }

  /** Among the free-text fields only Detail may hold a bar. */
  predicate BarFree(e: AuditEvent) {
    && '|' !in e.eventType && '|' !in e.agentId && '|' !in e.taskId && '|' !in e.orchId
    && '|' !in e.resource && '|' !in e.outcome && '|' !in e.delegChainHash
  }

  predicate AllBarFree(events: seq<AuditEvent>) {
    forall i | 0 <= i < |events| :: BarFree(events[i])
  }

  ghost predicate Sound(p: Primitives, log: Log) {
    && WellChained(p, log.events) && IdsByPosition(log.events)
    && log.prevHash == LastHash(log.events) && log.counter == |log.events|
  }

  lemma {:induction false} OptionsKeepBase(e: AuditEvent, options: seq<RecordOption>)
    ensures WithOptions(e, options).id == e.id && WithOptions(e, options).prevHash == e.prevHash
  {
    if options == [] {
    } else {
      OptionsKeepBase(e, options[..|options| - 1]);
    }
  }

  lemma HashIgnoresHash(p: Primitives, e: AuditEvent, h: string)
    ensures ComputeHash(p, e.(hash := h)) == ComputeHash(p, e)
  {
    assert HashedFields(p, e.(hash := h)) == HashedFields(p, e);
  }

  lemma NextEventLinks(p: Primitives, lower: char -> char, log: Log, req: RecordReq, now: int)
    ensures var e := NextEvent(p, lower, log, req, now);
            e.id == EventId(log.counter + 1) && e.prevHash == log.prevHash && e.hash == ComputeHash(p, e)
  {
    var bare := AuditEvent(EventId(log.counter + 1), now, req.eventType, req.agentId, req.taskId, req.orchId,
                           SanitizePII(lower, req.detail), "", "", 0, "", 0, "", log.prevHash);
    OptionsKeepBase(bare, req.options);
    var e := WithOptions(bare, req.options);
    HashIgnoresHash(p, e, ComputeHash(p, e));
  }

  lemma AppendLinked(p: Primitives, events: seq<AuditEvent>, e: AuditEvent)
    requires WellChained(p, events) && IdsByPosition(events)
    requires e.id == EventId(|events| + 1) && e.prevHash == LastHash(events) && e.hash == ComputeHash(p, e)
    ensures WellChained(p, events + [e]) && IdsByPosition(events + [e])
  {
    var all := events + [e];
    forall i | 0 <= i < |all| ensures all[i].prevHash == LastHash(all[..i]) && all[i].hash == ComputeHash(p, all[i]) {
      assert all[..i] == events[..i];
      if i == |events| {
        assert events[..i] == events;
      }
    }
  }

  /** Record extends a sound log by one event linked to the last. */
  lemma RecordKeepsSound(p: Primitives, lower: char -> char, log: Log, req: RecordReq, now: int)
    requires Sound(p, log)
    ensures Sound(p, Recorded(p, lower, log, req, now))
    ensures Recorded(p, lower, log, req, now).events[..|log.events|] == log.events
  {
    NextEventLinks(p, lower, log, req, now);
    AppendLinked(p, log.events, NextEvent(p, lower, log, req, now));
  }

  /** Two events whose hashed texts differ and have one hash. */
  predicate Collide(p: Primitives, e: AuditEvent, f: AuditEvent) {
    HashInput(p, e) != HashInput(p, f) && p.sha256(HashInput(p, e)) == p.sha256(HashInput(p, f))
  }

  /** An event whose hashed text has the genesis value for a digest. */
  predicate HitsGenesis(p: Primitives, e: AuditEvent) {
    Digest(p, HashInput(p, e)) == GENESIS
  }

  lemma {:induction false} DecimalBarFree(n: nat)
    ensures '|' !in Decimal(n)
  {
  }

  /** Equal hash inputs with bars only in Detail come from equal fields. */
  lemma HashInputUnique(p: Primitives, a: AuditEvent, b: AuditEvent)
    requires TimeLaws(p) && BarFree(a) && BarFree(b)
    requires '|' !in a.prevHash && '|' !in b.prevHash && '|' !in a.id && '|' !in b.id
    requires HashInput(p, a) == HashInput(p, b)
    ensures a.(hash := b.hash) == b
  {
    var fa, fb := HashedFields(p, a), HashedFields(p, b);
    FieldsBarFree(p, a);
    FieldsBarFree(p, b);
    JoinUniqueButOne(fa, fb, 7, '|');
    SameFields(p, a, b);
  }

  lemma FieldsBarFree(p: Primitives, a: AuditEvent)
    requires TimeLaws(p) && BarFree(a) && '|' !in a.prevHash && '|' !in a.id
    ensures FreeOf(HashedFields(p, a)[..7], '|') && FreeOf(HashedFields(p, a)[8..], '|')
  {
    var f := HashedFields(p, a);
    assert f[..7] == [a.prevHash, a.id, p.timeText(a.timestamp), a.eventType, a.agentId, a.taskId, a.orchId];
    assert f[8..] == [a.resource, a.outcome, FormatInt(a.delegDepth), a.delegChainHash, FormatInt(a.bytesTransferred)];
  }

  lemma SameFields(p: Primitives, a: AuditEvent, b: AuditEvent)
    requires TimeLaws(p) && HashedFields(p, a) == HashedFields(p, b)
    ensures a.(hash := b.hash) == b
  {
    var fa, fb := HashedFields(p, a), HashedFields(p, b);
    assert fa[0] == fb[0] && fa[1] == fb[1] && fa[2] == fb[2] && fa[3] == fb[3] && fa[4] == fb[4] && fa[5] == fb[5];
    assert fa[6] == fb[6] && fa[7] == fb[7] && fa[8] == fb[8] && fa[9] == fb[9] && fa[10] == fb[10];
    assert fa[11] == fb[11] && fa[12] == fb[12];
    TimeTextInjective(p, a.timestamp, b.timestamp);
    FormatIntInjective(a.delegDepth, b.delegDepth);
    FormatIntInjective(a.bytesTransferred, b.bytesTransferred);
  }

  lemma EventIdInjective(i: nat, j: nat)
    requires EventId(i) == EventId(j)
    ensures i == j
  {
    assert Padded(i, ID_WIDTH) == EventId(i)[4..] == EventId(j)[4..] == Padded(j, ID_WIDTH);
    PaddedInjective(i, j, ID_WIDTH);
  }

  lemma {:induction false} ZerosBarFree(n: nat)
    ensures '|' !in Zeros(n)
  {
    if n > 0 {
      ZerosBarFree(n - 1);
    }
  }

  lemma EventIdBarFree(n: nat)
    ensures '|' !in EventId(n)
  {
    DecimalBarFree(n);
    var s := Decimal(n);
    if |s| < ID_WIDTH {
      ZerosBarFree(ID_WIDTH - |s|);
    }
  }

  lemma LinksBarFree(p: Primitives, events: seq<AuditEvent>, i: nat)
    requires HexLaws(p) && WellChained(p, events) && i < |events|
    ensures '|' !in events[i].prevHash
  {
    if i > 0 {
      assert events[..i][i - 1] == events[i - 1];
      assert events[i - 1].hash == ComputeHash(p, events[i - 1]);
    } else {
      assert events[i].prevHash == GENESIS;
    }
  }

  lemma ShorterChain(p: Primitives, events: seq<AuditEvent>)
    requires events != [] && WellChained(p, events) && IdsByPosition(events)
    ensures var before := events[..|events| - 1];
            WellChained(p, before) && IdsByPosition(before)
            && LastHash(before) == events[|events| - 1].prevHash
  {
    var before := events[..|events| - 1];
    forall i | 0 <= i < |before|
      ensures before[i].prevHash == LastHash(before[..i]) && before[i].hash == ComputeHash(p, before[i])
    {
      assert before[..i] == events[..i];
    }
  }

  lemma LastHashIsDigest(p: Primitives, a: seq<AuditEvent>)
    requires a != [] && WellChained(p, a)
    ensures LastHash(a) == Digest(p, HashInput(p, a[|a| - 1]))
  {
    assert a[|a| - 1].hash == ComputeHash(p, a[|a| - 1]);
  }

  /** Chained from genesis, with ids by position. */
  ghost predicate Linked(p: Primitives, events: seq<AuditEvent>) {
    WellChained(p, events) && IdsByPosition(events)
  }

  /** Two such logs that end in one hash. */
  ghost predicate SameEnd(p: Primitives, a: seq<AuditEvent>, b: seq<AuditEvent>) {
    Linked(p, a) && Linked(p, b) && LastHash(a) == LastHash(b)
  }

  /** Counted from the end, the events number j of both logs hash one text. */
  predicate SameTextBack(p: Primitives, a: seq<AuditEvent>, b: seq<AuditEvent>, j: nat) {
    j < |a| && j < |b| && HashInput(p, a[|a| - 1 - j]) == HashInput(p, b[|b| - 1 - j])
  }

  /** The last k events of both logs have the same hashed texts. */
  predicate SameTexts(p: Primitives, a: seq<AuditEvent>, b: seq<AuditEvent>, k: nat) {
    k <= |a| && k <= |b| && forall j: nat | j < k :: SameTextBack(p, a, b, j)
  }

  /** What a comparison from the end finds after k agreeing events: nothing is left, a collision, or a hit on genesis. */
  predicate Verdict(p: Primitives, a: seq<AuditEvent>, b: seq<AuditEvent>, k: nat) {
    || (|a| == k && |b| == k)
    || (k < |a| && k < |b| && Collide(p, a[|a| - 1 - k], b[|b| - 1 - k]))
    || (b == [] && a != [] && HitsGenesis(p, a[|a| - 1]))
    || (a == [] && b != [] && HitsGenesis(p, b[|b| - 1]))
  }

  /** The hashed text starts with the previous hash and the id, which can be read off while they hold no bar. */
  lemma InputFixesLink(p: Primitives, e: AuditEvent, f: AuditEvent)
    requires HashInput(p, e) == HashInput(p, f)
    requires '|' !in e.prevHash && '|' !in f.prevHash && '|' !in e.id && '|' !in f.id
    ensures e.prevHash == f.prevHash && e.id == f.id
  {
    var x, y := HashedFields(p, e), HashedFields(p, f);
    CutChar(x[0], '|', Join(x[1..], '|'));
    CutChar(y[0], '|', Join(y[1..], '|'));
    assert Join(x[1..], '|') == x[1] + "|" + Join(x[2..], '|') by { assert x[1..][1..] == x[2..]; }
    assert Join(y[1..], '|') == y[1] + "|" + Join(y[2..], '|') by { assert y[1..][1..] == y[2..]; }
    CutChar(x[1], '|', Join(x[2..], '|'));
    CutChar(y[1], '|', Join(y[2..], '|'));
  }

  /** Equally long logs whose last events hash one text and follow one hash. */
  predicate OneTextLast(p: Primitives, a: seq<AuditEvent>, b: seq<AuditEvent>) {
    |a| == |b| && SameTextBack(p, a, b, 0) && a[|a| - 1].prevHash == b[|b| - 1].prevHash
  }

  /** The last events of two logs with one last hash have one hashed text or collide; one text makes the logs as long. */
  lemma LastTextsDecide(p: Primitives, a: seq<AuditEvent>, b: seq<AuditEvent>)
    requires HexLaws(p) && a != [] && b != [] && SameEnd(p, a, b)
    ensures Collide(p, a[|a| - 1], b[|b| - 1]) || OneTextLast(p, a, b)
  {
    var e, f := a[|a| - 1], b[|b| - 1];
    LastHashIsDigest(p, a);
    LastHashIsDigest(p, b);
    SameDigestSameHash(p, HashInput(p, e), HashInput(p, f));
    if HashInput(p, e) == HashInput(p, f) {
      LinksBarFree(p, a, |a| - 1);
      LinksBarFree(p, b, |b| - 1);
      EventIdBarFree(|a|);
      EventIdBarFree(|b|);
      assert e.id == EventId(|a|) && f.id == EventId(|b|);
      InputFixesLink(p, e, f);
      EventIdInjective(|a|, |b|);
    }
  }

  lemma ShorterEnds(p: Primitives, a: seq<AuditEvent>, b: seq<AuditEvent>)
    requires SameEnd(p, a, b) && (a == [] || b == [])
    ensures Verdict(p, a, b, 0)
  {
    if a != [] {
      LastHashIsDigest(p, a);
    }
    if b != [] {
      LastHashIsDigest(p, b);
    }
  }

  /** A finding about all but the last events of logs of one length is one about the whole logs. */
  lemma OneMoreText(p: Primitives, a: seq<AuditEvent>, b: seq<AuditEvent>, k: nat)
    requires a != [] && |a| == |b| && SameTextBack(p, a, b, 0)
    requires SameTexts(p, a[..|a| - 1], b[..|b| - 1], k) && Verdict(p, a[..|a| - 1], b[..|b| - 1], k)
    ensures SameTexts(p, a, b, k + 1) && Verdict(p, a, b, k + 1)
  {
    var a', b' := a[..|a| - 1], b[..|b| - 1];
    forall j: nat | j < k + 1 ensures SameTextBack(p, a, b, j) {
      if j > 0 {
        OneBack(p, a, b, j - 1);
      }
    }
    assert k < |a'| ==> a'[|a'| - 1 - k] == a[|a| - 1 - (k + 1)] && b'[|b'| - 1 - k] == b[|b| - 1 - (k + 1)];
  }

  lemma OneBack(p: Primitives, a: seq<AuditEvent>, b: seq<AuditEvent>, j: nat)
    requires a != [] && b != [] && SameTextBack(p, a[..|a| - 1], b[..|b| - 1], j)
    ensures SameTextBack(p, a, b, j + 1)
  {
    var a', b' := a[..|a| - 1], b[..|b| - 1];
    assert a'[|a'| - 1 - j] == a[|a| - 1 - (j + 1)] && b'[|b'| - 1 - j] == b[|b| - 1 - (j + 1)];
  }

  /** Nothing is left of one log, or the last events collide. */
  predicate Stops(p: Primitives, a: seq<AuditEvent>, b: seq<AuditEvent>) {
    a == [] || b == [] || Collide(p, a[|a| - 1], b[|b| - 1])
  }

  lemma StopsAtOnce(p: Primitives, a: seq<AuditEvent>, b: seq<AuditEvent>)
    requires SameEnd(p, a, b) && Stops(p, a, b)
    ensures SameTexts(p, a, b, 0) && Verdict(p, a, b, 0)
  {
    if a == [] || b == [] {
      ShorterEnds(p, a, b);
    }
  }

  lemma LastTextsAgree(p: Primitives, a: seq<AuditEvent>, b: seq<AuditEvent>)
    requires HexLaws(p) && SameEnd(p, a, b) && !Stops(p, a, b)
    ensures |a| == |b| && SameTextBack(p, a, b, 0) && SameEnd(p, a[..|a| - 1], b[..|b| - 1])
  {
    LastTextsDecide(p, a, b);
    BothShorter(p, a, b);
  }

  lemma BothShorter(p: Primitives, a: seq<AuditEvent>, b: seq<AuditEvent>)
    requires a != [] && Linked(p, a) && Linked(p, b) && OneTextLast(p, a, b)
    ensures SameEnd(p, a[..|a| - 1], b[..|b| - 1])
  {
    ShorterChain(p, a);
    ShorterChain(p, b);
  }

  /**
   Two logs chained from genesis, with ids by position, that end in the same hash, of whatever lengths and whatever
   text in their fields: they are equally long and hash the same texts position by position; or their last k events do
   and the events before those hold the two texts of a SHA-256 collision; or one is empty and the other's last event
   hashes to the genesis value.
   */
  lemma {:induction false} HashedTextsAgree(p: Primitives, a: seq<AuditEvent>, b: seq<AuditEvent>) returns (k: nat)
    requires HexLaws(p) && SameEnd(p, a, b)
    ensures SameTexts(p, a, b, k) && Verdict(p, a, b, k)
    decreases |a|
  {
    if Stops(p, a, b) {
      k := 0;
      StopsAtOnce(p, a, b);
    } else {
      LastTextsAgree(p, a, b);
      var n := HashedTextsAgree(p, a[..|a| - 1], b[..|b| - 1]);
      OneMoreText(p, a, b, n);
      k := n + 1;
    }
  }

  /** Chained from genesis, with ids by position, and bars only in Detail. */
  ghost predicate WellFormedLog(p: Primitives, events: seq<AuditEvent>) {
    Linked(p, events) && AllBarFree(events)
  }

  /** The logs that Record builds from events with bars in Detail only are of this kind. */
  lemma RecordedWellFormed(p: Primitives, lower: char -> char, log: Log, req: RecordReq, now: int)
    requires Sound(p, log) && AllBarFree(log.events) && BarFree(NextEvent(p, lower, log, req, now))
    ensures WellFormedLog(p, Recorded(p, lower, log, req, now).events)
    ensures Sound(p, EmptyLog) && AllBarFree(EmptyLog.events)
  {
    RecordKeepsSound(p, lower, log, req, now);
  }

  /** Events of such logs with one hashed text are one event. */
  lemma SameTextSameEvent(p: Primitives, a: seq<AuditEvent>, b: seq<AuditEvent>, back: nat)
    requires TimeLaws(p) && HexLaws(p) && WellFormedLog(p, a) && WellFormedLog(p, b) && SameTextBack(p, a, b, back)
    ensures SameEventBack(a, b, back)
  {
    var i, j := |a| - 1 - back, |b| - 1 - back;
    LinksBarFree(p, a, i);
    LinksBarFree(p, b, j);
    EventIdBarFree(i + 1);
    EventIdBarFree(j + 1);
    assert a[i].id == EventId(i + 1) && b[j].id == EventId(j + 1);
    assert BarFree(a[i]) && BarFree(b[j]);
    HashInputUnique(p, a[i], b[j]);
    assert a[i].hash == ComputeHash(p, a[i]) && b[j].hash == ComputeHash(p, b[j]);
  }

  /**
   When only Detail may hold a bar, the events themselves agree where their hashed texts do: two such logs that end in
   the same hash are identical event by event, or differ as above.
   */
  lemma TamperEvident(p: Primitives, a: seq<AuditEvent>, b: seq<AuditEvent>) returns (k: nat)
    requires TimeLaws(p) && HexLaws(p)
    requires WellFormedLog(p, a) && WellFormedLog(p, b) && LastHash(a) == LastHash(b)
    ensures k <= |a| && k <= |b| && a[|a| - k..] == b[|b| - k..]
    ensures Verdict(p, a, b, k)
  {
    k := HashedTextsAgree(p, a, b);
    forall j: nat | j < k ensures SameEventBack(a, b, j) {
      SameTextSameEvent(p, a, b, j);
    }
    TailsEqual(a, b, k);
  }

  /** Counted from the end, the events number j of both logs are equal. */
  predicate SameEventBack(a: seq<AuditEvent>, b: seq<AuditEvent>, j: nat) {
    j < |a| && j < |b| && a[|a| - 1 - j] == b[|b| - 1 - j]
  }

  lemma TailsEqual(a: seq<AuditEvent>, b: seq<AuditEvent>, k: nat)
    requires k <= |a| && k <= |b| && forall j: nat | j < k :: SameEventBack(a, b, j)
    ensures a[|a| - k..] == b[|b| - k..]
  {
    var x, y := a[|a| - k..], b[|b| - k..];
    forall j | 0 <= j < k ensures x[j] == y[j] {
      assert SameEventBack(a, b, k - 1 - j);
    }
  }

  /** In general two events share a hash input exactly when their fields agree once split at bars. */
  lemma HashInputEqualExactly(p: Primitives, a: AuditEvent, b: AuditEvent)
    ensures HashInput(p, a) == HashInput(p, b) <==>
            FlatSplit(HashedFields(p, a), '|') == FlatSplit(HashedFields(p, b), '|')
  {
    JoinEqualIff(HashedFields(p, a), HashedFields(p, b), '|');
  }

  /** So a bar in an agent or task identifier makes two different events hash alike. */
  lemma BarsInIdentifiersCollide(p: Primitives, e: AuditEvent, x: string, y: string, z: string)
    ensures var a := e.(agentId := x + "|" + y, taskId := z);
            var b := e.(agentId := x, taskId := y + "|" + z);
            a != b && ComputeHash(p, a) == ComputeHash(p, b)
  {
    var a := e.(agentId := x + "|" + y, taskId := z);
    var b := e.(agentId := x, taskId := y + "|" + z);
    assert |a.agentId| > |b.agentId|;
    var fa, fb := HashedFields(p, a), HashedFields(p, b);
    assert fa == fa[..4] + [a.agentId, a.taskId] + fa[6..];
    assert fb == fb[..4] + [b.agentId, b.taskId] + fb[6..];
    assert fa[..4] == fb[..4] && fa[6..] == fb[6..];
    FlatSplitConcat(fa[..4] + [a.agentId, a.taskId], fa[6..], '|');
    FlatSplitConcat(fb[..4] + [b.agentId, b.taskId], fb[6..], '|');
    FlatSplitConcat(fa[..4], [a.agentId, a.taskId], '|');
    FlatSplitConcat(fb[..4], [b.agentId, b.taskId], '|');
    PairSplitsAlike(x, y, z);
    HashInputEqualExactly(p, a, b);
  }

  lemma PairSplitsAlike(x: string, y: string, z: string)
    ensures FlatSplit([x + "|" + y, z], '|') == FlatSplit([x, y + "|" + z], '|')
  {
    SplitAcross(x, y, '|');
    SplitAcross(y, z, '|');
    assert [x + "|" + y, z][1..] == [z] && [x, y + "|" + z][1..] == [y + "|" + z];
    assert [z][1..] == [] && [y + "|" + z][1..] == [];
    assert FlatSplit([z], '|') == Split(z, '|');
    assert FlatSplit([y + "|" + z], '|') == Split(y, '|') + Split(z, '|');
  }
}
