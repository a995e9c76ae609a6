/** The kernel's bounded audit ring, against the unbounded log it stands for. */
module AuditLogs {
  import opened Wrappers
  import opened Numbers
  import opened Sequences

  const AUDIT_LOG_CAPACITY: nat := 1024
  const DEFAULT_QUERY_LIMIT: nat := 256

  /** The time stamp is left out. */
  datatype AuditEntry = AuditEntry(sequence: nat, kind: string, extensionId: string, detail: string)

  /** Sequences are consecutive from 1. */
  ghost predicate Numbered(log: seq<AuditEntry>) {
    forall i :: 0 <= i < |log| ==> log[i].sequence == i + 1
  }

  function Filter(ring: seq<AuditEntry>, sinceSeq: nat): seq<AuditEntry> {
    if ring == [] then []
    else (if ring[0].sequence > sinceSeq then [ring[0]] else []) + Filter(ring[1..], sinceSeq)
  }

  function Take<T>(s: seq<T>, limit: nat): seq<T> {
    if |s| <= limit then s else s[..limit]
  }

  class AuditLog {
    var ring: seq<AuditEntry>
    var nextSeq: nat
    // Entries streamed to the response sink, once a host has installed one.
    var sink: Option<seq<AuditEntry>>
    // Everything ever pushed.
    ghost var log: seq<AuditEntry>

    ghost predicate Valid()
      reads this
    {
      Numbered(log) && nextSeq == |log| + 1 && ring == Last(log, 1024)
    }

    constructor ()
      ensures Valid() && log == []
    {
      ring, nextSeq, sink, log := [], 1, None, [];
    }

    method Push(kind: string, extensionId: string, detail: string)
      requires Valid()
      modifies this
      ensures Valid()
      ensures log == old(log) + [AuditEntry(|old(log)| + 1, kind, extensionId, detail)]
      ensures sink == if old(sink).Some? then Some(old(sink).value + [log[|old(log)|]]) else None
    {
      var entry := AuditEntry(nextSeq, kind, extensionId, detail);
      nextSeq := nextSeq + 1;
      if sink.Some? {
        sink := Some(sink.value + [entry]);
      }
      ring := ring + [entry];
      LastAppend(log, entry, AUDIT_LOG_CAPACITY);
      log := log + [entry];
      EvictOldest();
    }

    method EvictOldest()
      modifies this`ring
      ensures ring == Last(old(ring), AUDIT_LOG_CAPACITY)
    {
      while |ring| > AUDIT_LOG_CAPACITY
        invariant |ring| <= |old(ring)| && ring == old(ring)[|old(ring)| - |ring|..]
        invariant |ring| == |old(ring)| || |ring| >= AUDIT_LOG_CAPACITY
      {
        ring := ring[1..];
      }
    }

    function Query(sinceSeq: nat, limit: nat): (entries: seq<AuditEntry>)
      requires Valid()
      reads this
      ensures entries == Stretch(log, sinceSeq, limit)
    {
      AnswerIsStretch(log, sinceSeq, limit);
      Take(Filter(ring, sinceSeq), limit)
    }

    /** The query a host sends, with its defaults. */
    method HandleAuditQuery(sinceSeq: Option<nat>, limit: Option<nat>)
      returns (entries: seq<AuditEntry>, lastSeq: nat)
      requires Valid()
      ensures
        var since := if sinceSeq.Some? then sinceSeq.value else 0;
        var most := Min(if limit.Some? then limit.value else 256, 1024);
        entries == Stretch(log, since, most) && lastSeq == |log|
    {
      var since := if sinceSeq.Some? then sinceSeq.value else 0;
      var asked := if limit.Some? then limit.value else DEFAULT_QUERY_LIMIT;
      entries := Query(since, if asked < AUDIT_LOG_CAPACITY then asked else AUDIT_LOG_CAPACITY);
      lastSeq := NewestSeq();
    }

    method NewestSeq() returns (n: nat)
      requires Valid()
      ensures n == |log|
    {
      n := nextSeq - 1;
    }
  }

  // -------------------------------------------------------------------------
  // Queries against the unbounded log
  // -------------------------------------------------------------------------

  /** The place of the oldest entry after the cursor that the ring still holds. */
  function From(length: nat, sinceSeq: nat): (n: nat)
    ensures n <= length
  {
    Min(Max(sinceSeq, length - 1024), length)
  }

  /** In a stretch numbered from `first`, the entries after the cursor begin at some place `k`. */
  lemma {:induction false} FilterConsecutive(ring: seq<AuditEntry>, first: nat, sinceSeq: nat, k: nat)
    requires forall i :: 0 <= i < |ring| ==> ring[i].sequence == first + i
    requires k <= |ring|
    requires k == 0 || first + k - 1 <= sinceSeq
    requires k == |ring| || first + k > sinceSeq
    ensures Filter(ring, sinceSeq) == ring[k..]
  {
    if k > 0 {
      FilterConsecutive(ring[1..], first + 1, sinceSeq, k - 1);
    } else if ring != [] {
      FilterConsecutive(ring[1..], first + 1, sinceSeq, 0);
    }
  }

  ghost function Stretch(log: seq<AuditEntry>, sinceSeq: nat, limit: nat): seq<AuditEntry> {
    log[From(|log|, sinceSeq)..Min(From(|log|, sinceSeq) + limit, |log|)]
  }

  ghost function Answer(log: seq<AuditEntry>, sinceSeq: nat, limit: nat): seq<AuditEntry> {
    Take(Filter(Last(log, 1024), sinceSeq), limit)
  }

  /** A query gives a stretch of the log: from the cursor, or from the oldest entry not evicted. */
  lemma AnswerIsStretch(log: seq<AuditEntry>, sinceSeq: nat, limit: nat)
    requires Numbered(log)
    ensures Answer(log, sinceSeq, limit) == Stretch(log, sinceSeq, limit)
  {
    var first := Max(|log| - 1024, 0);
    assert Last(log, 1024) == log[first..];
    StretchOfTail(log, first, sinceSeq, From(|log|, sinceSeq), limit);
  }

  lemma StretchOfTail(log: seq<AuditEntry>, first: nat, sinceSeq: nat, from: nat, limit: nat)
    requires Numbered(log) && first <= from <= |log|
    requires (from == first || from <= sinceSeq) && (from == |log| || from >= sinceSeq)
    ensures Take(Filter(log[first..], sinceSeq), limit) == log[from..Min(from + limit, |log|)]
  {
    FilterConsecutive(log[first..], first + 1, sinceSeq, from - first);
    TailOfTail(log, first, from - first);
    TakeOfTail(log, from, limit);
  }

  lemma TailOfTail<T>(s: seq<T>, i: nat, j: nat)
    requires i + j <= |s|
    ensures s[i..][j..] == s[i + j..]
  {
  }

  lemma TakeOfTail<T>(s: seq<T>, from: nat, limit: nat)
    requires from <= |s|
    ensures Take(s[from..], limit) == s[from..Min(from + limit, |s|)]
  {
  }

  /** A host polling with some cursor; other parts of the kernel push in between. */
  datatype Op = Push(kind: string, extensionId: string, detail: string) | Poll(limit: nat)

  /** The log, the cursor, and everything polled so far. */
  datatype Reader = Reader(log: seq<AuditEntry>, cursor: nat, read: seq<AuditEntry>)

  /** The next cursor is the last sequence returned. */
  ghost function Step(r: Reader, op: Op): Reader {
    match op
    case Push(kind, id, detail) => r.(log := r.log + [AuditEntry(|r.log| + 1, kind, id, detail)])
    case Poll(limit) => Turned(r, Answer(r.log, r.cursor, limit))
  }

  ghost function Turned(r: Reader, page: seq<AuditEntry>): Reader {
    r.(read := r.read + page, cursor := if page == [] then r.cursor else page[|page| - 1].sequence)
  }

  ghost function Run(ops: seq<Op>): Reader {
    if ops == [] then Reader([], 0, []) else Step(Run(ops[..|ops| - 1]), ops[|ops| - 1])
  }

  ghost predicate Evicted(r: Reader, sequence: nat) {
    sequence + 1024 <= |r.log|
  }

  ghost predicate HasSequence(entries: seq<AuditEntry>, n: nat) {
    exists i :: 0 <= i < |entries| && entries[i].sequence == n
  }

  /** Entries of the log up to `upTo`, in strictly ascending order. */
  ghost predicate AscendingFrom(entries: seq<AuditEntry>, log: seq<AuditEntry>, upTo: nat) {
    && (forall i :: 0 <= i < |entries| ==>
          1 <= entries[i].sequence <= upTo <= |log| && entries[i] == log[entries[i].sequence - 1])
    && (forall i, j :: 0 <= i < j < |entries| ==> entries[i].sequence < entries[j].sequence)
  }

  ghost predicate ReaderInv(r: Reader) {
    && Numbered(r.log) && r.cursor <= |r.log|
    && AscendingFrom(r.read, r.log, r.cursor)
    && (forall n :: 1 <= n <= r.cursor && !Evicted(r, n) ==> HasSequence(r.read, n))
  }

  lemma StretchAscends(log: seq<AuditEntry>, from: nat, to: nat)
    requires Numbered(log) && from <= to <= |log|
    ensures AscendingFrom(log[from..to], log, to)
    ensures forall i :: 0 <= i < to - from ==> log[from..to][i].sequence == from + i + 1
  {
  }

  lemma AscendingConcat(a: seq<AuditEntry>, b: seq<AuditEntry>, log: seq<AuditEntry>, upTo: nat, next: nat)
    requires AscendingFrom(a, log, upTo) && AscendingFrom(b, log, next) && upTo <= next <= |log|
    requires forall i :: 0 <= i < |b| ==> upTo < b[i].sequence
    ensures AscendingFrom(a + b, log, next)
  {
  }

  lemma PageKeepsOrder(r: Reader, page: seq<AuditEntry>, from: nat, to: nat)
    requires ReaderInv(r) && r.cursor <= from <= to <= |r.log| && page == r.log[from..to]
    ensures
      var t := Turned(r, page);
      r.cursor <= t.cursor <= |r.log| && AscendingFrom(t.read, r.log, t.cursor)
  {
    StretchAscends(r.log, from, to);
    if from < to {
      assert page[to - from - 1].sequence == to;
      AscendingConcat(r.read, page, r.log, r.cursor, to);
    } else {
      assert r.read + page == r.read;
    }
  }

  lemma PollKeepsOrder(r: Reader, limit: nat)
    requires ReaderInv(r)
    ensures
      var t := Step(r, Poll(limit));
      r.cursor <= t.cursor <= |r.log| && AscendingFrom(t.read, r.log, t.cursor)
  {
    var from := From(|r.log|, r.cursor);
    AnswerIsStretch(r.log, r.cursor, limit);
    PageKeepsOrder(r, Answer(r.log, r.cursor, limit), from, Min(from + limit, |r.log|));
  }

  /** One page leaves out only entries that had been evicted when it was asked for. */
  lemma PageSkipsOnlyEvicted(r: Reader, limit: nat, n: nat)
    requires ReaderInv(r) && r.cursor < n <= Step(r, Poll(limit)).cursor
    ensures Evicted(r, n) || HasSequence(Answer(r.log, r.cursor, limit), n)
  {
    AnswerIsStretch(r.log, r.cursor, limit);
    var from := From(|r.log|, r.cursor);
    var page := Answer(r.log, r.cursor, limit);
    if n > from {
      assert page[n - 1 - from].sequence == n;
    }
  }

  lemma HasInConcat(a: seq<AuditEntry>, b: seq<AuditEntry>, n: nat)
    requires HasSequence(a, n) || HasSequence(b, n)
    ensures HasSequence(a + b, n)
  {
    if HasSequence(a, n) {
      var i :| 0 <= i < |a| && a[i].sequence == n;
      assert (a + b)[i].sequence == n;
    } else {
      var i :| 0 <= i < |b| && b[i].sequence == n;
      assert (a + b)[|a| + i].sequence == n;
    }
  }

  lemma PollKeepsReader(r: Reader, limit: nat)
    requires ReaderInv(r)
    ensures ReaderInv(Step(r, Poll(limit)))
  {
    var t := Step(r, Poll(limit));
    PollKeepsOrder(r, limit);
    forall n | 1 <= n <= t.cursor && !Evicted(t, n) ensures HasSequence(t.read, n) {
      if n > r.cursor {
        PageSkipsOnlyEvicted(r, limit, n);
      }
      HasInConcat(r.read, Answer(r.log, r.cursor, limit), n);
    }
  }

  lemma PushKeepsReader(r: Reader, op: Op)
    requires ReaderInv(r) && op.Push?
    ensures ReaderInv(Step(r, op))
  {
    var t := Step(r, op);
    forall n | 1 <= n <= t.cursor && !Evicted(t, n) ensures HasSequence(t.read, n) {
      assert !Evicted(r, n);
    }
  }

  lemma {:induction false} RunKeepsReader(ops: seq<Op>)
    ensures ReaderInv(Run(ops))
  {
    if ops != [] {
      RunKeepsReader(ops[..|ops| - 1]);
      match ops[|ops| - 1] {
        case Push(_, _, _) => PushKeepsReader(Run(ops[..|ops| - 1]), ops[|ops| - 1]);
        case Poll(limit) => PollKeepsReader(Run(ops[..|ops| - 1]), limit);
      }
    }
  }

  /**
   * Paging with the last returned sequence: whatever is pushed in between, the
   * host reads entries of the log in strictly ascending order, each once, and
   * has read every entry up to its cursor that has not been evicted.
   */
  lemma PagingSkipsOnlyEvicted(ops: seq<Op>)
    ensures
      var r := Run(ops);
      && AscendingFrom(r.read, r.log, r.cursor)
      && (forall n :: 1 <= n <= r.cursor && !Evicted(r, n) ==> HasSequence(r.read, n))
  {
    RunKeepsReader(ops);
  }

  /**
   * Paging with the reported `lastSeq` passes over entries the ring still
   * holds exactly when the page was cut short by its limit.
   */
  lemma NewestAsCursorSkips(log: seq<AuditEntry>, sinceSeq: nat, limit: nat)
    requires Numbered(log)
    ensures
      (exists e :: e in Last(log, 1024) && sinceSeq < e.sequence <= |log|
                   && e !in Answer(log, sinceSeq, limit))
      <==> |log| - From(|log|, sinceSeq) > limit
  {
    if |log| - From(|log|, sinceSeq) > limit {
      CutPageSkips(log, sinceSeq, limit);
    } else {
      FullPageSkipsNothing(log, sinceSeq, limit);
    }
  }

  /** A page cut by its limit leaves the newest entry out. */
  lemma CutPageSkips(log: seq<AuditEntry>, sinceSeq: nat, limit: nat)
    requires Numbered(log) && |log| - From(|log|, sinceSeq) > limit
    ensures
      var e := log[|log| - 1];
      e in Last(log, 1024) && sinceSeq < e.sequence <= |log| && e !in Answer(log, sinceSeq, limit)
  {
    AnswerIsStretch(log, sinceSeq, limit);
    var ring, from, page := Last(log, 1024), From(|log|, sinceSeq), Answer(log, sinceSeq, limit);
    assert ring[|ring| - 1] == log[|log| - 1];
    assert forall i :: 0 <= i < |page| ==> page[i].sequence == from + i + 1;
  }

  lemma FullPageSkipsNothing(log: seq<AuditEntry>, sinceSeq: nat, limit: nat)
    requires Numbered(log) && |log| - From(|log|, sinceSeq) <= limit
    ensures forall e :: e in Last(log, 1024) && sinceSeq < e.sequence <= |log| ==> e in Answer(log, sinceSeq, limit)
  {
    AnswerIsStretch(log, sinceSeq, limit);
    var ring, from, page := Last(log, 1024), From(|log|, sinceSeq), Answer(log, sinceSeq, limit);
    forall e | e in ring && sinceSeq < e.sequence <= |log| ensures e in page {
      var i :| 0 <= i < |ring| && ring[i] == e;
      assert log[|log| - |ring| + i] == e;
      assert page[e.sequence - 1 - from] == e;
    }
  }
}
