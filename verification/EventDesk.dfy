/** How the client hands session and audit events to the callers that wait for them. */
module EventDesk {
  import opened Wrappers
  import opened Numbers
  import opened CanonicalJson

  const AUDIT_BACKLOG: nat := 256

  /** Names one call of `nextSessionEvent` or `nextAuditEvent`, and so its promise. */
  type Ticket = nat

  datatype Owner = SessionCall(sessionId: string, index: nat) | AuditCall

  function At<T>(m: map<string, seq<T>>, key: string): seq<T> {
    if key in m then m[key] else []
  }

  /** What is left of `all` after its first `n`. */
  predicate IsTail<T(==)>(left: seq<T>, all: seq<T>, n: nat) {
    n + |left| == |all| && forall i :: 0 <= i < |left| ==> left[i] == all[n + i]
  }

  type Promises = map<Ticket, Option<Value>>

  /**
   * One session since it was last cleared. `arrived` are its events, `calls`
   * the calls for one. The i-th call gets the i-th event; events without a
   * call wait in `queue`, calls without an event in `waiters`.
   */
  ghost predicate Lane(sid: string, arrived: seq<Value>, calls: seq<Ticket>, queue: seq<Value>,
                       waiters: seq<Ticket>, promises: Promises, owner: map<Ticket, Owner>)
  {
    var n := Min(|arrived|, |calls|);
    && IsTail(queue, arrived, n)
    && IsTail(waiters, calls, n)
    && (forall i :: 0 <= i < n ==> calls[i] in promises && promises[calls[i]] == Some(arrived[i]))
    && (forall i :: n <= i < |calls| ==> calls[i] !in promises)
    && (forall i :: 0 <= i < |calls| ==> calls[i] in owner && owner[calls[i]] == SessionCall(sid, i))
  }

  lemma CallKeepsLane(sid: string, arrived: seq<Value>, calls: seq<Ticket>, queue: seq<Value>,
                      waiters: seq<Ticket>, promises: Promises, owner: map<Ticket, Owner>, t: Ticket)
    requires Lane(sid, arrived, calls, queue, waiters, promises, owner)
    requires t !in owner && t !in promises
    ensures
      var claimed := owner[t := SessionCall(sid, |calls|)];
      if queue != []
      then Lane(sid, arrived, calls + [t], queue[1..], waiters, promises[t := Some(queue[0])], claimed)
      else Lane(sid, arrived, calls + [t], queue, waiters + [t], promises, claimed)
  {
  }

  lemma EventKeepsLane(sid: string, arrived: seq<Value>, calls: seq<Ticket>, queue: seq<Value>,
                       waiters: seq<Ticket>, promises: Promises, owner: map<Ticket, Owner>, e: Value)
    requires Lane(sid, arrived, calls, queue, waiters, promises, owner)
    ensures
      if waiters != []
      then Lane(sid, arrived + [e], calls, queue, waiters[1..], promises[waiters[0] := Some(e)], owner)
      else Lane(sid, arrived + [e], calls, queue + [e], waiters, promises, owner)
  {
  }

  /** Settling promises and claiming tickets that are not this session's leaves its lane alone. */
  lemma OthersKeepLane(sid: string, arrived: seq<Value>, calls: seq<Ticket>, queue: seq<Value>,
                       waiters: seq<Ticket>, promises: Promises, owner: map<Ticket, Owner>,
                       promises': Promises, owner': map<Ticket, Owner>)
    requires Lane(sid, arrived, calls, queue, waiters, promises, owner)
    requires forall t :: t in owner && owner[t].SessionCall? && owner[t].sessionId == sid ==>
      t in owner' && owner'[t] == owner[t]
      && (t in promises <==> t in promises') && (t in promises ==> promises[t] == promises'[t])
    ensures Lane(sid, arrived, calls, queue, waiters, promises', owner')
  {
  }

  /** Tickets are handed out in ascending order, place by place, and the waiting ones come after. */
  ghost predicate Ascending(fates: seq<Option<Ticket>>, waiters: seq<Ticket>) {
    && (forall j, k :: 0 <= j < k < |fates| && fates[j].Some? && fates[k].Some? ==> fates[j].value < fates[k].value)
    && (forall i, j :: 0 <= i < j < |waiters| ==> waiters[i] < waiters[j])
    && (forall k, i :: 0 <= k < |fates| && 0 <= i < |waiters| && fates[k].Some? ==> fates[k].value < waiters[i])
  }

  /**
   * The audit entries. `queue` is the newest ones, at most 256. Each older
   * entry has one fate: handed to a ticket, or dropped, and dropped only when
   * 256 newer ones waited. Tickets are numbered in the order of the calls, so
   * entries are handed out in the order they came.
   */
  ghost predicate AuditLane(arrived: seq<Value>, fates: seq<Option<Ticket>>, queue: seq<Value>,
                            waiters: seq<Ticket>, promises: Promises, owner: map<Ticket, Owner>)
  {
    && |fates| + |queue| == |arrived| && |queue| <= 256
    && IsTail(queue, arrived, |fates|)
    && (waiters != [] ==> queue == [])
    && (forall k :: 0 <= k < |fates| && fates[k].Some? ==>
          && fates[k].value in promises && promises[fates[k].value] == Some(arrived[k])
          && fates[k].value in owner && owner[fates[k].value].AuditCall?)
    && (forall k :: 0 <= k < |fates| && fates[k].None? ==> k + 256 < |arrived|)
    && (forall i :: 0 <= i < |waiters| ==>
          waiters[i] !in promises && waiters[i] in owner && owner[waiters[i]].AuditCall?)
    && Ascending(fates, waiters)
  }

  lemma CallKeepsAudit(arrived: seq<Value>, fates: seq<Option<Ticket>>, queue: seq<Value>, waiters: seq<Ticket>,
                       promises: Promises, owner: map<Ticket, Owner>, t: Ticket)
    requires AuditLane(arrived, fates, queue, waiters, promises, owner)
    requires t !in promises && forall other :: other in owner ==> other < t
    ensures
      var claimed := owner[t := AuditCall];
      if queue != []
      then AuditLane(arrived, fates + [Some(t)], queue[1..], waiters, promises[t := Some(queue[0])], claimed)
      else AuditLane(arrived, fates, queue, waiters + [t], promises, claimed)
  {
  }

  lemma EntryKeepsAudit(arrived: seq<Value>, fates: seq<Option<Ticket>>, queue: seq<Value>, waiters: seq<Ticket>,
                        promises: Promises, owner: map<Ticket, Owner>, e: Value)
    requires AuditLane(arrived, fates, queue, waiters, promises, owner)
    ensures
      if waiters != []
      then AuditLane(arrived + [e], fates + [Some(waiters[0])], queue, waiters[1..],
                     promises[waiters[0] := Some(e)], owner)
      else if |queue| < AUDIT_BACKLOG
      then AuditLane(arrived + [e], fates, queue + [e], waiters, promises, owner)
      else AuditLane(arrived + [e], fates + [None], (queue + [e])[1..], waiters, promises, owner)
  {
  }

  lemma OthersKeepAudit(arrived: seq<Value>, fates: seq<Option<Ticket>>, queue: seq<Value>, waiters: seq<Ticket>,
                        promises: Promises, owner: map<Ticket, Owner>,
                        promises': Promises, owner': map<Ticket, Owner>)
    requires AuditLane(arrived, fates, queue, waiters, promises, owner)
    requires forall t :: t in owner && owner[t].AuditCall? ==>
      t in owner' && owner'[t] == owner[t]
      && (t in promises <==> t in promises') && (t in promises ==> promises[t] == promises'[t])
    ensures AuditLane(arrived, fates, queue, waiters, promises', owner')
  {
  }

  // -------------------------------------------------------------------------
  // The desk and what each call and each event does to it
  // -------------------------------------------------------------------------

  /** `promises` says what each call's promise has settled with: an event, or None for a rejection. */
  datatype Desk = Desk(
    sessionQueues: map<string, seq<Value>>,
    sessionWaiters: map<string, seq<Ticket>>,
    auditQueue: seq<Value>,
    auditWaiters: seq<Ticket>,
    promises: Promises,
    nextTicket: Ticket)

  const EMPTY_DESK := Desk(map[], map[], [], [], map[], 0)

  function CallSession(d: Desk, sid: string): Desk {
    var queue, t := At(d.sessionQueues, sid), d.nextTicket;
    if queue != [] then
      d.(nextTicket := t + 1, promises := d.promises[t := Some(queue[0])],
         sessionQueues := d.sessionQueues[sid := queue[1..]])
    else
      d.(nextTicket := t + 1, sessionWaiters := d.sessionWaiters[sid := At(d.sessionWaiters, sid) + [t]])
  }

  function ArriveSession(d: Desk, sid: string, e: Value): Desk {
    var waiters := At(d.sessionWaiters, sid);
    if waiters != [] then
      d.(promises := d.promises[waiters[0] := Some(e)],
         sessionWaiters := if |waiters| == 1 then d.sessionWaiters - {sid}
                           else d.sessionWaiters[sid := waiters[1..]])
    else
      d.(sessionQueues := d.sessionQueues[sid := At(d.sessionQueues, sid) + [e]])
  }

  function Reject(promises: Promises, waiters: set<Ticket>): Promises {
    map t | t in promises.Keys + waiters :: if t in waiters then None else promises[t]
  }

  function ClearSession(d: Desk, sid: string): Desk {
    d.(sessionQueues := d.sessionQueues - {sid},
       sessionWaiters := d.sessionWaiters - {sid},
       promises := Reject(d.promises, set t | t in At(d.sessionWaiters, sid)))
  }

  function CallAudit(d: Desk): Desk {
    var t := d.nextTicket;
    if d.auditQueue != [] then
      d.(nextTicket := t + 1, promises := d.promises[t := Some(d.auditQueue[0])], auditQueue := d.auditQueue[1..])
    else
      d.(nextTicket := t + 1, auditWaiters := d.auditWaiters + [t])
  }

  function ArriveAudit(d: Desk, e: Value): Desk {
    if d.auditWaiters != [] then
      d.(promises := d.promises[d.auditWaiters[0] := Some(e)], auditWaiters := d.auditWaiters[1..])
    else if |d.auditQueue| < AUDIT_BACKLOG then
      d.(auditQueue := d.auditQueue + [e])
    else
      d.(auditQueue := (d.auditQueue + [e])[1..])
  }

  /** The tickets waiting for events of sessions outside `left`. */
  function WaitingBut(waiters: map<string, seq<Ticket>>, left: set<string>): set<Ticket> {
    set sid, t | sid in waiters && sid !in left && t in waiters[sid] :: t
  }

  /** Every waiting call is rejected and every session forgotten; queued audit entries stay. */
  function FailDesk(d: Desk): Desk {
    d.(sessionQueues := map[], sessionWaiters := map[], auditWaiters := [],
       promises := Reject(d.promises, WaitingBut(d.sessionWaiters, {}) + set t | t in d.auditWaiters))
  }

  datatype Op =
    | NextSessionEvent(sessionId: string)
    | SessionEvent(sessionId: string, event: Value)
    | ClearSessionState(sessionId: string)
    | NextAuditEvent
    | AuditEvent(entry: Value)
    | FailAll

  function Do(d: Desk, op: Op): Desk {
    match op
    case NextSessionEvent(sid) => CallSession(d, sid)
    case SessionEvent(sid, e) => ArriveSession(d, sid, e)
    case ClearSessionState(sid) => ClearSession(d, sid)
    case NextAuditEvent => CallAudit(d)
    case AuditEvent(e) => ArriveAudit(d, e)
    case FailAll => FailDesk(d)
  }

  /**
   * What happened: per session since it was last cleared, the events that
   * arrived and the calls; all audit entries, the fate of each that is no
   * longer queued; and the call each ticket stands for.
   */
  datatype History = History(
    arrived: map<string, seq<Value>>,
    calls: map<string, seq<Ticket>>,
    audit: seq<Value>,
    fates: seq<Option<Ticket>>,
    owner: map<Ticket, Owner>)

  const NOTHING := History(map[], map[], [], [], map[])

  ghost function Record(h: History, d: Desk, op: Op): History {
    match op
    case NextSessionEvent(sid) =>
      h.(calls := h.calls[sid := At(h.calls, sid) + [d.nextTicket]],
         owner := h.owner[d.nextTicket := SessionCall(sid, |At(h.calls, sid)|)])
    case SessionEvent(sid, e) => h.(arrived := h.arrived[sid := At(h.arrived, sid) + [e]])
    case ClearSessionState(sid) => h.(arrived := h.arrived - {sid}, calls := h.calls - {sid})
    case NextAuditEvent =>
      h.(fates := if d.auditQueue != [] then h.fates + [Some(d.nextTicket)] else h.fates,
         owner := h.owner[d.nextTicket := AuditCall])
    case AuditEvent(e) =>
      h.(audit := h.audit + [e],
         fates := if d.auditWaiters != [] then h.fates + [Some(d.auditWaiters[0])]
                  else if |d.auditQueue| < AUDIT_BACKLOG then h.fates
                  else h.fates + [None])
    case FailAll => h.(arrived := map[], calls := map[])
  }

  ghost predicate SessionFollows(d: Desk, h: History, sid: string) {
    Lane(sid, At(h.arrived, sid), At(h.calls, sid), At(d.sessionQueues, sid), At(d.sessionWaiters, sid),
         d.promises, h.owner)
  }

  ghost predicate AuditFollows(d: Desk, h: History) {
    AuditLane(h.audit, h.fates, d.auditQueue, d.auditWaiters, d.promises, h.owner)
  }

  ghost predicate TicketsFollow(d: Desk, h: History) {
    (forall t :: t in h.owner ==> t < d.nextTicket) && (forall t :: t in d.promises ==> t in h.owner)
  }

  ghost predicate Follows(d: Desk, h: History) {
    TicketsFollow(d, h) && AuditFollows(d, h) && forall sid :: SessionFollows(d, h, sid)
  }

  ghost predicate SameTicket(d: Desk, h: History, d': Desk, h': History, t: Ticket) {
    && (t in h.owner ==> t in h'.owner && h'.owner[t] == h.owner[t])
    && (t in d.promises <==> t in d'.promises)
    && (t in d.promises ==> d.promises[t] == d'.promises[t])
  }

  /** The tickets of one kind, and their promises, are as before. */
  ghost predicate SameTickets(d: Desk, h: History, d': Desk, h': History, mine: Owner -> bool) {
    forall t :: t in h.owner && mine(h.owner[t]) ==> SameTicket(d, h, d', h', t)
  }

  ghost function OfSession(sid: string): Owner -> bool {
    (o: Owner) => o.SessionCall? && o.sessionId == sid
  }

  ghost function OfAudit(): Owner -> bool {
    (o: Owner) => o.AuditCall?
  }

  lemma SessionUntouched(d: Desk, h: History, d': Desk, h': History, sid: string)
    requires SessionFollows(d, h, sid) && SameTickets(d, h, d', h', OfSession(sid))
    requires At(h.arrived, sid) == At(h'.arrived, sid) && At(h.calls, sid) == At(h'.calls, sid)
    requires At(d.sessionQueues, sid) == At(d'.sessionQueues, sid)
    requires At(d.sessionWaiters, sid) == At(d'.sessionWaiters, sid)
    ensures SessionFollows(d', h', sid)
  {
    OthersKeepLane(sid, At(h.arrived, sid), At(h.calls, sid), At(d.sessionQueues, sid), At(d.sessionWaiters, sid),
                   d.promises, h.owner, d'.promises, h'.owner);
  }

  lemma AuditUntouched(d: Desk, h: History, d': Desk, h': History)
    requires AuditFollows(d, h) && SameTickets(d, h, d', h', OfAudit())
    requires h.audit == h'.audit && h.fates == h'.fates
    requires d.auditQueue == d'.auditQueue && d.auditWaiters == d'.auditWaiters
    ensures AuditFollows(d', h')
  {
    OthersKeepAudit(h.audit, h.fates, d.auditQueue, d.auditWaiters,
                    d.promises, h.owner, d'.promises, h'.owner);
  }

  /** Every waiting ticket belongs to the call it stands for. */
  lemma WaitersOwned(d: Desk, h: History, sid: string)
    requires SessionFollows(d, h, sid)
    ensures forall t :: t in At(d.sessionWaiters, sid) ==>
      t in h.owner && h.owner[t].SessionCall? && h.owner[t].sessionId == sid && t !in d.promises
  {
  }

  predicate IsSessionOp(op: Op) {
    op.NextSessionEvent? || op.SessionEvent? || op.ClearSessionState?
  }

  /** An operation on one session touches only that session's tickets. */
  lemma SessionOpTicket(d: Desk, h: History, op: Op, t: Ticket)
    requires TicketsFollow(d, h) && IsSessionOp(op) && t in h.owner
    requires forall w :: w in At(d.sessionWaiters, op.sessionId) ==>
      w in h.owner && h.owner[w].SessionCall? && h.owner[w].sessionId == op.sessionId
    requires h.owner[t].SessionCall? ==> h.owner[t].sessionId != op.sessionId
    ensures SameTicket(d, h, Do(d, op), Record(h, d, op), t)
  {
    if op.SessionEvent? && At(d.sessionWaiters, op.sessionId) != [] {
      assert At(d.sessionWaiters, op.sessionId)[0] in At(d.sessionWaiters, op.sessionId);
    }
  }

  lemma SessionOpTickets(d: Desk, h: History, op: Op, mine: Owner -> bool)
    requires TicketsFollow(d, h) && IsSessionOp(op) && SessionFollows(d, h, op.sessionId)
    requires forall o :: mine(o) && o.SessionCall? ==> o.sessionId != op.sessionId
    ensures SameTickets(d, h, Do(d, op), Record(h, d, op), mine)
  {
    WaitersOwned(d, h, op.sessionId);
    forall t | t in h.owner && mine(h.owner[t]) ensures SameTicket(d, h, Do(d, op), Record(h, d, op), t) {
      SessionOpTicket(d, h, op, t);
    }
  }

  lemma SessionOpQueues(d: Desk, h: History, op: Op, other: string)
    requires IsSessionOp(op) && op.sessionId != other
    ensures
      var d', h' := Do(d, op), Record(h, d, op);
      && At(h.arrived, other) == At(h'.arrived, other) && At(h.calls, other) == At(h'.calls, other)
      && At(d.sessionQueues, other) == At(d'.sessionQueues, other)
      && At(d.sessionWaiters, other) == At(d'.sessionWaiters, other)
  {
  }

  lemma SessionOpKeepsOther(d: Desk, h: History, op: Op, other: string)
    requires TicketsFollow(d, h) && SessionFollows(d, h, other)
    requires IsSessionOp(op) && op.sessionId != other && SessionFollows(d, h, op.sessionId)
    ensures SessionFollows(Do(d, op), Record(h, d, op), other)
  {
    SessionOpTickets(d, h, op, OfSession(other));
    SessionOpQueues(d, h, op, other);
    SessionUntouched(d, h, Do(d, op), Record(h, d, op), other);
  }

  lemma SessionOpKeepsAudit(d: Desk, h: History, op: Op)
    requires TicketsFollow(d, h) && AuditFollows(d, h)
    requires IsSessionOp(op) && SessionFollows(d, h, op.sessionId)
    ensures AuditFollows(Do(d, op), Record(h, d, op))
  {
    WaitersOwned(d, h, op.sessionId);
    forall t | t in h.owner && OfAudit()(h.owner[t]) ensures SameTicket(d, h, Do(d, op), Record(h, d, op), t) {
      SessionOpTicket(d, h, op, t);
    }
    AuditUntouched(d, h, Do(d, op), Record(h, d, op));
  }

  lemma CallKeepsSession(d: Desk, h: History, sid: string)
    requires TicketsFollow(d, h) && SessionFollows(d, h, sid)
    ensures SessionFollows(CallSession(d, sid), Record(h, d, NextSessionEvent(sid)), sid)
  {
    var d', h' := CallSession(d, sid), Record(h, d, NextSessionEvent(sid));
    var queue, waiters := At(d.sessionQueues, sid), At(d.sessionWaiters, sid);
    CallKeepsLane(sid, At(h.arrived, sid), At(h.calls, sid), queue, waiters, d.promises, h.owner, d.nextTicket);
    assert At(h'.arrived, sid) == At(h.arrived, sid) && At(h'.calls, sid) == At(h.calls, sid) + [d.nextTicket];
    if queue != [] {
      assert At(d'.sessionQueues, sid) == queue[1..] && At(d'.sessionWaiters, sid) == waiters;
    } else {
      assert At(d'.sessionQueues, sid) == queue && At(d'.sessionWaiters, sid) == waiters + [d.nextTicket];
    }
  }

  lemma ArrivalKeepsSession(d: Desk, h: History, sid: string, e: Value)
    requires SessionFollows(d, h, sid)
    ensures SessionFollows(ArriveSession(d, sid, e), Record(h, d, SessionEvent(sid, e)), sid)
  {
    var d', h' := ArriveSession(d, sid, e), Record(h, d, SessionEvent(sid, e));
    var queue, waiters := At(d.sessionQueues, sid), At(d.sessionWaiters, sid);
    EventKeepsLane(sid, At(h.arrived, sid), At(h.calls, sid), queue, waiters, d.promises, h.owner, e);
    assert At(h'.arrived, sid) == At(h.arrived, sid) + [e] && At(h'.calls, sid) == At(h.calls, sid);
    if waiters != [] {
      assert At(d'.sessionQueues, sid) == queue && At(d'.sessionWaiters, sid) == waiters[1..];
    } else {
      assert At(d'.sessionQueues, sid) == queue + [e] && At(d'.sessionWaiters, sid) == waiters;
    }
  }

  lemma SessionOpKeepsSame(d: Desk, h: History, op: Op)
    requires TicketsFollow(d, h)
    requires IsSessionOp(op) && SessionFollows(d, h, op.sessionId)
    ensures SessionFollows(Do(d, op), Record(h, d, op), op.sessionId)
  {
    match op {
      case NextSessionEvent(sid) => CallKeepsSession(d, h, sid);
      case SessionEvent(sid, e) => ArrivalKeepsSession(d, h, sid, e);
      case ClearSessionState(_) =>
    }
  }

  predicate IsAuditOp(op: Op) {
    op.NextAuditEvent? || op.AuditEvent?
  }

  lemma AuditOpKeepsAudit(d: Desk, h: History, op: Op)
    requires TicketsFollow(d, h) && AuditFollows(d, h) && IsAuditOp(op)
    ensures AuditFollows(Do(d, op), Record(h, d, op))
  {
    match op {
      case NextAuditEvent =>
        CallKeepsAudit(h.audit, h.fates, d.auditQueue, d.auditWaiters, d.promises, h.owner, d.nextTicket);
      case AuditEvent(e) =>
        EntryKeepsAudit(h.audit, h.fates, d.auditQueue, d.auditWaiters, d.promises, h.owner, e);
    }
  }

  lemma AuditOpTickets(d: Desk, h: History, op: Op, sid: string)
    requires TicketsFollow(d, h) && AuditFollows(d, h) && IsAuditOp(op)
    ensures SameTickets(d, h, Do(d, op), Record(h, d, op), OfSession(sid))
  {
    assert d.auditWaiters != [] ==> h.owner[d.auditWaiters[0]].AuditCall?;
  }

  lemma AuditOpQueues(d: Desk, h: History, op: Op)
    requires IsAuditOp(op)
    ensures
      var d', h' := Do(d, op), Record(h, d, op);
      && d'.sessionQueues == d.sessionQueues && d'.sessionWaiters == d.sessionWaiters
      && h'.arrived == h.arrived && h'.calls == h.calls
  {
  }

  lemma SessionOpKeepsTickets(d: Desk, h: History, op: Op)
    requires TicketsFollow(d, h) && IsSessionOp(op)
    requires forall w :: w in At(d.sessionWaiters, op.sessionId) ==> w in h.owner
    ensures TicketsFollow(Do(d, op), Record(h, d, op))
  {
  }

  lemma AuditOpKeepsTickets(d: Desk, h: History, op: Op)
    requires TicketsFollow(d, h) && IsAuditOp(op)
    requires d.auditWaiters != [] ==> d.auditWaiters[0] in h.owner
    ensures TicketsFollow(Do(d, op), Record(h, d, op))
  {
  }

  lemma FailKeepsTickets(d: Desk, h: History)
    requires TicketsFollow(d, h)
    requires forall sid, t :: sid in d.sessionWaiters && t in d.sessionWaiters[sid] ==> t in h.owner
    requires forall t :: t in d.auditWaiters ==> t in h.owner
    ensures TicketsFollow(FailDesk(d), Record(h, d, FailAll))
  {
  }

  lemma OpKeepsTickets(d: Desk, h: History, op: Op)
    requires Follows(d, h)
    ensures TicketsFollow(Do(d, op), Record(h, d, op))
  {
    if IsSessionOp(op) {
      WaitersOwned(d, h, op.sessionId);
      SessionOpKeepsTickets(d, h, op);
    } else if IsAuditOp(op) {
      AuditOpKeepsTickets(d, h, op);
    } else {
      forall sid, t | sid in d.sessionWaiters && t in d.sessionWaiters[sid] ensures t in h.owner {
        WaitersOwned(d, h, sid);
        assert t in At(d.sessionWaiters, sid);
      }
      FailKeepsTickets(d, h);
    }
  }

  lemma FailKeepsAudit(d: Desk, h: History)
    requires Follows(d, h)
    ensures AuditFollows(FailDesk(d), Record(h, d, FailAll))
  {
    forall sid, t | sid in d.sessionWaiters && t in d.sessionWaiters[sid]
      ensures t in h.owner && h.owner[t].SessionCall?
    {
      assert SessionFollows(d, h, sid);
      WaitersOwned(d, h, sid);
      assert t in At(d.sessionWaiters, sid);
    }
  }

  /** Whatever happens, each caller has been or will be given the event that is its own. */
  lemma OpKeepsFollows(d: Desk, h: History, op: Op)
    requires Follows(d, h)
    ensures Follows(Do(d, op), Record(h, d, op))
  {
    OpKeepsTickets(d, h, op);
    if IsSessionOp(op) {
      assert SessionFollows(d, h, op.sessionId);
      SessionOpKeepsAudit(d, h, op);
      SessionOpKeepsSame(d, h, op);
      forall sid ensures SessionFollows(Do(d, op), Record(h, d, op), sid) {
        assert SessionFollows(d, h, sid);
        if sid != op.sessionId {
          SessionOpKeepsOther(d, h, op, sid);
        }
      }
    } else if IsAuditOp(op) {
      AuditOpKeepsAudit(d, h, op);
      forall sid ensures SessionFollows(Do(d, op), Record(h, d, op), sid) {
        assert SessionFollows(d, h, sid);
        AuditOpTickets(d, h, op, sid);
        AuditOpQueues(d, h, op);
        SessionUntouched(d, h, Do(d, op), Record(h, d, op), sid);
      }
    } else {
      FailKeepsAudit(d, h);
      forall sid ensures SessionFollows(Do(d, op), Record(h, d, op), sid) {
      }
    }
  }

  // -------------------------------------------------------------------------
  // Whole runs
  // -------------------------------------------------------------------------

  function Run(ops: seq<Op>): Desk {
    if ops == [] then EMPTY_DESK else Do(Run(ops[..|ops| - 1]), ops[|ops| - 1])
  }

  ghost function Past(ops: seq<Op>): History {
    if ops == [] then NOTHING
    else Record(Past(ops[..|ops| - 1]), Run(ops[..|ops| - 1]), ops[|ops| - 1])
  }

  lemma {:induction false} RunFollows(ops: seq<Op>)
    ensures Follows(Run(ops), Past(ops))
  {
    if ops != [] {
      RunFollows(ops[..|ops| - 1]);
      OpKeepsFollows(Run(ops[..|ops| - 1]), Past(ops[..|ops| - 1]), ops[|ops| - 1]);
    }
  }

  /** Events of a session that `ops` brings since the session was last cleared or failed, oldest first. */
  ghost function EventsSince(ops: seq<Op>, sid: string): seq<Value> {
    if ops == [] then []
    else
      var before, last := EventsSince(ops[..|ops| - 1], sid), ops[|ops| - 1];
      if last.FailAll? || last == ClearSessionState(sid) then []
      else if last.SessionEvent? && last.sessionId == sid then before + [last.event]
      else before
  }

  /** The tickets of the calls for an event of a session since it was last cleared or failed. */
  ghost function CallsSince(ops: seq<Op>, sid: string): seq<Ticket> {
    if ops == [] then []
    else
      var before, last := CallsSince(ops[..|ops| - 1], sid), ops[|ops| - 1];
      if last.FailAll? || last == ClearSessionState(sid) then []
      else if last == NextSessionEvent(sid) then before + [Run(ops[..|ops| - 1]).nextTicket]
      else before
  }

  ghost function AuditEntries(ops: seq<Op>): seq<Value> {
    if ops == [] then []
    else
      var before, last := AuditEntries(ops[..|ops| - 1]), ops[|ops| - 1];
      if last.AuditEvent? then before + [last.entry] else before
  }

  lemma {:induction false} PastIsRecorded(ops: seq<Op>, sid: string)
    ensures At(Past(ops).arrived, sid) == EventsSince(ops, sid)
    ensures At(Past(ops).calls, sid) == CallsSince(ops, sid)
    ensures Past(ops).audit == AuditEntries(ops)
  {
    if ops != [] {
      PastIsRecorded(ops[..|ops| - 1], sid);
    }
  }

  /**
   * In every run, since a session was last cleared or failed: the i-th call is
   * given the i-th event as soon as both exist, and not both events and calls wait.
   */
  lemma SessionEventsAreDeliveredInOrder(ops: seq<Op>, sid: string)
    ensures
      var events, calls, d := EventsSince(ops, sid), CallsSince(ops, sid), Run(ops);
      && (forall i :: 0 <= i < |calls| && i < |events| ==>
            calls[i] in d.promises && d.promises[calls[i]] == Some(events[i]))
      && (forall i :: |events| <= i < |calls| ==> calls[i] !in d.promises)
      && (forall i, j :: 0 <= i < j < |calls| ==> calls[i] != calls[j])
      && (At(d.sessionQueues, sid) == [] || At(d.sessionWaiters, sid) == [])
      && At(d.sessionQueues, sid) == events[Min(|events|, |calls|)..]
  {
    RunFollows(ops);
    PastIsRecorded(ops, sid);
    assert SessionFollows(Run(ops), Past(ops), sid);
  }

  // -------------------------------------------------------------------------
  // From the audit calls back to the entries
  // -------------------------------------------------------------------------

  /** A call for an audit entry waits, was rejected, or was handed an entry that arrived. */
  ghost predicate Served(t: Ticket, fates: seq<Option<Ticket>>, waiters: seq<Ticket>, promises: Promises) {
    if t !in promises then t in waiters else promises[t].Some? ==> Some(t) in fates
  }

  ghost predicate CallsServed(d: Desk, h: History) {
    forall t :: t in h.owner && h.owner[t].AuditCall? ==> Served(t, h.fates, d.auditWaiters, d.promises)
  }

  lemma AuditOpKeepsServed(d: Desk, h: History, op: Op)
    requires TicketsFollow(d, h) && AuditFollows(d, h) && CallsServed(d, h) && IsAuditOp(op)
    ensures CallsServed(Do(d, op), Record(h, d, op))
  {
    var d', h' := Do(d, op), Record(h, d, op);
    forall t | t in h'.owner && h'.owner[t].AuditCall? ensures Served(t, h'.fates, d'.auditWaiters, d'.promises) {
      if t in h.owner {
        assert Served(t, h.fates, d.auditWaiters, d.promises);
      }
      assert |h'.fates| > |h.fates| ==> h'.fates[|h.fates|] in h'.fates;
      assert forall x :: x in h.fates ==> x in h'.fates;
      if |d'.auditWaiters| > |d.auditWaiters| {
        assert d'.auditWaiters[|d.auditWaiters|] in d'.auditWaiters;
      }
    }
  }

  lemma SessionOpKeepsServed(d: Desk, h: History, op: Op)
    requires TicketsFollow(d, h) && CallsServed(d, h)
    requires IsSessionOp(op) && SessionFollows(d, h, op.sessionId)
    ensures CallsServed(Do(d, op), Record(h, d, op))
  {
    var d', h' := Do(d, op), Record(h, d, op);
    WaitersOwned(d, h, op.sessionId);
    forall t | t in h'.owner && h'.owner[t].AuditCall? ensures Served(t, h'.fates, d'.auditWaiters, d'.promises) {
      SessionOpTicket(d, h, op, t);
    }
  }

  lemma FailKeepsServed(d: Desk, h: History)
    requires CallsServed(d, h)
    requires forall sid, t :: sid in d.sessionWaiters && t in d.sessionWaiters[sid] ==>
      t in h.owner && h.owner[t].SessionCall?
    ensures CallsServed(FailDesk(d), Record(h, d, FailAll))
  {
  }

  lemma OpKeepsServed(d: Desk, h: History, op: Op)
    requires Follows(d, h) && CallsServed(d, h)
    ensures CallsServed(Do(d, op), Record(h, d, op))
  {
    if IsSessionOp(op) {
      SessionOpKeepsServed(d, h, op);
    } else if IsAuditOp(op) {
      AuditOpKeepsServed(d, h, op);
    } else {
      forall sid, t | sid in d.sessionWaiters && t in d.sessionWaiters[sid]
        ensures t in h.owner && h.owner[t].SessionCall?
      {
        WaitersOwned(d, h, sid);
        assert t in At(d.sessionWaiters, sid);
      }
      FailKeepsServed(d, h);
    }
  }

  lemma {:induction false} RunServes(ops: seq<Op>)
    ensures CallsServed(Run(ops), Past(ops))
  {
    if ops != [] {
      RunFollows(ops[..|ops| - 1]);
      RunServes(ops[..|ops| - 1]);
      OpKeepsServed(Run(ops[..|ops| - 1]), Past(ops[..|ops| - 1]), ops[|ops| - 1]);
    }
  }

  /** The tickets of all calls for an audit entry, in order. */
  ghost function AuditCalls(ops: seq<Op>): seq<Ticket> {
    if ops == [] then []
    else
      var before, last := AuditCalls(ops[..|ops| - 1]), ops[|ops| - 1];
      if last.NextAuditEvent? then before + [Run(ops[..|ops| - 1]).nextTicket] else before
  }

  lemma {:induction false} AuditCallsAreOwned(ops: seq<Op>)
    ensures forall t :: t in AuditCalls(ops) <==> t in Past(ops).owner && Past(ops).owner[t].AuditCall?
  {
    if ops != [] {
      AuditCallsAreOwned(ops[..|ops| - 1]);
      RunFollows(ops[..|ops| - 1]);
      assert Run(ops[..|ops| - 1]).nextTicket !in Past(ops[..|ops| - 1]).owner;
    }
  }

  /**
   * In every run each audit entry is still queued, was handed to one call, or
   * was dropped; entries are handed out oldest first; the queue is the newest
   * entries and never more than 256. And each call waits, was rejected, or was
   * given the one entry that was handed to it.
   */
  lemma AuditEntriesAreDeliveredInOrder(ops: seq<Op>)
    returns (fates: seq<Option<Ticket>>)
    ensures
      var entries, d := AuditEntries(ops), Run(ops);
      && |fates| + |d.auditQueue| == |entries| && d.auditQueue == entries[|fates|..]
      && |d.auditQueue| <= 256
      && (forall k :: 0 <= k < |fates| && fates[k].Some? ==>
            fates[k].value in d.promises && d.promises[fates[k].value] == Some(entries[k]))
      && (forall j, k :: 0 <= j < k < |fates| && fates[j].Some? && fates[k].Some? ==>
            fates[j].value < fates[k].value)
      && (forall k :: 0 <= k < |fates| && fates[k].None? ==> k + 256 < |entries|)
      && (d.auditQueue == [] || d.auditWaiters == [])
    ensures
      var calls, d := AuditCalls(ops), Run(ops);
      forall t :: t in calls ==> Served(t, fates, d.auditWaiters, d.promises)
    ensures fates == Past(ops).fates
    ensures forall k :: 0 <= k < |fates| && fates[k].Some? ==> fates[k].value in AuditCalls(ops)
  {
    RunFollows(ops);
    RunServes(ops);
    PastIsRecorded(ops, "");
    AuditCallsAreOwned(ops);
    fates := Past(ops).fates;
  }
}
