/** The client end of the daemon pipe: `CommandKernelTransport`, which updates its tables in place. */
module Transport {
  import opened Wrappers
  import opened CanonicalJson
  import opened Envelopes
  import opened ClientRequests
  import opened EventDesk

  class CommandKernelTransport {
    var pending: map<RequestId, PendingRequest>
    // Every call of a request's `resolve` or `reject`, oldest first.
    var settlements: seq<Settlement>
    var closed: bool
    var sessionQueues: map<string, seq<Value>>
    var sessionWaiters: map<string, seq<Ticket>>
    var auditQueue: seq<Value>
    var auditWaiters: seq<Ticket>
    // What each event promise has settled with; None is a rejection.
    var promises: map<Ticket, Option<Value>>
    var nextTicket: Ticket

    ghost function Requests(): Client
      reads this`pending, this`settlements, this`closed
    {
      Client(pending, settlements, closed)
    }

    ghost function Events(): Desk
      reads this`sessionQueues, this`sessionWaiters, this`auditQueue, this`auditWaiters, this`promises, this`nextTicket
    {
      Desk(sessionQueues, sessionWaiters, auditQueue, auditWaiters, promises, nextTicket)
    }

    constructor ()
      ensures Requests() == NEW_CLIENT && Events() == EMPTY_DESK
    {
      pending, settlements, closed := map[], [], false;
      sessionQueues, sessionWaiters := map[], map[];
      auditQueue, auditWaiters := [], [];
      promises, nextTicket := map[], 0;
    }

    // -----------------------------------------------------------------------
    // Requests
    // -----------------------------------------------------------------------

    /** Registers a request under a fresh id, unless the transport is closed. */
    method Request(id: RequestId, kind: RequestKind) returns (ok: bool)
      requires id !in pending
      modifies this`pending
      ensures ok == !closed
      ensures Requests() == if ok then Register(old(Requests()), id, kind) else old(Requests())
    {
      if closed {
        return false;
      }
      pending := pending[id := PendingRequest(kind, false)];
      return true;
    }

    method ClearPending(id: RequestId)
      modifies this`pending
      ensures pending == old(pending) - {id}
    {
      if id !in pending {
        assert pending - {id} == pending;
        return;
      }
      pending := pending - {id};
    }

    method HandleResponse(id: RequestId, reply: Reply)
      modifies this`pending, this`settlements
      ensures Requests() == ReceiveResponse(old(Requests()), id, reply)
    {
      if id !in pending {
        return;
      }
      var p := pending[id];
      if p.kind.Invoke? && p.awaitingAsyncResult != true && IsAcceptedMarker(reply) {
        pending := pending[id := p.(awaitingAsyncResult := true)];
        return;
      }
      ClearPending(id);
      settlements := settlements + [Settlement(id, Replied(reply))];
    }

    /** The timer of a pending request; the marker replaces it by the timer of the async result. */
    method FireTimer(id: RequestId)
      requires id in pending
      modifies this`pending, this`settlements
      ensures Requests() == Expire(old(Requests()), id)
    {
      var outcome := if pending[id].awaitingAsyncResult then AsyncTimedOut else TimedOut;
      pending := pending - {id};
      settlements := settlements + [Settlement(id, outcome)];
    }

    method WriteError(id: RequestId)
      modifies this`pending, this`settlements
      ensures Requests() == FailWrite(old(Requests()), id)
    {
      ClearPending(id);
      settlements := settlements + [Settlement(id, WriteFailed)];
    }

    // -----------------------------------------------------------------------
    // Session and audit events
    // -----------------------------------------------------------------------

    method NextSessionEvent(sid: string) returns (ticket: Ticket)
      modifies this`sessionQueues, this`sessionWaiters, this`promises, this`nextTicket
      ensures ticket == old(nextTicket)
      ensures Events() == Do(old(Events()), Op.NextSessionEvent(sid))
    {
      ticket := nextTicket;
      nextTicket := nextTicket + 1;
      if sid in sessionQueues && |sessionQueues[sid]| > 0 {
        promises := promises[ticket := Some(sessionQueues[sid][0])];
        sessionQueues := sessionQueues[sid := sessionQueues[sid][1..]];
        return;
      }
      var waiters := if sid in sessionWaiters then sessionWaiters[sid] else [];
      waiters := waiters + [ticket];
      sessionWaiters := sessionWaiters[sid := waiters];
    }

    method HandleEvent(sid: string, event: Value)
      modifies this`sessionQueues, this`sessionWaiters, this`promises
      ensures Events() == Do(old(Events()), SessionEvent(sid, event))
    {
      if sid in sessionWaiters && |sessionWaiters[sid]| > 0 {
        var waiters := sessionWaiters[sid];
        promises := promises[waiters[0] := Some(event)];
        waiters := waiters[1..];
        if |waiters| == 0 {
          sessionWaiters := sessionWaiters - {sid};
        } else {
          sessionWaiters := sessionWaiters[sid := waiters];
        }
        return;
      }
      var queue := if sid in sessionQueues then sessionQueues[sid] else [];
      queue := queue + [event];
      sessionQueues := sessionQueues[sid := queue];
    }

    method RejectWaiters(waiters: seq<Ticket>)
      modifies this`promises
      ensures promises == Reject(old(promises), set t | t in waiters)
    {
      for i := 0 to |waiters|
        invariant promises == Reject(old(promises), set t | t in waiters[..i])
      {
        promises := promises[waiters[i] := None];
      }
      assert waiters[..|waiters|] == waiters;
    }

    method ClearSessionState(sid: string)
      modifies this`sessionQueues, this`sessionWaiters, this`promises
      ensures Events() == Do(old(Events()), Op.ClearSessionState(sid))
    {
      sessionQueues := sessionQueues - {sid};
      if sid in sessionWaiters {
        RejectWaiters(sessionWaiters[sid]);
        sessionWaiters := sessionWaiters - {sid};
      } else {
        assert sessionWaiters - {sid} == sessionWaiters;
        assert Reject(promises, {}) == promises;
      }
    }

    method NextAuditEvent() returns (ticket: Ticket)
      modifies this`auditQueue, this`auditWaiters, this`promises, this`nextTicket
      ensures ticket == old(nextTicket)
      ensures Events() == Do(old(Events()), Op.NextAuditEvent)
    {
      ticket := nextTicket;
      nextTicket := nextTicket + 1;
      if |auditQueue| > 0 {
        promises := promises[ticket := Some(auditQueue[0])];
        auditQueue := auditQueue[1..];
        return;
      }
      auditWaiters := auditWaiters + [ticket];
    }

    method HandleAuditEvent(entry: Value)
      requires |auditQueue| <= AUDIT_BACKLOG
      modifies this`auditQueue, this`auditWaiters, this`promises
      ensures |auditQueue| <= AUDIT_BACKLOG
      ensures Events() == Do(old(Events()), AuditEvent(entry))
    {
      if |auditWaiters| > 0 {
        promises := promises[auditWaiters[0] := Some(entry)];
        auditWaiters := auditWaiters[1..];
        return;
      }
      auditQueue := auditQueue + [entry];
      while |auditQueue| > AUDIT_BACKLOG
        invariant auditQueue == if |old(auditQueue)| < AUDIT_BACKLOG || |auditQueue| > AUDIT_BACKLOG
          then old(auditQueue) + [entry]
          else (old(auditQueue) + [entry])[1..]
        invariant promises == old(promises) && auditWaiters == old(auditWaiters)
      {
        auditQueue := auditQueue[1..];
      }
    }

    // -----------------------------------------------------------------------
    // Failure
    // -----------------------------------------------------------------------

    /** Closes the transport and rejects everything that waits. `order` is how the pending table was walked. */
    method FailAll() returns (ghost order: seq<RequestId>)
      modifies this
      ensures ListsPending(old(Requests()), order)
      ensures Requests() == ClientRequests.FailAll(old(Requests()), order)
      ensures Events() == Do(old(Events()), Op.FailAll)
    {
      closed := true;
      order := RejectPending();
      FailAllCloses(old(Requests()), order);
      FailEvents();
    }

    method FailEvents()
      modifies this`sessionQueues, this`sessionWaiters, this`auditWaiters, this`promises
      ensures Events() == Do(old(Events()), Op.FailAll)
    {
      RejectSessions();
      RejectWaiters(auditWaiters);
      auditWaiters := [];
      RejectTwice(old(promises), WaitingBut(old(sessionWaiters), {}), set t | t in old(auditWaiters));
    }

    method RejectPending() returns (ghost order: seq<RequestId>)
      requires closed
      modifies this`pending, this`settlements
      ensures ListsPending(old(Requests()), order)
      ensures Requests() == ClientRequests.FailAll(old(Requests()), order)
    {
      var left := pending.Keys;
      ghost var start := Requests();
      order := [];
      while left != {}
        invariant pending.Keys == left && closed
        invariant forall i, j :: 0 <= i < j < |order| ==> order[i] != order[j]
        invariant forall id :: id in order <==> id in start.pending && id !in left
        invariant Requests() == ClientRequests.FailAll(start, order)
        decreases left
      {
        var id :| id in left;
        FailAllStep(start, order, id);
        settlements := settlements + [Settlement(id, TransportClosed)];
        pending := pending - {id};
        left := left - {id};
        order := order + [id];
      }
    }

    method RejectSessions()
      modifies this`sessionQueues, this`sessionWaiters, this`promises
      ensures sessionQueues == map[] && sessionWaiters == map[]
      ensures promises == Reject(old(promises), WaitingBut(old(sessionWaiters), {}))
    {
      var left := sessionWaiters.Keys;
      assert Reject(promises, {}) == promises;
      assert WaitingBut(sessionWaiters, left) == {};
      while left != {}
        invariant left <= sessionWaiters.Keys && sessionWaiters == old(sessionWaiters)
        invariant promises == Reject(old(promises), WaitingBut(sessionWaiters, left))
        decreases left
      {
        var sid :| sid in left;
        WaitingStep(sessionWaiters, left, sid);
        RejectTwice(old(promises), WaitingBut(sessionWaiters, left), set t | t in sessionWaiters[sid]);
        RejectWaiters(sessionWaiters[sid]);
        left := left - {sid};
      }
      sessionWaiters := map[];
      sessionQueues := map[];
    }
  }

  lemma WaitingStep(waiters: map<string, seq<Ticket>>, left: set<string>, sid: string)
    requires sid in left && sid in waiters
    ensures WaitingBut(waiters, left - {sid}) == WaitingBut(waiters, left) + set t | t in waiters[sid]
  {
  }

  lemma RejectTwice(promises: Promises, a: set<Ticket>, b: set<Ticket>)
    ensures Reject(Reject(promises, a), b) == Reject(promises, a + b)
  {
  }

  lemma {:induction false} FailAllStep(c: Client, order: seq<RequestId>, id: RequestId)
    requires c.closed
    ensures ClientRequests.FailAll(c, order + [id])
         == Settle(ClientRequests.FailAll(c, order), id, TransportClosed)
    decreases |order|
  {
    if order == [] {
      assert ([] + [id])[1..] == [];
    } else {
      FailAllStep(Settle(c, order[0], TransportClosed), order[1..], id);
      assert (order + [id])[1..] == order[1..] + [id];
    }
  }

  lemma FailAllCloses(c: Client, order: seq<RequestId>)
    ensures ClientRequests.FailAll(c.(closed := true), order) == ClientRequests.FailAll(c, order)
    decreases |order|
  {
    if order != [] {
      FailAllCloses(Settle(c, order[0], TransportClosed), order[1..]);
    }
  }
}
