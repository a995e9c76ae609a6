/** The promises of the event calls: each is settled once, and none is forgotten. */
module EventPromises {
  import opened Wrappers
  import opened EventDesk

  predicate WaitsFor(d: Desk, sid: string, t: Ticket) {
    sid in d.sessionWaiters && t in d.sessionWaiters[sid]
  }

  /** The call stands in some list of waiters. */
  ghost predicate Waits(d: Desk, t: Ticket) {
    t in d.auditWaiters || exists sid :: WaitsFor(d, sid, t)
  }

  /** No call has been lost: it has settled, or some list still holds it. */
  ghost predicate NoneLost(d: Desk) {
    forall t: Ticket :: t < d.nextTicket ==> t in d.promises || Waits(d, t)
  }

  lemma CallKeepsCalls(d: Desk, op: Op, t: Ticket)
    requires op.NextSessionEvent? || op.NextAuditEvent?
    requires t < d.nextTicket ==> t in d.promises || Waits(d, t)
    requires t < Do(d, op).nextTicket
    ensures t in Do(d, op).promises || Waits(Do(d, op), t)
  {
    var next := Do(d, op);
    if t == d.nextTicket && op.NextSessionEvent? && t !in next.promises {
      assert WaitsFor(next, op.sessionId, t);
    } else if sid :| WaitsFor(d, sid, t) {
      assert WaitsFor(next, sid, t);
    }
  }

  lemma ArrivalKeepsCalls(d: Desk, op: Op, t: Ticket)
    requires op.SessionEvent? || op.AuditEvent?
    requires t in d.promises || Waits(d, t)
    ensures t in Do(d, op).promises || Waits(Do(d, op), t)
  {
    var next := Do(d, op);
    if t !in next.promises {
      if sid :| WaitsFor(d, sid, t) {
        assert WaitsFor(next, sid, t);
      }
    }
  }

  lemma EndKeepsCalls(d: Desk, op: Op, t: Ticket)
    requires op.ClearSessionState? || op.FailAll?
    requires t in d.promises || Waits(d, t)
    ensures t in Do(d, op).promises || (op.ClearSessionState? && Waits(Do(d, op), t))
  {
    var next := Do(d, op);
    if t !in next.promises {
      if sid :| WaitsFor(d, sid, t) {
        assert op.FailAll? ==> t in WaitingBut(d.sessionWaiters, {});
        assert WaitsFor(next, sid, t);
      }
    }
  }

  lemma OpKeepsCalls(d: Desk, op: Op)
    requires NoneLost(d)
    ensures NoneLost(Do(d, op))
  {
    forall t: Ticket | t < Do(d, op).nextTicket ensures t in Do(d, op).promises || Waits(Do(d, op), t) {
      if op.NextSessionEvent? || op.NextAuditEvent? {
        CallKeepsCalls(d, op, t);
      } else if op.SessionEvent? || op.AuditEvent? {
        ArrivalKeepsCalls(d, op, t);
      } else {
        EndKeepsCalls(d, op, t);
      }
    }
  }

  lemma {:induction false} RunKeepsCalls(ops: seq<Op>)
    ensures NoneLost(Run(ops))
  {
    if ops != [] {
      RunKeepsCalls(ops[..|ops| - 1]);
      OpKeepsCalls(Run(ops[..|ops| - 1]), ops[|ops| - 1]);
    }
  }

  lemma WaitingIsUnsettled(d: Desk, h: History, t: Ticket)
    requires Follows(d, h) && Waits(d, t)
    ensures t !in d.promises
  {
    if sid :| WaitsFor(d, sid, t) {
      assert SessionFollows(d, h, sid);
      WaitersOwned(d, h, sid);
      assert t in At(d.sessionWaiters, sid);
    }
  }

  /** In every run a call that was made either has settled or waits, and never both. */
  lemma EveryCallSettlesOrWaits(ops: seq<Op>, t: Ticket)
    requires t < Run(ops).nextTicket
    ensures t in Run(ops).promises <==> !Waits(Run(ops), t)
  {
    RunKeepsCalls(ops);
    RunFollows(ops);
    if Waits(Run(ops), t) {
      WaitingIsUnsettled(Run(ops), Past(ops), t);
    }
  }

  lemma FirstWaiterIsUnsettled(d: Desk, h: History, op: Op)
    requires Follows(d, h)
    ensures op.SessionEvent? && At(d.sessionWaiters, op.sessionId) != [] ==>
      At(d.sessionWaiters, op.sessionId)[0] !in d.promises
    ensures op.AuditEvent? && d.auditWaiters != [] ==> d.auditWaiters[0] !in d.promises
  {
    if op.SessionEvent? {
      assert SessionFollows(d, h, op.sessionId);
      WaitersOwned(d, h, op.sessionId);
    }
  }

  lemma OpKeepsSettled(d: Desk, h: History, op: Op, t: Ticket)
    requires Follows(d, h) && t in d.promises
    ensures t in Do(d, op).promises && Do(d, op).promises[t] == d.promises[t]
  {
    FirstWaiterIsUnsettled(d, h, op);
    if Waits(d, t) {
      WaitingIsUnsettled(d, h, t);
    }
    match op {
      case ClearSessionState(sid) => assert t in At(d.sessionWaiters, sid) ==> WaitsFor(d, sid, t);
      case FailAll =>
        assert forall sid :: sid in d.sessionWaiters && t in d.sessionWaiters[sid] ==> WaitsFor(d, sid, t);
      case _ =>
    }
  }

  /** A call is resolved or rejected once: what it settled with never changes. */
  lemma {:induction false} SettledStaysSettled(ops: seq<Op>, more: seq<Op>, t: Ticket)
    requires t in Run(ops).promises
    ensures t in Run(ops + more).promises && Run(ops + more).promises[t] == Run(ops).promises[t]
  {
    if more == [] {
      assert ops + more == ops;
    } else {
      var front, last := more[..|more| - 1], more[|more| - 1];
      SettledStaysSettled(ops, front, t);
      RunFollows(ops + front);
      OpKeepsSettled(Run(ops + front), Past(ops + front), last, t);
      assert (ops + more)[..|ops + more| - 1] == ops + front;
    }
  }

  /** Clearing a session rejects its waiting calls, and a failure of the transport every waiting call. */
  lemma WaitingCallsAreRejected(ops: seq<Op>, op: Op, t: Ticket)
    requires (op.ClearSessionState? && WaitsFor(Run(ops), op.sessionId, t)) || (op.FailAll? && Waits(Run(ops), t))
    ensures t in Run(ops + [op]).promises && Run(ops + [op]).promises[t] == None
    ensures !Waits(Run(ops + [op]), t)
  {
    var d := Run(ops);
    assert (ops + [op])[..|ops|] == ops;
    if op.FailAll? && t !in d.auditWaiters {
      var sid :| WaitsFor(d, sid, t);
      assert t in WaitingBut(d.sessionWaiters, {});
    }
    RunFollows(ops + [op]);
    if Waits(Run(ops + [op]), t) {
      WaitingIsUnsettled(Run(ops + [op]), Past(ops + [op]), t);
    }
  }
}
