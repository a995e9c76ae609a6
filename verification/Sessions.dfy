/** The kernel's sessions: quota'd event queues, closing, and the streams hosts see. */
module Sessions {
  import opened Wrappers
  import opened CanonicalJson
  import opened Sequences
  import opened Tombstones
  import Decimal

  const SESSION_EVENT_QUOTA: nat := 4096

  datatype SessionEvent =
    | Data(data: Value)
    | End
    | Error(message: string)
    | Event(name: string, payload: Option<Value>)
    | ResourceGrant(resource: string, payload: Option<Value>)
    | ResourceRelease(resource: string, payload: Option<Value>)

  datatype SessionState = SessionState(events: seq<SessionEvent>, isClosed: bool)

  predicate IsTerminal(e: SessionEvent) {
    e.End? || e.Error?
  }

  ghost predicate HasTerminal(events: seq<SessionEvent>) {
    exists i :: 0 <= i < |events| && IsTerminal(events[i])
  }

  /** What a host sees of these events: up to the first terminal one, an error being followed by an end. */
  function Cut(events: seq<SessionEvent>): seq<SessionEvent> {
    if events == [] then []
    else if events[0].Error? then [events[0], End]
    else if events[0].End? then [End]
    else [events[0]] + Cut(events[1..])
  }

  // -------------------------------------------------------------------------
  // The queue of one session
  // -------------------------------------------------------------------------

  method PushEventCapped(events: seq<SessionEvent>, event: SessionEvent)
    returns (queue: seq<SessionEvent>, ok: bool)
    ensures ok == (|events| < SESSION_EVENT_QUOTA)
    ensures queue == if ok then events + [event] else []
  {
    if |events| >= SESSION_EVENT_QUOTA {
      return [], false;
    }
    return events + [event], true;
  }

  method PushSessionEvent(session: SessionState, event: SessionEvent) returns (next: SessionState, ok: bool)
    ensures ok == (|session.events| < SESSION_EVENT_QUOTA)
    ensures next == if ok then session.(events := session.events + [event]) else SessionState([], true)
  {
    var queue;
    queue, ok := PushEventCapped(session.events, event);
    next := session.(events := queue);
    if !ok {
      next := next.(isClosed := true);
    }
  }

  /** A batch is appended whole, up to its first terminal event, or overflows and leaves nothing. */
  ghost function Appended(session: SessionState, events: seq<SessionEvent>): (SessionState, bool) {
    if |session.events| + |Cut(events)| <= 4096 then
      (SessionState(session.events + Cut(events), session.isClosed || HasTerminal(events)), true)
    else (SessionState([], true), false)
  }

  lemma NothingAppended(session: SessionState)
    requires |session.events| <= SESSION_EVENT_QUOTA
    ensures Appended(session, []) == (session, true)
  {
    assert session.events + [] == session.events;
  }

  /** A terminal first event ends the batch. */
  lemma AppendedTerminal(session: SessionState, events: seq<SessionEvent>)
    requires events != [] && IsTerminal(events[0])
    ensures Appended(session, events)
         == if |session.events| + |Cut(events)| <= SESSION_EVENT_QUOTA
            then (SessionState(session.events + Cut(events), true), true)
            else (SessionState([], true), false)
    ensures Cut(events) == if events[0].Error? then [events[0]] + [End] else [End]
  {
    assert HasTerminal(events);
  }

  /** Any other first event is queued, and the rest follows. */
  lemma AppendedNext(session: SessionState, events: seq<SessionEvent>)
    requires events != [] && !IsTerminal(events[0])
    ensures Appended(session, events)
         == if |session.events| >= SESSION_EVENT_QUOTA then (SessionState([], true), false)
            else Appended(session.(events := session.events + [events[0]]), events[1..])
  {
    var first, rest := events[0], events[1..];
    assert events == [first] + rest;
    TerminalLater(first, rest);
    assert session.events + [first] + Cut(rest) == session.events + Cut(events);
  }

  lemma TerminalLater(first: SessionEvent, rest: seq<SessionEvent>)
    requires !IsTerminal(first)
    ensures HasTerminal([first] + rest) <==> HasTerminal(rest)
  {
    var events := [first] + rest;
    if HasTerminal(events) {
      var k :| 0 <= k < |events| && IsTerminal(events[k]);
      assert IsTerminal(rest[k - 1]);
    }
    if HasTerminal(rest) {
      var k :| 0 <= k < |rest| && IsTerminal(rest[k]);
      assert IsTerminal(events[k + 1]);
    }
  }

  method AppendSessionEvents(session: SessionState, events: seq<SessionEvent>)
    returns (next: SessionState, ok: bool)
    requires |session.events| <= SESSION_EVENT_QUOTA
    ensures (next, ok) == Appended(session, events)
    ensures |next.events| <= SESSION_EVENT_QUOTA
  {
    next := session;
    ok := true;
    var i := 0;
    while i < |events|
      invariant i <= |events| && ok && |next.events| <= SESSION_EVENT_QUOTA
      invariant Appended(session, events) == Appended(next, events[i..])
    {
      var event := events[i];
      assert events[i..][0] == event && events[i..][1..] == events[i + 1..];
      if IsTerminal(event) {
        AppendedTerminal(next, events[i..]);
        assert next.events + [event] + [End] == next.events + ([event] + [End]);
      } else {
        AppendedNext(next, events[i..]);
      }
      match event {
        case Error(_) =>
          next, ok := PushSessionEvent(next, event);
          if !ok {
            return;
          }
          next, ok := PushSessionEvent(next, End);
          if !ok {
            return;
          }
          next := next.(isClosed := true);
          return;
        case End =>
          next, ok := PushSessionEvent(next, End);
          if !ok {
            return;
          }
          next := next.(isClosed := true);
          return;
        case _ =>
          next, ok := PushSessionEvent(next, event);
          if !ok {
            return;
          }
      }
      i := i + 1;
    }
    NothingAppended(next);
  }

  method FlushSessionEvents(session: SessionState) returns (next: SessionState, encoded: seq<SessionEvent>)
    ensures encoded == session.events
    ensures next == SessionState([], session.isClosed || End in session.events)
  {
    encoded := [];
    next := session;
    while next.events != []
      invariant encoded + next.events == session.events
      invariant next.isClosed == (session.isClosed || End in encoded)
      decreases |next.events|
    {
      var event := next.events[0];
      assert next.events == [event] + next.events[1..];
      next := next.(events := next.events[1..]);
      if event == End {
        next := next.(isClosed := true);
      }
      encoded := encoded + [event];
    }
  }

  // -------------------------------------------------------------------------
  // The session handlers
  // -------------------------------------------------------------------------

  /** What the plugin, and the checks in front of it, make of a request: a refusal or a batch of events. */
  datatype PluginOutcome = Refused(message: string) | Produced(events: seq<SessionEvent>)

  datatype SessionRequest =
    | OpenSession(outcome: PluginOutcome)
    | SendSession(sessionId: string, outcome: PluginOutcome)
    | CancelSession(sessionId: string, outcome: PluginOutcome)
    | CloseSession(sessionId: string)

  datatype SessionReply = Opened(sessionId: string) | Done | QuotaExceeded | Rejected(message: string)

  /** `tombstones` lists the closed ids still remembered, oldest first. */
  datatype Store = Store(sessions: map<string, SessionState>, tombstones: seq<string>, nextSessionId: nat)

  const NEW_STORE := Store(map[], [], 1)

  function SessionId(n: nat): string {
    "session-" + Decimal.Print(n)
  }

  function ClosedMessage(id: string): string {
    "session is closed: " + id
  }

  function NotFoundMessage(id: string): string {
    "session not found: " + id
  }

  /** The store, the reply, and the events sent after it. */
  type Handled = (Store, SessionReply, seq<SessionEvent>)

  /** Appends a batch to a session, then sends everything queued. */
  ghost function Deliver(s: Store, id: string, session: SessionState, events: seq<SessionEvent>, reply: SessionReply)
    : Handled
  {
    var (next, ok) := Appended(session, events);
    if ok then
      (s.(sessions := s.sessions[id := SessionState([], next.isClosed || End in next.events)]), reply, next.events)
    else (s.(sessions := s.sessions[id := next]), QuotaExceeded, [])
  }

  ghost function Operate(s: Store, id: string, outcome: PluginOutcome): Handled {
    if id in s.tombstones then (s, Rejected(ClosedMessage(id)), [])
    else if id !in s.sessions then (s, Rejected(NotFoundMessage(id)), [])
    else if s.sessions[id].isClosed then (s, Rejected(ClosedMessage(id)), [])
    else
      match outcome
      case Refused(message) => (s, Rejected(message), [])
      case Produced(events) => Deliver(s, id, s.sessions[id], events, Done)
  }

  ghost function Handle(s: Store, r: SessionRequest): Handled {
    match r
    case OpenSession(Refused(message)) => (s, Rejected(message), [])
    case OpenSession(Produced(events)) =>
      var id := SessionId(s.nextSessionId);
      Deliver(s.(nextSessionId := s.nextSessionId + 1), id, SessionState([], false), events, Opened(id))
    case SendSession(id, outcome) => Operate(s, id, outcome)
    case CancelSession(id, outcome) => Operate(s, id, outcome)
    case CloseSession(id) =>
      if id in s.tombstones then (s, Done, [])
      else (s.(sessions := s.sessions - {id}, tombstones := Entomb(s.tombstones, id)), Done, [])
  }

  class SessionKernel {
    var sessions: map<string, SessionState>
    const closedSessions: ClosedSessionTombstones
    var nextSessionId: nat

    ghost predicate Valid()
      reads this, closedSessions
    {
      closedSessions.Valid() && forall id :: id in sessions ==> |sessions[id].events| <= SESSION_EVENT_QUOTA
    }

    ghost function State(): Store
      reads this, closedSessions
    {
      Store(sessions, closedSessions.ring, nextSessionId)
    }

    constructor ()
      ensures Valid() && State() == NEW_STORE && fresh(closedSessions)
    {
      sessions, nextSessionId := map[], 1;
      closedSessions := new ClosedSessionTombstones();
    }

    method HandleOpenSession(outcome: PluginOutcome) returns (reply: SessionReply, sent: seq<SessionEvent>)
      requires Valid()
      modifies this
      ensures Valid()
      ensures (State(), reply, sent) == Handle(old(State()), OpenSession(outcome))
    {
      sent := [];
      if outcome.Refused? {
        reply := Rejected(outcome.message);
        return;
      }
      var id := SessionId(nextSessionId);
      nextSessionId := nextSessionId + 1;
      reply, sent := AppendAndFlush(id, SessionState([], false), outcome.events, Opened(id));
    }

    method Flush(id: string) returns (sent: seq<SessionEvent>)
      requires id in sessions
      modifies this`sessions
      ensures sent == old(sessions)[id].events
      ensures sessions == old(sessions)[id := SessionState([], old(sessions)[id].isClosed || End in sent)]
    {
      var next;
      next, sent := FlushSessionEvents(sessions[id]);
      sessions := sessions[id := next];
    }

    /** `session.send` and `session.cancel`: they differ only in the checks and the call that give `outcome`. */
    method HandleSessionOperation(id: string, outcome: PluginOutcome)
      returns (reply: SessionReply, sent: seq<SessionEvent>)
      requires Valid()
      modifies this
      ensures Valid()
      ensures (State(), reply, sent) == Operate(old(State()), id, outcome)
    {
      sent := [];
      var closed := closedSessions.Contains(id);
      if closed {
        reply := Rejected(ClosedMessage(id));
        return;
      }
      if id !in sessions {
        reply := Rejected(NotFoundMessage(id));
        return;
      }
      if sessions[id].isClosed {
        reply := Rejected(ClosedMessage(id));
        return;
      }
      if outcome.Refused? {
        reply := Rejected(outcome.message);
        return;
      }
      reply, sent := AppendAndFlush(id, sessions[id], outcome.events, Done);
    }

    /** Queues a batch on a session and, unless it overflows, sends everything queued. */
    method AppendAndFlush(id: string, session: SessionState, events: seq<SessionEvent>, done: SessionReply)
      returns (reply: SessionReply, sent: seq<SessionEvent>)
      requires Valid() && |session.events| <= SESSION_EVENT_QUOTA
      modifies this`sessions
      ensures Valid()
      ensures (State(), reply, sent) == Deliver(old(State()), id, session, events, done)
    {
      sent := [];
      var appended, ok := AppendSessionEvents(session, events);
      sessions := sessions[id := appended];
      if !ok {
        return QuotaExceeded, [];
      }
      reply := done;
      sent := Flush(id);
      assert sessions == old(sessions)[id := sessions[id]];
    }

    method HandleSessionClose(id: string) returns (reply: SessionReply)
      requires Valid()
      modifies this, closedSessions
      ensures Valid()
      ensures (State(), reply, []) == Handle(old(State()), CloseSession(id))
    {
      var closed := closedSessions.Contains(id);
      if closed {
        return Done;
      }
      sessions := sessions - {id};
      closedSessions.Insert(id);
      return Done;
    }
  }

  // -------------------------------------------------------------------------
  // The stream of one session over whole runs
  // -------------------------------------------------------------------------

  ghost function Run(s: Store, rs: seq<SessionRequest>): Store {
    if rs == [] then s else Handle(Run(s, rs[..|rs| - 1]), rs[|rs| - 1]).0
  }

  /** The session a request is about; an open request is about the id it would be given. */
  function Target(s: Store, r: SessionRequest): string {
    if r.OpenSession? then SessionId(s.nextSessionId) else r.sessionId
  }

  /** Every event sent for this session, in order. */
  ghost function Sent(rs: seq<SessionRequest>, id: string): seq<SessionEvent> {
    if rs == [] then []
    else
      var s, r := Run(NEW_STORE, rs[..|rs| - 1]), rs[|rs| - 1];
      Sent(rs[..|rs| - 1], id) + (if Target(s, r) == id then Handle(s, r).2 else [])
  }

  ghost predicate Served(reply: SessionReply, r: SessionRequest) {
    reply.Opened? || (reply.Done? && !r.CloseSession?)
  }

  /** Every event the plugin gave for this session, in order, in the batches that did not overflow. */
  ghost function Given(rs: seq<SessionRequest>, id: string): seq<SessionEvent> {
    if rs == [] then []
    else
      var s, r := Run(NEW_STORE, rs[..|rs| - 1]), rs[|rs| - 1];
      Given(rs[..|rs| - 1], id) +
        (if Target(s, r) == id && Served(Handle(s, r).1, r) then r.outcome.events else [])
  }

  predicate IssuedBy(s: Store, id: string) {
    exists n | 0 <= n < s.nextSessionId :: id == SessionId(n)
  }

  lemma SessionIdInjective(m: nat, n: nat)
    requires SessionId(m) == SessionId(n)
    ensures m == n
  {
    assert SessionId(m)[8..] == Decimal.Print(m) && SessionId(n)[8..] == Decimal.Print(n);
    Decimal.PrintInjective(m, n);
  }

  lemma FreshId(s: Store)
    ensures !IssuedBy(s, SessionId(s.nextSessionId))
  {
    forall n | 0 <= n < s.nextSessionId ensures SessionId(s.nextSessionId) != SessionId(n) {
      if SessionId(s.nextSessionId) == SessionId(n) {
        SessionIdInjective(s.nextSessionId, n);
      }
    }
  }

  lemma {:induction false} CutConcat(a: seq<SessionEvent>, b: seq<SessionEvent>)
    ensures Cut(a + b) == if HasTerminal(a) then Cut(a) else Cut(a) + Cut(b)
    ensures !HasTerminal(a) ==> Cut(a) == a
  {
    if a == [] {
      assert a + b == b;
    } else {
      CutConcat(a[1..], b);
      assert (a + b)[1..] == a[1..] + b;
      assert a == [a[0]] + a[1..];
      if !IsTerminal(a[0]) {
        TerminalLater(a[0], a[1..]);
      }
    }
  }

  lemma ConcatTerminal(a: seq<SessionEvent>, b: seq<SessionEvent>)
    ensures HasTerminal(a + b) <==> HasTerminal(a) || HasTerminal(b)
  {
    if HasTerminal(a) {
      var k :| 0 <= k < |a| && IsTerminal(a[k]);
      assert IsTerminal((a + b)[k]);
    }
    if HasTerminal(b) {
      var k :| 0 <= k < |b| && IsTerminal(b[k]);
      assert IsTerminal((a + b)[|a| + k]);
    }
  }

  /** The grammar of a stream: events that are not terminal, then nothing, an end, or an error and an end. */
  ghost predicate Grammar(stream: seq<SessionEvent>) {
    exists n :: 0 <= n <= |stream| && GrammarAt(stream, n)
  }

  ghost predicate GrammarAt(stream: seq<SessionEvent>, n: nat) {
    n <= |stream| && !HasTerminal(stream[..n])
    && (stream[n..] == [] || stream[n..] == [End] || (|stream| == n + 2 && stream[n].Error? && stream[n + 1].End?))
  }

  lemma GrammarLater(first: SessionEvent, rest: seq<SessionEvent>, m: nat)
    requires !IsTerminal(first) && GrammarAt(rest, m)
    ensures GrammarAt([first] + rest, m + 1)
  {
    var stream := [first] + rest;
    TerminalLater(first, rest[..m]);
    assert stream[..m + 1] == [first] + rest[..m] && stream[m + 1..] == rest[m..];
  }

  lemma {:induction false} CutFollowsGrammar(events: seq<SessionEvent>) returns (n: nat)
    ensures GrammarAt(Cut(events), n)
    ensures n < |Cut(events)| <==> HasTerminal(events)
  {
    if events == [] || IsTerminal(events[0]) {
      n := 0;
      assert Cut(events)[..0] == [];
      if events != [] {
        assert HasTerminal(events);
      }
    } else {
      var m := CutFollowsGrammar(events[1..]);
      n := m + 1;
      GrammarLater(events[0], Cut(events[1..]), m);
      TerminalLater(events[0], events[1..]);
      assert [events[0]] + events[1..] == events;
    }
  }

  predicate FirstTerminal(events: seq<SessionEvent>, k: nat) {
    k < |events| && (events[k].End? || events[k].Error?)
    && forall j :: 0 <= j < k ==> !events[j].End? && !events[j].Error?
  }

  /** All that was given, or all up to the first end, or up to the first error and then an end. */
  ghost predicate UpToFirstTerminal(sent: seq<SessionEvent>, given: seq<SessionEvent>) {
    ((forall j :: 0 <= j < |given| ==> !given[j].End? && !given[j].Error?) && sent == given)
    || (exists k :: 0 <= k < |given| && StopsAt(sent, given, k))
  }

  ghost predicate StopsAt(sent: seq<SessionEvent>, given: seq<SessionEvent>, k: nat) {
    FirstTerminal(given, k) && sent == given[..k + 1] + if given[k].Error? then [End] else []
  }

  lemma StopsLater(first: SessionEvent, rest: seq<SessionEvent>, sent: seq<SessionEvent>, k: nat)
    requires !IsTerminal(first) && StopsAt(sent, rest, k)
    ensures StopsAt([first] + sent, [first] + rest, k + 1)
  {
    var given := [first] + rest;
    assert forall j :: 0 < j < |given| ==> given[j] == rest[j - 1];
    assert given[..k + 2] == [first] + rest[..k + 1];
  }

  lemma {:induction false} CutIsUpToFirstTerminal(events: seq<SessionEvent>)
    ensures UpToFirstTerminal(Cut(events), events)
  {
    if events == [] {
    } else if IsTerminal(events[0]) {
      assert events[..1] == [events[0]];
      assert StopsAt(Cut(events), events, 0);
    } else {
      var rest := events[1..];
      CutIsUpToFirstTerminal(rest);
      assert events == [events[0]] + rest;
      if k :| 0 <= k < |rest| && StopsAt(Cut(rest), rest, k) {
        StopsLater(events[0], rest, Cut(rest), k);
      }
    }
  }

  /** How far a session's stream has got. */
  ghost predicate StreamInv(s: Store, id: string, sent: seq<SessionEvent>, given: seq<SessionEvent>) {
    && sent == Cut(given)
    && (id in s.sessions ==> s.sessions[id].events == [] && IssuedBy(s, id))
    && (id in s.sessions && !s.sessions[id].isClosed ==> !HasTerminal(given))
    && (!IssuedBy(s, id) ==> given == [])
  }

  lemma DeliverKeepsStream(s: Store, id: string, session: SessionState, events: seq<SessionEvent>,
                           reply: SessionReply, given: seq<SessionEvent>)
    requires session == SessionState([], false) && !HasTerminal(given) && IssuedBy(s, id) && !reply.QuotaExceeded?
    ensures
      var (next, answer, sent) := Deliver(s, id, session, events, reply);
      StreamInv(next, id, Cut(given) + sent, if answer == reply then given + events else given)
  {
    CutConcat(given, events);
    ConcatTerminal(given, events);
    var (next, answer, sent) := Deliver(s, id, session, events, reply);
    assert session.events + Cut(events) == Cut(events);
    assert Cut(given) + [] == Cut(given);
    IssuedOnly(s, next);
  }

  lemma IssuedOnly(s: Store, t: Store)
    requires s.nextSessionId <= t.nextSessionId
    ensures forall id :: IssuedBy(s, id) ==> IssuedBy(t, id)
  {
  }

  lemma HandleKeepsStream(s: Store, r: SessionRequest, id: string, sent: seq<SessionEvent>, given: seq<SessionEvent>)
    requires StreamInv(s, id, sent, given)
    ensures
      var (next, reply, emitted) := Handle(s, r);
      var batch := if Target(s, r) == id && Served(reply, r) then r.outcome.events else [];
      StreamInv(next, id, sent + (if Target(s, r) == id then emitted else []), given + batch)
  {
    assert sent + [] == sent && given + [] == given;
    if Target(s, r) != id {
      OtherKeepsStream(s, r, id, sent, given);
    } else {
      match r {
        case OpenSession(Produced(events)) => OpenKeepsStream(s, id, events, sent, given);
        case SendSession(_, Produced(events)) => OperateKeepsStream(s, id, events, sent, given);
        case CancelSession(_, Produced(events)) => OperateKeepsStream(s, id, events, sent, given);
        case _ =>
      }
    }
  }

  lemma OtherKeepsStream(s: Store, r: SessionRequest, id: string, sent: seq<SessionEvent>, given: seq<SessionEvent>)
    requires StreamInv(s, id, sent, given) && Target(s, r) != id
    ensures StreamInv(Handle(s, r).0, id, sent, given)
  {
    IssuedOnly(s, Handle(s, r).0);
    if r.OpenSession? {
      OpenIssuesOne(s, id);
    }
  }

  /** Counting one session further makes one more id an issued one. */
  lemma OpenIssuesOne(s: Store, id: string)
    requires id != SessionId(s.nextSessionId)
    ensures IssuedBy(s.(nextSessionId := s.nextSessionId + 1), id) ==> IssuedBy(s, id)
  {
  }

  lemma OpenKeepsStream(s: Store, id: string, events: seq<SessionEvent>,
                        sent: seq<SessionEvent>, given: seq<SessionEvent>)
    requires StreamInv(s, id, sent, given) && id == SessionId(s.nextSessionId)
    ensures
      var (next, reply, emitted) := Handle(s, OpenSession(Produced(events)));
      StreamInv(next, id, sent + emitted, if reply.Opened? then given + events else given)
  {
    FreshId(s);
    var counted := s.(nextSessionId := s.nextSessionId + 1);
    assert IssuedBy(counted, id);
    DeliverKeepsStream(counted, id, SessionState([], false), events, Opened(id), given);
  }

  lemma OperateKeepsStream(s: Store, id: string, events: seq<SessionEvent>,
                           sent: seq<SessionEvent>, given: seq<SessionEvent>)
    requires StreamInv(s, id, sent, given)
    ensures
      var (next, reply, emitted) := Operate(s, id, Produced(events));
      StreamInv(next, id, sent + emitted, if reply.Done? then given + events else given)
  {
    assert sent + [] == sent;
    if id !in s.tombstones && id in s.sessions && !s.sessions[id].isClosed {
      DeliverKeepsStream(s, id, s.sessions[id], events, Done, given);
    }
  }

  lemma {:induction false} RunKeepsStream(rs: seq<SessionRequest>, id: string)
    ensures StreamInv(Run(NEW_STORE, rs), id, Sent(rs, id), Given(rs, id))
  {
    if rs != [] {
      RunKeepsStream(rs[..|rs| - 1], id);
      HandleKeepsStream(Run(NEW_STORE, rs[..|rs| - 1]), rs[|rs| - 1], id,
                        Sent(rs[..|rs| - 1], id), Given(rs[..|rs| - 1], id));
    }
  }

  /**
   * In every run the events sent for a session are the plugin's, in order, up
   * to the first terminal one: events that are not terminal, then at most one
   * tail of an end, or an error and an end. Between requests its queue is empty.
   */
  lemma StreamOverRuns(rs: seq<SessionRequest>, id: string)
    ensures UpToFirstTerminal(Sent(rs, id), Given(rs, id)) && Grammar(Sent(rs, id))
    ensures id in Run(NEW_STORE, rs).sessions ==> Run(NEW_STORE, rs).sessions[id].events == []
  {
    RunKeepsStream(rs, id);
    CutIsUpToFirstTerminal(Given(rs, id));
    var n := CutFollowsGrammar(Given(rs, id));
  }

  lemma {:induction false} SentGrows(rs: seq<SessionRequest>, more: seq<SessionRequest>, id: string)
    ensures Sent(rs, id) <= Sent(rs + more, id)
  {
    if more == [] {
      assert rs + more == rs;
    } else {
      SentGrows(rs, more[..|more| - 1], id);
      assert (rs + more)[..|rs + more| - 1] == rs + more[..|more| - 1];
    }
  }

  lemma EndIsLast(stream: seq<SessionEvent>, n: nat, i: nat)
    requires GrammarAt(stream, n) && i < |stream| && stream[i] == End
    ensures i == |stream| - 1
  {
    if i < n {
      assert IsTerminal(stream[..n][i]);
      assert false;
    }
    assert stream[n..][i - n] == End;
  }

  /** After an end nothing is sent for the session, whatever the host asks for. */
  lemma NothingAfterEnd(rs: seq<SessionRequest>, more: seq<SessionRequest>, id: string)
    requires End in Sent(rs, id)
    ensures Sent(rs + more, id) == Sent(rs, id)
  {
    SentGrows(rs, more, id);
    StreamOverRuns(rs + more, id);
    var i :| 0 <= i < |Sent(rs, id)| && Sent(rs, id)[i] == End;
    var n :| 0 <= n <= |Sent(rs + more, id)| && GrammarAt(Sent(rs + more, id), n);
    EndIsLast(Sent(rs + more, id), n, i);
  }

  // -------------------------------------------------------------------------
  // The id a host is given
  // -------------------------------------------------------------------------

  /** How many sessions the plugin has opened. */
  function Opens(rs: seq<SessionRequest>): nat {
    if rs == [] then 0
    else
      var last := rs[|rs| - 1];
      Opens(rs[..|rs| - 1]) + if last.OpenSession? && last.outcome.Produced? then 1 else 0
  }

  lemma {:induction false} NextIdCountsOpens(rs: seq<SessionRequest>)
    ensures Run(NEW_STORE, rs).nextSessionId == 1 + Opens(rs)
  {
    if rs != [] {
      NextIdCountsOpens(rs[..|rs| - 1]);
    }
  }

  lemma NotIssuedNotSent(rs: seq<SessionRequest>, id: string)
    requires !IssuedBy(Run(NEW_STORE, rs), id)
    ensures Sent(rs, id) == [] && id !in Run(NEW_STORE, rs).sessions && Given(rs, id) == []
  {
    RunKeepsStream(rs, id);
  }

  /**
   * The id an open answers with is the number of sessions opened so far, was
   * never issued before and is now, names the one session this request added,
   * and is the one the events sent with the answer belong to.
   */
  lemma OpenAnswersItsSession(rs: seq<SessionRequest>, outcome: PluginOutcome, x: string)
    requires Handle(Run(NEW_STORE, rs), OpenSession(outcome)).1 == Opened(x)
    ensures
      var s, t := Run(NEW_STORE, rs), Run(NEW_STORE, rs + [OpenSession(outcome)]);
      && x == "session-" + Decimal.Print(1 + Opens(rs))
      && !IssuedBy(s, x) && IssuedBy(t, x)
      && x !in s.sessions && t.sessions.Keys == s.sessions.Keys + {x}
    ensures
      var all, sent := rs + [OpenSession(outcome)], Handle(Run(NEW_STORE, rs), OpenSession(outcome)).2;
      Sent(all, x) == sent && forall y :: y != x ==> Sent(all, y) == Sent(rs, y)
  {
    var s, all := Run(NEW_STORE, rs), rs + [OpenSession(outcome)];
    assert all[..|rs|] == rs;
    NextIdCountsOpens(rs);
    FreshId(s);
    NotIssuedNotSent(rs, x);
    assert Handle(s, OpenSession(outcome)).0.nextSessionId == s.nextSessionId + 1;
    assert Sent(all, x) == Sent(rs, x) + Handle(s, OpenSession(outcome)).2;
    forall y | y != x ensures Sent(all, y) == Sent(rs, y) {
      assert Sent(rs, y) + [] == Sent(rs, y);
    }
  }

  /** Some request about this session ended in a quota overflow. */
  ghost predicate Overflowed(rs: seq<SessionRequest>, x: string) {
    rs != []
    && var s, r := Run(NEW_STORE, rs[..|rs| - 1]), rs[|rs| - 1];
       Overflowed(rs[..|rs| - 1], x) || (Target(s, r) == x && Handle(s, r).1.QuotaExceeded?)
  }

  /** Some open was answered with this id. */
  ghost predicate OpenedAs(rs: seq<SessionRequest>, x: string) {
    rs != []
    && var s, r := Run(NEW_STORE, rs[..|rs| - 1]), rs[|rs| - 1];
       OpenedAs(rs[..|rs| - 1], x) || Handle(s, r).1 == Opened(x)
  }

  /** Where a session that was opened and never closed by the host stands. */
  ghost predicate LifeLaw(s: Store, rs: seq<SessionRequest>, x: string) {
    && (OpenedAs(rs, x) ==> x in s.sessions && IssuedBy(s, x))
    && (OpenedAs(rs, x) ==> (s.sessions[x].isClosed <==> HasTerminal(Given(rs, x)) || Overflowed(rs, x)))
    && (Overflowed(rs, x) ==> IssuedBy(s, x))
    && x !in s.tombstones
  }

  lemma {:induction false} RunKeepsLife(rs: seq<SessionRequest>, x: string)
    requires CloseSession(x) !in rs
    ensures LifeLaw(Run(NEW_STORE, rs), rs, x)
  {
    if rs != [] {
      var front, r := rs[..|rs| - 1], rs[|rs| - 1];
      assert rs == front + [r];
      RunKeepsLife(front, x);
      RunKeepsStream(front, x);
      if Target(Run(NEW_STORE, front), r) != x {
        OtherKeepsLife(Run(NEW_STORE, front), rs, r, x);
      } else if r.OpenSession? {
        OpenKeepsLife(Run(NEW_STORE, front), rs, r.outcome, x);
      } else {
        OperateKeepsLife(Run(NEW_STORE, front), rs, r, x);
      }
    }
  }

  lemma OtherKeepsLife(s: Store, rs: seq<SessionRequest>, r: SessionRequest, x: string)
    requires rs != [] && rs[|rs| - 1] == r && s == Run(NEW_STORE, rs[..|rs| - 1])
    requires LifeLaw(s, rs[..|rs| - 1], x) && Target(s, r) != x
    ensures LifeLaw(Handle(s, r).0, rs, x)
  {
    OtherLeavesSession(s, r, x);
    OtherLeavesHistory(rs, x);
  }

  lemma OtherLeavesSession(s: Store, r: SessionRequest, x: string)
    requires Target(s, r) != x && x !in s.tombstones
    ensures
      var t := Handle(s, r).0;
      && x !in t.tombstones && (IssuedBy(s, x) ==> IssuedBy(t, x))
      && (x in s.sessions <==> x in t.sessions) && (x in s.sessions ==> t.sessions[x] == s.sessions[x])
  {
    IssuedOnly(s, Handle(s, r).0);
    EntombAdds(s.tombstones, Target(s, r), x);
  }

  lemma OtherLeavesHistory(rs: seq<SessionRequest>, x: string)
    requires rs != [] && Target(Run(NEW_STORE, rs[..|rs| - 1]), rs[|rs| - 1]) != x
    ensures
      var front := rs[..|rs| - 1];
      && (OpenedAs(rs, x) <==> OpenedAs(front, x)) && (Overflowed(rs, x) <==> Overflowed(front, x))
      && Given(rs, x) == Given(front, x)
  {
    assert Given(rs[..|rs| - 1], x) + [] == Given(rs[..|rs| - 1], x);
  }

  lemma EntombAdds(tombstones: seq<string>, id: string, x: string)
    requires x !in tombstones && x != id
    ensures x !in Entomb(tombstones, id)
  {
  }

  lemma OpenKeepsLife(s: Store, rs: seq<SessionRequest>, outcome: PluginOutcome, x: string)
    requires rs != [] && rs[|rs| - 1] == OpenSession(outcome) && s == Run(NEW_STORE, rs[..|rs| - 1])
    requires LifeLaw(s, rs[..|rs| - 1], x) && x == SessionId(s.nextSessionId)
    ensures LifeLaw(Handle(s, OpenSession(outcome)).0, rs, x)
  {
    FreshId(s);
    NotIssuedNotSent(rs[..|rs| - 1], x);
    match outcome {
      case Refused(_) =>
      case Produced(events) =>
        assert [] + events == events && [] + Cut(events) == Cut(events);
        assert IssuedBy(Handle(s, OpenSession(outcome)).0, x);
        EndMeansTerminal(events);
    }
  }

  lemma OperateKeepsLife(s: Store, rs: seq<SessionRequest>, r: SessionRequest, x: string)
    requires rs != [] && rs[|rs| - 1] == r && s == Run(NEW_STORE, rs[..|rs| - 1])
    requires LifeLaw(s, rs[..|rs| - 1], x) && (r.SendSession? || r.CancelSession?) && r.sessionId == x
    requires x in s.sessions ==> s.sessions[x].events == [] && IssuedBy(s, x)
    ensures LifeLaw(Handle(s, r).0, rs, x)
  {
    var given := Given(rs[..|rs| - 1], x);
    assert given + [] == given;
    IssuedOnly(s, Handle(s, r).0);
    if r.outcome.Produced? {
      ConcatTerminal(given, r.outcome.events);
      EndMeansTerminal(r.outcome.events);
      assert [] + Cut(r.outcome.events) == Cut(r.outcome.events);
    }
  }

  /** An end among the events a host sees comes from a terminal one. */
  lemma {:induction false} EndMeansTerminal(events: seq<SessionEvent>)
    ensures End in Cut(events) <==> HasTerminal(events)
  {
    if events != [] {
      assert events == [events[0]] + events[1..];
      if IsTerminal(events[0]) {
        assert HasTerminal(events);
        assert Cut(events)[|Cut(events)| - 1] == End;
      } else {
        EndMeansTerminal(events[1..]);
        TerminalLater(events[0], events[1..]);
      }
    }
  }

  /**
   * For a session whose id an open has answered with and that the host never
   * closes: a send is refused exactly when the plugin has ended the session or
   * it overflowed its quota; any other send is served, or overflows it when the
   * batch holds more than 4096 events up to its first terminal one.
   */
  lemma SendIsServedUntilTheEnd(rs: seq<SessionRequest>, x: string, events: seq<SessionEvent>)
    requires OpenedAs(rs, x) && CloseSession(x) !in rs
    ensures
      var reply := Handle(Run(NEW_STORE, rs), SendSession(x, Produced(events))).1;
      var over := HasTerminal(Given(rs, x)) || Overflowed(rs, x);
      && (reply.Rejected? <==> over)
      && (!over ==> reply == if |Cut(events)| <= 4096 then Done else QuotaExceeded)
  {
    RunKeepsLife(rs, x);
    RunKeepsStream(rs, x);
  }

  // -------------------------------------------------------------------------
  // Closed stays closed
  // -------------------------------------------------------------------------

  ghost predicate ValidStore(s: Store) {
    Distinct(s.tombstones) && |s.tombstones| <= CLOSED_SESSION_TOMBSTONE_CAPACITY
  }

  ghost predicate FutureId(s: Store, id: string) {
    exists n :: n >= s.nextSessionId && id == SessionId(n)
  }

  /** Whatever the host does, no later send or cancel on this id succeeds. */
  ghost predicate StaysClosed(s: Store, id: string) {
    forall more, outcome :: Operate(Run(s, more), id, outcome).1.Rejected?
  }

  ghost predicate Shut(s: Store, id: string) {
    !FutureId(s, id) && (id in s.sessions ==> s.sessions[id].isClosed)
  }

  lemma {:induction false} RunKeepsShut(s: Store, more: seq<SessionRequest>, id: string)
    requires Shut(s, id)
    ensures Shut(Run(s, more), id)
  {
    if more != [] {
      RunKeepsShut(s, more[..|more| - 1], id);
      HandleKeepsShut(Run(s, more[..|more| - 1]), more[|more| - 1], id);
    }
  }

  lemma HandleKeepsShut(s: Store, r: SessionRequest, id: string)
    requires Shut(s, id)
    ensures Shut(Handle(s, r).0, id)
  {
    var t := Handle(s, r).0;
    assert s.nextSessionId <= t.nextSessionId;
    assert FutureId(t, id) ==> FutureId(s, id);
    assert FutureId(s, SessionId(s.nextSessionId));
  }

  lemma {:induction false} RunConcat(s: Store, a: seq<SessionRequest>, b: seq<SessionRequest>)
    ensures Run(s, a + b) == Run(Run(s, a), b)
  {
    if b == [] {
      assert a + b == a;
    } else {
      RunConcat(s, a, b[..|b| - 1]);
      assert (a + b)[..|a + b| - 1] == a + b[..|b| - 1];
    }
  }

  /** `n` ids of the lengths from `base` on. */
  function Fillers(base: nat, n: nat): (ids: seq<string>)
    ensures |ids| == n && forall i :: 0 <= i < n ==> |ids[i]| == base + i
  {
    if n == 0 then [] else Fillers(base, n - 1) + [Repeat('x', base + n - 1)]
  }

  function Longest(ids: seq<string>): (n: nat)
    ensures forall i :: 0 <= i < |ids| ==> |ids[i]| <= n
  {
    if ids == [] then 0
    else
      var n := Longest(ids[..|ids| - 1]);
      var m := |ids[|ids| - 1]|;
      assert forall i :: 0 <= i < |ids| - 1 ==> ids[i] == ids[..|ids| - 1][i];
      if n < m then m else n
  }

  lemma TooLong(ids: seq<string>, x: string)
    requires |x| > Longest(ids)
    ensures x !in ids
  {
  }

  ghost function Closings(ids: seq<string>): seq<SessionRequest> {
    if ids == [] then [] else Closings(ids[..|ids| - 1]) + [CloseSession(ids[|ids| - 1])]
  }

  lemma CloseNew(s: Store, all: seq<string>, last: string, id: string)
    requires s.tombstones == Last(all, CLOSED_SESSION_TOMBSTONE_CAPACITY) && last !in all && last != id
    ensures
      var t := Handle(s, CloseSession(last)).0;
      && t.tombstones == Last(all + [last], CLOSED_SESSION_TOMBSTONE_CAPACITY)
      && (id in s.sessions ==> id in t.sessions && t.sessions[id] == s.sessions[id])
  {
    assert last !in s.tombstones;
    LastAppend(all, last, CLOSED_SESSION_TOMBSTONE_CAPACITY);
  }

  lemma ClosingsSnoc(s: Store, front: seq<string>, last: string)
    ensures Run(s, Closings(front + [last])) == Handle(Run(s, Closings(front)), CloseSession(last)).0
  {
    var ids := front + [last];
    assert ids[..|front|] == front;
    assert Closings(ids)[..|Closings(ids)| - 1] == Closings(front);
  }

  lemma {:induction false} RunClosings(s: Store, ids: seq<string>, id: string)
    requires Distinct(ids) && id !in ids && |s.tombstones| <= CLOSED_SESSION_TOMBSTONE_CAPACITY
    requires forall x :: x in ids ==> x !in s.tombstones
    ensures
      var t := Run(s, Closings(ids));
      && t.tombstones == Last(s.tombstones + ids, CLOSED_SESSION_TOMBSTONE_CAPACITY)
      && (id in s.sessions ==> id in t.sessions && t.sessions[id] == s.sessions[id])
  {
    if ids == [] {
      assert s.tombstones + ids == s.tombstones;
    } else {
      var front, last := ids[..|ids| - 1], ids[|ids| - 1];
      assert ids == front + [last];
      RunClosings(s, front, id);
      ClosingsSnoc(s, front, last);
      assert s.tombstones + ids == s.tombstones + front + [last];
      assert last in ids && last !in front;
      CloseNew(Run(s, Closings(front)), s.tombstones + front, last, id);
    }
  }

  /** A full capacity of closes pushes a tombstone out. */
  lemma Evict(s: Store, id: string) returns (more: seq<SessionRequest>)
    requires ValidStore(s) && id in s.sessions
    ensures
      var t := Run(s, more);
      id !in t.tombstones && id in t.sessions && t.sessions[id] == s.sessions[id]
  {
    var base := Longest(s.tombstones + [id]) + 1;
    var ids := Fillers(base, CLOSED_SESSION_TOMBSTONE_CAPACITY);
    assert id in s.tombstones + [id];
    forall x | x in ids ensures x !in s.tombstones && x != id {
      TooLong(s.tombstones + [id], x);
      assert x in s.tombstones ==> x in s.tombstones + [id];
    }
    RunClosings(s, ids, id);
    assert Last(s.tombstones + ids, CLOSED_SESSION_TOMBSTONE_CAPACITY) == ids;
    more := Closings(ids);
  }

  /** Opening sessions until this id is issued. */
  lemma {:induction false} OpenUntil(s: Store, n: nat) returns (more: seq<SessionRequest>)
    requires n >= s.nextSessionId
    ensures
      var t := Run(s, more);
      && t.tombstones == s.tombstones && t.nextSessionId == n + 1
      && SessionId(n) in t.sessions && t.sessions[SessionId(n)] == SessionState([], false)
    decreases n
  {
    var front := [];
    if n > s.nextSessionId {
      front := OpenUntil(s, n - 1);
    }
    more := front + [OpenSession(Produced([]))];
    assert more[..|more| - 1] == front;
  }

  lemma StillWorks(s: Store, more: seq<SessionRequest>, id: string)
    requires
      var t := Run(s, more);
      id !in t.tombstones && id in t.sessions && t.sessions[id] == SessionState([], false)
    ensures !StaysClosed(s, id)
  {
    assert Appended(SessionState([], false), []) == (SessionState([], false), true) by {
      assert [] + Cut([]) == [];
    }
    assert Operate(Run(s, more), id, Produced([])).1 == Done;
  }

  /**
   * A closed id stays closed in every run, even after its tombstone is
   * evicted, exactly when the host closed an id that is not still to be
   * issued, and that was not tombstoned before it was issued.
   */
  lemma ClosedStaysClosed(s: Store, id: string)
    requires ValidStore(s) && forall x :: x in s.sessions ==> s.sessions[x].events == []
    ensures StaysClosed(Handle(s, CloseSession(id)).0, id) <==>
      !FutureId(s, id) && !(id in s.tombstones && id in s.sessions && !s.sessions[id].isClosed)
  {
    var t := Handle(s, CloseSession(id)).0;
    EntombKeeps(s.tombstones, id);
    if FutureId(s, id) {
      var n :| n >= s.nextSessionId && id == SessionId(n);
      var opens := OpenUntil(t, n);
      var evictions := Evict(Run(t, opens), id);
      RunConcat(t, opens, evictions);
      StillWorks(t, opens + evictions, id);
    } else if id in s.tombstones && id in s.sessions && !s.sessions[id].isClosed {
      var evictions := Evict(t, id);
      StillWorks(t, evictions, id);
    } else {
      assert Shut(t, id);
      forall more, outcome ensures Operate(Run(t, more), id, outcome).1.Rejected? {
        RunKeepsShut(t, more, id);
      }
    }
  }

  /** A host that closes only ids it was issued. */
  ghost predicate Honest(rs: seq<SessionRequest>) {
    forall i :: 0 <= i < |rs| && rs[i].CloseSession? ==> IssuedBy(Run(NEW_STORE, rs[..i]), rs[i].sessionId)
  }

  ghost predicate HonestStore(s: Store) {
    && ValidStore(s)
    && (forall x :: x in s.sessions ==> s.sessions[x].events == [] && x !in s.tombstones)
    && (forall x :: x in s.tombstones ==> !FutureId(s, x))
  }

  lemma IssuedIsNotFuture(s: Store, id: string)
    requires IssuedBy(s, id)
    ensures !FutureId(s, id)
  {
    var m :| 0 <= m < s.nextSessionId && id == SessionId(m);
    forall n | n >= s.nextSessionId ensures id != SessionId(n) {
      if id == SessionId(n) {
        SessionIdInjective(m, n);
      }
    }
  }

  lemma HandleKeepsHonest(s: Store, r: SessionRequest)
    requires HonestStore(s) && (r.CloseSession? ==> IssuedBy(s, r.sessionId))
    ensures HonestStore(Handle(s, r).0)
  {
    match r {
      case OpenSession(outcome) =>
        if outcome.Produced? {
          OpenKeepsHonest(s, outcome.events);
        } else {
          assert Handle(s, r).0 == s;
        }
      case CloseSession(id) => CloseKeepsHonest(s, id);
      case SendSession(id, outcome) =>
        OperateKeepsHonest(s, id, outcome);
        assert Handle(s, r) == Operate(s, id, outcome);
      case CancelSession(id, outcome) =>
        OperateKeepsHonest(s, id, outcome);
        assert Handle(s, r) == Operate(s, id, outcome);
    }
  }

  lemma OperateKeepsHonest(s: Store, id: string, outcome: PluginOutcome)
    requires HonestStore(s)
    ensures HonestStore(Operate(s, id, outcome).0)
  {
    var t := Operate(s, id, outcome).0;
    assert t.tombstones == s.tombstones && t.nextSessionId == s.nextSessionId;
    forall x | x in t.tombstones ensures !FutureId(t, x) {
      assert FutureId(t, x) ==> FutureId(s, x);
    }
  }

  lemma OpenKeepsHonest(s: Store, events: seq<SessionEvent>)
    requires HonestStore(s)
    ensures HonestStore(Handle(s, OpenSession(Produced(events))).0)
  {
    var t, id := Handle(s, OpenSession(Produced(events))).0, SessionId(s.nextSessionId);
    assert FutureId(s, id);
    forall x | x in t.tombstones ensures !FutureId(t, x) {
      assert FutureId(t, x) ==> FutureId(s, x);
    }
  }

  lemma CloseKeepsHonest(s: Store, id: string)
    requires HonestStore(s) && IssuedBy(s, id)
    ensures HonestStore(Handle(s, CloseSession(id)).0)
  {
    var t := Handle(s, CloseSession(id)).0;
    EntombKeeps(s.tombstones, id);
    IssuedIsNotFuture(s, id);
    forall x | x in t.tombstones ensures !FutureId(t, x) {
      assert x in s.tombstones || x == id;
      assert FutureId(t, x) ==> FutureId(s, x);
    }
    assert forall x :: x in t.sessions ==> x in s.sessions && (t == s || x != id);
  }

  lemma {:induction false} RunKeepsHonest(rs: seq<SessionRequest>)
    requires Honest(rs)
    ensures HonestStore(Run(NEW_STORE, rs))
  {
    if rs != [] {
      var front := rs[..|rs| - 1];
      assert forall i :: 0 <= i < |front| ==> front[i] == rs[i] && front[..i] == rs[..i];
      RunKeepsHonest(front);
      HandleKeepsHonest(Run(NEW_STORE, front), rs[|rs| - 1]);
    }
  }

  /** So a host that closes only issued ids never gets a closed id to work again. */
  lemma HonestHostsKeepClosed(rs: seq<SessionRequest>, id: string)
    requires Honest(rs) && IssuedBy(Run(NEW_STORE, rs), id)
    ensures StaysClosed(Handle(Run(NEW_STORE, rs), CloseSession(id)).0, id)
  {
    RunKeepsHonest(rs);
    IssuedIsNotFuture(Run(NEW_STORE, rs), id);
    ClosedStaysClosed(Run(NEW_STORE, rs), id);
  }

  // -------------------------------------------------------------------------
  // Silence without an end
  // -------------------------------------------------------------------------

  /** A session that is open under an id tombstoned before it was issued; a close does not touch it. */
  predicate Revived(s: Store, id: string) {
    id in s.tombstones && id in s.sessions && !s.sessions[id].isClosed
  }

  lemma {:induction false} ShutIsSilent(rs: seq<SessionRequest>, more: seq<SessionRequest>, id: string)
    requires Shut(Run(NEW_STORE, rs), id)
    ensures Sent(rs + more, id) == Sent(rs, id)
    decreases |more|
  {
    if more == [] {
      assert rs + more == rs;
    } else {
      ShutStep(rs, more[0], id);
      ShutIsSilent(rs + [more[0]], more[1..], id);
      MoveHead(rs, more);
    }
  }

  lemma ShutStep(rs: seq<SessionRequest>, r: SessionRequest, id: string)
    requires Shut(Run(NEW_STORE, rs), id)
    ensures Sent(rs + [r], id) == Sent(rs, id) && Shut(Run(NEW_STORE, rs + [r]), id)
  {
    assert (rs + [r])[..|rs|] == rs;
    HandleKeepsShut(Run(NEW_STORE, rs), r, id);
    if Target(Run(NEW_STORE, rs), r) == id {
      ShutSendsNothing(Run(NEW_STORE, rs), r, id);
    }
    assert Sent(rs, id) + [] == Sent(rs, id);
  }

  lemma ShutSendsNothing(s: Store, r: SessionRequest, id: string)
    requires Shut(s, id) && Target(s, r) == id
    ensures Handle(s, r).2 == []
  {
    assert FutureId(s, SessionId(s.nextSessionId));
  }

  /** A quota overflow and a close of an issued id both shut the session. */
  lemma OverflowAndCloseShut(rs: seq<SessionRequest>, r: SessionRequest)
    requires
      var s := Run(NEW_STORE, rs);
      Handle(s, r).1.QuotaExceeded? || (r.CloseSession? && IssuedBy(s, r.sessionId) && !Revived(s, r.sessionId))
    ensures Shut(Handle(Run(NEW_STORE, rs), r).0, Target(Run(NEW_STORE, rs), r))
  {
    var s := Run(NEW_STORE, rs);
    var t, id := Handle(s, r).0, Target(s, r);
    RunKeepsStream(rs, id);
    if r.OpenSession? {
      assert IssuedBy(t, id);
    } else {
      assert IssuedBy(s, id);
      IssuedOnly(s, t);
    }
    IssuedIsNotFuture(t, id);
  }

  /**
   * After a quota overflow, or a close of an issued id, nothing more is sent
   * for the session, although no end was.
   */
  lemma NothingAfterOverflowOrClose(rs: seq<SessionRequest>, r: SessionRequest, more: seq<SessionRequest>)
    requires
      var s := Run(NEW_STORE, rs);
      Handle(s, r).1.QuotaExceeded? || (r.CloseSession? && IssuedBy(s, r.sessionId) && !Revived(s, r.sessionId))
    ensures
      var id := Target(Run(NEW_STORE, rs), r);
      Sent(rs + [r] + more, id) == Sent(rs, id)
  {
    var id := Target(Run(NEW_STORE, rs), r);
    assert (rs + [r])[..|rs|] == rs;
    OverflowAndCloseShut(rs, r);
    ShutIsSilent(rs + [r], more, id);
  }
}
