/** The client's table of pending requests: what each response line, timer and failure does to it. */
module ClientRequests {
  import opened Envelopes
  import opened CanonicalJson

  datatype PendingRequest = PendingRequest(kind: RequestKind, awaitingAsyncResult: bool)

  datatype Outcome =
    | Replied(reply: Reply)
    | TimedOut
    | AsyncTimedOut
    | WriteFailed
    | TransportClosed

  /** One call of a request's `resolve` or `reject`. */
  datatype Settlement = Settlement(id: RequestId, outcome: Outcome)

  /** `settlements` lists every call of `resolve` and `reject` so far, oldest first. */
  datatype Client = Client(
    pending: map<RequestId, PendingRequest>,
    settlements: seq<Settlement>,
    closed: bool)

  const NEW_CLIENT := Client(map[], [], false)

  function Settle(c: Client, id: RequestId, outcome: Outcome): Client {
    c.(pending := c.pending - {id}, settlements := c.settlements + [Settlement(id, outcome)])
  }

  function Register(c: Client, id: RequestId, kind: RequestKind): Client {
    c.(pending := c.pending[id := PendingRequest(kind, false)])
  }

  function ReceiveResponse(c: Client, id: RequestId, reply: Reply): Client {
    if id !in c.pending then c
    else
      var p := c.pending[id];
      if p.kind.Invoke? && !p.awaitingAsyncResult && IsAcceptedMarker(reply) then
        c.(pending := c.pending[id := p.(awaitingAsyncResult := true)])
      else
        Settle(c, id, Replied(reply))
  }

  function ReceiveLine(c: Client, line: Line): Client {
    match line
    case Response(id, reply) => ReceiveResponse(c, id, reply)
    case Audit(_) => c
  }

  /** The timer of a pending request fires. */
  function Expire(c: Client, id: RequestId): Client
    requires id in c.pending
  {
    Settle(c, id, if c.pending[id].awaitingAsyncResult then AsyncTimedOut else TimedOut)
  }

  /** The write callback reports an error: `reject` is called even if the request has settled already. */
  function FailWrite(c: Client, id: RequestId): Client {
    Settle(c, id, WriteFailed)
  }

  /** Every pending request is rejected; `order` is the order the table yields them in. */
  function FailAll(c: Client, order: seq<RequestId>): Client
    decreases |order|
  {
    if order == [] then c.(closed := true)
    else FailAll(Settle(c, order[0], TransportClosed), order[1..])
  }

  ghost predicate ListsPending(c: Client, order: seq<RequestId>) {
    (forall i, j :: 0 <= i < j < |order| ==> order[i] != order[j])
    && (forall id :: id in order <==> id in c.pending)
  }

  /** The request is forgotten and its caller told `outcome`; nothing else changes. */
  ghost predicate SettledWith(c: Client, t: Client, id: RequestId, outcome: Outcome) {
    && t.pending == c.pending - {id} && t.closed == c.closed
    && t.settlements == c.settlements + [Settlement(id, outcome)]
  }

  /** The request goes on waiting, now for its async result. */
  ghost predicate KeptAwaiting(c: Client, t: Client, id: RequestId) {
    t == c.(pending := c.pending[id := PendingRequest(Invoke, true)])
  }

  /**
   * Every line for a pending request settles it with exactly what it says,
   * except the first one of an invoke that says `accepted` and `async`: that
   * one only changes what the request waits for.
   */
  lemma OnlyMarkerIsKept(c: Client, id: RequestId, reply: Reply)
    requires id in c.pending
    ensures
      var p, t := c.pending[id], ReceiveResponse(c, id, reply);
      if p == PendingRequest(Invoke, false) && SaysAcceptedAsync(reply)
      then KeptAwaiting(c, t, id) else SettledWith(c, t, id, Replied(reply))
    ensures reply.Failure? ==> SettledWith(c, ReceiveResponse(c, id, reply), id, Replied(reply))
  {
    MarkerByMembers(reply);
  }

  /** For an object with distinct keys: kept exactly when both members are `true`, among any others. */
  lemma MembersDecide(c: Client, id: RequestId, fields: seq<Entry<Value>>)
    requires id in c.pending && c.pending[id] == PendingRequest(Invoke, false) && DistinctKeys(fields)
    ensures
      var t := ReceiveResponse(c, id, Success(Object(fields)));
      if Entry("accepted", Bool(true)) in fields && Entry("async", Bool(true)) in fields
      then KeptAwaiting(c, t, id) else SettledWith(c, t, id, Replied(Success(Object(fields))))
  {
    MarkerByDistinctMembers(fields);
  }

  /** Which timer runs out tells whether the marker came first. */
  lemma TimerKnowsTheMarker(c: Client, id: RequestId, kind: RequestKind, reply: Reply)
    requires SaysAcceptedAsync(reply)
    ensures
      var asked := Register(c, id, kind);
      SettledWith(asked, Expire(asked, id), id, TimedOut)
    ensures
      var accepted := ReceiveResponse(Register(c, id, Invoke), id, reply);
      id in accepted.pending && SettledWith(accepted, Expire(accepted, id), id, AsyncTimedOut)
  {
    MarkerByMembers(reply);
  }

  /**
   * The two lines of an accepted invoke join whichever comes first, for an
   * envelope that does not itself look like the marker.
   */
  lemma JoinsInEitherOrder(c: Client, id: RequestId, marker: Reply, envelope: Reply)
    requires id in c.pending && c.pending[id] == PendingRequest(Invoke, false)
    requires SaysAcceptedAsync(marker)
    ensures
      var markerFirst := ReceiveResponse(ReceiveResponse(c, id, marker), id, envelope);
      markerFirst == Settle(c, id, Replied(envelope))
    ensures
      var envelopeFirst := ReceiveResponse(ReceiveResponse(c, id, envelope), id, marker);
      envelopeFirst == Settle(c, id, Replied(if SaysAcceptedAsync(envelope) then marker else envelope))
  {
    MarkerByMembers(marker);
    MarkerByMembers(envelope);
    var waiting := c.pending[id := PendingRequest(Invoke, true)];
    assert waiting - {id} == c.pending - {id};
  }
}
