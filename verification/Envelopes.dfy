/** The lines the kernel daemon and its client exchange. */
module Envelopes {
  import opened Wrappers
  import opened CanonicalJson

  type RequestId = string

  datatype SchedulerPolicy = SchedulerPolicy(asyncPoolThreads: Option<nat>, queueCap: Option<nat>)

  datatype RequestKind =
    | PolicySet(scheduler: Option<SchedulerPolicy>)
    | Invoke
    | OtherMethod

  datatype Request = Request(id: RequestId, kind: RequestKind)

  datatype Reply = Success(result: Value) | Failure(code: string, message: string)

  datatype Line = Response(id: RequestId, reply: Reply) | Audit(entry: Value)

  function Member(v: Value, key: string): Option<Value> {
    if v.Object? then Lookup(v.fields, key) else None
  }

  function Lookup(fields: seq<Entry<Value>>, key: string): Option<Value> {
    if fields == [] then None
    else if fields[0].key == key then Some(fields[0].value)
    else Lookup(fields[1..], key)
  }

  const ACCEPTED: Value := Object([Entry("accepted", Bool(true)), Entry("async", Bool(true))])

  /** A successful reply whose result says `accepted` and `async`: the real reply comes later. */
  predicate IsAcceptedMarker(reply: Reply) {
    reply.Success?
    && Member(reply.result, "accepted") == Some(Bool(true))
    && Member(reply.result, "async") == Some(Bool(true))
  }

  /** The first member of this name is `true`. */
  ghost predicate Says(v: Value, key: string) {
    v.Object? && exists i :: 0 <= i < |v.fields| && FirstIsTrue(v.fields, i, key)
  }

  ghost predicate FirstIsTrue(fields: seq<Entry<Value>>, i: nat, key: string) {
    i < |fields| && fields[i] == Entry(key, Bool(true)) && forall j :: 0 <= j < i ==> fields[j].key != key
  }

  /** The reply of an accepted invoke, said by its members. */
  ghost predicate SaysAcceptedAsync(reply: Reply) {
    reply.Success? && Says(reply.result, "accepted") && Says(reply.result, "async")
  }

  lemma {:induction false} LookupFindsFirst(fields: seq<Entry<Value>>, key: string)
    ensures Lookup(fields, key) == Some(Bool(true)) <==> exists i :: 0 <= i < |fields| && FirstIsTrue(fields, i, key)
  {
    if fields != [] {
      if fields[0].key == key {
        if fields[0].value == Bool(true) {
          assert FirstIsTrue(fields, 0, key);
        }
      } else {
        var rest := fields[1..];
        LookupFindsFirst(rest, key);
        if i :| 0 <= i < |rest| && FirstIsTrue(rest, i, key) {
          assert FirstIsTrue(fields, i + 1, key);
        }
        if i :| 0 <= i < |fields| && FirstIsTrue(fields, i, key) {
          assert forall j :: 0 <= j < i - 1 ==> rest[j] == fields[j + 1];
          assert FirstIsTrue(rest, i - 1, key);
        }
      }
    }
  }

  /** The marker is any successful object that says both, whatever else it says and in whatever order. */
  lemma MarkerByMembers(reply: Reply)
    ensures IsAcceptedMarker(reply) <==> SaysAcceptedAsync(reply)
  {
    if reply.Success? && reply.result.Object? {
      LookupFindsFirst(reply.result.fields, "accepted");
      LookupFindsFirst(reply.result.fields, "async");
    }
  }

  /** With distinct keys it is enough that both members are there. */
  lemma MarkerByDistinctMembers(fields: seq<Entry<Value>>)
    requires DistinctKeys(fields)
    ensures IsAcceptedMarker(Success(Object(fields)))
       <==> Entry("accepted", Bool(true)) in fields && Entry("async", Bool(true)) in fields
  {
    MarkerByMembers(Success(Object(fields)));
    MemberSays(fields, "accepted");
    MemberSays(fields, "async");
  }

  lemma MemberSays(fields: seq<Entry<Value>>, key: string)
    requires DistinctKeys(fields)
    ensures Says(Object(fields), key) <==> Entry(key, Bool(true)) in fields
  {
    if Entry(key, Bool(true)) in fields {
      var i :| 0 <= i < |fields| && fields[i] == Entry(key, Bool(true));
      assert FirstIsTrue(fields, i, key);
    }
  }
}
