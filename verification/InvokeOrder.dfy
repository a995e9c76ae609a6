/** Order in the async invoke protocol: requests are handled, and jobs started, in the order they came. */
module InvokeOrder {
  import opened Sequences
  import opened Envelopes
  import opened AsyncInvoke

  // -------------------------------------------------------------------------
  // Requests
  // -------------------------------------------------------------------------

  /** The main loop is done with the request at the head of its input. */
  predicate HandlesRequest(step: Step) {
    Concludes(step) || step == SubmitJob(true)
  }

  /** The requests the main loop has finished with, oldest first. */
  ghost function Handled(s: System, steps: seq<Step>): seq<Request>
    requires Legal(s, steps)
    decreases |steps|
  {
    if steps == [] then []
    else (if HandlesRequest(steps[0]) then [s.stdin[0]] else []) + Handled(Apply(s, steps[0]), steps[1..])
  }

  lemma {:induction false} HandledFrom(s: System, steps: seq<Step>)
    requires Legal(s, steps)
    ensures s.stdin + IssuedBy(steps) == Handled(s, steps) + Run(s, steps).stdin
    decreases |steps|
  {
    if steps == [] {
      assert s.stdin + [] == [] + s.stdin;
    } else {
      var next := Apply(s, steps[0]);
      HandledFrom(next, steps[1..]);
      StepMovesRequest(s, steps[0], IssuedBy(steps[1..]));
      Regroup(if HandlesRequest(steps[0]) then [s.stdin[0]] else [], Handled(next, steps[1..]), Run(s, steps).stdin);
    }
  }

  lemma StepMovesRequest(s: System, step: Step, later: seq<Request>)
    requires Enabled(s, step)
    ensures s.stdin + ((if step.Issue? then [step.request] else []) + later)
         == (if HandlesRequest(step) then [s.stdin[0]] else []) + (Apply(s, step).stdin + later)
  {
    if HandlesRequest(step) {
      assert s.stdin == [s.stdin[0]] + s.stdin[1..];
    }
  }

  /** In every run the main loop handles requests in the order they were written, and skips none. */
  lemma RequestsAreHandledInOrder(steps: seq<Step>)
    requires Legal(START, steps)
    ensures IssuedBy(steps) == Handled(START, steps) + Run(START, steps).stdin
  {
    HandledFrom(START, steps);
    assert START.stdin + IssuedBy(steps) == IssuedBy(steps);
  }

  // -------------------------------------------------------------------------
  // Jobs
  // -------------------------------------------------------------------------

  /** The queue of a pool, empty until the pool is there. */
  function QueueAt(pools: seq<Pool>, p: nat): seq<RequestId> {
    if p < |pools| then pools[p].queue else []
  }

  predicate QueuesIn(s: System, step: Step, p: nat) {
    step == SubmitJob(true) && p == |s.scheduler.pools| - 1
  }

  /** The jobs accepted into a pool, oldest first. */
  ghost function Queued(s: System, steps: seq<Step>, p: nat): seq<RequestId>
    requires Legal(s, steps)
    decreases |steps|
  {
    if steps == [] then []
    else (if QueuesIn(s, steps[0], p) then [s.stdin[0].id] else []) + Queued(Apply(s, steps[0]), steps[1..], p)
  }

  /** The jobs the workers of a pool have started, oldest first: each is the one its pool then runs last. */
  ghost function Started(s: System, steps: seq<Step>, p: nat): seq<RequestId>
    requires Legal(s, steps)
    decreases |steps|
  {
    if steps == [] then []
    else
      var next := Apply(s, steps[0]);
      (if steps[0] == TakeJob(p) then [next.scheduler.pools[p].running[|next.scheduler.pools[p].running| - 1]] else [])
      + Started(next, steps[1..], p)
  }

  lemma StepMovesJob(s: System, step: Step, p: nat, later: seq<RequestId>)
    requires Enabled(s, step)
    ensures
      var next := Apply(s, step).scheduler.pools;
      QueueAt(s.scheduler.pools, p) + ((if QueuesIn(s, step, p) then [s.stdin[0].id] else []) + later)
      == (if step == TakeJob(p) then [next[p].running[|next[p].running| - 1]] else []) + (QueueAt(next, p) + later)
  {
    var queue, next := QueueAt(s.scheduler.pools, p), QueueAt(Apply(s, step).scheduler.pools, p);
    if step == TakeJob(p) {
      assert queue == [queue[0]] + next;
    } else if QueuesIn(s, step, p) {
      assert next == queue + [s.stdin[0].id];
    } else {
      assert next == queue;
    }
  }

  lemma {:induction false} StartedFrom(s: System, steps: seq<Step>, p: nat)
    requires Legal(s, steps)
    ensures QueueAt(s.scheduler.pools, p) + Queued(s, steps, p)
         == Started(s, steps, p) + QueueAt(Run(s, steps).scheduler.pools, p)
    decreases |steps|
  {
    if steps == [] {
      assert QueueAt(s.scheduler.pools, p) + [] == [] + QueueAt(s.scheduler.pools, p);
    } else {
      var next := Apply(s, steps[0]);
      StartedFrom(next, steps[1..], p);
      StepMovesJob(s, steps[0], p, Queued(next, steps[1..], p));
      Regroup(if steps[0] == TakeJob(p) then [next.scheduler.pools[p].running[|next.scheduler.pools[p].running| - 1]]
              else [], Started(next, steps[1..], p), QueueAt(Run(s, steps).scheduler.pools, p));
    }
  }

  /** In every run each pool, replaced or not, starts its jobs in the order they were accepted into it. */
  lemma JobsStartInOrder(steps: seq<Step>, p: nat)
    requires Legal(START, steps)
    ensures Queued(START, steps, p) == Started(START, steps, p) + QueueAt(Run(START, steps).scheduler.pools, p)
  {
    StartedFrom(START, steps, p);
    assert [] + Queued(START, steps, p) == Queued(START, steps, p);
  }
}
