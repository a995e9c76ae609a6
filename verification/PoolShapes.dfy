/** Which worker pools a policy allows: exactly how full its queue can be. */
module PoolShapes {
  import opened Wrappers
  import opened Sequences
  import opened Sums
  import opened Envelopes
  import opened AsyncInvoke
  import opened InvokeScheduler

  /** Every policy the host sends is this one. */
  ghost predicate UnderPolicy(requests: seq<Request>, policy: SchedulerPolicy) {
    forall i :: 0 <= i < |requests| && requests[i].kind.PolicySet? ==> requests[i].kind == PolicySet(Some(policy))
  }

  /** Pool `p` queues `q` jobs, runs `r` and delivers `d` envelopes. */
  predicate HasShape(s: System, p: nat, q: nat, r: nat, d: nat) {
    && p < |s.scheduler.pools|
    && |s.scheduler.pools[p].queue| == q && |s.scheduler.pools[p].running| == r
    && |s.scheduler.pools[p].delivering| == d
  }

  /**
   * A run of the program under one policy. The main loop dispatches only
   * invokes of extensions it has just found active, so no slot is refused for
   * an inactive one.
   */
  ghost predicate Route(steps: seq<Step>, s: System, policy: SchedulerPolicy) {
    Reaches(steps, s) && UnderPolicy(IssuedBy(steps), policy) && ReserveSlot(false) !in steps
  }

  ghost predicate Reachable(policy: SchedulerPolicy, q: nat, r: nat, d: nat) {
    exists steps, s, p :: Route(steps, s, policy) && HasShape(s, p, q, r, d)
  }

  predicate Allowed(policy: SchedulerPolicy, q: nat, r: nat, d: nat) {
    0 < AsyncCap(Some(policy)) && q + r <= AsyncCap(Some(policy)) && r + d <= PoolThreads(Some(policy))
  }

  // -------------------------------------------------------------------------
  // No other shape is reachable
  // -------------------------------------------------------------------------

  /** Nothing but this policy has been set or is on its way, and every pool is one of its pools. */
  ghost predicate Fixed(s: System, policy: SchedulerPolicy) {
    && (s.scheduler.policy.Some? ==> s.scheduler.policy.value == policy)
    && UnderPolicy(s.stdin, policy)
    && (forall p :: 0 <= p < |s.scheduler.pools| ==> s.scheduler.pools[p].threads == PoolThreads(Some(policy)))
    && (AsyncCap(Some(policy)) == 0 ==> s.scheduler.pools == [])
  }

  lemma StepKeepsFixed(s: System, step: Step, policy: SchedulerPolicy)
    requires Enabled(s, step) && SchedulerInv(s) && Fixed(s, policy)
    requires step.Issue? ==> UnderPolicy([step.request], policy)
    ensures Fixed(Apply(s, step), policy)
  {
    if step.Issue? {
      assert [step.request][0] == step.request;
    }
  }

  lemma UnderPolicyParts(a: seq<Request>, b: seq<Request>, policy: SchedulerPolicy)
    requires UnderPolicy(a + b, policy)
    ensures UnderPolicy(a, policy) && UnderPolicy(b, policy)
  {
    assert forall i :: 0 <= i < |a| ==> a[i] == (a + b)[i];
    assert forall i :: 0 <= i < |b| ==> b[i] == (a + b)[|a| + i];
  }

  lemma {:induction false} RunKeepsFixed(s: System, steps: seq<Step>, policy: SchedulerPolicy)
    requires Legal(s, steps) && SchedulerInv(s) && Fixed(s, policy) && UnderPolicy(IssuedBy(steps), policy)
    ensures SchedulerInv(Run(s, steps)) && Fixed(Run(s, steps), policy)
    decreases |steps|
  {
    if steps != [] {
      var first, rest := (if steps[0].Issue? then [steps[0].request] else []), IssuedBy(steps[1..]);
      UnderPolicyParts(first, rest, policy);
      StepKeepsFixed(s, steps[0], policy);
      KeepsSchedulerInv(s, steps[0]);
      RunKeepsFixed(Apply(s, steps[0]), steps[1..], policy);
    }
  }

  lemma ShapeFits(s: System, policy: SchedulerPolicy, p: nat, q: nat, r: nat, d: nat)
    requires SchedulerInv(s) && Fixed(s, policy) && s.highCap <= AsyncCap(Some(policy)) && HasShape(s, p, q, r, d)
    ensures Allowed(policy, q, r, d)
  {
    TotalOfMember(s.scheduler.pools, p, PoolLoad());
    assert PoolValid(s.scheduler.pools[p]);
  }

  lemma StartIsFixed(policy: SchedulerPolicy)
    ensures SchedulerInv(START) && Fixed(START, policy)
  {
  }

  lemma PolicyCaps(requests: seq<Request>, policy: SchedulerPolicy)
    requires UnderPolicy(requests, policy)
    ensures CapsWithin(requests, AsyncCap(Some(policy)))
  {
    CapIsItsFields(Some(policy), AsyncCap(Some(policy)));
  }

  lemma ReachedIsAllowed(steps: seq<Step>, s: System, policy: SchedulerPolicy, p: nat, q: nat, r: nat, d: nat)
    requires Route(steps, s, policy) && HasShape(s, p, q, r, d)
    ensures Allowed(policy, q, r, d)
  {
    StartIsFixed(policy);
    RunKeepsFixed(START, steps, policy);
    PolicyCaps(IssuedBy(steps), policy);
    HighCapWithin(START, steps, AsyncCap(Some(policy)));
    ShapeFits(s, policy, p, q, r, d);
  }

  // -------------------------------------------------------------------------
  // Every allowed shape is reachable
  // -------------------------------------------------------------------------

  lemma IssuedBySnoc(steps: seq<Step>, step: Step)
    ensures IssuedBy(steps + [step]) == IssuedBy(steps) + if step.Issue? then [step.request] else []
  {
    if steps == [] {
      assert [] + [step] == [step] && [step][1..] == [];
    } else {
      IssuedBySnoc(steps[1..], step);
      assert (steps + [step])[1..] == steps[1..] + [step];
    }
  }

  lemma Go(steps: seq<Step>, s: System, policy: SchedulerPolicy, step: Step) returns (longer: seq<Step>, next: System)
    requires Route(steps, s, policy) && Enabled(s, step) && step != ReserveSlot(false)
    requires step.Issue? && step.request.kind.PolicySet? ==> step.request.kind == PolicySet(Some(policy))
    ensures Route(longer, next, policy) && next == Apply(s, step)
  {
    longer, next := Then(steps, s, step);
    IssuedBySnoc(steps, step);
  }

  /** Between requests: one pool of the given shape, and every id issued so far is shorter than `n`. */
  ghost predicate Steady(s: System, n: nat, policy: SchedulerPolicy, q: nat, r: nat, d: nat) {
    && Ready(s, n, policy) && |s.scheduler.pools| == 1 && HasShape(s, 0, q, r, d)
    && s.scheduler.pools[0].threads == PoolThreads(Some(policy)) && s.scheduler.inFlight == q + r
  }

  ghost predicate Ready(s: System, n: nat, policy: SchedulerPolicy) {
    && s.phase == Idle && s.stdin == [] && s.output == [] && !s.client.closed
    && s.scheduler.policy == Some(policy) && forall id :: id in s.issued ==> |id| < n
  }

  /** An invoke under a new id stands at the head of the input, its in-flight load done. */
  ghost predicate Presented(s: System, n: nat, policy: SchedulerPolicy, scheduler: Scheduler) {
    && s.stdin == [Request(Repeat('x', n), Invoke)] && s.output == [] && s.phase == Loaded(scheduler.inFlight)
    && s.scheduler == scheduler && scheduler.policy == Some(policy) && !s.client.closed
    && forall id :: id in s.issued ==> |id| < n + 1
  }

  lemma Present(steps: seq<Step>, s: System, n: nat, policy: SchedulerPolicy)
    returns (longer: seq<Step>, next: System)
    requires Route(steps, s, policy) && Ready(s, n, policy) && 0 < AsyncCap(Some(policy))
    ensures Route(longer, next, policy) && Presented(next, n, policy, s.scheduler)
  {
    longer, next := Go(steps, s, policy, Issue(Request(Repeat('x', n), Invoke)));
    longer, next := Go(longer, next, policy, LoadInFlight);
  }

  /** The rest of an accepted dispatch, as steps of the state alone; the pool is made if there is none. */
  lemma Accept(s: System, n: nat, policy: SchedulerPolicy, scheduler: Scheduler)
    requires Presented(s, n, policy, scheduler) && 0 < AsyncCap(Some(policy))
    requires scheduler.inFlight < QueueCap(Some(policy))
    ensures Enabled(s, ReserveSlot(true))
    ensures Enabled(Apply(s, ReserveSlot(true)), SubmitJob(true))
    ensures
      var t, pooled := Apply(Apply(s, ReserveSlot(true)), SubmitJob(true)), EnsurePool(scheduler);
      && Enabled(t, WriteOutput) && t.stdin == [] && t.phase == Idle && t.client == s.client && t.issued == s.issued
      && t.scheduler == Enqueue(pooled.(inFlight := pooled.inFlight + 1), Repeat('x', n))
  {
  }

  lemma Dispatched(steps: seq<Step>, s: System, n: nat, policy: SchedulerPolicy)
    returns (longer: seq<Step>, next: System)
    requires Route(steps, s, policy) && Ready(s, n, policy) && s.scheduler.inFlight < AsyncCap(Some(policy))
    ensures Route(longer, next, policy) && Ready(next, n + 1, policy)
    ensures
      var pooled := EnsurePool(s.scheduler);
      next.scheduler == Enqueue(pooled.(inFlight := pooled.inFlight + 1), Repeat('x', n))
  {
    longer, next := Present(steps, s, n, policy);
    Accept(next, n, policy, s.scheduler);
    longer, next := Go(longer, next, policy, ReserveSlot(true));
    longer, next := Go(longer, next, policy, SubmitJob(true));
    longer, next := Go(longer, next, policy, WriteOutput);
  }

  lemma Submit(steps: seq<Step>, s: System, n: nat, policy: SchedulerPolicy, q: nat, r: nat, d: nat)
    returns (longer: seq<Step>, next: System)
    requires Route(steps, s, policy) && Steady(s, n, policy, q, r, d) && q + r < AsyncCap(Some(policy))
    ensures Route(longer, next, policy) && Steady(next, n + 1, policy, q + 1, r, d)
  {
    longer, next := Dispatched(steps, s, n, policy);
  }

  lemma Take(steps: seq<Step>, s: System, n: nat, policy: SchedulerPolicy, q: nat, r: nat, d: nat)
    returns (longer: seq<Step>, next: System)
    requires Route(steps, s, policy) && Steady(s, n, policy, q + 1, r, d) && r + d < PoolThreads(Some(policy))
    ensures Route(longer, next, policy) && Steady(next, n, policy, q, r + 1, d)
  {
    longer, next := Go(steps, s, policy, TakeJob(0));
  }

  lemma Finish(steps: seq<Step>, s: System, n: nat, policy: SchedulerPolicy, q: nat, r: nat, d: nat)
    returns (longer: seq<Step>, next: System)
    requires Route(steps, s, policy) && Steady(s, n, policy, q, r + 1, d)
    ensures Route(longer, next, policy) && Steady(next, n, policy, q, r, d + 1)
  {
    longer, next := Go(steps, s, policy, FinishJob(0, 0, PLAIN_REPLY));
  }

  lemma Deliver(steps: seq<Step>, s: System, n: nat, policy: SchedulerPolicy, q: nat, r: nat, d: nat)
    returns (longer: seq<Step>, next: System)
    requires Route(steps, s, policy) && Steady(s, n, policy, q, r, d + 1)
    ensures Route(longer, next, policy) && Steady(next, n, policy, q, r, d)
  {
    longer, next := Go(steps, s, policy, DeliverReply(0, 0));
  }

  lemma PolicyInForce(policy: SchedulerPolicy) returns (steps: seq<Step>, s: System)
    ensures Route(steps, s, policy) && Ready(s, 1, policy) && s.scheduler == Scheduler(Some(policy), [], 0)
  {
    steps, s := [], START;
    steps, s := Go(steps, s, policy, Issue(Request(Repeat('x', 0), PolicySet(Some(policy)))));
    steps, s := Go(steps, s, policy, Answer(PLAIN_REPLY));
    steps, s := Go(steps, s, policy, WriteOutput);
  }

  /** The first invoke makes the pool, which is empty again once its envelope is delivered. */
  lemma EmptyPool(policy: SchedulerPolicy) returns (steps: seq<Step>, s: System, n: nat)
    requires 0 < AsyncCap(Some(policy))
    ensures Route(steps, s, policy) && Steady(s, n, policy, 0, 0, 0)
  {
    n := 2;
    steps, s := PolicyInForce(policy);
    steps, s := Dispatched(steps, s, 1, policy);
    assert Steady(s, 2, policy, 1, 0, 0);
    steps, s := Take(steps, s, 2, policy, 0, 0, 0);
    steps, s := Finish(steps, s, 2, policy, 0, 0, 0);
    steps, s := Deliver(steps, s, 2, policy, 0, 0, 0);
  }

  lemma {:induction false} AllowedIsReached(policy: SchedulerPolicy, q: nat, r: nat, d: nat)
    returns (steps: seq<Step>, s: System, n: nat)
    requires Allowed(policy, q, r, d)
    ensures Route(steps, s, policy) && Steady(s, n, policy, q, r, d)
    decreases q + r + d
  {
    if q > 0 {
      steps, s, n := AllowedIsReached(policy, q - 1, r, d);
      steps, s := Submit(steps, s, n, policy, q - 1, r, d);
      n := n + 1;
    } else if r > 0 {
      steps, s, n := AllowedIsReached(policy, 0, r - 1, d);
      steps, s := Submit(steps, s, n, policy, 0, r - 1, d);
      steps, s := Take(steps, s, n + 1, policy, 0, r - 1, d);
      n := n + 1;
    } else if d > 0 {
      steps, s, n := AllowedIsReached(policy, 0, 0, d - 1);
      steps, s := Submit(steps, s, n, policy, 0, 0, d - 1);
      steps, s := Take(steps, s, n + 1, policy, 0, 0, d - 1);
      steps, s := Finish(steps, s, n + 1, policy, 0, 0, d - 1);
      n := n + 1;
    } else {
      steps, s, n := EmptyPool(policy);
    }
  }

  // -------------------------------------------------------------------------
  // Main results, by the fields of the policy
  // -------------------------------------------------------------------------

  lemma FieldsOf(policy: SchedulerPolicy, threads: nat, cap: nat)
    requires Sets(Some(policy), threads, cap)
    ensures PoolThreads(Some(policy)) == threads && QueueCap(Some(policy)) == cap
    ensures AsyncCap(Some(policy)) == if threads > 0 then cap else 0
  {
  }

  /**
   * Under a policy of `threads` threads and a queue cap of `cap`, by default
   * 64: some run brings a pool to `q` queued jobs, `r` running ones and `d`
   * envelopes in delivery exactly when there are threads, the cap is positive,
   * `q` and `r` fit the cap, and `r` and `d` fit the threads.
   */
  lemma ReachableShapes(policy: SchedulerPolicy, threads: nat, cap: nat, q: nat, r: nat, d: nat)
    requires Sets(Some(policy), threads, cap)
    ensures Reachable(policy, q, r, d) <==> 0 < threads && 0 < cap && q + r <= cap && r + d <= threads
  {
    FieldsOf(policy, threads, cap);
    if Reachable(policy, q, r, d) {
      var steps, s, p :| Route(steps, s, policy) && HasShape(s, p, q, r, d);
      ReachedIsAllowed(steps, s, policy, p, q, r, d);
    }
    if Allowed(policy, q, r, d) {
      var steps, s, n := AllowedIsReached(policy, q, r, d);
      assert HasShape(s, 0, q, r, d);
    }
  }

  /** A policy that names no threads, or none, or a cap of zero, never has a pool at all. */
  lemma NoPoolWithoutCap(policy: SchedulerPolicy, steps: seq<Step>, s: System)
    requires policy.asyncPoolThreads.None? || policy.asyncPoolThreads == Some(0) || policy.queueCap == Some(0)
    requires Route(steps, s, policy)
    ensures s.scheduler.pools == []
  {
    StartIsFixed(policy);
    RunKeepsFixed(START, steps, policy);
  }

  /** In every run every pool has the policy's threads, and the invokes in flight stay within its cap. */
  lemma PoolsHaveTheThreads(policy: SchedulerPolicy, threads: nat, cap: nat, steps: seq<Step>, s: System)
    requires Sets(Some(policy), threads, cap) && 0 < threads && Route(steps, s, policy)
    ensures forall p :: 0 <= p < |s.scheduler.pools| ==> s.scheduler.pools[p].threads == threads
    ensures s.scheduler.inFlight <= cap
  {
    FieldsOf(policy, threads, cap);
    StartIsFixed(policy);
    RunKeepsFixed(START, steps, policy);
    PolicyCaps(IssuedBy(steps), policy);
    HighCapWithin(START, steps, cap);
  }

  /** Once the policy is set, a dispatch is refused for a full queue exactly when its cap is used up. */
  lemma BusyExactlyWhenFull(policy: SchedulerPolicy, threads: nat, cap: nat, steps: seq<Step>, s: System)
    requires Sets(Some(policy), threads, cap) && 0 < threads && Route(steps, s, policy)
    requires AtRequest(s, Idle) && s.stdin[0].kind.Invoke? && s.scheduler.policy == Some(policy)
    ensures Dispatch(s.scheduler, s.stdin[0].id, true, true).1.Failure? <==> s.scheduler.inFlight == cap
    ensures DispatchSteps(s.scheduler, true, true) == [LoadInFlight, RefuseBusy] <==> s.scheduler.inFlight == cap
  {
    PoolsHaveTheThreads(policy, threads, cap, steps, s);
    DispatchObeysPolicy(s.scheduler, threads, cap, s.stdin[0].id, true, true);
    assert DispatchSteps(s.scheduler, true, true)[1] == RefuseBusy <==> s.scheduler.inFlight == cap;
  }

  /** The queue never exceeds the cap minus the threads while `r` workers run and `d` deliver. */
  ghost predicate BoundHolds(policy: SchedulerPolicy, threads: nat, cap: nat, r: nat, d: nat) {
    forall q: nat :: Reachable(policy, q, r, d) ==> q + threads <= cap
  }

  /**
   * The bound the program claims for its queue holds in every reachable state
   * with `r` running workers exactly when those are all the workers, or more
   * than the cap allows; that some of the others deliver makes no difference.
   */
  lemma QueueBoundIsExact(policy: SchedulerPolicy, threads: nat, cap: nat, r: nat, d: nat)
    requires Sets(Some(policy), threads, cap) && 0 < cap && r + d <= threads && 0 < threads
    ensures BoundHolds(policy, threads, cap, r, d) <==> r == threads || cap < r
    ensures (forall e :: BoundHolds(policy, threads, cap, r, e)) <==> r == threads || cap < r
  {
    BoundAt(policy, threads, cap, r, d);
    forall e: nat | r + e <= threads ensures BoundHolds(policy, threads, cap, r, e) <==> r == threads || cap < r {
      BoundAt(policy, threads, cap, r, e);
    }
    forall e: nat | r + e > threads ensures BoundHolds(policy, threads, cap, r, e) {
      forall q: nat ensures !Reachable(policy, q, r, e) {
        ReachableShapes(policy, threads, cap, q, r, e);
      }
    }
  }

  lemma BoundAt(policy: SchedulerPolicy, threads: nat, cap: nat, r: nat, d: nat)
    requires Sets(Some(policy), threads, cap) && 0 < cap && r + d <= threads && 0 < threads
    ensures BoundHolds(policy, threads, cap, r, d) <==> r == threads || cap < r
  {
    forall q: nat ensures Reachable(policy, q, r, d) <==> q + r <= cap {
      ReachableShapes(policy, threads, cap, q, r, d);
    }
    if r <= cap {
      assert Reachable(policy, cap - r, r, d);
    }
  }

  /** An idle worker is enough to break the bound, under every policy. */
  lemma QueueFillsWhileWorkerIsIdle(policy: SchedulerPolicy, threads: nat, cap: nat, r: nat)
    returns (steps: seq<Step>, s: System)
    requires Sets(Some(policy), threads, cap) && 0 < cap && r < threads && r <= cap
    ensures Route(steps, s, policy) && HasShape(s, 0, cap - r, r, 0)
    ensures |s.scheduler.pools[0].queue| > cap - threads
  {
    FieldsOf(policy, threads, cap);
    var n;
    steps, s, n := AllowedIsReached(policy, cap - r, r, 0);
  }

  /** So is one that delivers, with every worker busy: it has released its slot already. */
  lemma QueueFillsWhileWorkerDelivers(policy: SchedulerPolicy, threads: nat, cap: nat, d: nat)
    returns (steps: seq<Step>, s: System)
    requires Sets(Some(policy), threads, cap) && 0 < cap && 0 < d <= threads && threads - d <= cap
    ensures Route(steps, s, policy) && HasShape(s, 0, cap - (threads - d), threads - d, d)
    ensures |s.scheduler.pools[0].queue| > cap - threads
  {
    FieldsOf(policy, threads, cap);
    var n;
    steps, s, n := AllowedIsReached(policy, cap - (threads - d), threads - d, d);
  }
}
