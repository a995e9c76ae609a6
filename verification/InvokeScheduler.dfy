/** The daemon's side of an async invoke, as the sequential code the main loop runs. */
module InvokeScheduler {
  import opened Wrappers
  import opened Envelopes
  import opened AsyncInvoke
  import CanonicalJson
  import Decimal

  class KernelDaemon {
    var policy: Option<SchedulerPolicy>
    // The last pool is the current one; the others drain their queues.
    var pools: seq<Pool>
    var inFlight: nat
    var sink: seq<Line>

    ghost function State(): Scheduler
      reads this
    {
      Scheduler(policy, pools, inFlight)
    }

    constructor ()
      ensures State() == Scheduler(None, [], 0) && sink == []
    {
      policy, pools, inFlight, sink := None, [], 0, [];
    }

    /** `active` says the extension has a runtime handle, `workersAlive` that the pool still takes jobs. */
    method DispatchInvokeAsync(id: RequestId, active: bool, workersAlive: bool) returns (reply: Reply)
      modifies this`pools, this`inFlight, this`sink
      ensures
        var (scheduler, answer, lines) := Dispatch(old(State()), id, active, workersAlive);
        State() == scheduler && reply == answer && sink == old(sink) + lines
    {
      var threads := PoolThreads(policy);
      var cap := QueueCap(policy);
      var seen := inFlight;
      if seen >= cap {
        sink := sink + [Audit(CanonicalJson.Str(BusyDetail(seen)))];
        return Failure("KERNEL_BUSY", BusyMessage(seen));
      }
      if |pools| == 0 || pools[|pools| - 1].threads != threads {
        pools := pools + [Pool(threads, [], [], [])];
      }
      if !active {
        return Failure("KERNEL_RUNTIME_ERROR", NOT_ACTIVE);
      }
      inFlight := inFlight + 1;
      if !workersAlive {
        inFlight := inFlight - 1;
        sink := sink + [Audit(CanonicalJson.Str(SHUT_DOWN))];
        return Failure("KERNEL_BUSY", SHUT_DOWN);
      }
      var current := |pools| - 1;
      var pool := pools[current];
      pools := pools[current := pool.(queue := pool.queue + [id])];
      return Success(ACCEPTED);
    }
  }

  /** The new scheduler, the reply, and the audit lines pushed. */
  ghost function Dispatch(s: Scheduler, id: RequestId, active: bool, workersAlive: bool)
    : (Scheduler, Reply, seq<Line>)
  {
    if s.inFlight >= QueueCap(s.policy) then
      (s, Failure("KERNEL_BUSY", BusyMessage(s.inFlight)), [Audit(CanonicalJson.Str(BusyDetail(s.inFlight)))])
    else
      var pooled := EnsurePool(s);
      if !active then (pooled, Failure("KERNEL_RUNTIME_ERROR", NOT_ACTIVE), [])
      else if !workersAlive then (pooled, Failure("KERNEL_BUSY", SHUT_DOWN), [Audit(CanonicalJson.Str(SHUT_DOWN))])
      else (Enqueue(pooled.(inFlight := pooled.inFlight + 1), id), Success(ACCEPTED), [])
  }

  /** The policy asks for `threads` threads, and for a queue cap of `cap` or by default 64. */
  predicate Sets(policy: Option<SchedulerPolicy>, threads: nat, cap: nat) {
    policy == Some(SchedulerPolicy(Some(threads), Some(cap)))
    || (cap == 64 && policy == Some(SchedulerPolicy(Some(threads), None)))
  }

  /** The last pool, which is a new one unless the last there was has this many threads; the others stay. */
  ghost predicate CurrentPool(before: seq<Pool>, after: seq<Pool>, threads: nat, queue: seq<RequestId>) {
    && after != [] && after[|after| - 1].threads == threads && after[|after| - 1].queue == queue
    && if before != [] && before[|before| - 1].threads == threads
       then after == before[|before| - 1 := before[|before| - 1].(queue := queue)]
       else after == before + [Pool(threads, queue, [], [])]
  }

  /** What the current pool's queue was: a new pool starts with an empty one. */
  ghost function QueueBefore(before: seq<Pool>, threads: nat): seq<RequestId> {
    if before != [] && before[|before| - 1].threads == threads then before[|before| - 1].queue else []
  }

  lemma PoolEnsured(s: Scheduler, threads: nat, cap: nat)
    requires Sets(s.policy, threads, cap)
    ensures CurrentPool(s.pools, EnsurePool(s).pools, threads, QueueBefore(s.pools, threads))
  {
    if s.pools != [] && s.pools[|s.pools| - 1].threads == threads {
      assert s.pools[|s.pools| - 1 := s.pools[|s.pools| - 1]] == s.pools;
    }
  }

  lemma PoolFilled(s: Scheduler, threads: nat, cap: nat, id: RequestId)
    requires Sets(s.policy, threads, cap)
    ensures
      var queue := QueueBefore(s.pools, threads) + [id];
      CurrentPool(s.pools, Enqueue(EnsurePool(s).(inFlight := s.inFlight + 1), id).pools, threads, queue)
  {
    assert [] + [id] == [id];
  }

  /**
   * A dispatch finds the queue full exactly when as many invokes as the
   * policy's cap are in flight. Below the cap, an accepted job goes to the end
   * of the queue of a pool with the policy's threads and counts as in flight;
   * one that is not accepted leaves queue and counter as they were.
   */
  lemma DispatchObeysPolicy(s: Scheduler, threads: nat, cap: nat, id: RequestId, active: bool, workersAlive: bool)
    requires Sets(s.policy, threads, cap)
    ensures
      var (next, reply, lines) := Dispatch(s, id, active, workersAlive);
      var inFlight := Decimal.Print(s.inFlight);
      s.inFlight >= cap ==> (
        && next == s
        && reply == Failure("KERNEL_BUSY", "async invoke queue full: " + inFlight + " in flight")
        && lines == [Audit(CanonicalJson.Str(inFlight + " async invokes in flight"))])
    ensures
      var reply := Dispatch(s, id, active, workersAlive).1;
      s.inFlight < cap ==>
        reply == if !active then Failure("KERNEL_RUNTIME_ERROR", "extension is not active")
                 else if !workersAlive then Failure("KERNEL_BUSY", "async pool is shut down")
                 else Success(CanonicalJson.Object([CanonicalJson.Entry("accepted", CanonicalJson.Bool(true)),
                                                    CanonicalJson.Entry("async", CanonicalJson.Bool(true))]))
    ensures
      var next := Dispatch(s, id, active, workersAlive).0;
      var accepted := active && workersAlive;
      s.inFlight < cap ==> (
        && next.policy == s.policy
        && next.inFlight == s.inFlight + (if accepted then 1 else 0)
        && CurrentPool(s.pools, next.pools, threads, QueueBefore(s.pools, threads) + if accepted then [id] else []))
  {
    PoolEnsured(s, threads, cap);
    if active && workersAlive {
      PoolFilled(s, threads, cap, id);
    } else {
      assert QueueBefore(s.pools, threads) + [] == QueueBefore(s.pools, threads);
    }
  }

  /** The steps the protocol takes when nothing interrupts a dispatch. */
  ghost function DispatchSteps(s: Scheduler, active: bool, workersAlive: bool): seq<Step> {
    if s.inFlight >= QueueCap(s.policy) then [LoadInFlight, RefuseBusy]
    else if !active then [LoadInFlight, ReserveSlot(false)]
    else [LoadInFlight, ReserveSlot(true), SubmitJob(workersAlive)]
  }

  lemma OneStep(s: System, step: Step)
    requires Enabled(s, step)
    ensures Legal(s, [step]) && Run(s, [step]) == Apply(s, step)
  {
    assert [step][1..] == [];
  }

  /** An uninterrupted dispatch is exactly those steps of the protocol. */
  lemma DispatchIsItsSteps(s: System, active: bool, workersAlive: bool)
    requires AtRequest(s, Idle) && s.stdin[0].kind.Invoke? && PoolThreads(s.scheduler.policy) > 0
    ensures
      var steps := DispatchSteps(s.scheduler, active, workersAlive);
      var (scheduler, reply, lines) := Dispatch(s.scheduler, s.stdin[0].id, active, workersAlive);
      && Legal(s, steps)
      && Run(s, steps).scheduler == scheduler
      && Run(s, steps).output == [Response(s.stdin[0].id, reply)]
      && Run(s, steps).sink == s.sink + lines
      && Run(s, steps).stdin == s.stdin[1..]
  {
    var steps := DispatchSteps(s.scheduler, active, workersAlive);
    var loaded := Apply(s, LoadInFlight);
    assert steps[1..][1..] == steps[2..];
    if s.scheduler.inFlight < QueueCap(s.scheduler.policy) && active {
      var reserved := Apply(loaded, ReserveSlot(true));
      var done := Apply(reserved, SubmitJob(workersAlive));
      assert steps[2..] == [SubmitJob(workersAlive)];
      OneStep(reserved, SubmitJob(workersAlive));
      assert Legal(reserved, steps[2..]) && Run(reserved, steps[2..]) == done;
      assert Legal(loaded, steps[1..]) && Run(loaded, steps[1..]) == done;
    } else {
      var done := Apply(loaded, steps[1]);
      assert steps[1..] == [steps[1]];
      OneStep(loaded, steps[1]);
      assert Legal(loaded, steps[1..]) && Run(loaded, steps[1..]) == done;
    }
  }
}
