/**
 * Async invoke from end to end: one client, the daemon's main loop, its worker
 * pools, and the two writers that share standard output. Every step below is
 * atomic in the program; a run is any interleaving of steps. A step that never
 * comes (a crashed daemon, a hanging plugin) is a run that stops early.
 */
module AsyncInvoke {
  import opened Wrappers
  import opened Numbers
  import opened Sequences
  import opened Sums
  import opened Envelopes
  import opened ClientRequests
  import CanonicalJson
  import Decimal

  // -------------------------------------------------------------------------
  // The scheduler
  // -------------------------------------------------------------------------

  /** An idle worker waits on the queue; a busy one runs a job, then delivers its envelope. */
  datatype Pool = Pool(threads: nat, queue: seq<RequestId>, running: seq<RequestId>, delivering: seq<Line>)

  /** `pools` ends with the current pool; the others have been replaced and drain. */
  datatype Scheduler = Scheduler(policy: Option<SchedulerPolicy>, pools: seq<Pool>, inFlight: nat)

  function PoolThreads(policy: Option<SchedulerPolicy>): nat {
    if policy.Some? && policy.value.asyncPoolThreads.Some? then policy.value.asyncPoolThreads.value else 0
  }

  function QueueCap(policy: Option<SchedulerPolicy>): nat {
    if policy.Some? && policy.value.queueCap.Some? then policy.value.queueCap.value else 64
  }

  /** The cap a policy puts on async invokes; without a pool there are none. */
  function AsyncCap(policy: Option<SchedulerPolicy>): nat {
    if PoolThreads(policy) > 0 then QueueCap(policy) else 0
  }

  const NOT_ACTIVE := "extension is not active"
  const SHUT_DOWN := "async pool is shut down"

  function BusyMessage(inFlight: nat): string {
    "async invoke queue full: " + Decimal.Print(inFlight) + " in flight"
  }

  function BusyDetail(inFlight: nat): string {
    Decimal.Print(inFlight) + " async invokes in flight"
  }

  function EnsurePool(s: Scheduler): Scheduler {
    var threads := PoolThreads(s.policy);
    if s.pools == [] || s.pools[|s.pools| - 1].threads != threads
    then s.(pools := s.pools + [Pool(threads, [], [], [])])
    else s
  }

  function Enqueue(s: Scheduler, id: RequestId): Scheduler
    requires s.pools != []
  {
    var current := |s.pools| - 1;
    s.(pools := s.pools[current := s.pools[current].(queue := s.pools[current].queue + [id])])
  }

  // -------------------------------------------------------------------------
  // The system
  // -------------------------------------------------------------------------

  /** Where the main loop stands in `dispatch_invoke_async`. */
  datatype Phase = Idle | Loaded(seen: nat) | Reserved

  /**
   * The fields from `issued` on are history: the requests written, the jobs
   * accepted, the real replies made by the main loop and by workers, those the
   * workers put in the sink, those the client has read, the requests withdrawn
   * by a failed write, and the largest queue cap so far.
   */
  datatype System = System(
    client: Client,
    stdin: seq<Request>,
    phase: Phase,
    scheduler: Scheduler,
    output: seq<Line>,
    sink: seq<Line>,
    stdout: seq<Line>,
    issued: map<RequestId, RequestKind>,
    accepted: seq<RequestId>,
    answered: seq<Line>,
    finished: seq<Line>,
    sunk: seq<Line>,
    received: seq<Line>,
    withdrawn: set<RequestId>,
    highCap: nat)

  const START := System(
    NEW_CLIENT, [], Idle, Scheduler(None, [], 0), [], [], [],
    map[], [], [], [], [], [], {}, 0)

  datatype Step =
    | Issue(request: Request)
    | FireTimer(id: RequestId)
    | FailStdin(id: RequestId)
    | Close(order: seq<RequestId>)
    | ReadLine
    | Answer(reply: Reply)
    | LoadInFlight
    | RefuseBusy
    | ReserveSlot(active: bool)
    | SubmitJob(workersAlive: bool)
    | WriteOutput
    | TakeJob(pool: nat)
    | FinishJob(pool: nat, worker: nat, reply: Reply)
    | DeliverReply(pool: nat, worker: nat)
    | WriteSink

  predicate AtRequest(s: System, phase: Phase) {
    s.stdin != [] && s.output == [] && s.phase == phase
  }

  ghost predicate Enabled(s: System, step: Step) {
    match step
    case Issue(request) => request.id !in s.issued && !s.client.closed
    case FireTimer(id) => id in s.client.pending
    case FailStdin(id) => id in s.issued && !s.issued[id].PolicySet?
    case Close(order) => ListsPending(s.client, order)
    case ReadLine => s.stdout != []
    case Answer(reply) => AtRequest(s, Idle) && (s.stdin[0].kind.PolicySet? ==> reply.Success?)
    case LoadInFlight =>
      AtRequest(s, Idle) && s.stdin[0].kind.Invoke? && PoolThreads(s.scheduler.policy) > 0
    case RefuseBusy =>
      s.phase.Loaded? && AtRequest(s, s.phase) && s.phase.seen >= QueueCap(s.scheduler.policy)
    case ReserveSlot(_) =>
      s.phase.Loaded? && AtRequest(s, s.phase) && s.phase.seen < QueueCap(s.scheduler.policy)
    case SubmitJob(_) => AtRequest(s, Reserved) && s.scheduler.pools != [] && s.scheduler.inFlight > 0
    case WriteOutput => s.output != []
    case TakeJob(p) =>
      p < |s.scheduler.pools| && s.scheduler.pools[p].queue != []
      && |s.scheduler.pools[p].running| + |s.scheduler.pools[p].delivering| < s.scheduler.pools[p].threads
    case FinishJob(p, w, _) =>
      p < |s.scheduler.pools| && w < |s.scheduler.pools[p].running| && s.scheduler.inFlight > 0
    case DeliverReply(p, w) =>
      p < |s.scheduler.pools| && w < |s.scheduler.pools[p].delivering|
    case WriteSink => s.sink != []
  }

  /** The main loop has computed the output line of the request it was at. */
  function Conclude(s: System, reply: Reply): System
    requires s.stdin != []
  {
    s.(stdin := s.stdin[1..], phase := Idle, output := [Response(s.stdin[0].id, reply)])
  }

  function Conclusive(s: System, reply: Reply): System
    requires s.stdin != []
  {
    Conclude(s, reply).(answered := s.answered + [Response(s.stdin[0].id, reply)])
  }

  function PushAudit(s: System, message: string): System {
    s.(sink := s.sink + [Audit(CanonicalJson.Str(message))])
  }

  function SetPool(s: System, p: nat, pool: Pool): System
    requires p < |s.scheduler.pools|
  {
    s.(scheduler := s.scheduler.(pools := s.scheduler.pools[p := pool]))
  }

  function Apply(s: System, step: Step): System
    requires Enabled(s, step)
  {
    match step
    case Issue(request) =>
      s.(stdin := s.stdin + [request],
         issued := s.issued[request.id := request.kind],
         client := if request.kind.PolicySet? then s.client
                   else Register(s.client, request.id, request.kind))
    case FireTimer(id) => s.(client := Expire(s.client, id))
    case FailStdin(id) =>
      s.(client := FailWrite(s.client, id),
         withdrawn := if id in s.client.pending then s.withdrawn + {id} else s.withdrawn)
    case Close(order) => s.(client := FailAll(s.client, order))
    case ReadLine =>
      s.(stdout := s.stdout[1..],
         client := ReceiveLine(s.client, s.stdout[0]),
         received := if IsAnswer(s.stdout[0]) then s.received + [s.stdout[0]] else s.received)
    case Answer(reply) =>
      var kind := s.stdin[0].kind;
      var policy := if kind.PolicySet? then kind.scheduler else s.scheduler.policy;
      Conclusive(s, reply).(scheduler := s.scheduler.(policy := policy), highCap := Max(s.highCap, AsyncCap(policy)))
    case LoadInFlight => s.(phase := Loaded(s.scheduler.inFlight))
    case RefuseBusy =>
      PushAudit(Conclusive(s, Failure("KERNEL_BUSY", BusyMessage(s.phase.seen))), BusyDetail(s.phase.seen))
    case ReserveSlot(active) =>
      var pooled := EnsurePool(s.scheduler);
      if active then s.(phase := Reserved, scheduler := pooled.(inFlight := pooled.inFlight + 1))
      else Conclusive(s, Failure("KERNEL_RUNTIME_ERROR", NOT_ACTIVE)).(scheduler := pooled)
    case SubmitJob(workersAlive) =>
      var id := s.stdin[0].id;
      if workersAlive then
        Conclude(s, Success(ACCEPTED)).(scheduler := Enqueue(s.scheduler, id), accepted := s.accepted + [id])
      else
        var released := s.scheduler.(inFlight := s.scheduler.inFlight - 1);
        PushAudit(Conclusive(s, Failure("KERNEL_BUSY", SHUT_DOWN)).(scheduler := released), SHUT_DOWN)
    case WriteOutput => s.(stdout := s.stdout + s.output, output := [])
    case TakeJob(p) =>
      var pool := s.scheduler.pools[p];
      SetPool(s, p, pool.(queue := pool.queue[1..], running := pool.running + [pool.queue[0]]))
    case FinishJob(p, w, reply) =>
      var pool := s.scheduler.pools[p];
      var line := Response(pool.running[w], reply);
      var next := SetPool(s, p, pool.(running := Without(pool.running, w), delivering := pool.delivering + [line]));
      next.(scheduler := next.scheduler.(inFlight := s.scheduler.inFlight - 1), finished := s.finished + [line])
    case DeliverReply(p, w) =>
      var pool := s.scheduler.pools[p];
      SetPool(s, p, pool.(delivering := Without(pool.delivering, w)))
        .(sink := s.sink + [pool.delivering[w]], sunk := s.sunk + [pool.delivering[w]])
    case WriteSink => s.(stdout := s.stdout + [s.sink[0]], sink := s.sink[1..])
  }

  predicate IsAnswer(line: Line) {
    line.Response? && !IsAcceptedMarker(line.reply)
  }

  // -------------------------------------------------------------------------
  // Runs
  // -------------------------------------------------------------------------

  ghost predicate Legal(s: System, steps: seq<Step>)
    decreases |steps|
  {
    steps == [] || (Enabled(s, steps[0]) && Legal(Apply(s, steps[0]), steps[1..]))
  }

  ghost function Run(s: System, steps: seq<Step>): System
    requires Legal(s, steps)
    decreases |steps|
  {
    if steps == [] then s else Run(Apply(s, steps[0]), steps[1..])
  }

  // -------------------------------------------------------------------------
  // Scheduler: the in-flight counter
  // -------------------------------------------------------------------------

  ghost function PoolLoad(): Pool -> nat {
    (p: Pool) => |p.queue| + |p.running|
  }

  ghost predicate PoolValid(p: Pool) {
    p.threads > 0 && |p.running| + |p.delivering| <= p.threads
  }

  ghost predicate SchedulerInv(s: System) {
    && s.scheduler.inFlight == Total(s.scheduler.pools, PoolLoad()) + (if s.phase.Reserved? then 1 else 0)
    && s.scheduler.inFlight <= s.highCap
    && AsyncCap(s.scheduler.policy) <= s.highCap
    && (s.phase.Loaded? ==> s.scheduler.inFlight <= s.phase.seen)
    && (!s.phase.Idle? ==> s.stdin != [] && s.output == [] && s.stdin[0].kind.Invoke?)
    && (!s.phase.Idle? ==> PoolThreads(s.scheduler.policy) > 0)
    && (s.phase.Reserved? ==> s.scheduler.pools != [])
    && forall p :: 0 <= p < |s.scheduler.pools| ==> PoolValid(s.scheduler.pools[p])
  }

  lemma KeepsSchedulerInv(s: System, step: Step)
    requires SchedulerInv(s) && Enabled(s, step)
    ensures SchedulerInv(Apply(s, step))
  {
    match step {
      case ReserveSlot(active) => ReserveKeepsScheduler(s, active);
      case SubmitJob(workersAlive) => SubmitKeepsScheduler(s, workersAlive);
      case TakeJob(p) => WorkerKeepsScheduler(s, step, p);
      case FinishJob(p, _, _) => WorkerKeepsScheduler(s, step, p);
      case DeliverReply(p, _) => WorkerKeepsScheduler(s, step, p);
      case _ =>
    }
  }

  lemma ReserveKeepsScheduler(s: System, active: bool)
    requires SchedulerInv(s) && Enabled(s, ReserveSlot(active))
    ensures SchedulerInv(Apply(s, ReserveSlot(active)))
  {
    TotalAppend(s.scheduler.pools, Pool(PoolThreads(s.scheduler.policy), [], [], []), PoolLoad());
  }

  lemma SubmitKeepsScheduler(s: System, workersAlive: bool)
    requires SchedulerInv(s) && Enabled(s, SubmitJob(workersAlive))
    ensures SchedulerInv(Apply(s, SubmitJob(workersAlive)))
  {
    var pools := s.scheduler.pools;
    var last := pools[|pools| - 1];
    TotalUpdate(pools, |pools| - 1, last.(queue := last.queue + [s.stdin[0].id]), PoolLoad());
  }

  lemma WorkerKeepsScheduler(s: System, step: Step, p: nat)
    requires SchedulerInv(s) && Enabled(s, step)
    requires step == TakeJob(p) || (step.FinishJob? && step.pool == p) || (step.DeliverReply? && step.pool == p)
    ensures SchedulerInv(Apply(s, step))
  {
    var pool := Apply(s, step).scheduler.pools[p];
    TotalUpdate(s.scheduler.pools, p, pool, PoolLoad());
  }

  // -------------------------------------------------------------------------
  // Conservation: where the one real reply of a request is
  // -------------------------------------------------------------------------

  ghost function RequestFor(id: RequestId): Request -> nat {
    (r: Request) => if r.id == id then 1 else 0
  }

  ghost function Is(id: RequestId): RequestId -> nat {
    (other: RequestId) => if other == id then 1 else 0
  }

  ghost function ReplyTo(id: RequestId): Line -> nat {
    (line: Line) => if line.Response? && line.id == id then 1 else 0
  }

  ghost function AnswerFor(id: RequestId): Line -> nat {
    (line: Line) => if IsAnswer(line) && line.id == id then 1 else 0
  }

  ghost function MarkerFor(id: RequestId): Line -> nat {
    (line: Line) => if line.Response? && !IsAnswer(line) && line.id == id then 1 else 0
  }

  ghost function PoolJobs(id: RequestId): Pool -> nat {
    (p: Pool) => Total(p.queue, Is(id)) + Total(p.running, Is(id))
  }

  ghost function PoolReplies(id: RequestId): Pool -> nat {
    (p: Pool) => Total(p.delivering, ReplyTo(id))
  }

  ghost function IssuedOnce(s: System, id: RequestId): nat {
    if id in s.issued then 1 else 0
  }

  /**
   * A request is unread, accepted once, or answered once; an accepted job is
   * held or finished; a finished one is held or in the sink.
   */
  ghost predicate WorkLaw(s: System, id: RequestId) {
    && Total(s.stdin, RequestFor(id)) + Total(s.accepted, Is(id)) + Total(s.answered, ReplyTo(id))
       == IssuedOnce(s, id)
    && Total(s.accepted, Is(id)) == Total(s.scheduler.pools, PoolJobs(id)) + Total(s.finished, ReplyTo(id))
    && Total(s.finished, ReplyTo(id)) == Total(s.scheduler.pools, PoolReplies(id)) + Total(s.sunk, ReplyTo(id))
  }

  predicate Concludes(step: Step) {
    step.Answer? || step.RefuseBusy? || step == ReserveSlot(false) || step == SubmitJob(false)
  }

  lemma PopRequest(s: System, id: RequestId)
    requires s.stdin != []
    ensures Total(s.stdin, RequestFor(id)) == RequestFor(id)(s.stdin[0]) + Total(s.stdin[1..], RequestFor(id))
  {
  }

  lemma EnsurePoolKeepsTotals(s: Scheduler, id: RequestId)
    ensures Total(EnsurePool(s).pools, PoolJobs(id)) == Total(s.pools, PoolJobs(id))
    ensures Total(EnsurePool(s).pools, PoolReplies(id)) == Total(s.pools, PoolReplies(id))
  {
    var added := Pool(PoolThreads(s.policy), [], [], []);
    TotalAppend(s.pools, added, PoolJobs(id));
    TotalAppend(s.pools, added, PoolReplies(id));
  }

  lemma ConcludeKeepsWork(s: System, step: Step, id: RequestId)
    requires Enabled(s, step) && Concludes(step) && WorkLaw(s, id)
    ensures WorkLaw(Apply(s, step), id)
  {
    var t := Apply(s, step);
    PopRequest(s, id);
    EnsurePoolKeepsTotals(s.scheduler, id);
    TotalAppend(s.answered, t.answered[|s.answered|], ReplyTo(id));
  }

  lemma SubmitKeepsWork(s: System, id: RequestId)
    requires Enabled(s, SubmitJob(true)) && WorkLaw(s, id)
    ensures WorkLaw(Apply(s, SubmitJob(true)), id)
  {
    var job := s.stdin[0].id;
    var pools := s.scheduler.pools;
    var last := pools[|pools| - 1];
    PopRequest(s, id);
    TotalAppend(s.accepted, job, Is(id));
    TotalAppend(last.queue, job, Is(id));
    TotalUpdate(pools, |pools| - 1, last.(queue := last.queue + [job]), PoolJobs(id));
    TotalUpdate(pools, |pools| - 1, last.(queue := last.queue + [job]), PoolReplies(id));
  }

  lemma TakeKeepsWork(s: System, p: nat, id: RequestId)
    requires Enabled(s, TakeJob(p)) && WorkLaw(s, id)
    ensures WorkLaw(Apply(s, TakeJob(p)), id)
  {
    var pool, next := s.scheduler.pools[p], Apply(s, TakeJob(p)).scheduler.pools[p];
    TotalAppend(pool.running, pool.queue[0], Is(id));
    TotalUpdate(s.scheduler.pools, p, next, PoolJobs(id));
    TotalUpdate(s.scheduler.pools, p, next, PoolReplies(id));
  }

  lemma FinishKeepsWork(s: System, p: nat, w: nat, reply: Reply, id: RequestId)
    requires Enabled(s, FinishJob(p, w, reply)) && WorkLaw(s, id)
    ensures WorkLaw(Apply(s, FinishJob(p, w, reply)), id)
  {
    var pool, next := s.scheduler.pools[p], Apply(s, FinishJob(p, w, reply)).scheduler.pools[p];
    var line := Response(pool.running[w], reply);
    TotalWithout(pool.running, w, Is(id));
    TotalAppend(pool.delivering, line, ReplyTo(id));
    TotalAppend(s.finished, line, ReplyTo(id));
    TotalUpdate(s.scheduler.pools, p, next, PoolJobs(id));
    TotalUpdate(s.scheduler.pools, p, next, PoolReplies(id));
  }

  lemma DeliverKeepsWork(s: System, p: nat, w: nat, id: RequestId)
    requires Enabled(s, DeliverReply(p, w)) && WorkLaw(s, id)
    ensures WorkLaw(Apply(s, DeliverReply(p, w)), id)
  {
    var pool, next := s.scheduler.pools[p], Apply(s, DeliverReply(p, w)).scheduler.pools[p];
    TotalWithout(pool.delivering, w, ReplyTo(id));
    TotalAppend(s.sunk, pool.delivering[w], ReplyTo(id));
    TotalUpdate(s.scheduler.pools, p, next, PoolJobs(id));
    TotalUpdate(s.scheduler.pools, p, next, PoolReplies(id));
  }

  lemma KeepsWorkLaw(s: System, step: Step, id: RequestId)
    requires Enabled(s, step) && WorkLaw(s, id)
    ensures WorkLaw(Apply(s, step), id)
  {
    if Concludes(step) {
      ConcludeKeepsWork(s, step, id);
    } else {
      match step {
        case Issue(request) => TotalAppend(s.stdin, request, RequestFor(id));
        case ReserveSlot(_) => EnsurePoolKeepsTotals(s.scheduler, id);
        case SubmitJob(_) => SubmitKeepsWork(s, id);
        case TakeJob(p) => TakeKeepsWork(s, p, id);
        case FinishJob(p, w, reply) => FinishKeepsWork(s, p, w, reply, id);
        case DeliverReply(p, w) => DeliverKeepsWork(s, p, w, id);
        case _ =>
      }
    }
  }

  // -------------------------------------------------------------------------
  // Delivery: from the two writers to the client
  // -------------------------------------------------------------------------

  /** The plugin or kernel method does not answer with a result that looks like the marker. */
  predicate PlainReply(step: Step) {
    match step
    case Answer(reply) => !IsAcceptedMarker(reply)
    case FinishJob(_, _, reply) => !IsAcceptedMarker(reply)
    case _ => true
  }

  /** If the step makes a real reply to this request, it does not look like the marker. */
  ghost predicate PlainStep(s: System, step: Step, id: RequestId)
    requires Enabled(s, step)
  {
    match step
    case Answer(_) => s.stdin[0].id == id ==> PlainReply(step)
    case FinishJob(p, w, _) => s.scheduler.pools[p].running[w] == id ==> PlainReply(step)
    case _ => true
  }

  ghost predicate Awaiting(s: System, id: RequestId) {
    id in s.client.pending && s.client.pending[id].awaitingAsyncResult
  }

  ghost predicate Tracked(s: System, id: RequestId) {
    id in s.issued && !s.issued[id].PolicySet?
  }

  /** Every response to this request in `lines` is a real reply listed in `source`. */
  ghost predicate AnswersFrom(lines: seq<Line>, source: seq<Line>, id: RequestId) {
    forall i :: 0 <= i < |lines| && lines[i].Response? && lines[i].id == id ==> IsAnswer(lines[i]) && lines[i] in source
  }

  /** Every real reply to this request in `lines` is listed in one of the sources. */
  ghost predicate ProducedBy(lines: seq<Line>, finished: seq<Line>, answered: seq<Line>, id: RequestId) {
    forall i :: 0 <= i < |lines| && IsAnswer(lines[i]) && lines[i].id == id ==>
      lines[i] in finished || lines[i] in answered
  }

  ghost predicate PoolsFrom(pools: seq<Pool>, finished: seq<Line>, id: RequestId) {
    forall p :: 0 <= p < |pools| ==> AnswersFrom(pools[p].delivering, finished, id)
  }

  /** Every response to this request was made by the main loop or a worker, and only the main loop sends its marker. */
  ghost predicate LinesValid(s: System, id: RequestId) {
    && AnswersFrom(s.sink, s.finished, id)
    && PoolsFrom(s.scheduler.pools, s.finished, id)
    && ProducedBy(s.output, s.finished, s.answered, id)
    && ProducedBy(s.stdout, s.finished, s.answered, id)
    && ProducedBy(s.received, s.finished, s.answered, id)
    && (forall i :: 0 <= i < |s.received| ==> IsAnswer(s.received[i]))
    && (forall p, i :: 0 <= p < |s.scheduler.pools| && 0 <= i < |s.scheduler.pools[p].delivering| ==>
          s.scheduler.pools[p].delivering[i].Response?)
  }

  ghost predicate KindsValid(s: System) {
    && (forall i :: 0 <= i < |s.stdin| ==>
          s.stdin[i].id in s.issued && s.issued[s.stdin[i].id] == s.stdin[i].kind)
    && (forall id :: id in s.client.pending ==>
          Tracked(s, id) && s.issued[id] == s.client.pending[id].kind)
  }

  /** A real reply is on its way or has been read. */
  ghost predicate DeliveryLaw(s: System, id: RequestId) {
    Total(s.sunk, ReplyTo(id)) + Total(s.answered, ReplyTo(id))
    == Total(s.sink, ReplyTo(id)) + Total(s.output, AnswerFor(id)) + Total(s.stdout, AnswerFor(id))
       + Total(s.received, ReplyTo(id))
  }

  ghost function MarkersFor(s: System, id: RequestId): nat {
    Total(s.output, MarkerFor(id)) + Total(s.stdout, MarkerFor(id)) + (if Awaiting(s, id) then 1 else 0)
  }

  /** At most one marker ever exists for a request, and only for an invoke. */
  ghost predicate MarkerLaw(s: System, id: RequestId) {
    && Total(s.stdin, RequestFor(id)) + MarkersFor(s, id) <= IssuedOnce(s, id)
    && (MarkersFor(s, id) > 0 ==> s.issued[id].Invoke?)
  }

  lemma KeepsLines(s: System, step: Step, id: RequestId)
    requires Enabled(s, step) && PlainStep(s, step, id) && LinesValid(s, id)
    ensures LinesValid(Apply(s, step), id)
  {
    if Concludes(step) {
      ConcludeKeepsLines(s, step, id);
    } else {
      match step {
        case TakeJob(p) => WorkerKeepsLines(s, step, p, id);
        case FinishJob(p, _, _) => WorkerKeepsLines(s, step, p, id);
        case DeliverReply(p, _) => WorkerKeepsLines(s, step, p, id);
        case SubmitJob(_) => SubmitKeepsLines(s, id);
        case _ => WriterKeepsLines(s, step, id);
      }
    }
  }

  lemma ConcludeKeepsLines(s: System, step: Step, id: RequestId)
    requires Enabled(s, step) && PlainStep(s, step, id) && Concludes(step) && LinesValid(s, id)
    ensures LinesValid(Apply(s, step), id)
  {
    var t := Apply(s, step);
    assert t.output == [t.answered[|s.answered|]];
  }

  lemma SubmitKeepsLines(s: System, id: RequestId)
    requires Enabled(s, SubmitJob(true)) && LinesValid(s, id)
    ensures LinesValid(Apply(s, SubmitJob(true)), id)
  {
  }

  lemma WorkerKeepsLines(s: System, step: Step, p: nat, id: RequestId)
    requires Enabled(s, step) && PlainStep(s, step, id) && LinesValid(s, id)
    requires step == TakeJob(p) || (step.FinishJob? && step.pool == p) || (step.DeliverReply? && step.pool == p)
    ensures LinesValid(Apply(s, step), id)
  {
    var t := Apply(s, step);
    assert forall line :: line in s.finished ==> line in t.finished;
    assert AnswersFrom(t.scheduler.pools[p].delivering, t.finished, id);
    assert PoolsFrom(t.scheduler.pools, t.finished, id);
  }

  lemma WriterKeepsLines(s: System, step: Step, id: RequestId)
    requires Enabled(s, step) && LinesValid(s, id)
    requires !Concludes(step) && !step.TakeJob? && !step.FinishJob? && !step.DeliverReply? && !step.SubmitJob?
    ensures LinesValid(Apply(s, step), id)
  {
  }

  lemma KeepsKinds(s: System, step: Step)
    requires Enabled(s, step) && KindsValid(s)
    ensures KindsValid(Apply(s, step))
  {
    match step {
      case Close(order) => FailAllShrinks(s.client, order);
      case _ =>
    }
  }

  lemma FailAllShrinks(c: Client, order: seq<RequestId>)
    ensures FailAll(c, order).pending == c.pending - (set i | 0 <= i < |order| :: order[i])
    decreases |order|
  {
    if order != [] {
      FailAllShrinks(Settle(c, order[0], TransportClosed), order[1..]);
    }
  }

  lemma ConcludeKeepsDelivery(s: System, step: Step, id: RequestId)
    requires Enabled(s, step) && PlainStep(s, step, id) && Concludes(step) && DeliveryLaw(s, id)
    ensures DeliveryLaw(Apply(s, step), id)
  {
    var t := Apply(s, step);
    var line := t.answered[|s.answered|];
    TotalAppend(s.answered, line, ReplyTo(id));
    assert t.output == [line] && (line.id == id ==> IsAnswer(line));
    TotalAppend([], line, AnswerFor(id));
    if |t.sink| > |s.sink| {
      TotalAppend(s.sink, t.sink[|s.sink|], ReplyTo(id));
    }
  }

  lemma KeepsDelivery(s: System, step: Step, id: RequestId)
    requires Enabled(s, step) && PlainStep(s, step, id) && LinesValid(s, id) && DeliveryLaw(s, id)
    ensures DeliveryLaw(Apply(s, step), id)
  {
    if Concludes(step) {
      ConcludeKeepsDelivery(s, step, id);
    } else {
      match step {
        case ReadLine => TotalAppend(s.received, s.stdout[0], ReplyTo(id));
        case WriteOutput => TotalConcat(s.stdout, s.output, AnswerFor(id));
        case DeliverReply(p, w) =>
          TotalAppend(s.sink, s.scheduler.pools[p].delivering[w], ReplyTo(id));
          TotalAppend(s.sunk, s.scheduler.pools[p].delivering[w], ReplyTo(id));
        case WriteSink => TotalAppend(s.stdout, s.sink[0], AnswerFor(id));
        case _ =>
      }
    }
  }

  lemma ConcludeKeepsMarkers(s: System, step: Step, id: RequestId)
    requires Enabled(s, step) && PlainStep(s, step, id) && KindsValid(s) && SchedulerInv(s) && MarkerLaw(s, id)
    requires Concludes(step) || step == SubmitJob(true)
    ensures MarkerLaw(Apply(s, step), id)
  {
    var t := Apply(s, step);
    OutputKeepsMarkers(s, t, t.output[0], id);
  }

  /** The request at the head of the input has become one line of output: a marker only for an invoke. */
  lemma OutputKeepsMarkers(s: System, t: System, line: Line, id: RequestId)
    requires s.stdin != [] && s.output == [] && KindsValid(s) && MarkerLaw(s, id)
    requires t.stdin == s.stdin[1..] && t.output == [line] && t.stdout == s.stdout
    requires t.client == s.client && t.issued == s.issued
    requires line.Response? && line.id == s.stdin[0].id
    requires line.id == id ==> IsAnswer(line) || s.stdin[0].kind.Invoke?
    ensures MarkerLaw(t, id)
  {
    PopRequest(s, id);
    TotalAppend([], line, MarkerFor(id));
    assert t.output == [] + [line];
  }

  lemma KeepsMarkers(s: System, step: Step, id: RequestId)
    requires Enabled(s, step) && PlainStep(s, step, id) && LinesValid(s, id) && KindsValid(s) && SchedulerInv(s)
    requires MarkerLaw(s, id)
    ensures MarkerLaw(Apply(s, step), id)
  {
    if Concludes(step) || step == SubmitJob(true) {
      ConcludeKeepsMarkers(s, step, id);
    } else {
      match step {
        case Issue(request) => TotalAppend(s.stdin, request, RequestFor(id));
        case Close(order) => FailAllShrinks(s.client, order);
        case WriteOutput => TotalConcat(s.stdout, s.output, MarkerFor(id));
        case WriteSink => TotalAppend(s.stdout, s.sink[0], MarkerFor(id));
        case ReadLine => ReadKeepsMarkers(s, id);
        case _ =>
      }
    }
  }

  lemma ReadKeepsMarkers(s: System, id: RequestId)
    requires Enabled(s, ReadLine) && KindsValid(s) && MarkerLaw(s, id)
    ensures MarkerLaw(Apply(s, ReadLine), id)
  {
  }

  // -------------------------------------------------------------------------
  // Settlement: what the caller's promise is told
  // -------------------------------------------------------------------------

  /** A call of `resolve` or `reject` for this request, other than by a write callback. */
  ghost function Regular(id: RequestId): Settlement -> nat {
    (x: Settlement) => if x.id == id && !x.outcome.WriteFailed? then 1 else 0
  }

  ghost function AnyFor(id: RequestId): Settlement -> nat {
    (x: Settlement) => if x.id == id then 1 else 0
  }

  /** A tracked request is pending, withdrawn, or settled, and settled only once. */
  ghost predicate SettleLaw(s: System, id: RequestId) {
    Calls(s.client, id, Regular(id)) + (if id in s.withdrawn then 1 else 0) == if Tracked(s, id) then 1 else 0
  }

  predicate ReplyWasRead(x: Settlement, received: seq<Line>, id: RequestId) {
    x.id == id && x.outcome.Replied? ==> Response(id, x.outcome.reply) in received
  }

  /** The request is only ever resolved with a real reply that was read for it. */
  ghost predicate RepliesRead(s: System, id: RequestId) {
    forall i :: 0 <= i < |s.client.settlements| ==> ReplyWasRead(s.client.settlements[i], s.received, id)
  }

  lemma FailAllSettles(c: Client, order: seq<RequestId>, id: RequestId, f: Settlement -> nat)
    requires ListsPending(c, order) && (f == Regular(id) || f == AnyFor(id))
    ensures Total(FailAll(c, order).settlements, f)
         == Total(c.settlements, f) + (if id in c.pending then 1 else 0)
    ensures FailAll(c, order).pending == map[]
    decreases |order|
  {
    if order == [] {
      assert c.pending == map[];
    } else {
      var next := Settle(c, order[0], TransportClosed);
      TotalAppend(c.settlements, Settlement(order[0], TransportClosed), f);
      forall other ensures other in order[1..] <==> other in next.pending {
        if other in order[1..] {
          var j :| 0 < j < |order| && order[j] == other;
        }
      }
      FailAllSettles(next, order[1..], id, f);
    }
  }

  /** Calls made for a request, and one more to come while it is pending. */
  ghost function Calls(c: Client, id: RequestId, f: Settlement -> nat): nat {
    Total(c.settlements, f) + if id in c.pending then 1 else 0
  }

  lemma SettleKeepsCalls(c: Client, other: RequestId, outcome: Outcome, id: RequestId)
    requires other in c.pending && !outcome.WriteFailed?
    ensures Calls(Settle(c, other, outcome), id, Regular(id)) == Calls(c, id, Regular(id))
    ensures Calls(Settle(c, other, outcome), id, AnyFor(id)) == Calls(c, id, AnyFor(id))
  {
    TotalAppend(c.settlements, Settlement(other, outcome), Regular(id));
    TotalAppend(c.settlements, Settlement(other, outcome), AnyFor(id));
  }

  lemma FailWriteDropsCall(c: Client, other: RequestId, id: RequestId)
    ensures Calls(FailWrite(c, other), id, Regular(id)) + (if other == id && id in c.pending then 1 else 0)
         == Calls(c, id, Regular(id))
    ensures other != id ==> Calls(FailWrite(c, other), id, AnyFor(id)) == Calls(c, id, AnyFor(id))
  {
    TotalAppend(c.settlements, Settlement(other, WriteFailed), Regular(id));
    TotalAppend(c.settlements, Settlement(other, WriteFailed), AnyFor(id));
  }

  lemma ReceiveKeepsCalls(c: Client, line: Line, id: RequestId)
    ensures Calls(ReceiveLine(c, line), id, Regular(id)) == Calls(c, id, Regular(id))
    ensures Calls(ReceiveLine(c, line), id, AnyFor(id)) == Calls(c, id, AnyFor(id))
  {
    if line.Response? && line.id in c.pending {
      SettleKeepsCalls(c, line.id, Replied(line.reply), id);
    }
  }

  lemma KeepsSettleLaw(s: System, step: Step, id: RequestId)
    requires Enabled(s, step) && KindsValid(s) && SettleLaw(s, id)
    ensures SettleLaw(Apply(s, step), id)
  {
    match step {
      case FireTimer(other) =>
        var outcome := if s.client.pending[other].awaitingAsyncResult then AsyncTimedOut else TimedOut;
        SettleKeepsCalls(s.client, other, outcome, id);
      case FailStdin(other) => FailWriteDropsCall(s.client, other, id);
      case Close(order) => FailAllSettles(s.client, order, id, Regular(id));
      case ReadLine => ReceiveKeepsCalls(s.client, s.stdout[0], id);
      case _ =>
    }
  }

  lemma FailAllReplies(c: Client, order: seq<RequestId>)
    ensures c.settlements <= FailAll(c, order).settlements
    ensures forall i :: |c.settlements| <= i < |FailAll(c, order).settlements| ==>
      FailAll(c, order).settlements[i].outcome == TransportClosed
    decreases |order|
  {
    if order != [] {
      FailAllReplies(Settle(c, order[0], TransportClosed), order[1..]);
    }
  }

  /** A marker read for a pending request is the first line read for it. */
  lemma MarkerIsFirst(s: System)
    requires s.stdout != [] && s.stdout[0].Response? && !IsAnswer(s.stdout[0])
    requires MarkerLaw(s, s.stdout[0].id) && KindsValid(s)
    ensures s.stdout[0].id in s.client.pending ==>
      s.client.pending[s.stdout[0].id] == PendingRequest(Invoke, false)
  {
    assert MarkerFor(s.stdout[0].id)(s.stdout[0]) == 1;
  }

  lemma KeepsRepliesRead(s: System, step: Step, id: RequestId)
    requires Enabled(s, step) && KindsValid(s) && RepliesRead(s, id) && MarkerLaw(s, id)
    ensures RepliesRead(Apply(s, step), id)
  {
    match step {
      case Close(order) => FailAllReplies(s.client, order);
      case ReadLine =>
        if s.stdout[0].Response? && s.stdout[0].id == id && !IsAnswer(s.stdout[0]) {
          MarkerIsFirst(s);
        }
      case _ =>
    }
  }

  /** What holds of every run for a request whose real replies are all plain. */
  ghost predicate Inv(s: System, id: RequestId) {
    && SchedulerInv(s) && KindsValid(s)
    && LinesValid(s, id) && RepliesRead(s, id)
    && WorkLaw(s, id) && DeliveryLaw(s, id) && MarkerLaw(s, id) && SettleLaw(s, id)
  }

  lemma KeepsInv(s: System, step: Step, id: RequestId)
    requires Enabled(s, step) && PlainStep(s, step, id) && Inv(s, id)
    ensures Inv(Apply(s, step), id)
  {
    KeepsSchedulerInv(s, step);
    KeepsKinds(s, step);
    KeepsLines(s, step, id);
    KeepsRepliesRead(s, step, id);
    KeepsWorkLaw(s, step, id);
    KeepsDelivery(s, step, id);
    KeepsMarkers(s, step, id);
    KeepsSettleLaw(s, step, id);
  }

  /** Nothing that answers this request looks like the marker; what other requests are answered with is free. */
  ghost predicate PlainRun(s: System, steps: seq<Step>, id: RequestId)
    requires Legal(s, steps)
    decreases |steps|
  {
    steps == [] || (PlainStep(s, steps[0], id) && PlainRun(Apply(s, steps[0]), steps[1..], id))
  }

  /** None of the real replies made to this request so far says `accepted` and `async`. */
  ghost predicate OrdinaryReplies(s: System, id: RequestId) {
    forall reply :: Response(id, reply) in s.answered + s.finished ==> !SaysAcceptedAsync(reply)
  }

  lemma {:induction false} HistoriesGrow(s: System, steps: seq<Step>)
    requires Legal(s, steps)
    ensures s.answered <= Run(s, steps).answered && s.finished <= Run(s, steps).finished
    decreases |steps|
  {
    if steps != [] {
      HistoriesGrow(Apply(s, steps[0]), steps[1..]);
    }
  }

  lemma OrdinaryStep(s: System, step: Step, t: System, id: RequestId)
    requires Enabled(s, step) && OrdinaryReplies(t, id)
    requires Apply(s, step).answered <= t.answered && Apply(s, step).finished <= t.finished
    ensures PlainStep(s, step, id)
  {
    var next := Apply(s, step);
    match step {
      case Answer(reply) =>
        assert next.answered[|s.answered|] == Response(s.stdin[0].id, reply);
        assert Response(s.stdin[0].id, reply) in t.answered;
        MarkerByMembers(reply);
      case FinishJob(p, w, reply) =>
        var id := s.scheduler.pools[p].running[w];
        assert next.finished[|s.finished|] == Response(id, reply);
        assert Response(id, reply) in t.finished;
        MarkerByMembers(reply);
      case _ =>
    }
  }

  /** A run that ends with only ordinary replies to a request made none that looks like the marker. */
  lemma {:induction false} OrdinaryRunIsPlain(s: System, steps: seq<Step>, id: RequestId)
    requires Legal(s, steps) && OrdinaryReplies(Run(s, steps), id)
    ensures PlainRun(s, steps, id)
    decreases |steps|
  {
    if steps != [] {
      HistoriesGrow(Apply(s, steps[0]), steps[1..]);
      OrdinaryStep(s, steps[0], Run(s, steps), id);
      OrdinaryRunIsPlain(Apply(s, steps[0]), steps[1..], id);
    }
  }

  lemma {:induction false} RunKeepsInv(s: System, steps: seq<Step>, id: RequestId)
    requires Inv(s, id) && Legal(s, steps) && PlainRun(s, steps, id)
    ensures Inv(Run(s, steps), id)
    decreases |steps|
  {
    if steps != [] {
      KeepsInv(s, steps[0], id);
      RunKeepsInv(Apply(s, steps[0]), steps[1..], id);
    }
  }

  /** No timer, write error or close interferes with this request. */
  predicate Undisturbed(step: Step, id: RequestId) {
    !step.Close? && step != FireTimer(id) && step != FailStdin(id)
  }

  /** An undisturbed request is pending until its real reply is read, and then settled with it. */
  ghost predicate JoinLaw(s: System, id: RequestId) {
    && (Tracked(s, id) ==> (id in s.client.pending <==> Total(s.received, ReplyTo(id)) == 0))
    && Total(s.client.settlements, AnyFor(id))
       == (if Tracked(s, id) then Total(s.received, ReplyTo(id)) else 0)
    && (forall i :: 0 <= i < |s.client.settlements| && s.client.settlements[i].id == id ==>
          s.client.settlements[i].outcome.Replied?)
  }

  lemma KeepsJoinLaw(s: System, step: Step, id: RequestId)
    requires Enabled(s, step) && PlainStep(s, step, id) && Undisturbed(step, id) && Inv(s, id) && JoinLaw(s, id)
    ensures JoinLaw(Apply(s, step), id)
  {
    if step.ReadLine? {
      ReadKeepsJoin(s, id);
    } else {
      OtherKeepsJoin(s, step, id);
    }
  }

  lemma OtherKeepsJoin(s: System, step: Step, id: RequestId)
    requires Enabled(s, step) && Undisturbed(step, id) && !step.ReadLine?
    requires JoinLaw(s, id) && WorkLaw(s, id) && DeliveryLaw(s, id)
    ensures JoinLaw(Apply(s, step), id)
  {
    match step {
      case FireTimer(other) => TimerKeepsJoin(s, other, id);
      case FailStdin(other) => WriteErrorKeepsJoin(s, other, id);
      case _ =>
    }
  }

  lemma TimerKeepsJoin(s: System, other: RequestId, id: RequestId)
    requires other in s.client.pending && other != id && JoinLaw(s, id)
    ensures JoinLaw(s.(client := Expire(s.client, other)), id)
  {
    var outcome := if s.client.pending[other].awaitingAsyncResult then AsyncTimedOut else TimedOut;
    SettleKeepsCalls(s.client, other, outcome, id);
  }

  lemma WriteErrorKeepsJoin(s: System, other: RequestId, id: RequestId)
    requires Enabled(s, FailStdin(other)) && other != id && JoinLaw(s, id)
    ensures JoinLaw(Apply(s, FailStdin(other)), id)
  {
    FailWriteDropsCall(s.client, other, id);
  }

  lemma ReadAtMostOnce(s: System, id: RequestId)
    requires WorkLaw(s, id) && DeliveryLaw(s, id)
    ensures Total(s.received, ReplyTo(id)) <= IssuedOnce(s, id)
  {
  }

  lemma ReadKeepsJoin(s: System, id: RequestId)
    requires Enabled(s, ReadLine) && Inv(s, id) && JoinLaw(s, id)
    ensures JoinLaw(Apply(s, ReadLine), id)
  {
    KeepsWorkLaw(s, ReadLine, id);
    KeepsDelivery(s, ReadLine, id);
    ReadAtMostOnce(Apply(s, ReadLine), id);
    ReadJoins(s, id);
  }

  lemma ReadJoins(s: System, id: RequestId)
    requires Enabled(s, ReadLine) && KindsValid(s) && MarkerLaw(s, id) && JoinLaw(s, id)
    requires Total(Apply(s, ReadLine).received, ReplyTo(id)) <= IssuedOnce(s, id)
    ensures JoinLaw(Apply(s, ReadLine), id)
  {
    var line := s.stdout[0];
    TotalAppend(s.received, line, ReplyTo(id));
    ReceiveKeepsCalls(s.client, line, id);
    if line.Response? && line.id == id && !IsAnswer(line) {
      MarkerIsFirst(s);
    }
  }

  lemma {:induction false} RunKeepsJoin(s: System, steps: seq<Step>, id: RequestId)
    requires Inv(s, id) && JoinLaw(s, id) && Legal(s, steps) && PlainRun(s, steps, id)
    requires forall i :: 0 <= i < |steps| ==> Undisturbed(steps[i], id)
    ensures Inv(Run(s, steps), id) && JoinLaw(Run(s, steps), id)
    decreases |steps|
  {
    if steps != [] {
      KeepsInv(s, steps[0], id);
      KeepsJoinLaw(s, steps[0], id);
      RunKeepsJoin(Apply(s, steps[0]), steps[1..], id);
    }
  }

  // -------------------------------------------------------------------------
  // Main results
  // -------------------------------------------------------------------------

  lemma StartTotals(id: RequestId)
    ensures WorkLaw(START, id) && DeliveryLaw(START, id) && MarkerLaw(START, id)
    ensures SettleLaw(START, id) && JoinLaw(START, id)
  {
  }

  lemma StartIsValid(id: RequestId)
    ensures Inv(START, id) && JoinLaw(START, id)
  {
    StartTotals(id);
    assert SchedulerInv(START) && KindsValid(START) && LinesValid(START, id) && RepliesRead(START, id);
  }

  ghost predicate Settled(s: System, id: RequestId, outcome: Outcome) {
    exists i :: 0 <= i < |s.client.settlements| && s.client.settlements[i] == Settlement(id, outcome)
  }

  lemma {:induction false} RunKeepsSettleLaw(s: System, steps: seq<Step>, id: RequestId)
    requires Legal(s, steps) && KindsValid(s) && SettleLaw(s, id)
    ensures KindsValid(Run(s, steps)) && SettleLaw(Run(s, steps), id)
    decreases |steps|
  {
    if steps != [] {
      KeepsKinds(s, steps[0]);
      KeepsSettleLaw(s, steps[0], id);
      RunKeepsSettleLaw(Apply(s, steps[0]), steps[1..], id);
    }
  }

  /** In every run a request settles at most once, a write callback apart, whatever the interleaving and the replies. */
  lemma SettlesAtMostOnce(steps: seq<Step>, i: nat, j: nat)
    requires Legal(START, steps)
    requires i < j < |Run(START, steps).client.settlements|
    requires
      var calls := Run(START, steps).client.settlements;
      calls[i].id == calls[j].id && !calls[i].outcome.WriteFailed?
    ensures Run(START, steps).client.settlements[j].outcome.WriteFailed?
  {
    var calls := Run(START, steps).client.settlements;
    var id := calls[i].id;
    StartIsValid(id);
    RunKeepsSettleLaw(START, steps, id);
    TotalOfTwo(calls, i, j, Regular(id));
    assert Regular(id)(calls[i]) == 1;
  }

  /** There is never more than one real reply to a request, and an accepted one has none but its worker's. */
  lemma OneRealReply(s: System, id: RequestId, line: Line)
    requires WorkLaw(s, id) && line.Response? && line.id == id
    requires line in s.finished || line in s.answered
    ensures id in s.issued
    ensures id in s.accepted ==> line in s.finished
    ensures forall other :: Response(id, other) in s.finished + s.answered ==> other == line.reply
  {
    if line in s.finished {
      var i :| 0 <= i < |s.finished| && s.finished[i] == line;
      TotalOfMember(s.finished, i, ReplyTo(id));
    } else {
      var i :| 0 <= i < |s.answered| && s.answered[i] == line;
      TotalOfMember(s.answered, i, ReplyTo(id));
    }
    if id in s.accepted && line !in s.finished {
      var k :| 0 <= k < |s.accepted| && s.accepted[k] == id;
      TotalOfMember(s.accepted, k, Is(id));
      assert false;
    }
    forall other | Response(id, other) in s.finished + s.answered ensures other == line.reply {
      TotalConcat(s.finished, s.answered, ReplyTo(id));
      OnlyOne(s.finished + s.answered, id, line, Response(id, other));
    }
  }

  lemma OnlyOne(lines: seq<Line>, id: RequestId, a: Line, b: Line)
    requires Total(lines, ReplyTo(id)) <= 1 && a in lines && b in lines
    requires a.Response? && b.Response? && a.id == b.id == id
    ensures a == b
  {
    var i :| 0 <= i < |lines| && lines[i] == a;
    var j :| 0 <= j < |lines| && lines[j] == b;
    if i < j {
      TotalOfTwo(lines, i, j, ReplyTo(id));
    } else if j < i {
      TotalOfTwo(lines, j, i, ReplyTo(id));
    }
  }

  /** The reply of the worker for an accepted invoke, of the main loop for any other request. */
  ghost predicate IsRealReply(s: System, id: RequestId, reply: Reply) {
    Response(id, reply) in (if id in s.accepted then s.finished else s.answered)
  }

  /** A caller is never given the accepted marker: only the one real reply, the worker's own for an accepted invoke. */
  lemma SettlesWithRealReply(steps: seq<Step>, id: RequestId, reply: Reply)
    requires Legal(START, steps) && OrdinaryReplies(Run(START, steps), id)
    requires Settled(Run(START, steps), id, Replied(reply))
    ensures !SaysAcceptedAsync(reply)
    ensures
      var s := Run(START, steps);
      IsRealReply(s, id, reply) && (forall other :: Response(id, other) in s.finished + s.answered ==> other == reply)
  {
    StartIsValid(id);
    OrdinaryRunIsPlain(START, steps, id);
    RunKeepsInv(START, steps, id);
    var s := Run(START, steps);
    var line := Response(id, reply);
    assert line in s.received;
    OneRealReply(s, id, line);
    if id !in s.accepted && line !in s.answered {
      var i :| 0 <= i < |s.finished| && s.finished[i] == line;
      TotalOfMember(s.finished, i, ReplyTo(id));
      var k := PositiveMember(s.accepted, Is(id));
      assert false;
    }
  }

  /** Nothing is left to do: no line is unread and no worker is busy. */
  ghost predicate Quiescent(s: System) {
    s.stdin == [] && s.output == [] && s.sink == [] && s.stdout == []
    && forall p :: 0 <= p < |s.scheduler.pools| ==>
      s.scheduler.pools[p].queue == [] && s.scheduler.pools[p].running == [] && s.scheduler.pools[p].delivering == []
  }

  lemma {:induction false} QuietPools(pools: seq<Pool>, id: RequestId)
    requires forall p :: 0 <= p < |pools| ==>
      pools[p].queue == [] && pools[p].running == [] && pools[p].delivering == []
    ensures Total(pools, PoolJobs(id)) == 0 && Total(pools, PoolReplies(id)) == 0
  {
    if pools != [] {
      QuietPools(pools[1..], id);
    }
  }

  /**
   * With no timeout, write error or close, a request has settled exactly once
   * when the system comes to rest, and with its real reply, whichever of its
   * two lines the client read first.
   */
  lemma QuiescentMeansSettled(steps: seq<Step>, id: RequestId)
    requires Legal(START, steps) && OrdinaryReplies(Run(START, steps), id) && Quiescent(Run(START, steps))
    requires forall i :: 0 <= i < |steps| ==> Undisturbed(steps[i], id)
    requires Tracked(Run(START, steps), id)
    ensures
      var s := Run(START, steps);
      && Total(s.client.settlements, AnyFor(id)) == 1
      && exists reply :: Settled(s, id, Replied(reply)) && IsRealReply(s, id, reply)
  {
    StartIsValid(id);
    OrdinaryRunIsPlain(START, steps, id);
    RunKeepsJoin(START, steps, id);
    var s := Run(START, steps);
    QuietPools(s.scheduler.pools, id);
    var i := PositiveMember(s.client.settlements, AnyFor(id));
    var reply := s.client.settlements[i].outcome.reply;
    assert Settled(s, id, Replied(reply));
    SettlesWithRealReply(steps, id, reply);
  }

  // -------------------------------------------------------------------------
  // Progress: the system comes to rest, and cannot stop before it does
  // -------------------------------------------------------------------------

  const PLAIN_REPLY := Success(CanonicalJson.Null)

  predicate Internal(step: Step) {
    !step.Issue? && !step.FireTimer? && !step.FailStdin? && !step.Close?
  }

  ghost function PoolWork(): Pool -> nat {
    (p: Pool) => 5 * |p.queue| + 4 * |p.running| + 3 * |p.delivering|
  }

  ghost function Work(s: System): nat {
    10 * |s.stdin| + (match s.phase case Idle => 2 case Loaded(_) => 1 case Reserved => 0)
    + 2 * |s.output| + Total(s.scheduler.pools, PoolWork()) + 2 * |s.sink| + |s.stdout|
  }

  lemma DispatchStepWorks(s: System, step: Step)
    requires Enabled(s, step) && SchedulerInv(s) && (step.ReserveSlot? || step.SubmitJob?)
    ensures Work(Apply(s, step)) < Work(s)
  {
    var pools := s.scheduler.pools;
    if step.ReserveSlot? {
      TotalAppend(pools, Pool(PoolThreads(s.scheduler.policy), [], [], []), PoolWork());
    } else {
      var last := pools[|pools| - 1];
      TotalUpdate(pools, |pools| - 1, last.(queue := last.queue + [s.stdin[0].id]), PoolWork());
    }
  }

  lemma WorkerStepWorks(s: System, step: Step, p: nat)
    requires Enabled(s, step)
    requires step == TakeJob(p) || (step.FinishJob? && step.pool == p) || (step.DeliverReply? && step.pool == p)
    ensures Work(Apply(s, step)) < Work(s)
  {
    TotalUpdate(s.scheduler.pools, p, Apply(s, step).scheduler.pools[p], PoolWork());
  }

  lemma InternalStepWorks(s: System, step: Step)
    requires Enabled(s, step) && Internal(step) && SchedulerInv(s)
    ensures Work(Apply(s, step)) < Work(s)
  {
    match step {
      case ReserveSlot(_) => DispatchStepWorks(s, step);
      case SubmitJob(_) => DispatchStepWorks(s, step);
      case TakeJob(p) => WorkerStepWorks(s, step, p);
      case FinishJob(p, _, _) => WorkerStepWorks(s, step, p);
      case DeliverReply(p, _) => WorkerStepWorks(s, step, p);
      case _ =>
    }
  }

  /** However the workers and writers are scheduled, they stop after at most `Work` steps. */
  lemma {:induction false} InternalRunsEnd(s: System, steps: seq<Step>)
    requires SchedulerInv(s) && Legal(s, steps)
    requires forall i :: 0 <= i < |steps| ==> Internal(steps[i])
    ensures |steps| + Work(Run(s, steps)) <= Work(s)
    decreases |steps|
  {
    if steps != [] {
      InternalStepWorks(s, steps[0]);
      KeepsSchedulerInv(s, steps[0]);
      InternalRunsEnd(Apply(s, steps[0]), steps[1..]);
    }
  }

  /** The system is at rest exactly when no internal step is possible. */
  lemma RestMeansQuiescent(s: System)
    requires SchedulerInv(s)
    ensures Quiescent(s) <==> !exists step :: Internal(step) && PlainReply(step) && Enabled(s, step)
  {
    if !Quiescent(s) {
      var step := SomeInternalStep(s);
    }
  }

  lemma SomeInternalStep(s: System) returns (step: Step)
    requires SchedulerInv(s) && !Quiescent(s)
    ensures Internal(step) && PlainReply(step) && Enabled(s, step)
  {
    if s.output != [] {
      step := WriteOutput;
    } else if s.sink != [] {
      step := WriteSink;
    } else if s.stdout != [] {
      step := ReadLine;
    } else if s.stdin != [] {
      step := match s.phase
        case Idle => Answer(PLAIN_REPLY)
        case Loaded(seen) => if seen >= QueueCap(s.scheduler.policy) then RefuseBusy else ReserveSlot(true)
        case Reserved => SubmitJob(true);
    } else {
      var p :| 0 <= p < |s.scheduler.pools| && !(s.scheduler.pools[p].queue == []
        && s.scheduler.pools[p].running == [] && s.scheduler.pools[p].delivering == []);
      TotalOfMember(s.scheduler.pools, p, PoolLoad());
      assert PoolValid(s.scheduler.pools[p]);
      step := if s.scheduler.pools[p].running != [] then FinishJob(p, 0, PLAIN_REPLY)
              else if s.scheduler.pools[p].delivering != [] then DeliverReply(p, 0)
              else TakeJob(p);
    }
  }

  /** From any state the system can be brought to rest, with plain replies throughout. */
  lemma {:induction false} CanComeToRest(s: System) returns (steps: seq<Step>)
    requires SchedulerInv(s)
    ensures Legal(s, steps) && Quiescent(Run(s, steps))
    ensures forall i :: 0 <= i < |steps| ==> Internal(steps[i]) && PlainReply(steps[i])
    decreases Work(s)
  {
    if Quiescent(s) {
      steps := [];
    } else {
      var step := SomeInternalStep(s);
      InternalStepWorks(s, step);
      KeepsSchedulerInv(s, step);
      var rest := CanComeToRest(Apply(s, step));
      steps := [step] + rest;
      assert steps[1..] == rest;
    }
  }

  // -------------------------------------------------------------------------
  // Scheduler conservation over runs
  // -------------------------------------------------------------------------

  /** Every reachable state meets what the progress results ask for. */
  lemma {:induction false} RunKeepsScheduler(s: System, steps: seq<Step>)
    requires SchedulerInv(s) && Legal(s, steps)
    ensures SchedulerInv(Run(s, steps))
    decreases |steps|
  {
    if steps != [] {
      KeepsSchedulerInv(s, steps[0]);
      RunKeepsScheduler(Apply(s, steps[0]), steps[1..]);
    }
  }

  lemma {:induction false} RunKeepsWork(s: System, steps: seq<Step>, id: RequestId)
    requires WorkLaw(s, id) && Legal(s, steps)
    ensures WorkLaw(Run(s, steps), id)
    decreases |steps|
  {
    if steps != [] {
      KeepsWorkLaw(s, steps[0], id);
      RunKeepsWork(Apply(s, steps[0]), steps[1..], id);
    }
  }

  /** A policy with at least one thread sets a queue cap of at most `cap`, or leaves it at 64. */
  predicate CappedAt(policy: Option<SchedulerPolicy>, cap: nat) {
    match policy
    case Some(SchedulerPolicy(Some(threads), Some(queueCap))) => threads > 0 ==> queueCap <= cap
    case Some(SchedulerPolicy(Some(threads), None)) => threads > 0 ==> 64 <= cap
    case _ => true
  }

  lemma CapIsItsFields(policy: Option<SchedulerPolicy>, cap: nat)
    ensures CappedAt(policy, cap) <==> AsyncCap(policy) <= cap
  {
  }

  /** Every policy a host sends that turns the pool on caps it at `cap`. */
  ghost predicate CapsWithin(requests: seq<Request>, cap: nat) {
    forall i :: 0 <= i < |requests| && requests[i].kind.PolicySet? ==> CappedAt(requests[i].kind.scheduler, cap)
  }

  ghost function IssuedBy(steps: seq<Step>): seq<Request> {
    if steps == [] then []
    else (if steps[0].Issue? then [steps[0].request] else []) + IssuedBy(steps[1..])
  }

  lemma CapsWithinParts(a: seq<Request>, b: seq<Request>, cap: nat)
    requires CapsWithin(a + b, cap)
    ensures CapsWithin(a, cap) && CapsWithin(b, cap)
  {
    assert forall i :: 0 <= i < |a| ==> a[i] == (a + b)[i];
    assert forall i :: 0 <= i < |b| ==> b[i] == (a + b)[|a| + i];
  }

  /** The cap in force, the largest so far and those still to be read are all within `cap`. */
  ghost predicate Capped(s: System, cap: nat) {
    CapsWithin(s.stdin, cap) && AsyncCap(s.scheduler.policy) <= s.highCap <= cap
  }

  lemma StepKeepsCapped(s: System, step: Step, cap: nat)
    requires Enabled(s, step) && Capped(s, cap)
    requires step.Issue? ==> CapsWithin([step.request], cap)
    ensures Capped(Apply(s, step), cap)
  {
    match step {
      case Issue(request) => assert [request][0] == request;
      case Answer(_) =>
        if s.stdin[0].kind.PolicySet? {
          CapIsItsFields(s.stdin[0].kind.scheduler, cap);
        }
      case _ =>
    }
  }

  lemma {:induction false} HighCapWithin(s: System, steps: seq<Step>, cap: nat)
    requires Legal(s, steps) && Capped(s, cap) && CapsWithin(IssuedBy(steps), cap)
    ensures Capped(Run(s, steps), cap)
    decreases |steps|
  {
    if steps != [] {
      CapsWithinParts(if steps[0].Issue? then [steps[0].request] else [], IssuedBy(steps[1..]), cap);
      StepKeepsCapped(s, steps[0], cap);
      HighCapWithin(Apply(s, steps[0]), steps[1..], cap);
    }
  }

  /**
   * In every run the counter is the jobs queued or running, over the current
   * and all replaced pools, plus the slot being filled; under a fixed cap it
   * never exceeds the cap.
   */
  lemma InFlightIsConserved(steps: seq<Step>, cap: nat)
    requires Legal(START, steps) && CapsWithin(IssuedBy(steps), cap)
    ensures
      var s := Run(START, steps);
      && s.scheduler.inFlight == Total(s.scheduler.pools, PoolLoad()) + (if s.phase.Reserved? then 1 else 0)
      && s.scheduler.inFlight <= cap
  {
    RunKeepsScheduler(START, steps);
    HighCapWithin(START, steps, cap);
  }

  /** A pool whose workers all run jobs holds at most cap minus threads in its queue. */
  lemma QueueBoundWhileRunning(steps: seq<Step>, cap: nat, p: nat)
    requires Legal(START, steps) && CapsWithin(IssuedBy(steps), cap)
    requires p < |Run(START, steps).scheduler.pools|
    ensures
      var pool := Run(START, steps).scheduler.pools[p];
      && |pool.queue| + |pool.running| <= cap
      && (|pool.running| == pool.threads ==> |pool.queue| <= cap - pool.threads)
  {
    InFlightIsConserved(steps, cap);
    TotalOfMember(Run(START, steps).scheduler.pools, p, PoolLoad());
  }

  /** An accepted job is held by exactly one pool or has put exactly one envelope in the sink. */
  lemma OneEnvelopePerJob(steps: seq<Step>, id: RequestId)
    requires Legal(START, steps)
    ensures
      var s := Run(START, steps);
      Total(s.scheduler.pools, PoolJobs(id)) + Total(s.scheduler.pools, PoolReplies(id)) + Total(s.sunk, ReplyTo(id))
      == Total(s.accepted, Is(id)) <= 1
  {
    StartIsValid(id);
    RunKeepsWork(START, steps, id);
  }

  // -------------------------------------------------------------------------
  // Runs that show the hypotheses matter
  // -------------------------------------------------------------------------

  const ONE_THREAD := PolicySet(Some(SchedulerPolicy(Some(1), Some(1))))

  lemma {:induction false} Extend(s: System, steps: seq<Step>, step: Step)
    requires Legal(s, steps) && Enabled(Run(s, steps), step)
    ensures Legal(s, steps + [step]) && Run(s, steps + [step]) == Apply(Run(s, steps), step)
    decreases |steps|
  {
    if steps == [] {
      assert ([] + [step])[1..] == [];
    } else {
      Extend(Apply(s, steps[0]), steps[1..], step);
      assert (steps + [step])[1..] == steps[1..] + [step];
    }
  }

  ghost predicate Reaches(steps: seq<Step>, s: System) {
    Legal(START, steps) && Run(START, steps) == s
  }

  lemma Then(steps: seq<Step>, s: System, step: Step) returns (longer: seq<Step>, next: System)
    requires Reaches(steps, s) && Enabled(s, step)
    ensures Reaches(longer, next) && next == Apply(s, step) && longer == steps + [step]
  {
    Extend(START, steps, step);
    longer, next := steps + [step], Apply(s, step);
  }

  lemma PolicyAnswered() returns (steps: seq<Step>, s: System)
    ensures Reaches(steps, s)
    ensures s.client == NEW_CLIENT && s.stdin == [] && s.phase == Idle
    ensures s.scheduler == Scheduler(ONE_THREAD.scheduler, [], 0)
    ensures s.output == [] && s.sink == [] && s.stdout == []
    ensures s.issued.Keys == {"p"} && s.highCap == 1
  {
    steps, s := [], START;
    steps, s := Then(steps, s, Issue(Request("p", ONE_THREAD)));
    steps, s := Then(steps, s, Answer(PLAIN_REPLY));
    steps, s := Then(steps, s, WriteOutput);
    steps, s := Then(steps, s, ReadLine);
  }

  /** A host sets one thread and a cap of one, and invoke "a" is accepted; its marker is not yet written. */
  lemma FirstAccepted() returns (steps: seq<Step>, s: System)
    ensures Reaches(steps, s)
    ensures s.client == Register(NEW_CLIENT, "a", Invoke) && s.stdin == [] && s.phase == Idle
    ensures s.scheduler == Scheduler(ONE_THREAD.scheduler, [Pool(1, ["a"], [], [])], 1)
    ensures s.output == [Response("a", Success(ACCEPTED))] && s.sink == [] && s.stdout == []
    ensures s.issued.Keys == {"p", "a"} && s.highCap == 1
  {
    steps, s := PolicyAnswered();
    steps, s := Then(steps, s, Issue(Request("a", Invoke)));
    steps, s := Then(steps, s, LoadInFlight);
    steps, s := Then(steps, s, ReserveSlot(true));
    assert s.scheduler.pools == [Pool(1, [], [], [])];
    steps, s := Then(steps, s, SubmitJob(true));
    assert s.scheduler.pools[0].queue == ["a"];
  }

  /** The worker has made its envelope, and has yet to put it in the sink. */
  lemma FirstFinished(reply: Reply) returns (steps: seq<Step>, s: System)
    ensures Reaches(steps, s)
    ensures s.client == Register(NEW_CLIENT, "a", Invoke) && s.stdin == [] && s.phase == Idle
    ensures s.scheduler == Scheduler(ONE_THREAD.scheduler, [Pool(1, [], [], [Response("a", reply)])], 0)
    ensures s.output == [Response("a", Success(ACCEPTED))] && s.sink == [] && s.stdout == []
    ensures s.issued.Keys == {"p", "a"} && s.highCap == 1
  {
    steps, s := FirstAccepted();
    steps, s := Then(steps, s, TakeJob(0));
    assert s.scheduler.pools[0].queue == [] && s.scheduler.pools[0].running == ["a"];
    steps, s := Then(steps, s, FinishJob(0, 0, reply));
    assert s.scheduler.pools[0].running == [] && s.scheduler.pools[0].delivering == [Response("a", reply)];
  }

  lemma Overtaken(reply: Reply)
    ensures
      var c := Register(NEW_CLIENT, "a", Invoke);
      ReceiveResponse(ReceiveResponse(c, "a", reply), "a", Success(ACCEPTED)).settlements
      == [Settlement("a", Replied(if SaysAcceptedAsync(reply) then Success(ACCEPTED) else reply))]
  {
    MarkerByMembers(Success(ACCEPTED));
    JoinsInEitherOrder(Register(NEW_CLIENT, "a", Invoke), "a", Success(ACCEPTED), reply);
  }

  /**
   * The worker's envelope can overtake the marker. The join still gives the
   * envelope, unless its result looks like the marker: then the caller is
   * given the marker, so that hypothesis cannot be dropped.
   */
  lemma EnvelopeOvertakesMarker(reply: Reply) returns (steps: seq<Step>, s: System)
    ensures Reaches(steps, s)
    ensures s.client.settlements
         == [Settlement("a", Replied(if SaysAcceptedAsync(reply) then Success(ACCEPTED) else reply))]
  {
    steps, s := FirstFinished(reply);
    steps, s := Then(steps, s, DeliverReply(0, 0));
    steps, s := Then(steps, s, WriteSink);
    assert s.stdout == [Response("a", reply)];
    steps, s := Then(steps, s, ReadLine);
    assert s.stdout == [];
    var envelopeRead := s.client;
    steps, s := Then(steps, s, WriteOutput);
    assert s.client == envelopeRead && s.stdout == [Response("a", Success(ACCEPTED))];
    steps, s := Then(steps, s, ReadLine);
    Overtaken(reply);
  }
}
