/** One wasm plugin instance: its memory limiter, its fuel, and what of both reaches the accounting. */
module WasmTelemetries {
  import opened Wrappers
  import opened Sequences
  import opened Accounting

  const PAGE_BYTES: nat := 65536

  function Minus(a: nat, b: nat): nat {
    if a < b then 0 else a - b
  }

  // -------------------------------------------------------------------------
  // The limiter
  // -------------------------------------------------------------------------

  datatype Limiter = Limiter(softPages: nat, hardPages: nat, softBreaches: nat, denials: nat)

  function NewLimiter(softPages: nat, hardPages: nat): Limiter {
    Limiter(if softPages < hardPages then softPages else hardPages, hardPages, 0, 0)
  }

  predicate Denied(hardPages: nat, desired: nat) {
    desired / PAGE_BYTES > hardPages
  }

  predicate Pressing(l: Limiter, desired: nat) {
    l.softPages < desired / PAGE_BYTES <= l.hardPages
  }

  function Asked(l: Limiter, desired: nat): Limiter {
    if Denied(l.hardPages, desired) then l.(denials := l.denials + 1)
    else if Pressing(l, desired) then l.(softBreaches := l.softBreaches + 1)
    else l
  }

  class MemoryLimiter {
    var softPages: nat
    var hardPages: nat
    var softBreaches: nat
    var denials: nat

    function State(): Limiter
      reads this
    {
      Limiter(softPages, hardPages, softBreaches, denials)
    }

    constructor (softPages: nat, hardPages: nat)
      ensures State() == NewLimiter(softPages, hardPages)
    {
      this.softPages := if softPages < hardPages then softPages else hardPages;
      this.hardPages := hardPages;
      softBreaches, denials := 0, 0;
    }

    /** `desired` is the total size asked for, in bytes. */
    method MemoryGrowing(desired: nat) returns (granted: bool)
      modifies this
      ensures State() == Asked(old(State()), desired)
      ensures granted <==> !Denied(hardPages, desired)
    {
      var desiredPages := desired / PAGE_BYTES;
      if desiredPages > hardPages {
        denials := denials + 1;
        return false;
      }
      if desiredPages > softPages {
        softBreaches := softBreaches + 1;
      }
      return true;
    }
  }

  /**
   * A granted size lies within the cap's bytes exactly when it is a whole
   * number of pages or needs fewer pages than the cap.
   */
  lemma GrantedWithinCap(hardPages: nat, desired: nat)
    requires !Denied(hardPages, desired)
    ensures desired <= hardPages * 65536 <==> desired % 65536 == 0 || desired / 65536 < hardPages
  {
  }

  // -------------------------------------------------------------------------
  // The instance
  // -------------------------------------------------------------------------

  /** A size asked for by `memory.grow`, and whether the engine can provide it once the limiter agrees. */
  datatype Growth = Growth(desired: nat, fits: bool)

  /** One run of guest code under a fuel budget. */
  datatype Guest = Guest(growths: seq<Growth>, fuel: nat, burned: nat)

  datatype Plugin = Plugin(
    limiter: Limiter, memory: nat, reported: (nat, nat), pendingFuel: Option<nat>, remainingFuel: nat)

  function Grown(p: Plugin, g: Growth): Plugin {
    p.(limiter := Asked(p.limiter, g.desired),
       memory := if !Denied(p.limiter.hardPages, g.desired) && g.fits then g.desired else p.memory)
  }

  function GrownAll(p: Plugin, growths: seq<Growth>): Plugin {
    if growths == [] then p else Grown(GrownAll(p, growths[..|growths| - 1]), growths[|growths| - 1])
  }

  function Ran(p: Plugin, g: Guest): Plugin {
    GrownAll(p, g.growths).(pendingFuel := Some(g.fuel), remainingFuel := Minus(g.fuel, g.burned))
  }

  function FuelTaken(p: Plugin): (Plugin, Option<nat>) {
    if p.pendingFuel.None? then (p, None)
    else (p.(pendingFuel := None), Some(Minus(p.pendingFuel.value, p.remainingFuel)))
  }

  function EventsTaken(p: Plugin): (Plugin, (nat, nat)) {
    (p.(reported := (p.limiter.softBreaches, p.limiter.denials)),
     (Minus(p.limiter.softBreaches, p.reported.0), Minus(p.limiter.denials, p.reported.1)))
  }

  function Drained(p: Plugin): (Plugin, WasmTelemetry) {
    var (p1, consumed) := FuelTaken(p);
    var (p2, events) := EventsTaken(p1);
    (p2, WasmTelemetry(consumed, Some(events), p2.memory))
  }

  class WasmPlugin {
    const limiter: MemoryLimiter
    var memory: nat
    var reported: (nat, nat)
    var pendingFuel: Option<nat>
    // The engine's fuel left in the store.
    var remainingFuel: nat

    ghost function State(): Plugin
      reads this, limiter
    {
      Plugin(limiter.State(), memory, reported, pendingFuel, remainingFuel)
    }

    constructor (limiter: MemoryLimiter)
      ensures this.limiter == limiter
      ensures State() == Plugin(limiter.State(), 0, (0, 0), None, 0)
    {
      this.limiter := limiter;
      memory, reported, pendingFuel, remainingFuel := 0, (0, 0), None, 0;
    }

    method ArmFuel(fuel: nat)
      modifies this`pendingFuel, this`remainingFuel
      ensures pendingFuel == Some(fuel) && remainingFuel == fuel
    {
      remainingFuel := fuel;
      pendingFuel := Some(fuel);
    }

    method Grow(g: Growth)
      modifies this`memory, limiter
      ensures State() == Grown(old(State()), g)
    {
      var granted := limiter.MemoryGrowing(g.desired);
      if granted && g.fits {
        memory := g.desired;
      }
    }

    method RunGuest(g: Guest)
      modifies this, limiter
      ensures State() == Ran(old(State()), g)
    {
      ArmFuel(g.fuel);
      ghost var armed := State();
      for i := 0 to |g.growths|
        invariant State() == GrownAll(armed, g.growths[..i])
      {
        assert g.growths[..i + 1][..i] == g.growths[..i];
        Grow(g.growths[i]);
      }
      assert g.growths[..|g.growths|] == g.growths;
      GrowthKeepsFuel(armed, g.growths);
      GrowthIgnoresFuel(old(State()), g.growths, Some(g.fuel), g.fuel);
      remainingFuel := Minus(remainingFuel, g.burned);
    }

    method TakeFuelConsumed() returns (consumed: Option<nat>)
      modifies this`pendingFuel
      ensures (State(), consumed) == FuelTaken(old(State()))
    {
      if pendingFuel.None? {
        return None;
      }
      var armed := pendingFuel.value;
      pendingFuel := None;
      return Some(Minus(armed, remainingFuel));
    }

    method TakeMemoryEvents() returns (events: (nat, nat))
      modifies this`reported
      ensures (State(), events) == EventsTaken(old(State()))
    {
      var current := (limiter.softBreaches, limiter.denials);
      events := (Minus(current.0, reported.0), Minus(current.1, reported.1));
      reported := current;
    }

    method Drain() returns (t: WasmTelemetry)
      modifies this
      ensures (State(), t) == Drained(old(State()))
    {
      var consumed := TakeFuelConsumed();
      var events := TakeMemoryEvents();
      t := WasmTelemetry(consumed, Some(events), memory);
    }
  }

  lemma {:induction false} GrowthKeepsFuel(p: Plugin, growths: seq<Growth>)
    ensures GrownAll(p, growths).pendingFuel == p.pendingFuel
    ensures GrownAll(p, growths).remainingFuel == p.remainingFuel
    ensures GrownAll(p, growths).reported == p.reported
  {
    if growths != [] {
      GrowthKeepsFuel(p, growths[..|growths| - 1]);
    }
  }

  lemma {:induction false} GrowthIgnoresFuel(p: Plugin, growths: seq<Growth>, pending: Option<nat>, left: nat)
    ensures GrownAll(p.(pendingFuel := pending, remainingFuel := left), growths)
         == GrownAll(p, growths).(pendingFuel := pending, remainingFuel := left)
  {
    if growths != [] {
      GrowthIgnoresFuel(p, growths[..|growths| - 1], pending, left);
    }
  }

  // -------------------------------------------------------------------------
  // The daemon's use of an instance
  // -------------------------------------------------------------------------

  /**
   * `ran` is absent when the call fails before the budget is armed. A byte
   * invoke always drains; a JSON invoke drains only when it succeeds; a tick
   * and a lifecycle call never do.
   */
  datatype Op =
    | InvokeBytes(ran: Option<Guest>, outcome: Outcome, elapsedNs: nat, slice: Option<nat>)
    | InvokeJson(ran: Option<Guest>, outcome: Outcome, elapsedNs: nat, slice: Option<nat>)
    | Tick(ran: Option<Guest>)
    | Lifecycle(ran: Option<Guest>)

  datatype Daemon = Daemon(plugin: Plugin, books: Books)

  const NOTHING := WasmTelemetry(None, None, 0)

  predicate Drains(op: Op) {
    op.InvokeBytes? || (op.InvokeJson? && op.outcome.Ok?)
  }

  function AfterGuest(p: Plugin, op: Op): Plugin {
    if op.ran.Some? then Ran(p, op.ran.value) else p
  }

  function Do(d: Daemon, id: string, op: Op): Daemon {
    var p := AfterGuest(d.plugin, op);
    var (q, t) := if Drains(op) then Drained(p) else (p, NOTHING);
    if op.InvokeBytes? || op.InvokeJson? then
      Daemon(q, SeparatePasses(d.books, id, op.outcome, op.elapsedNs, t, op.slice))
    else Daemon(q, d.books)
  }

  /** One loaded instance and the daemon's books. */
  class DataPlane {
    const id: string
    const plugin: WasmPlugin
    const kernel: KernelDaemon

    ghost predicate Valid()
      reads kernel
    {
      kernel.Valid()
    }

    ghost function State(): Daemon
      reads plugin, plugin.limiter, kernel, kernel.accounting.Values
    {
      Daemon(plugin.State(), kernel.State())
    }

    constructor (id: string, plugin: WasmPlugin, kernel: KernelDaemon)
      ensures this.id == id && this.plugin == plugin && this.kernel == kernel
    {
      this.id, this.plugin, this.kernel := id, plugin, kernel;
    }

    method RunIfArmed(ran: Option<Guest>)
      modifies plugin, plugin.limiter
      ensures plugin.State() == if ran.Some? then Ran(old(plugin.State()), ran.value) else old(plugin.State())
    {
      if ran.Some? {
        plugin.RunGuest(ran.value);
      }
    }

    method Invoke(ran: Option<Guest>, outcome: Outcome, elapsedNs: nat)
      requires Valid()
      modifies plugin, plugin.limiter, kernel`accounting, kernel`audit, kernel.accounting.Values
      ensures Valid()
      ensures State() == Do(old(State()), id, InvokeBytes(ran, outcome, elapsedNs, kernel.Slice(id)))
    {
      ghost var books := kernel.State();
      RunIfArmed(ran);
      var t := plugin.Drain();
      assert kernel.State() == books;
      ghost var drained := plugin.State();
      kernel.SettleInvoke(id, outcome, elapsedNs, t);
      assert plugin.State() == drained;
    }

    method InvokeAsJson(ran: Option<Guest>, outcome: Outcome, elapsedNs: nat)
      requires Valid()
      modifies plugin, plugin.limiter, kernel`accounting, kernel`audit, kernel.accounting.Values
      ensures Valid()
      ensures State() == Do(old(State()), id, InvokeJson(ran, outcome, elapsedNs, kernel.Slice(id)))
    {
      ghost var books := kernel.State();
      RunIfArmed(ran);
      assert kernel.State() == books;
      ghost var slice := kernel.Slice(id);
      kernel.AccountCall(id, elapsedNs);
      if outcome.Err? {
        kernel.AccountFuelTrapPass(id, outcome.error);
        FailedPasses(books, id, outcome, elapsedNs, slice);
      } else {
        DrainTelemetry();
      }
    }

    method DrainTelemetry()
      requires Valid()
      modifies plugin, kernel`accounting, kernel`audit, kernel.accounting.Values
      ensures Valid()
      ensures
        var (p, t) := Drained(old(plugin.State()));
        State() == Daemon(p, Charged(old(kernel.State()), id, t, kernel.Slice(id)))
    {
      var t := plugin.Drain();
      kernel.ObserveWasmMemoryPass(id, t.events.value.0, t.events.value.1, t.usage);
      if t.consumed.Some? {
        kernel.AccountFuelConsumedPass(id, t.consumed.value);
      }
    }

    method TickBytes(ran: Option<Guest>)
      requires Valid()
      modifies plugin, plugin.limiter
      ensures Valid()
      ensures State() == Do(old(State()), id, Tick(ran))
    {
      RunIfArmed(ran);
    }
  }

  lemma FailedPasses(b: Books, id: string, outcome: Outcome, elapsedNs: nat, slice: Option<nat>)
    requires outcome.Err?
    ensures SeparatePasses(b, id, outcome, elapsedNs, NOTHING, slice)
         == AccountFuelTrap(Account(b, id, elapsedNs), id, outcome.error)
  {
  }

  /** What drained telemetry does to the books. */
  function Charged(b: Books, id: string, t: WasmTelemetry, slice: Option<nat>): Books {
    var b1 := if t.events.Some? then ObserveWasmMemory(b, id, t.events.value.0, t.events.value.1, t.usage) else b;
    if t.consumed.Some? then AccountFuelConsumed(b1, id, t.consumed.value, slice) else b1
  }

  function Start(softPages: nat, hardPages: nat, initial: seq<Growth>): Daemon {
    Daemon(GrownAll(Plugin(NewLimiter(softPages, hardPages), 0, (0, 0), None, 0), initial), Books(map[], []))
  }

  function Run(start: Daemon, id: string, ops: seq<Op>): Daemon {
    if ops == [] then start else Do(Run(start, id, ops[..|ops| - 1]), id, ops[|ops| - 1])
  }

  // -------------------------------------------------------------------------
  // Memory events
  // -------------------------------------------------------------------------

  function GrowthsOf(op: Op): seq<Growth> {
    if op.ran.Some? then op.ran.value.growths else []
  }

  /** Every growth the instance asked for, oldest first. */
  function AllGrowths(initial: seq<Growth>, ops: seq<Op>): seq<Growth> {
    if ops == [] then initial else AllGrowths(initial, ops[..|ops| - 1]) + GrowthsOf(ops[|ops| - 1])
  }

  /** The requests beyond the hard cap, counted over the whole history. */
  function CountDenied(hardPages: nat, growths: seq<Growth>): nat {
    if growths == [] then 0
    else
      CountDenied(hardPages, growths[..|growths| - 1])
      + if growths[|growths| - 1].desired / 65536 > hardPages then 1 else 0
  }

  /** The requests beyond the soft cap and not beyond the hard cap. */
  function CountPressing(softPages: nat, hardPages: nat, growths: seq<Growth>): nat {
    if growths == [] then 0
    else
      CountPressing(softPages, hardPages, growths[..|growths| - 1])
      + if softPages < growths[|growths| - 1].desired / 65536 <= hardPages then 1 else 0
  }

  lemma {:induction false} GrownAllConcat(p: Plugin, a: seq<Growth>, b: seq<Growth>)
    ensures GrownAll(p, a + b) == GrownAll(GrownAll(p, a), b)
  {
    if b == [] {
      assert a + b == a;
    } else {
      GrownAllConcat(p, a, b[..|b| - 1]);
      assert (a + b)[..|a + b| - 1] == a + b[..|b| - 1];
    }
  }

  lemma {:induction false} LimiterCounts(p: Plugin, growths: seq<Growth>)
    ensures
      var l := GrownAll(p, growths).limiter;
      && l.softPages == p.limiter.softPages && l.hardPages == p.limiter.hardPages
      && l.denials == p.limiter.denials + CountDenied(p.limiter.hardPages, growths)
      && l.softBreaches == p.limiter.softBreaches + CountPressing(p.limiter.softPages, p.limiter.hardPages, growths)
  {
    if growths != [] {
      LimiterCounts(p, growths[..|growths| - 1]);
    }
  }

  lemma OpGrows(d: Daemon, id: string, op: Op)
    ensures Do(d, id, op).plugin.limiter == GrownAll(d.plugin, GrowthsOf(op)).limiter
    ensures Do(d, id, op).plugin.memory == GrownAll(d.plugin, GrowthsOf(op)).memory
  {
  }

  /** Growth by growth, the instance and its counters do not see where one call ends and the next begins. */
  lemma {:induction false} RunGrows(start: Plugin, id: string, initial: seq<Growth>, b: Books, ops: seq<Op>)
    ensures
      var p := Run(Daemon(GrownAll(start, initial), b), id, ops).plugin;
      var q := GrownAll(start, AllGrowths(initial, ops));
      p.limiter == q.limiter && p.memory == q.memory
  {
    if ops != [] {
      var before, op := Run(Daemon(GrownAll(start, initial), b), id, ops[..|ops| - 1]).plugin, ops[|ops| - 1];
      var all := AllGrowths(initial, ops[..|ops| - 1]);
      RunGrows(start, id, initial, b, ops[..|ops| - 1]);
      OpGrows(Run(Daemon(GrownAll(start, initial), b), id, ops[..|ops| - 1]), id, op);
      GrownAllConcat(start, all, GrowthsOf(op));
      GrowthOnlyNeedsLimiter(before, GrownAll(start, all), GrowthsOf(op));
    }
  }

  lemma {:induction false} GrowthOnlyNeedsLimiter(p: Plugin, q: Plugin, growths: seq<Growth>)
    requires p.limiter == q.limiter && p.memory == q.memory
    ensures GrownAll(p, growths).limiter == GrownAll(q, growths).limiter
    ensures GrownAll(p, growths).memory == GrownAll(q, growths).memory
  {
    if growths != [] {
      GrowthOnlyNeedsLimiter(p, q, growths[..|growths| - 1]);
    }
  }

  /** What the passes add to the memory counters is what the telemetry carries. */
  lemma PassesAddEvents(b: Books, id: string, outcome: Outcome, elapsedNs: nat, t: WasmTelemetry, slice: Option<nat>)
    ensures
      var before, after := EntryOf(b, id), EntryOf(SeparatePasses(b, id, outcome, elapsedNs, t, slice), id);
      && after.memorySoftBreaches == before.memorySoftBreaches + (if t.events.Some? then t.events.value.0 else 0)
      && after.memoryGrowthDenials == before.memoryGrowthDenials + (if t.events.Some? then t.events.value.1 else 0)
  {
    FusedRefinesSeparate(b, id, outcome, elapsedNs, t, slice);
    CountersAddEvents(EntryOf(b, id), FuelTrapOf(outcome), elapsedNs, t, slice);
  }

  lemma CountersAddEvents(c: Counters, trap: Option<string>, elapsedNs: nat, t: WasmTelemetry, slice: Option<nat>)
    ensures
      var after := FoldedCounters(c, trap, elapsedNs, t, slice).0;
      && after.memorySoftBreaches == c.memorySoftBreaches + (if t.events.Some? then t.events.value.0 else 0)
      && after.memoryGrowthDenials == c.memoryGrowthDenials + (if t.events.Some? then t.events.value.1 else 0)
  {
  }

  /** What has been reported is what has been accounted, and no more than the limiter counted. */
  ghost predicate Balanced(d: Daemon, id: string) {
    && EntryOf(d.books, id).memorySoftBreaches == d.plugin.reported.0 <= d.plugin.limiter.softBreaches
    && EntryOf(d.books, id).memoryGrowthDenials == d.plugin.reported.1 <= d.plugin.limiter.denials
  }

  lemma GuestKeepsReported(p: Plugin, op: Op)
    ensures AfterGuest(p, op).reported == p.reported
    ensures AfterGuest(p, op).limiter.softBreaches >= p.limiter.softBreaches
    ensures AfterGuest(p, op).limiter.denials >= p.limiter.denials
  {
    GrowthKeepsFuel(p, GrowthsOf(op));
    LimiterCounts(p, GrowthsOf(op));
  }

  lemma OpKeepsBalance(d: Daemon, id: string, op: Op)
    requires Balanced(d, id)
    ensures Balanced(Do(d, id, op), id)
  {
    var p := AfterGuest(d.plugin, op);
    GuestKeepsReported(d.plugin, op);
    var (q, t) := if Drains(op) then Drained(p) else (p, NOTHING);
    if op.InvokeBytes? || op.InvokeJson? {
      PassesAddEvents(d.books, id, op.outcome, op.elapsedNs, t, op.slice);
    }
  }

  lemma {:induction false} RunKeepsBalance(softPages: nat, hardPages: nat, initial: seq<Growth>, id: string,
                                           ops: seq<Op>)
    ensures Balanced(Run(Start(softPages, hardPages, initial), id, ops), id)
  {
    var start := Start(softPages, hardPages, initial);
    if ops == [] {
      GrowthKeepsFuel(Plugin(NewLimiter(softPages, hardPages), 0, (0, 0), None, 0), initial);
    } else {
      RunKeepsBalance(softPages, hardPages, initial, id, ops[..|ops| - 1]);
      OpKeepsBalance(Run(start, id, ops[..|ops| - 1]), id, ops[|ops| - 1]);
    }
  }

  /**
   * Over any interleaving of byte invokes, JSON invokes, ticks and lifecycle
   * calls, failed or not: the breaches and denials in the accounting, plus
   * those still to be drained, are exactly the growth requests of the whole
   * history that pressed on or overran the caps.
   */
  lemma MemoryEventsAreConserved(softPages: nat, hardPages: nat, initial: seq<Growth>, id: string, ops: seq<Op>)
    ensures
      var d := Run(Start(softPages, hardPages, initial), id, ops);
      var all, undrained := AllGrowths(initial, ops), EventsTaken(d.plugin).1;
      var soft := if softPages < hardPages then softPages else hardPages;
      && EntryOf(d.books, id).memorySoftBreaches + undrained.0 == CountPressing(soft, hardPages, all)
      && EntryOf(d.books, id).memoryGrowthDenials + undrained.1 == CountDenied(hardPages, all)
  {
    var zero := Plugin(NewLimiter(softPages, hardPages), 0, (0, 0), None, 0);
    RunKeepsBalance(softPages, hardPages, initial, id, ops);
    RunGrows(zero, id, initial, Books(map[], []), ops);
    LimiterCounts(zero, AllGrowths(initial, ops));
  }

  lemma {:induction false} GrowthStaysUnderCap(p: Plugin, growths: seq<Growth>)
    requires p.memory <= p.limiter.hardPages * PAGE_BYTES
    requires forall i :: 0 <= i < |growths| ==> growths[i].desired % PAGE_BYTES == 0
    ensures GrownAll(p, growths).memory <= p.limiter.hardPages * PAGE_BYTES
  {
    if growths != [] {
      var before := growths[..|growths| - 1];
      GrowthStaysUnderCap(p, before);
      LimiterCounts(p, before);
    }
  }

  /** Sizes asked for in whole pages: memory never exceeds the hard cap, in any reachable state. */
  lemma MemoryStaysUnderCap(softPages: nat, hardPages: nat, initial: seq<Growth>, id: string, ops: seq<Op>)
    requires forall i :: 0 <= i < |AllGrowths(initial, ops)| ==> AllGrowths(initial, ops)[i].desired % 65536 == 0
    ensures Run(Start(softPages, hardPages, initial), id, ops).plugin.memory <= hardPages * 65536
  {
    var zero := Plugin(NewLimiter(softPages, hardPages), 0, (0, 0), None, 0);
    RunGrows(zero, id, initial, Books(map[], []), ops);
    GrowthStaysUnderCap(zero, AllGrowths(initial, ops));
  }

  predicate Provided(g: Growth, hardPages: nat) {
    g.fits && g.desired / 65536 <= hardPages
  }

  /** Memory is as large as the last request of the whole history that was within the hard cap and provided. */
  lemma MemoryIsLastProvided(softPages: nat, hardPages: nat, initial: seq<Growth>, id: string, ops: seq<Op>, k: nat)
    requires
      var all := AllGrowths(initial, ops);
      && k <= |all| && (k < |all| ==> Provided(all[k], hardPages))
      && forall i :: (if k < |all| then k + 1 else 0) <= i < |all| ==> !Provided(all[i], hardPages)
    ensures Run(Start(softPages, hardPages, initial), id, ops).plugin.memory
         == var all := AllGrowths(initial, ops); if k < |all| then all[k].desired else 0
  {
    var zero := Plugin(NewLimiter(softPages, hardPages), 0, (0, 0), None, 0);
    RunGrows(zero, id, initial, Books(map[], []), ops);
    LastProvided(zero, AllGrowths(initial, ops), k);
  }

  lemma {:induction false} LastProvided(p: Plugin, growths: seq<Growth>, k: nat)
    requires k <= |growths| && (k < |growths| ==> Provided(growths[k], p.limiter.hardPages))
    requires forall i :: (if k < |growths| then k + 1 else 0) <= i < |growths| ==>
      !Provided(growths[i], p.limiter.hardPages)
    ensures GrownAll(p, growths).memory == if k < |growths| then growths[k].desired else p.memory
  {
    if growths != [] {
      var before := growths[..|growths| - 1];
      LimiterCounts(p, before);
      if k != |before| {
        LastProvided(p, before, if k < |before| then k else |before|);
      }
    }
  }

  // -------------------------------------------------------------------------
  // Drains
  // -------------------------------------------------------------------------

  /** The counters that only drains move. */
  predicate SameMemoryCounters(c: Counters, d: Counters) {
    && c.memorySoftBreaches == d.memorySoftBreaches && c.memoryGrowthDenials == d.memoryGrowthDenials
    && c.memoryHighWaterBytes == d.memoryHighWaterBytes && c.fuelConsumedTotal == d.fuelConsumedTotal
  }

  /**
   * A byte invoke, and a JSON invoke that succeeds, leave nothing undrained. A
   * JSON invoke that fails books no memory or fuel, and a tick or lifecycle
   * call books nothing at all; what they find stays to be drained.
   */
  lemma WhatEachCallDrains(d: Daemon, id: string, op: Op)
    ensures op.InvokeBytes? || (op.InvokeJson? && op.outcome.Ok?) ==>
      EventsTaken(Do(d, id, op).plugin).1 == (0, 0) && FuelTaken(Do(d, id, op).plugin).1 == None
    ensures op.InvokeJson? && op.outcome.Err? ==>
      && SameMemoryCounters(EntryOf(Do(d, id, op).books, id), EntryOf(d.books, id))
      && Do(d, id, op).plugin.reported == d.plugin.reported
    ensures op.Tick? || op.Lifecycle? ==>
      Do(d, id, op).books == d.books && Do(d, id, op).plugin.reported == d.plugin.reported
  {
    GuestKeepsReported(d.plugin, op);
    if op.InvokeJson? && op.outcome.Err? {
      FailedPasses(d.books, id, op.outcome, op.elapsedNs, op.slice);
    }
  }

  /** The memory sizes the drains of a run found, oldest first. */
  ghost function DrainedSizes(start: Daemon, id: string, ops: seq<Op>): seq<nat> {
    if ops == [] then []
    else
      var before, op := DrainedSizes(start, id, ops[..|ops| - 1]), ops[|ops| - 1];
      if op.InvokeBytes? || (op.InvokeJson? && op.outcome.Ok?) then before + [Run(start, id, ops).plugin.memory]
      else before
  }

  /** The high-water mark of the passes is the largest of the one before and what a drain brings. */
  lemma PassesRaiseHighWater(b: Books, id: string, outcome: Outcome, elapsedNs: nat, t: WasmTelemetry,
                             slice: Option<nat>)
    ensures
      var before, after := EntryOf(b, id), EntryOf(SeparatePasses(b, id, outcome, elapsedNs, t, slice), id);
      after.memoryHighWaterBytes
      == if t.events.Some? && t.usage > before.memoryHighWaterBytes then t.usage else before.memoryHighWaterBytes
  {
    FusedRefinesSeparate(b, id, outcome, elapsedNs, t, slice);
    CountersRaiseHighWater(EntryOf(b, id), FuelTrapOf(outcome), elapsedNs, t, slice);
  }

  lemma CountersRaiseHighWater(c: Counters, trap: Option<string>, elapsedNs: nat, t: WasmTelemetry, slice: Option<nat>)
    ensures FoldedCounters(c, trap, elapsedNs, t, slice).0.memoryHighWaterBytes
         == if t.events.Some? && t.usage > c.memoryHighWaterBytes then t.usage else c.memoryHighWaterBytes
  {
  }

  /** The largest of these sizes, or 0 if there are none. */
  ghost predicate LargestSize(sizes: seq<nat>, high: nat) {
    (forall i :: 0 <= i < |sizes| ==> sizes[i] <= high) && (if sizes == [] then high == 0 else high in sizes)
  }

  lemma LargestSnoc(sizes: seq<nat>, high: nat, size: nat)
    requires LargestSize(sizes, high)
    ensures LargestSize(sizes + [size], if size > high then size else high)
  {
    assert (sizes + [size])[|sizes|] == size;
    if high in sizes {
      assert high in sizes + [size];
    }
  }

  /** After any run the high-water mark in the accounting is the largest memory size any drain found. */
  lemma {:induction false} HighWaterIsLargestDrained(softPages: nat, hardPages: nat, initial: seq<Growth>, id: string,
                                                     ops: seq<Op>)
    ensures
      var start := Start(softPages, hardPages, initial);
      LargestSize(DrainedSizes(start, id, ops), EntryOf(Run(start, id, ops).books, id).memoryHighWaterBytes)
  {
    if ops != [] {
      var start, before, op := Start(softPages, hardPages, initial), ops[..|ops| - 1], ops[|ops| - 1];
      HighWaterIsLargestDrained(softPages, hardPages, initial, id, before);
      OpRaisesHighWater(Run(start, id, before), id, op);
      LargestSnoc(DrainedSizes(start, id, before), EntryOf(Run(start, id, before).books, id).memoryHighWaterBytes,
                  Run(start, id, ops).plugin.memory);
    }
  }

  lemma OpRaisesHighWater(d: Daemon, id: string, op: Op)
    ensures
      var before, after := EntryOf(d.books, id).memoryHighWaterBytes, Do(d, id, op);
      EntryOf(after.books, id).memoryHighWaterBytes
      == if Drains(op) && after.plugin.memory > before then after.plugin.memory else before
  {
    var p := AfterGuest(d.plugin, op);
    var (q, t) := if Drains(op) then Drained(p) else (p, NOTHING);
    if op.InvokeBytes? || op.InvokeJson? {
      PassesRaiseHighWater(d.books, id, op.outcome, op.elapsedNs, t, op.slice);
    }
  }

  // -------------------------------------------------------------------------
  // Fuel
  // -------------------------------------------------------------------------

  datatype FuelEvent = Armed(consumed: nat) | Drain

  function FuelEventsOf(op: Op): seq<FuelEvent> {
    (if op.ran.None? then []
     else [Armed(if op.ran.value.burned < op.ran.value.fuel then op.ran.value.burned else op.ran.value.fuel)])
    + (if op.InvokeBytes? || (op.InvokeJson? && op.outcome.Ok?) then [Drain] else [])
  }

  function FuelHistory(ops: seq<Op>): seq<FuelEvent> {
    if ops == [] then [] else FuelHistory(ops[..|ops| - 1]) + FuelEventsOf(ops[|ops| - 1])
  }

  /** The consumption each drain of the run finds, in order. */
  function Reports(start: Daemon, id: string, ops: seq<Op>): seq<Option<nat>> {
    if ops == [] then []
    else
      var before, op := Run(start, id, ops[..|ops| - 1]), ops[|ops| - 1];
      var rest := Reports(start, id, ops[..|ops| - 1]);
      if Drains(op) then rest + [Drained(AfterGuest(before.plugin, op)).1.consumed] else rest
  }

  /** The consumption of the call the history ends with, if it ends with one. */
  function LastArmed(events: seq<FuelEvent>): Option<nat> {
    if events != [] && events[|events| - 1].Armed? then Some(events[|events| - 1].consumed) else None
  }

  /** A drain reports the call armed last, if no drain came between: earlier ones are lost. */
  function Expected(events: seq<FuelEvent>): seq<Option<nat>> {
    if events == [] then []
    else
      var n := |events| - 1;
      var rest := Expected(events[..n]);
      if events[n].Armed? then rest
      else rest + [LastArmed(events[..n])]
  }

  ghost predicate FuelLaw(p: Plugin, events: seq<FuelEvent>) {
    FuelTaken(p).1 == LastArmed(events)
  }

  lemma ExpectedSnoc(events: seq<FuelEvent>, e: FuelEvent)
    ensures e.Armed? ==> Expected(events + [e]) == Expected(events)
    ensures e.Drain? ==> Expected(events + [e]) == Expected(events) + [LastArmed(events)]
  {
    assert (events + [e])[..|events|] == events;
  }

  lemma OpKeepsFuelLaw(d: Daemon, id: string, op: Op, events: seq<FuelEvent>)
    requires FuelLaw(d.plugin, events)
    ensures FuelLaw(Do(d, id, op).plugin, events + FuelEventsOf(op))
    ensures Expected(events + FuelEventsOf(op)) == Expected(events)
      + if Drains(op) then [Drained(AfterGuest(d.plugin, op)).1.consumed] else []
  {
    GrowthKeepsFuel(d.plugin, GrowthsOf(op));
    var armed := if op.ran.Some? then FuelEventsOf(op)[..1] else [];
    var mid := events + armed;
    if op.ran.Some? {
      ExpectedSnoc(events, armed[0]);
      assert armed == [armed[0]];
    } else {
      assert mid == events;
    }
    assert FuelLaw(AfterGuest(d.plugin, op), mid);
    if Drains(op) {
      ExpectedSnoc(mid, Drain);
      assert events + FuelEventsOf(op) == mid + [Drain];
    } else {
      assert events + FuelEventsOf(op) == mid;
      assert Expected(events) + [] == Expected(events);
    }
  }

  lemma {:induction false} FuelRun(softPages: nat, hardPages: nat, initial: seq<Growth>, id: string, ops: seq<Op>)
    ensures FuelLaw(Run(Start(softPages, hardPages, initial), id, ops).plugin, FuelHistory(ops))
    ensures Reports(Start(softPages, hardPages, initial), id, ops) == Expected(FuelHistory(ops))
  {
    var start := Start(softPages, hardPages, initial);
    if ops == [] {
      GrowthKeepsFuel(Plugin(NewLimiter(softPages, hardPages), 0, (0, 0), None, 0), initial);
    } else {
      var before := ops[..|ops| - 1];
      FuelRun(softPages, hardPages, initial, id, before);
      OpKeepsFuelLaw(Run(start, id, before), id, ops[|ops| - 1], FuelHistory(before));
    }
  }

  /**
   * Over any run, each drain reports exactly the consumption of the call armed
   * since the drain before it, the last one if there were several, and nothing
   * if there was none.
   */
  lemma FuelReportsAreLastArmed(softPages: nat, hardPages: nat, initial: seq<Growth>, id: string, ops: seq<Op>)
    ensures Reports(Start(softPages, hardPages, initial), id, ops) == Expected(FuelHistory(ops))
  {
    FuelRun(softPages, hardPages, initial, id, ops);
  }

  /** The reports of some events when `pending` is what a drain would find before them. */
  function ExpectedFrom(pending: Option<nat>, events: seq<FuelEvent>): seq<Option<nat>>
    decreases |events|
  {
    if events == [] then []
    else if events[0].Armed? then ExpectedFrom(Some(events[0].consumed), events[1..])
    else [pending] + ExpectedFrom(None, events[1..])
  }

  lemma {:induction false} ExpectedConcat(a: seq<FuelEvent>, b: seq<FuelEvent>)
    ensures Expected(a + b) == Expected(a) + ExpectedFrom(LastArmed(a), b)
    decreases |b|
  {
    if b == [] {
      assert a + b == a;
    } else {
      var first, rest := b[0], b[1..];
      ExpectedSnoc(a, first);
      ExpectedConcat(a + [first], rest);
      Regroup(a, [first], rest);
      assert b == [first] + rest;
      if first.Drain? {
        Regroup(Expected(a), [LastArmed(a)], ExpectedFrom(None, rest));
        assert LastArmed(a + [first]) == None;
      } else {
        assert LastArmed(a + [first]) == Some(first.consumed);
      }
    }
  }

  /** The reports of a longer history, seen from a place where a call has just been armed. */
  lemma ExpectedAfter(before: seq<FuelEvent>, consumed: nat, after: seq<FuelEvent>)
    ensures Expected(before + [Armed(consumed)] + after)
         == Expected(before)
          + if after != [] && after[0].Drain? then [Some(consumed)] + Expected(after[1..]) else Expected(after)
  {
    ExpectedSnoc(before, Armed(consumed));
    ExpectedConcat(before + [Armed(consumed)], after);
    assert LastArmed(before + [Armed(consumed)]) == Some(consumed);
    ExpectedIsFrom(after);
    if after != [] {
      ExpectedIsFrom(after[1..]);
    }
  }

  lemma ExpectedIsFrom(events: seq<FuelEvent>)
    ensures Expected(events) == ExpectedFrom(None, events)
  {
    ExpectedConcat([], events);
    assert [] + events == events;
    assert [] + ExpectedFrom(None, events) == ExpectedFrom(None, events);
  }

  lemma {:induction false} HistoryConcat(a: seq<Op>, b: seq<Op>)
    ensures FuelHistory(a + b) == FuelHistory(a) + FuelHistory(b)
  {
    if b == [] {
      assert a + b == a;
    } else {
      var init, last := b[..|b| - 1], b[|b| - 1];
      HistoryConcat(a, init);
      HistorySnoc(a + init, last);
      HistorySnoc(init, last);
      Regroup(a, init, [last]);
      assert b == init + [last];
      Regroup(FuelHistory(a), FuelHistory(init), FuelEventsOf(last));
    }
  }

  lemma HistorySnoc(ops: seq<Op>, op: Op)
    ensures FuelHistory(ops + [op]) == FuelHistory(ops) + FuelEventsOf(op)
  {
    assert (ops + [op])[..|ops|] == ops;
  }

  /**
   * In any run, a tick's fuel is reported exactly if the next thing that
   * touches the budget is a drain, and then by that drain as its own: an invoke
   * that failed before arming. Otherwise no later report depends on it.
   */
  lemma TickFuelIsLostOrMisplaced(softPages: nat, hardPages: nat, initial: seq<Growth>, id: string,
                                  before: seq<Op>, tick: Guest, after: seq<Op>)
    requires tick.burned <= tick.fuel
    ensures
      var start, later := Start(softPages, hardPages, initial), FuelHistory(after);
      Reports(start, id, before + [Tick(Some(tick))] + after)
      == Reports(start, id, before)
       + if later != [] && later[0].Drain? then [Some(tick.burned)] + Expected(later[1..]) else Expected(later)
  {
    FuelRun(softPages, hardPages, initial, id, before);
    FuelRun(softPages, hardPages, initial, id, before + [Tick(Some(tick))] + after);
    HistoryConcat(before, [Tick(Some(tick))]);
    HistoryConcat(before + [Tick(Some(tick))], after);
    HistorySnoc([], Tick(Some(tick)));
    assert [] + [Tick(Some(tick))] == [Tick(Some(tick))];
    assert FuelHistory([Tick(Some(tick))]) == [Armed(tick.burned)];
    ExpectedAfter(FuelHistory(before), tick.burned, FuelHistory(after));
  }

  /** The next thing is such a drain exactly when the next call that drains or arms fails before arming. */
  lemma FirstEventIsDrain(op: Op, after: seq<Op>)
    requires FuelEventsOf(op) != []
    ensures
      var later := FuelHistory([op] + after);
      later != [] && (later[0].Drain? <==> op.ran.None? && Drains(op))
  {
    HistoryConcat([op], after);
    HistorySnoc([], op);
    assert [] + [op] == [op];
  }
}
