/** Per-plugin accounting and the audit entries it raises. */
module Accounting {
  import opened Wrappers

  const LEAK_NEW_HIGH_WATER_THRESHOLD: nat := 32
  const OVER_SLICE_STREAK_THRESHOLD: nat := 8
  const U64_MAX: nat := 0xFFFF_FFFF_FFFF_FFFF

  function SaturatingAdd(a: nat, b: nat): nat {
    if a + b > U64_MAX then U64_MAX else a + b
  }

  predicate Contains(text: string, part: string) {
    exists i | 0 <= i <= |text| :: part <= text[i..]
  }

  /** The counters of one plugin. Counters that only go up by one are unbounded. */
  datatype Counters = Counters(
    callCount: nat, totalNs: nat, peakNs: nat, fuelTraps: nat,
    memorySoftBreaches: nat, memoryGrowthDenials: nat, memoryHighWaterBytes: nat,
    fuelConsumedTotal: nat, overSliceStreak: nat, contractViolations: nat,
    newHighWaters: nat, leakReported: bool)

  const ZERO := Counters(0, 0, 0, 0, 0, 0, 0, 0, 0, 0, 0, false)

  function RecordedCall(c: Counters, elapsedNs: nat): Counters {
    c.(callCount := c.callCount + 1,
       totalNs := SaturatingAdd(c.totalNs, elapsedNs),
       peakNs := if elapsedNs > c.peakNs then elapsedNs else c.peakNs)
  }

  function RecordedMemoryEvents(c: Counters, softBreaches: nat, denials: nat): Counters {
    c.(memorySoftBreaches := c.memorySoftBreaches + softBreaches,
       memoryGrowthDenials := c.memoryGrowthDenials + denials)
  }

  /** The counters after an observation of memory usage, and whether a leak is to be reported now. */
  function ObservedUsage(c: Counters, usage: nat): (Counters, bool) {
    if usage > c.memoryHighWaterBytes then
      var next := c.(memoryHighWaterBytes := usage, newHighWaters := c.newHighWaters + 1);
      if next.newHighWaters >= LEAK_NEW_HIGH_WATER_THRESHOLD && !c.leakReported
      then (next.(leakReported := true), true)
      else (next, false)
    else (c, false)
  }

  /** The counters after a metered call, and whether it completes a violation. */
  function Metered(c: Counters, consumed: nat, slice: nat): (Counters, bool) {
    var total := c.(fuelConsumedTotal := SaturatingAdd(c.fuelConsumedTotal, consumed));
    if consumed > slice then
      var streak := total.(overSliceStreak := c.overSliceStreak + 1);
      if streak.overSliceStreak == OVER_SLICE_STREAK_THRESHOLD
      then (streak.(contractViolations := c.contractViolations + 1), true)
      else (streak, false)
    else (total.(overSliceStreak := 0), false)
  }

  /** The counters of one plugin, updated in place. */
  class PluginAccounting {
    var counters: Counters

    constructor ()
      ensures counters == ZERO
    {
      counters := ZERO;
    }

    method RecordCall(elapsedNs: nat)
      modifies this
      ensures counters == RecordedCall(old(counters), elapsedNs)
    {
      counters := counters.(callCount := counters.callCount + 1);
      counters := counters.(totalNs := SaturatingAdd(counters.totalNs, elapsedNs));
      if elapsedNs > counters.peakNs {
        counters := counters.(peakNs := elapsedNs);
      }
    }

    method RecordFuelTrap()
      modifies this
      ensures counters == old(counters).(fuelTraps := old(counters).fuelTraps + 1)
    {
      counters := counters.(fuelTraps := counters.fuelTraps + 1);
    }

    method RecordMemoryEvents(softBreaches: nat, denials: nat)
      modifies this
      ensures counters == RecordedMemoryEvents(old(counters), softBreaches, denials)
    {
      counters := counters.(memorySoftBreaches := counters.memorySoftBreaches + softBreaches);
      counters := counters.(memoryGrowthDenials := counters.memoryGrowthDenials + denials);
    }

    method ObserveMemoryUsage(usage: nat) returns (leak: bool)
      modifies this
      ensures (counters, leak) == ObservedUsage(old(counters), usage)
    {
      if usage > counters.memoryHighWaterBytes {
        counters := counters.(memoryHighWaterBytes := usage);
        counters := counters.(newHighWaters := counters.newHighWaters + 1);
        if counters.newHighWaters >= LEAK_NEW_HIGH_WATER_THRESHOLD && !counters.leakReported {
          counters := counters.(leakReported := true);
          return true;
        }
      }
      return false;
    }

    method MeterFuel(consumed: nat, slice: nat) returns (violation: bool)
      modifies this
      ensures (counters, violation) == Metered(old(counters), consumed, slice)
    {
      violation := false;
      counters := counters.(fuelConsumedTotal := SaturatingAdd(counters.fuelConsumedTotal, consumed));
      if consumed > slice {
        counters := counters.(overSliceStreak := counters.overSliceStreak + 1);
        if counters.overSliceStreak == OVER_SLICE_STREAK_THRESHOLD {
          counters := counters.(contractViolations := counters.contractViolations + 1);
          violation := true;
        }
      } else {
        counters := counters.(overSliceStreak := 0);
      }
    }
  }

  // -------------------------------------------------------------------------
  // The separate passes
  // -------------------------------------------------------------------------

  /** An audit entry, by its kind and the values its message shows. */
  datatype AuditEvent =
    | FuelTrap(error: string)
    | GrowthDenied(denials: nat)
    | Pressure(softBreaches: nat)
    | LeakSuspected(usage: nat)
    | ContractViolation(consumed: nat, slice: nat)

  datatype AuditRecord = AuditRecord(extensionId: string, event: AuditEvent)

  /** The counters of every plugin seen so far, and the audit entries pushed, oldest first. */
  datatype Books = Books(accounting: map<string, Counters>, audit: seq<AuditRecord>)

  datatype WasmTelemetry = WasmTelemetry(consumed: Option<nat>, events: Option<(nat, nat)>, usage: nat)

  type Outcome = Result<nat, string>

  function EntryOf(b: Books, id: string): Counters {
    if id in b.accounting then b.accounting[id] else ZERO
  }

  function Records(id: string, events: seq<AuditEvent>): seq<AuditRecord> {
    seq(|events|, i requires 0 <= i < |events| => AuditRecord(id, events[i]))
  }

  /** One plugin's counters replaced, and entries about it appended. */
  function Booked(b: Books, id: string, c: Counters, events: seq<AuditEvent>): Books {
    Books(b.accounting[id := c], b.audit + Records(id, events))
  }

  function IsFuelTrap(error: string): bool {
    Contains(error, "fuel budget")
  }

  ghost predicate Around(text: string, before: string, part: string, after: string) {
    text == before + part + after
  }

  /** The error says `fuel budget` somewhere. */
  ghost predicate SaysFuelBudget(error: string) {
    exists before, after :: Around(error, before, "fuel budget", after)
  }

  /** An error is a fuel trap exactly when it says `fuel budget`. */
  lemma FuelTrapSaysSo(error: string)
    ensures IsFuelTrap(error) <==> SaysFuelBudget(error)
  {
    var part := "fuel budget";
    if IsFuelTrap(error) {
      var i :| 0 <= i <= |error| && part <= error[i..];
      assert error == error[..i] + part + error[i..][|part|..];
      assert Around(error, error[..i], "fuel budget", error[i..][|part|..]);
    }
    if before, after :| Around(error, before, "fuel budget", after) {
      assert error[|before|..] == part + after;
      assert part <= error[|before|..];
    }
  }

  function PressureEvents(softBreaches: nat, denials: nat): seq<AuditEvent> {
    if denials > 0 then [GrowthDenied(denials)] else if softBreaches > 0 then [Pressure(softBreaches)] else []
  }

  function LeakEvents(leak: bool, usage: nat): seq<AuditEvent> {
    if leak then [LeakSuspected(usage)] else []
  }

  function ViolationEvents(violation: bool, consumed: nat, slice: nat): seq<AuditEvent> {
    if violation then [ContractViolation(consumed, slice)] else []
  }

  function Account(b: Books, id: string, elapsedNs: nat): Books {
    Booked(b, id, RecordedCall(EntryOf(b, id), elapsedNs), [])
  }

  function AccountFuelTrap(b: Books, id: string, error: string): Books {
    var c := EntryOf(b, id);
    if IsFuelTrap(error) then Booked(b, id, c.(fuelTraps := c.fuelTraps + 1), [FuelTrap(error)])
    else Booked(b, id, c, [])
  }

  function ObserveWasmMemory(b: Books, id: string, softBreaches: nat, denials: nat, usage: nat): Books {
    var (c, leak) := ObservedUsage(RecordedMemoryEvents(EntryOf(b, id), softBreaches, denials), usage);
    Booked(b, id, c, PressureEvents(softBreaches, denials) + LeakEvents(leak, usage))
  }

  function AccountFuelConsumed(b: Books, id: string, consumed: nat, slice: Option<nat>): Books {
    if slice.None? then b
    else
      var (c, violation) := Metered(EntryOf(b, id), consumed, slice.value);
      Booked(b, id, c, ViolationEvents(violation, consumed, slice.value))
  }

  /** The passes one after the other. */
  function SeparatePasses(b: Books, id: string, outcome: Outcome, elapsedNs: nat, t: WasmTelemetry, slice: Option<nat>)
    : Books
  {
    var b1 := Account(b, id, elapsedNs);
    var b2 := if outcome.Err? then AccountFuelTrap(b1, id, outcome.error) else b1;
    var b3 := if t.events.Some? then ObserveWasmMemory(b2, id, t.events.value.0, t.events.value.1, t.usage) else b2;
    if t.consumed.Some? then AccountFuelConsumed(b3, id, t.consumed.value, slice) else b3
  }

  // -------------------------------------------------------------------------
  // The fused pass
  // -------------------------------------------------------------------------

  function FuelTrapOf(outcome: Outcome): Option<string> {
    if outcome.Err? && IsFuelTrap(outcome.error) then Some(outcome.error) else None
  }

  function TrapCounters(c: Counters, trap: Option<string>): Counters {
    if trap.Some? then c.(fuelTraps := c.fuelTraps + 1) else c
  }

  function MemoryCounters(c: Counters, t: WasmTelemetry): (Counters, bool) {
    if t.events.Some? then ObservedUsage(RecordedMemoryEvents(c, t.events.value.0, t.events.value.1), t.usage)
    else (c, false)
  }

  function FuelCounters(c: Counters, t: WasmTelemetry, slice: Option<nat>): (Counters, bool) {
    if t.consumed.Some? && slice.Some? then Metered(c, t.consumed.value, slice.value) else (c, false)
  }

  /** The counters after one fold of a call, whether it latches a leak, and whether it completes a violation. */
  function FoldedCounters(c: Counters, trap: Option<string>, elapsedNs: nat, t: WasmTelemetry, slice: Option<nat>)
    : (Counters, bool, bool)
  {
    var (c1, leak) := MemoryCounters(TrapCounters(RecordedCall(c, elapsedNs), trap), t);
    var (c2, violation) := FuelCounters(c1, t, slice);
    (c2, leak, violation)
  }

  function TrapEvents(trap: Option<string>): seq<AuditEvent> {
    if trap.Some? then [FuelTrap(trap.value)] else []
  }

  function MemoryEvents(t: WasmTelemetry, leak: bool): seq<AuditEvent> {
    if t.events.Some? then PressureEvents(t.events.value.0, t.events.value.1) + LeakEvents(leak, t.usage) else []
  }

  function FuelEvents(t: WasmTelemetry, slice: Option<nat>, violation: bool): seq<AuditEvent> {
    if t.consumed.Some? && slice.Some? then ViolationEvents(violation, t.consumed.value, slice.value) else []
  }

  function FoldedEvents(trap: Option<string>, t: WasmTelemetry, slice: Option<nat>, leak: bool, violation: bool)
    : seq<AuditEvent>
  {
    TrapEvents(trap) + MemoryEvents(t, leak) + FuelEvents(t, slice, violation)
  }

  /** All counters first, then all audit entries. */
  function Settle(b: Books, id: string, trap: Option<string>, elapsedNs: nat, t: WasmTelemetry, slice: Option<nat>)
    : Books
  {
    var (c, leak, violation) := FoldedCounters(EntryOf(b, id), trap, elapsedNs, t, slice);
    Booked(b, id, c, FoldedEvents(trap, t, slice, leak, violation))
  }

  lemma RecordsConcat(id: string, d: seq<AuditEvent>, e: seq<AuditEvent>)
    ensures Records(id, d + e) == Records(id, d) + Records(id, e)
  {
  }

  lemma BookedTwice(b: Books, id: string, c: Counters, d: seq<AuditEvent>, c': Counters, e: seq<AuditEvent>)
    ensures EntryOf(Booked(b, id, c, d), id) == c
    ensures Booked(Booked(b, id, c, d), id, c', e) == Booked(b, id, c', d + e)
  {
    RecordsConcat(id, d, e);
    assert b.accounting[id := c][id := c'] == b.accounting[id := c'];
  }

  lemma NothingBooked(b: Books, id: string)
    requires id in b.accounting
    ensures Booked(b, id, b.accounting[id], []) == b
  {
    assert b.accounting[id := b.accounting[id]] == b.accounting;
  }

  lemma TrapPass(b: Books, id: string, outcome: Outcome)
    requires id in b.accounting
    ensures (if outcome.Err? then AccountFuelTrap(b, id, outcome.error) else b)
         == Booked(b, id, TrapCounters(b.accounting[id], FuelTrapOf(outcome)), TrapEvents(FuelTrapOf(outcome)))
  {
    NothingBooked(b, id);
  }

  lemma MemoryPass(b: Books, id: string, t: WasmTelemetry)
    requires id in b.accounting
    ensures
      var (c, leak) := MemoryCounters(b.accounting[id], t);
      (if t.events.Some? then ObserveWasmMemory(b, id, t.events.value.0, t.events.value.1, t.usage) else b)
      == Booked(b, id, c, MemoryEvents(t, leak))
  {
    NothingBooked(b, id);
  }

  lemma FuelPass(b: Books, id: string, t: WasmTelemetry, slice: Option<nat>)
    requires id in b.accounting
    ensures
      var (c, violation) := FuelCounters(b.accounting[id], t, slice);
      (if t.consumed.Some? then AccountFuelConsumed(b, id, t.consumed.value, slice) else b)
      == Booked(b, id, c, FuelEvents(t, slice, violation))
  {
    NothingBooked(b, id);
  }

  /** One pass leaves the same counters and the same audit entries, in the same order, as the separate passes. */
  lemma FusedRefinesSeparate(b: Books, id: string, outcome: Outcome, elapsedNs: nat, t: WasmTelemetry,
                             slice: Option<nat>)
    ensures Settle(b, id, FuelTrapOf(outcome), elapsedNs, t, slice)
         == SeparatePasses(b, id, outcome, elapsedNs, t, slice)
  {
    var c0 := RecordedCall(EntryOf(b, id), elapsedNs);
    var trap := FuelTrapOf(outcome);
    var c1 := TrapCounters(c0, trap);
    var (c2, leak) := MemoryCounters(c1, t);
    var (c3, violation) := FuelCounters(c2, t, slice);
    var d, e, f := TrapEvents(trap), MemoryEvents(t, leak), FuelEvents(t, slice, violation);
    var b0 := Booked(b, id, c0, []);
    TrapPass(b0, id, outcome);
    BookedTwice(b, id, c0, [], c1, d);
    assert [] + d == d;
    var b1 := Booked(b, id, c1, d);
    MemoryPass(b1, id, t);
    BookedTwice(b, id, c1, d, c2, e);
    var b2 := Booked(b, id, c2, d + e);
    FuelPass(b2, id, t, slice);
    BookedTwice(b, id, c2, d + e, c3, f);
  }

  // -------------------------------------------------------------------------
  // The daemon's books
  // -------------------------------------------------------------------------

  class KernelDaemon {
    // One accounting object a plugin, created on first observation.
    var accounting: map<string, PluginAccounting>
    var audit: seq<AuditRecord>
    // The per-tick fuel slice of each reservation that declares one.
    var slices: map<string, nat>

    ghost predicate Valid()
      reads this
    {
      forall i, j :: i in accounting && j in accounting && i != j ==> accounting[i] != accounting[j]
    }

    ghost function State(): Books
      reads this, accounting.Values
    {
      Books(map id | id in accounting :: accounting[id].counters, audit)
    }

    function Slice(id: string): Option<nat>
      reads this
    {
      if id in slices then Some(slices[id]) else None
    }

    /** `entry(id).or_insert_with(default)` */
    method Entry(id: string) returns (entry: PluginAccounting)
      requires Valid()
      modifies this`accounting
      ensures Valid() && id in accounting && accounting[id] == entry
      ensures id in old(accounting) ==> accounting == old(accounting)
      ensures id !in old(accounting) ==> fresh(entry) && accounting == old(accounting)[id := entry]
      ensures entry.counters == EntryOf(old(State()), id)
      ensures State().accounting == old(State()).accounting[id := entry.counters]
    {
      if id in accounting {
        entry := accounting[id];
      } else {
        entry := new PluginAccounting();
        accounting := accounting[id := entry];
      }
      assert State().accounting == old(State()).accounting[id := entry.counters];
    }

    method PushAudit(id: string, event: AuditEvent)
      modifies this`audit
      ensures audit == old(audit) + Records(id, [event])
    {
      audit := audit + [AuditRecord(id, event)];
    }

    method AccountCall(id: string, elapsedNs: nat)
      requires Valid()
      modifies this`accounting, accounting.Values
      ensures Valid() && State() == Account(old(State()), id, elapsedNs)
      ensures fresh(accounting.Values - old(accounting.Values))
    {
      var entry := Entry(id);
      entry.RecordCall(elapsedNs);
      assert State().accounting == old(State()).accounting[id := entry.counters];
    }

    method TrapOn(entry: PluginAccounting, id: string, error: string, isFuel: bool)
      modifies entry, this`audit
      ensures entry.counters == if isFuel then old(entry.counters).(fuelTraps := old(entry.counters).fuelTraps + 1)
                                else old(entry.counters)
      ensures audit == old(audit) + Records(id, if isFuel then [FuelTrap(error)] else [])
    {
      if isFuel {
        entry.RecordFuelTrap();
        PushAudit(id, FuelTrap(error));
      }
    }

    method AccountFuelTrapPass(id: string, error: string)
      requires Valid()
      modifies this`accounting, this`audit, accounting.Values
      ensures Valid() && State() == AccountFuelTrap(old(State()), id, error)
      ensures fresh(accounting.Values - old(accounting.Values))
    {
      var isFuel := IsFuelTrap(error);
      var entry := Entry(id);
      TrapOn(entry, id, error, isFuel);
      assert State().accounting == old(State()).accounting[id := entry.counters];
    }

    method PushPressure(id: string, softBreaches: nat, denials: nat)
      modifies this`audit
      ensures audit == old(audit) + Records(id, PressureEvents(softBreaches, denials))
    {
      if denials > 0 {
        PushAudit(id, GrowthDenied(denials));
      } else if softBreaches > 0 {
        PushAudit(id, Pressure(softBreaches));
      }
    }

    method ObserveOn(entry: PluginAccounting, id: string, softBreaches: nat, denials: nat, usage: nat)
      returns (leak: bool)
      modifies entry, this`audit
      ensures (entry.counters, leak)
           == ObservedUsage(RecordedMemoryEvents(old(entry.counters), softBreaches, denials), usage)
      ensures audit == old(audit) + Records(id, PressureEvents(softBreaches, denials) + LeakEvents(leak, usage))
    {
      entry.RecordMemoryEvents(softBreaches, denials);
      PushPressure(id, softBreaches, denials);
      leak := entry.ObserveMemoryUsage(usage);
      if leak {
        PushAudit(id, LeakSuspected(usage));
      }
      RecordsConcat(id, PressureEvents(softBreaches, denials), LeakEvents(leak, usage));
    }

    method ObserveWasmMemoryPass(id: string, softBreaches: nat, denials: nat, usage: nat)
      requires Valid()
      modifies this`accounting, this`audit, accounting.Values
      ensures Valid() && State() == ObserveWasmMemory(old(State()), id, softBreaches, denials, usage)
      ensures fresh(accounting.Values - old(accounting.Values))
    {
      var entry := Entry(id);
      var leak := ObserveOn(entry, id, softBreaches, denials, usage);
      assert State().accounting == old(State()).accounting[id := entry.counters];
    }

    method MeterOn(entry: PluginAccounting, id: string, consumed: nat, slice: nat) returns (violation: bool)
      modifies entry, this`audit
      ensures (entry.counters, violation) == Metered(old(entry.counters), consumed, slice)
      ensures audit == old(audit) + Records(id, ViolationEvents(violation, consumed, slice))
    {
      violation := entry.MeterFuel(consumed, slice);
      if violation {
        PushAudit(id, ContractViolation(consumed, slice));
      }
    }

    method AccountFuelConsumedPass(id: string, consumed: nat)
      requires Valid()
      modifies this`accounting, this`audit, accounting.Values
      ensures Valid() && State() == AccountFuelConsumed(old(State()), id, consumed, Slice(id))
      ensures fresh(accounting.Values - old(accounting.Values))
    {
      if id !in slices {
        return;
      }
      var entry := Entry(id);
      var violation := MeterOn(entry, id, consumed, slices[id]);
      assert State().accounting == old(State()).accounting[id := entry.counters];
    }

    method FoldCall(entry: PluginAccounting, trap: Option<string>, elapsedNs: nat, t: WasmTelemetry, slice: Option<nat>)
      returns (leakLatched: bool, violation: bool)
      modifies entry
      ensures (entry.counters, leakLatched, violation)
           == FoldedCounters(old(entry.counters), trap, elapsedNs, t, slice)
      ensures violation ==> t.consumed.Some? && slice.Some?
    {
      leakLatched, violation := false, false;
      entry.RecordCall(elapsedNs);
      if trap.Some? {
        entry.RecordFuelTrap();
      }
      if t.events.Some? {
        entry.RecordMemoryEvents(t.events.value.0, t.events.value.1);
        leakLatched := entry.ObserveMemoryUsage(t.usage);
      }
      if t.consumed.Some? && slice.Some? {
        violation := entry.MeterFuel(t.consumed.value, slice.value);
      }
    }

    method AuditMemory(id: string, t: WasmTelemetry, leak: bool)
      modifies this`audit
      ensures audit == old(audit) + Records(id, MemoryEvents(t, leak))
    {
      if t.events.Some? {
        PushPressure(id, t.events.value.0, t.events.value.1);
        if leak {
          PushAudit(id, LeakSuspected(t.usage));
        }
        RecordsConcat(id, PressureEvents(t.events.value.0, t.events.value.1), LeakEvents(leak, t.usage));
      }
    }

    method AuditCall(id: string, trap: Option<string>, t: WasmTelemetry, slice: Option<nat>,
                     leak: bool, violation: bool)
      requires violation ==> t.consumed.Some? && slice.Some?
      modifies this`audit
      ensures audit == old(audit) + Records(id, FoldedEvents(trap, t, slice, leak, violation))
    {
      if trap.Some? {
        PushAudit(id, FuelTrap(trap.value));
      }
      AuditMemory(id, t, leak);
      if violation {
        PushAudit(id, ContractViolation(t.consumed.value, slice.value));
      }
      RecordsConcat(id, TrapEvents(trap), MemoryEvents(t, leak));
      RecordsConcat(id, TrapEvents(trap) + MemoryEvents(t, leak), FuelEvents(t, slice, violation));
    }

    method FoldOn(entry: PluginAccounting, id: string, trap: Option<string>, elapsedNs: nat, t: WasmTelemetry,
                  slice: Option<nat>)
      modifies entry, this`audit
      ensures
        var (c, leak, violation) := FoldedCounters(old(entry.counters), trap, elapsedNs, t, slice);
        entry.counters == c && audit == old(audit) + Records(id, FoldedEvents(trap, t, slice, leak, violation))
    {
      var leakLatched, violation := FoldCall(entry, trap, elapsedNs, t, slice);
      AuditCall(id, trap, t, slice, leakLatched, violation);
    }

    method Fold(id: string, trap: Option<string>, elapsedNs: nat, t: WasmTelemetry, slice: Option<nat>)
      requires Valid()
      modifies this`accounting, this`audit, accounting.Values
      ensures Valid()
      ensures State() == Settle(old(State()), id, trap, elapsedNs, t, slice)
    {
      var entry := Entry(id);
      FoldOn(entry, id, trap, elapsedNs, t, slice);
      assert State().accounting == old(State()).accounting[id := entry.counters];
    }

    /** One pass over the accounting, then the audit entries: the books the separate passes would leave. */
    method SettleInvoke(id: string, outcome: Outcome, elapsedNs: nat, t: WasmTelemetry)
      requires Valid()
      modifies this`accounting, this`audit, accounting.Values
      ensures Valid()
      ensures State() == SeparatePasses(old(State()), id, outcome, elapsedNs, t, Slice(id))
    {
      FusedRefinesSeparate(State(), id, outcome, elapsedNs, t, Slice(id));
      var trap := FuelTrapOf(outcome);
      Fold(id, trap, elapsedNs, t, Slice(id));
    }
  }
}
