/** What the incremental counters say about the whole history of a plugin's calls. */
module AccountingHistory {
  import opened Wrappers
  import opened Sequences
  import opened Accounting

  /** The passes that touch the accounting; a fused call is a stretch of them. */
  datatype Pass =
    | Timed(id: string, elapsedNs: nat)
    | Failed(id: string, error: string)
    | Memory(id: string, softBreaches: nat, denials: nat, usage: nat)
    | Fuel(id: string, consumed: nat, slice: Option<nat>)

  const EMPTY := Books(map[], [])

  function Do(b: Books, p: Pass): Books {
    match p
    case Timed(id, elapsedNs) => Account(b, id, elapsedNs)
    case Failed(id, error) => AccountFuelTrap(b, id, error)
    case Memory(id, softBreaches, denials, usage) => ObserveWasmMemory(b, id, softBreaches, denials, usage)
    case Fuel(id, consumed, slice) => AccountFuelConsumed(b, id, consumed, slice)
  }

  function Run(b: Books, passes: seq<Pass>): Books {
    if passes == [] then b else Do(Run(b, passes[..|passes| - 1]), passes[|passes| - 1])
  }

  function PassesOf(id: string, outcome: Outcome, elapsedNs: nat, t: WasmTelemetry, slice: Option<nat>): seq<Pass> {
    [Timed(id, elapsedNs)]
    + (if outcome.Err? then [Failed(id, outcome.error)] else [])
    + (if t.events.Some? then [Memory(id, t.events.value.0, t.events.value.1, t.usage)] else [])
    + (if t.consumed.Some? then [Fuel(id, t.consumed.value, slice)] else [])
  }

  lemma RunSnoc(b: Books, passes: seq<Pass>, p: Pass)
    ensures Run(b, passes + [p]) == Do(Run(b, passes), p)
  {
    assert (passes + [p])[..|passes|] == passes;
  }

  lemma RunOptional(b: Books, passes: seq<Pass>, p: Pass, present: bool)
    ensures Run(b, passes + (if present then [p] else [])) == if present then Do(Run(b, passes), p) else Run(b, passes)
  {
    if present {
      RunSnoc(b, passes, p);
    } else {
      assert passes + [] == passes;
    }
  }

  /** A fused call is a run of passes, so what holds of every run of passes holds of it too. */
  lemma FusedIsRun(b: Books, id: string, outcome: Outcome, elapsedNs: nat, t: WasmTelemetry, slice: Option<nat>)
    ensures Settle(b, id, FuelTrapOf(outcome), elapsedNs, t, slice)
         == Run(b, PassesOf(id, outcome, elapsedNs, t, slice))
  {
    FusedRefinesSeparate(b, id, outcome, elapsedNs, t, slice);
    var p0 := [Timed(id, elapsedNs)];
    RunSnoc(b, [], Timed(id, elapsedNs));
    assert [] + p0 == p0;
    var b1 := Account(b, id, elapsedNs);
    assert Run(b, p0) == b1;
    var error := if outcome.Err? then outcome.error else "";
    RunOptional(b, p0, Failed(id, error), outcome.Err?);
    var p1 := p0 + if outcome.Err? then [Failed(id, error)] else [];
    var b2 := if outcome.Err? then AccountFuelTrap(b1, id, error) else b1;
    assert Run(b, p1) == b2;
    var events := if t.events.Some? then t.events.value else (0, 0);
    RunOptional(b, p1, Memory(id, events.0, events.1, t.usage), t.events.Some?);
    var p2 := p1 + if t.events.Some? then [Memory(id, events.0, events.1, t.usage)] else [];
    var b3 := if t.events.Some? then ObserveWasmMemory(b2, id, events.0, events.1, t.usage) else b2;
    assert Run(b, p2) == b3;
    var consumed := if t.consumed.Some? then t.consumed.value else 0;
    RunOptional(b, p2, Fuel(id, consumed, slice), t.consumed.Some?);
  }

  // -------------------------------------------------------------------------
  // The history of one plugin
  // -------------------------------------------------------------------------

  /** The usages observed for one plugin, oldest first. */
  function Usages(passes: seq<Pass>, id: string): seq<nat> {
    if passes == [] then []
    else
      var p := passes[|passes| - 1];
      var before := Usages(passes[..|passes| - 1], id);
      if p.Memory? && p.id == id then before + [p.usage] else before
  }

  /** The metered calls of one plugin, with the slice each was held against. */
  function Meters(passes: seq<Pass>, id: string): seq<(nat, nat)> {
    if passes == [] then []
    else
      var p := passes[|passes| - 1];
      var before := Meters(passes[..|passes| - 1], id);
      if p.Fuel? && p.id == id && p.slice.Some? then before + [(p.consumed, p.slice.value)] else before
  }

  /** The audit entries of one kind about one plugin, in order. */
  function Entries(audit: seq<AuditRecord>, id: string, kind: Kind): seq<AuditEvent> {
    if audit == [] then []
    else
      var last := audit[|audit| - 1];
      var before := Entries(audit[..|audit| - 1], id, kind);
      if last.extensionId == id && OfKind(last.event, kind) then before + [last.event] else before
  }

  datatype Kind = Violations | Leaks | Alarms

  predicate OfKind(e: AuditEvent, kind: Kind) {
    match kind
    case Violations => e.ContractViolation?
    case Leaks => e.LeakSuspected?
    case Alarms => e.FuelTrap? || e.GrowthDenied? || e.Pressure?
  }

  function Kept(events: seq<AuditEvent>, kind: Kind): seq<AuditEvent> {
    if events == [] then []
    else
      var before, last := Kept(events[..|events| - 1], kind), events[|events| - 1];
      if OfKind(last, kind) then before + [last] else before
  }

  lemma EntriesSnoc(audit: seq<AuditRecord>, id: string, kind: Kind, r: AuditRecord)
    ensures
      var before := Entries(audit, id, kind);
      Entries(audit + [r], id, kind)
      == if r.extensionId == id && OfKind(r.event, kind) then before + [r.event] else before
  {
    assert (audit + [r])[..|audit|] == audit;
  }

  lemma {:induction false} EntriesBooked(audit: seq<AuditRecord>, id: string, kind: Kind,
                                         about: string, events: seq<AuditEvent>)
    ensures
      var before := Entries(audit, id, kind);
      Entries(audit + Records(about, events), id, kind) == if about == id then before + Kept(events, kind) else before
  {
    if events == [] {
      assert audit + Records(about, events) == audit;
      assert Entries(audit, id, kind) + [] == Entries(audit, id, kind);
    } else {
      var init, last := events[..|events| - 1], events[|events| - 1];
      var before := audit + Records(about, init);
      EntriesBooked(audit, id, kind, about, init);
      EntriesSnoc(before, id, kind, AuditRecord(about, last));
      assert Records(about, events) == Records(about, init) + [AuditRecord(about, last)];
      assert audit + Records(about, events) == before + [AuditRecord(about, last)];
      var kept := Kept(init, kind);
      assert Entries(audit, id, kind) + kept + [last] == Entries(audit, id, kind) + (kept + [last]);
    }
  }

  // -------------------------------------------------------------------------
  // Violations
  // -------------------------------------------------------------------------

  predicate Over(m: (nat, nat)) {
    m.0 > m.1
  }

  /** A run of over-slice calls of length at least 8 begins at `start`. */
  ghost predicate LongRunAt(ms: seq<(nat, nat)>, start: nat) {
    && start + 8 <= |ms|
    && (start == 0 || !Over(ms[start - 1]))
    && forall k :: start <= k < start + 8 ==> Over(ms[k])
  }

  ghost function LongRuns(ms: seq<(nat, nat)>): set<nat> {
    set start: nat | start < |ms| && LongRunAt(ms, start)
  }

  /** `n` is the length of the run of over-slice calls the history ends with. */
  ghost predicate EndsWithRun(ms: seq<(nat, nat)>, n: nat) {
    && n <= |ms| && (n == |ms| || !Over(ms[|ms| - n - 1]))
    && forall k :: |ms| - n <= k < |ms| ==> Over(ms[k])
  }

  /** The eighth call of each long run, in order. */
  ghost function EighthCalls(ms: seq<(nat, nat)>): seq<AuditEvent> {
    if ms == [] then []
    else
      var last := ms[|ms| - 1];
      EighthCalls(ms[..|ms| - 1])
      + if |ms| >= 8 && LongRunAt(ms, |ms| - 8)
        then [ContractViolation(last.0, last.1)] else []
  }

  lemma LongRunsSnoc(ms: seq<(nat, nat)>, m: (nat, nat))
    ensures
      var next := ms + [m];
      var start := |next| - 8;
      LongRuns(next) == LongRuns(ms) + if start >= 0 && LongRunAt(next, start) then {start as nat} else {}
  {
    var next := ms + [m];
    var start := |next| - 8;
    forall s: nat | s + 8 <= |ms| ensures LongRunAt(next, s) == LongRunAt(ms, s) {
      assert forall k :: 0 <= k < |ms| ==> next[k] == ms[k];
    }
    forall s: nat | s in LongRuns(next) ensures s in LongRuns(ms) || s == start {
    }
  }

  /** One entry a long run: there are as many eighth calls as runs. */
  lemma {:induction false} OneEighthCallEach(ms: seq<(nat, nat)>)
    ensures |EighthCalls(ms)| == |LongRuns(ms)|
  {
    if ms != [] {
      var before, last := ms[..|ms| - 1], ms[|ms| - 1];
      OneEighthCallEach(before);
      LongRunsSnoc(before, last);
      assert ms == before + [last];
      assert |ms| >= 8 ==> |ms| - 8 !in LongRuns(before);
    }
  }

  lemma RunEndsAtThreshold(ms: seq<(nat, nat)>, m: (nat, nat), n: nat)
    requires EndsWithRun(ms, n)
    ensures EndsWithRun(ms + [m], if Over(m) then n + 1 else 0)
    ensures
      var next := ms + [m];
      (|next| >= 8 && LongRunAt(next, |next| - 8))
      <==> (Over(m) && n + 1 == 8)
  {
    var next := ms + [m];
    assert next[|ms|] == m;
    assert forall k :: 0 <= k < |ms| ==> next[k] == ms[k];
    var start := |next| - 8;
    assert n < |ms| ==> !Over(next[|ms| - n - 1]);
    assert 0 < start && 8 <= n ==> Over(next[start - 1]);
  }

  ghost predicate ViolationLaw(c: Counters, violations: seq<AuditEvent>, ms: seq<(nat, nat)>) {
    EndsWithRun(ms, c.overSliceStreak) && c.contractViolations == |violations| && violations == EighthCalls(ms)
  }

  // -------------------------------------------------------------------------
  // Leaks
  // -------------------------------------------------------------------------

  /** An observation above zero and above every earlier one. */
  ghost predicate IsHighWater(us: seq<nat>, i: nat) {
    i < |us| && us[i] > 0 && forall j :: 0 <= j < i ==> us[j] < us[i]
  }

  ghost function HighWaters(us: seq<nat>): set<nat> {
    set i: nat | i < |us| && IsHighWater(us, i)
  }

  ghost predicate IsMaximum(us: seq<nat>, high: nat) {
    (forall i :: 0 <= i < |us| ==> us[i] <= high) && (high == 0 || high in us)
  }

  /** The entry the 32nd record calls for, once it is there. */
  ghost function LeakReports(us: seq<nat>): seq<AuditEvent> {
    if us == [] then []
    else
      LeakReports(us[..|us| - 1])
      + if IsHighWater(us, |us| - 1) && |HighWaters(us)| == 32
        then [LeakSuspected(us[|us| - 1])] else []
  }

  lemma HighWatersSnoc(us: seq<nat>, u: nat)
    ensures HighWaters(us + [u]) == HighWaters(us) + if IsHighWater(us + [u], |us|) then {|us|} else {}
    ensures |HighWaters(us + [u])| == |HighWaters(us)| + if IsHighWater(us + [u], |us|) then 1 else 0
  {
    var next := us + [u];
    assert forall i :: 0 <= i < |us| ==> next[i] == us[i];
    forall i: nat | i < |us| ensures IsHighWater(next, i) == IsHighWater(us, i) {
    }
  }

  lemma HighWaterIsAboveMaximum(us: seq<nat>, u: nat, high: nat)
    requires IsMaximum(us, high)
    ensures IsHighWater(us + [u], |us|) <==> u > high
    ensures IsMaximum(us + [u], if u > high then u else high)
  {
    var next := us + [u];
    assert next[|us|] == u;
    assert forall i :: 0 <= i < |us| ==> next[i] == us[i];
    if IsHighWater(next, |us|) && high != 0 {
      var i :| 0 <= i < |us| && us[i] == high;
      assert next[i] < u;
    }
  }

  /** At most one report, made once there are 32 records. */
  lemma {:induction false} OneLeakReport(us: seq<nat>)
    ensures |LeakReports(us)| == if |HighWaters(us)| >= 32 then 1 else 0
  {
    if us == [] {
      assert HighWaters(us) == {};
    } else {
      var before := us[..|us| - 1];
      OneLeakReport(before);
      assert us == before + [us[|us| - 1]];
      HighWatersSnoc(before, us[|us| - 1]);
    }
  }

  ghost predicate LeakLaw(c: Counters, leaks: seq<AuditEvent>, us: seq<nat>) {
    && IsMaximum(us, c.memoryHighWaterBytes)
    && c.newHighWaters == |HighWaters(us)|
    && c.leakReported == (|HighWaters(us)| >= 32)
    && leaks == LeakReports(us)
  }

  // -------------------------------------------------------------------------
  // Every run
  // -------------------------------------------------------------------------

  lemma MeteredKeepsLaw(c: Counters, violations: seq<AuditEvent>, ms: seq<(nat, nat)>, consumed: nat, slice: nat)
    requires ViolationLaw(c, violations, ms)
    ensures
      var (next, violation) := Metered(c, consumed, slice);
      ViolationLaw(next, violations + ViolationEvents(violation, consumed, slice), ms + [(consumed, slice)])
  {
    var m := (consumed, slice);
    RunEndsAtThreshold(ms, m, c.overSliceStreak);
    assert (ms + [m])[..|ms|] == ms;
    assert (ms + [m])[|ms|] == m;
  }

  lemma ObservedKeepsLaw(c: Counters, leaks: seq<AuditEvent>, us: seq<nat>, usage: nat)
    requires LeakLaw(c, leaks, us)
    ensures
      var (next, leak) := ObservedUsage(c, usage);
      LeakLaw(next, leaks + LeakEvents(leak, usage), us + [usage])
  {
    HighWaterIsAboveMaximum(us, usage, c.memoryHighWaterBytes);
    HighWatersSnoc(us, usage);
    assert (us + [usage])[..|us|] == us;
    assert (us + [usage])[|us|] == usage;
  }

  ghost predicate Laws(b: Books, passes: seq<Pass>, id: string) {
    && ViolationLaw(EntryOf(b, id), Entries(b.audit, id, Violations), Meters(passes, id))
    && LeakLaw(EntryOf(b, id), Entries(b.audit, id, Leaks), Usages(passes, id))
  }

  lemma HistorySnoc(passes: seq<Pass>, p: Pass, id: string)
    ensures Usages(passes + [p], id)
         == if p.Memory? && p.id == id then Usages(passes, id) + [p.usage] else Usages(passes, id)
    ensures Meters(passes + [p], id)
         == if p.Fuel? && p.id == id && p.slice.Some? then Meters(passes, id) + [(p.consumed, p.slice.value)]
            else Meters(passes, id)
  {
    assert (passes + [p])[..|passes|] == passes;
  }

  /** A pass about one plugin leaves every other plugin's counters and entries alone. */
  lemma PassesAreIsolated(b: Books, p: Pass, id: string, kind: Kind)
    requires p.id != id
    ensures EntryOf(Do(b, p), id) == EntryOf(b, id)
    ensures Entries(Do(b, p).audit, id, kind) == Entries(b.audit, id, kind)
  {
    var events := FiledBy(b, p);
    assert Do(b, p).audit == b.audit + Records(p.id, events) by {
      assert Records(p.id, []) == [] && b.audit + [] == b.audit;
    }
    EntriesBooked(b.audit, id, kind, p.id, events);
  }

  /** The entries a pass files. */
  function FiledBy(b: Books, p: Pass): seq<AuditEvent> {
    match p
    case Timed(_, _) => []
    case Failed(_, error) => if IsFuelTrap(error) then [FuelTrap(error)] else []
    case Memory(id, softBreaches, denials, usage) =>
      PressureEvents(softBreaches, denials)
      + LeakEvents(ObservedUsage(RecordedMemoryEvents(EntryOf(b, id), softBreaches, denials), usage).1, usage)
    case Fuel(id, consumed, slice) =>
      if slice.None? then []
      else ViolationEvents(Metered(EntryOf(b, id), consumed, slice.value).1, consumed, slice.value)
  }

  lemma KeptOfOne(e: AuditEvent, kind: Kind)
    ensures Kept([e], kind) == if OfKind(e, kind) then [e] else []
  {
    assert [e][..0] == [];
  }

  lemma {:induction false} KeptConcat(a: seq<AuditEvent>, b: seq<AuditEvent>, kind: Kind)
    ensures Kept(a + b, kind) == Kept(a, kind) + Kept(b, kind)
  {
    if b == [] {
      assert a + b == a;
      assert Kept(a, kind) + [] == Kept(a, kind);
    } else {
      var init, last := b[..|b| - 1], b[|b| - 1];
      KeptConcat(a, init, kind);
      KeptSnoc(a + init, last, kind);
      assert a + b == (a + init) + [last];
      Regroup(Kept(a, kind), Kept(init, kind), [last]);
    }
  }

  lemma KeptSnoc(events: seq<AuditEvent>, e: AuditEvent, kind: Kind)
    ensures Kept(events + [e], kind) == if OfKind(e, kind) then Kept(events, kind) + [e] else Kept(events, kind)
  {
    assert (events + [e])[..|events|] == events;
  }

  lemma PressureIsNeither(softBreaches: nat, denials: nat, kind: Kind)
    requires kind != Alarms
    ensures Kept(PressureEvents(softBreaches, denials), kind) == []
  {
    KeptOfOne(GrowthDenied(denials), kind);
    KeptOfOne(Pressure(softBreaches), kind);
  }

  lemma MemoryFiles(softBreaches: nat, denials: nat, leak: bool, usage: nat)
    ensures
      var events := PressureEvents(softBreaches, denials) + LeakEvents(leak, usage);
      Kept(events, Violations) == [] && Kept(events, Leaks) == LeakEvents(leak, usage)
  {
    var pressure, leaks := PressureEvents(softBreaches, denials), LeakEvents(leak, usage);
    forall kind: Kind | kind != Alarms ensures Kept(pressure + leaks, kind) == Kept(leaks, kind) {
      KeptConcat(pressure, leaks, kind);
      PressureIsNeither(softBreaches, denials, kind);
      assert [] + Kept(leaks, kind) == Kept(leaks, kind);
    }
    KeptOfOne(LeakSuspected(usage), Violations);
    KeptOfOne(LeakSuspected(usage), Leaks);
  }

  lemma ViolationFiles(violation: bool, consumed: nat, slice: nat)
    ensures
      var events := ViolationEvents(violation, consumed, slice);
      Kept(events, Violations) == events && Kept(events, Leaks) == []
  {
    KeptOfOne(ContractViolation(consumed, slice), Violations);
    KeptOfOne(ContractViolation(consumed, slice), Leaks);
  }

  lemma MemoryBooks(b: Books, id: string, softBreaches: nat, denials: nat, usage: nat)
    ensures
      var n := Do(b, Memory(id, softBreaches, denials, usage));
      var (c, leak) := ObservedUsage(RecordedMemoryEvents(EntryOf(b, id), softBreaches, denials), usage);
      && EntryOf(n, id) == c
      && Entries(n.audit, id, Violations) == Entries(b.audit, id, Violations)
      && Entries(n.audit, id, Leaks) == Entries(b.audit, id, Leaks) + LeakEvents(leak, usage)
  {
    var (c, leak) := ObservedUsage(RecordedMemoryEvents(EntryOf(b, id), softBreaches, denials), usage);
    var events := PressureEvents(softBreaches, denials) + LeakEvents(leak, usage);
    EntriesBooked(b.audit, id, Violations, id, events);
    EntriesBooked(b.audit, id, Leaks, id, events);
    MemoryFiles(softBreaches, denials, leak, usage);
  }

  lemma FuelBooks(b: Books, id: string, consumed: nat, slice: nat)
    ensures
      var n := Do(b, Fuel(id, consumed, Some(slice)));
      var (c, violation) := Metered(EntryOf(b, id), consumed, slice);
      && EntryOf(n, id) == c
      && Entries(n.audit, id, Leaks) == Entries(b.audit, id, Leaks)
      && Entries(n.audit, id, Violations)
         == Entries(b.audit, id, Violations) + ViolationEvents(violation, consumed, slice)
  {
    var (c, violation) := Metered(EntryOf(b, id), consumed, slice);
    var events := ViolationEvents(violation, consumed, slice);
    EntriesBooked(b.audit, id, Violations, id, events);
    EntriesBooked(b.audit, id, Leaks, id, events);
    ViolationFiles(violation, consumed, slice);
  }

  lemma MemoryKeepsLaws(b: Books, passes: seq<Pass>, id: string, softBreaches: nat, denials: nat, usage: nat)
    requires Laws(b, passes, id)
    ensures
      var p := Memory(id, softBreaches, denials, usage);
      Laws(Do(b, p), passes + [p], id)
  {
    MemoryBooks(b, id, softBreaches, denials, usage);
    var recorded := RecordedMemoryEvents(EntryOf(b, id), softBreaches, denials);
    ObservedKeepsLaw(recorded, Entries(b.audit, id, Leaks), Usages(passes, id), usage);
    HistorySnoc(passes, Memory(id, softBreaches, denials, usage), id);
  }

  predicate SameLeaks(c: Counters, d: Counters) {
    && c.memoryHighWaterBytes == d.memoryHighWaterBytes && c.newHighWaters == d.newHighWaters
    && c.leakReported == d.leakReported
  }

  lemma FuelKeepsLaws(b: Books, passes: seq<Pass>, id: string, consumed: nat, slice: nat)
    requires Laws(b, passes, id)
    ensures
      var p := Fuel(id, consumed, Some(slice));
      Laws(Do(b, p), passes + [p], id)
  {
    var p := Fuel(id, consumed, Some(slice));
    var before, violations := EntryOf(b, id), Entries(b.audit, id, Violations);
    FuelBooks(b, id, consumed, slice);
    MeteredKeepsLaw(before, violations, Meters(passes, id), consumed, slice);
    HistorySnoc(passes, p, id);
    assert SameLeaks(EntryOf(Do(b, p), id), before);
  }

  ghost predicate SameStanding(c: Counters, d: Counters) {
    && c.overSliceStreak == d.overSliceStreak && c.contractViolations == d.contractViolations
    && c.memoryHighWaterBytes == d.memoryHighWaterBytes && c.newHighWaters == d.newHighWaters
    && c.leakReported == d.leakReported
  }

  /** Neither timing a call nor counting a trap touches what the laws speak of. */
  lemma QuietBooks(b: Books, p: Pass, id: string, kind: Kind)
    requires p.id == id && (p.Timed? || p.Failed?) && kind != Alarms
    ensures SameStanding(EntryOf(Do(b, p), id), EntryOf(b, id))
    ensures Entries(Do(b, p).audit, id, kind) == Entries(b.audit, id, kind)
  {
    var before := Entries(b.audit, id, kind);
    assert before + [] == before;
    EntriesBooked(b.audit, id, kind, id, []);
    if p.Failed? {
      EntriesBooked(b.audit, id, kind, id, [FuelTrap(p.error)]);
      FailedFiles(p.error);
    }
  }

  lemma PassKeepsLaws(b: Books, passes: seq<Pass>, p: Pass, id: string)
    requires Laws(b, passes, id)
    ensures Laws(Do(b, p), passes + [p], id)
  {
    if p.id != id {
      HistorySnoc(passes, p, id);
      PassesAreIsolated(b, p, id, Violations);
      PassesAreIsolated(b, p, id, Leaks);
    } else if p.Memory? {
      MemoryKeepsLaws(b, passes, id, p.softBreaches, p.denials, p.usage);
    } else if p.Fuel? && p.slice.Some? {
      FuelKeepsLaws(b, passes, id, p.consumed, p.slice.value);
    } else {
      HistorySnoc(passes, p, id);
      if !p.Fuel? {
        QuietBooks(b, p, id, Violations);
        QuietBooks(b, p, id, Leaks);
      }
    }
  }

  lemma FailedFiles(error: string)
    ensures Kept([FuelTrap(error)], Violations) == Kept([FuelTrap(error)], Leaks) == []
  {
    KeptOfOne(FuelTrap(error), Violations);
    KeptOfOne(FuelTrap(error), Leaks);
  }

  lemma {:induction false} RunKeepsLaws(passes: seq<Pass>, id: string)
    ensures Laws(Run(EMPTY, passes), passes, id)
  {
    if passes == [] {
      assert HighWaters([]) == {};
    } else {
      var before := passes[..|passes| - 1];
      RunKeepsLaws(before, id);
      PassKeepsLaws(Run(EMPTY, before), before, passes[|passes| - 1], id);
      assert passes == before + [passes[|passes| - 1]];
    }
  }

  /**
   * For any history: the violations of a plugin count its maximal runs of
   * over-slice calls of length at least 8, the streak is the length of the run
   * it is in, and its audit entries are the eighth call of each such run.
   */
  lemma ViolationsCountLongRuns(passes: seq<Pass>, id: string)
    ensures
      var b, ms := Run(EMPTY, passes), Meters(passes, id);
      && EntryOf(b, id).contractViolations == |LongRuns(ms)|
      && EndsWithRun(ms, EntryOf(b, id).overSliceStreak)
      && Entries(b.audit, id, Violations) == EighthCalls(ms)
      && |EighthCalls(ms)| == |LongRuns(ms)|
  {
    RunKeepsLaws(passes, id);
    OneEighthCallEach(Meters(passes, id));
  }

  /**
   * For any history: the high-water mark of a plugin is the largest usage
   * seen, its records are the strict running maxima, and the one leak report
   * is made at the 32nd.
   */
  lemma LeakIsReportedOnceAtThreshold(passes: seq<Pass>, id: string)
    ensures
      var b, us := Run(EMPTY, passes), Usages(passes, id);
      var leaks := Entries(b.audit, id, Leaks);
      && IsMaximum(us, EntryOf(b, id).memoryHighWaterBytes)
      && EntryOf(b, id).newHighWaters == |HighWaters(us)|
      && leaks == LeakReports(us)
      && |leaks| == if |HighWaters(us)| >= 32 then 1 else 0
  {
    RunKeepsLaws(passes, id);
    OneLeakReport(Usages(passes, id));
  }

  // -------------------------------------------------------------------------
  // Sums and peaks
  // -------------------------------------------------------------------------

  function Sum(s: seq<nat>): nat {
    if s == [] then 0 else Sum(s[..|s| - 1]) + s[|s| - 1]
  }

  function Capped(n: nat): nat {
    if n > 0xFFFF_FFFF_FFFF_FFFF then 0xFFFF_FFFF_FFFF_FFFF else n
  }

  /** One number of each pass about a plugin that has it, oldest first. */
  ghost function Series(passes: seq<Pass>, id: string, of: Measure): seq<nat> {
    if passes == [] then []
    else
      var p, before := passes[|passes| - 1], Series(passes[..|passes| - 1], id, of);
      if p.id == id && Measured(p, of).Some? then before + [Measured(p, of).value] else before
  }

  datatype Measure = Latency | Consumption | Breaches | Denials | Traps

  ghost function Measured(p: Pass, of: Measure): Option<nat> {
    match (p, of)
    case (Timed(_, elapsedNs), Latency) => Some(elapsedNs)
    case (Fuel(_, consumed, Some(_)), Consumption) => Some(consumed)
    case (Memory(_, softBreaches, _, _), Breaches) => Some(softBreaches)
    case (Memory(_, _, denials, _), Denials) => Some(denials)
    case (Failed(_, error), Traps) => if SaysFuelBudget(error) then Some(1) else None
    case _ => None
  }

  /** The series, extended by one pass. */
  ghost predicate Extends(next: seq<nat>, before: seq<nat>, x: Option<nat>) {
    next == if x.Some? then before + [x.value] else before
  }

  lemma SumSnoc(s: seq<nat>, x: nat)
    ensures Sum(s + [x]) == Sum(s) + x
  {
    assert (s + [x])[..|s|] == s;
  }

  /** The counters of the plugin a pass is about. */
  function After(c: Counters, p: Pass): Counters {
    match p
    case Timed(_, elapsedNs) => RecordedCall(c, elapsedNs)
    case Failed(_, error) => c.(fuelTraps := c.fuelTraps + if IsFuelTrap(error) then 1 else 0)
    case Memory(_, softBreaches, denials, usage) =>
      ObservedUsage(RecordedMemoryEvents(c, softBreaches, denials), usage).0
    case Fuel(_, consumed, slice) => if slice.Some? then Metered(c, consumed, slice.value).0 else c
  }

  lemma OwnCounters(b: Books, p: Pass, id: string)
    requires p.id == id
    ensures EntryOf(Do(b, p), id) == After(EntryOf(b, id), p)
  {
  }

  ghost predicate Tallied(c: Counters, times: seq<nat>, traps: seq<nat>, fuel: seq<nat>, breaches: seq<nat>,
                          denials: seq<nat>)
  {
    && c.callCount == |times| && c.totalNs == Capped(Sum(times)) && IsMaximum(times, c.peakNs)
    && c.fuelTraps == |traps| && c.fuelConsumedTotal == Capped(Sum(fuel))
    && c.memorySoftBreaches == Sum(breaches) && c.memoryGrowthDenials == Sum(denials)
  }

  ghost predicate TotalsLaw(c: Counters, passes: seq<Pass>, id: string) {
    Tallied(c, Series(passes, id, Latency), Series(passes, id, Traps), Series(passes, id, Consumption),
            Series(passes, id, Breaches), Series(passes, id, Denials))
  }

  lemma CallIsTallied(c: Counters, times: seq<nat>, traps: seq<nat>, fuel: seq<nat>, breaches: seq<nat>,
                      denials: seq<nat>, t: nat)
    requires Tallied(c, times, traps, fuel, breaches, denials)
    ensures Tallied(RecordedCall(c, t), times + [t], traps, fuel, breaches, denials)
  {
    SumSnoc(times, t);
    assert (times + [t])[|times|] == t;
    assert forall i :: 0 <= i < |times| ==> (times + [t])[i] == times[i];
  }

  lemma MemoryIsTallied(c: Counters, times: seq<nat>, traps: seq<nat>, fuel: seq<nat>, breaches: seq<nat>,
                        denials: seq<nat>, softBreaches: nat, denied: nat, usage: nat)
    requires Tallied(c, times, traps, fuel, breaches, denials)
    ensures Tallied(ObservedUsage(RecordedMemoryEvents(c, softBreaches, denied), usage).0,
                    times, traps, fuel, breaches + [softBreaches], denials + [denied])
  {
    SumSnoc(breaches, softBreaches);
    SumSnoc(denials, denied);
  }

  lemma FuelIsTallied(c: Counters, times: seq<nat>, traps: seq<nat>, fuel: seq<nat>, breaches: seq<nat>,
                      denials: seq<nat>, consumed: nat, slice: nat)
    requires Tallied(c, times, traps, fuel, breaches, denials)
    ensures Tallied(Metered(c, consumed, slice).0, times, traps, fuel + [consumed], breaches, denials)
  {
    SumSnoc(fuel, consumed);
  }

  lemma AllSeriesSnoc(passes: seq<Pass>, p: Pass, id: string)
    ensures forall of :: Extends(Series(passes + [p], id, of), Series(passes, id, of),
                                 if p.id == id then Measured(p, of) else None)
  {
    assert (passes + [p])[..|passes|] == passes;
  }

  lemma PassKeepsTotals(c: Counters, passes: seq<Pass>, p: Pass, id: string)
    requires TotalsLaw(c, passes, id) && p.id == id
    ensures TotalsLaw(After(c, p), passes + [p], id)
  {
    AllSeriesSnoc(passes, p, id);
    var times, traps, fuel := Series(passes, id, Latency), Series(passes, id, Traps), Series(passes, id, Consumption);
    var breaches, denials := Series(passes, id, Breaches), Series(passes, id, Denials);
    match p {
      case Timed(_, elapsedNs) => CallIsTallied(c, times, traps, fuel, breaches, denials, elapsedNs);
      case Memory(_, softBreaches, denied, usage) =>
        MemoryIsTallied(c, times, traps, fuel, breaches, denials, softBreaches, denied, usage);
      case Fuel(_, consumed, slice) =>
        if slice.Some? {
          FuelIsTallied(c, times, traps, fuel, breaches, denials, consumed, slice.value);
        }
      case Failed(_, error) => FuelTrapSaysSo(error);
    }
  }

  lemma OtherPassKeepsTotals(c: Counters, passes: seq<Pass>, p: Pass, id: string)
    requires TotalsLaw(c, passes, id) && p.id != id
    ensures TotalsLaw(c, passes + [p], id)
  {
    AllSeriesSnoc(passes, p, id);
  }

  /**
   * For any history: a plugin's call count, latency total and peak, trap
   * count, fuel total, breaches and denials are those of the passes about it;
   * the totals stop at the largest 64-bit number.
   */
  lemma {:induction false} TotalsAreHistory(passes: seq<Pass>, id: string)
    ensures TotalsLaw(EntryOf(Run(EMPTY, passes), id), passes, id)
  {
    if passes != [] {
      var before, p := passes[..|passes| - 1], passes[|passes| - 1];
      TotalsAreHistory(before, id);
      assert passes == before + [p];
      if p.id == id {
        OwnCounters(Run(EMPTY, before), p, id);
        PassKeepsTotals(EntryOf(Run(EMPTY, before), id), before, p, id);
      } else {
        PassesAreIsolated(Run(EMPTY, before), p, id, Leaks);
        OtherPassKeepsTotals(EntryOf(Run(EMPTY, before), id), before, p, id);
      }
    }
  }
}
