/** Which audit entries the passes about a plugin file, and in what order. */
module AccountingEntries {
  import opened Wrappers
  import opened Accounting
  import opened AccountingHistory

  // -------------------------------------------------------------------------
  // Traps, denials and pressure
  // -------------------------------------------------------------------------

  /** What a pass alone calls for: a trap, or the denials of a drain, or, if there are none, its breaches. */
  ghost function AlarmOf(p: Pass): seq<AuditEvent> {
    match p
    case Failed(_, error) => if SaysFuelBudget(error) then [FuelTrap(error)] else []
    case Memory(_, softBreaches, denials, _) =>
      if denials > 0 then [GrowthDenied(denials)] else if softBreaches > 0 then [Pressure(softBreaches)] else []
    case _ => []
  }

  ghost function AlarmsOf(passes: seq<Pass>, id: string): seq<AuditEvent> {
    if passes == [] then []
    else
      var p := passes[|passes| - 1];
      AlarmsOf(passes[..|passes| - 1], id) + if p.id == id then AlarmOf(p) else []
  }

  lemma MemoryAlarm(softBreaches: nat, denials: nat, leak: bool, usage: nat)
    ensures Kept(PressureEvents(softBreaches, denials) + LeakEvents(leak, usage), Alarms)
         == if denials > 0 then [GrowthDenied(denials)] else if softBreaches > 0 then [Pressure(softBreaches)] else []
  {
    var pressure, leaks := PressureEvents(softBreaches, denials), LeakEvents(leak, usage);
    KeptConcat(pressure, leaks, Alarms);
    KeptOfOne(GrowthDenied(denials), Alarms);
    KeptOfOne(Pressure(softBreaches), Alarms);
    KeptOfOne(LeakSuspected(usage), Alarms);
    assert pressure + [] == pressure;
  }

  lemma FiledAlarm(b: Books, p: Pass)
    ensures Kept(FiledBy(b, p), Alarms) == AlarmOf(p)
  {
    match p {
      case Timed(_, _) =>
      case Failed(_, error) =>
        FuelTrapSaysSo(error);
        KeptOfOne(FuelTrap(error), Alarms);
      case Memory(id, softBreaches, denials, usage) =>
        var leak := ObservedUsage(RecordedMemoryEvents(EntryOf(b, id), softBreaches, denials), usage).1;
        MemoryAlarm(softBreaches, denials, leak, usage);
      case Fuel(_, consumed, slice) =>
        if slice.Some? {
          KeptOfOne(ContractViolation(consumed, slice.value), Alarms);
        }
    }
  }

  lemma PassFiles(b: Books, p: Pass)
    ensures Do(b, p).audit == b.audit + Records(p.id, FiledBy(b, p))
  {
    assert Records(p.id, []) == [] && b.audit + [] == b.audit;
  }

  /**
   * For any history: the traps, denials and pressure in the audit log are, in
   * order, those each pass about the plugin calls for.
   */
  lemma {:induction false} AlarmsAreHistory(passes: seq<Pass>, id: string)
    ensures Entries(Run(EMPTY, passes).audit, id, Alarms) == AlarmsOf(passes, id)
  {
    if passes != [] {
      var before, p := passes[..|passes| - 1], passes[|passes| - 1];
      var b := Run(EMPTY, before);
      AlarmsAreHistory(before, id);
      PassFiles(b, p);
      EntriesBooked(b.audit, id, Alarms, p.id, FiledBy(b, p));
      FiledAlarm(b, p);
      assert AlarmsOf(before, id) + [] == AlarmsOf(before, id);
    }
  }

  /** Every entry is a violation, a leak or one of these, so the three histories account for all of them. */
  lemma {:induction false} EveryEntryIsAccountedFor(audit: seq<AuditRecord>, id: string)
    ensures |Entries(audit, id, Violations)| + |Entries(audit, id, Leaks)| + |Entries(audit, id, Alarms)|
         == |About(audit, id)|
  {
    if audit != [] {
      var front, last := audit[..|audit| - 1], audit[|audit| - 1];
      EveryEntryIsAccountedFor(front, id);
      AboutSnoc(front, last, id);
      assert audit == front + [last];
    }
  }

  /** The places of the entries about a plugin. */
  ghost function About(audit: seq<AuditRecord>, id: string): set<nat> {
    set i: nat | i < |audit| && audit[i].extensionId == id
  }

  lemma AboutSnoc(front: seq<AuditRecord>, last: AuditRecord, id: string)
    ensures |About(front + [last], id)| == |About(front, id)| + if last.extensionId == id then 1 else 0
  {
    assert About(front + [last], id) == About(front, id) + if last.extensionId == id then {|front|} else {};
  }

  // -------------------------------------------------------------------------
  // The order within a call
  // -------------------------------------------------------------------------

  /** Trap, then denial or pressure, then leak, then violation. */
  function Rank(e: AuditEvent): nat {
    match e
    case FuelTrap(_) => 0
    case GrowthDenied(_) => 1
    case Pressure(_) => 1
    case LeakSuspected(_) => 2
    case ContractViolation(_, _) => 3
  }

  /** A call adds entries about its own plugin only, at most one of each rank, in the order of their ranks. */
  lemma CallFilesInOrder(b: Books, id: string, outcome: Outcome, elapsedNs: nat, t: WasmTelemetry, slice: Option<nat>)
    ensures
      var audit := Settle(b, id, FuelTrapOf(outcome), elapsedNs, t, slice).audit;
      && b.audit <= audit
      && (forall i :: |b.audit| <= i < |audit| ==> audit[i].extensionId == id)
      && (forall i, j :: |b.audit| <= i < j < |audit| ==> Rank(audit[i].event) < Rank(audit[j].event))
  {
  }
}
