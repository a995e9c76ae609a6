/** Load-time admission: tier caps, consent, and the memory residents reserve. */
module Reservations {
  import opened Wrappers

  const MEMORY_LIMIT_PAGES: nat := 256
  const PAGES_PER_MB: nat := 16

  // -------------------------------------------------------------------------
  // Policy and requests
  // -------------------------------------------------------------------------

  datatype Tiers = Tiers(realtimeMb: Option<nat>, interactiveMb: Option<nat>, batchMb: Option<nat>)

  datatype MemoryPolicy = MemoryPolicy(totalMb: Option<nat>, tiers: Option<Tiers>)

  datatype Policy = Policy(memory: Option<MemoryPolicy>)

  datatype RealtimeClass = Realtime | Interactive | Batch | Unknown(text: string)

  datatype Budget = Budget(memoryMb: Option<nat>, fuelPerTick: Option<nat>)

  datatype Capability = Capability(realtimeClass: Option<RealtimeClass>, budget: Option<Budget>)

  /** `trusted` is the outcome of the signature policy, `contractHolds` that of the runtime's own load request. */
  datatype LoadRequest = LoadRequest(
    id: string, resident: bool, capabilities: seq<Capability>, consentOverride: bool,
    trusted: bool, contractHolds: bool)

  datatype Reservation = Reservation(memoryMb: nat, fuelPerTick: Option<nat>)

  datatype Loaded = Loaded(resident: bool, softPages: nat, hardPages: nat)

  datatype Reason = Untrusted | PeakNotDeclared | NoTotalBudget | OverTier | OverTotal

  datatype AuditEvent =
    | AdmissionRejected(reason: Reason)
    | ConsentRequired(reason: Reason)
    | ConsentOverride(reason: Reason)

  datatype AuditRecord = AuditRecord(id: string, event: AuditEvent)

  datatype Reply = Accepted | Refused(reason: Reason) | AskConsent(reason: Reason) | Fatal

  // -------------------------------------------------------------------------
  // Tier and declarations
  // -------------------------------------------------------------------------

  function ClassOf(c: Capability): RealtimeClass {
    if c.realtimeClass.Some? then c.realtimeClass.value else Batch
  }

  function Stricter(acc: RealtimeClass, class_: RealtimeClass): RealtimeClass {
    if acc == Realtime || class_ == Realtime then Realtime
    else if class_ == Interactive && (acc == Interactive || acc == Batch) then Interactive
    else acc
  }

  function TierFrom(acc: RealtimeClass, capabilities: seq<Capability>): RealtimeClass
    decreases |capabilities|
  {
    if capabilities == [] then acc else TierFrom(Stricter(acc, ClassOf(capabilities[0])), capabilities[1..])
  }

  function TierOf(capabilities: seq<Capability>): RealtimeClass {
    TierFrom(Batch, capabilities)
  }

  ghost predicate Declares(capabilities: seq<Capability>, class_: RealtimeClass) {
    exists c :: c in capabilities && ClassOf(c) == class_
  }

  ghost function Strictest(acc: RealtimeClass, capabilities: seq<Capability>): RealtimeClass {
    if acc == Realtime || Declares(capabilities, Realtime) then Realtime
    else if acc == Interactive || Declares(capabilities, Interactive) then Interactive
    else Batch
  }

  lemma {:induction false} TierFromIsStrictest(acc: RealtimeClass, capabilities: seq<Capability>)
    requires !acc.Unknown?
    ensures TierFrom(acc, capabilities) == Strictest(acc, capabilities)
    decreases |capabilities|
  {
    if capabilities != [] {
      var first, rest := capabilities[0], capabilities[1..];
      TierFromIsStrictest(Stricter(acc, ClassOf(first)), rest);
      assert capabilities == [first] + rest;
      assert forall c :: c in capabilities <==> c == first || c in rest;
    }
  }

  /** The tier is the strictest class any capability declares; an unknown class counts for nothing. */
  lemma TierIsStrictest(capabilities: seq<Capability>)
    ensures TierOf(capabilities) == Strictest(Batch, capabilities)
  {
    TierFromIsStrictest(Batch, capabilities);
  }

  function Larger(a: Option<nat>, b: Option<nat>): Option<nat> {
    if a.None? then b else if b.None? then a else if a.value >= b.value then a else b
  }

  function Peak(c: Capability): Option<nat> {
    if c.budget.Some? then c.budget.value.memoryMb else None
  }

  function Slice(c: Capability): Option<nat> {
    if c.budget.Some? then c.budget.value.fuelPerTick else None
  }

  datatype Resource = Memory | Fuel

  function Declared(c: Capability, of: Resource): Option<nat> {
    if of == Memory then Peak(c) else Slice(c)
  }

  function Largest(capabilities: seq<Capability>, of: Resource): Option<nat> {
    if capabilities == [] then None else Larger(Declared(capabilities[0], of), Largest(capabilities[1..], of))
  }

  function DeclaredMb(capabilities: seq<Capability>): Option<nat> {
    Largest(capabilities, Memory)
  }

  function FuelPerTickOf(capabilities: seq<Capability>): Option<nat> {
    Largest(capabilities, Fuel)
  }

  /** A declared peak or slice is one some capability declares, and none declares more. */
  lemma {:induction false} DeclaredIsLargest(capabilities: seq<Capability>, of: Resource)
    ensures
      var largest := Largest(capabilities, of);
      && (largest.Some? ==> exists c :: c in capabilities && Declared(c, of) == largest)
      && (forall c :: c in capabilities && Declared(c, of).Some? ==>
            largest.Some? && Declared(c, of).value <= largest.value)
  {
    if capabilities != [] {
      var first, rest := capabilities[0], capabilities[1..];
      DeclaredIsLargest(rest, of);
      assert first in capabilities;
      assert forall c :: c in rest ==> c in capabilities;
    }
  }

  /** The largest peak any capability's budget names; none if none names one. */
  ghost predicate LargestMb(capabilities: seq<Capability>, mb: Option<nat>) {
    && (mb.Some? ==> exists c :: c in capabilities && c.budget.Some? && c.budget.value.memoryMb == mb)
    && (forall c :: c in capabilities && c.budget.Some? && c.budget.value.memoryMb.Some? ==>
          mb.Some? && c.budget.value.memoryMb.value <= mb.value)
  }

  /** The largest fuel slice any capability's budget names; none if none names one. */
  ghost predicate LargestFuel(capabilities: seq<Capability>, fuel: Option<nat>) {
    && (fuel.Some? ==> exists c :: c in capabilities && c.budget.Some? && c.budget.value.fuelPerTick == fuel)
    && (forall c :: c in capabilities && c.budget.Some? && c.budget.value.fuelPerTick.Some? ==>
          fuel.Some? && c.budget.value.fuelPerTick.value <= fuel.value)
  }

  /** Declared peak and slice are the largest the budgets name, and nothing else is. */
  lemma DeclaredByFields(capabilities: seq<Capability>)
    ensures forall mb :: LargestMb(capabilities, mb) <==> mb == DeclaredMb(capabilities)
    ensures forall fuel :: LargestFuel(capabilities, fuel) <==> fuel == FuelPerTickOf(capabilities)
  {
    DeclaredIsLargest(capabilities, Memory);
    DeclaredIsLargest(capabilities, Fuel);
    assert LargestMb(capabilities, DeclaredMb(capabilities)) by {
      if DeclaredMb(capabilities).Some? {
        var c :| c in capabilities && Declared(c, Memory) == DeclaredMb(capabilities);
      }
      assert forall c :: c in capabilities && c.budget.Some? ==> Declared(c, Memory) == c.budget.value.memoryMb;
    }
    assert LargestFuel(capabilities, FuelPerTickOf(capabilities)) by {
      if FuelPerTickOf(capabilities).Some? {
        var c :| c in capabilities && Declared(c, Fuel) == FuelPerTickOf(capabilities);
      }
      assert forall c :: c in capabilities && c.budget.Some? ==> Declared(c, Fuel) == c.budget.value.fuelPerTick;
    }
  }

  // -------------------------------------------------------------------------
  // Admission
  // -------------------------------------------------------------------------

  function TierMb(tiers: Tiers, tier: RealtimeClass): Option<nat> {
    match tier
    case Realtime => tiers.realtimeMb
    case Interactive => tiers.interactiveMb
    case _ => tiers.batchMb
  }

  function TierHardPages(p: Option<Policy>, tier: RealtimeClass): nat {
    if p.None? || p.value.memory.None? || p.value.memory.value.tiers.None? then MEMORY_LIMIT_PAGES
    else
      var mb := TierMb(p.value.memory.value.tiers.value, tier);
      if mb.Some? then mb.value * PAGES_PER_MB else MEMORY_LIMIT_PAGES
  }

  function TotalMb(p: Option<Policy>): Option<nat> {
    if p.None? || p.value.memory.None? then None else p.value.memory.value.totalMb
  }

  function PagesFor(mb: nat): nat {
    if mb == 0 then 1 else mb * PAGES_PER_MB
  }

  datatype Limits = Limits(
    softPages: nat, hardPages: nat, declaredMb: nat, fuelPerTick: Option<nat>, consent: Option<Reason>)

  function PolicyMemoryLimits(p: Option<Policy>, capabilities: seq<Capability>, resident: bool)
    : Result<Limits, Reason>
  {
    if p.None? then Ok(Limits(MEMORY_LIMIT_PAGES, MEMORY_LIMIT_PAGES, 0, None, None))
    else
      var declared, fuel := DeclaredMb(capabilities), FuelPerTickOf(capabilities);
      if resident then
        if declared.None? then Err(PeakNotDeclared)
        else Ok(Limits(PagesFor(declared.value), PagesFor(declared.value), declared.value, fuel, None))
      else
        var hard := TierHardPages(p, TierOf(capabilities));
        if declared.None? then Ok(Limits(hard, hard, 0, fuel, None))
        else if declared.value > hard / PAGES_PER_MB then
          Ok(Limits(PagesFor(declared.value), PagesFor(declared.value), declared.value, fuel, Some(OverTier)))
        else
          var wanted := declared.value * PAGES_PER_MB;
          Ok(Limits(if wanted < hard then wanted else hard, hard, declared.value, fuel, None))
  }

  ghost predicate Names(capabilities: seq<Capability>, class_: RealtimeClass) {
    exists c :: c in capabilities && c.realtimeClass == Some(class_)
  }

  /**
   * The pages of a tier: 16 for each megabyte of the realtime budget if any
   * capability is realtime, else of the interactive budget if any is
   * interactive, else of the batch budget; 256 where the policy names none.
   */
  ghost predicate TierPages(p: Option<Policy>, capabilities: seq<Capability>, pages: nat) {
    match p
    case Some(Policy(Some(MemoryPolicy(_, Some(Tiers(realtime, interactive, batch)))))) =>
      var mb := if Names(capabilities, Realtime) then realtime
                else if Names(capabilities, Interactive) then interactive else batch;
      pages == if mb.Some? then mb.value * 16 else 256
    case _ => pages == 256
  }

  lemma TierPagesAreTheCap(p: Option<Policy>, capabilities: seq<Capability>, pages: nat)
    requires TierPages(p, capabilities, pages)
    ensures TierHardPages(p, TierOf(capabilities)) == pages && pages % 16 == 0
  {
    TierIsStrictest(capabilities);
    assert Declares(capabilities, Realtime) <==> Names(capabilities, Realtime) by {
      if Names(capabilities, Realtime) {
        var c :| c in capabilities && c.realtimeClass == Some(Realtime);
        assert ClassOf(c) == Realtime;
      }
    }
    assert Declares(capabilities, Interactive) <==> Names(capabilities, Interactive) by {
      if Names(capabilities, Interactive) {
        var c :| c in capabilities && c.realtimeClass == Some(Interactive);
        assert ClassOf(c) == Interactive;
      }
    }
  }

  /**
   * The caps of an ordinary extension: its declared peak as the soft cap under
   * the tier's hard cap; the tier's cap for both if it declares none; and, if
   * it declares more than its tier has, its declared peak for both, but only
   * with consent.
   */
  lemma OrdinaryCaps(p: Option<Policy>, capabilities: seq<Capability>, tier: nat, mb: Option<nat>, fuel: Option<nat>)
    requires p.Some? && TierPages(p, capabilities, tier)
    requires LargestMb(capabilities, mb) && LargestFuel(capabilities, fuel)
    ensures PolicyMemoryLimits(p, capabilities, false)
         == if mb.None? then Ok(Limits(tier, tier, 0, fuel, None))
            else if mb.value * 16 > tier then Ok(Limits(mb.value * 16, mb.value * 16, mb.value, fuel, Some(OverTier)))
            else Ok(Limits(mb.value * 16, tier, mb.value, fuel, None))
  {
    TierPagesAreTheCap(p, capabilities, tier);
    DeclaredByFields(capabilities);
  }

  /** A resident is capped by its declared peak alone; without a policy nothing is asked and 256 pages are the cap. */
  lemma ResidentCaps(p: Option<Policy>, capabilities: seq<Capability>, mb: Option<nat>, fuel: Option<nat>)
    requires LargestMb(capabilities, mb) && LargestFuel(capabilities, fuel)
    ensures PolicyMemoryLimits(None, capabilities, false) == Ok(Limits(256, 256, 0, None, None))
    ensures PolicyMemoryLimits(None, capabilities, true) == Ok(Limits(256, 256, 0, None, None))
    ensures p.Some? && mb.None? ==> PolicyMemoryLimits(p, capabilities, true) == Err(PeakNotDeclared)
    ensures p.Some? && mb.Some? && mb.value > 0 ==>
      PolicyMemoryLimits(p, capabilities, true) == Ok(Limits(mb.value * 16, mb.value * 16, mb.value, fuel, None))
    ensures p.Some? && mb == Some(0) ==> PolicyMemoryLimits(p, capabilities, true) == Ok(Limits(1, 1, 0, fuel, None))
  {
    DeclaredByFields(capabilities);
  }

  /** The soft cap is at most the hard cap, and only a declaration above 0 is ever overridden. */
  lemma LimitsAreOrdered(p: Option<Policy>, capabilities: seq<Capability>, resident: bool)
    requires PolicyMemoryLimits(p, capabilities, resident).Ok?
    ensures
      var l := PolicyMemoryLimits(p, capabilities, resident).value;
      l.softPages <= l.hardPages && (l.consent.Some? ==> l.declaredMb > 0)
  {
    var hard := TierHardPages(p, TierOf(capabilities));
    assert hard % PAGES_PER_MB == 0;
  }

  // -------------------------------------------------------------------------
  // Sums of reservations
  // -------------------------------------------------------------------------

  ghost function Reserved(m: map<string, Reservation>): nat
    decreases |m|
  {
    if m == map[] then 0
    else
      var id :| id in m;
      m[id].memoryMb + Reserved(m - {id})
  }

  lemma {:induction false} ReservedWithout(m: map<string, Reservation>, id: string)
    requires id in m
    ensures Reserved(m) == m[id].memoryMb + Reserved(m - {id})
    decreases |m|
  {
    var first :| first in m && Reserved(m) == m[first].memoryMb + Reserved(m - {first});
    if first != id {
      ReservedWithout(m - {first}, id);
      ReservedWithout(m - {id}, first);
      assert m - {first} - {id} == m - {id} - {first};
    }
  }

  lemma ReservedWith(m: map<string, Reservation>, id: string, r: Reservation)
    ensures Reserved((m - {id})[id := r]) == r.memoryMb + Reserved(m - {id})
  {
    var next := (m - {id})[id := r];
    ReservedWithout(next, id);
    assert next - {id} == m - {id};
  }

  lemma ReservedRemoved(m: map<string, Reservation>, id: string)
    ensures Reserved(m - {id}) <= Reserved(m)
  {
    if id in m {
      ReservedWithout(m, id);
    } else {
      assert m - {id} == m;
    }
  }

  // -------------------------------------------------------------------------
  // The load state machine
  // -------------------------------------------------------------------------

  datatype Kernel = Kernel(
    policy: Option<Policy>,
    reservations: map<string, Reservation>,
    loaded: map<string, Loaded>,
    audit: seq<AuditRecord>)

  ghost function Others(k: Kernel, id: string): nat {
    Reserved(k.reservations - {id})
  }

  /** Why a resident is refused outright, once its limits are known. */
  function ResidentRefusal(p: Option<Policy>, declaredMb: nat): Option<Reason> {
    if TotalMb(p).None? then Some(NoTotalBudget) else if declaredMb == 0 then Some(PeakNotDeclared) else None
  }

  datatype Decision =
    | Reject(reason: Reason)
    | NeedsConsent(reason: Reason)
    | Admit(loaded: Loaded, reservation: Option<Reservation>, overridden: Option<Reason>)

  ghost function Decide(k: Kernel, r: LoadRequest): Decision {
    if !r.trusted then Reject(Untrusted)
    else
      var limits := PolicyMemoryLimits(k.policy, r.capabilities, r.resident);
      if limits.Err? then Reject(limits.error)
      else
        var l := limits.value;
        if r.resident && ResidentRefusal(k.policy, l.declaredMb).Some? then
          Reject(ResidentRefusal(k.policy, l.declaredMb).value)
        else
          var reservation := if r.resident then Some(Reservation(l.declaredMb, l.fuelPerTick)) else None;
          var overTotal := r.resident && l.declaredMb + Others(k, r.id) > TotalMb(k.policy).value;
          var consent := if l.consent.Some? then l.consent else if overTotal then Some(OverTotal) else None;
          if consent.None? then Admit(Loaded(r.resident, l.softPages, l.hardPages), reservation, None)
          else if !r.consentOverride then NeedsConsent(consent.value)
          else Admit(Loaded(r.resident, PagesFor(l.declaredMb), PagesFor(l.declaredMb)), reservation, consent)
  }

  function Noted(k: Kernel, id: string, event: AuditEvent): Kernel {
    k.(audit := k.audit + [AuditRecord(id, event)])
  }

  ghost function Load(k: Kernel, r: LoadRequest): (Kernel, Reply) {
    match Decide(k, r)
    case Reject(reason) => (Noted(k, r.id, AdmissionRejected(reason)), Refused(reason))
    case NeedsConsent(reason) => (Noted(k, r.id, ConsentRequired(reason)), AskConsent(reason))
    case Admit(loaded, reservation, overridden) =>
      var noted := if overridden.Some? then Noted(k, r.id, ConsentOverride(overridden.value)) else k;
      var released := noted.(reservations := k.reservations - {r.id});
      if !r.contractHolds then (released, Fatal)
      else
        var held :=
          if reservation.Some? then released.(reservations := released.reservations[r.id := reservation.value])
          else released;
        (held.(loaded := k.loaded[r.id := loaded]), Accepted)
  }

  class KernelDaemon {
    var policy: Option<Policy>
    var reservations: map<string, Reservation>
    var loaded: map<string, Loaded>
    var audit: seq<AuditRecord>

    ghost function State(): Kernel
      reads this
    {
      Kernel(policy, reservations, loaded, audit)
    }

    method OtherReserved(id: string) returns (sum: nat)
      ensures sum == Others(State(), id)
    {
      sum := 0;
      var ids := reservations.Keys;
      ghost var rest := reservations - {id};
      while ids != {}
        invariant ids <= reservations.Keys
        invariant rest == map i | i in ids && i != id :: reservations[i]
        invariant sum + Reserved(rest) == Others(State(), id)
        decreases ids
      {
        var other :| other in ids;
        ids := ids - {other};
        if other != id {
          sum := sum + reservations[other].memoryMb;
          ReservedWithout(rest, other);
          rest := rest - {other};
        }
      }
      assert rest == map[];
    }

    method PushAudit(id: string, event: AuditEvent)
      modifies this`audit
      ensures audit == old(audit) + [AuditRecord(id, event)]
    {
      audit := audit + [AuditRecord(id, event)];
    }

    method HandleLoad(r: LoadRequest) returns (reply: Reply)
      modifies this
      ensures (State(), reply) == Load(old(State()), r)
    {
      if !r.trusted {
        PushAudit(r.id, AdmissionRejected(Untrusted));
        return Refused(Untrusted);
      }
      var limits := PolicyMemoryLimits(policy, r.capabilities, r.resident);
      if limits.Err? {
        PushAudit(r.id, AdmissionRejected(limits.error));
        return Refused(limits.error);
      }
      var l := limits.value;
      var softPages, hardPages := l.softPages, l.hardPages;
      var reservation, overTotal := None, None;
      if r.resident {
        var total := TotalMb(policy);
        if total.None? {
          PushAudit(r.id, AdmissionRejected(NoTotalBudget));
          return Refused(NoTotalBudget);
        }
        if l.declaredMb == 0 {
          PushAudit(r.id, AdmissionRejected(PeakNotDeclared));
          return Refused(PeakNotDeclared);
        }
        var others := OtherReserved(r.id);
        if l.declaredMb + others > total.value {
          overTotal := Some(OverTotal);
        }
        reservation := Some(Reservation(l.declaredMb, l.fuelPerTick));
      }
      var consent := if l.consent.Some? then l.consent else overTotal;
      if consent.Some? {
        if !r.consentOverride {
          PushAudit(r.id, ConsentRequired(consent.value));
          return AskConsent(consent.value);
        }
        PushAudit(r.id, ConsentOverride(consent.value));
        hardPages := PagesFor(l.declaredMb);
        softPages := hardPages;
      }
      reservations := reservations - {r.id};
      if !r.contractHolds {
        return Fatal;
      }
      if reservation.Some? {
        reservations := reservations[r.id := reservation.value];
      }
      loaded := loaded[r.id := Loaded(r.resident, softPages, hardPages)];
      return Accepted;
    }

    /** A new policy replaces the old one; reservations stay. */
    method HandlePolicySet(p: Policy)
      modifies this`policy
      ensures State() == SetPolicy(old(State()), p)
    {
      policy := Some(p);
    }
  }

  function SetPolicy(k: Kernel, p: Policy): Kernel {
    k.(policy := Some(p))
  }

  // -------------------------------------------------------------------------
  // Every run
  // -------------------------------------------------------------------------

  datatype Op = LoadOp(request: LoadRequest) | PolicyOp(policy: Policy)

  ghost function Do(k: Kernel, op: Op): Kernel {
    match op
    case LoadOp(request) => Load(k, request).0
    case PolicyOp(policy) => SetPolicy(k, policy)
  }

  ghost function Run(k: Kernel, ops: seq<Op>): Kernel {
    if ops == [] then k else Do(Run(k, ops[..|ops| - 1]), ops[|ops| - 1])
  }

  function Start(p: Option<Policy>): Kernel {
    Kernel(p, map[], map[], [])
  }

  /** A reservation belongs to a loaded resident and is exactly its page caps. */
  ghost predicate Backed(k: Kernel) {
    && (forall id :: id in k.loaded ==> k.loaded[id].softPages <= k.loaded[id].hardPages)
    && (forall id :: id in k.reservations ==>
          && id in k.loaded && k.loaded[id].resident
          && k.loaded[id].softPages == k.loaded[id].hardPages == k.reservations[id].memoryMb * PAGES_PER_MB)
  }

  /** What an admitted request gets: its declared peak and slice if resident, its declared peak as cap if overridden. */
  lemma AdmittedIsBacked(k: Kernel, r: LoadRequest)
    requires Decide(k, r).Admit?
    ensures
      var d := Decide(k, r);
      && d.loaded.resident == r.resident == d.reservation.Some?
      && d.loaded.softPages <= d.loaded.hardPages
      && (r.resident ==> LargestMb(r.capabilities, Some(d.reservation.value.memoryMb)))
      && (r.resident ==> LargestFuel(r.capabilities, d.reservation.value.fuelPerTick))
      && (r.resident ==> d.loaded.softPages == d.loaded.hardPages == d.reservation.value.memoryMb * 16)
    ensures
      var d := Decide(k, r);
      d.overridden.Some? ==>
        forall mb: nat :: LargestMb(r.capabilities, Some(mb)) ==> d.loaded.softPages == d.loaded.hardPages == mb * 16
  {
    LimitsAreOrdered(k.policy, r.capabilities, r.resident);
    DeclaredByFields(r.capabilities);
  }

  predicate Totals(p: Option<Policy>, total: nat) {
    p.Some? && p.value.memory.Some? && p.value.memory.value.totalMb == Some(total)
  }

  /** The policy's total budget, and the memory all other extensions have reserved. */
  ghost predicate Budgeted(k: Kernel, id: string, total: nat, others: nat) {
    Totals(k.policy, total) && others == Reserved(k.reservations - {id})
  }

  /**
   * A resident that declares a peak, under a total budget: it needs consent
   * exactly when its peak and the others' reservations exceed the budget, and
   * once admitted it has its peak reserved and as both caps.
   */
  lemma ResidentLoad(k: Kernel, r: LoadRequest, total: nat, others: nat, mb: nat, fuel: Option<nat>)
    requires r.resident && r.trusted && r.contractHolds && Budgeted(k, r.id, total, others)
    requires LargestMb(r.capabilities, Some(mb)) && LargestFuel(r.capabilities, fuel) && mb > 0
    ensures
      var (next, reply) := Load(k, r);
      var over := mb + others > total;
      if over && !r.consentOverride
      then reply == AskConsent(OverTotal) && next == Noted(k, r.id, ConsentRequired(OverTotal))
      else
        && reply == Accepted
        && next.reservations == k.reservations[r.id := Reservation(mb, fuel)]
        && next.loaded == k.loaded[r.id := Loaded(true, mb * 16, mb * 16)]
        && next.audit == k.audit + if over then [AuditRecord(r.id, ConsentOverride(OverTotal))] else []
  {
    ResidentCaps(k.policy, r.capabilities, Some(mb), fuel);
    assert (k.reservations - {r.id})[r.id := Reservation(mb, fuel)] == k.reservations[r.id := Reservation(mb, fuel)];
  }

  /** Without a declared peak or without a total budget a resident is refused, and only the audit log changes. */
  lemma ResidentRefused(k: Kernel, r: LoadRequest, mb: Option<nat>)
    requires r.resident && r.trusted && LargestMb(r.capabilities, mb)
    requires mb.None? || mb.value == 0 || forall total: nat :: !Totals(k.policy, total)
    ensures
      var (next, reply) := Load(k, r);
      reply.Refused? && next == Noted(k, r.id, AdmissionRejected(reply.reason))
  {
    DeclaredByFields(r.capabilities);
    if TotalMb(k.policy).Some? {
      assert Totals(k.policy, TotalMb(k.policy).value);
    }
  }

  /** An ordinary extension needs consent exactly when it declares more than its tier has, and reserves nothing. */
  lemma OrdinaryLoad(k: Kernel, r: LoadRequest, tier: nat, mb: Option<nat>, fuel: Option<nat>)
    requires !r.resident && r.trusted && r.contractHolds && k.policy.Some? && TierPages(k.policy, r.capabilities, tier)
    requires LargestMb(r.capabilities, mb) && LargestFuel(r.capabilities, fuel)
    ensures
      var (next, reply) := Load(k, r);
      var wanted := if mb.Some? then mb.value * 16 else tier;
      if wanted > tier && !r.consentOverride
      then reply == AskConsent(OverTier) && next == Noted(k, r.id, ConsentRequired(OverTier))
      else
        && reply == Accepted && next.reservations == k.reservations - {r.id}
        && next.loaded == k.loaded[r.id := Loaded(false, wanted, if wanted > tier then wanted else tier)]
        && next.audit == k.audit + if wanted > tier then [AuditRecord(r.id, ConsentOverride(OverTier))] else []
  {
    OrdinaryCaps(k.policy, r.capabilities, tier, mb, fuel);
  }

  lemma OpKeepsBacked(k: Kernel, op: Op)
    requires Backed(k)
    ensures Backed(Do(k, op))
  {
    if op.LoadOp? && Decide(k, op.request).Admit? {
      AdmittedIsBacked(k, op.request);
    }
  }

  /**
   * Whatever is loaded, re-loaded, refused or overridden, and however the
   * policy changes: every reservation belongs to a loaded resident whose page
   * caps are the reserved memory, and soft caps never exceed hard caps.
   */
  lemma {:induction false} ReservationsAreBacked(p: Option<Policy>, ops: seq<Op>)
    ensures Backed(Run(Start(p), ops))
  {
    if ops != [] {
      ReservationsAreBacked(p, ops[..|ops| - 1]);
      OpKeepsBacked(Run(Start(p), ops[..|ops| - 1]), ops[|ops| - 1]);
    }
  }

  /** An admitted request counts its id once: the old reservation is gone before the new one is there. */
  lemma LoadCountsOnce(k: Kernel, r: LoadRequest)
    ensures Reserved(Load(k, r).0.reservations)
         == if Decide(k, r).Admit? then
              Others(k, r.id) + (if r.resident && r.contractHolds then Decide(k, r).reservation.value.memoryMb else 0)
            else Reserved(k.reservations)
  {
    if Decide(k, r).Admit? && r.resident {
      ReservedWith(k.reservations, r.id, Decide(k, r).reservation.value);
    }
  }

  ghost predicate WithinBudget(k: Kernel) {
    if TotalMb(k.policy).Some? then Reserved(k.reservations) <= TotalMb(k.policy).value else k.reservations == map[]
  }

  /** The request takes more than the budget leaves, and the host lets it. */
  ghost predicate Overspends(k: Kernel, r: LoadRequest) {
    && Decide(k, r).Admit? && r.contractHolds && r.resident
    && TotalMb(k.policy).Some? && Decide(k, r).reservation.value.memoryMb + Others(k, r.id) > TotalMb(k.policy).value
  }

  /** One load takes the kernel out of its budget exactly when it overspends. */
  lemma LoadStaysWithinUnlessOverspent(k: Kernel, r: LoadRequest)
    requires WithinBudget(k)
    ensures WithinBudget(Load(k, r).0) <==> !Overspends(k, r)
  {
    LoadCountsOnce(k, r);
    ReservedRemoved(k.reservations, r.id);
  }

  ghost predicate NoOverride(audit: seq<AuditRecord>) {
    forall i :: 0 <= i < |audit| ==> !audit[i].event.ConsentOverride?
  }

  /** Overspending leaves its mark in the audit log. */
  lemma OverspendingIsAudited(k: Kernel, r: LoadRequest)
    ensures Overspends(k, r) ==> r.consentOverride
    ensures Overspends(k, r) ==> Load(k, r).0.audit == k.audit + [AuditRecord(r.id, ConsentOverride(OverTotal))]
    ensures Overspends(k, r) ==> !NoOverride(Load(k, r).0.audit)
  {
    if Overspends(k, r) {
      assert Load(k, r).0.audit[|k.audit|].event.ConsentOverride?;
    }
  }

  /** Every policy the host sets offers at least the budget of the one before. */
  ghost predicate BudgetGrows(p: Option<Policy>, ops: seq<Op>)
    decreases |ops|
  {
    ops == [] || (
      && BudgetGrows(p, ops[..|ops| - 1])
      && var op, total := ops[|ops| - 1], TotalMb(Run(Start(p), ops[..|ops| - 1]).policy);
      (op.PolicyOp? && total.Some? ==> TotalMb(Some(op.policy)).Some? && TotalMb(Some(op.policy)).value >= total.value))
  }

  /**
   * While the budget does not shrink and the audit log shows no override: the
   * residents' reservations never sum to more than the total budget, whatever
   * the order of loads, re-loads, class changes, refusals and failures.
   */
  lemma {:induction false} BudgetHolds(p: Option<Policy>, ops: seq<Op>)
    requires BudgetGrows(p, ops)
    requires NoOverride(Run(Start(p), ops).audit)
    ensures WithinBudget(Run(Start(p), ops))
    decreases |ops|
  {
    if ops != [] {
      var before, op := Run(Start(p), ops[..|ops| - 1]), ops[|ops| - 1];
      assert before.audit <= Do(before, op).audit;
      assert forall i :: 0 <= i < |before.audit| ==> before.audit[i] == Do(before, op).audit[i];
      BudgetHolds(p, ops[..|ops| - 1]);
      if op.LoadOp? {
        LoadStaysWithinUnlessOverspent(before, op.request);
        OverspendingIsAudited(before, op.request);
      } else {
        assert Reserved(map[]) == 0;
      }
    }
  }

  /** With one policy throughout there is nothing to ask of the budget. */
  lemma {:induction false} OnePolicyNeverShrinks(p: Option<Policy>, ops: seq<Op>)
    requires forall i :: 0 <= i < |ops| ==> ops[i].LoadOp?
    ensures BudgetGrows(p, ops) && Run(Start(p), ops).policy == p
    decreases |ops|
  {
    if ops != [] {
      OnePolicyNeverShrinks(p, ops[..|ops| - 1]);
    }
  }

  /** Under one policy throughout, while the audit log shows no override, reservations stay within the total budget. */
  lemma FixedPolicyBudgetHolds(p: Option<Policy>, ops: seq<Op>)
    requires forall i :: 0 <= i < |ops| ==> ops[i].LoadOp?
    requires NoOverride(Run(Start(p), ops).audit)
    ensures
      var k := Run(Start(p), ops);
      && (forall total: nat :: Totals(p, total) ==> Reserved(k.reservations) <= total)
      && ((forall total: nat :: !Totals(p, total)) ==> k.reservations == map[])
  {
    OnePolicyNeverShrinks(p, ops);
    BudgetHolds(p, ops);
    if TotalMb(p).Some? {
      assert Totals(p, TotalMb(p).value);
    }
  }

  predicate Loads(op: Op, id: string) {
    op.LoadOp? && op.request.id == id && op.request.trusted && op.request.contractHolds
  }

  /** Whatever is loaded was loaded by a trusted request that the runtime accepted. */
  lemma {:induction false} OnlyTrustedIsLoaded(p: Option<Policy>, ops: seq<Op>, id: string)
    requires id in Run(Start(p), ops).loaded
    ensures exists i :: 0 <= i < |ops| && Loads(ops[i], id)
  {
    if ops != [] {
      var front, last := ops[..|ops| - 1], ops[|ops| - 1];
      if id in Run(Start(p), front).loaded {
        OnlyTrustedIsLoaded(p, front, id);
        var i :| 0 <= i < |front| && Loads(front[i], id);
        assert Loads(ops[i], id);
      } else {
        assert Loads(last, id);
      }
    }
  }

  ghost predicate ResidentsReserved(k: Kernel) {
    forall id :: id in k.loaded && k.loaded[id].resident ==> id in k.reservations
  }

  /**
   * A loaded resident loses its reservation exactly when a re-load of it is
   * admitted and the runtime then refuses the load: the old reservation is
   * released first, and the extension stays loaded.
   */
  lemma ResidentLosesReservation(k: Kernel, r: LoadRequest)
    requires ResidentsReserved(k)
    ensures ResidentsReserved(Load(k, r).0)
       <==> !(Decide(k, r).Admit? && !r.contractHolds && r.id in k.loaded && k.loaded[r.id].resident)
  {
    if Decide(k, r).Admit? {
      AdmittedIsBacked(k, r);
    }
  }

  /** It can come to that: an unreserved resident is reachable. */
  lemma UnreservedResidentIsReachable()
    ensures exists p, ops :: !ResidentsReserved(Run(Start(p), ops))
  {
    var p := Some(Policy(Some(MemoryPolicy(Some(8), None))));
    var r := LoadRequest("a", true, [Capability(None, Some(Budget(Some(8), None)))], false, true, true);
    var ops := [LoadOp(r), LoadOp(r.(contractHolds := false))];
    var k := Run(Start(p), ops[..1]);
    assert ops[..1][..0] == [];
    assert Reserved(map[]) == 0;
    assert Run(Start(p), ops[..1][..0]) == Start(p);
    assert Start(p).reservations - {"a"} == map[];
    assert k.reservations - {"a"} == map[];
    assert DeclaredMb(r.capabilities) == Some(8);
    assert "a" in Run(Start(p), ops).loaded && Run(Start(p), ops).loaded["a"].resident;
  }
}
