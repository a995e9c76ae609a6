/** Reads the memory limits a wasm module declares, without a wasm engine. */
module WasmModuleLimits {
  import opened Wrappers
  import opened Sequences
  import opened Bytes

  const WASM_MEMORY_QUOTA_PAGES: nat := 256
  const HEADER: seq<Byte> := [0x00, 0x61, 0x73, 0x6d, 0x01, 0x00, 0x00, 0x00]
  const MEMORY_SECTION: Byte := 5

  datatype WasmMemoryLimits = WasmMemoryLimits(minPages: nat, maxPages: Option<nat>)

  datatype ParseError =
    | TruncatedHeader
    | BadMagicOrVersion
    | TruncatedLeb128
    | Leb128TooLarge
    | TruncatedSection
    | TruncatedMemorySection
    | UnsupportedFlags(flags: Byte)
    | TruncatedMemoryLimits

  type Limits = Result<Option<WasmMemoryLimits>, ParseError>

  // -------------------------------------------------------------------------
  // LEB128
  // -------------------------------------------------------------------------

  function Pow2(n: nat): (p: nat)
    ensures p > 0
  {
    if n == 0 then 1 else 2 * Pow2(n - 1)
  }

  lemma Pow2Add7(n: nat)
    ensures Pow2(n + 7) == 128 * Pow2(n)
  {
    assert Pow2(n + 7) == 2 * Pow2(n + 6) == 4 * Pow2(n + 5) == 8 * Pow2(n + 4);
    assert Pow2(n + 4) == 2 * Pow2(n + 3) == 4 * Pow2(n + 2) == 8 * Pow2(n + 1);
  }

  /** The value and length of the number `t` starts with, when `k` of its groups have been read already. */
  function Leb(t: seq<Byte>, k: nat): (r: Result<(nat, nat), ParseError>)
    requires k <= 5
    ensures r.Ok? ==> 1 <= r.value.1 <= |t|
    decreases |t|
  {
    if t == [] then Err(TruncatedLeb128)
    else if t[0] < 128 then Ok((t[0], 1))
    else if k == 5 then Err(Leb128TooLarge)
    else Carry(t[0] - 128, Leb(t[1..], k + 1))
  }

  function Carry(group: nat, rest: Result<(nat, nat), ParseError>): Result<(nat, nat), ParseError> {
    match rest
    case Ok((value, length)) => Ok((group + 128 * value, length + 1))
    case Err(e) => Err(e)
  }

  /** `result` has been read with weight `weight` below what `rest` gives, over `read` bytes. */
  function Accumulate(result: nat, weight: nat, read: nat, rest: Result<(nat, nat), ParseError>)
    : Result<(nat, nat), ParseError>
  {
    match rest
    case Ok((value, length)) => Ok((result + weight * value, read + length))
    case Err(e) => Err(e)
  }

  /** The same reading, with the place after it instead of the length. */
  function Moved(offset: nat, reading: Result<(nat, nat), ParseError>): Result<(nat, nat), ParseError> {
    match reading
    case Ok((value, length)) => Ok((value, offset + length))
    case Err(e) => Err(e)
  }

  method ReadLeb128(bytes: seq<Byte>, offset: nat) returns (r: Result<(nat, nat), ParseError>)
    requires offset <= |bytes|
    ensures r == Moved(offset, Leb(bytes[offset..], 0))
  {
    var result: nat := 0;
    var shift: nat := 0;
    var current := offset;
    ghost var k: nat := 0;
    while true
      invariant offset <= current <= |bytes| && k <= 5 && shift == 7 * k
      invariant Accumulate(0, 1, offset, Leb(bytes[offset..], 0))
             == Accumulate(result, Pow2(shift), current, Leb(bytes[current..], k))
      decreases 5 - k
    {
      if current >= |bytes| {
        return Err(TruncatedLeb128);
      }
      var byte := bytes[current];
      LebStep(bytes[current..], current, result, Pow2(shift), k);
      assert bytes[current..][1..] == bytes[current + 1..];
      current := current + 1;
      result := result + Scaled(byte, Pow2(shift));
      if byte < 128 {
        return Ok((result, current));
      }
      Pow2Add7(shift);
      shift := shift + 7;
      if shift > 35 {
        return Err(Leb128TooLarge);
      }
      k := k + 1;
    }
  }

  /** The low seven bits of a byte, at the given weight. */
  function Scaled(byte: Byte, weight: nat): nat {
    (byte % 128) * weight
  }

  lemma LebStep(t: seq<Byte>, read: nat, result: nat, weight: nat, k: nat)
    requires t != [] && k <= 5
    ensures
      var sum := result + Scaled(t[0], weight);
      Accumulate(result, weight, read, Leb(t, k)) ==
        if t[0] < 128 then Ok((sum, read + 1))
        else if k == 5 then Err(Leb128TooLarge)
        else Accumulate(sum, 128 * weight, read + 1, Leb(t[1..], k + 1))
  {
    if t[0] >= 128 && k < 5 {
      CarryAccumulates(result, weight, read, t[0] - 128, Leb(t[1..], k + 1));
    }
  }

  lemma CarryAccumulates(result: nat, weight: nat, read: nat, group: nat, rest: Result<(nat, nat), ParseError>)
    ensures Accumulate(result, weight, read, Carry(group, rest))
         == Accumulate(result + group * weight, 128 * weight, read + 1, rest)
  {
    if rest.Ok? {
      var value := rest.value.0;
      assert weight * (group + 128 * value) == group * weight + 128 * weight * value;
    }
  }

  /** Section 5.2.2: continuation bytes, then a last byte below 128. */
  ghost predicate IsLeb(e: seq<Byte>) {
    e != [] && e[|e| - 1] < 128 && forall i :: 0 <= i < |e| - 1 ==> e[i] >= 128
  }

  ghost function LebValue(e: seq<Byte>): nat {
    if e == [] then 0 else e[0] % 128 + 128 * LebValue(e[1..])
  }

  /** An encoding of at most six bytes is read back, whatever follows it. */
  lemma {:induction false} LebReads(e: seq<Byte>, rest: seq<Byte>, k: nat)
    requires IsLeb(e) && |e| + k <= 6 && k <= 5
    ensures Leb(e + rest, k) == Ok((LebValue(e), |e|))
    decreases |e|
  {
    if |e| > 1 {
      LebReads(e[1..], rest, k + 1);
      assert (e + rest)[1..] == e[1..] + rest;
    } else {
      assert e[1..] == [];
    }
  }

  /** Whatever is read is an encoding of at most six bytes, and so a number a JavaScript double holds exactly. */
  lemma {:induction false} LebReadIsEncoded(t: seq<Byte>, k: nat)
    requires k <= 5 && Leb(t, k).Ok?
    ensures
      var (value, length) := Leb(t, k).value;
      && 1 <= length <= |t| && length + k <= 6
      && IsLeb(t[..length]) && value == LebValue(t[..length])
    ensures k == 0 ==> Leb(t, k).value.0 < Pow2(42)
    decreases 5 - k
  {
    var (value, length) := Leb(t, k).value;
    if t[0] < 128 {
      assert t[..1] == [t[0]] && [t[0]][1..] == [];
    } else {
      LebReadIsEncoded(t[1..], k + 1);
      var e := t[1..][..length - 1];
      assert t[..length] == [t[0]] + e;
      assert ([t[0]] + e)[1..] == e;
    }
    if k == 0 {
      LebValueBound(t[..length], 6);
    }
  }

  /** An encoding of `groups` bytes stays below 2^(7 * groups). */
  lemma {:induction false} LebValueBound(e: seq<Byte>, groups: nat)
    requires |e| <= groups
    ensures LebValue(e) < Pow2(7 * groups)
    decreases groups
  {
    if e != [] {
      LebValueBound(e[1..], groups - 1);
      Pow2Add7(7 * groups - 7);
    }
  }

  function EncodeLeb(n: nat): (e: seq<Byte>)
    ensures IsLeb(e)
  {
    if n < 128 then [n] else [n % 128 + 128] + EncodeLeb(n / 128)
  }

  lemma {:induction false} EncodedLebValue(n: nat, groups: nat)
    requires n < Pow2(7 * groups) && groups > 0
    ensures LebValue(EncodeLeb(n)) == n && |EncodeLeb(n)| <= groups
    decreases groups
  {
    if n >= 128 {
      if groups == 1 {
        Pow2Add7(0);
        assert false;
      }
      Pow2Add7(7 * groups - 7);
      EncodedLebValue(n / 128, groups - 1);
      assert EncodeLeb(n)[1..] == EncodeLeb(n / 128);
    } else {
      assert [n][1..] == [];
    }
  }

  /** Decoding undoes encoding for every value below 2^42, in at most six bytes. */
  lemma Leb128RoundTrip(n: nat, rest: seq<Byte>)
    requires n < Pow2(42)
    ensures Leb(EncodeLeb(n) + rest, 0) == Ok((n, |EncodeLeb(n)|)) && |EncodeLeb(n)| <= 6
  {
    EncodedLebValue(n, 6);
    LebReads(EncodeLeb(n), rest, 0);
  }

  // -------------------------------------------------------------------------
  // The section walk
  // -------------------------------------------------------------------------

  /** The limits in a memory section of `size` bytes at the start of `t`; numbers are read from all of `t`. */
  function Memory(t: seq<Byte>, size: nat): Limits
    requires size <= |t|
  {
    match Leb(t, 0)
    case Err(e) => Err(e)
    case Ok((count, n)) =>
      if count < 1 then Ok(None)
      else if n >= size then Err(TruncatedMemorySection)
      else if t[n] > 1 then Err(UnsupportedFlags(t[n]))
      else
        match Leb(t[n + 1..], 0)
        case Err(e) => Err(e)
        case Ok((min, m)) => MemoryMaximum(t, size, t[n] == 1, min, n + 1 + m)
  }

  function MemoryMaximum(t: seq<Byte>, size: nat, bounded: bool, min: nat, at: nat): Limits
    requires at <= |t|
  {
    if !bounded then
      if at > size then Err(TruncatedMemoryLimits) else Ok(Some(WasmMemoryLimits(min, None)))
    else
      match Leb(t[at..], 0)
      case Err(e) => Err(e)
      case Ok((max, x)) =>
        if at + x > size then Err(TruncatedMemoryLimits) else Ok(Some(WasmMemoryLimits(min, Some(max))))
  }

  /** The limits in the first memory section of `t`, which starts at a section. */
  function Walk(t: seq<Byte>): Limits
    decreases |t|, 1
  {
    if t == [] then Ok(None)
    else
      match Leb(t[1..], 0)
      case Err(e) => Err(e)
      case Ok((size, n)) => AtSection(t, t[0], 1 + n, size)
  }

  /** What the walk comes to at a section whose body of `size` bytes starts at `next`. */
  function AtSection(t: seq<Byte>, id: Byte, next: nat, size: nat): Limits
    requires 0 < next <= |t|
    decreases |t|, 0
  {
    if next + size > |t| then Err(TruncatedSection)
    else if id == MEMORY_SECTION then Memory(t[next..], size)
    else Walk(t[next + size..])
  }

  function ParseModule(bytes: seq<Byte>): Limits {
    if |bytes| < |HEADER| then Err(TruncatedHeader)
    else if bytes[..|HEADER|] != HEADER then Err(BadMagicOrVersion)
    else Walk(bytes[|HEADER|..])
  }

  method HasHeader(bytes: seq<Byte>) returns (ok: bool)
    requires |bytes| >= |HEADER|
    ensures ok <==> bytes[..|HEADER|] == HEADER
  {
    for index := 0 to |HEADER|
      invariant bytes[..index] == HEADER[..index]
    {
      if bytes[index] != HEADER[index] {
        assert bytes[..|HEADER|][index] != HEADER[index];
        return false;
      }
    }
    return true;
  }

  /** Reads the size of the section at `offset`, and where its body starts. */
  method ReadSectionSize(bytes: seq<Byte>, offset: nat) returns (r: Result<(nat, nat), ParseError>)
    requires offset < |bytes|
    ensures r.Err? ==> Walk(bytes[offset..]) == Err(r.error)
    ensures r.Ok? ==> offset < r.value.1 <= |bytes|
    ensures r.Ok? ==> Walk(bytes[offset..]) == AtSection(bytes, bytes[offset], r.value.1, r.value.0)
  {
    r := ReadLeb128(bytes, offset + 1);
    assert bytes[offset..][1..] == bytes[offset + 1..];
    if r.Ok? {
      BodyTails(bytes, offset, r.value.1, r.value.0);
    }
  }

  lemma BodyTails(bytes: seq<Byte>, offset: nat, next: nat, size: nat)
    requires offset < next <= |bytes|
    ensures AtSection(bytes[offset..], bytes[offset], next - offset, size)
         == AtSection(bytes, bytes[offset], next, size)
  {
    assert bytes[offset..][next - offset..] == bytes[next..];
    if next + size <= |bytes| {
      assert bytes[offset..][next - offset + size..] == bytes[next + size..];
    }
  }

  /** Handles the section at `offset`: the walk's outcome, or where it goes on. */
  method StepOverSection(bytes: seq<Byte>, offset: nat) returns (done: Option<Limits>, next: nat)
    requires offset < |bytes|
    ensures done.Some? ==> Walk(bytes[offset..]) == done.value
    ensures done.None? ==> offset < next <= |bytes| && Walk(bytes[offset..]) == Walk(bytes[next..])
  {
    var sectionId := bytes[offset];
    var section := ReadSectionSize(bytes, offset);
    if section.Err? {
      return Some(Err(section.error)), 0;
    }
    var (sectionSize, body) := section.value;
    if body + sectionSize > |bytes| {
      return Some(Err(TruncatedSection)), 0;
    }
    if sectionId == MEMORY_SECTION {
      var limits := ParseMemorySection(bytes, body, sectionSize);
      return Some(limits), 0;
    }
    return None, body + sectionSize;
  }

  method WalkSections(bytes: seq<Byte>, start: nat) returns (r: Limits)
    requires start <= |bytes|
    ensures r == Walk(bytes[start..])
  {
    var offset := start;
    while offset < |bytes|
      invariant offset <= |bytes|
      invariant Walk(bytes[offset..]) == Walk(bytes[start..])
      decreases |bytes| - offset
    {
      var done, next := StepOverSection(bytes, offset);
      if done.Some? {
        return done.value;
      }
      offset := next;
    }
    assert bytes[offset..] == [];
    return Ok(None);
  }

  method ParseWasmMemoryLimits(bytes: seq<Byte>) returns (r: Limits)
    ensures r == ParseModule(bytes)
  {
    if |bytes| < |HEADER| {
      return Err(TruncatedHeader);
    }
    var ok := HasHeader(bytes);
    if !ok {
      return Err(BadMagicOrVersion);
    }
    r := WalkSections(bytes, |HEADER|);
  }

  method ParseMemorySection(bytes: seq<Byte>, start: nat, size: nat) returns (r: Limits)
    requires start + size <= |bytes|
    ensures r == Memory(bytes[start..], size)
  {
    var end := start + size;
    ghost var t := bytes[start..];
    assert forall k :: 0 <= k <= |t| ==> t[k..] == bytes[start + k..];
    var count := ReadLeb128(bytes, start);
    if count.Err? {
      return Err(count.error);
    }
    var offset := count.value.1;
    if count.value.0 < 1 {
      return Ok(None);
    }
    if offset >= end {
      return Err(TruncatedMemorySection);
    }
    var flags := bytes[offset];
    assert flags == t[offset - start];
    offset := offset + 1;
    if flags != 0x00 && flags != 0x01 {
      return Err(UnsupportedFlags(flags));
    }
    var min := ReadLeb128(bytes, offset);
    if min.Err? {
      return Err(min.error);
    }
    offset := min.value.1;
    if flags == 0x01 {
      var max := ReadLeb128(bytes, offset);
      if max.Err? {
        return Err(max.error);
      }
      offset := max.value.1;
      if offset > end {
        return Err(TruncatedMemoryLimits);
      }
      return Ok(Some(WasmMemoryLimits(min.value.0, Some(max.value.0))));
    }
    if offset > end {
      return Err(TruncatedMemoryLimits);
    }
    return Ok(Some(WasmMemoryLimits(min.value.0, None)));
  }

  // -------------------------------------------------------------------------
  // Modules by their grammar (sections 5.5.2 and 5.5.8)
  // -------------------------------------------------------------------------

  datatype Section = Section(id: Byte, size: seq<Byte>, payload: seq<Byte>)

  /** A number as the walker accepts it: any encoding of at most six bytes, padded or not. */
  ghost predicate Number(e: seq<Byte>, value: nat) {
    IsLeb(e) && |e| <= 6 && LebValue(e) == value
  }

  ghost predicate WellFormed(s: Section) {
    Number(s.size, |s.payload|)
  }

  function EncodeSection(s: Section): seq<Byte> {
    [s.id] + s.size + s.payload
  }

  function Encode(sections: seq<Section>): seq<Byte> {
    if sections == [] then [] else EncodeSection(sections[0]) + Encode(sections[1..])
  }

  /** Well-formed sections, none of them a memory section. */
  ghost predicate NoMemory(sections: seq<Section>) {
    forall i :: 0 <= i < |sections| ==> WellFormed(sections[i]) && sections[i].id != MEMORY_SECTION
  }

  /** One memory type or more; only the first is looked at. */
  datatype MemoryTypes = MemoryTypes(count: seq<Byte>, min: seq<Byte>, max: Option<seq<Byte>>, more: seq<Byte>)

  ghost predicate ValidTypes(d: MemoryTypes) {
    && IsLeb(d.count) && |d.count| <= 6 && LebValue(d.count) >= 1
    && IsLeb(d.min) && |d.min| <= 6
    && (d.max.Some? ==> IsLeb(d.max.value) && |d.max.value| <= 6)
  }

  function Payload(d: MemoryTypes): seq<Byte> {
    d.count + ([if d.max.Some? then 1 else 0] + (d.min + ((if d.max.Some? then d.max.value else []) + d.more)))
  }

  ghost function LimitsOf(d: MemoryTypes): WasmMemoryLimits {
    WasmMemoryLimits(LebValue(d.min), if d.max.Some? then Some(LebValue(d.max.value)) else None)
  }

  function MaximumBytes(d: MemoryTypes): seq<Byte> {
    if d.max.Some? then d.max.value else []
  }

  function Flag(d: MemoryTypes): Byte {
    if d.max.Some? then 1 else 0
  }

  /** The tails of a memory section: after the count, after the flag, and after the minimum. */
  lemma PayloadTails(d: MemoryTypes, rest: seq<Byte>)
    ensures
      var t := Payload(d) + rest;
      var n, at := |d.count|, |d.count| + 1 + |d.min|;
      && n < at <= |t| && t[n] == Flag(d)
      && t == d.count + t[n..]
      && t[n + 1..] == d.min + t[at..]
      && t[at..] == MaximumBytes(d) + (d.more + rest)
  {
    var maximum := MaximumBytes(d);
    var w := maximum + (d.more + rest);
    var v := d.min + w;
    Regroup(maximum, d.more, rest);
    Regroup(d.min, maximum + d.more, rest);
    Regroup([Flag(d)], d.min + (maximum + d.more), rest);
    Regroup(d.count, [Flag(d)] + (d.min + (maximum + d.more)), rest);
    assert Payload(d) + rest == d.count + ([Flag(d)] + v);
    DropHead(d.count, [Flag(d)] + v);
    DropHead(d.count + [Flag(d)], v);
    Regroup(d.count, [Flag(d)], v);
    DropHead(d.count + [Flag(d)] + d.min, w);
    Regroup(d.count + [Flag(d)], d.min, w);
  }

  lemma MemoryReadsTypes(d: MemoryTypes, rest: seq<Byte>)
    requires ValidTypes(d)
    ensures Memory(Payload(d) + rest, |Payload(d)|) == Ok(Some(LimitsOf(d)))
  {
    var t := Payload(d) + rest;
    var n, at := |d.count|, |d.count| + 1 + |d.min|;
    PayloadTails(d, rest);
    LebReads(d.count, t[n..], 0);
    LebReads(d.min, t[at..], 0);
    if d.max.Some? {
      LebReads(d.max.value, d.more + rest, 0);
    }
    FirstTypeRead(t, |Payload(d)|, LebValue(d.count), n, LebValue(d.min), |d.min|);
    MaximumRead(t, |Payload(d)|, LebValue(d.min), at,
                if d.max.Some? then Some((LebValue(d.max.value), |d.max.value|)) else None);
  }

  lemma FirstTypeRead(t: seq<Byte>, size: nat, count: nat, n: nat, min: nat, m: nat)
    requires n < size <= |t| && Leb(t, 0) == Ok((count, n)) && count >= 1 && t[n] <= 1
    requires Leb(t[n + 1..], 0) == Ok((min, m))
    ensures Memory(t, size) == MemoryMaximum(t, size, t[n] == 1, min, n + 1 + m)
  {
  }

  lemma MaximumRead(t: seq<Byte>, size: nat, min: nat, at: nat, max: Option<(nat, nat)>)
    requires at <= size <= |t|
    requires max.Some? ==> Leb(t[at..], 0) == Ok(max.value) && at + max.value.1 <= size
    ensures MemoryMaximum(t, size, max.Some?, min, at)
         == Ok(Some(WasmMemoryLimits(min, if max.Some? then Some(max.value.0) else None)))
  {
  }

  lemma SectionReads(s: Section, rest: seq<Byte>)
    requires WellFormed(s)
    ensures
      var t := EncodeSection(s) + rest;
      && t != [] && t[0] == s.id
      && Leb(t[1..], 0) == Ok((|s.payload|, |s.size|))
      && t[1 + |s.size|..] == s.payload + rest
  {
    var t := EncodeSection(s) + rest;
    assert t[1..] == s.size + (s.payload + rest);
    LebReads(s.size, s.payload + rest, 0);
  }

  lemma {:induction false} WalkSkips(before: seq<Section>, rest: seq<Byte>)
    requires NoMemory(before)
    ensures Walk(Encode(before) + rest) == Walk(rest)
  {
    if before == [] {
      assert [] + rest == rest;
    } else {
      var tail := Encode(before[1..]) + rest;
      assert Encode(before) + rest == EncodeSection(before[0]) + tail;
      SectionReads(before[0], tail);
      assert (before[0].payload + tail)[|before[0].payload|..] == tail;
      WalkSkips(before[1..], rest);
    }
  }

  /** The walk finds the limits of the first memory section, whatever comes after it. */
  lemma WalkFindsLimits(before: seq<Section>, memory: Section, d: MemoryTypes, rest: seq<Byte>)
    requires NoMemory(before) && WellFormed(memory) && memory.id == MEMORY_SECTION
    requires ValidTypes(d) && memory.payload == Payload(d)
    ensures Walk(Encode(before) + (EncodeSection(memory) + rest)) == Ok(Some(LimitsOf(d)))
  {
    WalkSkips(before, EncodeSection(memory) + rest);
    SectionReads(memory, rest);
    MemoryReadsTypes(d, rest);
  }

  lemma WalkFindsNone(sections: seq<Section>)
    requires NoMemory(sections)
    ensures Walk(Encode(sections)) == Ok(None)
  {
    WalkSkips(sections, []);
    assert Encode(sections) + [] == Encode(sections);
  }

  /** The pieces of a memory section that ends at `size`. */
  lemma TypesOf(t: seq<Byte>, size: nat, n: nat, at: nat, end: nat, bounded: bool) returns (d: MemoryTypes)
    requires n < at <= end <= size <= |t| && (t[n] == if bounded then 1 else 0)
    requires bounded || end == at
    ensures d == MemoryTypes(t[..n], t[n + 1..at], if bounded then Some(t[at..end]) else None, t[end..size])
    ensures Payload(d) == t[..size]
  {
    d := MemoryTypes(t[..n], t[n + 1..at], if bounded then Some(t[at..end]) else None, t[end..size]);
    assert MaximumBytes(d) == t[at..end];
    assert MaximumBytes(d) + d.more == t[at..size];
    assert d.min + (MaximumBytes(d) + d.more) == t[n + 1..size];
  }

  /** The number read at `at` occupies `t[at..next]`. */
  ghost predicate ReadsAt(t: seq<Byte>, at: nat, value: nat, next: nat) {
    at < next <= |t| && Number(t[at..next], value)
  }

  lemma LebReadsAt(t: seq<Byte>, at: nat)
    requires at <= |t| && Leb(t[at..], 0).Ok?
    ensures ReadsAt(t, at, Leb(t[at..], 0).value.0, at + Leb(t[at..], 0).value.1)
  {
    LebReadIsEncoded(t[at..], 0);
    var length := Leb(t[at..], 0).value.1;
    assert t[at..][..length] == t[at..at + length];
  }

  lemma MaximumShape(t: seq<Byte>, size: nat, bounded: bool, min: nat, at: nat) returns (end: nat)
    requires at <= |t| && MemoryMaximum(t, size, bounded, min, at).Ok?
    ensures at <= end <= size
    ensures
      var l := MemoryMaximum(t, size, bounded, min, at).value;
      && l.Some? && l.value.minPages == min
      && (if bounded then l.value.maxPages.Some? && ReadsAt(t, at, l.value.maxPages.value, end)
          else l.value.maxPages.None? && end == at)
  {
    if bounded {
      LebReadsAt(t, at);
      end := at + Leb(t[at..], 0).value.1;
    } else {
      end := at;
    }
  }

  lemma MemoryShape(t: seq<Byte>, size: nat) returns (count: nat, n: nat, at: nat, end: nat)
    requires size <= |t| && Memory(t, size).Ok? && Memory(t, size).value.Some?
    ensures
      var l := Memory(t, size).value.value;
      && count >= 1 && ReadsAt(t, 0, count, n) && t[n] <= 1
      && ReadsAt(t, n + 1, l.minPages, at) && at <= end <= size
      && (if t[n] == 1 then l.maxPages.Some? && ReadsAt(t, at, l.maxPages.value, end)
          else l.maxPages.None? && end == at)
  {
    assert t[0..] == t;
    var counted := Leb(t, 0).value;
    count, n := counted.0, counted.1;
    LebReadsAt(t, 0);
    var least := Leb(t[n + 1..], 0).value;
    LebReadsAt(t, n + 1);
    at := n + 1 + least.1;
    assert Memory(t, size) == MemoryMaximum(t, size, t[n] == 1, least.0, at);
    end := MaximumShape(t, size, t[n] == 1, least.0, at);
  }

  lemma MemoryEndsTypes(t: seq<Byte>, size: nat) returns (d: MemoryTypes)
    requires size <= |t| && Memory(t, size).Ok? && Memory(t, size).value.Some?
    ensures ValidTypes(d) && Payload(d) == t[..size] && LimitsOf(d) == Memory(t, size).value.value
  {
    var count, n, at, end := MemoryShape(t, size);
    d := TypesOf(t, size, n, at, end, t[n] == 1);
    assert t[0..n] == t[..n];
  }

  lemma SectionOf(t: seq<Byte>) returns (s: Section)
    requires t != [] && Leb(t[1..], 0).Ok?
    requires var (size, n) := Leb(t[1..], 0).value; 1 + n + size <= |t|
    ensures WellFormed(s) && s.id == t[0]
    ensures
      var (size, n) := Leb(t[1..], 0).value;
      && s.payload == t[1 + n..][..size] && t == EncodeSection(s) + t[1 + n..][size..]
  {
    var (size, n) := Leb(t[1..], 0).value;
    LebReadIsEncoded(t[1..], 0);
    s := Section(t[0], t[1..][..n], t[1 + n..][..size]);
    assert t == EncodeSection(s) + t[1 + n..][size..];
  }

  lemma EncodeMore(section: Section, before: seq<Section>, rest: seq<Byte>)
    ensures Encode([section] + before) + rest == EncodeSection(section) + (Encode(before) + rest)
  {
    assert ([section] + before)[1..] == before;
  }

  lemma WalkShape(t: seq<Byte>) returns (section: Section, tail: seq<Byte>)
    requires t != [] && Walk(t).Ok?
    ensures WellFormed(section) && section.id == t[0] && t == EncodeSection(section) + tail
    ensures Walk(t) == if t[0] == MEMORY_SECTION then Memory(section.payload + tail, |section.payload|) else Walk(tail)
  {
    var (size, n) := Leb(t[1..], 0).value;
    section := SectionOf(t);
    tail := t[1 + n..][size..];
    assert t[1 + n..] == section.payload + tail;
  }

  /** The walk never makes limits up: they stand in the first memory section of the bytes. */
  lemma {:induction false} WalkIsSound(t: seq<Byte>)
    returns (before: seq<Section>, memory: Section, d: MemoryTypes, rest: seq<Byte>)
    requires Walk(t).Ok? && Walk(t).value.Some?
    ensures NoMemory(before) && WellFormed(memory) && memory.id == MEMORY_SECTION
    ensures ValidTypes(d) && memory.payload == Payload(d)
    ensures t == Encode(before) + (EncodeSection(memory) + rest)
    ensures LimitsOf(d) == Walk(t).value.value
    decreases |t|
  {
    var section, tail := WalkShape(t);
    if t[0] == MEMORY_SECTION {
      before, memory, rest := [], section, tail;
      d := MemoryEndsTypes(section.payload + tail, |section.payload|);
    } else {
      var later;
      later, memory, d, rest := WalkIsSound(tail);
      EncodeMore(section, later, EncodeSection(memory) + rest);
      before := [section] + later;
    }
  }

  /** No limits means no memory section, or a first one whose count reads as zero. */
  lemma {:induction false} WalkNoneIsSound(t: seq<Byte>) returns (before: seq<Section>, rest: seq<Byte>)
    requires Walk(t) == Ok(None)
    ensures NoMemory(before) && t == Encode(before) + rest
    ensures rest == [] || (rest[0] == MEMORY_SECTION && exists section, tail ::
      WellFormed(section) && rest == EncodeSection(section) + tail && CountsZero(section.payload + tail))
    decreases |t|
  {
    if t == [] {
      before, rest := [], [];
    } else {
      var section, tail := WalkShape(t);
      if t[0] == MEMORY_SECTION {
        before, rest := [], t;
        MemoryNoneIffCountsZero(section.payload + tail, |section.payload|);
      } else {
        var later;
        later, rest := WalkNoneIsSound(tail);
        EncodeMore(section, later, rest);
        before := [section] + later;
      }
    }
  }

  ghost predicate CountsZero(t: seq<Byte>) {
    Leb(t, 0).Ok? && Leb(t, 0).value.0 == 0
  }

  /** A first memory section means no memory exactly when its count, wherever it is read from, reads as zero. */
  lemma ZeroCountIsNoMemory(before: seq<Section>, memory: Section, rest: seq<Byte>)
    requires NoMemory(before) && WellFormed(memory) && memory.id == MEMORY_SECTION
    ensures Walk(Encode(before) + (EncodeSection(memory) + rest)) == Ok(None) <==> CountsZero(memory.payload + rest)
  {
    WalkSkips(before, EncodeSection(memory) + rest);
    SectionReads(memory, rest);
    MemoryNoneIffCountsZero(memory.payload + rest, |memory.payload|);
  }

  lemma MemoryNoneIffCountsZero(t: seq<Byte>, size: nat)
    requires size <= |t|
    ensures Memory(t, size) == Ok(None) <==> CountsZero(t)
  {
  }

  /** A memory section that holds zero memories, whatever follows its count and whatever comes after it. */
  lemma ZeroMemoriesFindNone(before: seq<Section>, memory: Section, count: seq<Byte>, more: seq<Byte>, rest: seq<Byte>)
    requires NoMemory(before) && WellFormed(memory) && memory.id == MEMORY_SECTION
    requires memory.payload == count + more && IsLeb(count) && |count| <= 6 && LebValue(count) == 0
    ensures Walk(Encode(before) + (EncodeSection(memory) + rest)) == Ok(None)
  {
    LebReads(count, more + rest, 0);
    assert memory.payload + rest == count + (more + rest);
    ZeroCountIsNoMemory(before, memory, rest);
  }

  /**
   * An empty memory section takes the bytes after it for its count: zero there
   * passes for "no memory", any other number is a truncated section, and no
   * number is that failure.
   */
  lemma EmptyMemorySectionReadsOn(before: seq<Section>, memory: Section, rest: seq<Byte>)
    requires NoMemory(before) && WellFormed(memory) && memory.id == MEMORY_SECTION && memory.payload == []
    ensures Walk(Encode(before) + (EncodeSection(memory) + rest))
         == if Leb(rest, 0).Err? then Err(Leb(rest, 0).error)
            else if CountsZero(rest) then Ok(None)
            else Err(TruncatedMemorySection)
  {
    WalkSkips(before, EncodeSection(memory) + rest);
    SectionReads(memory, rest);
    assert [] + rest == rest;
  }

  // -------------------------------------------------------------------------
  // The guard
  // -------------------------------------------------------------------------

  datatype GuardError = Malformed(error: ParseError) | UnboundedMemory | ExceedsQuota(limits: WasmMemoryLimits)

  predicate WithinQuota(l: WasmMemoryLimits, quota: nat) {
    l.maxPages.Some? && l.minPages <= quota && l.maxPages.value <= quota
  }

  function Guard(limits: Limits, quota: nat): Result<(), GuardError> {
    match limits
    case Err(e) => Err(Malformed(e))
    case Ok(None) => Ok(())
    case Ok(Some(l)) =>
      if WithinQuota(l, quota) then Ok(())
      else if l.maxPages.None? then Err(UnboundedMemory)
      else Err(ExceedsQuota(l))
  }

  method AssertWasmMemoryWithinQuota(bytes: seq<Byte>, quota: nat := WASM_MEMORY_QUOTA_PAGES)
    returns (r: Result<(), GuardError>)
    ensures r == Guard(ParseModule(bytes), quota)
    ensures r.Ok? <==> Acceptable(bytes, quota)
  {
    GuardAcceptsExactly(bytes, quota);
    var limits := ParseWasmMemoryLimits(bytes);
    if limits.Err? {
      return Err(Malformed(limits.error));
    }
    if limits.value.None? {
      return Ok(());
    }
    var declared := limits.value.value;
    if declared.maxPages.None? {
      return Err(UnboundedMemory);
    }
    if declared.minPages > quota || declared.maxPages.value > quota {
      return Err(ExceedsQuota(declared));
    }
    return Ok(());
  }

  /** A module that declares memory is accepted exactly when both bounds of its first memory are within the quota. */
  lemma GuardDecidesQuota(before: seq<Section>, memory: Section, d: MemoryTypes, rest: seq<Byte>, quota: nat)
    requires NoMemory(before) && WellFormed(memory) && memory.id == MEMORY_SECTION
    requires ValidTypes(d) && memory.payload == Payload(d)
    ensures
      var verdict := Guard(ParseModule(HEADER + (Encode(before) + (EncodeSection(memory) + rest))), quota);
      && (verdict.Ok? <==> d.max.Some? && LebValue(d.min) <= quota && LebValue(d.max.value) <= quota)
      && (verdict == Err(UnboundedMemory) <==> d.max.None?)
  {
    var body := Encode(before) + (EncodeSection(memory) + rest);
    WalkFindsLimits(before, memory, d, rest);
    assert (HEADER + body)[|HEADER|..] == body && (HEADER + body)[..|HEADER|] == HEADER;
  }

  /** A module without a memory section is always accepted. */
  lemma GuardAcceptsNoMemory(sections: seq<Section>, quota: nat)
    requires NoMemory(sections)
    ensures Guard(ParseModule(HEADER + Encode(sections)), quota).Ok?
  {
    var body := Encode(sections);
    WalkFindsNone(sections);
    assert (HEADER + body)[|HEADER|..] == body && (HEADER + body)[..|HEADER|] == HEADER;
  }

  /** Nor does one that holds zero memories stand in the way. */
  lemma GuardAcceptsZeroMemories(before: seq<Section>, memory: Section, rest: seq<Byte>, quota: nat)
    requires NoMemory(before) && WellFormed(memory) && memory.id == MEMORY_SECTION
    requires CountsZero(memory.payload + rest)
    ensures Guard(ParseModule(HEADER + (Encode(before) + (EncodeSection(memory) + rest))), quota).Ok?
  {
    var body := Encode(before) + (EncodeSection(memory) + rest);
    ZeroCountIsNoMemory(before, memory, rest);
    assert (HEADER + body)[|HEADER|..] == body && (HEADER + body)[..|HEADER|] == HEADER;
  }

  /** The bytes from the first memory section on, if there is one, declare no memory or one within the quota. */
  ghost predicate Harmless(rest: seq<Byte>, quota: nat) {
    rest == [] || exists memory, tail ::
      WellFormed(memory) && memory.id == MEMORY_SECTION && rest == EncodeSection(memory) + tail
      && (CountsZero(memory.payload + tail) || DeclaresWithin(memory.payload, quota))
  }

  ghost predicate DeclaresWithin(payload: seq<Byte>, quota: nat) {
    exists d :: ValidTypes(d) && payload == Payload(d)
      && d.max.Some? && LebValue(d.min) <= quota && LebValue(d.max.value) <= quota
  }

  ghost predicate Acceptable(bytes: seq<Byte>, quota: nat) {
    |bytes| >= |HEADER| && bytes[..|HEADER|] == HEADER && exists before, rest ::
      NoMemory(before) && bytes[|HEADER|..] == Encode(before) + rest && Harmless(rest, quota)
  }

  /**
   * For every byte string: the guard accepts exactly a header, well-formed
   * sections without memory, and then nothing, or a memory section that counts
   * zero, or one whose first memory has both bounds within the quota.
   */
  lemma GuardAcceptsExactly(bytes: seq<Byte>, quota: nat)
    ensures Guard(ParseModule(bytes), quota).Ok? <==> Acceptable(bytes, quota)
  {
    if Guard(ParseModule(bytes), quota).Ok? {
      AcceptedIsAcceptable(bytes, quota);
    }
    if Acceptable(bytes, quota) {
      var before, rest :|
        NoMemory(before) && bytes[|HEADER|..] == Encode(before) + rest && Harmless(rest, quota);
      AcceptableIsAccepted(bytes, before, rest, quota);
    }
  }

  lemma AcceptedIsAcceptable(bytes: seq<Byte>, quota: nat)
    requires Guard(ParseModule(bytes), quota).Ok?
    ensures Acceptable(bytes, quota)
  {
    var t := bytes[|HEADER|..];
    if Walk(t).value.Some? {
      var before, memory, d, tail := WalkIsSound(t);
      assert DeclaresWithin(memory.payload, quota);
      assert Harmless(EncodeSection(memory) + tail, quota);
    } else {
      var before, rest := WalkNoneIsSound(t);
      assert Harmless(rest, quota);
    }
  }

  lemma AcceptableIsAccepted(bytes: seq<Byte>, before: seq<Section>, rest: seq<Byte>, quota: nat)
    requires |bytes| >= |HEADER| && bytes[..|HEADER|] == HEADER
    requires NoMemory(before) && bytes[|HEADER|..] == Encode(before) + rest && Harmless(rest, quota)
    ensures Guard(ParseModule(bytes), quota).Ok?
  {
    if rest == [] {
      WalkFindsNone(before);
      assert Encode(before) + [] == Encode(before);
    } else {
      var memory, tail :|
        WellFormed(memory) && memory.id == MEMORY_SECTION && rest == EncodeSection(memory) + tail
        && (CountsZero(memory.payload + tail) || DeclaresWithin(memory.payload, quota));
      if CountsZero(memory.payload + tail) {
        ZeroCountIsNoMemory(before, memory, tail);
      } else {
        var d :| ValidTypes(d) && memory.payload == Payload(d)
                 && d.max.Some? && LebValue(d.min) <= quota && LebValue(d.max.value) <= quota;
        WalkFindsLimits(before, memory, d, tail);
      }
    }
  }

  /** The quota a host that names none gets is 256 pages; the header is the eight bytes of version 1. */
  lemma GuardConstants()
    ensures WASM_MEMORY_QUOTA_PAGES == 256
    ensures HEADER == [0x00, 0x61, 0x73, 0x6d, 0x01, 0x00, 0x00, 0x00] && MEMORY_SECTION == 5
  {
  }
}
