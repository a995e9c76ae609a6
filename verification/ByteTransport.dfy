/** The byte transport between the kernel and a wasm guest: one packed word says where the reply lies. */
module ByteTransport {
  import opened Wrappers
  import opened Bytes

  const INPUT_MAX_BYTES: nat := 1024 * 1024
  const TWO_32: int := 0x1_0000_0000
  const TWO_63: int := 0x8000_0000_0000_0000
  const TWO_64: int := 0x1_0000_0000_0000_0000

  /** Wasm's signed `i64`. */
  type Word = w: int | -TWO_63 <= w < TWO_63

  // -------------------------------------------------------------------------
  // The packed word
  // -------------------------------------------------------------------------

  /** An unsigned 64-bit number reread as signed. */
  function AsI64(word: nat): Word
    requires word < TWO_64
  {
    if word < TWO_63 then word else word - TWO_64
  }

  /** The guest's side: pointer in the high half, length in the low half. */
  function Pack(ptr: nat, len: nat): Word
    requires ptr < TWO_32
  {
    AsI64(ptr * TWO_32 + len % TWO_32)
  }

  /** The host's side: a negative word is a failure report. */
  function Unpack(packed: Word): Option<(nat, nat)> {
    if packed < 0 then None else Some((packed / TWO_32, packed % TWO_32))
  }

  /** Unpacking inverts packing exactly for pointers in the lower half of the address space. */
  lemma UnpackInvertsPack(ptr: nat, len: nat)
    requires ptr < 0x1_0000_0000 && len < 0x1_0000_0000
    ensures Unpack(Pack(ptr, len)) == if ptr < 0x8000_0000 then Some((ptr, len)) else None
  {
    var word := ptr * TWO_32 + len;
    assert word / TWO_32 == ptr && word % TWO_32 == len;
  }

  /** Every word that is not a failure is the packing of what the host reads from it. */
  lemma PackInvertsUnpack(packed: Word)
    requires packed >= 0
    ensures
      var (ptr, len) := Unpack(packed).value;
      ptr < 0x8000_0000 && len < 0x1_0000_0000 && Pack(ptr, len) == packed
  {
    var ptr, len := packed / TWO_32, packed % TWO_32;
    assert packed == ptr * TWO_32 + len;
  }

  // -------------------------------------------------------------------------
  // One exchange
  // -------------------------------------------------------------------------

  /** What guest code leaves: its memory, perhaps grown, and a packed word or a trap. */
  datatype GuestRun = GuestRun(memory: seq<Byte>, packed: Result<Word, string>)

  /** Any guest: from the memory it finds and the request length to its run. */
  type Guest = (seq<Byte>, nat) -> GuestRun

  datatype CallError =
    | NoExport
    | NoMemory
    | InputTooLong(length: nat)
    | InputOutsideMemory
    | Trapped(error: string)
    | GuestFailed(packed: int)
    | ReplyOutsideMemory(ptr: nat, len: nat)
    | BufferTooSmall(need: nat, have: nat)

  /** The request written at offset 0. */
  function Written(memory: seq<Byte>, request: seq<Byte>): seq<Byte>
    requires |request| <= |memory|
  {
    request + memory[|request|..]
  }

  function RunOf(guest: Guest, memory: seq<Byte>, request: seq<Byte>): GuestRun
    requires |request| <= |memory|
  {
    guest(Written(memory, request), |request|)
  }

  /** Whether guest code runs at all, and if not, why. */
  function Refusal(guest: Option<Guest>, memory: Option<seq<Byte>>, request: seq<Byte>): Option<CallError> {
    if guest.None? then Some(NoExport)
    else if memory.None? then Some(NoMemory)
    else if |request| > INPUT_MAX_BYTES then Some(InputTooLong(|request|))
    else if |request| > |memory.value| then Some(InputOutsideMemory)
    else None
  }

  /** The reply bytes a run stands for, in a buffer of some capacity. */
  function ReplyOf(run: GuestRun, capacity: nat): Result<seq<Byte>, CallError> {
    if run.packed.Err? then Err(Trapped(run.packed.error))
    else if Unpack(run.packed.value).None? then Err(GuestFailed(run.packed.value))
    else
      var (ptr, len) := Unpack(run.packed.value).value;
      if ptr + len > |run.memory| then Err(ReplyOutsideMemory(ptr, len))
      else if len > capacity then Err(BufferTooSmall(len, capacity))
      else Ok(run.memory[ptr..ptr + len])
  }

  function Exchange(guest: Option<Guest>, memory: Option<seq<Byte>>, request: seq<Byte>, capacity: nat)
    : Result<seq<Byte>, CallError>
  {
    if Refusal(guest, memory, request).Some? then Err(Refusal(guest, memory, request).value)
    else ReplyOf(RunOf(guest.value, memory.value, request), capacity)
  }

  function MemoryAfter(guest: Option<Guest>, memory: Option<seq<Byte>>, request: seq<Byte>): Option<seq<Byte>> {
    if Refusal(guest, memory, request).Some? then memory
    else Some(RunOf(guest.value, memory.value, request).memory)
  }

  class WasmPlugin {
    const extCall: Option<Guest>
    const extTick: Option<Guest>
    var memory: Option<seq<Byte>>

    constructor (extCall: Option<Guest>, extTick: Option<Guest>, memory: Option<seq<Byte>>)
      ensures this.extCall == extCall && this.extTick == extTick && this.memory == memory
    {
      this.extCall, this.extTick, this.memory := extCall, extTick, memory;
    }

    /** `memory.read` into the front of the buffer. */
    method Read(ptr: nat, response: array<Byte>, len: nat)
      requires memory.Some? && ptr + len <= |memory.value| && len <= response.Length
      modifies response
      ensures response[..len] == memory.value[ptr..ptr + len]
      ensures response[len..] == old(response[len..])
    {
      for i := 0 to len
        invariant response[..i] == memory.value[ptr..ptr + i]
        invariant response[len..] == old(response[len..])
      {
        response[i] := memory.value[ptr + i];
      }
    }

    method BytesInto(guest: Option<Guest>, request: seq<Byte>, response: array<Byte>)
      returns (r: Result<nat, CallError>)
      modifies this, response
      ensures memory == MemoryAfter(guest, old(memory), request)
      ensures
        var reply := Exchange(guest, old(memory), request, response.Length);
        match reply
        case Ok(bytes) => r == Ok(|bytes|) && response[..] == bytes + old(response[|bytes|..])
        case Err(error) => r == Err(error) && response[..] == old(response[..])
    {
      if guest.None? {
        return Err(NoExport);
      }
      if memory.None? {
        return Err(NoMemory);
      }
      if |request| > INPUT_MAX_BYTES {
        return Err(InputTooLong(|request|));
      }
      if |request| > |memory.value| {
        return Err(InputOutsideMemory);
      }
      var run := guest.value(Written(memory.value, request), |request|);
      memory := Some(run.memory);
      if run.packed.Err? {
        return Err(Trapped(run.packed.error));
      }
      var packed := run.packed.value;
      if packed < 0 {
        return Err(GuestFailed(packed));
      }
      var ptr, len := packed / TWO_32, packed % TWO_32;
      if ptr + len > |run.memory| {
        return Err(ReplyOutsideMemory(ptr, len));
      }
      if len > response.Length {
        return Err(BufferTooSmall(len, response.Length));
      }
      Read(ptr, response, len);
      assert response[..] == response[..len] + response[len..];
      return Ok(len);
    }

    method CallBytesInto(request: seq<Byte>, response: array<Byte>) returns (r: Result<nat, CallError>)
      modifies this, response
      ensures memory == MemoryAfter(extCall, old(memory), request)
      ensures
        var reply := Exchange(extCall, old(memory), request, response.Length);
        match reply
        case Ok(bytes) => r == Ok(|bytes|) && response[..] == bytes + old(response[|bytes|..])
        case Err(error) => r == Err(error) && response[..] == old(response[..])
    {
      r := BytesInto(extCall, request, response);
    }

    method TickBytesInto(request: seq<Byte>, response: array<Byte>) returns (r: Result<nat, CallError>)
      modifies this, response
      ensures memory == MemoryAfter(extTick, old(memory), request)
      ensures
        var reply := Exchange(extTick, old(memory), request, response.Length);
        match reply
        case Ok(bytes) => r == Ok(|bytes|) && response[..] == bytes + old(response[|bytes|..])
        case Err(error) => r == Err(error) && response[..] == old(response[..])
    {
      r := BytesInto(extTick, request, response);
    }

    /** The JSON path: a buffer as large as the memory is before the call. */
    method CallBytes(request: seq<Byte>) returns (r: Result<seq<Byte>, CallError>)
      modifies this
      ensures memory == MemoryAfter(extCall, old(memory), request)
      ensures r == JsonExchange(extCall, old(memory), request)
    {
      if memory.None? {
        return Err(NoMemory);
      }
      var response := new Byte[|memory.value|](_ => 0);
      var written := CallBytesInto(request, response);
      if written.Err? {
        return Err(written.error);
      }
      return Ok(response[..written.value]);
    }
  }

  function JsonExchange(guest: Option<Guest>, memory: Option<seq<Byte>>, request: seq<Byte>)
    : Result<seq<Byte>, CallError>
  {
    if memory.None? then Err(NoMemory) else Exchange(guest, memory, request, |memory.value|)
  }

  // -------------------------------------------------------------------------
  // What host and guest may rely on
  // -------------------------------------------------------------------------

  /** The memory a guest finds: the request at its start, and everything behind it as it was. */
  ghost predicate Found(memory: seq<Byte>, request: seq<Byte>, found: seq<Byte>) {
    && |found| == |memory| && request <= found
    && forall i :: |request| <= i < |memory| ==> found[i] == memory[i]
  }

  /** A request of at most a mebibyte that fits the memory runs the guest on it, and nothing else is changed before. */
  lemma GuestFindsRequest(guest: Guest, memory: seq<Byte>, request: seq<Byte>, capacity: nat, found: seq<Byte>)
    requires |request| <= 1_048_576 && Found(memory, request, found)
    ensures RunOf(guest, memory, request) == guest(found, |request|)
    ensures MemoryAfter(Some(guest), Some(memory), request) == Some(guest(found, |request|).memory)
    ensures
      var run, reply := guest(found, |request|), Exchange(Some(guest), Some(memory), request, capacity);
      match run.packed
      case Err(error) => reply == Err(Trapped(error))
      case Ok(word) => word < 0 ==> reply == Err(GuestFailed(word))
    ensures
      var run, reply := guest(found, |request|), Exchange(Some(guest), Some(memory), request, capacity);
      reply.Err? && reply.error.ReplyOutsideMemory? <==>
        run.packed.Ok? && run.packed.value >= 0
        && run.packed.value / 0x1_0000_0000 + run.packed.value % 0x1_0000_0000 > |run.memory|
  {
    assert Written(memory, request) == found;
  }

  /** Any other call is refused without running the guest, which keeps its memory. */
  lemma RefusedWithoutRunning(guest: Option<Guest>, memory: Option<seq<Byte>>, request: seq<Byte>, capacity: nat)
    requires guest.None? || memory.None? || |request| > 1_048_576 || |request| > |memory.value|
    ensures MemoryAfter(guest, memory, request) == memory
    ensures Exchange(guest, memory, request, capacity)
         == Err(if guest.None? then NoExport else if memory.None? then NoMemory
                else if |request| > 1_048_576 then InputTooLong(|request|) else InputOutsideMemory)
  {
  }

  /** A guest's run leaves `reply` at `ptr` and says so. */
  ghost predicate Answers(run: GuestRun, ptr: nat, reply: seq<Byte>) {
    && ptr + |reply| <= |run.memory| && |reply| < 0x1_0000_0000 && ptr < 0x1_0000_0000
    && run.memory[ptr..ptr + |reply|] == reply
    && run.packed == Ok(Pack(ptr, |reply|))
  }

  /**
   * A packed reply arrives byte for byte exactly when it lies in the lower
   * half of the address space and fits the buffer; a reply in the upper half
   * reads as the guest's own failure.
   */
  lemma PackedReplyArrives(guest: Guest, memory: seq<Byte>, request: seq<Byte>, capacity: nat,
                           ptr: nat, reply: seq<Byte>)
    requires |request| <= |memory| && |request| <= 1_048_576
    requires Answers(RunOf(guest, memory, request), ptr, reply)
    ensures Exchange(Some(guest), Some(memory), request, capacity)
         == if ptr >= 0x8000_0000 then Err(GuestFailed(Pack(ptr, |reply|)))
            else if |reply| > capacity then Err(BufferTooSmall(|reply|, capacity))
            else Ok(reply)
  {
    UnpackInvertsPack(ptr, |reply|);
  }

  /** A delivered reply is a slice of the guest's memory at the place its word names, and fits the buffer. */
  lemma ReplyIsGuestMemory(guest: Option<Guest>, memory: Option<seq<Byte>>, request: seq<Byte>, capacity: nat)
    requires Exchange(guest, memory, request, capacity).Ok?
    ensures
      var run, reply := RunOf(guest.value, memory.value, request), Exchange(guest, memory, request, capacity).value;
      |reply| <= capacity && exists ptr :: 0 <= ptr < 0x8000_0000 && Answers(run, ptr, reply)
  {
    var run, reply := RunOf(guest.value, memory.value, request), Exchange(guest, memory, request, capacity).value;
    PackInvertsUnpack(run.packed.value);
    var (ptr, len) := Unpack(run.packed.value).value;
    assert Answers(run, ptr, reply);
  }

  /**
   * The JSON path runs out of buffer exactly when the guest grew its memory
   * during the call and replied, from inside that memory, with more than it
   * had before.
   */
  lemma JsonPathFitsUnlessGrown(guest: Guest, memory: seq<Byte>, request: seq<Byte>)
    requires |request| <= |memory| && |request| <= 1_048_576
    ensures
      var run := RunOf(guest, memory, request);
      var tooSmall := JsonExchange(Some(guest), Some(memory), request);
      && (tooSmall.Err? && tooSmall.error.BufferTooSmall? ==> |run.memory| > |memory|)
      && (tooSmall.Err? && tooSmall.error.BufferTooSmall?
          <==> run.packed.Ok? && Unpack(run.packed.value).Some?
               && var (ptr, len) := Unpack(run.packed.value).value; |memory| < len && ptr + len <= |run.memory|)
  {
  }
}
