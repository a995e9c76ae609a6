/** Reading an HTTP response off a stream that hands out its bytes in chunks of any size. */
module HttpReader {
  import opened Wrappers
  import opened Bytes
  import opened HttpHead

  const CRLF_CRLF: seq<Byte> := [13, 10, 13, 10]

  /** How the stream goes on once its bytes are read: it is closed, or reads fail. */
  datatype End = Closed | Failing(timedOut: bool)

  datatype Stage = ReadingHead | ReadingBody

  datatype ReadError =
    | IoError(stage: Stage, timedOut: bool)
    | ClosedBeforeHead
    | HeadNotUtf8
    | BadHead(error: HeadError)
    | BodyCutShort
    | BodyNotUtf8

  /** `from_utf8`: the text some bytes encode, if they do. */
  type Decoder = seq<Byte> -> Option<string>

  function Concat(chunks: seq<seq<Byte>>): seq<Byte> {
    if chunks == [] then [] else chunks[0] + Concat(chunks[1..])
  }

  /** The place of the first match. */
  function FindSubsequence(haystack: seq<Byte>, needle: seq<Byte>): (r: Option<nat>)
    ensures r.Some? ==> r.value + |needle| <= |haystack| && haystack[r.value..r.value + |needle|] == needle
  {
    if |haystack| < |needle| then None
    else if haystack[..|needle|] == needle then Some(0)
    else if haystack == [] then None
    else
      var rest := FindSubsequence(haystack[1..], needle);
      if rest.Some? then Some(rest.value + 1) else None
  }

  // -------------------------------------------------------------------------
  // One definition on the whole stream
  // -------------------------------------------------------------------------

  function BodyOf(rest: seq<Byte>, length: Option<nat>, end: End): Result<seq<Byte>, ReadError> {
    if length.Some? && |rest| >= length.value then Ok(rest[..length.value])
    else if end.Failing? then Err(IoError(ReadingBody, end.timedOut))
    else if length.Some? then Err(BodyCutShort)
    else Ok(rest)
  }

  function TextOf(status: nat, body: Result<seq<Byte>, ReadError>, decode: Decoder): Result<(nat, string), ReadError> {
    if body.Err? then Err(body.error)
    else
      var text := decode(body.value);
      if text.None? then Err(BodyNotUtf8) else Ok((status, text.value))
  }

  /** What comes after a head that ends before place `n`. */
  function AfterHead(bytes: seq<Byte>, n: nat, end: End, decode: Decoder): Result<(nat, string), ReadError>
    requires n <= |bytes|
  {
    var text := decode(bytes[..n]);
    if text.None? then Err(HeadNotUtf8)
    else
      var head := HeadOf(text.value);
      if head.Err? then Err(BadHead(head.error))
      else TextOf(head.value.0, BodyOf(bytes[n..], head.value.1, end), decode)
  }

  function Response(bytes: seq<Byte>, end: End, decode: Decoder): Result<(nat, string), ReadError> {
    var at := FindSubsequence(bytes, CRLF_CRLF);
    if at.None? then Err(if end.Closed? then ClosedBeforeHead else IoError(ReadingHead, end.timedOut))
    else AfterHead(bytes, at.value + 4, end, decode)
  }

  // -------------------------------------------------------------------------
  // The reader
  // -------------------------------------------------------------------------

  class TcpStream {
    var chunks: seq<seq<Byte>>
    const end: End

    ghost predicate Valid()
      reads this
    {
      forall i :: 0 <= i < |chunks| ==> chunks[i] != []
    }

    ghost function Pending(): seq<Byte>
      reads this
    {
      Concat(chunks)
    }

    constructor (chunks: seq<seq<Byte>>, end: End)
      ensures this.chunks == chunks && this.end == end
    {
      this.chunks, this.end := chunks, end;
    }

    /** Some bytes; none once the stream is closed; or a failure. */
    method Read() returns (r: Result<seq<Byte>, bool>)
      requires Valid()
      modifies this
      ensures Valid()
      ensures old(chunks) == [] ==> chunks == [] && r == if end.Closed? then Ok([]) else Err(end.timedOut)
      ensures old(chunks) != [] ==>
        r.Ok? && r.value != [] && |chunks| < |old(chunks)| && r.value + Pending() == old(Pending())
    {
      if chunks == [] {
        return if end.Closed? then Ok([]) else Err(end.timedOut);
      }
      var chunk := chunks[0];
      chunks := chunks[1..];
      return Ok(chunk);
    }

    /** Reads until the head has ended with `terminator`, perhaps some bytes beyond it. */
    method ReadHead(terminator: seq<Byte>) returns (r: Result<(seq<Byte>, nat), ReadError>)
      requires Valid() && terminator != []
      modifies this
      ensures Valid()
      ensures FindSubsequence(old(Pending()), terminator).Some? ==>
        && r.Ok? && r.value.0 + Pending() == old(Pending()) && r.value.1 <= |r.value.0|
        && r.value.1 == FindSubsequence(old(Pending()), terminator).value + |terminator|
      ensures FindSubsequence(old(Pending()), terminator).None? ==>
        r == Err(if end.Closed? then ClosedBeforeHead else IoError(ReadingHead, end.timedOut))
    {
      var buffer: seq<Byte> := [];
      ghost var whole := Pending();
      while true
        invariant Valid() && buffer + Pending() == whole
        invariant FindSubsequence(buffer, terminator).None?
        decreases |chunks|
      {
        ghost var pending := Pending();
        var read := Read();
        if read.Err? {
          assert whole == buffer;
          return Err(IoError(ReadingHead, read.error));
        }
        if read.value == [] {
          assert whole == buffer;
          return Err(ClosedBeforeHead);
        }
        assert buffer + pending == (buffer + read.value) + Pending();
        buffer := buffer + read.value;
        var at := FindSubsequence(buffer, terminator);
        if at.Some? {
          FoundStays(buffer, Pending(), terminator);
          return Ok((buffer, at.value + |terminator|));
        }
      }
    }

    method ReadBody(start: seq<Byte>, length: Option<nat>) returns (r: Result<seq<Byte>, ReadError>)
      requires Valid()
      modifies this
      ensures Valid()
      ensures r == BodyOf(start + old(Pending()), length, end)
    {
      var body := start;
      while length.None? || |body| < length.value
        invariant Valid() && body + Pending() == start + old(Pending())
        decreases |chunks|
      {
        var read := Read();
        if read.Err? {
          assert body + [] == body;
          return Err(IoError(ReadingBody, read.error));
        }
        if read.value == [] {
          assert body + [] == body;
          return if length.Some? then Err(BodyCutShort) else Ok(body);
        }
        body := body + read.value;
      }
      assert (body + Pending())[..length.value] == body[..length.value];
      return Ok(body[..length.value]);
    }

    /** However the bytes are split into reads, the answer is that of the whole stream. */
    method ReadHttpResponse(decode: Decoder) returns (r: Result<(nat, string), ReadError>)
      requires Valid()
      modifies this
      ensures r == Response(old(Pending()), end, decode)
    {
      ghost var whole := Pending();
      var head := ReadHead(CRLF_CRLF);
      if head.Err? {
        return Err(head.error);
      }
      var (buffer, n) := head.value;
      assert whole[..n] == buffer[..n] && whole[n..] == buffer[n..] + Pending();
      var text := decode(buffer[..n]);
      if text.None? {
        return Err(HeadNotUtf8);
      }
      var parsed := ParseHttpResponseHead(text.value);
      if parsed.Err? {
        return Err(BadHead(parsed.error));
      }
      var (status, length) := parsed.value;
      var body := ReadBody(buffer[n..], length);
      if body.Err? {
        return Err(body.error);
      }
      var bodyText := decode(body.value);
      return if bodyText.None? then Err(BodyNotUtf8) else Ok((status, bodyText.value));
    }
  }

  /** A match in a prefix is the match in the whole. */
  lemma {:induction false} FoundStays(prefix: seq<Byte>, more: seq<Byte>, needle: seq<Byte>)
    requires FindSubsequence(prefix, needle).Some?
    ensures FindSubsequence(prefix + more, needle) == FindSubsequence(prefix, needle)
  {
    assert (prefix + more)[..|needle|] == prefix[..|needle|];
    if prefix[..|needle|] != needle {
      FoundStays(prefix[1..], more, needle);
      assert (prefix + more)[1..] == prefix[1..] + more;
    }
  }

  /** The first match is the first: no earlier place matches, and there is none only if no place does. */
  lemma {:induction false} FindsFirst(haystack: seq<Byte>, needle: seq<Byte>, i: nat)
    requires i + |needle| <= |haystack| && haystack[i..i + |needle|] == needle
    ensures FindSubsequence(haystack, needle).Some? && FindSubsequence(haystack, needle).value <= i
  {
    if i > 0 && haystack[..|needle|] != needle {
      assert haystack[1..][i - 1..i - 1 + |needle|] == needle;
      FindsFirst(haystack[1..], needle, i - 1);
    }
  }

  // -------------------------------------------------------------------------
  // What the definition says
  // -------------------------------------------------------------------------

  /** The empty line: two line ends, of a carriage return and a line feed each. */
  predicate EmptyLineAt(bytes: seq<Byte>, i: nat) {
    i + 4 <= |bytes| && bytes[i] == 13 && bytes[i + 1] == 10 && bytes[i + 2] == 13 && bytes[i + 3] == 10
  }

  /** A head ends with the first empty line in it. */
  ghost predicate IsHead(head: seq<Byte>) {
    |head| >= 4 && EmptyLineAt(head, |head| - 4) && forall i :: 0 <= i < |head| - 4 ==> !EmptyLineAt(head, i)
  }

  lemma FoundIsEmptyLine(bytes: seq<Byte>)
    ensures
      var at := FindSubsequence(bytes, CRLF_CRLF);
      at.Some? ==> at.value < |bytes| && EmptyLineAt(bytes, at.value)
  {
    var at := FindSubsequence(bytes, CRLF_CRLF);
    if at.Some? {
      SliceIsEmptyLine(bytes, at.value);
    }
  }

  lemma SliceIsEmptyLine(bytes: seq<Byte>, i: nat)
    requires i + |CRLF_CRLF| <= |bytes| && bytes[i..i + |CRLF_CRLF|] == CRLF_CRLF
    ensures EmptyLineAt(bytes, i)
  {
    var found := bytes[i..i + 4];
    assert found[0] == 13 && found[1] == 10 && found[2] == 13 && found[3] == 10;
  }

  lemma EmptyLineIsFound(bytes: seq<Byte>, i: nat)
    requires EmptyLineAt(bytes, i)
    ensures FindSubsequence(bytes, CRLF_CRLF).Some? && FindSubsequence(bytes, CRLF_CRLF).value <= i
  {
    assert bytes[i..i + |CRLF_CRLF|] == CRLF_CRLF;
    FindsFirst(bytes, CRLF_CRLF, i);
  }

  lemma HeadIsFound(head: seq<Byte>)
    requires IsHead(head)
    ensures FindSubsequence(head, CRLF_CRLF) == Some(|head| - 4)
  {
    EmptyLineIsFound(head, |head| - 4);
    FoundIsEmptyLine(head);
  }

  /** Without an empty line there is no response, only the way the stream ended. */
  lemma NoHeadNoResponse(bytes: seq<Byte>, end: End, decode: Decoder)
    requires forall i :: 0 <= i < |bytes| ==> !EmptyLineAt(bytes, i)
    ensures Response(bytes, end, decode)
         == Err(if end.Failing? then IoError(ReadingHead, end.timedOut) else ClosedBeforeHead)
  {
    FoundIsEmptyLine(bytes);
  }

  /** A head that is not text, or not a head as `HeadOf` reads it, is refused, whatever follows. */
  lemma BadHeadIsRefused(head: seq<Byte>, rest: seq<Byte>, end: End, decode: Decoder)
    requires IsHead(head)
    ensures decode(head).None? ==> Response(head + rest, end, decode) == Err(HeadNotUtf8)
    ensures decode(head).Some? && HeadOf(decode(head).value).Err? ==>
      Response(head + rest, end, decode) == Err(BadHead(HeadOf(decode(head).value).error))
  {
    ResponseAfterHead(head, rest, end, decode);
  }

  lemma ResponseAfterHead(head: seq<Byte>, rest: seq<Byte>, end: End, decode: Decoder)
    requires IsHead(head)
    ensures Response(head + rest, end, decode) == AfterHead(head + rest, |head|, end, decode)
    ensures (head + rest)[..|head|] == head && (head + rest)[|head|..] == rest
  {
    HeadIsFound(head);
    FoundStays(head, rest, CRLF_CRLF);
  }

  /** A declared length means exactly that body, whatever comes after it and however the stream ends. */
  lemma DeclaredBodyIsDelivered(head: seq<Byte>, body: seq<Byte>, after: seq<Byte>, end: End, decode: Decoder,
                                status: nat)
    requires IsHead(head) && decode(head).Some? && HeadOf(decode(head).value) == Ok((status, Some(|body|)))
    ensures Response(head + body + after, end, decode)
         == if decode(body).None? then Err(BodyNotUtf8) else Ok((status, decode(body).value))
  {
    var rest := body + after;
    assert head + body + after == head + rest;
    ResponseAfterHead(head, rest, end, decode);
    assert rest[..|body|] == body;
    assert BodyOf(rest, Some(|body|), end) == Ok(body);
  }

  /** Cut anywhere before its declared end, a response never passes for a shorter one. */
  lemma CutBodyIsRefused(head: seq<Byte>, part: seq<Byte>, end: End, decode: Decoder, status: nat, length: nat)
    requires IsHead(head) && decode(head).Some? && HeadOf(decode(head).value) == Ok((status, Some(length)))
    requires |part| < length
    ensures Response(head + part, end, decode)
         == Err(if end.Failing? then IoError(ReadingBody, end.timedOut) else BodyCutShort)
  {
    ResponseAfterHead(head, part, end, decode);
  }

  /** Without a declared length the body is everything up to the end, and only an orderly end will do. */
  lemma UndeclaredBodyRunsToEnd(head: seq<Byte>, body: seq<Byte>, end: End, decode: Decoder, status: nat)
    requires IsHead(head) && decode(head).Some? && HeadOf(decode(head).value) == Ok((status, None))
    ensures Response(head + body, end, decode)
         == if end.Failing? then Err(IoError(ReadingBody, end.timedOut))
            else if decode(body).None? then Err(BodyNotUtf8)
            else Ok((status, decode(body).value))
  {
    ResponseAfterHead(head, body, end, decode);
  }
}
