/** The head of an HTTP response: its status, and the body length it declares. */
module HttpHead {
  import opened Wrappers
  import opened Decimal

  const U16_MAX: nat := 0xFFFF
  const USIZE_MAX: nat := 0xFFFF_FFFF_FFFF_FFFF

  datatype HeadError =
    | MissingStatusLine
    | MissingProtocol
    | BadProtocol(protocol: string)
    | MissingStatusCode
    | BadStatusCode
    | BadContentLength

  // -------------------------------------------------------------------------
  // Text
  // -------------------------------------------------------------------------

  /** Unicode's `White_Space` property. */
  predicate IsWhitespace(c: char) {
    || 9 as char <= c <= 13 as char || c == ' ' || c == 0x85 as char || c == 0xA0 as char || c == 0x1680 as char
    || 0x2000 as char <= c <= 0x200A as char || c == 0x2028 as char || c == 0x2029 as char
    || c == 0x202F as char || c == 0x205F as char || c == 0x3000 as char
  }

  function IndexOf(s: string, c: char): (n: nat)
    ensures n <= |s| && c !in s[..n] && (n < |s| ==> s[n] == c)
  {
    if s == [] || s[0] == c then 0
    else
      var n := 1 + IndexOf(s[1..], c);
      assert s[..n] == [s[0]] + s[1..][..n - 1];
      n
  }

  function WithoutCr(line: string): string {
    if line != [] && line[|line| - 1] == '\r' then line[..|line| - 1] else line
  }

  /** Lines end with `\n` or `\r\n`; a last line may go without. */
  function Lines(s: string): seq<string>
    decreases |s|
  {
    if s == [] then []
    else
      var n := IndexOf(s, '\n');
      if n == |s| then [s] else [WithoutCr(s[..n])] + Lines(s[n + 1..])
  }

  function TrimStart(s: string): string {
    if s != [] && IsWhitespace(s[0]) then TrimStart(s[1..]) else s
  }

  function TrimEnd(s: string): string {
    if s != [] && IsWhitespace(s[|s| - 1]) then TrimEnd(s[..|s| - 1]) else s
  }

  function Trim(s: string): string {
    TrimEnd(TrimStart(s))
  }

  function WordLength(s: string): (n: nat)
    ensures n <= |s|
  {
    if s == [] || IsWhitespace(s[0]) then 0 else 1 + WordLength(s[1..])
  }

  /** The first word of a text and what follows it. */
  function NextWord(s: string): Option<(string, string)> {
    var t := TrimStart(s);
    if t == [] then None else Some((t[..WordLength(t)], t[WordLength(t)..]))
  }

  function LowerChar(c: char): char {
    if 'A' <= c <= 'Z' then (c as int + 32) as char else c
  }

  predicate EqualsIgnoringCase(a: string, b: string) {
    |a| == |b| && forall i :: 0 <= i < |a| ==> LowerChar(a[i]) == LowerChar(b[i])
  }

  /** `str::parse` for unsigned numbers: digits, after an optional `+`. */
  function ParseUnsigned(text: string, max: nat): Option<nat> {
    var digits := if text != [] && text[0] == '+' then text[1..] else text;
    if digits == [] || !AllDigits(digits) then None
    else if Read(digits) > max then None
    else Some(Read(digits))
  }

  // -------------------------------------------------------------------------
  // The head
  // -------------------------------------------------------------------------

  const CONTENT_LENGTH := "content-length"

  predicate IsLengthLine(line: string) {
    var colon := IndexOf(line, ':');
    colon < |line| && EqualsIgnoringCase(Trim(line[..colon]), CONTENT_LENGTH)
  }

  function LengthValue(line: string): Option<nat>
    requires IsLengthLine(line)
  {
    ParseUnsigned(Trim(line[IndexOf(line, ':') + 1..]), USIZE_MAX)
  }

  /** The values of the content-length lines, in order; `None` for one that is not a number. */
  function Lengths(lines: seq<string>): seq<Option<nat>> {
    if lines == [] then []
    else
      var rest, last := Lengths(lines[..|lines| - 1]), lines[|lines| - 1];
      if IsLengthLine(last) then rest + [LengthValue(last)] else rest
  }

  /** The last declared length counts, but every declared length has to be a number. */
  function DeclaredLength(lines: seq<string>): Result<Option<nat>, HeadError> {
    var values := Lengths(lines);
    if None in values then Err(BadContentLength)
    else if values == [] then Ok(None)
    else Ok(values[|values| - 1])
  }

  function StatusOf(statusLine: string): Result<nat, HeadError> {
    var protocol := NextWord(statusLine);
    if protocol.None? then Err(MissingProtocol)
    else if !("HTTP/" <= protocol.value.0) then Err(BadProtocol(protocol.value.0))
    else
      var code := NextWord(protocol.value.1);
      if code.None? then Err(MissingStatusCode)
      else
        var status := ParseUnsigned(code.value.0, U16_MAX);
        if status.None? then Err(BadStatusCode) else Ok(status.value)
  }

  function HeadOf(head: string): Result<(nat, Option<nat>), HeadError> {
    var lines := Lines(head);
    if lines == [] then Err(MissingStatusLine)
    else
      var status := StatusOf(lines[0]);
      if status.Err? then Err(status.error) else WithStatus(status.value, DeclaredLength(lines[1..]))
  }

  function WithStatus(status: nat, length: Result<Option<nat>, HeadError>): Result<(nat, Option<nat>), HeadError> {
    if length.Err? then Err(length.error) else Ok((status, length.value))
  }

  method ReadDeclaredLength(headers: seq<string>) returns (r: Result<Option<nat>, HeadError>)
    ensures r == DeclaredLength(headers)
  {
    var contentLength := None;
    for i := 0 to |headers|
      invariant DeclaredLength(headers[..i]) == Ok(contentLength)
    {
      var line := headers[i];
      LengthsSnoc(headers, i);
      if IsLengthLine(line) {
        contentLength := LengthValue(line);
        if contentLength.None? {
          LengthsGrow(headers, i + 1);
          return Err(BadContentLength);
        }
      }
    }
    assert headers[..|headers|] == headers;
    return Ok(contentLength);
  }

  method ParseHttpResponseHead(head: string) returns (r: Result<(nat, Option<nat>), HeadError>)
    ensures r == HeadOf(head)
  {
    var lines := Lines(head);
    if lines == [] {
      return Err(MissingStatusLine);
    }
    var status := StatusOf(lines[0]);
    if status.Err? {
      return Err(status.error);
    }
    var contentLength := ReadDeclaredLength(lines[1..]);
    return WithStatus(status.value, contentLength);
  }

  lemma LengthsSnoc(lines: seq<string>, i: nat)
    requires i < |lines|
    ensures
      var before := Lengths(lines[..i]);
      Lengths(lines[..i + 1]) == if IsLengthLine(lines[i]) then before + [LengthValue(lines[i])] else before
  {
    assert lines[..i + 1][..i] == lines[..i];
  }

  lemma {:induction false} LengthsGrow(lines: seq<string>, i: nat)
    requires i <= |lines|
    ensures Lengths(lines[..i]) <= Lengths(lines)
    ensures None in Lengths(lines[..i]) ==> None in Lengths(lines)
  {
    if i == |lines| {
      assert lines[..i] == lines;
    } else {
      LengthsGrow(lines[..|lines| - 1], i);
      assert lines[..|lines| - 1][..i] == lines[..i];
    }
  }

  // -------------------------------------------------------------------------
  // What a server's head comes to
  // -------------------------------------------------------------------------

  /** Lines as a server sends them, with the empty line that ends a head. */
  function Text(lines: seq<string>): string {
    if lines == [] then Ended("") else Ended(lines[0]) + Text(lines[1..])
  }

  function Ended(line: string): string {
    line + ['\r'] + ['\n']
  }

  lemma {:induction false} IndexOfAfter(s: string, c: char, rest: string)
    requires c !in s
    ensures IndexOf(s + [c] + rest, c) == |s|
  {
    if s != [] {
      IndexOfAfter(s[1..], c, rest);
      assert (s + [c] + rest)[1..] == s[1..] + [c] + rest;
    }
  }

  lemma LinesOfFirst(first: string, rest: string)
    requires '\n' !in first
    ensures Lines(Ended(first) + rest) == [first] + Lines(rest)
  {
    var ended := first + ['\r'];
    var s := ended + ['\n'] + rest;
    IndexOfAfter(ended, '\n', rest);
    assert s[..|ended|] == ended && s[|ended| + 1..] == rest;
  }

  lemma {:induction false} LinesOfText(lines: seq<string>)
    requires forall i :: 0 <= i < |lines| ==> '\n' !in lines[i]
    ensures Lines(Text(lines)) == lines + [""]
  {
    if lines == [] {
      LinesOfFirst("", "");
      assert Ended("") + "" == Ended("");
    } else {
      LinesOfText(lines[1..]);
      LinesOfFirst(lines[0], Text(lines[1..]));
      assert lines + [""] == [lines[0]] + (lines[1..] + [""]);
    }
  }

  predicate IsWord(w: string) {
    w != [] && forall i :: 0 <= i < |w| ==> !IsWhitespace(w[i])
  }

  lemma {:induction false} WordLengthOf(w: string, rest: string)
    requires forall i :: 0 <= i < |w| ==> !IsWhitespace(w[i])
    requires rest == [] || IsWhitespace(rest[0])
    ensures WordLength(w + rest) == |w|
  {
    if w == [] {
      assert w + rest == rest;
    } else {
      WordLengthOf(w[1..], rest);
      assert (w + rest)[1..] == w[1..] + rest;
    }
  }

  lemma NextWordOf(w: string, rest: string)
    requires IsWord(w) && (rest == [] || IsWhitespace(rest[0]))
    ensures NextWord(w + rest) == Some((w, rest))
    ensures NextWord(" " + w + rest) == Some((w, rest))
  {
    WordLengthOf(w, rest);
    assert TrimStart(w + rest) == w + rest;
    assert (" " + w + rest)[1..] == w + rest;
    assert (w + rest)[..|w|] == w && (w + rest)[|w|..] == rest;
  }

  lemma PrintParses(n: nat, max: nat)
    requires n <= max
    ensures IsWord(Print(n)) && ParseUnsigned(Print(n), max) == Some(n)
  {
    ReadPrint(n);
    assert IsDigit(Print(n)[0]);
  }

  /** A status line reads back as its status, whatever the reason phrase. */
  lemma StatusLineParses(version: string, status: nat, reason: string)
    requires IsWord(version) && "HTTP/" <= version && status <= U16_MAX
    ensures StatusOf(version + " " + Print(status) + " " + reason) == Ok(status)
  {
    PrintParses(status, U16_MAX);
    var tail := " " + reason;
    var rest := " " + Print(status) + tail;
    assert version + " " + Print(status) + " " + reason == version + rest;
    NextWordOf(version, rest);
    NextWordOf(Print(status), tail);
  }

  lemma TrimWord(w: string)
    requires w != [] && !IsWhitespace(w[0]) && !IsWhitespace(w[|w| - 1])
    ensures Trim(w) == w && Trim(" " + w) == w
  {
    assert (" " + w)[1..] == w;
  }

  /** A content-length line declares its number, in any case of its name. */
  lemma LengthLineDeclares(name: string, n: nat)
    requires EqualsIgnoringCase(name, "content-length") && n <= 0xFFFF_FFFF_FFFF_FFFF
    ensures IsLengthLine(name + ": " + Print(n)) && LengthValue(name + ": " + Print(n)) == Some(n)
  {
    var line := name + ": " + Print(n);
    assert line == name + [':'] + (" " + Print(n));
    NameIsClean(name);
    IndexOfAfter(name, ':', " " + Print(n));
    assert line[..|name|] == name && line[|name| + 1..] == " " + Print(n);
    TrimWord(name);
    PrintParses(n, USIZE_MAX);
    TrimWord(Print(n));
  }

  lemma NameIsClean(name: string)
    requires EqualsIgnoringCase(name, CONTENT_LENGTH)
    ensures ':' !in name && name != [] && !IsWhitespace(name[0]) && !IsWhitespace(name[|name| - 1])
  {
    assert forall i :: 0 <= i < |CONTENT_LENGTH| ==> 'a' <= CONTENT_LENGTH[i] <= 'z' || CONTENT_LENGTH[i] == '-';
    forall i | 0 <= i < |name| ensures name[i] != ':' && !IsWhitespace(name[i]) {
      assert LowerChar(name[i]) == CONTENT_LENGTH[i];
    }
  }

  /** A head as sent reads back as its status and the length its header lines declare. */
  lemma HeadParses(version: string, status: nat, reason: string, headers: seq<string>)
    requires IsWord(version) && "HTTP/" <= version && status <= 65535 && '\n' !in reason
    requires forall i :: 0 <= i < |headers| ==> '\n' !in headers[i]
    ensures
      var head := Text([version + " " + Print(status) + " " + reason] + headers);
      HeadOf(head) == WithStatus(status, DeclaredLength(headers))
  {
    var statusLine := version + " " + Print(status) + " " + reason;
    var lines := [statusLine] + headers;
    assert '\n' !in statusLine;
    LinesOfText(lines);
    StatusLineParses(version, status, reason);
    assert (lines + [""])[1..] == headers + [""];
    assert (headers + [""])[..|headers|] == headers;
    assert IndexOf("", ':') == 0;
    assert Lengths(headers + [""]) == Lengths(headers);
  }
}
