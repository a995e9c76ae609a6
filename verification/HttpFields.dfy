/** What every response head comes to, good or bad, said by its lines, words and numerals. */
module HttpFields {
  import opened Wrappers
  import opened Decimal
  import opened Sequences
  import opened HttpHead

  // -------------------------------------------------------------------------
  // Lines
  // -------------------------------------------------------------------------

  /** A line ends at a line feed, the carriage return before it not included; the last may go without. */
  lemma LinesEndAtLineFeeds(first: string, rest: string)
    requires '\n' !in first
    ensures Lines(first + ['\r'] + ['\n'] + rest) == [first] + Lines(rest)
    ensures first == [] || first[|first| - 1] != '\r' ==> Lines(first + ['\n'] + rest) == [first] + Lines(rest)
    ensures first != [] ==> Lines(first) == [first]
  {
    LinesOfFirst(first, rest);
    assert Ended(first) + rest == first + ['\r'] + ['\n'] + rest;
    IndexOfAfter(first, '\n', rest);
    var s := first + ['\n'] + rest;
    assert s[..|first|] == first && s[|first| + 1..] == rest;
  }

  // -------------------------------------------------------------------------
  // White space
  // -------------------------------------------------------------------------

  predicate Blank(s: string) {
    forall i :: 0 <= i < |s| ==> IsWhitespace(s[i])
  }

  /** Text with no white space at either end. */
  predicate Trimmed(s: string) {
    s != [] ==> !IsWhitespace(s[0]) && !IsWhitespace(s[|s| - 1])
  }

  lemma {:induction false} TrimStartOf(before: string, s: string)
    requires Blank(before) && (s == [] || !IsWhitespace(s[0]))
    ensures TrimStart(before + s) == s
  {
    if before == [] {
      assert before + s == s;
    } else {
      TrimStartOf(before[1..], s);
      assert (before + s)[1..] == before[1..] + s;
    }
  }

  lemma {:induction false} TrimEndOf(s: string, after: string)
    requires Blank(after) && (s == [] || !IsWhitespace(s[|s| - 1]))
    ensures TrimEnd(s + after) == s
    decreases |after|
  {
    if after == [] {
      assert s + after == s;
    } else {
      TrimEndOf(s, after[..|after| - 1]);
      assert (s + after)[..|s + after| - 1] == s + after[..|after| - 1];
    }
  }

  lemma TrimOf(before: string, s: string, after: string)
    requires Blank(before) && Trimmed(s) && Blank(after)
    ensures Trim(before + s + after) == s
  {
    if s == [] {
      assert before + s + after == (before + after) + [];
      TrimStartOf(before + after, []);
      TrimEndOf([], []);
    } else {
      assert before + s + after == before + (s + after);
      TrimStartOf(before, s + after);
      TrimEndOf(s, after);
    }
  }

  lemma {:induction false} TrimStartParts(s: string) returns (before: string)
    ensures Blank(before) && s == before + TrimStart(s)
    ensures TrimStart(s) == [] || !IsWhitespace(TrimStart(s)[0])
  {
    before := [];
    if s != [] && IsWhitespace(s[0]) {
      before := TrimStartParts(s[1..]);
      before := [s[0]] + before;
    }
  }

  lemma {:induction false} TrimEndParts(s: string) returns (after: string)
    ensures Blank(after) && s == TrimEnd(s) + after
    ensures TrimEnd(s) == [] || (!IsWhitespace(TrimEnd(s)[|TrimEnd(s)| - 1]) && TrimEnd(s)[0] == s[0])
    decreases |s|
  {
    after := [];
    if s != [] && IsWhitespace(s[|s| - 1]) {
      after := TrimEndParts(s[..|s| - 1]);
      after := after + [s[|s| - 1]];
    }
  }

  /** The line is a name and a value around its first colon, the name being content-length in any case. */
  ghost predicate NamesLength(line: string, before: string, name: string, after: string, value: string) {
    && line == before + name + after + [':'] + value
    && Blank(before) && Blank(after) && EqualsIgnoringCase(name, "content-length")
  }

  /** A line declares a length exactly when it is called content-length, white space and case apart. */
  lemma LengthLineIsNamed(line: string)
    ensures IsLengthLine(line) <==> exists before, name, after, value :: NamesLength(line, before, name, after, value)
  {
    if IsLengthLine(line) {
      var before, name, after, value := LengthLineParts(line);
    }
    if before, name, after, value :| NamesLength(line, before, name, after, value) {
      NamedLineDeclares(line, before, name, after, value);
    }
  }

  lemma LengthLineParts(line: string) returns (before: string, name: string, after: string, value: string)
    requires IsLengthLine(line)
    ensures NamesLength(line, before, name, after, value)
  {
    var colon := IndexOf(line, ':');
    var field := line[..colon];
    name, value := Trim(field), line[colon + 1..];
    before := TrimStartParts(field);
    after := TrimEndParts(TrimStart(field));
    assert line == field + [':'] + value;
    assert field == before + name + after;
  }

  lemma NamedLineDeclares(line: string, before: string, name: string, after: string, value: string)
    requires NamesLength(line, before, name, after, value)
    ensures IsLengthLine(line) && LengthValue(line) == ParseUnsigned(Trim(value), 0xFFFF_FFFF_FFFF_FFFF)
  {
    var field := before + name + after;
    NameIsClean(name);
    assert ':' !in field;
    IndexOfAfter(field, ':', value);
    assert line[..|field|] == field && line[|field| + 1..] == value;
    TrimOf(before, name, after);
  }

  /** Some zeros and then the number, perhaps after a plus sign. */
  ghost predicate IsNumeral(text: string, n: nat, zeros: nat) {
    text == Repeat('0', zeros) + Print(n) || text == "+" + Repeat('0', zeros) + Print(n)
  }

  lemma {:induction false} DigitsAreNumeral(digits: string) returns (zeros: nat)
    requires digits != [] && AllDigits(digits)
    ensures digits == Repeat('0', zeros) + Print(Read(digits))
  {
    var front, last := digits[..|digits| - 1], digits[|digits| - 1];
    assert digits == front + [last];
    assert Print(DigitValue(last)) == [last];
    if front == [] {
      zeros := 0;
      assert Read(front) == 0;
      assert Repeat('0', 0) + [last] == [last];
    } else {
      zeros := DigitsAreNumeral(front);
      if Read(front) == 0 {
        assert Print(0) == ['0'];
        assert Repeat('0', zeros) + ['0'] == Repeat('0', zeros + 1);
        zeros := zeros + 1;
      } else {
        assert Read(digits) / 10 == Read(front) && Read(digits) % 10 == DigitValue(last);
        assert Print(Read(digits)) == Print(Read(front)) + [last];
        assert Repeat('0', zeros) + Print(Read(front)) + [last] == Repeat('0', zeros) + (Print(Read(front)) + [last]);
      }
    }
  }

  lemma {:induction false} ReadNumeral(n: nat, zeros: nat)
    ensures AllDigits(Repeat('0', zeros) + Print(n)) && Read(Repeat('0', zeros) + Print(n)) == n
    decreases n
  {
    var s := Repeat('0', zeros) + Print(n);
    if n < 10 {
      assert s[..|s| - 1] == Repeat('0', zeros);
      ReadZeros(zeros);
    } else {
      ReadNumeral(n / 10, zeros);
      assert s[..|s| - 1] == Repeat('0', zeros) + Print(n / 10);
    }
  }

  lemma {:induction false} ReadZeros(zeros: nat)
    ensures AllDigits(Repeat('0', zeros)) && Read(Repeat('0', zeros)) == 0
  {
    if zeros > 0 {
      ReadZeros(zeros - 1);
      assert Repeat('0', zeros)[..zeros - 1] == Repeat('0', zeros - 1);
    }
  }

  /** A text reads as a number exactly when it is its decimal numeral, leading zeros and a plus sign allowed. */
  lemma NumeralsAreRead(text: string, max: nat, n: nat)
    ensures ParseUnsigned(text, max) == Some(n) <==> n <= max && exists zeros :: IsNumeral(text, n, zeros)
  {
    if ParseUnsigned(text, max) == Some(n) {
      var zeros := ReadIsNumeral(text, max, n);
    }
    if zeros :| n <= max && IsNumeral(text, n, zeros) {
      NumeralIsRead(text, max, n, zeros);
    }
  }

  lemma ReadIsNumeral(text: string, max: nat, n: nat) returns (zeros: nat)
    requires ParseUnsigned(text, max) == Some(n)
    ensures IsNumeral(text, n, zeros)
  {
    if text[0] == '+' {
      zeros := DigitsAreNumeral(text[1..]);
      assert text == "+" + text[1..];
      assert "+" + (Repeat('0', zeros) + Print(n)) == "+" + Repeat('0', zeros) + Print(n);
    } else {
      zeros := DigitsAreNumeral(text);
    }
  }

  lemma NumeralIsRead(text: string, max: nat, n: nat, zeros: nat)
    requires n <= max && IsNumeral(text, n, zeros)
    ensures ParseUnsigned(text, max) == Some(n)
  {
    var digits := Repeat('0', zeros) + Print(n);
    ReadNumeral(n, zeros);
    assert IsDigit(digits[0]);
    if text != digits {
      assert text == ['+'] + digits && text[1..] == digits;
    }
  }

  predicate DeclaresNoNumber(line: string) {
    IsLengthLine(line) && LengthValue(line).None?
  }

  /** The length of a head's lines, one line at a time. */
  lemma DeclaredSnoc(front: seq<string>, last: string)
    ensures DeclaredLength(front + [last])
         == if DeclaredLength(front).Err? || DeclaresNoNumber(last) then Err(BadContentLength)
            else if IsLengthLine(last) then Ok(LengthValue(last))
            else DeclaredLength(front)
    ensures IsLengthLine(last) && DeclaredLength(front + [last]).Ok? ==> DeclaredLength(front + [last]).value.Some?
  {
    assert (front + [last])[..|front|] == front;
  }

  /** Every content-length line has to be a number. */
  lemma {:induction false} EveryLengthIsANumber(lines: seq<string>)
    ensures DeclaredLength(lines).Err? <==> exists line :: line in lines && DeclaresNoNumber(line)
  {
    if lines != [] {
      var front, last := lines[..|lines| - 1], lines[|lines| - 1];
      assert lines == front + [last];
      DeclaredSnoc(front, last);
      EveryLengthIsANumber(front);
    }
  }

  /** The last of them counts; without one there is no length. */
  lemma {:induction false} LastLengthCounts(lines: seq<string>, i: nat)
    requires DeclaredLength(lines).Ok? && i <= |lines|
    requires forall j :: i < j < |lines| ==> !IsLengthLine(lines[j])
    requires i < |lines| ==> IsLengthLine(lines[i])
    requires i == |lines| ==> forall line :: line in lines ==> !IsLengthLine(line)
    ensures DeclaredLength(lines) == Ok(if i < |lines| then LengthValue(lines[i]) else None)
    decreases |lines|
  {
    if lines != [] {
      var front, last := lines[..|lines| - 1], lines[|lines| - 1];
      assert lines == front + [last];
      DeclaredSnoc(front, last);
      if i != |front| {
        LastLengthCounts(front, if i < |front| then i else |front|);
      }
    }
  }

  /** The status is the second word of its line, and its first word has to be a version of HTTP. */
  lemma StatusIsSecondWord(before: string, protocol: string, gap: string, code: string, rest: string)
    requires Blank(before) && IsWord(protocol) && gap != [] && Blank(gap) && IsWord(code)
    requires rest == [] || IsWhitespace(rest[0])
    ensures StatusOf(before + protocol + gap + code + rest)
         == if !("HTTP/" <= protocol) then Err(BadProtocol(protocol))
            else if ParseUnsigned(code, 65535).None? then Err(BadStatusCode)
            else Ok(ParseUnsigned(code, 65535).value)
  {
    var tail := gap + (code + rest);
    assert before + protocol + gap + code + rest == before + (protocol + tail);
    NextWordAfter(before, protocol, tail);
    NextWordAfter(gap, code, rest);
  }

  lemma NextWordAfter(before: string, w: string, rest: string)
    requires Blank(before) && IsWord(w) && (rest == [] || IsWhitespace(rest[0]))
    ensures NextWord(before + (w + rest)) == Some((w, rest))
  {
    TrimStartOf(before, w + rest);
    WordLengthOf(w, rest);
    assert (w + rest)[..|w|] == w && (w + rest)[|w|..] == rest;
  }

  /** With fewer than two words there is no status. */
  lemma StatusNeedsTwoWords(before: string, protocol: string, after: string)
    requires Blank(before) && Blank(after) && IsWord(protocol)
    ensures StatusOf(before) == Err(MissingProtocol)
    ensures StatusOf(before + (protocol + after))
         == Err(if "HTTP/" <= protocol then MissingStatusCode else BadProtocol(protocol))
  {
    assert before + [] == before && after + [] == after;
    TrimStartOf(before, []);
    TrimStartOf(after, []);
    NextWordAfter(before, protocol, after);
  }
}
