/** What the canonical text looks like, said without the functions that print it. */
module CanonicalText {
  import opened Wrappers
  import opened CanonicalJson
  import Decimal

  // -------------------------------------------------------------------------
  // Key order
  // -------------------------------------------------------------------------

  /** The first place where the texts differ, or the end of the shorter one. */
  ghost predicate ComesBefore(a: string, b: string) {
    exists k :: 0 <= k <= |a| && k < |b| && a[..k] == b[..k] && (k == |a| || a[k] < b[k])
  }

  lemma {:induction false} LessComesBefore(a: string, b: string)
    requires Less(a, b)
    ensures ComesBefore(a, b)
  {
    if a == [] || a[0] < b[0] {
      assert a[..0] == b[..0];
    } else {
      LessComesBefore(a[1..], b[1..]);
      var k :| 0 <= k <= |a[1..]| && k < |b[1..]| && a[1..][..k] == b[1..][..k]
               && (k == |a[1..]| || a[1..][k] < b[1..][k]);
      assert a[..k + 1] == [a[0]] + a[1..][..k] && b[..k + 1] == [b[0]] + b[1..][..k];
    }
  }

  lemma {:induction false} BeforeIsLess(a: string, b: string)
    requires ComesBefore(a, b)
    ensures Less(a, b)
  {
    var k :| 0 <= k <= |a| && k < |b| && a[..k] == b[..k] && (k == |a| || a[k] < b[k]);
    if k > 0 {
      assert a[0] == a[..k][0] && b[0] == b[..k][0];
      assert a[1..][..k - 1] == a[..k][1..] && b[1..][..k - 1] == b[..k][1..];
      BeforeIsLess(a[1..], b[1..]);
    }
  }

  /** Every object lists its members by ascending key, at every depth. */
  ghost predicate KeysAscend(v: Value) {
    match v
    case Array(items) => forall i :: 0 <= i < |items| ==> KeysAscend(items[i])
    case Object(fields) =>
      && (forall i, j :: 0 <= i < j < |fields| ==> ComesBefore(fields[i].key, fields[j].key))
      && (forall i :: 0 <= i < |fields| ==> KeysAscend(fields[i].value))
    case _ => true
  }

  lemma {:induction false} NormalAscends(v: Value)
    requires ValidValue(v)
    ensures KeysAscend(Normal(v))
  {
    match v
    case Array(items) =>
      forall i | 0 <= i < |items| ensures KeysAscend(NormalItems(items)[i]) {
        NormalAscends(items[i]);
      }
    case Object(fields) =>
      forall i | 0 <= i < |fields| ensures KeysAscend(NormalFields(fields)[i].value) {
        NormalAscends(fields[i].value);
      }
      SortedAscends(NormalFields(fields));
    case _ =>
  }

  lemma SortedAscends(fields: seq<Entry<Value>>)
    requires DistinctKeys(fields) && forall i :: 0 <= i < |fields| ==> KeysAscend(fields[i].value)
    ensures KeysAscend(Object(SortByKey(fields)))
  {
    var sorted := SortByKey(fields);
    SortSorts(fields);
    forall i, j | 0 <= i < j < |sorted| ensures ComesBefore(sorted[i].key, sorted[j].key) {
      LessComesBefore(sorted[i].key, sorted[j].key);
    }
    forall i | 0 <= i < |sorted| ensures KeysAscend(sorted[i].value) {
      SortMember(fields, sorted[i]);
    }
  }

  /** Read back from its canonical text, every object of a value lists its members by ascending key. */
  lemma CanonicalKeysAscend(v: Value)
    requires ValidValue(v)
    ensures Parse(CanonicalizeValue(v)).Some? && KeysAscend(Parse(CanonicalizeValue(v)).value)
  {
    ParseCanonical(v);
    NormalAscends(v);
  }

  // -------------------------------------------------------------------------
  // Strings
  // -------------------------------------------------------------------------

  lemma EscapeIsShort(t: string)
    requires ParseEscape(t).Some?
    ensures |EscapeChar(ParseEscape(t).value.0)| + |ParseEscape(t).value.1| <= |t| + 1
  {
  }

  lemma {:induction false} CharsAreShortest(t: string)
    requires ParseChars(t).Some?
    ensures
      var (s, rest) := ParseChars(t).value;
      |EscapeAll(s)| + 1 + |rest| <= |t|
    decreases |t|
  {
    if t[0] == '\"' {
    } else if t[0] == '\\' {
      var (c, after) := ParseEscape(t[1..]).value;
      EscapeIsShort(t[1..]);
      CharsAreShortest(after);
      ConsEscapes(c, ParseChars(after).value.0);
    } else {
      CharsAreShortest(t[1..]);
      ConsEscapes(t[0], ParseChars(t[1..]).value.0);
    }
  }

  lemma ConsEscapes(c: char, s: string)
    ensures |EscapeAll([c] + s)| == |EscapeChar(c)| + |EscapeAll(s)|
  {
    assert ([c] + s)[1..] == s;
  }

  /** No shorter text reads as the same string: nothing is escaped that need not be. */
  lemma StringTextIsShortest(s: string, t: string)
    requires Parse(t) == Some(Str(s))
    ensures |CanonicalizeValue(Str(s))| <= |t|
  {
    if t[0] == '\"' {
      CharsAreShortest(t[1..]);
      assert |Quote(s)| == |EscapeAll(s)| + 2;
    } else {
      NotAString(t);
    }
  }

  lemma NotAString(t: string)
    requires t != [] && t[0] != '\"'
    ensures ParseValue(t).Some? ==> !ParseValue(t).value.0.Str?
  {
  }

  /** The two-character escapes by code point (section 7 of RFC 8259). */
  lemma ShortEscapes()
    ensures CanonicalizeValue(Str([8 as char, 9 as char, 10 as char])) == "\"\\b\\t\\n\""
    ensures CanonicalizeValue(Str([12 as char, 13 as char])) == "\"\\f\\r\""
    ensures CanonicalizeValue(Str([34 as char, 92 as char])) == "\"\\\"\\\\\""
  {
    assert EscapeAll([10 as char]) == "\\n" && EscapeAll([13 as char]) == "\\r" && EscapeAll([92 as char]) == "\\\\";
    assert EscapeAll([9 as char, 10 as char]) == "\\t\\n";
    assert EscapeAll([8 as char, 9 as char, 10 as char]) == "\\b\\t\\n";
    assert EscapeAll([12 as char, 13 as char]) == "\\f\\r";
    assert EscapeAll([34 as char, 92 as char]) == "\\\"\\\\";
  }

  /** Any other control character is written by its code point, in two lower-case hexadecimal digits. */
  lemma ControlText(c: char)
    requires c as int < 0x20 && c as int !in {8, 9, 10, 12, 13}
    ensures
      var digits := "0123456789abcdef";
      CanonicalizeValue(Str([c])) == "\"\\u00" + [digits[c as int / 16], digits[c as int % 16]] + "\""
  {
    HexDigit(c as int / 16);
    HexDigit(c as int % 16);
    assert EscapeAll([c]) == EscapeChar(c);
  }

  lemma HexDigit(d: nat)
    requires d < 16
    ensures HexChar(d) == "0123456789abcdef"[d]
  {
  }

  // -------------------------------------------------------------------------
  // Words, brackets and separators
  // -------------------------------------------------------------------------

  lemma WordTexts()
    ensures CanonicalizeValue(Null) == "null"
    ensures CanonicalizeValue(Bool(true)) == "true" && CanonicalizeValue(Bool(false)) == "false"
    ensures CanonicalizeValue(Array([])) == "[]" && CanonicalizeValue(Object([])) == "{}"
  {
  }

  lemma {:induction false} JoinSnoc(parts: seq<string>, last: string)
    ensures Join(parts + [last], ",") == if parts == [] then last else Join(parts, ",") + "," + last
  {
    if |parts| == 1 {
      assert (parts + [last])[1..] == [last];
    } else if parts != [] {
      JoinSnoc(parts[1..], last);
      assert (parts + [last])[1..] == parts[1..] + [last];
      assert parts[0] + "," + (Join(parts[1..], ",") + "," + last) == Join(parts, ",") + "," + last;
    }
  }

  lemma {:induction false} ItemsSnoc(items: seq<Value>, last: Value)
    ensures CanonicalizeItems(items + [last]) == CanonicalizeItems(items) + [CanonicalizeValue(last)]
    ensures CanonicalizeItems(items) == [] <==> items == []
  {
    if items != [] {
      ItemsSnoc(items[1..], last);
      assert (items + [last])[1..] == items[1..] + [last];
    }
  }

  /** One more item: a comma, unless it is the first, and its text. */
  lemma ItemText(items: seq<Value>, last: Value)
    ensures
      var before := CanonicalizeValue(Array(items));
      CanonicalizeValue(Array(items + [last]))
      == (if items == [] then "[" else before[..|before| - 1] + ",") + CanonicalizeValue(last) + "]"
  {
    var parts := CanonicalizeItems(items);
    ItemsSnoc(items, last);
    JoinSnoc(parts, CanonicalizeValue(last));
    ReopenedItems(Join(parts, ","), CanonicalizeValue(last));
  }

  lemma ReopenedItems(joined: string, text: string)
    ensures
      var before := "[" + joined + "]";
      before[..|before| - 1] + "," + text + "]" == "[" + (joined + "," + text) + "]"
  {
    var before := "[" + joined + "]";
    assert before[..|before| - 1] == "[" + joined;
  }

  /** One more member with the greatest key: a comma, unless it is the first, then key, colon and value. */
  lemma MemberText(fields: seq<Entry<Value>>, last: Entry<Value>)
    requires forall i, j :: 0 <= i < j < |fields| ==> ComesBefore(fields[i].key, fields[j].key)
    requires forall i :: 0 <= i < |fields| ==> ComesBefore(fields[i].key, last.key)
    ensures
      var before := CanonicalizeValue(Object(fields));
      CanonicalizeValue(Object(fields + [last]))
      == (if fields == [] then "{" else before[..|before| - 1] + ",")
         + CanonicalizeValue(Str(last.key)) + ":" + CanonicalizeValue(last.value) + "}"
  {
    var texts, text := CanonicalizeFields(fields), Entry(last.key, CanonicalizeValue(last.value));
    FieldsSnoc(fields, last);
    FieldsAscend(fields, last, texts, text);
    MembersSnoc(texts, text);
    JoinSnoc(MemberTexts(texts), Quote(last.key) + ":" + text.value);
    Reopened(Join(MemberTexts(texts), ","), Quote(last.key), text.value);
  }

  lemma Reopened(joined: string, key: string, text: string)
    ensures
      var before := "{" + joined + "}";
      before[..|before| - 1] + "," + key + ":" + text + "}" == "{" + (joined + "," + (key + ":" + text)) + "}"
    ensures "{" + key + ":" + text + "}" == "{" + (key + ":" + text) + "}"
  {
    var before := "{" + joined + "}";
    assert before[..|before| - 1] == "{" + joined;
  }

  lemma FieldsAscend(fields: seq<Entry<Value>>, last: Entry<Value>, texts: seq<Entry<string>>, text: Entry<string>)
    requires |texts| == |fields| && text.key == last.key
    requires forall i :: 0 <= i < |fields| ==> texts[i].key == fields[i].key
    requires forall i, j :: 0 <= i < j < |fields| ==> ComesBefore(fields[i].key, fields[j].key)
    requires forall i :: 0 <= i < |fields| ==> ComesBefore(fields[i].key, last.key)
    ensures SortByKey(texts) == texts && SortByKey(texts + [text]) == texts + [text]
  {
    forall i, j | 0 <= i < j < |texts| ensures Less(texts[i].key, texts[j].key) {
      BeforeIsLess(fields[i].key, fields[j].key);
    }
    forall i | 0 <= i < |texts| ensures Less(texts[i].key, text.key) {
      BeforeIsLess(fields[i].key, last.key);
    }
    SortedStays(texts);
    SortedStays(texts + [text]);
  }

  lemma {:induction false} FieldsSnoc(fields: seq<Entry<Value>>, last: Entry<Value>)
    ensures CanonicalizeFields(fields + [last])
         == CanonicalizeFields(fields) + [Entry(last.key, CanonicalizeValue(last.value))]
    ensures |CanonicalizeFields(fields)| == |fields|
    ensures forall i :: 0 <= i < |fields| ==> CanonicalizeFields(fields)[i].key == fields[i].key
  {
    if fields != [] {
      FieldsSnoc(fields[1..], last);
      assert (fields + [last])[1..] == fields[1..] + [last];
    }
  }

  lemma {:induction false} MembersSnoc(es: seq<Entry<string>>, e: Entry<string>)
    ensures MemberTexts(es + [e]) == MemberTexts(es) + [Quote(e.key) + ":" + e.value]
    ensures MemberTexts(es) == [] <==> es == []
  {
    if es != [] {
      MembersSnoc(es[1..], e);
      assert (es + [e])[1..] == es[1..] + [e];
    }
  }

  lemma {:induction false} SortedStays(es: seq<Entry<string>>)
    requires SortedKeys(es)
    ensures SortByKey(es) == es
  {
    if es != [] {
      SortedStays(es[1..]);
      assert es == [es[0]] + es[1..];
    }
  }

  // -------------------------------------------------------------------------
  // Numbers
  // -------------------------------------------------------------------------

  lemma {:induction false} NoLeadingZero(n: nat)
    ensures Decimal.Print(n)[0] == '0' <==> n == 0
    ensures n == 0 ==> Decimal.Print(n) == "0"
  {
    if n >= 10 {
      NoLeadingZero(n / 10);
      assert Decimal.Print(n)[0] == Decimal.Print(n / 10)[0];
    }
  }

  /** The ten digits, and every longer number by its last digit. */
  lemma DigitTexts(n: nat)
    ensures n < 10 ==> CanonicalizeValue(Number(n)) == ["0123456789"[n]]
    ensures n >= 10 ==>
      CanonicalizeValue(Number(n)) == CanonicalizeValue(Number(n / 10)) + CanonicalizeValue(Number(n % 10))
  {
  }

  /** A number is a minus sign if it is negative, and decimal digits without a leading zero. */
  lemma NumberText(n: int)
    ensures
      var text := CanonicalizeValue(Number(n));
      var digits := if n < 0 then text[1..] else text;
      && text != [] && (n < 0 ==> text[0] == '-')
      && digits != [] && Decimal.AllDigits(digits) && (digits[0] == '0' ==> digits == "0")
      && Decimal.Read(digits) == if n < 0 then -n else n
  {
    var m := if n < 0 then -n else n;
    NoLeadingZero(m);
    Decimal.ReadPrint(m);
    if n < 0 {
      assert ("-" + Decimal.Print(m))[1..] == Decimal.Print(m);
    }
  }

  // -------------------------------------------------------------------------
  // Manifests
  // -------------------------------------------------------------------------

  /** Only an object has a signed text, and that text reads as its members but `signature`, in key order. */
  lemma ManifestText(m: Value)
    requires ValidValue(m)
    ensures CanonicalizeManifest(m).Ok? <==> m.Object?
    ensures m.Object? ==>
      var read := Parse(CanonicalizeManifest(m).value);
      && read.Some? && read.value.Object? && KeysAscend(read.value)
      && (forall e :: e in m.fields && e.key != "signature" ==> Entry(e.key, Normal(e.value)) in read.value.fields)
      && (forall e :: e in read.value.fields ==> e.key != "signature" && HasKey(m.fields, e.key))
  {
    if m.Object? {
      var rest := RemoveKey(m.fields, "signature");
      RemovedKey(m.fields, "signature");
      ValidWithout(m.fields, "signature");
      CanonicalKeysAscend(Object(rest));
      ParseCanonical(Object(rest));
      NormalMembers(rest);
      forall e | e in SortByKey(NormalFields(rest)) ensures e.key != "signature" && HasKey(m.fields, e.key) {
        var i :| 0 <= i < |rest| && e == Entry(rest[i].key, Normal(rest[i].value));
        assert rest[i] in rest;
        var j :| 0 <= j < |m.fields| && m.fields[j] == rest[i];
      }
    }
  }

  lemma NormalMembers(fields: seq<Entry<Value>>)
    ensures forall e :: e in SortByKey(NormalFields(fields)) <==>
      exists i :: 0 <= i < |fields| && e == Entry(fields[i].key, Normal(fields[i].value))
  {
    forall e ensures e in SortByKey(NormalFields(fields)) <==> e in NormalFields(fields) {
      SortMember(NormalFields(fields), e);
    }
  }
}
