/** The canonical JSON text of a manifest: the bytes a signature covers. */
module CanonicalJson {
  import opened Wrappers
  import Decimal

  datatype Entry<T> = Entry(key: string, value: T)

  /** A JSON value. An object lists its members in the order the map yields them. */
  datatype Value =
    | Null
    | Bool(b: bool)
    | Number(n: int)
    | Str(s: string)
    | Array(items: seq<Value>)
    | Object(fields: seq<Entry<Value>>)

  // -------------------------------------------------------------------------
  // Key order: `BTreeMap<&str, _>` yields its entries by ascending key
  // -------------------------------------------------------------------------

  predicate Less(a: string, b: string) {
    if b == [] then false
    else if a == [] then true
    else a[0] < b[0] || (a[0] == b[0] && Less(a[1..], b[1..]))
  }

  lemma LessIsTotal(a: string, b: string)
    ensures a == b || Less(a, b) || Less(b, a)
  {
    if a != [] && b != [] && a[0] == b[0] {
      LessIsTotal(a[1..], b[1..]);
      assert a == [a[0]] + a[1..] && b == [b[0]] + b[1..];
    }
  }

  lemma LessIsAsymmetric(a: string, b: string)
    requires Less(a, b)
    ensures a != b && !Less(b, a)
  {
    if a != [] && a[0] == b[0] {
      LessIsAsymmetric(a[1..], b[1..]);
    }
  }

  lemma LessIsTransitive(a: string, b: string, c: string)
    requires Less(a, b) && Less(b, c)
    ensures Less(a, c)
  {
    if a != [] && a[0] == b[0] == c[0] {
      LessIsTransitive(a[1..], b[1..], c[1..]);
    }
  }

  ghost predicate DistinctKeys<T>(es: seq<Entry<T>>) {
    forall i, j :: 0 <= i < j < |es| ==> es[i].key != es[j].key
  }

  ghost predicate SortedKeys<T>(es: seq<Entry<T>>) {
    forall i, j :: 0 <= i < j < |es| ==> Less(es[i].key, es[j].key)
  }

  function Insert<T>(e: Entry<T>, es: seq<Entry<T>>): seq<Entry<T>> {
    if es == [] || Less(e.key, es[0].key) then [e] + es
    else [es[0]] + Insert(e, es[1..])
  }

  function SortByKey<T>(es: seq<Entry<T>>): seq<Entry<T>> {
    if es == [] then [] else Insert(es[0], SortByKey(es[1..]))
  }

  lemma InsertMember<T>(e: Entry<T>, es: seq<Entry<T>>, x: Entry<T>)
    ensures x in Insert(e, es) <==> x == e || x in es
  {
    if es != [] && !Less(e.key, es[0].key) {
      InsertMember(e, es[1..], x);
      assert es == [es[0]] + es[1..];
    }
  }

  lemma SortMember<T>(es: seq<Entry<T>>, x: Entry<T>)
    ensures x in SortByKey(es) <==> x in es
  {
    if es != [] {
      SortMember(es[1..], x);
      InsertMember(es[0], SortByKey(es[1..]), x);
      assert es == [es[0]] + es[1..];
    }
  }

  lemma InsertSorted<T>(e: Entry<T>, es: seq<Entry<T>>)
    requires SortedKeys(es)
    requires forall i :: 0 <= i < |es| ==> es[i].key != e.key
    ensures SortedKeys(Insert(e, es))
  {
    if es != [] {
      if Less(e.key, es[0].key) {
        forall j | 0 < j < |es| ensures Less(e.key, es[j].key) {
          LessIsTransitive(e.key, es[0].key, es[j].key);
        }
      } else {
        LessIsTotal(e.key, es[0].key);
        InsertSorted(e, es[1..]);
        var rest := Insert(e, es[1..]);
        forall j | 0 <= j < |rest| ensures Less(es[0].key, rest[j].key) {
          InsertMember(e, es[1..], rest[j]);
        }
      }
    }
  }

  lemma SortSorts<T>(es: seq<Entry<T>>)
    requires DistinctKeys(es)
    ensures SortedKeys(SortByKey(es))
  {
    if es != [] {
      SortSorts(es[1..]);
      var rest := SortByKey(es[1..]);
      forall i | 0 <= i < |rest| ensures rest[i].key != es[0].key {
        SortMember(es[1..], rest[i]);
      }
      InsertSorted(es[0], rest);
    }
  }

  /** A set of entries has one ascending listing. */
  lemma SortedIsUnique<T>(a: seq<Entry<T>>, b: seq<Entry<T>>)
    requires SortedKeys(a) && SortedKeys(b)
    requires forall x :: x in a <==> x in b
    ensures a == b
  {
    assert a != [] ==> a[0] in b;
    assert b != [] ==> b[0] in a;
    if a != [] {
      if a[0] != b[0] {
        LessIsAsymmetric(a[0].key, b[0].key);
      }
      forall x ensures x in a[1..] <==> x in b[1..] {
        TailMembers(a, x);
        TailMembers(b, x);
      }
      SortedIsUnique(a[1..], b[1..]);
      assert a == [a[0]] + a[1..] && b == [b[0]] + b[1..];
    }
  }

  lemma TailMembers<T>(es: seq<Entry<T>>, x: Entry<T>)
    requires SortedKeys(es) && es != []
    ensures x in es[1..] <==> x in es && x != es[0]
  {
    if x in es[1..] {
      var i :| 0 < i < |es| && es[i] == x;
      LessIsAsymmetric(es[0].key, es[i].key);
    }
  }

  // -------------------------------------------------------------------------
  // String literals, escaped as section 7 of RFC 8259 allows
  // -------------------------------------------------------------------------

  function HexChar(d: nat): char
    requires d < 16
  {
    if d < 10 then ('0' as int + d) as char else ('a' as int + d - 10) as char
  }

  function HexValue(c: char): Option<nat> {
    if '0' <= c <= '9' then Some(c as int - '0' as int)
    else if 'a' <= c <= 'f' then Some(c as int - 'a' as int + 10)
    else if 'A' <= c <= 'F' then Some(c as int - 'A' as int + 10)
    else None
  }

  const BACKSPACE: char := '\U{08}'
  const FORM_FEED: char := '\U{0C}'

  function EscapeChar(c: char): string {
    if c == '\"' then "\\\""
    else if c == '\\' then "\\\\"
    else if c == BACKSPACE then "\\b"
    else if c == FORM_FEED then "\\f"
    else if c == '\n' then "\\n"
    else if c == '\r' then "\\r"
    else if c == '\t' then "\\t"
    else if c as int < 0x20 then "\\u00" + [HexChar(c as int / 16), HexChar(c as int % 16)]
    else [c]
  }

  function EscapeAll(s: string): string {
    if s == [] then "" else EscapeChar(s[0]) + EscapeAll(s[1..])
  }

  function Quote(s: string): string {
    "\"" + EscapeAll(s) + "\""
  }

  // -------------------------------------------------------------------------
  // The canonical printer
  // -------------------------------------------------------------------------

  function Join(parts: seq<string>, separator: string): string {
    if parts == [] then ""
    else if |parts| == 1 then parts[0]
    else parts[0] + separator + Join(parts[1..], separator)
  }

  function PrintInt(n: int): string {
    if n < 0 then "-" + Decimal.Print(-n) else Decimal.Print(n)
  }

  function CanonicalizeValue(v: Value): string {
    match v
    case Null => "null"
    case Bool(b) => if b then "true" else "false"
    case Number(n) => PrintInt(n)
    case Str(s) => Quote(s)
    case Array(items) => "[" + Join(CanonicalizeItems(items), ",") + "]"
    case Object(fields) => "{" + Join(MemberTexts(SortByKey(CanonicalizeFields(fields))), ",") + "}"
  }

  function CanonicalizeItems(items: seq<Value>): seq<string> {
    if items == [] then [] else [CanonicalizeValue(items[0])] + CanonicalizeItems(items[1..])
  }

  /** The text of each member value. The entries are put in key order afterwards. */
  function CanonicalizeFields(fields: seq<Entry<Value>>): seq<Entry<string>> {
    if fields == [] then []
    else [Entry(fields[0].key, CanonicalizeValue(fields[0].value))] + CanonicalizeFields(fields[1..])
  }

  function MemberTexts(es: seq<Entry<string>>): seq<string> {
    if es == [] then [] else [Quote(es[0].key) + ":" + es[0].value] + MemberTexts(es[1..])
  }

  function RemoveKey(fields: seq<Entry<Value>>, key: string): seq<Entry<Value>> {
    if fields == [] then []
    else if fields[0].key == key then RemoveKey(fields[1..], key)
    else [fields[0]] + RemoveKey(fields[1..], key)
  }

  function ManifestWithoutSignature(manifest: Value): Result<Value, string> {
    if manifest.Object? then Ok(Object(RemoveKey(manifest.fields, "signature")))
    else Err("Extension manifest must be an object")
  }

  function CanonicalizeManifest(manifest: Value): Result<string, string> {
    match ManifestWithoutSignature(manifest)
    case Ok(unsigned) => Ok(CanonicalizeValue(unsigned))
    case Err(message) => Err(message)
  }

  // -------------------------------------------------------------------------
  // A parser of JSON text without white space
  // -------------------------------------------------------------------------

  /** The rest of a string literal, after its opening quote. */
  function ParseChars(t: string): (r: Option<(string, string)>)
    ensures r.Some? ==> |r.value.1| < |t|
  {
    if t == [] then None
    else if t[0] == '\"' then Some(("", t[1..]))
    else if t[0] == '\\' then
      match ParseEscape(t[1..])
      case None => None
      case Some((c, rest)) => ConsChar(c, ParseChars(rest))
    else if t[0] as int < 0x20 then None
    else ConsChar(t[0], ParseChars(t[1..]))
  }

  function ConsChar(c: char, r: Option<(string, string)>): Option<(string, string)> {
    if r.Some? then Some(([c] + r.value.0, r.value.1)) else None
  }

  function ParseEscape(t: string): (r: Option<(char, string)>)
    ensures r.Some? ==> |r.value.1| < |t|
  {
    if t == [] then None
    else if t[0] == '\"' || t[0] == '\\' || t[0] == '/' then Some((t[0], t[1..]))
    else if t[0] == 'b' then Some((BACKSPACE, t[1..]))
    else if t[0] == 'f' then Some((FORM_FEED, t[1..]))
    else if t[0] == 'n' then Some(('\n', t[1..]))
    else if t[0] == 'r' then Some(('\r', t[1..]))
    else if t[0] == 't' then Some(('\t', t[1..]))
    else if t[0] == 'u' && |t| >= 5 then
      match (HexValue(t[1]), HexValue(t[2]), HexValue(t[3]), HexValue(t[4]))
      case (Some(a), Some(b), Some(c), Some(d)) =>
        var code := 4096 * a + 256 * b + 16 * c + d;
        if code < 0xD800 then Some((code as char, t[5..])) else None
      case _ => None
    else None
  }

  function ParseNumber(t: string, sign: int): (r: Option<(Value, string)>)
    ensures r.Some? ==> |r.value.1| < |t|
  {
    var n := Decimal.DigitPrefix(t);
    if n == 0 then None else Some((Number(sign * Decimal.Read(t[..n])), t[n..]))
  }

  function ParseWord(t: string, word: string, v: Value): (r: Option<(Value, string)>)
    requires word != []
    ensures r.Some? ==> |r.value.1| < |t|
  {
    if word <= t then Some((v, t[|word|..])) else None
  }

  function ParseValue(t: string): (r: Option<(Value, string)>)
    ensures r.Some? ==> |r.value.1| < |t|
    decreases |t|, 0
  {
    if t == [] then None
    else if t[0] == 'n' then ParseWord(t, "null", Null)
    else if t[0] == 't' then ParseWord(t, "true", Bool(true))
    else if t[0] == 'f' then ParseWord(t, "false", Bool(false))
    else if t[0] == '\"' then
      match ParseChars(t[1..])
      case None => None
      case Some((s, rest)) => Some((Str(s), rest))
    else if t[0] == '-' then ParseNumber(t[1..], -1)
    else if t[0] == '[' then
      if |t| > 1 && t[1] == ']' then Some((Array([]), t[2..]))
      else
        match ParseItems(t[1..])
        case None => None
        case Some((items, rest)) => Some((Array(items), rest))
    else if t[0] == '{' then
      if |t| > 1 && t[1] == '}' then Some((Object([]), t[2..])) else AsObject(ParseFields(t[1..]))
    else ParseNumber(t, 1)
  }

  function AsObject(r: Option<(seq<Entry<Value>>, string)>): Option<(Value, string)> {
    if r.Some? then Some((Object(r.value.0), r.value.1)) else None
  }

  function ParseItems(t: string): (r: Option<(seq<Value>, string)>)
    ensures r.Some? ==> |r.value.1| < |t|
    decreases |t|, 1
  {
    match ParseValue(t)
    case None => None
    case Some((v, rest)) =>
      if rest == [] then None
      else if rest[0] == ']' then Some(([v], rest[1..]))
      else if rest[0] == ',' then
        match ParseItems(rest[1..])
        case None => None
        case Some((items, end)) => Some(([v] + items, end))
      else None
  }

  function ParseFields(t: string): (r: Option<(seq<Entry<Value>>, string)>)
    ensures r.Some? ==> |r.value.1| < |t|
    decreases |t|, 1
  {
    if t == [] || t[0] != '\"' then None
    else
      match ParseChars(t[1..])
      case None => None
      case Some((key, colon)) =>
        if colon == [] || colon[0] != ':' then None
        else
          match ParseValue(colon[1..])
          case None => None
          case Some((v, rest)) =>
            if rest == [] then None
            else if rest[0] == '}' then Some(([Entry(key, v)], rest[1..]))
            else if rest[0] == ',' then
              match ParseFields(rest[1..])
              case None => None
              case Some((fields, end)) => Some(([Entry(key, v)] + fields, end))
            else None
  }

  /** Reads a whole text as one value. */
  function Parse(t: string): Option<Value> {
    match ParseValue(t)
    case Some((v, rest)) => if rest == [] then Some(v) else None
    case None => None
  }

  // -------------------------------------------------------------------------
  // Printing in the order the members are listed, in front of a given tail
  // -------------------------------------------------------------------------

  ghost function EmitChars(s: string, tail: string): string {
    if s == [] then tail else EscapeChar(s[0]) + EmitChars(s[1..], tail)
  }

  ghost function EmitString(s: string, tail: string): string {
    "\"" + EmitChars(s, "\"" + tail)
  }

  ghost function Emit(v: Value, tail: string): string {
    match v
    case Null => "null" + tail
    case Bool(b) => (if b then "true" else "false") + tail
    case Number(n) => PrintInt(n) + tail
    case Str(s) => EmitString(s, tail)
    case Array(items) => "[" + EmitItems(items, "]" + tail)
    case Object(fields) => "{" + EmitFields(fields, "}" + tail)
  }

  ghost function EmitItems(items: seq<Value>, end: string): string {
    if items == [] then end
    else Emit(items[0], if |items| == 1 then end else "," + EmitItems(items[1..], end))
  }

  ghost function EmitFields(fields: seq<Entry<Value>>, end: string): string {
    if fields == [] then end
    else EmitString(fields[0].key, ":" + Emit(fields[0].value,
      if |fields| == 1 then end else "," + EmitFields(fields[1..], end)))
  }

  lemma ParseEscapedChar(c: char, rest: string)
    ensures ParseChars(EscapeChar(c) + rest) == ConsChar(c, ParseChars(rest))
  {
    var t := EscapeChar(c) + rest;
    if |EscapeChar(c)| == 2 {
      assert t[1..] == [EscapeChar(c)[1]] + rest;
      assert t[1..][1..] == rest;
    } else if |EscapeChar(c)| == 6 {
      assert t[1..][5..] == rest;
      assert HexValue(t[1..][3]) == Some(c as int / 16) && HexValue(t[1..][4]) == Some(c as int % 16);
    } else {
      assert t[1..] == rest;
    }
  }

  lemma {:induction false} ParseEmittedChars(s: string, tail: string)
    ensures ParseChars(EmitChars(s, "\"" + tail)) == Some((s, tail))
  {
    if s == [] {
      assert ("\"" + tail)[1..] == tail;
    } else {
      ParseEmittedChars(s[1..], tail);
      ParseEscapedChar(s[0], EmitChars(s[1..], "\"" + tail));
      assert [s[0]] + s[1..] == s;
    }
  }

  ghost predicate EndsNumber(tail: string) {
    tail == [] || !Decimal.IsDigit(tail[0])
  }

  lemma DigitStartsNumber(t: string)
    requires t != [] && Decimal.IsDigit(t[0])
    ensures ParseValue(t) == ParseNumber(t, 1)
  {
  }

  lemma MinusStartsNumber(t: string)
    requires t != [] && t[0] == '-'
    ensures ParseValue(t) == ParseNumber(t[1..], -1)
  {
  }

  lemma ParsePrintedDigits(n: nat, tail: string, sign: int)
    requires EndsNumber(tail)
    ensures ParseNumber(Decimal.Print(n) + tail, sign) == Some((Number(sign * n), tail))
  {
    Decimal.ReadPrint(n);
    Decimal.DigitPrefixOf(Decimal.Print(n), tail);
  }

  lemma ParseNatural(t: string, n: nat, tail: string)
    requires t == Decimal.Print(n) + tail && EndsNumber(tail)
    ensures ParseValue(t) == Some((Number(n), tail))
  {
    assert Decimal.IsDigit(t[0]);
    DigitStartsNumber(t);
    ParsePrintedDigits(n, tail, 1);
  }

  lemma ParseNegative(t: string, n: int, tail: string)
    requires n < 0 && t == "-" + Decimal.Print(-n) + tail && EndsNumber(tail)
    ensures ParseValue(t) == Some((Number(n), tail))
  {
    assert t[1..] == Decimal.Print(-n) + tail;
    MinusStartsNumber(t);
    ParsePrintedDigits(-n, tail, -1);
  }

  lemma ParsePrintedInt(n: int, tail: string)
    requires EndsNumber(tail)
    ensures ParseValue(PrintInt(n) + tail) == Some((Number(n), tail))
  {
    if n < 0 {
      ParseNegative(PrintInt(n) + tail, n, tail);
    } else {
      ParseNatural(PrintInt(n) + tail, n, tail);
    }
  }

  lemma ParsePrintedWord(v: Value, tail: string)
    requires v.Null? || v.Bool?
    ensures ParseValue(Emit(v, tail)) == Some((v, tail))
  {
    var word := if v.Null? then "null" else if v.b then "true" else "false";
    assert Emit(v, tail) == word + tail;
    assert word <= word + tail && (word + tail)[|word|..] == tail;
  }

  lemma ParsePrintedString(s: string, tail: string)
    ensures ParseValue(EmitString(s, tail)) == Some((Str(s), tail))
  {
    var t := EmitString(s, tail);
    assert t[0] == '\"' && t[1..] == EmitChars(s, "\"" + tail);
    ParseEmittedChars(s, tail);
  }

  /** Reading undoes printing, whatever follows. */
  lemma {:induction false} ParseEmitted(v: Value, tail: string)
    requires EndsNumber(tail)
    ensures ParseValue(Emit(v, tail)) == Some((v, tail))
    decreases v, 0
  {
    match v
    case Null => ParsePrintedWord(v, tail);
    case Bool(_) => ParsePrintedWord(v, tail);
    case Number(n) => ParsePrintedInt(n, tail);
    case Str(s) => ParsePrintedString(s, tail);
    case Array(items) => ParseEmittedArray(items, tail);
    case Object(fields) => ParseEmittedObject(fields, tail);
  }

  lemma {:induction false} ParseEmittedArray(items: seq<Value>, tail: string)
    ensures ParseValue(Emit(Array(items), tail)) == Some((Array(items), tail))
    decreases items, 2
  {
    var t := Emit(Array(items), tail);
    assert t[0] == '[' && t[1..] == EmitItems(items, "]" + tail);
    if items == [] {
      assert t[1] == ']' && t[2..] == tail;
    } else {
      EmitStart(items[0], if |items| == 1 then "]" + tail else "," + EmitItems(items[1..], "]" + tail));
      assert t[1] == EmitItems(items, "]" + tail)[0];
      ParseEmittedItems(items, tail);
    }
  }

  lemma {:induction false} ParseEmittedObject(fields: seq<Entry<Value>>, tail: string)
    ensures ParseValue(Emit(Object(fields), tail)) == Some((Object(fields), tail))
    decreases fields, 2
  {
    var t, end := Emit(Object(fields), tail), "}" + tail;
    if fields == [] {
      assert EmitFields(fields, end) == end;
      assert t == "{" + end;
      assert t[1] == '}' && t[2..] == tail;
    } else {
      var inner := EmitFields(fields, end);
      assert t == "{" + inner;
      assert t[1..] == inner && inner[0] == '\"';
      ParseEmittedFields(fields, tail);
      BraceStartsObject(t);
    }
  }

  lemma BraceStartsObject(t: string)
    requires |t| > 1 && t[0] == '{' && t[1] != '}'
    ensures ParseValue(t) == AsObject(ParseFields(t[1..]))
  {
    assert t[0] != 'n' && t[0] != 't' && t[0] != 'f' && t[0] != '\"' && t[0] != '-' && t[0] != '[';
  }

  /** A printed value never starts with the bracket that would close an array. */
  lemma EmitStart(v: Value, tail: string)
    ensures Emit(v, tail) != [] && Emit(v, tail)[0] != ']'
  {
    if v.Number? {
      var digits := Decimal.Print(if v.n < 0 then -v.n else v.n);
      assert Decimal.IsDigit(digits[0]);
      assert Emit(v, tail)[0] == '-' || Emit(v, tail)[0] == digits[0];
    }
  }

  lemma {:induction false} ParseEmittedItems(items: seq<Value>, tail: string)
    requires items != []
    ensures ParseItems(EmitItems(items, "]" + tail)) == Some((items, tail))
    decreases items, 1
  {
    var end := "]" + tail;
    if |items| == 1 {
      ParseEmitted(items[0], end);
      assert end[1..] == tail && items == [items[0]];
    } else {
      var rest := "," + EmitItems(items[1..], end);
      ParseEmitted(items[0], rest);
      assert rest[1..] == EmitItems(items[1..], end);
      ParseEmittedItems(items[1..], tail);
      assert items == [items[0]] + items[1..];
    }
  }

  lemma {:induction false} ParseEmittedFields(fields: seq<Entry<Value>>, tail: string)
    requires fields != []
    ensures ParseFields(EmitFields(fields, "}" + tail)) == Some((fields, tail))
    decreases fields, 1
  {
    var end := "}" + tail;
    var rest := if |fields| == 1 then end else "," + EmitFields(fields[1..], end);
    var colon := ":" + Emit(fields[0].value, rest);
    var t := EmitFields(fields, end);
    assert t[1..] == EmitChars(fields[0].key, "\"" + colon);
    ParseEmittedChars(fields[0].key, colon);
    assert colon[1..] == Emit(fields[0].value, rest);
    ParseEmitted(fields[0].value, rest);
    if |fields| == 1 {
      assert end[1..] == tail && fields == [Entry(fields[0].key, fields[0].value)];
    } else {
      assert rest[1..] == EmitFields(fields[1..], end);
      ParseEmittedFields(fields[1..], tail);
      assert fields == [Entry(fields[0].key, fields[0].value)] + fields[1..];
    }
  }

  // -------------------------------------------------------------------------
  // What the canonical text determines
  // -------------------------------------------------------------------------

  /** The same value with the members of every object in key order. */
  ghost function Normal(v: Value): Value {
    match v
    case Array(items) => Array(NormalItems(items))
    case Object(fields) => Object(SortByKey(NormalFields(fields)))
    case _ => v
  }

  ghost function NormalItems(items: seq<Value>): (r: seq<Value>)
    ensures |r| == |items| && forall i :: 0 <= i < |r| ==> r[i] == Normal(items[i])
  {
    if items == [] then [] else [Normal(items[0])] + NormalItems(items[1..])
  }

  ghost function NormalFields(fields: seq<Entry<Value>>): (r: seq<Entry<Value>>)
    ensures |r| == |fields|
    ensures forall i :: 0 <= i < |r| ==> r[i] == Entry(fields[i].key, Normal(fields[i].value))
  {
    if fields == [] then []
    else [Entry(fields[0].key, Normal(fields[0].value))] + NormalFields(fields[1..])
  }

  ghost function Texts(fields: seq<Entry<Value>>): (r: seq<Entry<string>>) {
    if fields == [] then [] else [Entry(fields[0].key, Emit(fields[0].value, ""))] + Texts(fields[1..])
  }

  lemma EmitCharsTail(s: string, tail: string)
    ensures EmitChars(s, tail) == EscapeAll(s) + tail
  {
    if s != [] {
      EmitCharsTail(s[1..], tail);
    }
  }

  lemma EmitStringTail(s: string, tail: string)
    ensures EmitString(s, tail) == Quote(s) + tail
  {
    EmitCharsTail(s, "\"" + tail);
    Flatten("\"", EscapeAll(s), "\"", tail);
  }

  lemma Flatten<T>(a: seq<T>, b: seq<T>, c: seq<T>, d: seq<T>)
    ensures a + (b + (c + d)) == a + b + c + d
    ensures a + (b + (c + d)) == a + (b + c) + d
  {
  }

  lemma {:induction false} EmitTail(v: Value, tail: string)
    ensures Emit(v, tail) == Emit(v, "") + tail
    decreases v, 0
  {
    match v
    case Str(s) =>
      EmitStringTail(s, tail);
      EmitStringTail(s, "");
    case Array(items) =>
      EmitItemsTail(items, "]" + tail);
      EmitItemsTail(items, "]" + "");
    case Object(fields) =>
      EmitFieldsTail(fields, "}" + tail);
      EmitFieldsTail(fields, "}" + "");
    case _ =>
  }

  lemma {:induction false} EmitItemsTail(items: seq<Value>, end: string)
    ensures EmitItems(items, end) == EmitItems(items, "") + end
    decreases items, 1
  {
    if items != [] {
      EmitTail(items[0], end);
      if |items| > 1 {
        EmitItemsTail(items[1..], end);
        EmitTail(items[0], "," + EmitItems(items[1..], end));
        EmitTail(items[0], "," + EmitItems(items[1..], ""));
      }
    }
  }

  lemma {:induction false} EmitMemberTail(key: string, v: Value, rest: string, end: string)
    ensures EmitString(key, ":" + Emit(v, rest + end)) == EmitString(key, ":" + Emit(v, rest)) + end
    decreases v, 1
  {
    EmitTail(v, rest + end);
    EmitTail(v, rest);
    var text := Emit(v, "");
    EmitStringTail(key, ":" + (text + (rest + end)));
    EmitStringTail(key, ":" + (text + rest));
    Flatten(":", text, rest, end);
    Flatten([], Quote(key), ":" + (text + rest), end);
  }

  lemma {:induction false} EmitFieldsTail(fields: seq<Entry<Value>>, end: string)
    ensures EmitFields(fields, end) == EmitFields(fields, "") + end
    decreases fields, 1
  {
    if |fields| == 1 {
      EmitMemberTail(fields[0].key, fields[0].value, "", end);
      assert "" + end == end;
    } else if |fields| > 1 {
      EmitFieldsTail(fields[1..], end);
      var rest := "," + EmitFields(fields[1..], "");
      EmitMemberTail(fields[0].key, fields[0].value, rest, end);
      assert rest + end == "," + EmitFields(fields[1..], end);
    }
  }

  lemma InsertTexts(e: Entry<Value>, es: seq<Entry<Value>>)
    ensures Texts(Insert(e, es)) == Insert(Entry(e.key, Emit(e.value, "")), Texts(es))
  {
    if es != [] && !Less(e.key, es[0].key) {
      InsertTexts(e, es[1..]);
      assert ([es[0]] + Insert(e, es[1..]))[1..] == Insert(e, es[1..]);
    } else {
      assert ([e] + es)[1..] == es;
    }
  }

  lemma SortTexts(es: seq<Entry<Value>>)
    ensures Texts(SortByKey(es)) == SortByKey(Texts(es))
  {
    if es != [] {
      SortTexts(es[1..]);
      InsertTexts(es[0], SortByKey(es[1..]));
    }
  }

  lemma JoinFirst(first: string, later: seq<string>)
    ensures Join([first] + later, ",") == if later == [] then first else first + "," + Join(later, ",")
  {
    assert ([first] + later)[1..] == later;
  }

  lemma EmitMember(key: string, v: Value, rest: string)
    ensures EmitString(key, ":" + Emit(v, rest)) == Quote(key) + ":" + Emit(v, "") + rest
  {
    EmitTail(v, rest);
    EmitStringTail(key, ":" + Emit(v, rest));
    Flatten(Quote(key), ":", Emit(v, ""), rest);
  }

  lemma {:induction false} JoinedMembers(fields: seq<Entry<Value>>)
    ensures Join(MemberTexts(Texts(fields)), ",") == EmitFields(fields, "")
    ensures |MemberTexts(Texts(fields))| == |fields|
  {
    if fields != [] {
      var key, v := fields[0].key, fields[0].value;
      var first, later := Quote(key) + ":" + Emit(v, ""), MemberTexts(Texts(fields[1..]));
      JoinedMembers(fields[1..]);
      JoinFirst(first, later);
      assert MemberTexts(Texts(fields)) == [first] + later;
      EmitMember(key, v, if |fields| == 1 then "" else "," + EmitFields(fields[1..], ""));
    }
  }

  lemma {:induction false} JoinedItems(items: seq<Value>)
    ensures Join(CanonicalizeItems(items), ",") == EmitItems(NormalItems(items), "")
    decreases items, 1
  {
    if items != [] {
      CanonicalIsEmitted(items[0]);
      JoinedItems(items[1..]);
      var normal := NormalItems(items);
      assert normal[1..] == NormalItems(items[1..]);
      EmitTail(normal[0], "," + EmitItems(normal[1..], ""));
      assert CanonicalizeItems(items)[1..] == CanonicalizeItems(items[1..]);
      assert |items| > 1 ==> |CanonicalizeItems(items[1..])| > 0;
    }
  }

  lemma {:induction false} CanonicalFields(fields: seq<Entry<Value>>)
    ensures CanonicalizeFields(fields) == Texts(NormalFields(fields))
    decreases fields, 1
  {
    if fields != [] {
      CanonicalIsEmitted(fields[0].value);
      CanonicalFields(fields[1..]);
      assert NormalFields(fields)[1..] == NormalFields(fields[1..]);
    }
  }

  /** The printer prints the normal form of its argument. */
  lemma {:induction false} CanonicalIsEmitted(v: Value)
    ensures CanonicalizeValue(v) == Emit(Normal(v), "")
    decreases v, 0
  {
    match v
    case Str(s) => EmitStringTail(s, "");
    case Array(items) =>
      JoinedItems(items);
      EmitItemsTail(NormalItems(items), "]" + "");
    case Object(fields) =>
      CanonicalFields(fields);
      SortTexts(NormalFields(fields));
      JoinedMembers(SortByKey(NormalFields(fields)));
      EmitFieldsTail(SortByKey(NormalFields(fields)), "}" + "");
    case _ =>
  }

  /** The parser undoes the printer, up to the order of members. */
  lemma ParseCanonical(v: Value)
    ensures Parse(CanonicalizeValue(v)) == Some(Normal(v))
  {
    CanonicalIsEmitted(v);
    ParseEmitted(Normal(v), "");
  }

  /** A map has one value a key, at every depth. */
  ghost predicate ValidValue(v: Value) {
    match v
    case Array(items) => forall i :: 0 <= i < |items| ==> ValidValue(items[i])
    case Object(fields) =>
      DistinctKeys(fields) && forall i :: 0 <= i < |fields| ==> ValidValue(fields[i].value)
    case _ => true
  }

  ghost predicate HasKey<T>(fields: seq<Entry<T>>, key: string) {
    exists i :: 0 <= i < |fields| && fields[i].key == key
  }

  /** The same JSON value: equal lists, and maps with the same keys and the same value at each key. */
  ghost predicate SameValue(v: Value, w: Value) {
    match (v, w)
    case (Array(a), Array(b)) =>
      |a| == |b| && forall i :: 0 <= i < |a| ==> SameValue(a[i], b[i])
    case (Object(f), Object(g)) =>
      && (forall i :: 0 <= i < |f| ==> HasKey(g, f[i].key))
      && (forall j :: 0 <= j < |g| ==> HasKey(f, g[j].key))
      && (forall i, j :: 0 <= i < |f| && 0 <= j < |g| && f[i].key == g[j].key
                         ==> SameValue(f[i].value, g[j].value))
    case _ => v == w
  }

  lemma SameSorted<T(!new)>(a: seq<Entry<T>>, b: seq<Entry<T>>)
    requires DistinctKeys(a) && DistinctKeys(b)
    ensures SortByKey(a) == SortByKey(b) <==> Within(a, b) && Within(b, a)
  {
    SortSorts(a);
    SortSorts(b);
    forall x ensures (x in SortByKey(a) <==> x in a) && (x in SortByKey(b) <==> x in b) {
      SortMember(a, x);
      SortMember(b, x);
    }
    if Within(a, b) && Within(b, a) {
      SortedIsUnique(SortByKey(a), SortByKey(b));
    }
  }

  lemma {:induction false} SameNormal(v: Value, w: Value)
    requires ValidValue(v) && ValidValue(w)
    ensures SameValue(v, w) <==> Normal(v) == Normal(w)
  {
    match (v, w) {
      case (Array(a), Array(b)) =>
        if |a| == |b| {
          forall i | 0 <= i < |a| ensures SameValue(a[i], b[i]) <==> Normal(a[i]) == Normal(b[i]) {
            SameNormal(a[i], b[i]);
          }
        }
      case (Object(f), Object(g)) =>
        forall i, j | 0 <= i < |f| && 0 <= j < |g|
          ensures SameValue(f[i].value, g[j].value) <==> Normal(f[i].value) == Normal(g[j].value)
        {
          SameNormal(f[i].value, g[j].value);
        }
        SameFields(f, g, NormalFields(f), NormalFields(g));
        SameSorted(NormalFields(f), NormalFields(g));
      case _ =>
    }
  }

  ghost predicate Within<T(!new)>(a: seq<Entry<T>>, b: seq<Entry<T>>) {
    forall x :: x in a ==> x in b
  }

  ghost predicate SameKeysInOrder<S, T>(a: seq<Entry<S>>, b: seq<Entry<T>>) {
    |a| == |b| && forall i :: 0 <= i < |a| ==> a[i].key == b[i].key
  }

  /** Two objects are the same value exactly when they have the same entries; `a` and `b` hold their normal values. */
  lemma SameFields(f: seq<Entry<Value>>, g: seq<Entry<Value>>, a: seq<Entry<Value>>, b: seq<Entry<Value>>)
    requires DistinctKeys(f) && DistinctKeys(g) && SameKeysInOrder(f, a) && SameKeysInOrder(g, b)
    requires forall i, j :: 0 <= i < |f| && 0 <= j < |g| ==>
      (SameValue(f[i].value, g[j].value) <==> a[i].value == b[j].value)
    ensures SameValue(Object(f), Object(g)) <==> Within(a, b) && Within(b, a)
  {
    if SameValue(Object(f), Object(g)) {
      FieldsWithin(f, g, a, b);
      FieldsWithin(g, f, b, a);
    }
    if Within(a, b) && Within(b, a) {
      KeysWithin(f, g, a, b);
      KeysWithin(g, f, b, a);
      forall i, j | 0 <= i < |f| && 0 <= j < |g| && f[i].key == g[j].key
        ensures SameValue(f[i].value, g[j].value)
      {
        SameMember(a, b, i, j);
      }
    }
  }

  lemma KeysWithin(f: seq<Entry<Value>>, g: seq<Entry<Value>>, a: seq<Entry<Value>>, b: seq<Entry<Value>>)
    requires SameKeysInOrder(f, a) && SameKeysInOrder(g, b) && Within(a, b)
    ensures forall i :: 0 <= i < |f| ==> HasKey(g, f[i].key)
  {
    forall i | 0 <= i < |f| ensures HasKey(g, f[i].key) {
      assert a[i] in b;
      var j :| 0 <= j < |b| && b[j] == a[i];
      assert g[j].key == f[i].key;
    }
  }

  lemma SameMember(a: seq<Entry<Value>>, b: seq<Entry<Value>>, i: nat, j: nat)
    requires DistinctKeys(b) && i < |a| && j < |b| && a[i].key == b[j].key && Within(a, b)
    ensures a[i] == b[j]
  {
    assert a[i] in b;
    var k :| 0 <= k < |b| && b[k] == a[i];
    assert b[k].key == b[j].key;
  }

  lemma FieldsWithin(f: seq<Entry<Value>>, g: seq<Entry<Value>>, a: seq<Entry<Value>>, b: seq<Entry<Value>>)
    requires SameKeysInOrder(f, a) && SameKeysInOrder(g, b)
    requires forall i :: 0 <= i < |f| ==> HasKey(g, f[i].key)
    requires forall i, j :: 0 <= i < |a| && 0 <= j < |b| && a[i].key == b[j].key ==> a[i] == b[j]
    ensures Within(a, b)
  {
    forall x | x in a ensures x in b {
      var i :| 0 <= i < |a| && a[i] == x;
      var j :| 0 <= j < |g| && g[j].key == f[i].key;
      assert b[j] == x;
    }
  }

  /** Two values print alike exactly when they are the same value, whatever the order of members. */
  lemma CanonicalDecidesSameValue(v: Value, w: Value)
    requires ValidValue(v) && ValidValue(w)
    ensures CanonicalizeValue(v) == CanonicalizeValue(w) <==> SameValue(v, w)
  {
    SameNormal(v, w);
    ParseCanonical(v);
    ParseCanonical(w);
    CanonicalIsEmitted(v);
    CanonicalIsEmitted(w);
  }

  lemma RemovedKey(fields: seq<Entry<Value>>, key: string)
    ensures forall x :: x in RemoveKey(fields, key) <==> x in fields && x.key != key
    ensures DistinctKeys(fields) ==> DistinctKeys(RemoveKey(fields, key))
  {
    if fields != [] {
      RemovedKey(fields[1..], key);
      var rest := RemoveKey(fields[1..], key);
      assert fields == [fields[0]] + fields[1..];
      if DistinctKeys(fields) {
        forall i | 0 <= i < |rest| ensures rest[i].key != fields[0].key {
          assert rest[i] in rest;
        }
      }
    }
  }

  /** The signed bytes say everything about a manifest but its `signature` member, and nothing else. */
  lemma ManifestTextIgnoresOnlySignature(m: Value, n: Value)
    requires m.Object? && n.Object? && ValidValue(m) && ValidValue(n)
    ensures CanonicalizeManifest(m) == CanonicalizeManifest(n) <==>
      SameValue(Object(RemoveKey(m.fields, "signature")), Object(RemoveKey(n.fields, "signature")))
  {
    RemovedKey(m.fields, "signature");
    RemovedKey(n.fields, "signature");
    ValidWithout(m.fields, "signature");
    ValidWithout(n.fields, "signature");
    CanonicalDecidesSameValue(Object(RemoveKey(m.fields, "signature")), Object(RemoveKey(n.fields, "signature")));
  }

  lemma ValidWithout(fields: seq<Entry<Value>>, key: string)
    requires ValidValue(Object(fields))
    ensures ValidValue(Object(RemoveKey(fields, key)))
  {
    RemovedKey(fields, key);
    var rest := RemoveKey(fields, key);
    forall i | 0 <= i < |rest| ensures ValidValue(rest[i].value) {
      assert rest[i] in rest;
      assert rest[i] in fields;
    }
  }
}
