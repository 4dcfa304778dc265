/** Flat JSON objects, as `json.dumps` prints them with the separators "," and ":" and as
    `json.loads` reads such a text. Non-ASCII characters are escaped, and those beyond the
    basic plane as a surrogate pair.
 */
module Json {
  import opened Entities
  import opened Text

  datatype Json = Str(text: string) | Num(value: int) | Null | Bool(truth: bool)

  datatype Read<+T> = Read(value: T, rest: string)

  // ---- characters ----

  function HexDigit(n: nat): (c: char)
    requires n < 16
  {
    "0123456789abcdef"[n]
  }

  function HexValue(c: char): Option<nat> {
    if '0' <= c <= '9' then Some(c as nat - '0' as nat)
    else if 'a' <= c <= 'f' then Some(c as nat - 'a' as nat + 10)
    else if 'A' <= c <= 'F' then Some(c as nat - 'A' as nat + 10)
    else None
  }

  function Hex4(n: nat): (s: string)
    requires n < 0x1_0000
    ensures |s| == 4
  {
    [HexDigit(n / 4096), HexDigit(n / 256 % 16), HexDigit(n / 16 % 16), HexDigit(n % 16)]
  }

  function ReadHex4(t: string): (v: Option<nat>)
    ensures v.Some? ==> |t| >= 4 && v.value < 0x1_0000
  {
    if |t| < 4 then None
    else
      var a, b, c, d := HexValue(t[0]), HexValue(t[1]), HexValue(t[2]), HexValue(t[3]);
      if a.None? || b.None? || c.None? || d.None? then None
      else Some(a.value * 4096 + b.value * 256 + c.value * 16 + d.value)
  }

  function ShortEscape(c: char): Option<char> {
    if c == '"' then Some('"')
    else if c == '\\' then Some('\\')
    else if c == '\n' then Some('n')
    else if c == '\r' then Some('r')
    else if c == '\t' then Some('t')
    else if c as int == 8 then Some('b')
    else if c as int == 12 then Some('f')
    else None
  }

  function ShortValue(e: char): Option<char> {
    if e == '"' || e == '\\' || e == '/' then Some(e)
    else if e == 'n' then Some('\n')
    else if e == 'r' then Some('\r')
    else if e == 't' then Some('\t')
    else if e == 'b' then Some(8 as char)
    else if e == 'f' then Some(12 as char)
    else None
  }

  function EscapeChar(c: char): string {
    if ShortEscape(c).Some? then ['\\', ShortEscape(c).value]
    else if ' ' <= c <= '~' then [c]
    else if c as int < 0x1_0000 then "\\u" + Hex4(c as nat)
    else
      var n := c as nat - 0x1_0000;
      "\\u" + Hex4(0xD800 + n / 1024) + "\\u" + Hex4(0xDC00 + n % 1024)
  }

  predicate Scalar(n: nat) { n < 0xD800 || 0xE000 <= n < 0x11_0000 }

  /** The character after `\u`. Half a surrogate pair is not a character of this model. */
  function ReadUnicode(t: string): Option<Read<char>> {
    match ReadHex4(t)
    case None => None
    case Some(n) =>
      if Scalar(n) then Some(Read(n as char, t[4..]))
      else if n < 0xDC00 && |t| >= 6 && t[4] == '\\' && t[5] == 'u' then
        match ReadHex4(t[6..])
        case None => None
        case Some(m) =>
          if 0xDC00 <= m < 0xE000 then Some(Read((0x1_0000 + (n - 0xD800) * 1024 + (m - 0xDC00)) as char, t[10..]))
          else None
      else None
  }

  // ---- strings ----

  function EscapeAll(s: string): string {
    if s == [] then [] else EscapeChar(s[0]) + EscapeAll(s[1..])
  }

  function PrintString(s: string): string { "\"" + EscapeAll(s) + "\"" }

  /** One character of a string literal, past its opening quote. */
  function ReadChar(t: string): (r: Option<Read<char>>)
    ensures r.Some? ==> |r.value.rest| < |t|
  {
    if t == [] || t[0] == '"' || t[0] < ' ' then None
    else if t[0] != '\\' then Some(Read(t[0], t[1..]))
    else if |t| < 2 then None
    else if t[1] == 'u' then ReadUnicode(t[2..])
    else if ShortValue(t[1]).Some? then Some(Read(ShortValue(t[1]).value, t[2..]))
    else None
  }

  /** The rest of a string literal, past its opening quote. */
  function ReadString(t: string): (r: Option<Read<string>>)
    ensures r.Some? ==> |r.value.rest| < |t|
    decreases |t|
  {
    if t != [] && t[0] == '"' then Some(Read([], t[1..]))
    else match ReadChar(t)
      case None => None
      case Some(c) =>
        match ReadString(c.rest)
        case None => None
        case Some(more) => Some(Read([c.value] + more.value, more.rest))
  }

  lemma HexReadsBack(n: nat)
    requires n < 16
    ensures HexValue(HexDigit(n)) == Some(n)
  {
  }

  lemma Hex4ReadsBack(n: nat, tail: string)
    requires n < 0x1_0000
    ensures ReadHex4(Hex4(n) + tail) == Some(n)
  {
    hide HexValue, HexDigit;
    var t := Hex4(n) + tail;
    assert t[..4] == Hex4(n) && t[0] == Hex4(n)[0] && t[1] == Hex4(n)[1] && t[2] == Hex4(n)[2] && t[3] == Hex4(n)[3];
    HexReadsBack(n / 4096);
    HexReadsBack(n / 256 % 16);
    HexReadsBack(n / 16 % 16);
    HexReadsBack(n % 16);
    FourDigits(n);
  }

  lemma FourDigits(n: nat)
    ensures n / 4096 * 4096 + n / 256 % 16 * 256 + n / 16 % 16 * 16 + n % 16 == n
  {
    assert n / 256 == n / 4096 * 16 + n / 256 % 16;
    assert n / 16 == n / 256 * 16 + n / 16 % 16;
  }

  lemma PairReadsBack(c: char, tail: string)
    requires c as int >= 0x1_0000
    ensures ReadChar(EscapeChar(c) + tail) == Some(Read(c, tail))
  {
    hide Hex4, ReadHex4;
    var n := c as nat - 0x1_0000;
    var high, low := 0xD800 + n / 1024, 0xDC00 + n % 1024;
    var second := "\\u" + Hex4(low) + tail;
    var t := EscapeChar(c) + tail;
    assert t[2..] == Hex4(high) + second;
    Hex4ReadsBack(high, second);
    assert t[2..][6..] == Hex4(low) + tail;
    Hex4ReadsBack(low, tail);
    assert t[2..][10..] == tail;
    assert 0x1_0000 + (high - 0xD800) * 1024 + (low - 0xDC00) == c as nat;
  }

  lemma CharReadsBack(c: char, tail: string)
    ensures ReadChar(EscapeChar(c) + tail) == Some(Read(c, tail))
  {
    hide Hex4, ReadHex4;
    var t := EscapeChar(c) + tail;
    if ShortEscape(c).Some? {
      assert t[2..] == tail;
    } else if ' ' <= c <= '~' {
      assert t[1..] == tail;
    } else if c as int < 0x1_0000 {
      assert t[2..] == Hex4(c as nat) + tail;
      Hex4ReadsBack(c as nat, tail);
      assert t[2..][4..] == tail;
    } else {
      PairReadsBack(c, tail);
    }
  }

  lemma EscapeDoesNotEnd(c: char)
    ensures EscapeChar(c) != [] && EscapeChar(c)[0] != '"'
  {
  }

  /** Every text is read back from its literal, whatever follows the closing quote. */
  lemma {:induction false} StringReadsBack(s: string, tail: string)
    ensures ReadString(EscapeAll(s) + "\"" + tail) == Some(Read(s, tail))
    decreases |s|
  {
    hide EscapeChar, ReadChar;
    var t := EscapeAll(s) + "\"" + tail;
    if s == [] {
      assert t[1..] == tail;
    } else {
      var more := EscapeAll(s[1..]) + "\"" + tail;
      assert t == EscapeChar(s[0]) + more;
      EscapeDoesNotEnd(s[0]);
      assert t[0] == EscapeChar(s[0])[0];
      CharReadsBack(s[0], more);
      StringReadsBack(s[1..], tail);
      assert [s[0]] + s[1..] == s;
    }
  }

  // ---- numbers ----

  function PrintInt(n: int): string {
    if n < 0 then "-" + Decimal(-n) else Decimal(n)
  }

  /** How many leading characters are digits. */
  function DigitRun(t: string): (n: nat)
    ensures n <= |t| && AllDigits(t[..n]) && (n < |t| ==> t[n] !in DIGITS)
  {
    if t == [] || t[0] !in DIGITS then 0
    else
      var more := DigitRun(t[1..]);
      assert t[..1 + more] == [t[0]] + t[1..][..more];
      1 + more
  }

  /** A number has no superfluous leading zero: after a first `0` the number ends. */
  function ReadNat(t: string): (r: Option<Read<nat>>)
    ensures r.Some? ==> |r.value.rest| < |t|
  {
    var n := DigitRun(t);
    if n == 0 then None
    else if t[0] == '0' then Some(Read(0, t[1..]))
    else Some(Read(DecimalValue(t[..n]), t[n..]))
  }

  function ReadInt(t: string): (r: Option<Read<int>>)
    ensures r.Some? ==> |r.value.rest| < |t|
  {
    if t != [] && t[0] == '-' then
      match ReadNat(t[1..])
      case None => None
      case Some(n) =>
        var value: int := n.value;
        Some(Read(-value, n.rest))
    else
      match ReadNat(t)
      case None => None
      case Some(n) => Some(Read(n.value, n.rest))
  }

  predicate EndsNumber(tail: string) {
    tail != [] && tail[0] !in DIGITS
  }

  lemma {:induction false} DigitRunStops(d: string, tail: string)
    requires AllDigits(d) && EndsNumber(tail)
    ensures DigitRun(d + tail) == |d|
    decreases |d|
  {
    if d == [] {
      assert d + tail == tail;
    } else {
      assert (d + tail)[1..] == d[1..] + tail;
      DigitRunStops(d[1..], tail);
    }
  }

  lemma NatReadsBack(n: nat, tail: string)
    requires EndsNumber(tail)
    ensures ReadNat(Decimal(n) + tail) == Some(Read(n, tail))
  {
    hide DigitRun, DecimalValue;
    var d := Decimal(n);
    DigitRunStops(d, tail);
    assert (d + tail)[..|d|] == d && (d + tail)[|d|..] == tail;
    DecimalReadsBack(n);
    if n == 0 {
      assert d == "0";
    }
  }

  lemma NumberStarts(n: nat)
    ensures Decimal(n) != [] && Decimal(n)[0] in DIGITS && Decimal(n)[0] != '-'
  {
    assert Decimal(n)[0] in Decimal(n);
  }

  lemma IntReadsBack(n: int, tail: string)
    requires EndsNumber(tail)
    ensures ReadInt(PrintInt(n) + tail) == Some(Read(n, tail))
  {
    hide ReadNat, Decimal;
    var t := PrintInt(n) + tail;
    if n < 0 {
      assert t[0] == '-' && t[1..] == Decimal(-n) + tail;
      NatReadsBack(-n, tail);
    } else {
      NatReadsBack(n, tail);
      NumberStarts(n);
      assert t[0] == Decimal(n)[0];
    }
  }

  // ---- values and objects ----

  function PrintValue(v: Json): string {
    match v
    case Str(text) => PrintString(text)
    case Num(value) => PrintInt(value)
    case Null => "null"
    case Bool(truth) => if truth then "true" else "false"
  }

  function ReadValue(t: string): (r: Option<Read<Json>>)
    ensures r.Some? ==> |r.value.rest| < |t|
  {
    if t != [] && t[0] == '"' then
      match ReadString(t[1..])
      case None => None
      case Some(s) => Some(Read(Str(s.value), s.rest))
    else if "null" <= t then Some(Read(Null, t[4..]))
    else if "true" <= t then Some(Read(Bool(true), t[4..]))
    else if "false" <= t then Some(Read(Bool(false), t[5..]))
    else
      match ReadInt(t)
      case None => None
      case Some(n) => Some(Read(Num(n.value), n.rest))
  }

  lemma IntStarts(n: int)
    ensures PrintInt(n) != [] && (PrintInt(n)[0] == '-' || PrintInt(n)[0] in DIGITS)
  {
    hide Decimal;
    NumberStarts(if n < 0 then -n else n);
  }

  lemma NumReadsBack(n: int, tail: string)
    requires EndsNumber(tail)
    ensures ReadValue(PrintInt(n) + tail) == Some(Read(Num(n), tail))
  {
    hide ReadString, ReadInt, PrintInt;
    var t := PrintInt(n) + tail;
    IntReadsBack(n, tail);
    IntStarts(n);
    assert t[0] == PrintInt(n)[0];
    assert "null"[0] == 'n' && "true"[0] == 't' && "false"[0] == 'f';
  }

  lemma ValueReadsBack(v: Json, tail: string)
    requires EndsNumber(tail)
    ensures ReadValue(PrintValue(v) + tail) == Some(Read(v, tail))
  {
    hide ReadString, ReadInt, PrintInt, EscapeAll, EndsNumber;
    match v
    case Str(text) =>
      var t := PrintString(text) + tail;
      assert t[0] == '"' && t[1..] == EscapeAll(text) + "\"" + tail;
      StringReadsBack(text, tail);
    case Num(value) => NumReadsBack(value, tail);
    case Null => assert ("null" + tail)[4..] == tail;
    case Bool(truth) =>
      if truth {
        assert ("true" + tail)[0] == 't' && ("true" + tail)[4..] == tail;
      } else {
        assert ("false" + tail)[0] == 'f' && ("false" + tail)[5..] == tail;
      }
  }

  datatype Field = Field(key: string, value: Json)

  function PrintField(f: Field): string { PrintString(f.key) + ":" + PrintValue(f.value) }

  function PrintFields(fields: seq<Field>): string {
    if fields == [] then "}"
    else (if |fields| == 1 then PrintField(fields[0]) else PrintField(fields[0]) + ",") + PrintFields(fields[1..])
  }

  function PrintObject(fields: seq<Field>): string { "{" + PrintFields(fields) }

  function ReadField(t: string): (r: Option<Read<Field>>)
    ensures r.Some? ==> |r.value.rest| < |t|
  {
    if t == [] || t[0] != '"' then None
    else
      match ReadString(t[1..])
      case None => None
      case Some(key) =>
        if key.rest == [] || key.rest[0] != ':' then None
        else
          match ReadValue(key.rest[1..])
          case None => None
          case Some(v) => Some(Read(Field(key.value, v.value), v.rest))
  }

  /** One or more fields and the closing brace, which ends the document. */
  function ReadFields(t: string): Option<seq<Field>>
    decreases |t|
  {
    match ReadField(t)
    case None => None
    case Some(f) =>
      if f.rest == "}" then Some([f.value])
      else if f.rest == [] || f.rest[0] != ',' then None
      else
        match ReadFields(f.rest[1..])
        case None => None
        case Some(more) => Some([f.value] + more)
  }

  function ReadObject(t: string): Option<seq<Field>> {
    if t == [] || t[0] != '{' then None else if t == "{}" then Some([]) else ReadFields(t[1..])
  }

  lemma FieldReadsBack(f: Field, tail: string)
    requires EndsNumber(tail)
    ensures ReadField(PrintField(f) + tail) == Some(Read(f, tail))
  {
    hide ReadString, ReadValue, EscapeAll, PrintValue;
    var t := PrintField(f) + tail;
    var more := ":" + (PrintValue(f.value) + tail);
    assert t[1..] == EscapeAll(f.key) + "\"" + more;
    StringReadsBack(f.key, more);
    assert more[1..] == PrintValue(f.value) + tail;
    ValueReadsBack(f.value, tail);
  }

  lemma {:induction false} FieldsReadBack(fields: seq<Field>)
    requires fields != []
    ensures ReadFields(PrintFields(fields)) == Some(fields)
    decreases |fields|
  {
    hide PrintField, ReadField;
    var t := PrintFields(fields);
    if |fields| == 1 {
      assert fields[1..] == [] && t == PrintField(fields[0]) + "}";
      FieldReadsBack(fields[0], "}");
      assert fields == [fields[0]];
    } else {
      var tail := "," + PrintFields(fields[1..]);
      assert t == PrintField(fields[0]) + tail;
      assert tail[0] == ',' && tail[1..] == PrintFields(fields[1..]);
      FieldReadsBack(fields[0], tail);
      FieldsReadBack(fields[1..]);
      assert [fields[0]] + fields[1..] == fields;
    }
  }

  /** Every flat object is read back from its text. */
  lemma ObjectReadsBack(fields: seq<Field>)
    requires fields != []
    ensures ReadObject(PrintObject(fields)) == Some(fields)
  {
    FieldsReadBack(fields);
    assert PrintObject(fields)[1..] == PrintFields(fields);
    assert PrintFields(fields)[0] == '"';
    assert PrintObject(fields)[1] == '"';
  }

  /** `payload.get(key)`: of several fields with one name the last counts. */
  function Get(fields: seq<Field>, key: string): Json {
    if fields == [] then Null
    else if fields[|fields| - 1].key == key then fields[|fields| - 1].value
    else Get(fields[..|fields| - 1], key)
  }

  // ---- the text is ASCII ----

  predicate Ascii(s: string) {
    forall c <- s :: c as int < 128
  }

  lemma {:induction false} EscapesAreAscii(s: string)
    ensures Ascii(EscapeAll(s))
    decreases |s|
  {
    if s != [] {
      EscapesAreAscii(s[1..]);
      EscapeIsAscii(s[0]);
    }
  }

  lemma EscapeIsAscii(c: char)
    ensures Ascii(EscapeChar(c))
  {
    hide Hex4;
    forall n | 0 <= n < 0x1_0000 ensures Ascii(Hex4(n)) {
      HexIsAscii(n);
    }
  }

  lemma HexIsAscii(n: nat)
    requires n < 0x1_0000
    ensures Ascii(Hex4(n))
  {
  }

  lemma ValueIsAscii(v: Json)
    ensures Ascii(PrintValue(v))
  {
    match v
    case Str(text) => EscapesAreAscii(text);
    case Num(value) => DigitsAreAscii(PrintInt(value));
    case Null =>
    case Bool(_) =>
  }

  lemma DigitsAreAscii(s: string)
    requires forall c <- s :: c == '-' || c in DIGITS
    ensures Ascii(s)
  {
  }

  lemma {:induction false} ObjectIsAscii(fields: seq<Field>)
    ensures Ascii(PrintObject(fields))
    decreases |fields|
  {
    hide EscapeAll, PrintValue;
    if fields != [] {
      ObjectIsAscii(fields[1..]);
      EscapesAreAscii(fields[0].key);
      ValueIsAscii(fields[0].value);
      assert forall c <- PrintFields(fields[1..]) :: c in PrintObject(fields[1..]);
    }
  }
}
