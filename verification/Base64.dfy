/** The URL-safe base64 alphabet of section 5 of RFC 4648, printed and read in groups of
    four symbols, and the padding that cursors are stripped of.
 */
module Base64 {
  import opened Entities

  type Byte = b: nat | b < 256

  type Sextet = v: nat | v < 64

  function Symbol(v: Sextet): (c: char)
    ensures c != '='
  {
    if v < 26 then ('A' as int + v) as char
    else if v < 52 then ('a' as int + (v - 26)) as char
    else if v < 62 then ('0' as int + (v - 52)) as char
    else if v == 62 then '-'
    else '_'
  }

  predicate InAlphabet(c: char) {
    'A' <= c <= 'Z' || 'a' <= c <= 'z' || '0' <= c <= '9' || c == '-' || c == '_'
  }

  function Value(c: char): Sextet
    requires InAlphabet(c)
  {
    if 'A' <= c <= 'Z' then c as int - 'A' as int
    else if 'a' <= c <= 'z' then c as int - 'a' as int + 26
    else if '0' <= c <= '9' then c as int - '0' as int + 52
    else if c == '-' then 62
    else 63
  }

  lemma SymbolReadsBack(v: Sextet)
    ensures InAlphabet(Symbol(v)) && Value(Symbol(v)) == v
  {
  }

  // ---- printing: urlsafe_b64encode ----

  function Group(a: Byte, b: Byte, c: Byte): string {
    [Symbol(a / 4), Symbol(a % 4 * 16 + b / 16), Symbol(b % 16 * 4 + c / 64), Symbol(c % 64)]
  }

  function Encode(bytes: seq<Byte>): (s: string)
    ensures |s| % 4 == 0
  {
    match |bytes|
    case 0 => []
    case 1 => Group(bytes[0], 0, 0)[..2] + "=="
    case 2 => Group(bytes[0], bytes[1], 0)[..3] + "="
    case _ => Group(bytes[0], bytes[1], bytes[2]) + Encode(bytes[3..])
  }

  // ---- reading: urlsafe_b64decode of a text whose length is a multiple of four ----

  function First(s: string): Byte
    requires |s| >= 2 && InAlphabet(s[0]) && InAlphabet(s[1])
  {
    Value(s[0]) * 4 + Value(s[1]) / 16
  }

  function Second(s: string): Byte
    requires |s| >= 3 && InAlphabet(s[1]) && InAlphabet(s[2])
  {
    Value(s[1]) % 16 * 16 + Value(s[2]) / 4
  }

  function Third(s: string): Byte
    requires |s| >= 4 && InAlphabet(s[2]) && InAlphabet(s[3])
  {
    Value(s[2]) % 4 * 64 + Value(s[3])
  }

  /** A last group may end in one or two padding signs; what its unused bits say is ignored. */
  function Decode(s: string): Option<seq<Byte>> {
    if |s| == 0 then Some([])
    else if |s| < 4 || !InAlphabet(s[0]) || !InAlphabet(s[1]) then None
    else if |s| == 4 && s[2] == '=' && s[3] == '=' then Some([First(s)])
    else if !InAlphabet(s[2]) then None
    else if |s| == 4 && s[3] == '=' then Some([First(s), Second(s)])
    else if !InAlphabet(s[3]) then None
    else match Decode(s[4..])
      case None => None
      case Some(rest) => Some([First(s), Second(s), Third(s)] + rest)
  }

  lemma SextetsHoldBytes(a: Byte, b: Byte, c: Byte)
    ensures a / 4 * 4 + (a % 4 * 16 + b / 16) / 16 == a
    ensures (a % 4 * 16 + b / 16) % 16 * 16 + (b % 16 * 4 + c / 64) / 4 == b
    ensures (b % 16 * 4 + c / 64) % 4 * 64 + c % 64 == c
  {
    assert (a % 4 * 16 + b / 16) / 16 == a % 4;
    assert (a % 4 * 16 + b / 16) % 16 == b / 16;
    assert (b % 16 * 4 + c / 64) / 4 == b % 16;
    assert (b % 16 * 4 + c / 64) % 4 == c / 64;
  }

  lemma GroupReadsBack(a: Byte, b: Byte, c: Byte)
    ensures var s := Group(a, b, c);
      && (forall k :: 0 <= k < 4 ==> InAlphabet(s[k]))
      && First(s) == a && Second(s) == b && Third(s) == c
  {
    hide Symbol, InAlphabet, Value;
    SextetsHoldBytes(a, b, c);
    SymbolReadsBack(a / 4);
    SymbolReadsBack(a % 4 * 16 + b / 16);
    SymbolReadsBack(b % 16 * 4 + c / 64);
    SymbolReadsBack(c % 64);
  }

  lemma PadIsNoSymbol()
    ensures !InAlphabet('=')
  {
  }

  /** Every sequence of bytes, of whatever length, is read back from its encoding. */
  lemma {:induction false} DecodeInvertsEncode(bytes: seq<Byte>)
    ensures Decode(Encode(bytes)) == Some(bytes)
    decreases |bytes|
  {
    hide Symbol, Value, InAlphabet;
    match |bytes|
    case 0 =>
    case 1 =>
      GroupReadsBack(bytes[0], 0, 0);
      var s, g := Encode(bytes), Group(bytes[0], 0, 0);
      assert s[0] == g[0] && s[1] == g[1] && s[2] == '=' && s[3] == '=';
      assert bytes == [bytes[0]];
    case 2 =>
      GroupReadsBack(bytes[0], bytes[1], 0);
      var s, g := Encode(bytes), Group(bytes[0], bytes[1], 0);
      assert s[0] == g[0] && s[1] == g[1] && s[2] == g[2] && s[3] == '=';
      assert bytes == [bytes[0], bytes[1]];
      PadIsNoSymbol();
    case _ =>
      GroupReadsBack(bytes[0], bytes[1], bytes[2]);
      DecodeInvertsEncode(bytes[3..]);
      assert Encode(bytes)[4..] == Encode(bytes[3..]);
      assert bytes == [bytes[0], bytes[1], bytes[2]] + bytes[3..];
  }

  // ---- padding ----

  /** `rstrip("=")` */
  function Strip(s: string): string {
    if s != [] && s[|s| - 1] == '=' then Strip(s[..|s| - 1]) else s
  }

  /** `after + "=" * (-len(after) % 4)` */
  function Pad(s: string): string {
    s + seq((-|s|) % 4, _ => '=')
  }

  lemma {:induction false} StripOfSymbols(s: string, pads: nat)
    requires forall c <- s :: c != '='
    ensures Strip(s + seq(pads, _ => '=')) == s
    decreases pads
  {
    var t := s + seq(pads, _ => '=');
    if pads > 0 {
      assert t[..|t| - 1] == s + seq(pads - 1, _ => '=');
      StripOfSymbols(s, pads - 1);
    } else {
      assert t == s;
      if s != [] {
        assert s[|s| - 1] in s;
      }
    }
  }

  /** An encoding is symbols of the alphabet and then fewer padding signs than a group. */
  lemma {:induction false} EncodeIsSymbolsThenPads(bytes: seq<Byte>) returns (symbols: string, pads: nat)
    ensures forall c <- symbols :: InAlphabet(c)
    ensures pads < 3 && Encode(bytes) == symbols + seq(pads, _ => '=')
    ensures (|symbols| + pads) % 4 == 0
    ensures bytes != [] ==> symbols != []
    decreases |bytes|
  {
    hide Symbol, Value, InAlphabet, First, Second, Third;
    match |bytes|
    case 0 => symbols, pads := [], 0;
    case 1 =>
      GroupReadsBack(bytes[0], 0, 0);
      symbols, pads := Group(bytes[0], 0, 0)[..2], 2;
      assert seq(2, _ => '=') == "==";
    case 2 =>
      GroupReadsBack(bytes[0], bytes[1], 0);
      symbols, pads := Group(bytes[0], bytes[1], 0)[..3], 1;
      assert seq(1, _ => '=') == "=";
    case _ =>
      GroupReadsBack(bytes[0], bytes[1], bytes[2]);
      symbols, pads := EncodeIsSymbolsThenPads(bytes[3..]);
      var group := Group(bytes[0], bytes[1], bytes[2]);
      assert group + (symbols + seq(pads, _ => '=')) == (group + symbols) + seq(pads, _ => '=');
      symbols := group + symbols;
  }

  lemma PadsFromLength(symbols: int, pads: int)
    requires 0 <= symbols && 0 <= pads < 3 && (symbols + pads) % 4 == 0
    ensures (-symbols) % 4 == pads
  {
  }

  /** Stripping loses nothing: the padding is restored from the length alone, and what is
      left after stripping is a non-empty text of alphabet symbols. */
  lemma PadInvertsStrip(bytes: seq<Byte>)
    ensures Pad(Strip(Encode(bytes))) == Encode(bytes)
    ensures forall c <- Strip(Encode(bytes)) :: InAlphabet(c)
    ensures bytes != [] ==> Strip(Encode(bytes)) != []
  {
    hide Encode, InAlphabet;
    var symbols, pads := EncodeIsSymbolsThenPads(bytes);
    PadIsNoSymbol();
    StripOfSymbols(symbols, pads);
    PadsFromLength(|symbols|, pads);
  }
}
