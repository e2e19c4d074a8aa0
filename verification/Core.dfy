/** Octets, C strings, error codes and the decimal text conversions that every other module shares. */
module Core {

  // An octet.  Octets are characters below 256, so that C string literals are Dafny string literals.
  type byte = c: char | c as int < 256 witness '\0'

  type Bytes = seq<byte>

  const U8_MAX: int := 0xFF
  const U16_MAX: int := 0xFFFF
  const U32_MAX: int := 0xFFFF_FFFF
  const U64_MAX: int := 0xFFFF_FFFF_FFFF_FFFF

  const NAME_LENGTH: nat := 64
  const STATE_LENGTH: nat := 32
  const ADDRESS_LENGTH: nat := 64
  const ID_LENGTH: nat := 128
  const PROPOSAL_LENGTH: nat := 256
  const SELECTOR_LIST_LENGTH: nat := 512

  // The members of the library's error enumeration that the modelled code can produce.
  datatype Error =
    | Ok
    | InvalidArgument
    | NoMemory
    | ViciConnect
    | ViciTransport
    | ViciProtocol
    | ViciTimeout
    | ViciCommand
    | ConnectionNotFound
    | IkeFailed
    | ChildFailed
    | NetlinkRecv
    | NetlinkParse
    | FileOpen
    | FileRead
    | Permission
    | BufferTooSmall
    | NotSupported
    | Internal

  datatype Mode = Tunnel | Transport | Beet | Unknown

  // A C string's bytes.
  type CString = s: Bytes | '\0' !in s witness []

  datatype Option<+T> = None | Some(value: T)

  // ---------- C strings in fixed buffers

  /** What the string functions see of a buffer that holds `s` followed by a NUL. */
  function CText(s: Bytes): (r: Bytes)
    ensures r <= s
    ensures '\0' !in r
    ensures '\0' !in s ==> r == s
  {
    if s == [] || s[0] == '\0' then [] else [s[0]] + CText(s[1..])
  }

  /** `CopyIpsecString`: the new buffer text and the error. */
  function CopyText(capacity: nat, source: Bytes): (r: (Bytes, Error))
    requires 0 < capacity
    ensures r.1 == Ok <==> |source| < capacity
    ensures |r.0| < capacity && '\0' !in r.0
    ensures r.1 != Ok ==> r.0 == []
    ensures r.1 == Ok && '\0' !in source ==> r.0 == source
  {
    if |source| >= capacity then ([], BufferTooSmall) else (CText(source), Ok)
  }

  /** `AppendIpsecText`: the separator is written only behind a non-empty text. */
  function AppendText(capacity: nat, text: Bytes, value: Bytes, separator: Bytes): (r: (Bytes, Error))
    requires |text| < capacity
  {
    var joined := text + (if text == [] then [] else separator) + value;
    if |joined| < capacity then (CText(joined), Ok) else (text, BufferTooSmall)
  }

  // ---------- Big-endian 16 bit lengths

  function U16Bytes(n: nat): (r: Bytes)
    requires n <= U16_MAX
    ensures |r| == 2
  {
    [(n / 256) as char, (n % 256) as char]
  }

  function U16(high: byte, low: byte): (n: nat)
    ensures n <= U16_MAX
  {
    high as int * 256 + low as int
  }

  lemma {:induction false} U16RoundTrip(n: nat, high: byte, low: byte)
    ensures n <= U16_MAX ==> U16(U16Bytes(n)[0], U16Bytes(n)[1]) == n
    ensures U16Bytes(U16(high, low)) == [high, low]
  {
  }

  // ---------- Decimal text

  predicate IsDigit(c: char) {
    '0' <= c <= '9'
  }

  predicate AllDigits(s: string) {
    forall i :: 0 <= i < |s| ==> IsDigit(s[i])
  }

  /** `printf` of an unsigned number in base ten. */
  function Decimal(n: nat): (s: string)
    ensures 0 < |s| && AllDigits(s)
  {
    var last := [('0' as int + n % 10) as char];
    if n < 10 then last else Decimal(n / 10) + last
  }

  /** The number a digit string denotes, unbounded. */
  function DigitValue(s: string): nat
    requires AllDigits(s)
  {
    if s == [] then 0
    else DigitValue(s[..|s| - 1]) * 10 + (s[|s| - 1] as int - '0' as int)
  }

  lemma {:induction false} DecimalValue(n: nat)
    ensures DigitValue(Decimal(n)) == n
  {
    var s := Decimal(n);
    if n >= 10 {
      assert s[..|s| - 1] == Decimal(n / 10);
      DecimalValue(n / 10);
    } else {
      assert s[..0] == [];
    }
  }

  lemma {:induction false} DecimalLength(n: nat, digits: nat)
    requires n < Pow10(digits) && 0 < digits
    ensures |Decimal(n)| <= digits
  {
    if n >= 10 {
      assert digits > 1;
      DecimalLength(n / 10, digits - 1);
    }
  }

  function Pow10(k: nat): nat {
    if k == 0 then 1 else 10 * Pow10(k - 1)
  }

  // The whitespace of `isspace` in the C locale.
  predicate IsSpace(c: char) {
    c == ' ' || '\t' <= c <= '\r'
  }

  function DigitRun(s: string): (n: nat)
    ensures n <= |s| && AllDigits(s[..n])
    ensures n < |s| ==> !IsDigit(s[n])
  {
    if s == [] || !IsDigit(s[0]) then 0 else
      var n := 1 + DigitRun(s[1..]);
      assert s[..n] == [s[0]] + s[1..][..n - 1];
      n
  }

  function SpaceRun(s: string): (n: nat)
    ensures n <= |s|
    ensures forall i :: 0 <= i < n ==> IsSpace(s[i])
    ensures n < |s| ==> !IsSpace(s[n])
  {
    if s == [] || !IsSpace(s[0]) then 0 else 1 + SpaceRun(s[1..])
  }

  // The outcome of `strtoull` in base ten: the value, the number of characters taken, and ERANGE.
  // No conversion takes zero characters.
  datatype Number = Number(value: nat, taken: nat, outOfRange: bool)

  /** `strtoull(s, &end, 10)` on a C string: white space, an optional sign, digits.  A minus sign
      negates modulo 2^64, as the C standard requires. */
  function ParseUnsigned(s: string): (r: Number)
    ensures r.taken <= |s|
    ensures r.value <= U64_MAX
  {
    var spaces := SpaceRun(s);
    var sign := if spaces < |s| && (s[spaces] == '+' || s[spaces] == '-') then 1 else 0;
    var start := spaces + sign;
    var digits := DigitRun(s[start..]);
    if digits == 0 then Number(0, 0, false) else
      var magnitude := DigitValue(s[start..][..digits]);
      if magnitude > U64_MAX then Number(U64_MAX, start + digits, true)
      else if sign == 1 && s[spaces] == '-' then
        Number((U64_MAX + 1 - magnitude) % (U64_MAX + 1), start + digits, false)
      else Number(magnitude, start + digits, false)
  }

  /** Digits followed by something that is not a digit read as the number they denote, leading zeros or not. */
  lemma {:induction false} ParseDigits(d: string, rest: string)
    requires d != [] && AllDigits(d)
    requires rest == [] || !IsDigit(rest[0])
    ensures var r := ParseUnsigned(d + rest);
            && r.taken == |d|
            && (r.outOfRange <==> DigitValue(d) > U64_MAX)
            && (DigitValue(d) <= U64_MAX ==> r.value == DigitValue(d))
  {
    var s := d + rest;
    assert IsDigit(s[0]) by { assert s[0] == d[0]; }
    assert SpaceRun(s) == 0;
    assert s[0..] == s;
    DigitRunPrefix(d, rest);
    assert s[..|d|] == d;
  }

  datatype Sign = NoSign | Plus | Minus

  function SignText(sign: Sign): string {
    match sign
    case NoSign => ""
    case Plus => "+"
    case Minus => "-"
  }

  /** A minus sign negates modulo 2^64. */
  function Signed(sign: Sign, magnitude: nat): nat {
    if sign == Minus then (U64_MAX + 1 - magnitude) % (U64_MAX + 1) else magnitude
  }

  predicate AllSpace(s: string) {
    forall i :: 0 <= i < |s| ==> IsSpace(s[i])
  }

  /** White space, a sign and digits read as the number they denote. */
  lemma {:induction false} ParseNumeral(blank: string, sign: Sign, d: string, rest: string)
    requires AllSpace(blank) && d != [] && AllDigits(d)
    requires rest == [] || !IsDigit(rest[0])
    ensures var r := ParseUnsigned(blank + (SignText(sign) + (d + rest)));
            && r.taken == |blank| + |SignText(sign)| + |d|
            && (r.outOfRange <==> DigitValue(d) > U64_MAX)
            && (DigitValue(d) <= U64_MAX ==> r.value == Signed(sign, DigitValue(d)))
  {
    hide ParseUnsigned, DigitValue, SpaceRun, DigitRun;
    var more := SignText(sign) + (d + rest);
    var s, start := blank + more, |blank| + |SignText(sign)|;
    FirstOfNumeral(sign, d, rest);
    SpaceRunPrefix(blank, more);
    assert s[|blank|] == more[0];
    BehindSign(blank, SignText(sign), d + rest);
    DigitRunPrefix(d, rest);
    DigitsTaken(s, start, d, rest);
    ParsePieces(s, |blank|, sign, d);
  }

  lemma {:induction false} ParsePieces(s: string, spaces: nat, sign: Sign, d: string)
    requires SpaceRun(s) == spaces < |s| && (s[spaces] == '-' <==> sign == Minus) && (s[spaces] == '+' <==> sign == Plus)
    requires d != [] && AllDigits(d)
    requires var start := spaces + |SignText(sign)|; start <= |s| && DigitRun(s[start..]) == |d| && s[start..][..|d|] == d
    ensures var r := ParseUnsigned(s);
            && r.taken == spaces + |SignText(sign)| + |d|
            && (r.outOfRange <==> DigitValue(d) > U64_MAX)
            && (DigitValue(d) <= U64_MAX ==> r.value == Signed(sign, DigitValue(d)))
  {
    hide DigitValue, SpaceRun, DigitRun;
  }

  lemma {:induction false} FirstOfNumeral(sign: Sign, d: string, rest: string)
    requires d != [] && AllDigits(d)
    ensures var more := SignText(sign) + (d + rest);
            && more != [] && !IsSpace(more[0])
            && (more[0] == '-' <==> sign == Minus) && (more[0] == '+' <==> sign == Plus)
  {
    assert sign == NoSign ==> (SignText(sign) + (d + rest))[0] == d[0];
  }

  lemma {:induction false} DigitsTaken(s: string, start: nat, d: string, rest: string)
    requires start <= |s| && s[start..] == d + rest
    ensures s[start..][..|d|] == d && |s| == start + |d| + |rest|
  {
  }

  lemma {:induction false} BehindSign(blank: string, sign: string, rest: string)
    ensures (blank + (sign + rest))[|blank| + |sign|..] == rest
  {
  }

  lemma {:induction false} SpaceRunPrefix(blank: string, rest: string)
    requires AllSpace(blank) && rest != [] && !IsSpace(rest[0])
    ensures SpaceRun(blank + rest) == |blank|
  {
    if blank == [] {
      assert blank + rest == rest;
    } else {
      assert (blank + rest)[1..] == blank[1..] + rest;
      SpaceRunPrefix(blank[1..], rest);
    }
  }

  /** What `strtoull` has taken. */
  lemma {:induction false} NumeralOf(s: string) returns (blank: string, sign: Sign, d: string)
    requires ParseUnsigned(s).taken != 0
    ensures AllSpace(blank) && d != [] && AllDigits(d)
    ensures var r := ParseUnsigned(s);
            && s[..r.taken] == blank + (SignText(sign) + d)
            && (r.outOfRange <==> DigitValue(d) > U64_MAX)
            && (DigitValue(d) <= U64_MAX ==> r.value == Signed(sign, DigitValue(d)))
  {
    hide ParseUnsigned, DigitValue, SpaceRun, DigitRun;
    sign := SignOf(s);
    var spaces, start := SpaceRun(s), SpaceRun(s) + |SignText(sign)|;
    var digits := DigitRun(s[start..]);
    blank, d := s[..spaces], s[start..][..digits];
    ParsePieces(s, spaces, sign, d);
    CutTwice(s, spaces, start, start + digits);
  }

  lemma {:induction false} SignOf(s: string) returns (sign: Sign)
    requires ParseUnsigned(s).taken != 0
    ensures var spaces := SpaceRun(s);
            && spaces < |s| && (s[spaces] == '-' <==> sign == Minus) && (s[spaces] == '+' <==> sign == Plus)
            && spaces + |SignText(sign)| <= |s| && s[spaces..spaces + |SignText(sign)|] == SignText(sign)
            && DigitRun(s[spaces + |SignText(sign)|..]) != 0
  {
    hide DigitValue, SpaceRun, DigitRun;
    var spaces := SpaceRun(s);
    sign := if spaces < |s| && s[spaces] == '+' then Plus else if spaces < |s| && s[spaces] == '-' then Minus else NoSign;
  }

  lemma {:induction false} CutTwice(s: string, a: nat, b: nat, c: nat)
    requires a <= b <= c <= |s|
    ensures s[..c] == s[..a] + (s[a..b] + s[b..][..c - b])
  {
  }

  /** A printed number reads back. */
  lemma {:induction false} ParseDecimal(n: nat, rest: string)
    requires rest == [] || !IsDigit(rest[0])
    ensures var r := ParseUnsigned(Decimal(n) + rest);
            && r.taken == |Decimal(n)|
            && (r.outOfRange <==> n > U64_MAX)
            && (n <= U64_MAX ==> r.value == n)
  {
    ParseDigits(Decimal(n), rest);
    DecimalValue(n);
  }

  lemma {:induction false} DigitRunPrefix(d: string, rest: string)
    requires AllDigits(d)
    requires rest == [] || !IsDigit(rest[0])
    ensures DigitRun(d + rest) == |d|
  {
    if d == [] {
      assert d + rest == rest;
    } else {
      assert (d + rest)[1..] == d[1..] + rest;
      DigitRunPrefix(d[1..], rest);
    }
  }

  /** `ParseIpsecUint64` in base ten: the whole value must be one number of at most 63 characters. */
  function ReadUint64(value: Bytes): (r: (nat, Error))
    ensures r.1 == Ok ==> r.0 <= U64_MAX
  {
    if |value| == 0 || |value| >= 64 then (0, InvalidArgument) else
      var text := CText(value);
      var n := ParseUnsigned(text);
      if n.outOfRange || n.taken == 0 || n.taken != |text| then (0, ViciProtocol) else (n.value, Ok)
  }

  function ReadUint32(value: Bytes): (r: (nat, Error))
    ensures r.1 == Ok ==> r.0 <= U32_MAX
  {
    var (n, error) := ReadUint64(value);
    if error != Ok then (0, error) else if n > U32_MAX then (0, ViciProtocol) else (n, Ok)
  }

  /** A value that `strtoull` takes whole and that fits 32 bits. */
  function WholeUint32(text: string): Option<nat> {
    var n := ParseUnsigned(text);
    if n.outOfRange || n.taken == 0 || n.taken != |text| || n.value > U32_MAX then None else Some(n.value)
  }

  // ---------- Hexadecimal text

  function HexDigit(c: char): Option<nat> {
    if '0' <= c <= '9' then Some(c as int - '0' as int)
    else if 'a' <= c <= 'f' then Some(c as int - 'a' as int + 10)
    else if 'A' <= c <= 'F' then Some(c as int - 'A' as int + 10)
    else None
  }

  function HexRun(s: string): (n: nat)
    ensures n <= |s|
    ensures forall i :: 0 <= i < n ==> HexDigit(s[i]).Some?
  {
    if s == [] || HexDigit(s[0]).None? then 0 else 1 + HexRun(s[1..])
  }

  function HexValue(s: string): nat
    requires forall i :: 0 <= i < |s| ==> HexDigit(s[i]).Some?
  {
    if s == [] then 0 else HexValue(s[..|s| - 1]) * 16 + HexDigit(s[|s| - 1]).value
  }

  /** `ParseIpsecUint32` in base sixteen: `strtoull` takes white space, a sign and a 0x prefix too. */
  function ReadHex32(value: Bytes): (r: (nat, Error))
    ensures r.1 == Ok ==> r.0 <= U32_MAX
  {
    if |value| == 0 || |value| >= 64 then (0, InvalidArgument) else
      var text := CText(value);
      var spaces := SpaceRun(text);
      var sign := if spaces < |text| && (text[spaces] == '+' || text[spaces] == '-') then 1 else 0;
      var start := spaces + sign;
      var prefix := if start + 2 < |text| && text[start] == '0' && (text[start + 1] == 'x' || text[start + 1] == 'X')
                       && HexDigit(text[start + 2]).Some? then 2 else 0;
      var digits := HexRun(text[start + prefix..]);
      if digits == 0 || start + prefix + digits != |text| then (0, ViciProtocol) else
        var magnitude := HexValue(text[start + prefix..][..digits]);
        var n := if sign == 1 && text[spaces] == '-' then (U64_MAX + 1 - magnitude) % (U64_MAX + 1) else magnitude;
        if magnitude > U64_MAX || n > U32_MAX then (0, ViciProtocol) else (n, Ok)
  }
}
