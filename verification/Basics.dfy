/** Bytes, digests, machine integers and the small codecs every other module uses. */
module Basics {
  datatype Option<+T> = None | Some(value: T) {
    function GetOr(default: T): T { if Some? then value else default }
  }

  /** A failure-compatible result, the shape of the program's own error returns. */
  datatype Result<+T, +E> = Ok(value: T) | Err(error: E) {
    predicate IsFailure() { Err? }
    function PropagateFailure<U>(): Result<U, E> requires Err? { Err(error) }
    function Extract(): T requires Ok? { value }
  }

  const U16_LIMIT := 0x1_0000
  const U32_LIMIT := 0x1_0000_0000
  const U64_LIMIT := 0x1_0000_0000_0000_0000

  type byte = x: int | 0 <= x < 256
  type u16 = x: int | 0 <= x < 0x1_0000
  type u32 = x: int | 0 <= x < 0x1_0000_0000
  type u64 = x: int | 0 <= x < 0x1_0000_0000_0000_0000

  type Bytes = seq<byte>

  /** The output of SHA3-256 (FIPS 202). */
  type Digest = s: Bytes | |s| == 32 witness seq(32, _ => 0)

  /** SHA3-256 itself stays uninterpreted: every operation takes it as a value. */
  type HashFn = Bytes -> Digest

  const ZERO_DIGEST: Digest := [
    0, 0, 0, 0, 0, 0, 0, 0, 0, 0, 0, 0, 0, 0, 0, 0,
    0, 0, 0, 0, 0, 0, 0, 0, 0, 0, 0, 0, 0, 0, 0, 0]

  /** Two different inputs with one digest. */
  predicate Collide(h: HashFn, x: Bytes, y: Bytes) {
    x != y && h(x) == h(y)
  }

  /** Adding one to a u64, which wraps. */
  function Successor(n: u64): u64 { if n + 1 < U64_LIMIT then n + 1 else 0 }

  // ── Big-endian integers ───────────────────────────────────────────

  function U16Bytes(n: u16): (b: Bytes)
    ensures |b| == 2
  {
    [n / 256, n % 256]
  }

  function U32Bytes(n: u32): (b: Bytes)
    ensures |b| == 4
  {
    U16Bytes(n / U16_LIMIT) + U16Bytes(n % U16_LIMIT)
  }

  function U64Bytes(n: u64): (b: Bytes)
    ensures |b| == 8
  {
    U32Bytes(n / U32_LIMIT) + U32Bytes(n % U32_LIMIT)
  }

  function U16Value(b: Bytes): (n: u16)
    requires |b| == 2
  {
    (b[0] as int) * 256 + (b[1] as int)
  }

  function U32Value(b: Bytes): (n: u32)
    requires |b| == 4
  {
    (U16Value(b[..2]) as int) * U16_LIMIT + U16Value(b[2..])
  }

  function U64Value(b: Bytes): (n: u64)
    requires |b| == 8
  {
    (U32Value(b[..4]) as int) * U32_LIMIT + U32Value(b[4..])
  }

  lemma U16RoundTrip(n: u16)
    ensures U16Value(U16Bytes(n)) == n
  {
  }

  lemma U32RoundTrip(n: u32)
    ensures U32Value(U32Bytes(n)) == n
  {
    var b := U32Bytes(n);
    assert b[..2] == U16Bytes(n / U16_LIMIT) && b[2..] == U16Bytes(n % U16_LIMIT);
  }

  lemma U64RoundTrip(n: u64)
    ensures U64Value(U64Bytes(n)) == n
  {
    var b := U64Bytes(n);
    assert b[..4] == U32Bytes(n / U32_LIMIT) && b[4..] == U32Bytes(n % U32_LIMIT);
    U32RoundTrip(n / U32_LIMIT);
    U32RoundTrip(n % U32_LIMIT);
  }

  // ── Hexadecimal text ──────────────────────────────────────────────

  const HEX_DIGITS := "0123456789abcdef"

  function HexEncode(b: Bytes): (s: string)
    ensures |s| == 2 * |b|
  {
    if b == [] then "" else [HEX_DIGITS[b[0] / 16], HEX_DIGITS[b[0] % 16]] + HexEncode(b[1..])
  }

  function HexDigit(c: char): Option<byte> {
    if '0' <= c <= '9' then Some((c as int) - ('0' as int))
    else if 'a' <= c <= 'f' then Some((c as int) - ('a' as int) + 10)
    else if 'A' <= c <= 'F' then Some((c as int) - ('A' as int) + 10)
    else None
  }

  function HexDecode(s: string): Option<Bytes> {
    if s == "" then Some([])
    else if |s| == 1 then None
    else
      match (HexDigit(s[0]), HexDigit(s[1]), HexDecode(s[2..]))
      case (Some(hi), Some(lo), Some(rest)) => if hi < 16 && lo < 16 then Some([hi * 16 + lo] + rest) else None
      case _ => None
  }

  lemma {:induction false} HexDecodePair(v: byte, s: string, rest: Bytes)
    requires HexDecode(s) == Some(rest)
    ensures HexDecode([HEX_DIGITS[v / 16], HEX_DIGITS[v % 16]] + s) == Some([v] + rest)
  {
    var t := [HEX_DIGITS[v / 16], HEX_DIGITS[v % 16]] + s;
    assert t[2..] == s;
    HexDigitOf(v / 16);
    HexDigitOf(v % 16);
  }

  lemma {:induction false} HexRoundTrip(b: Bytes)
    ensures HexDecode(HexEncode(b)) == Some(b)
  {
    if b != [] {
      HexRoundTrip(b[1..]);
      HexDecodePair(b[0], HexEncode(b[1..]), b[1..]);
      assert b == [b[0]] + b[1..];
    }
  }

  lemma HexDigitChar(v: byte)
    requires v < 16
    ensures HEX_DIGITS[v] == if v < 10 then (v + ('0' as int)) as char else (v - 10 + ('a' as int)) as char
  {
    assert HEX_DIGITS == ['0', '1', '2', '3', '4', '5', '6', '7', '8', '9', 'a', 'b', 'c', 'd', 'e', 'f'];
  }

  lemma HexDigitOf(v: byte)
    requires v < 16
    ensures HexDigit(HEX_DIGITS[v]) == Some(v)
  {
    HexDigitChar(v);
  }

  function LowerDigit(c: char): char {
    if 'A' <= c <= 'F' then ((c as int) - ('A' as int) + ('a' as int)) as char else c
  }

  /** Text with the digits A to F in lower case. */
  function Lowered(s: string): (t: string)
    ensures |t| == |s|
  {
    if s == "" then ""
    else [LowerDigit(s[0])] + Lowered(s[1..])
  }

  lemma HexDigitExactly(c: char, v: byte)
    requires v < 16
    ensures HexDigit(c) == Some(v) <==> LowerDigit(c) == HEX_DIGITS[v]
  {
    HexDigitChar(v);
  }

  lemma {:induction false} LoweredSplit(s: string)
    requires |s| >= 2
    ensures Lowered(s) == [LowerDigit(s[0]), LowerDigit(s[1])] + Lowered(s[2..])
  {
    assert s[1..][1..] == s[2..];
    assert Lowered(s[1..]) == [LowerDigit(s[1])] + Lowered(s[2..]);
  }

  lemma {:induction false} HexDecodeStep(s: string, b: Bytes)
    requires |s| >= 2 && b != []
    ensures HexDecode(s) == Some(b) <==>
              && HexDigit(s[0]) == Some(b[0] / 16) && HexDigit(s[1]) == Some(b[0] % 16)
              && HexDecode(s[2..]) == Some(b[1..])
  {
    match (HexDigit(s[0]), HexDigit(s[1]), HexDecode(s[2..]))
    case (Some(hi), Some(lo), Some(rest)) =>
      if hi < 16 && lo < 16 {
        assert ([hi * 16 + lo] + rest)[0] == hi * 16 + lo && ([hi * 16 + lo] + rest)[1..] == rest;
        assert b == [b[0]] + b[1..];
      }
    case _ =>
  }

  lemma {:induction false} HexEncodeStep(s: string, b: Bytes)
    requires |s| >= 2 && b != []
    ensures Lowered(s) == HexEncode(b) <==>
              && LowerDigit(s[0]) == HEX_DIGITS[b[0] / 16] && LowerDigit(s[1]) == HEX_DIGITS[b[0] % 16]
              && Lowered(s[2..]) == HexEncode(b[1..])
  {
    LoweredSplit(s);
    var l, e := Lowered(s), HexEncode(b);
    assert l[0] == LowerDigit(s[0]) && l[1] == LowerDigit(s[1]) && l[2..] == Lowered(s[2..]);
    assert e[0] == HEX_DIGITS[b[0] / 16] && e[1] == HEX_DIGITS[b[0] % 16] && e[2..] == HexEncode(b[1..]);
    assert l == [l[0], l[1]] + l[2..] && e == [e[0], e[1]] + e[2..];
  }

  /** What decodes, and to what: hexadecimal text in either case, in whole pairs of digits. */
  lemma {:induction false} HexDecodeExactly(s: string, b: Bytes)
    ensures HexDecode(s) == Some(b) <==> Lowered(s) == HexEncode(b)
    decreases |s|
  {
    if |s| >= 2 && b != [] {
      HexDecodeExactly(s[2..], b[1..]);
      HexDecodeStep(s, b);
      HexEncodeStep(s, b);
      HexDigitExactly(s[0], b[0] / 16);
      HexDigitExactly(s[1], b[0] % 16);
    }
  }
}
