/** Length-prefixed writing and cursor reading, the helpers under the CAB format. */
module Wire {
  import opened Basics

  // ── Text ──────────────────────────────────────────────────────────

  /** A byte 10xxxxxx at `i`, within tighter bounds where RFC 3629 asks for them. */
  predicate Trails(b: Bytes, i: nat, lo: byte, hi: byte) {
    i < |b| && 0x80 <= lo <= b[i] <= hi <= 0xBF
  }

  /** The length of the UTF-8 character that starts at `i` (section 4 of RFC 3629), or 0 if none does. */
  function CharLength(b: Bytes, i: nat): (n: nat)
    requires i < |b|
    ensures n <= 4 && i + n <= |b|
  {
    if b[i] <= 0x7F then 1
    else if 0xC2 <= b[i] <= 0xDF then if Trails(b, i + 1, 0x80, 0xBF) then 2 else 0
    else if 0xE0 <= b[i] <= 0xEF then
      var lo := if b[i] == 0xE0 then 0xA0 else 0x80;
      var hi := if b[i] == 0xED then 0x9F else 0xBF;
      if Trails(b, i + 1, lo, hi) && Trails(b, i + 2, 0x80, 0xBF) then 3 else 0
    else if 0xF0 <= b[i] <= 0xF4 then
      var lo := if b[i] == 0xF0 then 0x90 else 0x80;
      var hi := if b[i] == 0xF4 then 0x8F else 0xBF;
      if Trails(b, i + 1, lo, hi) && Trails(b, i + 2, 0x80, 0xBF) && Trails(b, i + 3, 0x80, 0xBF) then 4 else 0
    else 0
  }

  /** Byte `i` starts a character or belongs to one that starts before it. */
  predicate Placed(b: Bytes, i: nat) {
    i < |b| &&
    (|| CharLength(b, i) > 0
     || (i >= 1 && CharLength(b, i - 1) > 1)
     || (i >= 2 && CharLength(b, i - 2) > 2)
     || (i >= 3 && CharLength(b, i - 3) > 3))
  }

  predicate ValidUtf8(b: Bytes) {
    forall i | 0 <= i < |b| :: Placed(b, i)
  }

  /** Reading character by character from `i` reaches the end. */
  predicate Scans(b: Bytes, i: nat)
    requires i <= |b|
    decreases |b| - i
  {
    i == |b| || (CharLength(b, i) > 0 && Scans(b, i + CharLength(b, i)))
  }

  lemma {:induction false} ScannedIsPlaced(b: Bytes, i: nat, k: nat)
    requires i <= k < |b| && Scans(b, i)
    ensures Placed(b, k)
    decreases |b| - i
  {
    if k >= i + CharLength(b, i) {
      ScannedIsPlaced(b, i + CharLength(b, i), k);
    }
  }

  lemma {:induction false} PlacedIsScanned(b: Bytes, i: nat)
    requires ValidUtf8(b) && i <= |b| && (i < |b| ==> CharLength(b, i) > 0)
    ensures Scans(b, i)
    decreases |b| - i
  {
    if i < |b| {
      var j := i + CharLength(b, i);
      if j < |b| { assert Placed(b, j); }
      PlacedIsScanned(b, j);
    }
  }

  /** Placing every byte in a character is the same as reading the text one character after another. */
  lemma {:induction false} Utf8IsScanned(b: Bytes)
    ensures ValidUtf8(b) <==> Scans(b, 0)
  {
    if Scans(b, 0) {
      forall k | 0 <= k < |b| ensures Placed(b, k) { ScannedIsPlaced(b, 0, k); }
    }
    if ValidUtf8(b) {
      if b != [] { assert Placed(b, 0); }
      PlacedIsScanned(b, 0);
    }
  }

  /** A Rust `String`, as its bytes. */
  type Utf8 = b: Bytes | ValidUtf8(b) witness []

  lemma AsciiIsUtf8(b: Bytes)
    requires forall i | 0 <= i < |b| :: b[i] <= 0x7F
    ensures ValidUtf8(b)
  {
    forall i | 0 <= i < |b| ensures Placed(b, i) {
      assert b[i] <= 0x7F;
    }
  }

  // ── Writing ───────────────────────────────────────────────────────

  /** A block under a two-byte length; a length that does not fit is truncated, as the cast does. */
  function Block16(data: Bytes): (b: Bytes)
    ensures |b| == 2 + |data|
  {
    U16Bytes(|data| % 0x1_0000) + data
  }

  function Block32(data: Bytes): (b: Bytes)
    ensures |b| == 4 + |data|
  {
    U32Bytes(|data| % 0x1_0000_0000) + data
  }

  // ── Reading ───────────────────────────────────────────────────────

  datatype ParseError = Truncated | BadMagic | BadText | BadCompleteness(level: byte) | BadHardwareClass(tag: byte)

  /** A value read, and where the cursor stands after it. */
  datatype Got<+T> = Got(value: T, next: nat)

  function Take(bytes: Bytes, pos: nat, n: nat): (r: Result<Got<Bytes>, ParseError>)
    ensures r.Ok? <==> pos + n <= |bytes|
    ensures r.Ok? ==> r.value.next == pos + n && |r.value.value| == n
  {
    if |bytes| < pos + n then Err(Truncated) else Ok(Got(bytes[pos..pos + n], pos + n))
  }

  function ReadByte(bytes: Bytes, pos: nat): (r: Result<Got<byte>, ParseError>)
    ensures r.Ok? ==> pos < r.value.next <= |bytes|
  {
    if pos >= |bytes| then Err(Truncated) else Ok(Got(bytes[pos], pos + 1))
  }

  function ReadU16(bytes: Bytes, pos: nat): (r: Result<Got<u16>, ParseError>)
    ensures r.Ok? ==> pos < r.value.next <= |bytes|
  {
    var g :- Take(bytes, pos, 2);
    Ok(Got(U16Value(g.value), g.next))
  }

  function ReadU32(bytes: Bytes, pos: nat): (r: Result<Got<u32>, ParseError>)
    ensures r.Ok? ==> pos < r.value.next <= |bytes|
  {
    var g :- Take(bytes, pos, 4);
    Ok(Got(U32Value(g.value), g.next))
  }

  function ReadU64(bytes: Bytes, pos: nat): (r: Result<Got<u64>, ParseError>)
    ensures r.Ok? ==> pos < r.value.next <= |bytes|
  {
    var g :- Take(bytes, pos, 8);
    Ok(Got(U64Value(g.value), g.next))
  }

  function ReadDigest(bytes: Bytes, pos: nat): (r: Result<Got<Digest>, ParseError>)
    ensures r.Ok? ==> pos < r.value.next <= |bytes|
  {
    var g :- Take(bytes, pos, 32);
    Ok(Got(g.value, g.next))
  }

  function ReadBlock16(bytes: Bytes, pos: nat): (r: Result<Got<Bytes>, ParseError>)
    ensures r.Ok? ==> pos < r.value.next <= |bytes| && |r.value.value| < 0x1_0000
  {
    var n :- ReadU16(bytes, pos);
    Take(bytes, n.next, n.value)
  }

  function ReadBlock32(bytes: Bytes, pos: nat): (r: Result<Got<Bytes>, ParseError>)
    ensures r.Ok? ==> pos < r.value.next <= |bytes| && |r.value.value| < 0x1_0000_0000
  {
    var n :- ReadU32(bytes, pos);
    Take(bytes, n.next, n.value)
  }

  function ReadText(bytes: Bytes, pos: nat): (r: Result<Got<Utf8>, ParseError>)
    ensures r.Ok? ==> pos < r.value.next <= |bytes| && |r.value.value| < 0x1_0000
  {
    var g :- ReadBlock16(bytes, pos);
    if ValidUtf8(g.value) then Ok(Got(g.value, g.next)) else Err(BadText)
  }

  // ── What is written is read back ──────────────────────────────────

  /** `s` stands in `bytes` at `pos`. */
  predicate At(bytes: Bytes, pos: nat, s: Bytes) {
    pos + |s| <= |bytes| && bytes[pos..pos + |s|] == s
  }

  lemma AtSplit(bytes: Bytes, pos: nat, s: Bytes, t: Bytes)
    requires At(bytes, pos, s + t)
    ensures At(bytes, pos, s) && At(bytes, pos + |s|, t)
  {
    assert bytes[pos..pos + |s|] == (s + t)[..|s|];
    assert bytes[pos + |s|..pos + |s + t|] == (s + t)[|s|..];
  }

  lemma AtSplit3(bytes: Bytes, pos: nat, s: Bytes, t: Bytes, u: Bytes)
    requires At(bytes, pos, s + t + u)
    ensures At(bytes, pos, s) && At(bytes, pos + |s|, t) && At(bytes, pos + |s| + |t|, u)
  {
    AtSplit(bytes, pos, s + t, u);
    AtSplit(bytes, pos, s, t);
  }

  lemma AtFront(s: Bytes, t: Bytes)
    ensures At(s + t, 0, s)
  {
  }

  lemma ReadsByte(bytes: Bytes, pos: nat, v: byte)
    requires At(bytes, pos, [v])
    ensures ReadByte(bytes, pos) == Ok(Got(v, pos + 1))
  {
    assert bytes[pos] == bytes[pos..pos + 1][0];
  }

  lemma ReadsU16(bytes: Bytes, pos: nat, n: u16)
    requires At(bytes, pos, U16Bytes(n))
    ensures ReadU16(bytes, pos) == Ok(Got(n, pos + 2))
  {
    U16RoundTrip(n);
  }

  lemma ReadsU32(bytes: Bytes, pos: nat, n: u32)
    requires At(bytes, pos, U32Bytes(n))
    ensures ReadU32(bytes, pos) == Ok(Got(n, pos + 4))
  {
    U32RoundTrip(n);
  }

  lemma ReadsU64(bytes: Bytes, pos: nat, n: u64)
    requires At(bytes, pos, U64Bytes(n))
    ensures ReadU64(bytes, pos) == Ok(Got(n, pos + 8))
  {
    U64RoundTrip(n);
  }

  /** The block read back is the block written, cut to the length that fitted the prefix. */
  lemma ReadsBlock16(bytes: Bytes, pos: nat, data: Bytes)
    requires At(bytes, pos, Block16(data))
    ensures ReadBlock16(bytes, pos) == Ok(Got(data[..|data| % 0x1_0000], pos + 2 + |data| % 0x1_0000))
  {
    AtSplit(bytes, pos, U16Bytes(|data| % 0x1_0000), data);
    ReadsU16(bytes, pos, |data| % 0x1_0000);
    var k := |data| % 0x1_0000;
    assert bytes[pos + 2..pos + 2 + k] == bytes[pos + 2..pos + 2 + |data|][..k];
  }

  lemma ReadsBlock32(bytes: Bytes, pos: nat, data: Bytes)
    requires At(bytes, pos, Block32(data))
    ensures ReadBlock32(bytes, pos) == Ok(Got(data[..|data| % 0x1_0000_0000], pos + 4 + |data| % 0x1_0000_0000))
  {
    AtSplit(bytes, pos, U32Bytes(|data| % 0x1_0000_0000), data);
    ReadsU32(bytes, pos, |data| % 0x1_0000_0000);
    var k := |data| % 0x1_0000_0000;
    assert bytes[pos + 4..pos + 4 + k] == bytes[pos + 4..pos + 4 + |data|][..k];
  }

  lemma ReadsText(bytes: Bytes, pos: nat, s: Utf8)
    requires At(bytes, pos, Block16(s)) && |s| < 0x1_0000
    ensures ReadText(bytes, pos) == Ok(Got(s, pos + 2 + |s|))
  {
    ReadsBlock16(bytes, pos, s);
    assert s[..|s|] == s;
  }

  // ── Reading does not look past the cursor ─────────────────────────

  predicate Extends(more: Bytes, bytes: Bytes) {
    |bytes| <= |more| && more[..|bytes|] == bytes
  }

  lemma TakeStable(bytes: Bytes, more: Bytes, pos: nat, n: nat)
    requires Extends(more, bytes) && Take(bytes, pos, n).Ok?
    ensures Take(more, pos, n) == Take(bytes, pos, n)
  {
    assert forall k | 0 <= k < |bytes| :: more[..|bytes|][k] == more[k];
    assert more[pos..pos + n] == bytes[pos..pos + n];
  }

  lemma ReadsStable(bytes: Bytes, more: Bytes, pos: nat)
    requires Extends(more, bytes)
    ensures ReadByte(bytes, pos).Ok? ==> ReadByte(more, pos) == ReadByte(bytes, pos)
    ensures ReadU16(bytes, pos).Ok? ==> ReadU16(more, pos) == ReadU16(bytes, pos)
    ensures ReadU32(bytes, pos).Ok? ==> ReadU32(more, pos) == ReadU32(bytes, pos)
    ensures ReadU64(bytes, pos).Ok? ==> ReadU64(more, pos) == ReadU64(bytes, pos)
    ensures ReadDigest(bytes, pos).Ok? ==> ReadDigest(more, pos) == ReadDigest(bytes, pos)
  {
    if ReadByte(bytes, pos).Ok? { assert more[pos] == more[..|bytes|][pos]; }
    if Take(bytes, pos, 2).Ok? { TakeStable(bytes, more, pos, 2); }
    if Take(bytes, pos, 4).Ok? { TakeStable(bytes, more, pos, 4); }
    if Take(bytes, pos, 8).Ok? { TakeStable(bytes, more, pos, 8); }
    if Take(bytes, pos, 32).Ok? { TakeStable(bytes, more, pos, 32); }
  }

  lemma BlocksStable(bytes: Bytes, more: Bytes, pos: nat)
    requires Extends(more, bytes)
    ensures ReadBlock16(bytes, pos).Ok? ==> ReadBlock16(more, pos) == ReadBlock16(bytes, pos)
    ensures ReadBlock32(bytes, pos).Ok? ==> ReadBlock32(more, pos) == ReadBlock32(bytes, pos)
    ensures ReadText(bytes, pos).Ok? ==> ReadText(more, pos) == ReadText(bytes, pos)
  {
    ReadsStable(bytes, more, pos);
    if ReadBlock16(bytes, pos).Ok? {
      var n := ReadU16(bytes, pos).value;
      TakeStable(bytes, more, n.next, n.value);
    }
    if ReadBlock32(bytes, pos).Ok? {
      var n := ReadU32(bytes, pos).value;
      TakeStable(bytes, more, n.next, n.value);
    }
  }

  // ── The helpers as the program writes them ────────────────────────

  method WriteBlock16(buf: Bytes, data: Bytes) returns (out: Bytes)
    ensures out == buf + Block16(data)
  {
    out := buf + U16Bytes(|data| % 0x1_0000);
    out := out + data;
  }

  method NextU16(bytes: Bytes, pos: nat) returns (r: Result<u16, ParseError>, next: nat)
    ensures r.Ok? <==> ReadU16(bytes, pos).Ok?
    ensures r.Ok? ==> ReadU16(bytes, pos) == Ok(Got(r.value, next))
    ensures r.Err? ==> r.error == Truncated && next == pos
  {
    next := pos;
    if |bytes| < pos + 2 {
      return Err(Truncated), next;
    }
    var val := U16Value(bytes[pos..pos + 2]);
    next := pos + 2;
    return Ok(val), next;
  }

  method NextU64(bytes: Bytes, pos: nat) returns (r: Result<u64, ParseError>, next: nat)
    ensures r.Ok? <==> ReadU64(bytes, pos).Ok?
    ensures r.Ok? ==> ReadU64(bytes, pos) == Ok(Got(r.value, next))
    ensures r.Err? ==> r.error == Truncated && next == pos
  {
    next := pos;
    if |bytes| < pos + 8 {
      return Err(Truncated), next;
    }
    var val := U64Value(bytes[pos..pos + 8]);
    next := pos + 8;
    return Ok(val), next;
  }

  method NextBlock16(bytes: Bytes, pos: nat) returns (r: Result<Bytes, ParseError>, next: nat)
    ensures r.Ok? <==> ReadBlock16(bytes, pos).Ok?
    ensures r.Ok? ==> ReadBlock16(bytes, pos) == Ok(Got(r.value, next))
    ensures r.Err? ==> r.error == Truncated
  {
    next := pos;
    var len;
    len, next :- NextU16(bytes, next);
    if |bytes| < next + len {
      return Err(Truncated), next;
    }
    var data := bytes[next..next + len];
    next := next + len;
    return Ok(data), next;
  }

  method NextBlock32(bytes: Bytes, pos: nat) returns (r: Result<Bytes, ParseError>, next: nat)
    ensures r.Ok? <==> ReadBlock32(bytes, pos).Ok?
    ensures r.Ok? ==> ReadBlock32(bytes, pos) == Ok(Got(r.value, next))
    ensures r.Err? ==> r.error == Truncated
  {
    next := pos;
    if |bytes| < pos + 4 {
      return Err(Truncated), next;
    }
    var len := U32Value(bytes[pos..pos + 4]);
    next := pos + 4;
    if |bytes| < next + len {
      return Err(Truncated), next;
    }
    var data := bytes[next..next + len];
    next := next + len;
    return Ok(data), next;
  }

  /** `copy_from_slice` into a stretch of a fixed buffer. */
  method CopyInto(buf: array<byte>, at: nat, s: Bytes)
    requires at + |s| <= buf.Length
    modifies buf
    ensures buf[..] == old(buf[..at]) + s + old(buf[at + |s|..])
  {
    for i := 0 to |s|
      invariant buf[..at] == old(buf[..at]) && buf[at..at + i] == s[..i] && buf[at + i..] == old(buf[at + i..])
    {
      buf[at + i] := s[i];
    }
    assert s[..|s|] == s;
    assert buf[..] == buf[..at] + buf[at..at + |s|] + buf[at + |s|..];
  }
}
