/** UTF-8 from the other side: the bytes of every Unicode scalar value, and that nothing else is a character. */
module Characters {
  import opened Basics
  import opened Wire

  /** A Unicode scalar value: a code point that is no surrogate. */
  predicate Scalar(v: int) { 0 <= v <= 0xD7FF || 0xE000 <= v <= 0x10FFFF }

  /** Section 3 of RFC 3629: the bits of the value, six to a byte after the first. */
  function Encoded(v: int): (b: Bytes)
    requires Scalar(v)
    ensures 1 <= |b| <= 4
  {
    if v < 0x80 then [v]
    else if v < 0x800 then [0xC0 + v / 64, 0x80 + v % 64]
    else if v < 0x1_0000 then [0xE0 + v / 4096, 0x80 + v / 64 % 64, 0x80 + v % 64]
    else [0xF0 + v / 262144, 0x80 + v / 4096 % 64, 0x80 + v / 64 % 64, 0x80 + v % 64]
  }

  lemma BytesAt(b: Bytes, i: nat, c: Bytes)
    requires At(b, i, c) && 1 <= |c| <= 4
    ensures b[i] == c[0] && (|c| >= 2 ==> b[i + 1] == c[1])
    ensures (|c| >= 3 ==> b[i + 2] == c[2]) && (|c| == 4 ==> b[i + 3] == c[3])
  {
    var s := b[i..i + |c|];
    assert s[0] == b[i] && (|c| >= 2 ==> s[1] == b[i + 1]);
    assert (|c| >= 3 ==> s[2] == b[i + 2]) && (|c| == 4 ==> s[3] == b[i + 3]);
  }

  lemma TwoAreCharacter(b: Bytes, i: nat, v: int)
    requires 0x80 <= v < 0x800 && i + 2 <= |b| && b[i] == 0xC0 + v / 64 && b[i + 1] == 0x80 + v % 64
    ensures CharLength(b, i) == 2
  {
    assert Trails(b, i + 1, 0x80, 0xBF);
  }

  lemma ThreeAreCharacter(b: Bytes, i: nat, v: int)
    requires Scalar(v) && 0x800 <= v < 0x1_0000 && i + 3 <= |b|
    requires b[i] == 0xE0 + v / 4096 && b[i + 1] == 0x80 + v / 64 % 64 && b[i + 2] == 0x80 + v % 64
    ensures CharLength(b, i) == 3
  {
    assert Trails(b, i + 2, 0x80, 0xBF);
  }

  lemma FourAreCharacter(b: Bytes, i: nat, v: int)
    requires Scalar(v) && 0x1_0000 <= v && i + 4 <= |b| && b[i] == 0xF0 + v / 262144
    requires b[i + 1] == 0x80 + v / 4096 % 64 && b[i + 2] == 0x80 + v / 64 % 64 && b[i + 3] == 0x80 + v % 64
    ensures CharLength(b, i) == 4
  {
    assert Trails(b, i + 2, 0x80, 0xBF) && Trails(b, i + 3, 0x80, 0xBF);
  }

  /** Wherever a scalar value is written a character of its length is found. */
  lemma EncodedIsCharacter(b: Bytes, i: nat, v: int)
    requires Scalar(v) && At(b, i, Encoded(v))
    ensures i < |b| && CharLength(b, i) == |Encoded(v)|
  {
    BytesAt(b, i, Encoded(v));
    if v < 0x80 {
    } else if v < 0x800 {
      TwoAreCharacter(b, i, v);
    } else if v < 0x1_0000 {
      ThreeAreCharacter(b, i, v);
    } else {
      FourAreCharacter(b, i, v);
    }
  }

  /** The value of the character at `i`. */
  function Value(b: Bytes, i: nat): int
    requires i < |b| && CharLength(b, i) > 0
  {
    var n := CharLength(b, i);
    if n == 1 then b[i]
    else if n == 2 then Joined2(b[i], b[i + 1])
    else if n == 3 then Joined3(b[i], b[i + 1], b[i + 2])
    else Joined4(b[i], b[i + 1], b[i + 2], b[i + 3])
  }

  function Joined2(x: int, y: int): int { (x - 0xC0) * 64 + (y - 0x80) }

  function Joined3(x: int, y: int, z: int): int { (x - 0xE0) * 4096 + (y - 0x80) * 64 + (z - 0x80) }

  function Joined4(x: int, y: int, z: int, t: int): int {
    (x - 0xF0) * 262144 + (y - 0x80) * 4096 + (z - 0x80) * 64 + (t - 0x80)
  }

  lemma Split2(x: int, y: int)
    requires 0x80 <= y <= 0xBF
    ensures var v := Joined2(x, y); v / 64 == x - 0xC0 && v % 64 == y - 0x80
  {
  }

  lemma Split3(x: int, y: int, z: int)
    requires 0x80 <= y <= 0xBF && 0x80 <= z <= 0xBF
    ensures var v := Joined3(x, y, z); v / 4096 == x - 0xE0 && v / 64 % 64 == y - 0x80 && v % 64 == z - 0x80
  {
    assert Joined3(x, y, z) / 64 == (x - 0xE0) * 64 + (y - 0x80);
  }

  lemma Split4(x: int, y: int, z: int, t: int)
    requires 0x80 <= y <= 0xBF && 0x80 <= z <= 0xBF && 0x80 <= t <= 0xBF
    ensures var v := Joined4(x, y, z, t);
            v / 262144 == x - 0xF0 && v / 4096 % 64 == y - 0x80 && v / 64 % 64 == z - 0x80 && v % 64 == t - 0x80
  {
    var v := Joined4(x, y, z, t);
    assert v / 64 == (x - 0xF0) * 4096 + (y - 0x80) * 64 + (z - 0x80);
    assert v / 4096 == (x - 0xF0) * 64 + (y - 0x80);
  }

  lemma EncodedBack(b: Bytes, i: nat)
    requires i < |b| && CharLength(b, i) > 0
    ensures Scalar(Value(b, i)) && Encoded(Value(b, i)) == b[i..i + CharLength(b, i)]
  {
    var n := CharLength(b, i);
    if n == 1 {
      assert b[i..i + 1] == [b[i]];
    } else if n == 2 {
      Split2(b[i], b[i + 1]);
      assert b[i..i + 2] == [b[i], b[i + 1]];
    } else if n == 3 {
      Split3(b[i], b[i + 1], b[i + 2]);
      assert b[i..i + 3] == [b[i], b[i + 1], b[i + 2]];
    } else {
      Split4(b[i], b[i + 1], b[i + 2], b[i + 3]);
      assert b[i..i + 4] == [b[i], b[i + 1], b[i + 2], b[i + 3]];
    }
  }

  /** Wherever a character is found a scalar value is written. */
  lemma CharacterIsEncoded(b: Bytes, i: nat)
    requires i < |b| && CharLength(b, i) > 0
    ensures Scalar(Value(b, i)) && At(b, i, Encoded(Value(b, i))) && |Encoded(Value(b, i))| == CharLength(b, i)
  {
    EncodedBack(b, i);
  }

  /** All bytes of these values, one after the other. */
  function Text(values: seq<int>): Bytes
    requires forall v | v in values :: Scalar(v)
  {
    if |values| == 0 then [] else Encoded(values[0]) + Text(values[1..])
  }

  lemma Slices(b: Bytes, i: nat, c: Bytes, rest: Bytes)
    requires i <= |b| && b[i..] == c + rest
    ensures At(b, i, c) && b[i + |c|..] == rest
  {
    assert |b| == i + |c| + |rest|;
    assert b[i..i + |c|] == b[i..][..|c|] && b[i + |c|..] == b[i..][|c|..];
  }

  /** A character, and then more. */
  lemma {:induction false} ScansOn(b: Bytes, i: nat, v: int)
    requires Scalar(v) && At(b, i, Encoded(v)) && Scans(b, i + |Encoded(v)|)
    ensures Scans(b, i)
  {
    EncodedIsCharacter(b, i, v);
  }

  lemma {:induction false} TextFirst(values: seq<int>)
    requires |values| > 0 && forall v | v in values :: Scalar(v)
    ensures Scalar(values[0]) && (forall v | v in values[1..] :: Scalar(v))
    ensures Text(values) == Encoded(values[0]) + Text(values[1..])
  {
  }

  lemma {:induction false} TextScans(b: Bytes, i: nat, values: seq<int>)
    requires forall v | v in values :: Scalar(v)
    requires i <= |b| && b[i..] == Text(values)
    ensures Scans(b, i)
    decreases |values|
  {
    if |values| > 0 {
      TextFirst(values);
      var c := Encoded(values[0]);
      Slices(b, i, c, Text(values[1..]));
      TextScans(b, i + |c|, values[1..]);
      ScansOn(b, i, values[0]);
    }
  }

  lemma {:induction false} OneMore(b: Bytes, i: nat, v: int, rest: seq<int>)
    requires Scalar(v) && (forall r | r in rest :: Scalar(r)) && At(b, i, Encoded(v))
    requires b[i + |Encoded(v)|..] == Text(rest)
    ensures b[i..] == Text([v] + rest)
  {
    var c := Encoded(v);
    assert ([v] + rest)[1..] == rest;
    assert b[i..] == b[i..i + |c|] + b[i + |c|..];
  }

  lemma {:induction false} ScannedText(b: Bytes, i: nat) returns (values: seq<int>)
    requires i <= |b| && Scans(b, i)
    ensures (forall v | v in values :: Scalar(v)) && b[i..] == Text(values)
    decreases |b| - i
  {
    if i == |b| {
      values := [];
    } else {
      var n := CharLength(b, i);
      CharacterIsEncoded(b, i);
      var rest := ScannedText(b, i + n);
      values := [Value(b, i)] + rest;
      OneMore(b, i, Value(b, i), rest);
    }
  }

  /** Valid text is exactly what sequences of Unicode scalar values are written as. */
  lemma {:induction false} TextIsScalars(b: Bytes)
    ensures ValidUtf8(b) <==> exists values: seq<int> :: (forall v | v in values :: Scalar(v)) && Text(values) == b
  {
    Utf8IsScanned(b);
    assert b[0..] == b;
    if ValidUtf8(b) {
      var values := ScannedText(b, 0);
      assert Text(values) == b;
    }
    if exists values: seq<int> :: (forall v | v in values :: Scalar(v)) && Text(values) == b {
      var values: seq<int> :| (forall v | v in values :: Scalar(v)) && Text(values) == b;
      TextScans(b, 0, values);
    }
  }
}
