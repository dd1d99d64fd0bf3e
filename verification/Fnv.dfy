/** The 64-bit digest of a cache key and its sixteen-digit hexadecimal spelling. A `uint64_t`
    state is a natural number below 2^64, and the product is reduced modulo 2^64. */
module Fnv {
  type byte = n: nat | n < 256
  type u64 = n: nat | n < 0x1_0000_0000_0000_0000

  const OFFSET: u64 := 1469598103934665603

  function Pow2(n: nat): (p: nat)
    ensures p > 0
  {
    if n == 0 then 1 else 2 * Pow2(n - 1)
  }

  /** Bitwise exclusive-or. */
  function Xor(a: nat, b: nat): nat
    decreases a + b
  {
    if a == 0 && b == 0 then 0
    else 2 * Xor(a / 2, b / 2) + (if a % 2 == b % 2 then 0 else 1)
  }

  lemma {:induction false} XorBound(a: nat, b: nat, bits: nat)
    requires a < Pow2(bits) && b < Pow2(bits)
    ensures Xor(a, b) < Pow2(bits)
  {
    if bits > 0 { XorBound(a / 2, b / 2, bits - 1); }
  }

  lemma Pow2Of64()
    ensures Pow2(64) == 0x1_0000_0000_0000_0000
  {
    assert Pow2(8) == 0x100;
    assert Pow2(16) == 0x1_0000;
    assert Pow2(24) == 0x100_0000;
    assert Pow2(32) == 0x1_0000_0000;
    assert Pow2(40) == 0x100_0000_0000;
    assert Pow2(48) == 0x1_0000_0000_0000;
    assert Pow2(56) == 0x100_0000_0000_0000;
  }

  lemma {:induction false} XorCancelRight(a: nat, b: nat, c: nat)
    requires Xor(a, c) == Xor(b, c)
    ensures a == b
    decreases a + b + c
  {
    if a + b + c > 0 {
      assert Xor(a, c) == 2 * Xor(a / 2, c / 2) + (if a % 2 == c % 2 then 0 else 1);
      assert Xor(b, c) == 2 * Xor(b / 2, c / 2) + (if b % 2 == c % 2 then 0 else 1);
      XorCancelRight(a / 2, b / 2, c / 2);
    }
  }

  lemma {:induction false} XorCancelLeft(a: nat, b: nat, c: nat)
    requires Xor(a, b) == Xor(a, c)
    ensures b == c
    decreases a + b + c
  {
    if a + b + c > 0 {
      assert Xor(a, b) == 2 * Xor(a / 2, b / 2) + (if a % 2 == b % 2 then 0 else 1);
      assert Xor(a, c) == 2 * Xor(a / 2, c / 2) + (if a % 2 == c % 2 then 0 else 1);
      XorCancelLeft(a / 2, b / 2, c / 2);
    }
  }

  /** `hash *= 1099511628211` on `uint64_t`. */
  function Multiply(x: nat): u64 {
    (x * 0x100_0000_01b3) % 0x1_0000_0000_0000_0000
  }

  /** The multiplier is odd, hence invertible modulo 2^64: distinct states stay distinct. */
  lemma MultiplyInjective(x: u64, y: u64)
    requires Multiply(x) == Multiply(y)
    ensures x == y
  {
    var q := (x * 0x100_0000_01b3) / 0x1_0000_0000_0000_0000;
    var p := (y * 0x100_0000_01b3) / 0x1_0000_0000_0000_0000;
    var d := x - y;
    assert d * 0x100_0000_01b3 == (q - p) * 0x1_0000_0000_0000_0000;
    assert d == ((q - p) * 0xce96_5057_aff6_957b - d * 0xce_9650_590f) * 0x1_0000_0000_0000_0000;
  }

  function Step(hash: u64, b: byte): u64 { Multiply(Xor(hash, b)) }

  /** One round is a bijection in the state for a fixed byte, and injective in the byte for a
      fixed state. */
  lemma StepInjective(x: u64, y: u64, a: byte, b: byte)
    requires Step(x, a) == Step(y, b)
    ensures a == b ==> x == y
    ensures x == y ==> a == b
  {
    Pow2Of64();
    XorBound(x, a, 64);
    XorBound(y, b, 64);
    MultiplyInjective(Xor(x, a), Xor(y, b));
    if a == b { XorCancelRight(x, y, a); }
    if x == y { XorCancelLeft(x, a, b); }
  }

  /** The state after feeding bytes, first byte first. */
  function Fold(state: u64, bytes: seq<byte>): u64
    decreases |bytes|
  {
    if bytes == [] then state else Fold(Step(state, bytes[0]), bytes[1..])
  }

  function Digest(bytes: seq<byte>): u64 { Fold(OFFSET, bytes) }

  lemma {:induction false} FoldAppend(state: u64, a: seq<byte>, b: seq<byte>)
    ensures Fold(state, a + b) == Fold(Fold(state, a), b)
    decreases |a|
  {
    if a == [] {
      assert a + b == b;
    } else {
      assert (a + b)[1..] == a[1..] + b;
      FoldAppend(Step(state, a[0]), a[1..], b);
    }
  }

  /** The accumulator loop of `fnv1a64`. */
  method Fnv1a64(input: seq<byte>) returns (hash: u64)
    ensures hash == Digest(input)
  {
    hash := OFFSET;
    for i := 0 to |input|
      invariant Fold(hash, input[i..]) == Digest(input)
    {
      assert input[i..][0] == input[i] && input[i..][1..] == input[i + 1..];
      hash := Multiply(Xor(hash, input[i]));
    }
  }

  lemma {:induction false} FoldInjectiveInState(x: u64, y: u64, bytes: seq<byte>)
    ensures Fold(x, bytes) == Fold(y, bytes) <==> x == y
    decreases |bytes|
  {
    if bytes != [] {
      var u, v := Step(x, bytes[0]), Step(y, bytes[0]);
      if u == v { StepInjective(x, y, bytes[0], bytes[0]); }
      FoldInjectiveInState(u, v, bytes[1..]);
    }
  }

  /** A common tail neither creates nor removes a collision. */
  lemma TailPreservesCollisions(a: seq<byte>, b: seq<byte>, tail: seq<byte>)
    ensures Digest(a + tail) == Digest(b + tail) <==> Digest(a) == Digest(b)
  {
    FoldAppend(OFFSET, a, tail);
    FoldAppend(OFFSET, b, tail);
    FoldInjectiveInState(Digest(a), Digest(b), tail);
  }

  ghost predicate DifferAtOneByte(a: seq<byte>, b: seq<byte>) {
    |a| == |b| &&
    exists i :: 0 <= i < |a| && a[i] != b[i] && forall j :: 0 <= j < |a| && j != i ==> a[j] == b[j]
  }

  /** Keys of equal length that differ in exactly one byte never share a digest. */
  lemma OneByteChangesDigest(a: seq<byte>, b: seq<byte>)
    requires DifferAtOneByte(a, b)
    ensures Digest(a) != Digest(b)
  {
    var i :| 0 <= i < |a| && a[i] != b[i] && forall j :: 0 <= j < |a| && j != i ==> a[j] == b[j];
    var head, tail := a[..i], a[i + 1..];
    assert a == (head + [a[i]]) + tail;
    assert b == (head + [b[i]]) + tail by {
      assert b[..i] == head && b[i + 1..] == tail;
    }
    FoldAppend(OFFSET, head, [a[i]]);
    FoldAppend(OFFSET, head, [b[i]]);
    assert Fold(Digest(head), [a[i]]) == Step(Digest(head), a[i]);
    assert Fold(Digest(head), [b[i]]) == Step(Digest(head), b[i]);
    if Step(Digest(head), a[i]) == Step(Digest(head), b[i]) {
      StepInjective(Digest(head), Digest(head), a[i], b[i]);
    }
    TailPreservesCollisions(head + [a[i]], head + [b[i]], tail);
  }

  function HexDigit(d: nat): (c: char)
    requires d < 16
  {
    if d < 10 then '0' + (d as char) else 'a' + ((d - 10) as char)
  }

  /** The low `width` hexadecimal digits of a number, zero-filled, most significant first. */
  function Hex(value: nat, width: nat): (s: string)
    ensures |s| == width
  {
    if width == 0 then "" else Hex(value / 16, width - 1) + [HexDigit(value % 16)]
  }

  /** `hex_u64`: width 16, fill '0'. */
  function HexU64(value: u64): string { Hex(value, 16) }

  /** Reading a hexadecimal spelling. */
  function HexDigitValue(c: char): int {
    if '0' <= c <= '9' then c as int - '0' as int
    else if 'a' <= c <= 'f' then c as int - 'a' as int + 10
    else -1
  }

  function ParseHex(s: string): int {
    if s == "" then 0 else 16 * ParseHex(s[..|s| - 1]) + HexDigitValue(s[|s| - 1])
  }

  lemma {:induction false} ParseInvertsHex(value: nat, width: nat)
    requires value < Pow16(width)
    ensures ParseHex(Hex(value, width)) == value
    ensures forall i :: 0 <= i < width ==> HexDigitValue(Hex(value, width)[i]) >= 0
  {
    if width > 0 {
      var s := Hex(value, width);
      assert s[..width - 1] == Hex(value / 16, width - 1) && s[width - 1] == HexDigit(value % 16);
      ParseInvertsHex(value / 16, width - 1);
      assert HexDigitValue(HexDigit(value % 16)) == value % 16;
    }
  }

  /** The directory suffix is the digest in sixteen lower-case digits. */
  lemma HexU64Reads(value: u64)
    ensures |HexU64(value)| == 16 && ParseHex(HexU64(value)) == value
    ensures forall i :: 0 <= i < 16 ==> HexDigitValue(HexU64(value)[i]) >= 0
  {
    assert Pow16(8) == 0x1_0000_0000;
    assert Pow16(16) == 0x1_0000_0000_0000_0000;
    ParseInvertsHex(value, 16);
  }

  function Pow16(n: nat): (p: nat)
    ensures p > 0
  {
    if n == 0 then 1 else 16 * Pow16(n - 1)
  }

  lemma HexU64Injective(a: u64, b: u64)
    requires HexU64(a) == HexU64(b)
    ensures a == b
  {
    HexU64Reads(a);
    HexU64Reads(b);
  }
}
