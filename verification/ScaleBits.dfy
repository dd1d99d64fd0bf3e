/** Packing of positive powers of two into exponent bytes: binary32 (section 3.4 of IEEE 754-2019)
    to E8M0 (section 5.4.1 of the OCP Microscaling Formats specification v1.0), four to a word. */
module ScaleBits {
  type Word = bv32

  /** The condition under which the packing kernel executes `trap`. */
  predicate Traps(bits: Word) {
    (bits & 0x807fffff) != 0 || bits == 0 || (bits & 0x7f800000) == 0x7f800000
  }

  /** A positive normal power of two: sign and mantissa zero, exponent neither zero nor all ones. */
  predicate IsScale(bits: Word) {
    bits == (bits >> 23) << 23 && 1 <= bits >> 23 <= 254
  }

  lemma TrapsExactly(bits: Word)
    ensures Traps(bits) <==> !IsScale(bits)
  {
  }

  function AtLane(x: Word, lane: int): Word
    requires 0 <= lane < 4
  {
    if lane == 0 then x else if lane == 1 then x << 8 else if lane == 2 then x << 16 else x << 24
  }

  function Lane(word: Word, lane: int): Word
    requires 0 <= lane < 4
  {
    (if lane == 0 then word else if lane == 1 then word >> 8 else if lane == 2 then word >> 16 else word >> 24) & 0xff
  }

  function Join(e0: Word, e1: Word, e2: Word, e3: Word): Word { e0 | (e1 << 8) | (e2 << 16) | (e3 << 24) }

  function Pack(b0: Word, b1: Word, b2: Word, b3: Word): Word { Join(b0 >> 23, b1 >> 23, b2 >> 23, b3 >> 23) }

  /** A lane holds a scale, or zero where the row has ended. */
  predicate Lanable(bits: Word) { bits == 0 || IsScale(bits) }

  lemma LanesSeparate(e0: Word, e1: Word, e2: Word, e3: Word)
    requires e0 <= 0xff && e1 <= 0xff && e2 <= 0xff && e3 <= 0xff
    ensures Lane(Join(e0, e1, e2, e3), 0) == e0
    ensures Lane(Join(e0, e1, e2, e3), 1) == e1
    ensures Lane(Join(e0, e1, e2, e3), 2) == e2
    ensures Lane(Join(e0, e1, e2, e3), 3) == e3
  {
  }

  lemma ExponentOf(bits: Word)
    requires Lanable(bits)
    ensures bits >> 23 <= 254 && (bits >> 23) << 23 == bits
  {
  }

  /** A lane unpacks to these bits: it is their exponent byte, which is not the NaN encoding, and
      shifting it back to the exponent field recovers them. */
  predicate Unpacks(byte: Word, bits: Word) {
    byte == bits >> 23 && byte != 0xff && byte <= 0xff && byte << 23 == bits
  }

  /** Every lane of a packed word unpacks to what was packed into it. */
  lemma UnpackInvertsPack(b0: Word, b1: Word, b2: Word, b3: Word)
    requires Lanable(b0) && Lanable(b1) && Lanable(b2) && Lanable(b3)
    ensures Unpacks(Lane(Pack(b0, b1, b2, b3), 0), b0)
    ensures Unpacks(Lane(Pack(b0, b1, b2, b3), 1), b1)
    ensures Unpacks(Lane(Pack(b0, b1, b2, b3), 2), b2)
    ensures Unpacks(Lane(Pack(b0, b1, b2, b3), 3), b3)
  {
    ExponentOf(b0);
    ExponentOf(b1);
    ExponentOf(b2);
    ExponentOf(b3);
    LanesSeparate(b0 >> 23, b1 >> 23, b2 >> 23, b3 >> 23);
  }

  function Pow2(e: int): real
    decreases if e >= 0 then e else -e
  {
    if e == 0 then 1.0 else if e > 0 then 2.0 * Pow2(e - 1) else Pow2(e + 1) / 2.0
  }

  /** The value of a binary32 encoding with a normal exponent. */
  function Binary32Value(bits: Word): real {
    var sign := if bits >> 31 == 0 then 1.0 else -1.0;
    var exponent, mantissa := ((bits >> 23) & 0xff) as int, (bits & 0x7fffff) as int;
    sign * (1.0 + mantissa as real / 8388608.0) * Pow2(exponent - 127)
  }

  /** The value of an E8M0 byte other than the NaN encoding. */
  function E8M0Value(byte: Word): real { Pow2(byte as int - 127) }

  /** Packing keeps the number: the byte denotes the value of the float it was taken from. */
  lemma PackingKeepsValue(bits: Word)
    requires IsScale(bits)
    ensures E8M0Value(bits >> 23) == Binary32Value(bits)
  {
    assert bits >> 31 == 0 && (bits >> 23) & 0xff == bits >> 23 && bits & 0x7fffff == 0;
  }
}
