/** Integer helpers shared by the host-side arithmetic: the two rounding functions that the
    repository writes several times over, the truncating division of C++, and the few
    non-linear facts the other modules need. */
module IntMath {
  const I32_MAX: int := 0x7FFF_FFFF
  const I64_MAX: int := 0x7FFF_FFFF_FFFF_FFFF
  const U64_MAX: int := 0xFFFF_FFFF_FFFF_FFFF

  /** Rounds a quotient up. All callers pass a non-negative value, where Dafny's division and
      C++'s agree. */
  function CeilDiv(value: int, divisor: int): int
    requires divisor > 0
  {
    (value + divisor - 1) / divisor
  }

  /** Rounds a value up to a multiple, in the remainder form of `align_i64`. */
  function AlignUp(value: int, alignment: int): int
    requires alignment > 0
  {
    var remainder := value % alignment;
    if remainder == 0 then value else value + (alignment - remainder)
  }

  /** C++ integer division: truncates toward zero. */
  function TruncDiv(value: int, divisor: int): int
    requires divisor > 0
  {
    if value >= 0 then value / divisor else -((-value) / divisor)
  }

  function Min(a: int, b: int): int { if a <= b then a else b }

  function Max(a: int, b: int): int { if a >= b then a else b }

  lemma MulMonotone(a: int, b: int, c: int)
    requires a <= b && 0 <= c
    ensures a * c <= b * c
  {
  }

  lemma DivModUnique(x: int, d: int, q: int, r: int)
    requires d > 0 && 0 <= r < d && x == q * d + r
    ensures x / d == q && x % d == r
  {
    var q', r' := x / d, x % d;
    assert x == q' * d + r';
    if q' < q {
      MulMonotone(q' + 1, q, d);
    } else if q < q' {
      MulMonotone(q + 1, q', d);
    }
  }

  /** A ceiling quotient is the one number whose multiple reaches the value with less than one
      divisor to spare. */
  lemma CeilDivCharacterized(value: int, divisor: int, q: int)
    requires divisor > 0
    ensures CeilDiv(value, divisor) == q <==> (q - 1) * divisor < value <= q * divisor
  {
    var c := CeilDiv(value, divisor);
    var r := (value + divisor - 1) % divisor;
    assert value + divisor - 1 == c * divisor + r;
    assert (c - 1) * divisor == c * divisor - divisor;
    if (q - 1) * divisor < value <= q * divisor {
      assert (q - 1) * divisor == q * divisor - divisor;
      DivModUnique(value + divisor - 1, divisor, q, value + divisor - 1 - q * divisor);
    }
  }

  lemma CeilDivPositive(value: int, divisor: int)
    requires value > 0 && divisor > 0
    ensures 1 <= CeilDiv(value, divisor) <= value
  {
    CeilDivCharacterized(value, divisor, CeilDiv(value, divisor));
    var q := CeilDiv(value, divisor);
    if q <= 0 { MulMonotone(q, 0, divisor); }
    if q > value {
      MulMonotone(value, q - 1, divisor);
      MulMonotone(1, divisor, value);
    }
  }

  lemma CeilDivMonotone(a: int, b: int, divisor: int)
    requires a <= b && divisor > 0
    ensures CeilDiv(a, divisor) <= CeilDiv(b, divisor)
  {
    var p, q := CeilDiv(a, divisor), CeilDiv(b, divisor);
    CeilDivCharacterized(a, divisor, p);
    CeilDivCharacterized(b, divisor, q);
    if q < p { MulMonotone(q, p - 1, divisor); }
  }

  lemma CeilDivAntitone(value: int, small: int, large: int)
    requires value >= 0 && 0 < small <= large
    ensures 0 <= CeilDiv(value, large) <= CeilDiv(value, small)
  {
    var p, q := CeilDiv(value, large), CeilDiv(value, small);
    CeilDivCharacterized(value, large, p);
    CeilDivCharacterized(value, small, q);
    DivNonNegative(value + large - 1, large);
    DivNonNegative(value + small - 1, small);
    if q < p {
      MulMonotone(q, p - 1, large);
      MulMonotone(small, large, q);
    }
  }

  /** Rounding up twice, first by one granularity and then by a packing factor, is rounding up
      once by their product. */
  lemma CeilDivNested(value: int, divisor: int, factor: int)
    requires divisor > 0 && factor > 0
    ensures divisor * factor > 0
    ensures CeilDiv(CeilDiv(value, divisor), factor) == CeilDiv(value, divisor * factor)
  {
    var inner := CeilDiv(value, divisor);
    var q := CeilDiv(inner, factor);
    CeilDivCharacterized(value, divisor, inner);
    CeilDivCharacterized(inner, factor, q);
    MulMonotone(inner, q * factor, divisor);
    MulMonotone((q - 1) * factor, inner - 1, divisor);
    assert q * factor * divisor == q * (divisor * factor);
    assert (q - 1) * factor * divisor == (q - 1) * (divisor * factor);
    CeilDivCharacterized(value, divisor * factor, q);
  }

  /** Alignment by remainder and alignment by ceiling quotient are the same function. */
  lemma AlignUpIsCeilDiv(value: int, alignment: int)
    requires alignment > 0
    ensures AlignUp(value, alignment) == CeilDiv(value, alignment) * alignment
  {
    var q, r := value / alignment, value % alignment;
    assert value == q * alignment + r;
    assert (q + 1) * alignment == q * alignment + alignment;
    assert (q - 1) * alignment == q * alignment - alignment;
    CeilDivCharacterized(value, alignment, if r == 0 then q else q + 1);
  }

  /** The aligned value is the least multiple of the alignment that is not below the value. */
  lemma AlignUpLeast(value: int, alignment: int)
    requires alignment > 0
    ensures value <= AlignUp(value, alignment) < value + alignment
    ensures AlignUp(value, alignment) % alignment == 0
    ensures forall t :: value <= t && t % alignment == 0 ==> AlignUp(value, alignment) <= t
  {
    AlignUpIsCeilDiv(value, alignment);
    var q := CeilDiv(value, alignment);
    CeilDivCharacterized(value, alignment, q);
    assert (q - 1) * alignment == q * alignment - alignment;
    DivModUnique(q * alignment, alignment, q, 0);
    forall t | value <= t && t % alignment == 0
      ensures AlignUp(value, alignment) <= t
    {
      var p := t / alignment;
      assert t == p * alignment;
      if p < q { MulMonotone(p, q - 1, alignment); }
    }
  }

  lemma AlignUpMonotone(a: int, b: int, alignment: int)
    requires a <= b && alignment > 0
    ensures AlignUp(a, alignment) <= AlignUp(b, alignment)
  {
    AlignUpLeast(a, alignment);
    AlignUpLeast(b, alignment);
  }

  lemma DivMonotone(a: int, b: int, divisor: int)
    requires a <= b && divisor > 0
    ensures a / divisor <= b / divisor
  {
    var p, q := a / divisor, b / divisor;
    assert a == p * divisor + a % divisor;
    assert b == q * divisor + b % divisor;
    if q < p { MulMonotone(q + 1, p, divisor); }
  }

  lemma DivNonNegative(a: int, divisor: int)
    requires a >= 0 && divisor > 0
    ensures a / divisor >= 0
  {
    DivMonotone(0, a, divisor);
    DivModUnique(0, divisor, 0, 0);
  }

  lemma TruncDivMonotone(a: int, b: int, divisor: int)
    requires a <= b && divisor > 0
    ensures TruncDiv(a, divisor) <= TruncDiv(b, divisor)
  {
    if a >= 0 {
      DivMonotone(a, b, divisor);
    } else if b < 0 {
      DivMonotone(-b, -a, divisor);
    } else {
      DivNonNegative(-a, divisor);
      DivNonNegative(b, divisor);
    }
  }

  /** Truncating division meets a positive threshold exactly when the dividend holds that many
      divisors. */
  lemma TruncDivAtLeast(value: int, divisor: int, t: int)
    requires divisor > 0 && t > 0
    ensures TruncDiv(value, divisor) >= t <==> value >= t * divisor
  {
    if value >= 0 {
      var q := value / divisor;
      assert value == q * divisor + value % divisor;
      if q >= t { MulMonotone(t, q, divisor); } else { MulMonotone(q + 1, t, divisor); }
    } else {
      assert (-value) / divisor >= 0;
      MulMonotone(1, t, divisor);
    }
  }

  /** A pair (row, column) is recovered from its row-major position. */
  lemma RowMajorUnique(r1: int, c1: int, r2: int, c2: int, width: int)
    requires 0 <= c1 < width && 0 <= c2 < width
    requires r1 * width + c1 == r2 * width + c2
    ensures r1 == r2 && c1 == c2
  {
    DivModUnique(r1 * width + c1, width, r1, c1);
    DivModUnique(r1 * width + c1, width, r2, c2);
  }

  /** A row-major position stays below rows * width. */
  lemma RowMajorBound(r: int, c: int, rows: int, width: int)
    requires 0 <= r < rows && 0 <= c < width
    ensures 0 <= r * width + c < rows * width
  {
    MulMonotone(r + 1, rows, width);
    MulMonotone(0, r, width);
    assert (r + 1) * width == r * width + width;
  }

  /** The least multiple of the unit that is large enough. */
  predicate LeastMultiple(x: int, need: int, unit: int)
    requires unit > 0
  {
    x % unit == 0 && need <= x < need + unit
  }

  lemma AlignUpIsLeastMultiple(need: int, unit: int)
    requires unit > 0
    ensures LeastMultiple(AlignUp(need, unit), need, unit)
  {
    AlignUpLeast(need, unit);
  }

  lemma LeastMultipleUnique(x: int, y: int, need: int, unit: int)
    requires unit > 0 && LeastMultiple(x, need, unit) && LeastMultiple(y, need, unit)
    ensures x == y
  {
    var p, q := x / unit, y / unit;
    assert x == p * unit && y == q * unit;
    assert (p + 1) * unit == x + unit && (q + 1) * unit == y + unit;
    if p < q {
      MulMonotone(p + 1, q, unit);
    } else if q < p {
      MulMonotone(q + 1, p, unit);
    }
  }
}
