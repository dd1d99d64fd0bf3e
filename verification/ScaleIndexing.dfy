/** Index arithmetic shared by the two broadcast kernels that are embedded as source text: which
    thread reads and writes what, and that the 32- and 64-bit casts lose nothing. */
module ScaleIndexing {
  import opened IntMath

  const BLOCK: int := 256

  function U32(x: int): int { x % 0x1_0000_0000 }

  function U64(x: int): int { x % 0x1_0000_0000_0000_0000 }

  /** The extent of one launch: mn rows of cols output elements, column-major with aligned rows per
      column. The packing kernel has a fourth of the columns of the other. */
  datatype Extent = Extent(mn: int, cols: int, aligned: int) {
    predicate Valid() { 1 <= mn <= aligned <= I32_MAX && 1 <= cols <= 512 }

    function Count(): int { mn * cols }

    /** Where thread t writes. */
    function Address(t: int): int
      requires cols > 0
    {
      (t % cols) * aligned + t / cols
    }

    /** The positions of the output that hold a logical element. */
    predicate Logical(p: int)
      requires aligned > 0
    {
      0 <= p && p % aligned < mn && p / aligned < cols
    }

    /** The thread that writes position p. */
    function Owner(p: int): int
      requires aligned > 0
    {
      (p % aligned) * cols + p / aligned
    }
  }

  /** Working threads and logical positions correspond one to one: each logical element is written by
      exactly one thread, and nothing else is written. */
  lemma AddressHasOwner(e: Extent, t: int)
    requires e.Valid() && 0 <= t < e.Count()
    ensures 0 <= t / e.cols < e.mn && 0 <= t % e.cols < e.cols
    ensures 0 <= e.Address(t) < e.cols * e.aligned
    ensures e.Logical(e.Address(t)) && e.Owner(e.Address(t)) == t
  {
    var q, r := t / e.cols, t % e.cols;
    assert t == q * e.cols + r;
    DivNonNegative(t, e.cols);
    if q >= e.mn { MulMonotone(e.mn, q, e.cols); }
    RowMajorBound(r, q, e.cols, e.aligned);
    DivModUnique(r * e.aligned + q, e.aligned, r, q);
  }

  lemma OwnerWritesAddress(e: Extent, p: int)
    requires e.Valid() && e.Logical(p)
    ensures 0 <= e.Owner(p) < e.Count() && e.Address(e.Owner(p)) == p
  {
    var c, r := p / e.aligned, p % e.aligned;
    assert p == c * e.aligned + r;
    DivNonNegative(p, e.aligned);
    RowMajorBound(r, c, e.mn, e.cols);
    DivModUnique(r * e.cols + c, e.cols, r, c);
  }

  lemma LogicalPosition(e: Extent, row: int, col: int)
    requires e.Valid() && 0 <= row < e.mn && 0 <= col < e.cols
    ensures e.Logical(col * e.aligned + row)
    ensures (col * e.aligned + row) % e.aligned == row && (col * e.aligned + row) / e.aligned == col
    ensures 0 <= col * e.aligned + row < e.cols * e.aligned
  {
    RowMajorBound(col, row, e.cols, e.aligned);
    DivModUnique(col * e.aligned + row, e.aligned, col, row);
  }

  /** An execution order of the launched threads: each of them once. */
  predicate Schedule(order: seq<int>, total: int) {
    && (forall t :: 0 <= t < total ==> t in order)
    && (forall i :: 0 <= i < |order| ==> 0 <= order[i] < total)
    && (forall i, j :: 0 <= i < j < |order| ==> order[i] != order[j])
  }

  function Grid(e: Extent): int { CeilDiv(e.Count(), BLOCK) }

  lemma GridCovers(e: Extent)
    requires e.Valid()
    ensures e.Count() <= Grid(e) * BLOCK && 0 < Grid(e)
  {
    MulMonotone(1, e.mn, e.cols);
    CeilDivPositive(e.Count(), BLOCK);
    CeilDivCharacterized(e.Count(), BLOCK, Grid(e));
  }

  lemma Small(x: int)
    ensures 0 <= x < 0x1_0000_0000 ==> U32(x) == x
    ensures 0 <= x < 0x1_0000_0000_0000_0000 ==> U64(x) == x
  {
  }

  lemma ProductSmall(a: int, b: int)
    requires 0 <= a <= I32_MAX && 0 <= b <= I32_MAX
    ensures 0 <= a * b <= I32_MAX * I32_MAX
  {
    MulMonotone(0, a, b);
    MulMonotone(a, I32_MAX, b);
  }

  lemma QuotientSmall(q: int, d: int)
    requires 0 <= q && 1 <= d
    ensures 0 <= q / d <= q
  {
    DivNonNegative(q, d);
    var row := q / d;
    assert q == row * d + q % d;
    MulMonotone(1, d, row);
  }

  /** The index arithmetic of a thread, 64-bit with 32-bit row and column, is exact. */
  lemma NoTruncation(e: Extent, t: int, granMn: int, sfK: int)
    requires e.Valid() && 0 <= t < e.Count() && 1 <= granMn <= I32_MAX && 1 <= sfK <= 512
    ensures U32(t / e.cols) == t / e.cols && U32(t % e.cols) == t % e.cols
    ensures U64(U64((t % e.cols) * e.aligned) + t / e.cols) == e.Address(t)
    ensures U64((t / e.cols) / granMn * sfK) == (t / e.cols) / granMn * sfK
  {
    AddressHasOwner(e, t);
    var q, r := t / e.cols, t % e.cols;
    Small(q);
    Small(r);
    QuotientSmall(q, granMn);
    InnerExact(q, r, e.aligned);
    ProductSmall(q / granMn, sfK);
    Small(q / granMn * sfK);
  }

  lemma InnerExact(q: int, r: int, aligned: int)
    requires 0 <= q <= I32_MAX && 0 <= r <= I32_MAX && 0 <= aligned <= I32_MAX
    ensures U64(U64(r * aligned) + q) == r * aligned + q
  {
    ProductSmall(r, aligned);
    Small(r * aligned);
    Small(r * aligned + q);
  }

  /** The raw scale has one row for every granMn output rows, so a row index divided by granMn is in
      range, and every raw row is reached. */
  lemma InputRowInRange(mn: int, granMn: int, row: int)
    requires mn > 0 && granMn > 0 && 0 <= row < mn
    ensures 0 <= row / granMn < CeilDiv(mn, granMn)
  {
    var rows := CeilDiv(mn, granMn);
    CeilDivCharacterized(mn, granMn, rows);
    DivNonNegative(row, granMn);
    var q := row / granMn;
    assert row == q * granMn + row % granMn;
    if q >= rows { MulMonotone(rows, q, granMn); }
  }

  lemma InputRowReached(mn: int, granMn: int, r: int)
    requires mn > 0 && granMn > 0 && 0 <= r < CeilDiv(mn, granMn)
    ensures 0 <= r * granMn < mn && (r * granMn) / granMn == r
  {
    var rows := CeilDiv(mn, granMn);
    CeilDivCharacterized(mn, granMn, rows);
    MulMonotone(r, rows - 1, granMn);
    MulMonotone(0, r, granMn);
    DivModUnique(r * granMn, granMn, r, 0);
  }
}
