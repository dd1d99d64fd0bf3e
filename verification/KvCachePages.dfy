/** Page addressing in a fused KV cache: one byte buffer holds, page by page, the data of all tokens
    followed by their four-byte scales, and two tensor views with different bases and strides are
    laid over it. */
module KvCachePages {
  import opened IntMath
  import opened Contiguous

  datatype Cache = Cache(pages: int, tokens: int, tokenBytes: int) {
    predicate Valid() { pages > 0 && tokens > 0 && tokenBytes > 0 }

    function DataBytes(): int { tokens * tokenBytes }

    /** Bytes from one page to the next. */
    function Stride(): int { tokens * (tokenBytes + 4) }

    function Size(): int { pages * Stride() }

    /** Byte b of token t on page p, through the data view: page stride in bytes, token stride the
        bytes of one token. */
    function DataView(p: int, t: int, b: int): int { p * Stride() + t * tokenBytes + b }

    /** Byte j of the scale of token t on page p, through the scale view: based past the data of the
        first page, with a page stride counted in whole four-byte elements. */
    function ScaleView(p: int, t: int, j: int): int { DataBytes() + 4 * (p * (Stride() / 4) + t) + j }
  }

  datatype Slot = Data(page: int, token: int, byte: int) | Scale(page: int, token: int, byte: int)

  predicate ValidSlot(c: Cache, s: Slot) {
    && 0 <= s.page < c.pages && 0 <= s.token < c.tokens
    && 0 <= s.byte < if s.Data? then c.tokenBytes else 4
  }

  function View(c: Cache, s: Slot): int {
    match s
    case Data(p, t, b) => c.DataView(p, t, b)
    case Scale(p, t, j) => c.ScaleView(p, t, j)
  }

  /** What the launch accepts, apart from element type and rank: the shape and strides of the
      documented cache, and a page stride of whole scale elements. */
  predicate Accepted(shape: seq<int>, stride: seq<int>, tokenBytes: int)
    requires |shape| == 4 && |stride| == 4
  {
    && Positive(shape) && shape[2] == 1 && shape[3] == tokenBytes + 4
    && RowMajor(shape, stride)
    && stride[0] % 4 == 0
  }

  /** The fused-cache checks of the paged launch. */
  method RequireFusedCache(shape: seq<int>, stride: seq<int>, tokenBytes: int) returns (ok: bool)
    requires |shape| == 4 && |stride| == 4 && tokenBytes > 0
    ensures ok <==> Accepted(shape, stride, tokenBytes)
  {
    for i := 0 to 4
      invariant forall j :: 0 <= j < i ==> shape[j] > 0
    {
      if shape[i] <= 0 {
        return false;
      }
    }
    StridesOfCache(shape, stride);
    var fused := tokenBytes + 4;
    if shape[2] != 1 || shape[3] != fused {
      return false;
    }
    if stride[0] != shape[1] * fused || stride[1] != fused || stride[2] != fused || stride[3] != 1 {
      return false;
    }
    return stride[0] % 4 == 0;
  }

  lemma StridesOfCache(shape: seq<int>, stride: seq<int>)
    requires |shape| == 4 && |stride| == 4
    ensures RowMajor(shape, stride)
            <==> stride[3] == 1 && stride[2] == shape[3] && stride[1] == shape[2] * shape[3]
                 && stride[0] == shape[1] * (shape[2] * shape[3])
  {
    assert shape[4..] == [] && Product(shape[4..]) == 1;
    assert shape[3..][1..] == shape[4..] && Product(shape[3..]) == shape[3];
    assert shape[2..][1..] == shape[3..] && Product(shape[2..]) == shape[2] * shape[3];
    assert shape[1..][1..] == shape[2..] && Product(shape[1..]) == shape[1] * (shape[2] * shape[3]);
    assert shape[0 + 1..] == shape[1..] && shape[1 + 1..] == shape[2..] && shape[2 + 1..] == shape[3..];
  }

  function CacheOf(shape: seq<int>, tokenBytes: int): Cache
    requires |shape| == 4
  {
    Cache(shape[0], shape[1], tokenBytes)
  }

  /** An accepted tensor is a cache with that many pages and tokens; its page stride is the cache's
      and holds whole scale elements, and its element count is the size of the buffer. */
  lemma AcceptedIsCache(shape: seq<int>, stride: seq<int>, tokenBytes: int)
    requires |shape| == 4 && |stride| == 4 && tokenBytes > 0 && Accepted(shape, stride, tokenBytes)
    ensures var c := CacheOf(shape, tokenBytes);
            c.Valid() && stride[0] == c.Stride() && c.Stride() % 4 == 0 && Product(shape) == c.Size()
  {
    StridesOfCache(shape, stride);
    assert Product(shape) == shape[0] * Product(shape[1..]);
    assert shape[0 + 1..] == shape[1..];
  }

  /** Which slot a byte belongs to. */
  function SlotOf(c: Cache, x: int): Slot
    requires c.Valid() && c.Stride() > 0
  {
    var p, y := x / c.Stride(), x % c.Stride();
    if y < c.DataBytes() then Data(p, y / c.tokenBytes, y % c.tokenBytes)
    else Scale(p, (y - c.DataBytes()) / 4, (y - c.DataBytes()) % 4)
  }

  lemma StrideSplits(c: Cache)
    requires c.Valid()
    ensures c.Stride() == c.DataBytes() + 4 * c.tokens && c.DataBytes() > 0 && c.Stride() > 0
  {
    assert c.tokens * (c.tokenBytes + 4) == c.tokens * c.tokenBytes + c.tokens * 4;
    MulMonotone(1, c.tokens, c.tokenBytes);
  }

  /** With whole scale elements per page, the scale view addresses each page's own tail. */
  lemma ScaleViewIsPageTail(c: Cache, p: int, t: int, j: int)
    requires c.Valid() && c.Stride() % 4 == 0
    ensures c.ScaleView(p, t, j) == p * c.Stride() + (c.DataBytes() + t * 4 + j)
  {
    var q := c.Stride() / 4;
    assert c.Stride() == 4 * q;
    assert 4 * (p * q + t) == p * (4 * q) + 4 * t;
  }

  /** The two views partition the buffer, first half: every slot's byte is inside, and it is no other
      slot's byte. */
  lemma SlotsAreDisjoint(c: Cache, s: Slot)
    requires c.Valid() && c.Stride() % 4 == 0 && ValidSlot(c, s)
    ensures 0 <= View(c, s) < c.Size() && c.Stride() > 0
    ensures SlotOf(c, View(c, s)) == s
  {
    StrideSplits(c);
    var y := if s.Data? then s.token * c.tokenBytes + s.byte else c.DataBytes() + s.token * 4 + s.byte;
    if s.Data? {
      RowMajorBound(s.token, s.byte, c.tokens, c.tokenBytes);
      DivModUnique(y, c.tokenBytes, s.token, s.byte);
    } else {
      ScaleViewIsPageTail(c, s.page, s.token, s.byte);
      DivModUnique(y - c.DataBytes(), 4, s.token, s.byte);
    }
    RowMajorBound(s.page, y, c.pages, c.Stride());
    DivModUnique(View(c, s), c.Stride(), s.page, y);
  }

  lemma PageOfByte(c: Cache, x: int)
    requires c.Valid() && c.Stride() > 0 && 0 <= x < c.Size()
    ensures 0 <= x / c.Stride() < c.pages && x == x / c.Stride() * c.Stride() + x % c.Stride()
  {
    var p := x / c.Stride();
    DivNonNegative(x, c.Stride());
    if p >= c.pages { MulMonotone(c.pages, p, c.Stride()); }
  }

  lemma DataByteHasSlot(c: Cache, p: int, y: int)
    requires c.Valid() && 0 <= p < c.pages && 0 <= y < c.DataBytes()
    ensures ValidSlot(c, Data(p, y / c.tokenBytes, y % c.tokenBytes))
    ensures c.DataView(p, y / c.tokenBytes, y % c.tokenBytes) == p * c.Stride() + y
  {
    var t := y / c.tokenBytes;
    assert y == t * c.tokenBytes + y % c.tokenBytes;
    DivNonNegative(y, c.tokenBytes);
    if t >= c.tokens { MulMonotone(c.tokens, t, c.tokenBytes); }
  }

  /** Second half: every byte of the buffer is some slot's. */
  lemma SlotsCoverBuffer(c: Cache, x: int)
    requires c.Valid() && c.Stride() % 4 == 0 && 0 <= x < c.Size()
    ensures c.Stride() > 0
    ensures ValidSlot(c, SlotOf(c, x)) && View(c, SlotOf(c, x)) == x
  {
    StrideSplits(c);
    PageOfByte(c, x);
    var p, y := x / c.Stride(), x % c.Stride();
    if y < c.DataBytes() {
      DataByteHasSlot(c, p, y);
    } else {
      ScaleViewIsPageTail(c, p, (y - c.DataBytes()) / 4, (y - c.DataBytes()) % 4);
    }
  }

  /** Stated together, for an accepted tensor: a byte of the buffer is the image of exactly one slot. */
  lemma ViewsPartitionBuffer(shape: seq<int>, stride: seq<int>, tokenBytes: int, x: int)
    requires |shape| == 4 && |stride| == 4 && tokenBytes > 0 && Accepted(shape, stride, tokenBytes)
    requires 0 <= x < Product(shape)
    ensures var c := CacheOf(shape, tokenBytes);
            exists s :: && ValidSlot(c, s) && View(c, s) == x
                        && forall s' :: ValidSlot(c, s') && View(c, s') == x ==> s' == s
  {
    AcceptedIsCache(shape, stride, tokenBytes);
    var c := CacheOf(shape, tokenBytes);
    SlotsCoverBuffer(c, x);
    var s := SlotOf(c, x);
    assert ValidSlot(c, s) && View(c, s) == x;
    forall s' | ValidSlot(c, s') && View(c, s') == x
      ensures s' == s
    {
      SlotsAreDisjoint(c, s');
    }
  }

  /** The stride check is what both alignment and the typed view need, no more and no less: page
      strides of whole scale elements are exactly those for which every scale starts at a multiple of
      four bytes from the base. */
  lemma ScalesAlignedIff(c: Cache)
    requires c.Valid()
    ensures c.Stride() % 4 == 0
            <==> (forall p, t :: 0 <= p < c.pages && 0 <= t < c.tokens ==> c.ScaleView(p, t, 0) % 4 == 0)
  {
    StrideSplits(c);
    forall p, t | 0 <= p < c.pages && 0 <= t < c.tokens
      ensures c.ScaleView(p, t, 0) % 4 == c.DataBytes() % 4
    {
      FoursDropOut(c.DataBytes(), p * (c.Stride() / 4) + t);
    }
    FoursDropOut(c.DataBytes(), c.tokens);
    assert c.ScaleView(0, 0, 0) % 4 == c.DataBytes() % 4;
  }

  lemma FoursDropOut(x: int, q: int)
    ensures (x + 4 * q) % 4 == x % 4
  {
  }

  /** Without it the scale view of a second page would miss that page's scales. */
  lemma ScaleViewNeedsStride(c: Cache)
    requires c.Valid() && c.pages >= 2
    ensures c.Stride() % 4 == 0 <==> c.ScaleView(1, 0, 0) == c.Stride() + c.DataBytes()
  {
    var q := c.Stride() / 4;
    assert 1 * q == q;
    assert c.Stride() == 4 * q + c.Stride() % 4;
  }
}
