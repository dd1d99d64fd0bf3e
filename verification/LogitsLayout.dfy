/** Layouts of the attention-logits outputs, the row stride a launch computes again, and the room
    they leave for the tiles that the kernels write. */
module LogitsLayout {
  import opened IntMath
  import opened ScaleLayout

  const BLOCK_KV: int := 256

  predicate LogitsType(dtype: DType) { dtype == F32 || dtype == BF16 }

  /** Elements in 1024 bytes. */
  function StrideAlignment(dtype: DType): (r: int)
    requires LogitsType(dtype)
    ensures r == 256 || r == 512
  {
    1024 / dtype.ElementSize()
  }

  datatype MqaParams = MqaParams(seqLen: int, seqLenKv: int, numHeads: int, maxSeqlenK: int, dtype: DType) {
    predicate Valid() {
      && seqLen > 0 && seqLenKv > 0 && numHeads > 0 && maxSeqlenK >= 0
      && 128 % numHeads == 0 && LogitsType(dtype)
    }

    /** Query rows per block: 128 rows of heads. */
    function BlockQ(): (r: int)
      requires Valid()
      ensures r > 0 && r * numHeads == 128
    {
      HeadsDivide(numHeads);
      128 / numHeads
    }

    function Columns(): int { if maxSeqlenK == 0 then seqLenKv else maxSeqlenK }

    /** The allocated width before the final alignment: one spare tile for full logits, whole tiles
        for compressed ones. */
    function TileWidth(): int { if maxSeqlenK == 0 then seqLenKv + BLOCK_KV else AlignUp(maxSeqlenK, BLOCK_KV) }

    function Stride(): int
      requires Valid()
    {
      AlignUp(TileWidth(), StrideAlignment(dtype))
    }

    function Rows(): int
      requires Valid()
    {
      AlignUp(seqLen, BlockQ())
    }

    predicate Representable()
      requires Valid()
    {
      Rows() <= I64_MAX && Stride() <= I64_MAX && Rows() * Stride() <= U64_MAX
    }

    function Expected(): Layout2D
      requires Valid()
    {
      Layout2D(dtype, seqLen, Columns(), Rows(), Stride(), Stride(), 1, Rows() * Stride())
    }
  }

  lemma HeadsDivide(numHeads: int)
    requires numHeads > 0 && 128 % numHeads == 0
    ensures 128 / numHeads > 0 && 128 / numHeads * numHeads == 128
  {
    var q := 128 / numHeads;
    assert 128 == q * numHeads;
  }

  lemma TileWidthWithinStride(p: MqaParams)
    requires p.Valid()
    ensures p.Columns() <= p.TileWidth() <= p.Stride() && p.seqLen <= p.Rows()
  {
    AlignUpLeast(p.TileWidth(), StrideAlignment(p.dtype));
    AlignUpLeast(p.maxSeqlenK, BLOCK_KV);
    AlignUpLeast(p.seqLen, p.BlockQ());
  }

  /** Two's complement. */
  function Wrap64(x: int): (r: int)
    ensures -I64_MAX - 1 <= r <= I64_MAX
    ensures -I64_MAX - 1 <= x <= I64_MAX ==> r == x
    ensures I64_MAX < x <= 2 * I64_MAX ==> r < 0
  {
    (x + I64_MAX + 1) % 0x1_0000_0000_0000_0000 - I64_MAX - 1
  }

  /** `deepgemm_mqa_logits_layout`. The sum seqLenKv + 256, which the source does not guard, wraps; the
      alignment then rejects it. */
  method MqaLogitsLayout(api: CApi, params: Pointer<MqaParams>, out: LayoutStruct?) returns (status: Status)
    requires params.To? ==>
               && params.target.seqLen <= I64_MAX && params.target.seqLenKv <= I64_MAX
               && params.target.maxSeqlenK <= I64_MAX
    modifies api, out
    ensures status == Success <==>
              params.To? && out != null && params.target.Valid() && params.target.Representable()
    ensures api.lastError == "" <==> status == Success
    ensures status == Success ==> out.Value() == params.target.Expected()
    ensures status != Success && out != null ==> out.Value() == old(out.Value())
  {
    if params.Null? {
      status := api.SetError("layout params must not be null");
      return;
    }
    var p := params.target;
    if p.seqLen <= 0 || p.seqLenKv <= 0 || p.numHeads <= 0 {
      status := api.SetError("seq_len, seq_len_kv, and num_heads must be positive");
      return;
    }
    if p.maxSeqlenK < 0 {
      status := api.SetError("max_seqlen_k must be non-negative");
      return;
    }
    if 128 % p.numHeads != 0 {
      status := api.SetError("num_heads must divide 128");
      return;
    }
    if !LogitsType(p.dtype) {
      status := api.SetError("logits dtype must be f32 or bf16");
      return;
    }
    TileWidthWithinStride(p);
    var alignedSeqLen := AlignI64(p.seqLen, p.BlockQ());
    if alignedSeqLen < 0 {
      status := api.SetError("aligned seq_len overflowed");
      return;
    }
    var strideCols := StrideColumns(p);
    if strideCols < 0 {
      status := api.SetError("logits stride overflowed");
      return;
    }
    status := api.FillLayout(p.dtype, p.seqLen, p.Columns(), alignedSeqLen, strideCols, out);
  }

  /** The two stride branches, with the C API's overflow checks. */
  function StrideColumns(p: MqaParams): (r: int)
    requires p.Valid() && p.seqLenKv <= I64_MAX && p.maxSeqlenK <= I64_MAX
    ensures r == if p.Stride() <= I64_MAX then p.Stride() else -1
  {
    TileWidthWithinStride(p);
    if p.maxSeqlenK == 0 then AlignI64(Wrap64(p.seqLenKv + BLOCK_KV), StrideAlignment(p.dtype))
    else
      var aligned := AlignI64(p.maxSeqlenK, BLOCK_KV);
      if aligned < 0 then -1 else AlignI64(aligned, StrideAlignment(p.dtype))
  }

  datatype PagedParams = PagedParams(batchSize: int, nextN: int, maxContextLen: int, dtype: DType) {
    predicate Valid() { batchSize > 0 && nextN > 0 && maxContextLen > 0 && LogitsType(dtype) }

    function Stride(): int
      requires Valid()
    {
      AlignUp(AlignUp(maxContextLen, BLOCK_KV), StrideAlignment(dtype))
    }

    function Rows(): int { batchSize * nextN }

    predicate Representable()
      requires Valid()
    {
      Rows() <= I64_MAX && Stride() <= I64_MAX && Rows() * Stride() <= U64_MAX
    }

    function Expected(): Layout2D
      requires Valid()
    {
      Layout2D(dtype, Rows(), maxContextLen, Rows(), Stride(), Stride(), 1, Rows() * Stride())
    }
  }

  function PagedStrideColumns(p: PagedParams): (r: int)
    requires p.Valid() && p.maxContextLen <= I64_MAX
    ensures r == if p.Stride() <= I64_MAX then p.Stride() else -1
    ensures r >= 0 ==> p.maxContextLen <= r
  {
    AlignUpLeast(p.maxContextLen, BLOCK_KV);
    AlignUpLeast(AlignUp(p.maxContextLen, BLOCK_KV), StrideAlignment(p.dtype));
    var splitAligned := AlignI64(p.maxContextLen, BLOCK_KV);
    if splitAligned < 0 then -1 else AlignI64(splitAligned, StrideAlignment(p.dtype))
  }

  /** `deepgemm_paged_mqa_logits_layout`. */
  method PagedLogitsLayout(api: CApi, params: Pointer<PagedParams>, out: LayoutStruct?) returns (status: Status)
    requires params.To? ==> params.target.maxContextLen <= I64_MAX
    modifies api, out
    ensures status == Success <==>
              params.To? && out != null && params.target.Valid() && params.target.Representable()
    ensures api.lastError == "" <==> status == Success
    ensures status == Success ==> out.Value() == params.target.Expected()
    ensures status != Success && out != null ==> out.Value() == old(out.Value())
  {
    if params.Null? {
      status := api.SetError("layout params must not be null");
      return;
    }
    var p := params.target;
    if p.batchSize <= 0 || p.nextN <= 0 || p.maxContextLen <= 0 {
      status := api.SetError("batch_size, next_n, and max_context_len must be positive");
      return;
    }
    if !LogitsType(p.dtype) {
      status := api.SetError("logits dtype must be f32 or bf16");
      return;
    }
    var strideCols := PagedStrideColumns(p);
    if strideCols < 0 {
      status := api.SetError("paged logits stride overflowed");
      return;
    }
    MulMonotone(0, p.batchSize, p.nextN);
    var rows := CheckedMul(p.batchSize, p.nextN);
    if rows < 0 || rows > I64_MAX {
      status := api.SetError("paged logits row count overflowed");
      return;
    }
    status := api.FillLayout(p.dtype, rows, p.maxContextLen, rows, strideCols, out);
  }

  // Launch side

  /** `mqa_logits_stride`. */
  function MqaStride(seqLenKv: int, maxSeqlenK: int, dtype: DType): int
    requires LogitsType(dtype)
  {
    var alignment := 1024 / dtype.ElementSize();
    if maxSeqlenK == 0 then AlignUp(seqLenKv + BLOCK_KV, alignment)
    else AlignUp(AlignUp(maxSeqlenK, BLOCK_KV), alignment)
  }

  /** `require_logits_output`, shape and strides. */
  predicate OutputAccepted(t: TensorSpec, rows: int, cols: int, stride: int) {
    LogitsType(t.dtype) && t.rows == rows && t.cols == cols && t.strideRows == stride && t.strideCols == 1
  }

  /** The launch accepts the layout's logical view, and no other of that element type. */
  lemma LaunchAcceptsLayout(p: MqaParams, t: TensorSpec)
    requires p.Valid() && t.dtype == p.dtype
    ensures OutputAccepted(t, p.seqLen, if p.maxSeqlenK == 0 then p.seqLenKv else p.maxSeqlenK,
                           MqaStride(p.seqLenKv, p.maxSeqlenK, t.dtype))
            <==> t == p.Expected().LogicalSpec()
  {
  }

  /** Nothing is allocated beyond need: whole row blocks, and rows of whole kilobytes, with one spare tile
      for full logits. */
  lemma AllocationIsLeast(p: MqaParams)
    requires p.Valid()
    ensures LeastMultiple(p.Rows(), p.seqLen, p.BlockQ())
    ensures LeastMultiple(p.Stride(), if p.maxSeqlenK == 0 then p.seqLenKv + 256 else p.maxSeqlenK,
                          if p.dtype == F32 then 256 else 512)
  {
    AlignUpIsLeastMultiple(p.seqLen, p.BlockQ());
    AlignmentsCollapse(p.maxSeqlenK, p.dtype);
    AlignUpIsLeastMultiple(if p.maxSeqlenK == 0 then p.seqLenKv + 256 else p.maxSeqlenK, StrideAlignment(p.dtype));
  }

  /** Rows start at multiples of 1024 bytes, in the layout and so in the launch. */
  lemma StrideIsWholeKilobytes(p: MqaParams)
    requires p.Valid()
    ensures (p.Stride() * p.dtype.ElementSize()) % 1024 == 0
  {
    AlignUpLeast(p.TileWidth(), StrideAlignment(p.dtype));
    var q := p.Stride() / StrideAlignment(p.dtype);
    assert p.Stride() == q * StrideAlignment(p.dtype);
    assert p.Stride() * p.dtype.ElementSize() == 1024 * q;
  }

  lemma WholeTiles(width: int, alignment: int)
    requires (alignment == 256 || alignment == 512) && width % alignment == 0
    ensures width % BLOCK_KV == 0
  {
    var q := width / alignment;
    assert width == q * alignment;
    DivModUnique(width, BLOCK_KV, if alignment == 256 then q else 2 * q, 0);
  }

  /** Aligning to tiles and then to kilobytes is aligning to kilobytes: a kilobyte holds whole
      tiles. */
  lemma AlignmentsCollapse(width: int, dtype: DType)
    requires LogitsType(dtype)
    ensures AlignUp(AlignUp(width, BLOCK_KV), StrideAlignment(dtype)) == AlignUp(width, StrideAlignment(dtype))
  {
    var a := StrideAlignment(dtype);
    var inner, once, twice := AlignUp(width, BLOCK_KV), AlignUp(width, a), AlignUp(AlignUp(width, BLOCK_KV), a);
    AlignUpLeast(width, BLOCK_KV);
    AlignUpLeast(width, a);
    AlignUpLeast(inner, a);
    WholeTiles(once, a);
    assert inner <= once;
  }

  /** A tile of 256 columns from any start the kernels use stays inside its row: any column of full
      logits, any multiple of 256 of compressed ones. */
  lemma TilesStayInRow(p: MqaParams, start: int)
    requires p.Valid() && 0 <= start < p.Columns() && (p.maxSeqlenK == 0 || start % BLOCK_KV == 0)
    ensures start + BLOCK_KV <= p.Stride()
  {
    TileWidthWithinStride(p);
    if p.maxSeqlenK != 0 {
      AlignUpLeast(p.maxSeqlenK, BLOCK_KV);
      var w := p.TileWidth();
      assert start == start / BLOCK_KV * BLOCK_KV && w == w / BLOCK_KV * BLOCK_KV;
    }
  }

  /** A block of query rows starting at a multiple of the block size stays inside the allocation. */
  lemma RowBlocksStayInAllocation(p: MqaParams, row: int)
    requires p.Valid() && 0 <= row < p.seqLen && row % p.BlockQ() == 0
    ensures row + p.BlockQ() <= p.Rows()
  {
    var b := p.BlockQ();
    AlignUpLeast(p.seqLen, b);
    var i, n := row / b, p.Rows() / b;
    assert row == i * b && p.Rows() == n * b;
    if n < i + 1 { MulMonotone(n, i, b); }
    MulMonotone(i + 1, n, b);
    assert (i + 1) * b == i * b + b;
  }

  /** One element of one tile of one row block, at a start the kernels use. */
  predicate TileElement(p: MqaParams, row: int, start: int, i: int, j: int)
    requires p.Valid()
  {
    && 0 <= row < p.seqLen && row % p.BlockQ() == 0 && 0 <= i < p.BlockQ()
    && 0 <= start < p.Columns() && (p.maxSeqlenK == 0 || start % BLOCK_KV == 0) && 0 <= j < BLOCK_KV
  }

  lemma TileElementInRow(p: MqaParams, row: int, start: int, i: int, j: int)
    requires p.Valid() && TileElement(p, row, start, i, j)
    ensures 0 <= row + i < p.Rows() && 0 <= start + j < p.Stride()
  {
    TilesStayInRow(p, start);
    RowBlocksStayInAllocation(p, row);
  }

  /** Together: every element of every such tile of every such row block lies inside the allocated
      elements, and two elements share an address only if they are the same logical position. */
  lemma TileElementsInAllocation(p: MqaParams, row: int, start: int, i: int, j: int,
                                 row': int, start': int, i': int, j': int)
    requires p.Valid() && TileElement(p, row, start, i, j) && TileElement(p, row', start', i', j')
    ensures var spec := p.Expected().LogicalSpec();
            && 0 <= spec.Address(row + i, start + j) < p.Expected().elementCount
            && (spec.Address(row + i, start + j) == spec.Address(row' + i', start' + j')
                <==> row + i == row' + i' && start + j == start' + j')
  {
    TileElementInRow(p, row, start, i, j);
    TileElementInRow(p, row', start', i', j');
    RowMajorBound(row + i, start + j, p.Rows(), p.Stride());
    var spec := p.Expected().LogicalSpec();
    if spec.Address(row + i, start + j) == spec.Address(row' + i', start' + j') {
      RowMajorUnique(row + i, start + j, row' + i', start' + j', p.Stride());
    }
  }

  // Paged

  /** `paged_logits_stride`. */
  function PagedStride(maxContextLen: int, dtype: DType): int
    requires LogitsType(dtype)
  {
    AlignUp(AlignUp(maxContextLen, 256), 1024 / dtype.ElementSize())
  }

  /** The same four facts for the paged layout, whose tiles start at multiples of 256. */
  lemma PagedLayoutFits(p: PagedParams, t: TensorSpec, row: int, start: int, j: int)
    requires p.Valid() && t.dtype == p.dtype
    requires 0 <= row < p.Rows() && 0 <= start < p.maxContextLen && start % BLOCK_KV == 0 && 0 <= j < BLOCK_KV
    ensures OutputAccepted(t, p.batchSize * p.nextN, p.maxContextLen, PagedStride(p.maxContextLen, t.dtype))
            <==> t == p.Expected().LogicalSpec()
    ensures (p.Stride() * p.dtype.ElementSize()) % 1024 == 0
    ensures p.Stride() == AlignUp(p.maxContextLen, StrideAlignment(p.dtype))
    ensures start + BLOCK_KV <= p.Stride()
    ensures 0 <= p.Expected().LogicalSpec().Address(row, start + j) < p.Expected().elementCount
  {
    var asMqa := MqaParams(1, 1, 1, p.maxContextLen, p.dtype);
    assert asMqa.Stride() == p.Stride();
    StrideIsWholeKilobytes(asMqa);
    AlignmentsCollapse(p.maxContextLen, p.dtype);
    TilesStayInRow(asMqa, start);
    RowMajorBound(row, start + j, p.Rows(), p.Stride());
  }
}
