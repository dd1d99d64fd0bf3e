/** The layout of transformed GEMM scales, which the repository computes four times: in the C API,
    in the launch check, in the Rust validator and in the Candle view. */
module ScaleLayout {
  import opened IntMath

  datatype DType = Invalid | Fp8E4M3 | PackedFp4E2M1 | PackedUe8M0 | F32 | BF16 | I32 | U8 {
    function ElementSize(): int {
      match this
      case Fp8E4M3 | PackedFp4E2M1 | U8 => 1
      case BF16 => 2
      case PackedUe8M0 | F32 | I32 => 4
      case Invalid => 0
    }

    predicate IsScale() { this == F32 || this == PackedUe8M0 }

    /** Scales per element. */
    function Packing(): int { if this == F32 then 1 else 4 }
  }

  datatype Layout2D = Layout2D(
    dtype: DType, rows: int, cols: int, allocRows: int, allocCols: int,
    strideRows: int, strideCols: int, elementCount: int)
  {
    function LogicalSpec(): TensorSpec { TensorSpec(dtype, rows, cols, strideRows, strideCols) }
  }

  /** Shape, strides and element type of a matrix, in elements. */
  datatype TensorSpec = TensorSpec(dtype: DType, rows: int, cols: int, strideRows: int, strideCols: int) {
    function Address(r: int, c: int): int { r * strideRows + c * strideCols }
  }

  // C API

  /** `deepgemm_tensor_layout_2d_t`, written through a pointer. */
  class LayoutStruct {
    var dtype: DType
    var logicalRows: int
    var logicalCols: int
    var allocationRows: int
    var allocationCols: int
    var strideRows: int
    var strideCols: int
    var elementCount: int

    function Value(): Layout2D
      reads this
    {
      Layout2D(dtype, logicalRows, logicalCols, allocationRows, allocationCols, strideRows, strideCols, elementCount)
    }
  }

  datatype Status = Success | InvalidArgument

  function CheckedMul(left: int, right: int): (r: int)
    requires 0 <= left && 0 <= right
    ensures r == if left * right <= U64_MAX then left * right else -1
  {
    if left != 0 && right > U64_MAX / left then
      ProductTooLarge(left, right);
      -1
    else
      ProductFits(left, right);
      left * right
  }

  lemma ProductTooLarge(left: int, right: int)
    requires 0 < left && right > U64_MAX / left
    ensures left * right > U64_MAX
  {
    var q := U64_MAX / left;
    assert U64_MAX == q * left + U64_MAX % left;
    assert (q + 1) * left == q * left + left;
    MulMonotone(q + 1, right, left);
  }

  lemma ProductFits(left: int, right: int)
    requires 0 <= left && 0 <= right && (left == 0 || right <= U64_MAX / left)
    ensures left * right <= U64_MAX
  {
    if left > 0 {
      var q := U64_MAX / left;
      assert U64_MAX == q * left + U64_MAX % left;
      MulMonotone(right, q, left);
    }
  }

  /** Every intermediate value of the layout computation is representable. */
  predicate Representable(mn: int, k: int, granK: int, dtype: DType)
    requires mn > 0 && k > 0 && granK > 0 && dtype.IsScale()
  {
    var divisor := granK * dtype.Packing();
    && divisor <= I64_MAX
    && k + divisor - 1 <= I64_MAX
    && AlignUp(mn, 4) <= I64_MAX
    && CeilDiv(k, divisor) * AlignUp(mn, 4) <= U64_MAX
  }

  /** The scale layout as its documentation states it: logical [mn, ceil(k / (granK * packing))],
      stored column by column with columns padded to sixteen bytes. */
  function Expected(mn: int, k: int, granK: int, dtype: DType): Layout2D
    requires mn > 0 && k > 0 && granK > 0 && dtype.IsScale()
  {
    var cols := CeilDiv(k, granK * dtype.Packing());
    var aligned := AlignUp(mn, 4);
    Layout2D(dtype, mn, cols, cols, aligned, 1, aligned, cols * aligned)
  }

  datatype ScaleParams = ScaleParams(mn: int, k: int, granK: int, dtype: DType) {
    /** The request is well formed. */
    predicate Valid() { mn > 0 && k > 0 && granK > 0 && dtype.IsScale() }

    /** The fields hold 64-bit integers. */
    predicate Wide() { mn <= I64_MAX && k <= I64_MAX && granK <= I64_MAX }
  }

  datatype Pointer<+T> = Null | To(target: T)

  /** The C entry points with the error text of the calling thread. */
  class CApi {
    var lastError: string

    constructor ()
      ensures lastError == ""
    {
      lastError := "";
    }

    method SetError(message: string) returns (status: Status)
      modifies this
      ensures lastError == message && status == InvalidArgument
    {
      lastError := message;
      return InvalidArgument;
    }

    method ClearError() returns (status: Status)
      modifies this
      ensures lastError == "" && status == Success
    {
      lastError := "";
      return Success;
    }

    method FillLayoutExplicit(dtype: DType, rows: int, cols: int, allocRows: int, allocCols: int,
                              strideRows: int, strideCols: int, out: LayoutStruct?)
      returns (status: Status)
      modifies this, out
      ensures status == Success <==>
                && out != null
                && rows >= 0 && cols >= 0 && allocRows >= 0 && allocCols >= 0 && strideRows >= 0 && strideCols >= 0
                && allocRows * allocCols <= U64_MAX
      ensures lastError == "" <==> status == Success
      ensures out != null ==>
                out.Value() == if status == Success
                               then Layout2D(dtype, rows, cols, allocRows, allocCols, strideRows, strideCols,
                                             allocRows * allocCols)
                               else old(out.Value())
    {
      if out == null {
        status := SetError("layout output must not be null");
        return;
      }
      if rows < 0 || cols < 0 || allocRows < 0 || allocCols < 0 || strideRows < 0 || strideCols < 0 {
        status := SetError("invalid 2D layout dimensions");
        return;
      }
      var elementCount := CheckedMul(allocRows, allocCols);
      if elementCount < 0 {
        status := SetError("layout element count overflowed");
        return;
      }
      out.dtype := dtype;
      out.logicalRows := rows;
      out.logicalCols := cols;
      out.allocationRows := allocRows;
      out.allocationCols := allocCols;
      out.strideRows := strideRows;
      out.strideCols := strideCols;
      out.elementCount := elementCount;
      status := ClearError();
    }

    /** `fill_2d_layout`: row-major, with an allocation at least as large as the logical matrix. */
    method FillLayout(dtype: DType, rows: int, cols: int, allocRows: int, allocCols: int, out: LayoutStruct?)
      returns (status: Status)
      modifies this, out
      ensures status == Success <==>
                && out != null
                && rows >= 0 && cols >= 0 && allocRows >= rows && allocCols >= cols
                && allocRows * allocCols <= U64_MAX
      ensures lastError == "" <==> status == Success
      ensures out != null ==>
                out.Value() == if status == Success
                               then Layout2D(dtype, rows, cols, allocRows, allocCols, allocCols, 1,
                                             allocRows * allocCols)
                               else old(out.Value())
    {
      if out == null {
        status := SetError("layout output must not be null");
        return;
      }
      if rows < 0 || cols < 0 || allocRows < rows || allocCols < cols {
        status := SetError("invalid 2D layout dimensions");
        return;
      }
      var elementCount := CheckedMul(allocRows, allocCols);
      if elementCount < 0 {
        status := SetError("layout element count overflowed");
        return;
      }
      out.dtype := dtype;
      out.logicalRows := rows;
      out.logicalCols := cols;
      out.allocationRows := allocRows;
      out.allocationCols := allocCols;
      out.strideRows := allocCols;
      out.strideCols := 1;
      out.elementCount := elementCount;
      status := ClearError();
    }

    /** `deepgemm_fp8_gemm_scale_layout`: succeeds exactly on well-formed requests all of whose
        intermediate values are representable, and then writes the documented layout; on failure the
        output struct keeps its contents. */
    method ScaleLayout(params: Pointer<ScaleParams>, out: LayoutStruct?) returns (status: Status)
      requires params.To? ==> params.target.Wide()
      modifies this, out
      ensures status == Success <==>
                && params.To? && out != null && params.target.Valid()
                && Representable(params.target.mn, params.target.k, params.target.granK, params.target.dtype)
      ensures lastError == "" <==> status == Success
      ensures status == Success ==>
                out.Value() == Expected(params.target.mn, params.target.k, params.target.granK, params.target.dtype)
      ensures status != Success && out != null ==> out.Value() == old(out.Value())
    {
      if params.Null? {
        status := SetError("GEMM scale layout params must not be null");
        return;
      }
      var p := params.target;
      if p.mn <= 0 || p.k <= 0 || p.granK <= 0 {
        status := SetError("mn, k, and gran_k must be positive");
        return;
      }
      if p.dtype != F32 && p.dtype != PackedUe8M0 {
        status := SetError("scale dtype must be f32 or packed UE8M0");
        return;
      }
      var elemSize := p.dtype.ElementSize();
      var packedFactor := if p.dtype == F32 then 1 else 4;
      if p.granK > I64_MAX / packedFactor {
        status := SetError("scale K dimension overflowed");
        return;
      }
      var scaleCols := CeilDivI64(p.k, p.granK * packedFactor);
      if scaleCols < 0 {
        status := SetError("scale K dimension overflowed");
        return;
      }
      var alignedMn := AlignI64(p.mn, 16 / elemSize);
      if alignedMn < 0 {
        status := SetError("scale MN alignment overflowed");
        return;
      }
      status := FillLayoutExplicit(p.dtype, p.mn, scaleCols, scaleCols, alignedMn, 1, alignedMn, out);
    }
  }

  /** `ceil_div_i64`; -1 where the source reports failure. Its guard is exact. */
  function CeilDivI64(value: int, divisor: int): (r: int)
    requires value <= I64_MAX && divisor <= I64_MAX
    ensures value >= 0 && divisor > 0 ==>
              r == if value + divisor - 1 <= I64_MAX then CeilDiv(value, divisor) else -1
    ensures value < 0 || divisor <= 0 ==> r == -1
    ensures r >= -1
  {
    if value < 0 || divisor <= 0 then -1
    else if value > I64_MAX - divisor + 1 then -1
    else
      DivNonNegative(value + divisor - 1, divisor);
      (value + divisor - 1) / divisor
  }

  /** `align_i64`, likewise. */
  function AlignI64(value: int, alignment: int): (r: int)
    requires value <= I64_MAX
    ensures value >= 0 && alignment > 0 ==>
              r == if AlignUp(value, alignment) <= I64_MAX then AlignUp(value, alignment) else -1
    ensures value < 0 || alignment <= 0 ==> r == -1
    ensures r >= -1
  {
    if value < 0 || alignment <= 0 then -1
    else
      var remainder := value % alignment;
      if remainder == 0 then value
      else
        var delta := alignment - remainder;
        if value > I64_MAX - delta then -1 else value + delta
  }

  // Launch check

  /** `get_tma_aligned_size` in exact arithmetic; -1 where the source throws. */
  function TmaAlignedSize(value: int, elementSize: int): int {
    if value < 0 || elementSize <= 0 || 16 % elementSize != 0 then -1
    else
      var alignment := 16 / elementSize;
      if alignment <= 0 then -1 else ((value + alignment - 1) / alignment) * alignment
  }

  /** The acceptance condition of `require_mn_major_scale` and `require_mn_major_scale_out`. */
  predicate LaunchAccepts(t: TensorSpec, mn: int, k: int, granK: int, dtype: DType)
    requires k <= I64_MAX && granK <= I32_MAX
  {
    && t.dtype == dtype
    && granK > 0 && granK <= I64_MAX / dtype.Packing()
    && CeilDivI64(k, granK * dtype.Packing()) >= 0
    && TmaAlignedSize(mn, dtype.ElementSize()) >= 0
    && t.rows == mn && t.cols == CeilDivI64(k, granK * dtype.Packing())
    && t.strideRows == 1 && t.strideCols == TmaAlignedSize(mn, dtype.ElementSize())
  }

  /** Aligning by quotient, as the launch does, is aligning by remainder, as the C API does. */
  lemma TmaAlignedSizeIsAlignUp(mn: int, dtype: DType)
    requires mn > 0 && dtype.IsScale()
    ensures TmaAlignedSize(mn, dtype.ElementSize()) == AlignUp(mn, 4)
  {
    AlignUpIsCeilDiv(mn, 4);
  }

  /** A request the layout accepts leaves room for the unguarded addition of the launch. */
  lemma LaunchAlignmentFits(mn: int)
    requires mn > 0 && AlignUp(mn, 4) <= I64_MAX
    ensures mn + 4 - 1 <= I64_MAX
  {
    AlignUpLeast(mn, 4);
    assert I64_MAX % 4 == 3;
  }

  // Rust

  function RustCeilDiv(value: int, divisor: int): int
    requires 0 <= value && 0 <= divisor
  {
    if divisor == 0 || value + (divisor - 1) > U64_MAX then -1 else (value + (divisor - 1)) / divisor
  }

  /** Converting the struct to `TensorLayout2D` never fails on a 64-bit host. */
  lemma LayoutConverts(mn: int, k: int, granK: int, dtype: DType)
    requires mn > 0 && k > 0 && granK > 0 && dtype.IsScale() && mn <= I64_MAX && k <= I64_MAX && granK <= I64_MAX
    requires Representable(mn, k, granK, dtype)
    ensures var l := Expected(mn, k, granK, dtype);
            && 0 < l.rows <= l.allocCols <= I64_MAX && 0 < l.cols == l.allocRows <= I64_MAX
            && 0 < l.elementCount <= U64_MAX
  {
    AlignUpLeast(mn, 4);
    CeilDivPositive(k, granK * dtype.Packing());
    MulMonotone(1, CeilDiv(k, granK * dtype.Packing()), AlignUp(mn, 4));
  }

  // Candle

  function Contiguous(dtype: DType, rows: int, cols: int): TensorSpec { TensorSpec(dtype, rows, cols, cols, 1) }

  function Transposed(t: TensorSpec): TensorSpec { TensorSpec(t.dtype, t.cols, t.rows, t.strideCols, t.strideRows) }

  /** Narrowing a dimension keeps strides; -1 rows where Candle reports an error. */
  function NarrowRows(t: TensorSpec, len: int): TensorSpec {
    if 0 <= len <= t.rows then t.(rows := len) else t.(rows := -1)
  }

  /** `allocate_transformed_scale`. */
  function CandleView(l: Layout2D): TensorSpec {
    NarrowRows(Transposed(Contiguous(l.dtype, l.allocRows, l.allocCols)), l.rows)
  }

  // Agreement

  /** One tensor description satisfies everyone: on every representable request, the view Candle
      builds is the layout's logical spec, the launch accepts that spec and no other, and no value
      the launch computes overflows. (Rust's `require_spec` compares with that spec literally.) */
  lemma EveryoneAgrees(mn: int, k: int, granK: int, dtype: DType, t: TensorSpec)
    requires mn > 0 && k > 0 && granK > 0 && dtype.IsScale() && mn <= I64_MAX && k <= I64_MAX && granK <= I32_MAX
    requires Representable(mn, k, granK, dtype)
    ensures CandleView(Expected(mn, k, granK, dtype)) == Expected(mn, k, granK, dtype).LogicalSpec()
    ensures LaunchAccepts(t, mn, k, granK, dtype) <==> t == Expected(mn, k, granK, dtype).LogicalSpec()
    ensures mn + 4 - 1 <= I64_MAX
  {
    LayoutConverts(mn, k, granK, dtype);
    TmaAlignedSizeIsAlignUp(mn, dtype);
    LaunchAlignmentFits(mn);
  }

  /** Logical positions occupy distinct elements of the allocation. */
  lemma AddressesDistinct(mn: int, k: int, granK: int, dtype: DType, r: int, c: int, r': int, c': int)
    requires mn > 0 && k > 0 && granK > 0 && dtype.IsScale()
    requires var l := Expected(mn, k, granK, dtype);
             0 <= r < l.rows && 0 <= c < l.cols && 0 <= r' < l.rows && 0 <= c' < l.cols
    ensures var l := Expected(mn, k, granK, dtype);
            && 0 <= l.LogicalSpec().Address(r, c) < l.elementCount
            && (l.LogicalSpec().Address(r, c) == l.LogicalSpec().Address(r', c') ==> r == r' && c == c')
  {
    var l := Expected(mn, k, granK, dtype);
    AlignUpLeast(mn, 4);
    RowMajorBound(c, r, l.cols, l.strideCols);
    if l.LogicalSpec().Address(r, c) == l.LogicalSpec().Address(r', c') {
      RowMajorUnique(c, r, c', r', l.strideCols);
    }
  }

  /** The packing kernel's column count, rounded up in two steps, is the layout's, rounded up in
      one. */
  lemma PackedColumnsAgree(mn: int, k: int, granK: int)
    requires mn > 0 && k > 0 && granK > 0
    ensures Expected(mn, k, granK, PackedUe8M0).cols == CeilDiv(Expected(mn, k, granK, F32).cols, 4)
  {
    CeilDivNested(k, granK, 4);
  }
}
