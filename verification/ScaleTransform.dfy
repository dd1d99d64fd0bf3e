/** Who may launch a scale transform: the checks of the launch itself against those of the Rust
    wrapper, and what the broadcast kernels may rely on. */
module ScaleTransform {
  import opened IntMath
  import opened ScaleBits
  import opened ScaleLayout
  import opened ScaleIndexing
  import opened ScaleKernels
  import opened PackKernel
  import GemmTypes

  /** A tensor argument of the C interface. */
  datatype Descriptor = Descriptor(isNull: bool, rank: int, spec: TensorSpec)

  datatype Transform = Transform(
    scale: Descriptor, transformed: Descriptor, mn: int, k: int, granMn: int, granK: int)
  {
    /** The integer fields are signed 64-bit. */
    predicate Wide() { mn <= I64_MAX && k <= I64_MAX && granMn <= I64_MAX && granK <= I64_MAX }

    predicate Positive() { mn > 0 && k > 0 && granMn > 0 && granK > 0 }
  }

  /** `validate_fp8_gemm_scale_transform_spec`, for dimensions that came from 64-bit integers. */
  predicate RustAccepts(p: Transform)
    requires p.Wide()
  {
    && p.Positive()
    && RustCeilDiv(p.mn, p.granMn) >= 0 && RustCeilDiv(p.k, p.granK) >= 0
    && p.scale.spec == Contiguous(F32, RustCeilDiv(p.mn, p.granMn), RustCeilDiv(p.k, p.granK))
    && p.transformed.spec.dtype.IsScale()
    && Representable(p.mn, p.k, p.granK, p.transformed.spec.dtype)
    && p.transformed.spec == Expected(p.mn, p.k, p.granK, p.transformed.spec.dtype).LogicalSpec()
  }

  /** The number of rows one block of the per-row kernels covers. */
  function RowBlock(dtype: DType): int { if dtype == F32 then 64 else 48 }

  function ExtentFor(mn: int, k: int, granK: int, dtype: DType): Extent
    requires granK > 0
  {
    var sfK := CeilDiv(k, granK);
    Extent(mn, if dtype == F32 then sfK else CeilDiv(sfK, 4), AlignUp(mn, 4))
  }

  function ExtentOf(p: Transform): Extent
    requires p.Positive()
  {
    ExtentFor(p.mn, p.k, p.granK, p.transformed.spec.dtype)
  }

  /** The sizes a launch is limited to: 512 scale columns, and a grid that fits 32 bits; a blocked scale
      also needs aligned rows that fit 32 bits. */
  predicate SizeLimits(mn: int, k: int, granMn: int, granK: int, dtype: DType)
    requires mn > 0 && k > 0 && granMn > 0 && granK > 0
  {
    && granMn <= I32_MAX && granK <= I32_MAX && CeilDiv(k, granK) <= 512
    && if granMn == 1 then CeilDiv(mn, RowBlock(dtype)) <= I32_MAX
       else AlignUp(mn, 4) <= I32_MAX && Grid(ExtentFor(mn, k, granK, dtype)) <= I32_MAX
  }

  /** What the launch demands on top of the Rust wrapper. */
  predicate LaunchLimits(p: Transform)
    requires p.Wide()
  {
    && p.Positive()
    && !p.scale.isNull && p.scale.rank == 2 && !p.transformed.isNull && p.transformed.rank == 2
    && SizeLimits(p.mn, p.k, p.granMn, p.granK, p.transformed.spec.dtype)
  }

  datatype Plan =
    | Broadcast(e: Extent, granMn: int)
    | Packing(e: Extent, granMn: int, sfK: int)
    | PerRow(blockMn: int, gridX: int, smemSize: int, mnArg: int)
    | Rejected

  /** `require_contiguous_2d` for the raw scale. */
  predicate RawScaleAccepted(d: Descriptor) {
    && d.rank == 2 && !d.isNull && d.spec.dtype == F32 && d.spec.rows > 0 && d.spec.cols > 0
    && d.spec.strideRows == d.spec.cols && d.spec.strideCols == 1
  }

  /** The checks common to all scale transforms, in the launch's own terms. */
  predicate CommonChecks(p: Transform)
    requires p.Wide()
  {
    && RawScaleAccepted(p.scale)
    && p.Positive() && p.granMn <= I32_MAX && p.granK <= I32_MAX
    && CeilDivI64(p.k, p.granK) >= 0 && CeilDivI64(p.mn, p.granMn) >= 0
    && p.scale.spec.rows == CeilDivI64(p.mn, p.granMn) && p.scale.spec.cols == CeilDivI64(p.k, p.granK)
    && p.transformed.spec.dtype.IsScale()
    && p.transformed.rank == 2 && !p.transformed.isNull
    && LaunchAccepts(p.transformed.spec, p.mn, p.k, p.granK, p.transformed.spec.dtype)
    && 0 < CeilDivI64(p.k, p.granK) <= 512
  }

  method CheckCommon(p: Transform) returns (ok: bool)
    requires p.Wide()
    ensures ok <==> CommonChecks(p)
  {
    if !RawScaleAccepted(p.scale) {
      return false;
    }
    if p.mn <= 0 || p.k <= 0 || p.granMn <= 0 || p.granMn > I32_MAX || p.granK <= 0 || p.granK > I32_MAX {
      return false;
    }
    var sfK, rows := CeilDivI64(p.k, p.granK), CeilDivI64(p.mn, p.granMn);
    if sfK < 0 || rows < 0 || p.scale.spec.rows != rows || p.scale.spec.cols != sfK {
      return false;
    }
    var dtype := p.transformed.spec.dtype;
    if dtype != F32 && dtype != PackedUe8M0 {
      return false;
    }
    if p.transformed.rank != 2 || p.transformed.isNull {
      return false;
    }
    if !LaunchAccepts(p.transformed.spec, p.mn, p.k, p.granK, dtype) {
      return false;
    }
    return 0 < sfK <= 512;
  }

  /** The checks of `launch_fp8_gemm_transform_scale` up to the kernel launch: it goes ahead exactly on
      what the Rust wrapper accepts, within the launch's own limits. */
  method PlanTransform(p: Transform) returns (plan: Plan)
    requires p.Wide()
    ensures !plan.Rejected? <==> RustAccepts(p) && LaunchLimits(p)
    ensures plan.PerRow? ==> p.granMn == 1 && p.Positive() && plan == RowPlan(p)
    ensures plan.Broadcast? ==> p.granMn != 1 && p.transformed.spec.dtype == F32
                                && p.Positive() && plan == Broadcast(ExtentOf(p), p.granMn)
    ensures plan.Packing? ==> p.granMn != 1 && p.transformed.spec.dtype == PackedUe8M0
                              && p.Positive() && plan == Packing(ExtentOf(p), p.granMn, CeilDiv(p.k, p.granK))
  {
    LaunchMeaning(p);
    var ok := CheckCommon(p);
    if !ok {
      return Rejected;
    }
    if p.granMn == 1 {
      plan := PlanPerRow(p);
    } else {
      plan := PlanBroadcast(p);
    }
  }

  /** The launch of a per-row kernel: shared memory for one block of rows, an odd row length of floats
      where rows are transposed unpacked. */
  function RowPlan(p: Transform): Plan
    requires p.Positive()
  {
    var dtype, sfK := p.transformed.spec.dtype, CeilDiv(p.k, p.granK);
    var rowFloats := if dtype == F32 then sfK + (1 - sfK % 2) else sfK;
    PerRow(RowBlock(dtype), CeilDiv(p.mn, RowBlock(dtype)), RowBlock(dtype) * rowFloats * 4, U32(p.mn))
  }

  /** The branches for a scale with a value per row. */
  method PlanPerRow(p: Transform) returns (plan: Plan)
    requires p.Wide() && CommonChecks(p) && p.granMn == 1
    ensures plan == if CeilDiv(p.mn, RowBlock(p.transformed.spec.dtype)) <= I32_MAX then RowPlan(p) else Rejected
  {
    var sfK := CeilDivI64(p.k, p.granK);
    if p.transformed.spec.dtype == F32 {
      var blockMn := 64;
      var smemSize := blockMn * (sfK + (1 - sfK % 2)) * 4;
      var gridX := CeilDivI64(p.mn, blockMn);
      NearLimitIsLarge(p.mn, blockMn);
      if gridX < 0 || gridX > I32_MAX {
        return Rejected;
      }
      return PerRow(blockMn, gridX, smemSize, U32(p.mn));
    }
    var blockMn := 48;
    var smemSize := blockMn * sfK * 4;
    var gridX := CeilDivI64(p.mn, blockMn);
    NearLimitIsLarge(p.mn, blockMn);
    if gridX < 0 || gridX > I32_MAX {
      return Rejected;
    }
    return PerRow(blockMn, gridX, smemSize, U32(p.mn));
  }

  /** A row count whose ceiling overflows has too many blocks anyway. */
  lemma NearLimitIsLarge(mn: int, block: int)
    requires mn > 0 && (block == 48 || block == 64)
    ensures mn + block - 1 > I64_MAX ==> CeilDiv(mn, block) > I32_MAX
    ensures CeilDiv(mn, block) <= I32_MAX ==> mn <= 64 * I32_MAX
  {
    CeilDivCharacterized(mn, block, CeilDiv(mn, block));
  }

  /** The per-row launch covers all rows with no block to spare, within shared memory. */
  lemma RowPlanFits(p: Transform)
    requires p.Wide() && RustAccepts(p) && LaunchLimits(p) && p.granMn == 1
    ensures var plan := RowPlan(p);
            && (plan.gridX - 1) * plan.blockMn < p.mn <= plan.gridX * plan.blockMn
            && 0 < plan.smemSize <= GemmTypes.SMEM_CAPACITY
  {
    var dtype := p.transformed.spec.dtype;
    CeilDivCharacterized(p.mn, RowBlock(dtype), CeilDiv(p.mn, RowBlock(dtype)));
    CeilDivPositive(p.k, p.granK);
  }

  /** The same in numbers: blocks of 64 rows kept unpacked, with an odd number of floats to a row, the least
      that holds all columns; blocks of 48 rows where they are packed. */
  lemma RowPlanInNumbers(p: Transform, floats: int)
    requires p.Positive() && p.transformed.spec.dtype.IsScale()
    requires floats % 2 == 1 && CeilDiv(p.k, p.granK) <= floats <= CeilDiv(p.k, p.granK) + 1
    ensures p.transformed.spec.dtype == F32 ==> RowPlan(p) == PerRow(64, CeilDiv(p.mn, 64), 256 * floats, U32(p.mn))
    ensures p.transformed.spec.dtype == PackedUe8M0 ==>
              RowPlan(p) == PerRow(48, CeilDiv(p.mn, 48), 192 * CeilDiv(p.k, p.granK), U32(p.mn))
  {
  }

  /** The row count is cast to 32 bits unchecked: the kernel receives it exactly when it fits. */
  lemma RowArgumentExact(p: Transform)
    requires p.Positive()
    ensures RowPlan(p).mnArg == p.mn <==> p.mn < 0x1_0000_0000
  {
    Small(p.mn);
  }

  /** Accepted launches with larger row counts exist: with 2^32 rows the kernel is told there are none. */
  lemma RowArgumentTruncated()
    ensures exists p: Transform :: p.Wide() && RustAccepts(p) && LaunchLimits(p) && p.granMn == 1
                                   && RowPlan(p).mnArg == 0
  {
    var mn := 0x1_0000_0000;
    assert CeilDiv(mn, 1) == mn && CeilDiv(1, 128) == 1 && AlignUp(mn, 4) == mn;
    var raw, prepared := Contiguous(F32, mn, 1), Expected(mn, 1, 128, F32).LogicalSpec();
    var p := Transform(Descriptor(false, 2, raw), Descriptor(false, 2, prepared), mn, 1, 1, 128);
    assert CeilDiv(mn, 64) == 0x400_0000;
    assert RustAccepts(p) && LaunchLimits(p) && RowPlan(p).mnArg == 0;
  }

  /** The branch for a blocked scale. */
  method PlanBroadcast(p: Transform) returns (plan: Plan)
    requires p.Wide() && CommonChecks(p) && p.granMn != 1
    ensures !plan.Rejected? <==> AlignUp(p.mn, 4) <= I32_MAX && Grid(ExtentOf(p)) <= I32_MAX
    ensures !plan.Rejected? ==> plan == if p.transformed.spec.dtype == F32 then Broadcast(ExtentOf(p), p.granMn)
                                        else Packing(ExtentOf(p), p.granMn, CeilDiv(p.k, p.granK))
  {
    var dtype, sfK := p.transformed.spec.dtype, CeilDivI64(p.k, p.granK);
    TmaAlignedSizeIsAlignUp(p.mn, dtype);
    AlignedFitsMeansProductFits(p.mn, sfK);
    if p.mn > I64_MAX / sfK {
      return Rejected;
    }
    var aligned := TmaAlignedSize(p.mn, dtype.ElementSize());
    if aligned > I32_MAX {
      return Rejected;
    }
    if dtype == F32 {
      if CeilDiv(p.mn * sfK, BLOCK) > I32_MAX {
        return Rejected;
      }
      return Broadcast(Extent(p.mn, sfK, aligned), p.granMn);
    }
    var packedSfK := CeilDiv(sfK, 4);
    if CeilDiv(p.mn * packedSfK, BLOCK) > I32_MAX {
      return Rejected;
    }
    return Packing(Extent(p.mn, packedSfK, aligned), p.granMn, sfK);
  }

  lemma AlignedFitsMeansProductFits(mn: int, sfK: int)
    requires mn > 0 && 0 < sfK <= 512
    ensures AlignUp(mn, 4) <= I32_MAX ==> mn <= I64_MAX / sfK
  {
    AlignUpLeast(mn, 4);
    var q := I64_MAX / sfK;
    assert I64_MAX == q * sfK + I64_MAX % sfK;
    if q < I32_MAX {
      MulMonotone(q + 1, I32_MAX, sfK);
      MulMonotone(sfK, 512, I32_MAX);
    }
  }

  lemma SmallMeansRepresentable(mn: int, k: int, granK: int, dtype: DType)
    requires mn > 0 && k > 0 && 0 < granK <= I32_MAX && dtype.IsScale() && mn <= 64 * I32_MAX
    requires k + granK * dtype.Packing() - 1 <= I64_MAX && CeilDiv(k, granK) <= 512
    ensures Representable(mn, k, granK, dtype)
  {
    var cols := CeilDiv(k, granK * dtype.Packing());
    CeilDivPositive(k, granK * dtype.Packing());
    assert cols <= 512 by {
      if dtype == PackedUe8M0 {
        CeilDivNested(k, granK, 4);
        CeilDivPositive(k, granK);
        CeilDivPositive(CeilDiv(k, granK), 4);
      }
    }
    AlignUpLeast(mn, 4);
    MulMonotone(cols, 512, AlignUp(mn, 4));
  }

  lemma LimitsBoundRows(mn: int, k: int, granMn: int, granK: int, dtype: DType)
    requires mn > 0 && k > 0 && granMn > 0 && granK > 0 && SizeLimits(mn, k, granMn, granK, dtype)
    ensures mn <= 64 * I32_MAX
  {
    NearLimitIsLarge(mn, RowBlock(dtype));
    AlignUpLeast(mn, 4);
  }

  lemma RustImpliesCommon(p: Transform)
    requires p.Wide() && RustAccepts(p) && LaunchLimits(p)
    ensures CommonChecks(p)
  {
    LimitsBoundRows(p.mn, p.k, p.granMn, p.granK, p.transformed.spec.dtype);
    CeilDivPositive(p.k, p.granK);
    CeilDivPositive(p.mn, p.granMn);
    EveryoneAgrees(p.mn, p.k, p.granK, p.transformed.spec.dtype, p.transformed.spec);
  }

  lemma CommonImpliesRust(p: Transform)
    requires p.Wide() && CommonChecks(p) && p.mn <= 64 * I32_MAX
    ensures RustAccepts(p)
  {
    SmallMeansRepresentable(p.mn, p.k, p.granK, p.transformed.spec.dtype);
    EveryoneAgrees(p.mn, p.k, p.granK, p.transformed.spec.dtype, p.transformed.spec);
  }

  /** The two validators' conditions compared: what the Rust wrapper accepts within the launch's limits is
      what passes the launch's own checks and has a small enough grid. */
  lemma LaunchMeaning(p: Transform)
    requires p.Wide()
    ensures RustAccepts(p) && LaunchLimits(p)
            <==> CommonChecks(p) && SizeLimits(p.mn, p.k, p.granMn, p.granK, p.transformed.spec.dtype)
  {
    if RustAccepts(p) && LaunchLimits(p) {
      RustImpliesCommon(p);
    }
    if CommonChecks(p) && SizeLimits(p.mn, p.k, p.granMn, p.granK, p.transformed.spec.dtype) {
      LimitsBoundRows(p.mn, p.k, p.granMn, p.granK, p.transformed.spec.dtype);
      CommonImpliesRust(p);
    }
  }

  /** Whatever is launched meets the kernels' expectations: the raw scale has exactly the elements
      they index, and the documented allocation exactly the elements they write. */
  lemma PlannedLaunchIsSafe(p: Transform)
    requires p.Wide() && RustAccepts(p) && LaunchLimits(p) && p.granMn != 1
    ensures var e := ExtentOf(p);
            && Inputs(e, p.granMn, CeilDiv(p.k, p.granK), p.scale.spec.rows * p.scale.spec.cols)
            && (p.transformed.spec.dtype == PackedUe8M0
                ==> PackInputs(e, p.granMn, CeilDiv(p.k, p.granK), p.scale.spec.rows * p.scale.spec.cols))
            && e.cols * e.aligned == Expected(p.mn, p.k, p.granK, p.transformed.spec.dtype).elementCount
  {
    var sfK := CeilDiv(p.k, p.granK);
    AlignUpLeast(p.mn, 4);
    CeilDivPositive(p.k, p.granK);
    CeilDivPositive(sfK, 4);
    PackedColumnsAgree(p.mn, p.k, p.granK);
  }

  datatype Outcome = Refused | PerRowKernel | Trapped | Completed

  /** The buffers behind the two arguments match their descriptions. */
  predicate BuffersMatch(p: Transform, rawLength: int, outLength: int)
    requires p.Wide()
  {
    RustAccepts(p) ==>
      && rawLength == p.scale.spec.rows * p.scale.spec.cols
      && outLength >= Expected(p.mn, p.k, p.granK, p.transformed.spec.dtype).elementCount
  }

  /** The whole of `launch_fp8_gemm_transform_scale`, checks and (for a blocked scale) kernel together,
      with the threads in any order: refused calls change nothing; accepted calls trap exactly on
      packing a scale that is not a positive normal power of two, with some logical elements written
      and nothing else; completed calls leave exactly the logical elements new. */
  method RunTransform(p: Transform, scale: array<Word>, transformed: array<Word>, order: seq<int>)
    returns (outcome: Outcome)
    requires p.Wide() && scale != transformed && BuffersMatch(p, scale.Length, transformed.Length)
    requires RustAccepts(p) && LaunchLimits(p) && p.granMn != 1 ==> Schedule(order, Grid(ExtentOf(p)) * BLOCK)
    modifies transformed
    ensures outcome.Refused? <==> !(RustAccepts(p) && LaunchLimits(p))
    ensures outcome.PerRowKernel? <==> RustAccepts(p) && LaunchLimits(p) && p.granMn == 1
    ensures outcome.Refused? || outcome.PerRowKernel? ==> transformed[..] == old(transformed[..])
    ensures outcome.Trapped? ==> p.granMn != 1 && p.transformed.spec.dtype == PackedUe8M0
    ensures outcome.Trapped? ==>
              && RustAccepts(p) && PackInputs(ExtentOf(p), p.granMn, CeilDiv(p.k, p.granK), scale.Length)
              && (exists i :: 0 <= i < scale.Length && !IsScale(scale[i]))
              && exists done :: Written(old(transformed[..]), transformed[..], ExtentOf(p), done,
                                        PackedWords(KernelOps(), scale[..], ExtentOf(p), p.granMn,
                                                    CeilDiv(p.k, p.granK)))
    ensures outcome.Completed? && p.transformed.spec.dtype == F32 ==>
              && RustAccepts(p) && Inputs(ExtentOf(p), p.granMn, ExtentOf(p).cols, scale.Length)
              && AllWritten(old(transformed[..]), transformed[..], ExtentOf(p),
                            Broadcasts(scale[..], ExtentOf(p), p.granMn))
    ensures outcome.Completed? && p.transformed.spec.dtype != F32 ==>
              && RustAccepts(p) && PackInputs(ExtentOf(p), p.granMn, CeilDiv(p.k, p.granK), scale.Length)
              && (forall i :: 0 <= i < scale.Length ==> IsScale(scale[i]))
              && AllWritten(old(transformed[..]), transformed[..], ExtentOf(p),
                            PackedWords(KernelOps(), scale[..], ExtentOf(p), p.granMn, CeilDiv(p.k, p.granK)))
  {
    var plan := PlanTransform(p);
    match plan {
      case Rejected => outcome := Refused;
      case PerRow(_, _, _, _) => outcome := PerRowKernel;
      case Broadcast(e, granMn) =>
        PlannedLaunchIsSafe(p);
        LaunchBroadcast(scale, transformed, e, granMn, order);
        outcome := Completed;
      case Packing(e, granMn, sfK) =>
        PlannedLaunchIsSafe(p);
        var trapped := PackScales(scale, transformed, e, granMn, sfK, order);
        outcome := if trapped then Trapped else Completed;
    }
  }
}
