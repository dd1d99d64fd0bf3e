/** From raw scales to an accepted GEMM call: what Candle's `fp8_gemm_nt` prepares, when preparing
    succeeds, and what the Rust validator and the launch then demand. */
module ScalePipeline {
  import opened IntMath
  import opened ScaleIndexing
  import opened ScaleLayout
  import opened ScaleTransform
  import opened Wrappers
  import S90 = Sm90Selection
  import S100 = Sm100Selection

  datatype Arch = Sm90 | Sm100

  const GRAN: int := 128

  /** A matrix product of positive 64-bit sizes. */
  datatype Problem = Problem(arch: Arch, m: int, n: int, k: int) {
    predicate Sized() { 0 < m <= I64_MAX && 0 < n <= I64_MAX && 0 < k <= I64_MAX }

    function ScaleType(): DType { if arch == Sm90 then F32 else PackedUe8M0 }
  }

  /** `require_raw_scale`. */
  predicate RawAccepted(t: TensorSpec, rows: int, cols: int) {
    t == Contiguous(t.dtype, t.rows, t.cols) && t.dtype == F32 && t.rows == rows && t.cols == cols
  }

  function TransformCall(raw: TensorSpec, layout: Layout2D, mn: int, k: int, granMn: int, granK: int): Transform {
    Transform(Descriptor(false, 2, raw), Descriptor(false, 2, layout.LogicalSpec()), mn, k, granMn, granK)
  }

  /** `prepare_fp8_gemm_scale`: the raw scale is checked, the layout computed, the output allocated as a
      view, and the transform validated and launched; the launch repeats the checks in its own terms. */
  method Prepare(raw: TensorSpec, mn: int, k: int, granMn: int, granK: int, dtype: DType)
    returns (prepared: Option<TensorSpec>)
    requires 0 < mn <= I64_MAX && 0 < k <= I64_MAX && 0 < granMn <= I64_MAX && 0 < granK <= I64_MAX
    requires dtype.IsScale()
    ensures prepared == Prepared(raw, mn, k, granMn, granK, dtype)
  {
    prepared := None;
    var rows, cols := RustCeilDiv(mn, granMn), RustCeilDiv(k, granK);
    CeilDivPositive(mn, granMn);
    CeilDivPositive(k, granK);
    if rows < 0 || cols < 0 || !RawAccepted(raw, rows, cols) {
      return;
    }
    if !Representable(mn, k, granK, dtype) {
      LimitsMeanRepresentable(mn, k, granMn, granK, dtype);
      return;
    }
    var layout := Expected(mn, k, granK, dtype);
    var call := TransformCall(raw, layout, mn, k, granMn, granK);
    if !RustAccepts(call) {
      return;
    }
    var plan := PlanTransform(call);
    if plan.Rejected? {
      return;
    }
    LayoutConverts(mn, k, granK, dtype);
    prepared := Some(CandleView(layout));
  }

  /** Sizes for which a scale can be prepared at all. */
  predicate Preparable(mn: int, k: int, granMn: int, granK: int, dtype: DType)
    requires mn > 0 && k > 0 && granMn > 0 && granK > 0 && dtype.IsScale()
  {
    SizeLimits(mn, k, granMn, granK, dtype) && k + granK * dtype.Packing() - 1 <= I64_MAX
  }

  lemma LimitsMeanRepresentable(mn: int, k: int, granMn: int, granK: int, dtype: DType)
    requires mn > 0 && k > 0 && granMn > 0 && granK > 0 && dtype.IsScale()
    ensures Preparable(mn, k, granMn, granK, dtype) ==> Representable(mn, k, granK, dtype)
  {
    if Preparable(mn, k, granMn, granK, dtype) {
      LimitsBoundRows(mn, k, granMn, granK, dtype);
      SmallMeansRepresentable(mn, k, granK, dtype);
    }
  }

  /** What preparing one scale comes to: it succeeds exactly on a raw scale of the documented shape whose
      sizes the transform launch admits, and yields the layout's logical view. */
  function Prepared(raw: TensorSpec, mn: int, k: int, granMn: int, granK: int, dtype: DType): Option<TensorSpec>
    requires 0 < mn && 0 < k && 0 < granMn && 0 < granK && dtype.IsScale()
  {
    if raw == Contiguous(F32, CeilDiv(mn, granMn), CeilDiv(k, granK)) && Preparable(mn, k, granMn, granK, dtype)
    then Some(Expected(mn, k, granK, dtype).LogicalSpec())
    else None
  }

  // Sizes

  /** At the granularity of the product, the 512 columns of the launch are 65536 elements of k. */
  lemma ColumnsMeanK(k: int)
    requires k > 0
    ensures CeilDiv(k, GRAN) <= 512 <==> k <= 65536
  {
    CeilDivCharacterized(k, GRAN, CeilDiv(k, GRAN));
  }

  /** Beyond k, no size that the product itself admits is refused by its transforms. */
  lemma GemmSizesPreparable(mn: int, k: int, granMn: int, dtype: DType)
    requires 0 < mn <= I32_MAX && k > 0 && dtype.IsScale()
    requires granMn == 1 || (granMn == GRAN && mn % 8 == 0 && dtype == PackedUe8M0)
    ensures Preparable(mn, k, granMn, GRAN, dtype) <==> k <= 65536
  {
    ColumnsMeanK(k);
    if k <= 65536 {
      if granMn == 1 {
        CeilDivPositive(mn, RowBlock(dtype));
      } else {
        EightIsAligned(mn);
        BlockedGridFits(mn, k);
      }
    }
  }

  lemma EightIsAligned(mn: int)
    requires mn % 8 == 0
    ensures AlignUp(mn, 4) == mn
  {
    assert mn == 4 * (2 * (mn / 8));
  }

  lemma BlockedGridFits(mn: int, k: int)
    requires 0 < mn <= I32_MAX && 0 < k <= 65536
    ensures Grid(ExtentFor(mn, k, GRAN, PackedUe8M0)) <= I32_MAX
  {
    ColumnsMeanK(k);
    var sfK := CeilDiv(k, GRAN);
    CeilDivPositive(k, GRAN);
    CeilDivCharacterized(sfK, 4, CeilDiv(sfK, 4));
    CeilDivPositive(sfK, 4);
    MulMonotone(CeilDiv(sfK, 4), 128, mn);
    CeilDivMonotone(mn * CeilDiv(sfK, 4), mn * 128, BLOCK);
    CeilDivCharacterized(mn * 128, BLOCK, CeilDiv(mn * 128, BLOCK));
  }

  // The two scales of a product

  /** The row granularity that `fp8_gemm_nt` reads off the shape of a raw scale on the newer
      architecture. */
  function GranOf(raw: TensorSpec, n: int, k: int): Option<int>
    requires 0 < n <= I64_MAX && 0 < k <= I64_MAX
  {
    if raw.rows == n && raw.cols == RustCeilDiv(k, GRAN) then Some(1)
    else if raw.rows == RustCeilDiv(n, GRAN) && raw.cols == RustCeilDiv(k, GRAN) then Some(GRAN)
    else None
  }

  /** The two shapes coincide for a single row only, so never for a width the product accepts. */
  lemma GranUnambiguous(n: int)
    requires n > 0
    ensures n == CeilDiv(n, GRAN) <==> n == 1
    ensures n % 8 == 0 ==> n != CeilDiv(n, GRAN)
  {
    CeilDivCharacterized(n, GRAN, n);
  }

  /** A granularity is read exactly when the shape is that of a raw scale with it. */
  lemma GranOfExactly(raw: TensorSpec, n: int, k: int, gran: int)
    requires 0 < n <= I64_MAX && 0 < k <= I64_MAX && n % 8 == 0 && (gran == 1 || gran == GRAN)
    ensures GranOf(raw, n, k) == Some(gran) <==> raw.rows == CeilDiv(n, gran) && raw.cols == CeilDiv(k, GRAN)
  {
    GranUnambiguous(n);
  }

  datatype Scales = Scales(a: TensorSpec, b: TensorSpec)

  /** The scale part of `fp8_gemm_nt`: rows of a are prepared one by one; b is passed on as it is, or
      prepared with the granularity of its shape. */
  method PrepareScales(p: Problem, a: TensorSpec, b: TensorSpec) returns (scales: Option<Scales>)
    requires p.Sized()
    ensures scales == PreparedScales(p, a, b)
  {
    scales := None;
    if !RawAccepted(a, p.m, RustCeilDiv(p.k, GRAN)) {
      return;
    }
    var preparedA := Prepare(a, p.m, p.k, 1, GRAN, p.ScaleType());
    if preparedA.None? {
      return;
    }
    if p.arch == Sm90 {
      if RawAccepted(b, RustCeilDiv(p.n, GRAN), RustCeilDiv(p.k, GRAN)) {
        scales := Some(Scales(preparedA.value, b));
      }
      return;
    }
    var gran := GranOf(b, p.n, p.k);
    if gran.None? {
      return;
    }
    var preparedB := Prepare(b, p.n, p.k, gran.value, GRAN, PackedUe8M0);
    if preparedB.Some? {
      scales := Some(Scales(preparedA.value, preparedB.value));
    }
  }

  function PreparedScales(p: Problem, a: TensorSpec, b: TensorSpec): Option<Scales>
    requires p.Sized()
  {
    var preparedA := Prepared(a, p.m, p.k, 1, GRAN, p.ScaleType());
    if preparedA.None? then None
    else if p.arch == Sm90 then
      if b == Contiguous(F32, CeilDiv(p.n, GRAN), CeilDiv(p.k, GRAN)) then Some(Scales(preparedA.value, b)) else None
    else
      var gran := GranOf(b, p.n, p.k);
      if gran.None? then None
      else
        var preparedB := Prepared(b, p.n, p.k, gran.value, GRAN, PackedUe8M0);
        if preparedB.None? then None else Some(Scales(preparedA.value, preparedB.value))
  }

  /** The scale checks of `validate_fp8_gemm_nt_spec`, and its check of n. */
  predicate ValidatorAccepts(p: Problem, s: Scales)
    requires p.Sized()
  {
    && p.n % 8 == 0
    && match p.arch
       case Sm90 =>
         && Representable(p.m, p.k, GRAN, F32)
         && s.a == Expected(p.m, p.k, GRAN, F32).LogicalSpec()
         && RawAccepted(s.b, RustCeilDiv(p.n, GRAN), RustCeilDiv(p.k, GRAN))
       case Sm100 =>
         && Representable(p.m, p.k, GRAN, PackedUe8M0)
         && s.a == Expected(p.m, p.k, GRAN, PackedUe8M0).LogicalSpec()
         && Representable(p.n, p.k, GRAN, PackedUe8M0)
         && s.b == Expected(p.n, p.k, GRAN, PackedUe8M0).LogicalSpec()
  }

  /** The configuration search of the architecture yields a configuration, as `BestConfig` of each states. */
  predicate SearchSelects(p: Problem, numSms: int)
    requires p.Sized() && numSms > 0
  {
    if p.arch == Sm90 then S90.Selects(p.m, p.n, p.k, numSms) else S100.Selects(p.m, p.n, numSms)
  }

  /** `tma_aligned_mn`: the rows of a tensor map must fit 32 bits after alignment. */
  predicate MapRowsFit(mn: int) { 0 <= TmaAlignedSize(mn, 4) <= I32_MAX }

  /** `launch_fp8_gemm_nt` and the launch of each architecture, up to the tensor maps: sizes, search, scales,
      and the sizes of the scales' tensor maps. */
  predicate LaunchAcceptsScales(p: Problem, s: Scales, numSms: int)
    requires p.Sized() && numSms > 0
  {
    && p.n % 8 == 0 && p.m <= I32_MAX && p.n <= I32_MAX && p.k <= I32_MAX
    && SearchSelects(p, numSms)
    && LaunchAccepts(s.a, p.m, p.k, GRAN, match p.arch case Sm90 => F32 case Sm100 => PackedUe8M0)
    && LaunchAcceptsB(p, s.b)
    && MapRowsFit(p.m) && (p.arch == Sm100 ==> MapRowsFit(p.n))
  }

  predicate LaunchAcceptsB(p: Problem, b: TensorSpec)
    requires p.Sized()
  {
    if p.arch == Sm90 then
      && RawScaleAccepted(Descriptor(false, 2, b))
      && b.rows == CeilDivI64(p.n, GRAN) && b.cols == CeilDivI64(p.k, GRAN)
    else LaunchAccepts(b, p.n, p.k, GRAN, PackedUe8M0)
  }

  /** Wave counts that fit 32 bits: all that the search demands of the sizes once k has few scales. */
  predicate WavesFit(p: Problem, numSms: int)
    requires p.Sized() && numSms > 0
  {
    if p.arch == Sm90 then S90.MostWaves(p.m, p.n, numSms) <= I32_MAX else S100.Selects(p.m, p.n, numSms)
  }

  lemma SearchMeansWaves(p: Problem, numSms: int)
    requires p.Sized() && numSms > 0 && p.k <= 65536
    ensures SearchSelects(p, numSms) <==> WavesFit(p, numSms)
  {
    ColumnsMeanK(p.k);
  }

  lemma MapRowsFitExactly(mn: int)
    requires mn > 0
    ensures MapRowsFit(mn) <==> mn <= I32_MAX - 3
  {
    TmaAlignedSizeIsAlignUp(mn, F32);
    AlignUpLeast(mn, 4);
    if mn > I32_MAX - 3 {
      assert mn <= I32_MAX ==> mn % 4 != 0;
    }
  }

  /** The documented raw scales: a value per row of a; for b a value per block of 128 rows, or also per
      row on the newer architecture. */
  predicate RawScales(p: Problem, a: TensorSpec, b: TensorSpec)
    requires p.Sized()
  {
    && a == Contiguous(F32, p.m, CeilDiv(p.k, GRAN))
    && (|| b == Contiguous(F32, CeilDiv(p.n, GRAN), CeilDiv(p.k, GRAN))
        || (p.arch == Sm100 && b == Contiguous(F32, p.n, CeilDiv(p.k, GRAN))))
  }

  /** Preparation, its transform launches included, then the validator, then the product's launch. */
  predicate PipelineAccepts(p: Problem, a: TensorSpec, b: TensorSpec, numSms: int)
    requires p.Sized() && numSms > 0
  {
    var prepared := PreparedScales(p, a, b);
    prepared.Some? && ValidatorAccepts(p, prepared.value) && LaunchAcceptsScales(p, prepared.value, numSms)
  }

  /** Whatever is prepared is what the Rust validator demands, once n is a multiple of eight. */
  lemma PreparedIsValid(p: Problem, a: TensorSpec, b: TensorSpec)
    requires p.Sized() && PreparedScales(p, a, b).Some?
    ensures ValidatorAccepts(p, PreparedScales(p, a, b).value) <==> p.n % 8 == 0
  {
    LimitsMeanRepresentable(p.m, p.k, 1, GRAN, p.ScaleType());
    CeilDivPositive(p.n, GRAN);
    CeilDivPositive(p.k, GRAN);
    if p.arch == Sm100 {
      LimitsMeanRepresentable(p.n, p.k, GranOf(b, p.n, p.k).value, GRAN, PackedUe8M0);
    }
  }

  lemma PreparedAAccepted(p: Problem, a: TensorSpec, b: TensorSpec)
    requires p.Sized() && PreparedScales(p, a, b).Some?
    ensures LaunchAccepts(PreparedScales(p, a, b).value.a, p.m, p.k, GRAN, p.ScaleType()) && p.k <= 65536
  {
    ColumnsMeanK(p.k);
    LimitsMeanRepresentable(p.m, p.k, 1, GRAN, p.ScaleType());
    EveryoneAgrees(p.m, p.k, GRAN, p.ScaleType(), PreparedScales(p, a, b).value.a);
  }

  lemma PreparedBAccepted(p: Problem, a: TensorSpec, b: TensorSpec)
    requires p.Sized() && PreparedScales(p, a, b).Some? && p.n <= I32_MAX
    ensures LaunchAcceptsB(p, PreparedScales(p, a, b).value.b)
  {
    if p.arch == Sm90 {
      CeilDivPositive(p.n, GRAN);
      CeilDivPositive(p.k, GRAN);
      PreparedAAccepted(p, a, b);
    } else {
      LimitsMeanRepresentable(p.n, p.k, GranOf(b, p.n, p.k).value, GRAN, PackedUe8M0);
      EveryoneAgrees(p.n, p.k, GRAN, PackedUe8M0, PreparedScales(p, a, b).value.b);
    }
  }

  /** And what the product's launch demands, once m and n fit the tensor maps and the search succeeds. */
  lemma PreparedIsLaunchable(p: Problem, a: TensorSpec, b: TensorSpec, numSms: int)
    requires p.Sized() && numSms > 0 && PreparedScales(p, a, b).Some? && p.n % 8 == 0
    ensures LaunchAcceptsScales(p, PreparedScales(p, a, b).value, numSms)
            <==> p.m <= I32_MAX - 3 && p.n <= I32_MAX && WavesFit(p, numSms)
  {
    PreparedAAccepted(p, a, b);
    if p.n <= I32_MAX {
      PreparedBAccepted(p, a, b);
      SearchMeansWaves(p, numSms);
      MapRowsFitExactly(p.m);
      MapRowsFitExactly(p.n);
    }
  }

  lemma DocumentedIsPrepared(p: Problem, a: TensorSpec, b: TensorSpec)
    requires p.Sized() && p.n % 8 == 0 && p.m <= I32_MAX && p.n <= I32_MAX
    ensures PreparedScales(p, a, b).Some? <==> RawScales(p, a, b) && p.k <= 65536
  {
    GemmSizesPreparable(p.m, p.k, 1, p.ScaleType());
    GemmSizesPreparable(p.n, p.k, 1, PackedUe8M0);
    GemmSizesPreparable(p.n, p.k, GRAN, PackedUe8M0);
    GranOfExactly(b, p.n, p.k, 1);
    GranOfExactly(b, p.n, p.k, GRAN);
  }

  /** End to end, for all 64-bit sizes: preparation succeeds and the validator and the launch accept what
      it prepared if and only if the raw scales are the documented ones, n is a multiple of eight, m and
      n fit the launch's 32 bits, k is at most 65536, and the wave counts of the search fit. */
  lemma PipelineAcceptsExactly(p: Problem, a: TensorSpec, b: TensorSpec, numSms: int)
    requires p.Sized() && numSms > 0
    ensures PipelineAccepts(p, a, b, numSms)
            <==> RawScales(p, a, b) && p.n % 8 == 0 && p.m <= I32_MAX - 3 && p.n <= I32_MAX && p.k <= 65536
                 && WavesFit(p, numSms)
  {
    if PreparedScales(p, a, b).Some? && p.n % 8 == 0 {
      PreparedIsValid(p, a, b);
      PreparedIsLaunchable(p, a, b, numSms);
    }
    if p.n % 8 == 0 && p.m <= I32_MAX && p.n <= I32_MAX {
      DocumentedIsPrepared(p, a, b);
    }
  }
}
