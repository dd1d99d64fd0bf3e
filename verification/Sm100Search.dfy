/** Configuration search for compute capability 10: candidate enumeration and the guarantees every
    candidate carries. */
module Sm100Search {
  import opened IntMath
  import opened GemmTypes
  import opened Wrappers

  const MAX_STAGES: int := 32
  const TMEM_COLUMNS: int := 512

  function BlockMs(swapAb: bool, m: int): seq<int> {
    if swapAb then seq(16, i => 16 * (i + 1))
    else if m <= 32 then [32] else if m <= 64 then [64] else [128]
  }

  function BlockNs(swapAb: bool, k: int): seq<int> {
    if swapAb then [128]
    else [16] + seq(if k <= 256 then 4 else 8, i => 32 * (i + 1))
  }

  function Storage(l: GemmLayout): Option<StorageConfig>
    requires SmallCluster(l)
  {
    var ab, cd := SwizzleMode(BLOCK_K, 1), SwizzleMode(l.blockN, 2);
    if ab.None? || cd.None? then None
    else Some(StorageConfig(l.blockM / l.clusterN, l.blockN / l.clusterM,
                            if l.swapAb then 16 else Min(128, l.blockM), l.blockN,
                            ab.value, ab.value, cd.value))
  }

  /** Shared memory besides the pipeline stages: output tile, barriers, tensor-memory pointer. */
  function FixedBytes(l: GemmLayout, s: StorageConfig): int {
    var smemCd := if l.swapAb then s.storeBlockM * s.storeBlockN * 2 * 2 else s.storeBlockM * s.swizzleCd * 2;
    var smemBarriers := MAX_STAGES * 8 * 3 + 2 * 8 * 2 + 8;
    smemCd + smemBarriers + 4
  }

  function StageBytes(l: GemmLayout, s: StorageConfig): int {
    s.loadBlockM * BLOCK_K + s.loadBlockN * BLOCK_K + AlignUp(l.blockM, 128) * 4 + AlignUp(l.blockN, 128) * 4
  }

  function PipelineOf(l: GemmLayout, s: StorageConfig): PipelineConfig
    requires StageBytes(l, s) > 0
  {
    Pipeline(FixedBytes(l, s), StageBytes(l, s), MAX_STAGES)
  }

  function Launch(): LaunchConfig { LaunchConfig(256, 32, 128, 128, 128) }

  /** Tensor-memory columns: two accumulators and the scale columns. */
  function TmemColumns(l: GemmLayout): int {
    2 * (if l.swapAb then l.blockM else l.blockN) + (AlignUp(l.blockM, 128) / 32 + AlignUp(l.blockN, 128) / 32)
  }

  predicate ClusterAllowed(swapAb: bool, numSms: int, cm: int, cn: int)
    requires cm * cn > 0
  {
    !(swapAb && cm > 1) && cm * cn <= 2 && !(!swapAb && cn > 1) && numSms % (cm * cn) == 0
  }

  predicate RowAllowed(m: int, bm: int, cm: int, cn: int)
    requires bm > 0 && cm > 0 && cn > 0
  {
    (bm / cn) % 8 == 0 && CeilDiv(m, bm) % cm == 0
  }

  predicate ShapeAllowed(n: int, l: GemmLayout)
    requires PositiveBlocks(l) && SmallCluster(l)
  {
    && (l.blockN / l.clusterM) % 8 == 0
    && CeilDiv(n, l.blockN) % l.clusterN == 0
    && !(l.swapAb && l.blockN != 128)
    && TmemColumns(l) <= TMEM_COLUMNS
    && Storage(l).Some? && Storage(l).value.swizzleA == 128 && Storage(l).value.swizzleB == 128
  }

  /** Everything the nested loops check before they push a layout. The pipeline depth is not among
      it. */
  predicate Accepted(m: int, n: int, numSms: int, l: GemmLayout) {
    && PositiveBlocks(l) && SmallCluster(l)
    && ClusterAllowed(l.swapAb, numSms, l.clusterM, l.clusterN)
    && RowAllowed(m, l.blockM, l.clusterM, l.clusterN)
    && ShapeAllowed(n, l)
  }

  function Accepts(m: int, n: int, numSms: int): GemmLayout -> bool { l => Accepted(m, n, numSms, l) }

  function CandidatesFor(swapAb: bool, m: int, n: int, k: int, numSms: int): seq<GemmLayout> {
    Filter(Grid(swapAb, BlockMs(swapAb, m), BlockNs(swapAb, k)), Accepts(m, n, numSms))
  }

  /** The candidate list, in enumeration order. */
  function Candidates(m: int, n: int, k: int, numSms: int): seq<GemmLayout> {
    CandidatesFor(false, m, n, k, numSms) + CandidatesFor(true, m, n, k, numSms)
  }

  lemma CandidateCharacterized(m: int, n: int, k: int, numSms: int, l: GemmLayout)
    ensures l in Candidates(m, n, k, numSms)
            <==> l.blockM in BlockMs(l.swapAb, m) && l.blockN in BlockNs(l.swapAb, k) && Accepted(m, n, numSms, l)
  {
    CandidateForCharacterized(false, m, n, k, numSms, l);
    CandidateForCharacterized(true, m, n, k, numSms, l);
  }

  lemma CandidateForCharacterized(swapAb: bool, m: int, n: int, k: int, numSms: int, l: GemmLayout)
    ensures l in CandidatesFor(swapAb, m, n, k, numSms)
            <==> l.swapAb == swapAb && l.blockM in BlockMs(swapAb, m) && l.blockN in BlockNs(swapAb, k)
                 && Accepted(m, n, numSms, l)
  {
    FilterMember(Grid(swapAb, BlockMs(swapAb, m), BlockNs(swapAb, k)), Accepts(m, n, numSms), l);
    GridMember(swapAb, BlockMs(swapAb, m), BlockNs(swapAb, k), l);
  }

  lemma BlockSizes(m: int, k: int, l: GemmLayout)
    requires l.blockM in BlockMs(l.swapAb, m) && l.blockN in BlockNs(l.swapAb, k)
    ensures 16 <= l.blockM <= 256 && l.blockM % 16 == 0
    ensures l.blockN == 16 || (32 <= l.blockN <= 256 && l.blockN % 32 == 0)
    ensures if l.swapAb then l.blockN == 128 else l.blockM <= 128
  {
    if l.swapAb {
      var i :| 0 <= i < 16 && l.blockM == 16 * (i + 1);
    } else if l.blockN != 16 {
      var i :| 0 <= i < 8 && l.blockN == 32 * (i + 1);
    }
  }

  /** No enumerated block shape makes the swizzle rule throw. */
  lemma StorageDefined(l: GemmLayout)
    requires SmallCluster(l) && l.blockN % 16 == 0
    ensures Storage(l).Some? && Storage(l).value.swizzleA == 128
  {
    assert (l.blockN * 2) % 32 == 0;
  }

  lemma NarrowBlockAccepted(m: int, n: int, numSms: int, blockM: int)
    requires blockM == 32 || blockM == 64 || blockM == 128
    ensures Accepted(m, n, numSms, GemmLayout(false, blockM, 16, 1, 1))
  {
    var l := GemmLayout(false, blockM, 16, 1, 1);
    assert AlignUp(blockM, 128) == 128 && AlignUp(16, 128) == 128;
    assert Storage(l).Some? && Storage(l).value.swizzleA == 128;
    assert numSms % 1 == 0 && CeilDiv(m, blockM) % 1 == 0 && CeilDiv(n, 16) % 1 == 0;
  }

  /** The list is never empty: the narrowest unclustered block passes every filter. */
  lemma CandidatesExist(m: int, n: int, k: int, numSms: int)
    ensures Candidates(m, n, k, numSms) != []
  {
    var blockM := if m <= 32 then 32 else if m <= 64 then 64 else 128;
    var l := GemmLayout(false, blockM, 16, 1, 1);
    assert BlockMs(false, m)[0] == blockM && BlockNs(false, k)[0] == 16;
    NarrowBlockAccepted(m, n, numSms, blockM);
    CandidateCharacterized(m, n, k, numSms, l);
    SomeMember(Candidates(m, n, k, numSms), l);
  }

  lemma SomeMember<T>(xs: seq<T>, x: T)
    requires x in xs
    ensures xs != []
  {
  }

  lemma AlignUpBetween(v: int, low: int, high: int)
    requires low < v <= high && low % 128 == 0 && high % 128 == 0
    ensures low + 128 <= AlignUp(v, 128) <= high
  {
    AlignUpLeast(v, 128);
  }

  /** Tensor memory bounds the blocks. */
  lemma TmemBoundsBlocks(m: int, k: int, l: GemmLayout)
    requires l.blockM in BlockMs(l.swapAb, m) && l.blockN in BlockNs(l.swapAb, k) && TmemColumns(l) <= TMEM_COLUMNS
    ensures 16 <= l.blockM && 16 <= l.blockN
    ensures if l.swapAb then l.blockM <= 240 && l.blockN == 128 else l.blockM <= 128 && l.blockN <= 224
  {
    BlockSizes(m, k, l);
    AlignUpBetween(l.blockM, 0, 256);
    AlignUpBetween(l.blockN, 0, 256);
  }

  lemma LoadSizes(l: GemmLayout)
    requires SmallCluster(l) && Storage(l).Some? && l.blockM >= 16 && l.blockN >= 16
    ensures 0 < Storage(l).value.loadBlockM <= l.blockM && 0 < Storage(l).value.loadBlockN <= l.blockN
  {
  }

  lemma FourStagesFitSwapped(l: GemmLayout)
    requires SmallCluster(l) && Storage(l).Some? && l.swapAb && 16 <= l.blockM <= 240 && l.blockN == 128
    ensures var s := Storage(l).value;
            StageBytes(l, s) > 0 && Fits(FixedBytes(l, s), StageBytes(l, s), 4)
  {
    LoadSizes(l);
    AlignUpBetween(l.blockM, 0, 256);
    AlignUpBetween(l.blockN, 0, 128);
  }

  lemma FourStagesFitPlain(l: GemmLayout)
    requires SmallCluster(l) && Storage(l).Some? && !l.swapAb && 16 <= l.blockM <= 128 && 16 <= l.blockN <= 224
    ensures var s := Storage(l).value;
            StageBytes(l, s) > 0 && Fits(FixedBytes(l, s), StageBytes(l, s), 4)
  {
    LoadSizes(l);
    AlignUpBetween(l.blockM, 0, 128);
    AlignUpBetween(l.blockN, 0, 256);
    var s := Storage(l).value;
    assert 16 <= s.swizzleCd <= 128 && 0 < s.storeBlockM <= 128;
    MulMonotone(s.storeBlockM, 128, s.swizzleCd);
  }

  lemma FourStagesFit(m: int, n: int, k: int, numSms: int, l: GemmLayout)
    requires l in Candidates(m, n, k, numSms)
    ensures SmallCluster(l) && Storage(l).Some?
    ensures var s := Storage(l).value;
            StageBytes(l, s) > 0 && Fits(FixedBytes(l, s), StageBytes(l, s), 4)
  {
    CandidateCharacterized(m, n, k, numSms, l);
    TmemBoundsBlocks(m, k, l);
    if l.swapAb { FourStagesFitSwapped(l); } else { FourStagesFitPlain(l); }
  }

  /** Although the enumeration never looks at the pipeline, every candidate gets at least four
      stages, the most that fit under the cap, within shared memory. */
  lemma CandidatePipeline(m: int, n: int, k: int, numSms: int, l: GemmLayout)
    requires l in Candidates(m, n, k, numSms)
    ensures SmallCluster(l) && Storage(l).Some? && StageBytes(l, Storage(l).value) > 0
    ensures var p := PipelineOf(l, Storage(l).value);
            && 4 <= p.numStages <= MAX_STAGES
            && p.smemSize <= SMEM_CAPACITY
            && (p.numStages < MAX_STAGES ==> p.smemSize + StageBytes(l, Storage(l).value) > SMEM_CAPACITY)
  {
    FourStagesFit(m, n, k, numSms, l);
    var s := Storage(l).value;
    PipelineIsLargest(FixedBytes(l, s), StageBytes(l, s), MAX_STAGES, 4);
    PipelineSizing(FixedBytes(l, s), StageBytes(l, s), MAX_STAGES);
  }

  /** Four is the best bound: the widest block that tensor memory admits gets exactly four. */
  lemma FourStagesAttained()
    ensures var l := GemmLayout(false, 128, 224, 1, 1);
            && l in Candidates(128, 224, 512, 1)
            && Storage(l).Some? && StageBytes(l, Storage(l).value) > 0
            && PipelineOf(l, Storage(l).value).numStages == 4
  {
    var l := GemmLayout(false, 128, 224, 1, 1);
    assert AlignUp(128, 128) == 128 && AlignUp(224, 128) == 256;
    StorageDefined(l);
    assert Storage(l).value.swizzleCd == 64;
    assert BlockNs(false, 512)[7] == 224;
    assert Accepted(128, 224, 1, l);
    CandidateCharacterized(128, 224, 512, 1, l);
    assert FixedBytes(l, Storage(l).value) == 17196 && StageBytes(l, Storage(l).value) == 46592;
  }

  /** Clusters tile the block grid in each direction and the SMs, so no cluster is split by the edge
      of the grid or by a wave: the blocks of the last wave are whole clusters too. */
  lemma ClustersTile(m: int, n: int, k: int, numSms: int, l: GemmLayout)
    requires l in Candidates(m, n, k, numSms) && numSms > 0
    ensures PositiveBlocks(l) && SmallCluster(l) && 1 <= l.ClusterSize() <= 2
    ensures CeilDiv(m, l.blockM) % l.clusterM == 0 && CeilDiv(n, l.blockN) % l.clusterN == 0
    ensures numSms % l.ClusterSize() == 0
    ensures NumBlocks(m, n, l) % l.ClusterSize() == 0
    ensures (NumBlocks(m, n, l) % numSms) % l.ClusterSize() == 0
    ensures TmemColumns(l) <= TMEM_COLUMNS
  {
    CandidateCharacterized(m, n, k, numSms, l);
    var rows, columns := CeilDiv(m, l.blockM), CeilDiv(n, l.blockN);
    if l.ClusterSize() == 2 {
      assert l.clusterM == 2 || l.clusterN == 2;
      if l.clusterM == 2 { EvenProduct(rows, columns); } else { EvenProduct(columns, rows); }
      EvenRemainder(NumBlocks(m, n, l), numSms);
    }
  }

  /** The blocks of a cluster share the loading of their common tile evenly: the parts make up the
      whole. */
  lemma LoadsMakeUpTile(m: int, n: int, k: int, numSms: int, l: GemmLayout)
    requires l in Candidates(m, n, k, numSms)
    ensures SmallCluster(l) && Storage(l).Some?
    ensures Storage(l).value.loadBlockM * l.clusterN == l.blockM
    ensures Storage(l).value.loadBlockN * l.clusterM == l.blockN
    ensures Storage(l).value.loadBlockM % 8 == 0 && Storage(l).value.loadBlockN % 8 == 0
  {
    CandidateCharacterized(m, n, k, numSms, l);
    EvenBlocks(m, k, l);
    PartsMakeWhole(l.blockM, l.clusterN);
    PartsMakeWhole(l.blockN, l.clusterM);
  }

  lemma EvenBlocks(m: int, k: int, l: GemmLayout)
    requires l.blockM in BlockMs(l.swapAb, m) && l.blockN in BlockNs(l.swapAb, k)
    ensures l.blockM % 2 == 0 && l.blockN % 2 == 0
  {
    BlockSizes(m, k, l);
  }

  lemma PartsMakeWhole(x: int, parts: int)
    requires x % 2 == 0 && 1 <= parts <= 2
    ensures x / parts * parts == x
  {
  }

  lemma EvenProduct(a: int, b: int)
    requires a % 2 == 0
    ensures (a * b) % 2 == 0 && (b * a) % 2 == 0
  {
    var h := a / 2;
    assert a * b == 2 * (h * b);
  }

  lemma EvenRemainder(x: int, d: int)
    requires d > 0 && x % 2 == 0 && d % 2 == 0
    ensures (x % d) % 2 == 0
  {
    var q, h, g := x / d, d / 2, x / 2;
    EvenDifference(x, q, h, g, x % d) by {
      assert x == q * d + x % d;
      assert q * d == 2 * (q * h);
    }
  }

  lemma EvenDifference(x: int, q: int, h: int, g: int, r: int)
    requires x == 2 * g && x == 2 * (q * h) + r
    ensures r % 2 == 0
  {
    assert r == 2 * (g - q * h);
  }

  // The loops

  /** The push_back loops of `sm100_layout_candidates`. */
  method LayoutCandidates(m: int, n: int, k: int, numSms: int) returns (candidates: seq<GemmLayout>)
    ensures candidates == Candidates(m, n, k, numSms)
  {
    candidates := [];
    ghost var plain, swapped := CandidatesFor(false, m, n, k, numSms), CandidatesFor(true, m, n, k, numSms);
    for swapAb := 0 to 2
      invariant candidates == if swapAb == 0 then [] else if swapAb == 1 then plain else plain + swapped
    {
      var blockMs, blockNs := BlockLists(swapAb != 0, m, k);
      var pushed := AllClusters(swapAb != 0, m, n, numSms, blockMs, blockNs);
      candidates := candidates + pushed;
    }
  }

  /** What the inner loops rely on about the block lists. */
  predicate Multiples(blocks: seq<int>) { forall b :: b in blocks ==> b > 0 && b % 16 == 0 }

  method BlockLists(swapAb: bool, m: int, k: int) returns (blockMs: seq<int>, blockNs: seq<int>)
    ensures blockMs == BlockMs(swapAb, m) && blockNs == BlockNs(swapAb, k)
    ensures Multiples(blockMs) && Multiples(blockNs)
  {
    blockMs, blockNs := [], [];
    if swapAb {
      var blockM := 16;
      while blockM <= 256
        invariant blockM == 16 * (|blockMs| + 1) && |blockMs| <= 16
        invariant blockMs == BlockMs(true, m)[..|blockMs|] && Multiples(blockMs)
      {
        blockMs := blockMs + [blockM];
        blockM := blockM + 16;
      }
      blockNs := [128];
    } else {
      if m <= 32 {
        blockMs := [32];
      } else if m <= 64 {
        blockMs := [64];
      } else {
        blockMs := [128];
      }
      blockNs := [16];
      var end := if k <= 256 then 128 else 256;
      var blockN := 32;
      while blockN <= end
        invariant blockN == 32 * |blockNs| && 1 <= |blockNs| && blockN <= end + 32
        invariant blockNs == BlockNs(false, k)[..|blockNs|] && Multiples(blockNs)
      {
        blockNs := blockNs + [blockN];
        blockN := blockN + 32;
      }
    }
  }

  method AllClusters(swapAb: bool, m: int, n: int, numSms: int, blockMs: seq<int>, blockNs: seq<int>)
    returns (pushed: seq<GemmLayout>)
    requires Multiples(blockMs) && Multiples(blockNs)
    ensures pushed == Filter(Grid(swapAb, blockMs, blockNs), Accepts(m, n, numSms))
  {
    pushed := [];
    for clusterM := 1 to 3
      invariant pushed == Before(swapAb, clusterM, m, n, numSms, blockMs, blockNs)
    {
      if swapAb && clusterM > 1 {
        SkippedClusters(m, n, numSms, blockMs, blockNs);
        continue;
      }
      pushed := ClusterRow(swapAb, m, n, numSms, clusterM, blockMs, blockNs, pushed);
    }
  }

  /** What has been pushed when the outer cluster loop reaches clusterM. */
  function Before(swapAb: bool, clusterM: int, m: int, n: int, numSms: int, bms: seq<int>, bns: seq<int>)
    : seq<GemmLayout>
  {
    if clusterM <= 1 then [] else Filter(UpTo(swapAb, clusterM - 1, bms, bns), Accepts(m, n, numSms))
  }

  /** The loop over the second cluster side. */
  method ClusterRow(swapAb: bool, m: int, n: int, numSms: int, clusterM: int, blockMs: seq<int>, blockNs: seq<int>,
                    before: seq<GemmLayout>)
    returns (pushed: seq<GemmLayout>)
    requires 1 <= clusterM <= 2 && Multiples(blockMs) && Multiples(blockNs)
    requires before == Before(swapAb, clusterM, m, n, numSms, blockMs, blockNs)
    ensures pushed == Before(swapAb, clusterM + 1, m, n, numSms, blockMs, blockNs)
  {
    pushed := before;
    ghost var p := Accepts(m, n, numSms);
    WithinEnds(swapAb, clusterM, blockMs, blockNs);
    for clusterN := 1 to 3
      invariant pushed == Filter(Within(swapAb, clusterM, clusterN - 1, blockMs, blockNs), p)
    {
      var more := OneCluster(swapAb, m, n, numSms, clusterM, clusterN, blockMs, blockNs);
      WithinStep(swapAb, clusterM, clusterN, blockMs, blockNs, p);
      pushed := pushed + more;
    }
  }

  lemma SkippedClusters(m: int, n: int, numSms: int, bms: seq<int>, bns: seq<int>)
    ensures Filter(UpTo(true, 2, bms, bns), Accepts(m, n, numSms))
         == Filter(UpTo(true, 1, bms, bns), Accepts(m, n, numSms))
  {
    var p := Accepts(m, n, numSms);
    var rest := Block(true, 2, 1, bms, bns) + Block(true, 2, 2, bms, bns);
    forall l | l in rest
      ensures !p(l)
    {
      BlockMember(true, 2, 1, bms, bns, l);
      BlockMember(true, 2, 2, bms, bns, l);
    }
    FilterNone(rest, p);
    assert UpTo(true, 2, bms, bns) == UpTo(true, 1, bms, bns) + rest;
    FilterAppend(UpTo(true, 1, bms, bns), rest, p);
  }

  /** The two inner loops, for one cluster shape. */
  method OneCluster(swapAb: bool, m: int, n: int, numSms: int, clusterM: int, clusterN: int,
                    blockMs: seq<int>, blockNs: seq<int>)
    returns (pushed: seq<GemmLayout>)
    requires 1 <= clusterM <= 2 && 1 <= clusterN <= 2
    requires Multiples(blockMs) && Multiples(blockNs)
    ensures pushed == Filter(Block(swapAb, clusterM, clusterN, blockMs, blockNs), Accepts(m, n, numSms))
  {
    ghost var p := Accepts(m, n, numSms);
    pushed := [];
    if clusterM * clusterN > 2 || (swapAb && clusterM > 1) || (!swapAb && clusterN > 1)
       || numSms % (clusterM * clusterN) != 0
    {
      forall l | l in Block(swapAb, clusterM, clusterN, blockMs, blockNs) ensures !p(l) {
        BlockMember(swapAb, clusterM, clusterN, blockMs, blockNs, l);
      }
      FilterNone(Block(swapAb, clusterM, clusterN, blockMs, blockNs), p);
      return;
    }
    for i := 0 to |blockMs|
      invariant pushed == Filter(Block(swapAb, clusterM, clusterN, blockMs[..i], blockNs), p)
    {
      assert blockMs[i] in blockMs;
      var row := OneRow(swapAb, m, n, numSms, clusterM, clusterN, blockMs[i], blockNs);
      assert blockMs[..i + 1][..i] == blockMs[..i];
      FilterAppend(Block(swapAb, clusterM, clusterN, blockMs[..i], blockNs),
                   Line(swapAb, clusterM, clusterN, blockMs[i], blockNs), p);
      pushed := pushed + row;
    }
    assert blockMs[..|blockMs|] == blockMs;
  }

  method OneRow(swapAb: bool, m: int, n: int, numSms: int, clusterM: int, clusterN: int, blockM: int,
                blockNs: seq<int>)
    returns (pushed: seq<GemmLayout>)
    requires 1 <= clusterM <= 2 && 1 <= clusterN <= 2 && ClusterAllowed(swapAb, numSms, clusterM, clusterN)
    requires blockM > 0 && Multiples(blockNs)
    ensures pushed == Filter(Line(swapAb, clusterM, clusterN, blockM, blockNs), Accepts(m, n, numSms))
  {
    ghost var p := Accepts(m, n, numSms);
    ghost var line := Line(swapAb, clusterM, clusterN, blockM, blockNs);
    pushed := [];
    if (blockM / clusterN) % 8 != 0 || CeilDiv(m, blockM) % clusterM != 0 {
      FilterNone(line, p);
      return;
    }
    for j := 0 to |blockNs|
      invariant pushed == Filter(line[..j], p)
    {
      assert blockNs[j] in blockNs;
      assert line[..j + 1][..j] == line[..j];
      var layout := GemmLayout(swapAb, blockM, blockNs[j], clusterM, clusterN);
      var keep := KeepShape(m, n, numSms, layout);
      if keep {
        pushed := pushed + [layout];
      }
    }
    assert line[..|blockNs|] == line;
  }

  /** The filters in the innermost loop body. */
  method KeepShape(m: int, n: int, numSms: int, l: GemmLayout) returns (keep: bool)
    requires PositiveBlocks(l) && l.blockN % 16 == 0
    requires SmallCluster(l) && ClusterAllowed(l.swapAb, numSms, l.clusterM, l.clusterN)
    requires RowAllowed(m, l.blockM, l.clusterM, l.clusterN)
    ensures keep == Accepted(m, n, numSms, l)
  {
    StorageDefined(l);
    if (l.blockN / l.clusterM) % 8 != 0 {
      return false;
    }
    if CeilDiv(n, l.blockN) % l.clusterN != 0 {
      return false;
    }
    if l.swapAb && l.blockN != 128 {
      return false;
    }
    var sfBlockM, sfBlockN := AlignUp(l.blockM, 128), AlignUp(l.blockN, 128);
    var tmemSfCols := sfBlockM / 32 + sfBlockN / 32;
    var ummaN := if l.swapAb then l.blockM else l.blockN;
    if 2 * ummaN + tmemSfCols > 512 {
      return false;
    }
    var storage := Storage(l).value;
    if storage.swizzleA != 128 || storage.swizzleB != 128 {
      return false;
    }
    return true;
  }
}
