/** Configuration search for compute capability 9: candidate enumeration, cost model, selection.
    Costs are exact reals, with infinity apart. */
module Sm90Search {
  import opened IntMath
  import opened GemmTypes
  import opened Wrappers

  const MAX_STAGES: int := 16

  function BlockMs(m: int): seq<int> {
    [64, 128] + (if m <= 16 then [16] else []) + (if m <= 32 then [32] else []) + [256]
  }

  /** 16, 32, ..., 192. */
  function BlockNs(): seq<int> { seq(12, i => 16 * (i + 1)) }

  /** None where computing the swizzle modes throws. */
  function Storage(l: GemmLayout): Option<StorageConfig> {
    var ab, cd := SwizzleMode(BLOCK_K, 1), SwizzleMode(l.blockN, 2);
    if ab.None? || cd.None? then None
    else Some(StorageConfig(l.blockM, l.blockN, l.blockM, l.blockN, ab.value, ab.value, cd.value))
  }

  /** Shared memory besides the pipeline stages: output tile, barriers, scales of the second operand. */
  function FixedBytes(k: int, l: GemmLayout): int
    requires PositiveBlocks(l)
  {
    var smemCd := AlignUp(l.blockM * l.blockN * 2, 1024);
    var smemBarriers := MAX_STAGES * 8 * 2;
    var uniformSfb := if BLOCK_K % l.blockN == 0 then 1 else 2;
    var smemExtraSfb := AlignUp(CeilDiv(k, BLOCK_K) * 4 * uniformSfb, 8);
    smemCd + smemBarriers + smemExtraSfb
  }

  function StageBytes(l: GemmLayout): (b: int)
    requires PositiveBlocks(l)
    ensures b > 0
  {
    AlignUpLeast(l.blockM * 4, 128);
    l.blockM * BLOCK_K + l.blockN * BLOCK_K + AlignUp(l.blockM * 4, 128)
  }

  function PipelineOf(k: int, l: GemmLayout): PipelineConfig
    requires PositiveBlocks(l)
  {
    Pipeline(FixedBytes(k, l), StageBytes(l), MAX_STAGES)
  }

  function Launch(l: GemmLayout): LaunchConfig {
    var math := if l.blockM <= 64 then 128 else 256;
    LaunchConfig(128 + math, 128, math, 0, 0)
  }

  predicate ClusterAllowed(numSms: int, cm: int, cn: int)
    requires cm * cn > 0
  {
    cm * cn <= 2 && numSms % (cm * cn) == 0
  }

  predicate ShapeAllowed(bm: int, bn: int) {
    && !(bn > BLOCK_K && bn % (bn - BLOCK_K) != 0 && BLOCK_K % (bn - BLOCK_K) != 0)
    && !(bm > 128 && bn > 128)
  }

  /** Fewest stages the enumeration accepts. */
  function MinStages(l: GemmLayout): int { if l.blockM * l.blockN < 128 * 192 then 4 else 3 }

  /** Everything the nested loops check before they push a layout. */
  predicate Accepted(k: int, numSms: int, l: GemmLayout) {
    && PositiveBlocks(l) && SmallCluster(l)
    && ClusterAllowed(numSms, l.clusterM, l.clusterN)
    && ShapeAllowed(l.blockM, l.blockN)
    && Storage(l).Some? && Storage(l).value.swizzleA % 64 == 0 && Storage(l).value.swizzleB % 64 == 0
    && PipelineOf(k, l).numStages >= MinStages(l)
  }

  function Accepts(k: int, numSms: int): GemmLayout -> bool { l => Accepted(k, numSms, l) }

  /** The candidate list, in enumeration order. */
  function Candidates(m: int, k: int, numSms: int): seq<GemmLayout> {
    Filter(Grid(false, BlockMs(m), BlockNs()), Accepts(k, numSms))
  }

  lemma CandidateCharacterized(m: int, k: int, numSms: int, l: GemmLayout)
    ensures l in Candidates(m, k, numSms)
            <==> !l.swapAb && l.blockM in BlockMs(m) && l.blockN in BlockNs() && Accepted(k, numSms, l)
  {
    FilterMember(Grid(false, BlockMs(m), BlockNs()), Accepts(k, numSms), l);
    GridMember(false, BlockMs(m), BlockNs(), l);
  }

  /** No enumerated block shape makes the swizzle rule throw. */
  lemma StorageDefined(l: GemmLayout)
    requires l.blockN in BlockNs()
    ensures Storage(l).Some?
  {
    var i :| 0 <= i < 12 && l.blockN == 16 * (i + 1);
    assert l.blockN * 2 == 32 * (i + 1);
    assert (l.blockN * 2) % 32 == 0;
  }

  /** The push_back loops of `sm90_layout_candidates`. */
  method LayoutCandidates(m: int, k: int, numSms: int) returns (candidates: seq<GemmLayout>)
    ensures candidates == Candidates(m, k, numSms)
  {
    var blockMs, blockNs := BlockLists(m);
    candidates := [];
    for clusterM := 1 to 3
      invariant candidates == Before(clusterM, k, numSms, blockMs, blockNs)
    {
      candidates := ClusterRow(k, numSms, clusterM, blockMs, blockNs, candidates);
    }
  }

  /** What has been pushed when the outer cluster loop reaches clusterM. */
  function Before(clusterM: int, k: int, numSms: int, bms: seq<int>, bns: seq<int>): seq<GemmLayout> {
    if clusterM <= 1 then [] else Filter(UpTo(false, clusterM - 1, bms, bns), Accepts(k, numSms))
  }

  /** The loop over the second cluster side. */
  method ClusterRow(k: int, numSms: int, clusterM: int, blockMs: seq<int>, blockNs: seq<int>, before: seq<GemmLayout>)
    returns (candidates: seq<GemmLayout>)
    requires 1 <= clusterM <= 2 && blockNs == BlockNs() && forall b :: b in blockMs ==> b > 0
    requires before == Before(clusterM, k, numSms, blockMs, blockNs)
    ensures candidates == Before(clusterM + 1, k, numSms, blockMs, blockNs)
  {
    candidates := before;
    ghost var p := Accepts(k, numSms);
    WithinEnds(false, clusterM, blockMs, blockNs);
    for clusterN := 1 to 3
      invariant candidates == Filter(Within(false, clusterM, clusterN - 1, blockMs, blockNs), p)
    {
      var pushed := OneCluster(k, numSms, clusterM, clusterN, blockMs, blockNs);
      WithinStep(false, clusterM, clusterN, blockMs, blockNs, p);
      candidates := candidates + pushed;
    }
  }

  method BlockLists(m: int) returns (blockMs: seq<int>, blockNs: seq<int>)
    ensures blockMs == BlockMs(m) && blockNs == BlockNs()
    ensures forall b :: b in blockMs ==> b > 0
  {
    blockMs := [64, 128];
    if m <= 16 {
      blockMs := blockMs + [16];
    }
    if m <= 32 {
      blockMs := blockMs + [32];
    }
    blockMs := blockMs + [256];

    blockNs := [];
    var blockN := 16;
    while blockN <= 192
      invariant blockN == 16 * (|blockNs| + 1) && |blockNs| <= 12
      invariant blockNs == BlockNs()[..|blockNs|]
    {
      blockNs := blockNs + [blockN];
      blockN := blockN + 16;
    }
  }

  /** The two inner loops, for one cluster shape. */
  method OneCluster(k: int, numSms: int, clusterM: int, clusterN: int, blockMs: seq<int>, blockNs: seq<int>)
    returns (pushed: seq<GemmLayout>)
    requires 1 <= clusterM <= 2 && 1 <= clusterN <= 2
    requires blockNs == BlockNs() && forall b :: b in blockMs ==> b > 0
    ensures pushed == Filter(Block(false, clusterM, clusterN, blockMs, blockNs), Accepts(k, numSms))
  {
    ghost var p := Accepts(k, numSms);
    pushed := [];
    if clusterM * clusterN > 2 || numSms % (clusterM * clusterN) != 0 {
      forall l | l in Block(false, clusterM, clusterN, blockMs, blockNs) ensures !p(l) {
        BlockMember(false, clusterM, clusterN, blockMs, blockNs, l);
      }
      FilterNone(Block(false, clusterM, clusterN, blockMs, blockNs), p);
      return;
    }
    for i := 0 to |blockMs|
      invariant pushed == Filter(Block(false, clusterM, clusterN, blockMs[..i], blockNs), p)
    {
      assert blockMs[i] in blockMs;
      var row := OneRow(k, numSms, clusterM, clusterN, blockMs[i], blockNs);
      assert blockMs[..i + 1][..i] == blockMs[..i];
      FilterAppend(Block(false, clusterM, clusterN, blockMs[..i], blockNs),
                   Line(false, clusterM, clusterN, blockMs[i], blockNs), p);
      pushed := pushed + row;
    }
    assert blockMs[..|blockMs|] == blockMs;
  }

  method OneRow(k: int, numSms: int, clusterM: int, clusterN: int, blockM: int, blockNs: seq<int>)
    returns (pushed: seq<GemmLayout>)
    requires 1 <= clusterM <= 2 && 1 <= clusterN <= 2 && ClusterAllowed(numSms, clusterM, clusterN)
    requires blockNs == BlockNs() && blockM > 0
    ensures pushed == Filter(Line(false, clusterM, clusterN, blockM, blockNs), Accepts(k, numSms))
  {
    ghost var p := Accepts(k, numSms);
    ghost var line := Line(false, clusterM, clusterN, blockM, blockNs);
    pushed := [];
    for j := 0 to |blockNs|
      invariant pushed == Filter(line[..j], p)
    {
      var blockN := blockNs[j];
      assert line[..j + 1][..j] == line[..j];
      var keep := KeepShape(k, numSms, GemmLayout(false, blockM, blockN, clusterM, clusterN));
      if keep {
        pushed := pushed + [GemmLayout(false, blockM, blockN, clusterM, clusterN)];
      }
    }
    assert line[..|blockNs|] == line;
  }

  /** The filters in the innermost loop body. */
  method KeepShape(k: int, numSms: int, l: GemmLayout) returns (keep: bool)
    requires PositiveBlocks(l) && SmallCluster(l) && ClusterAllowed(numSms, l.clusterM, l.clusterN)
    requires l.blockN in BlockNs()
    ensures keep == Accepted(k, numSms, l)
  {
    StorageDefined(l);
    if l.blockN > BLOCK_K && l.blockN % (l.blockN - BLOCK_K) != 0 && BLOCK_K % (l.blockN - BLOCK_K) != 0 {
      return false;
    }
    if l.blockM > 128 && l.blockN > 128 {
      return false;
    }
    var storage := Storage(l).value;
    if storage.swizzleA % 64 != 0 || storage.swizzleB % 64 != 0 {
      return false;
    }
    var pipeline := PipelineOf(k, l);
    if pipeline.numStages < 3 || (l.blockM * l.blockN < 128 * 192 && pipeline.numStages < 4) {
      return false;
    }
    return true;
  }
}
