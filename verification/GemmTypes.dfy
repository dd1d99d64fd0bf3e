/** Records of the GEMM configuration search and the list operations its enumeration amounts to. */
module GemmTypes {
  import opened IntMath
  import opened Wrappers

  const BLOCK_K: int := 128
  const SMEM_CAPACITY: int := 232448

  datatype GemmLayout = GemmLayout(swapAb: bool, blockM: int, blockN: int, clusterM: int, clusterN: int) {
    function ClusterSize(): int { clusterM * clusterN }
  }

  predicate PositiveBlocks(l: GemmLayout) { l.blockM > 0 && l.blockN > 0 }

  function NumBlocks(m: int, n: int, l: GemmLayout): int
    requires PositiveBlocks(l)
  {
    CeilDiv(m, l.blockM) * CeilDiv(n, l.blockN)
  }

  function NumWaves(m: int, n: int, numSms: int, l: GemmLayout): int
    requires PositiveBlocks(l) && numSms > 0
  {
    CeilDiv(NumBlocks(m, n, l), numSms)
  }

  /** Blocks at least as large in both directions need no more waves. */
  lemma LargerBlocksFewerWaves(m: int, n: int, numSms: int, small: GemmLayout, large: GemmLayout)
    requires m > 0 && n > 0 && numSms > 0 && PositiveBlocks(small)
    requires small.blockM <= large.blockM && small.blockN <= large.blockN
    ensures PositiveBlocks(large) && NumWaves(m, n, numSms, large) <= NumWaves(m, n, numSms, small)
  {
    CeilDivAntitone(m, small.blockM, large.blockM);
    CeilDivAntitone(n, small.blockN, large.blockN);
    MulMonotone(CeilDiv(m, large.blockM), CeilDiv(m, small.blockM), CeilDiv(n, large.blockN));
    MulMonotone(CeilDiv(n, large.blockN), CeilDiv(n, small.blockN), CeilDiv(m, small.blockM));
    CeilDivMonotone(NumBlocks(m, n, large), NumBlocks(m, n, small), numSms);
  }

  datatype StorageConfig = StorageConfig(
    loadBlockM: int, loadBlockN: int, storeBlockM: int, storeBlockN: int,
    swizzleA: int, swizzleB: int, swizzleCd: int)

  datatype PipelineConfig = PipelineConfig(smemSize: int, numStages: int)

  datatype LaunchConfig = LaunchConfig(
    numThreads: int, numTmaThreads: int, numMathThreads: int,
    numNonEpilogueThreads: int, numEpilogueThreads: int)

  datatype GemmConfig = GemmConfig(
    layout: GemmLayout, storage: StorageConfig, pipeline: PipelineConfig, launch: LaunchConfig)

  /** The first of the swizzle widths 128, 64, 32, 16 that divides the row; None where the source
      throws. */
  function SwizzleMode(blockSize: int, elemSize: int): Option<int> {
    var row := blockSize * elemSize;
    if row % 128 == 0 then Some(128)
    else if row % 64 == 0 then Some(64)
    else if row % 32 == 0 then Some(32)
    else if row % 16 == 0 then Some(16)
    else None
  }

  lemma HalfDivides(row: int, width: int)
    requires width > 0 && row % (2 * width) == 0
    ensures row % width == 0
  {
    var q := row / (2 * width);
    assert row == q * (2 * width);
    assert row == 2 * q * width;
    DivModUnique(row, width, 2 * q, 0);
  }

  /** The width chosen divides the row and the next larger one does not; the rule is undefined
      exactly on rows that are not multiples of 16. */
  lemma SwizzleIsWidest(blockSize: int, elemSize: int, width: int)
    requires width == 128 || width == 64 || width == 32 || width == 16
    ensures SwizzleMode(blockSize, elemSize) == Some(width)
            <==> (blockSize * elemSize) % width == 0 && (width == 128 || (blockSize * elemSize) % (2 * width) != 0)
    ensures SwizzleMode(blockSize, elemSize).None? <==> (blockSize * elemSize) % 16 != 0
  {
    var row := blockSize * elemSize;
    if row % 128 == 0 { HalfDivides(row, 64); }
    if row % 64 == 0 { HalfDivides(row, 32); }
    if row % 32 == 0 { HalfDivides(row, 16); }
  }

  predicate WidestSwizzle(width: int, row: int) {
    width in {16, 32, 64, 128} && row % width == 0 && (width == 128 || row % (2 * width) != 0)
  }

  /** The pipeline depth rule of both architectures: as many stages as fit beside the fixed part, up
      to a cap. */
  function Pipeline(fixedBytes: int, stageBytes: int, maxStages: int): PipelineConfig
    requires stageBytes > 0
  {
    var numStages := Min(TruncDiv(SMEM_CAPACITY - fixedBytes, stageBytes), maxStages);
    PipelineConfig(fixedBytes + numStages * stageBytes, numStages)
  }

  /** A pipeline of t stages fits. */
  predicate Fits(fixedBytes: int, stageBytes: int, t: int) {
    fixedBytes + t * stageBytes <= SMEM_CAPACITY
  }

  /** The rule selects at least t stages exactly when t stages fit and are allowed; so a selected
      pipeline stays within capacity and one more stage would exceed it or the cap. */
  lemma PipelineIsLargest(fixedBytes: int, stageBytes: int, maxStages: int, t: int)
    requires stageBytes > 0 && t > 0
    ensures Pipeline(fixedBytes, stageBytes, maxStages).numStages >= t
            <==> t <= maxStages && Fits(fixedBytes, stageBytes, t)
  {
    TruncDivAtLeast(SMEM_CAPACITY - fixedBytes, stageBytes, t);
  }

  lemma PipelineSizing(fixedBytes: int, stageBytes: int, maxStages: int)
    requires stageBytes > 0
    requires Pipeline(fixedBytes, stageBytes, maxStages).numStages >= 1
    ensures var p := Pipeline(fixedBytes, stageBytes, maxStages);
            && p.smemSize <= SMEM_CAPACITY
            && p.numStages <= maxStages
            && (p.numStages < maxStages ==> p.smemSize + stageBytes > SMEM_CAPACITY)
  {
    var s := Pipeline(fixedBytes, stageBytes, maxStages).numStages;
    PipelineIsLargest(fixedBytes, stageBytes, maxStages, s);
    PipelineIsLargest(fixedBytes, stageBytes, maxStages, s + 1);
    assert (s + 1) * stageBytes == s * stageBytes + stageBytes;
  }

  /** A larger fixed part never yields more stages. */
  lemma PipelineAntitone(small: int, large: int, stageBytes: int, maxStages: int)
    requires stageBytes > 0 && small <= large
    ensures Pipeline(large, stageBytes, maxStages).numStages <= Pipeline(small, stageBytes, maxStages).numStages
  {
    TruncDivMonotone(SMEM_CAPACITY - large, SMEM_CAPACITY - small, stageBytes);
  }

  // Enumeration

  function Filter<T>(xs: seq<T>, p: T -> bool): seq<T> {
    if |xs| == 0 then []
    else Filter(xs[..|xs| - 1], p) + (if p(xs[|xs| - 1]) then [xs[|xs| - 1]] else [])
  }

  lemma {:induction false} FilterAppend<T>(xs: seq<T>, ys: seq<T>, p: T -> bool)
    ensures Filter(xs + ys, p) == Filter(xs, p) + Filter(ys, p)
    decreases |ys|
  {
    if |ys| == 0 {
      assert xs + ys == xs;
    } else {
      var last := ys[|ys| - 1];
      assert (xs + ys)[..|xs + ys| - 1] == xs + ys[..|ys| - 1];
      FilterAppend(xs, ys[..|ys| - 1], p);
    }
  }

  lemma {:induction false} FilterMember<T>(xs: seq<T>, p: T -> bool, x: T)
    ensures x in Filter(xs, p) <==> x in xs && p(x)
  {
    if |xs| > 0 {
      FilterMember(xs[..|xs| - 1], p, x);
      assert xs == xs[..|xs| - 1] + [xs[|xs| - 1]];
    }
  }

  lemma {:induction false} FilterNone<T>(xs: seq<T>, p: T -> bool)
    requires forall x :: x in xs ==> !p(x)
    ensures Filter(xs, p) == []
  {
    if |xs| > 0 { FilterNone(xs[..|xs| - 1], p); }
  }

  /** Filtering by a stronger condition is filtering the weaker result again: the stronger list is
      obtained from the weaker one by deletions, in order. */
  lemma {:induction false} FilterStronger<T>(xs: seq<T>, weak: T -> bool, strong: T -> bool)
    requires forall x :: x in xs && strong(x) ==> weak(x)
    ensures Filter(xs, strong) == Filter(Filter(xs, weak), strong)
  {
    if |xs| > 0 {
      var front, last := xs[..|xs| - 1], xs[|xs| - 1];
      FilterStronger(front, weak, strong);
      FilterAppend(Filter(front, weak), if weak(last) then [last] else [], strong);
      assert Filter([last], strong) == if strong(last) then [last] else [] by {
        assert [last][..0] == [];
      }
      assert Filter([], strong) == [];
    }
  }

  /** All block shapes for one cluster shape: outer loop over M, inner loop over N. */
  function Line(swapAb: bool, cm: int, cn: int, bm: int, bns: seq<int>): seq<GemmLayout> {
    seq(|bns|, j requires 0 <= j < |bns| => GemmLayout(swapAb, bm, bns[j], cm, cn))
  }

  function Block(swapAb: bool, cm: int, cn: int, bms: seq<int>, bns: seq<int>): seq<GemmLayout> {
    if |bms| == 0 then []
    else Block(swapAb, cm, cn, bms[..|bms| - 1], bns) + Line(swapAb, cm, cn, bms[|bms| - 1], bns)
  }

  /** The cluster loops: (1,1), (1,2), (2,1), (2,2). */
  function Grid(swapAb: bool, bms: seq<int>, bns: seq<int>): seq<GemmLayout> {
    Block(swapAb, 1, 1, bms, bns) + Block(swapAb, 1, 2, bms, bns)
    + Block(swapAb, 2, 1, bms, bns) + Block(swapAb, 2, 2, bms, bns)
  }

  /** The cluster shapes visited before the outer loop moves past clusterM. */
  function UpTo(swapAb: bool, clusterM: int, bms: seq<int>, bns: seq<int>): seq<GemmLayout> {
    if clusterM <= 1 then Block(swapAb, 1, 1, bms, bns) + Block(swapAb, 1, 2, bms, bns) else Grid(swapAb, bms, bns)
  }

  /** The cluster shapes visited once the inner loop has finished clusterN. */
  function Within(swapAb: bool, clusterM: int, clusterN: int, bms: seq<int>, bns: seq<int>): seq<GemmLayout> {
    var before := if clusterM <= 1 then [] else UpTo(swapAb, 1, bms, bns);
    if clusterN <= 0 then before
    else if clusterN == 1 then before + Block(swapAb, clusterM, 1, bms, bns)
    else before + Block(swapAb, clusterM, 1, bms, bns) + Block(swapAb, clusterM, 2, bms, bns)
  }

  /** One turn of the inner cluster loop, filtered. */
  lemma WithinStep(swapAb: bool, cm: int, cn: int, bms: seq<int>, bns: seq<int>, p: GemmLayout -> bool)
    requires 1 <= cm <= 2 && 1 <= cn <= 2
    ensures Filter(Within(swapAb, cm, cn, bms, bns), p)
         == Filter(Within(swapAb, cm, cn - 1, bms, bns), p) + Filter(Block(swapAb, cm, cn, bms, bns), p)
  {
    FilterAppend(Within(swapAb, cm, cn - 1, bms, bns), Block(swapAb, cm, cn, bms, bns), p);
    assert Within(swapAb, cm, cn, bms, bns) == Within(swapAb, cm, cn - 1, bms, bns) + Block(swapAb, cm, cn, bms, bns);
  }

  /** Its first and last turns. */
  lemma WithinEnds(swapAb: bool, cm: int, bms: seq<int>, bns: seq<int>)
    requires 1 <= cm <= 2
    ensures Within(swapAb, cm, 0, bms, bns) == if cm <= 1 then [] else UpTo(swapAb, cm - 1, bms, bns)
    ensures Within(swapAb, cm, 2, bms, bns) == UpTo(swapAb, cm, bms, bns)
  {
  }

  lemma {:induction false} BlockMember(swapAb: bool, cm: int, cn: int, bms: seq<int>, bns: seq<int>, l: GemmLayout)
    ensures l in Block(swapAb, cm, cn, bms, bns)
            <==> l.swapAb == swapAb && l.clusterM == cm && l.clusterN == cn && l.blockM in bms && l.blockN in bns
  {
    if |bms| > 0 {
      var front, last := bms[..|bms| - 1], bms[|bms| - 1];
      BlockMember(swapAb, cm, cn, front, bns, l);
      assert bms == front + [last];
      if l.swapAb == swapAb && l.clusterM == cm && l.clusterN == cn && l.blockM == last && l.blockN in bns {
        var j :| 0 <= j < |bns| && bns[j] == l.blockN;
        assert Line(swapAb, cm, cn, last, bns)[j] == l;
      }
    }
  }

  predicate SmallCluster(l: GemmLayout) { 1 <= l.clusterM <= 2 && 1 <= l.clusterN <= 2 }

  lemma GridMember(swapAb: bool, bms: seq<int>, bns: seq<int>, l: GemmLayout)
    ensures l in Grid(swapAb, bms, bns) <==> l.swapAb == swapAb && SmallCluster(l) && l.blockM in bms && l.blockN in bns
  {
    BlockMember(swapAb, 1, 1, bms, bns, l);
    BlockMember(swapAb, 1, 2, bms, bns, l);
    BlockMember(swapAb, 2, 1, bms, bns, l);
    BlockMember(swapAb, 2, 2, bms, bns, l);
  }

  // Order of enumeration

  type Order = (GemmLayout, GemmLayout) -> bool

  predicate Ordered(xs: seq<GemmLayout>, before: Order) {
    forall i, j :: 0 <= i < j < |xs| ==> before(xs[i], xs[j])
  }

  lemma OrderedAppend(xs: seq<GemmLayout>, ys: seq<GemmLayout>, before: Order)
    requires Ordered(xs, before) && Ordered(ys, before)
    requires forall x, y :: x in xs && y in ys ==> before(x, y)
    ensures Ordered(xs + ys, before)
  {
    var zs := xs + ys;
    forall i, j | 0 <= i < j < |zs| ensures before(zs[i], zs[j]) {
      if i < |xs| && |xs| <= j {
        assert xs[i] in xs && ys[j - |xs|] in ys;
      }
    }
  }

  lemma {:induction false} FilterOrdered(xs: seq<GemmLayout>, p: GemmLayout -> bool, before: Order)
    requires Ordered(xs, before)
    ensures Ordered(Filter(xs, p), before)
  {
    if |xs| > 0 {
      var front, last := xs[..|xs| - 1], xs[|xs| - 1];
      FilterOrdered(front, p, before);
      forall x | x in Filter(front, p) ensures before(x, last) {
        FilterMember(front, p, x);
        var i :| 0 <= i < |front| && front[i] == x;
        assert before(xs[i], xs[|xs| - 1]);
      }
      OrderedAppend(Filter(front, p), if p(last) then [last] else [], before);
    }
  }

  /** The lists are enumerated in the given order: columns within a row of blocks, then rows. */
  ghost predicate ColumnsInOrder(swapAb: bool, cm: int, cn: int, bms: seq<int>, bns: seq<int>, before: Order) {
    forall bm, i, j :: bm in bms && 0 <= i < j < |bns| ==>
      before(GemmLayout(swapAb, bm, bns[i], cm, cn), GemmLayout(swapAb, bm, bns[j], cm, cn))
  }

  ghost predicate RowsInOrder(swapAb: bool, cm: int, cn: int, bms: seq<int>, bns: seq<int>, before: Order) {
    forall i, j, x, y :: 0 <= i < j < |bms| && x in bns && y in bns ==>
      before(GemmLayout(swapAb, bms[i], x, cm, cn), GemmLayout(swapAb, bms[j], y, cm, cn))
  }

  lemma LineOrdered(swapAb: bool, cm: int, cn: int, bm: int, bms: seq<int>, bns: seq<int>, before: Order)
    requires ColumnsInOrder(swapAb, cm, cn, bms, bns, before) && bm in bms
    ensures Ordered(Line(swapAb, cm, cn, bm, bns), before)
  {
    var line := Line(swapAb, cm, cn, bm, bns);
    forall i, j | 0 <= i < j < |line| ensures before(line[i], line[j]) {
      assert before(GemmLayout(swapAb, bm, bns[i], cm, cn), GemmLayout(swapAb, bm, bns[j], cm, cn));
    }
  }

  lemma {:induction false} BlockOrdered(swapAb: bool, cm: int, cn: int, bms: seq<int>, bns: seq<int>, before: Order)
    requires ColumnsInOrder(swapAb, cm, cn, bms, bns, before) && RowsInOrder(swapAb, cm, cn, bms, bns, before)
    ensures Ordered(Block(swapAb, cm, cn, bms, bns), before)
  {
    if |bms| > 0 {
      var front, last := bms[..|bms| - 1], bms[|bms| - 1];
      var line := Line(swapAb, cm, cn, last, bns);
      assert bms == front + [last];
      assert ColumnsInOrder(swapAb, cm, cn, front, bns, before) by {
        forall bm, i, j | bm in front && 0 <= i < j < |bns|
          ensures before(GemmLayout(swapAb, bm, bns[i], cm, cn), GemmLayout(swapAb, bm, bns[j], cm, cn))
        {
          assert bm in bms;
        }
      }
      BlockOrdered(swapAb, cm, cn, front, bns, before);
      LineOrdered(swapAb, cm, cn, last, bms, bns, before);
      forall x, y | x in Block(swapAb, cm, cn, front, bns) && y in line ensures before(x, y) {
        BlockMember(swapAb, cm, cn, front, bns, x);
        var i :| 0 <= i < |front| && front[i] == x.blockM;
        var j :| 0 <= j < |line| && line[j] == y;
        assert bns[j] in bns;
        assert before(GemmLayout(swapAb, bms[i], x.blockN, cm, cn), GemmLayout(swapAb, bms[|bms| - 1], bns[j], cm, cn));
      }
      OrderedAppend(Block(swapAb, cm, cn, front, bns), line, before);
    }
  }

  /** Layouts of different clusters come in the order of the cluster loops. */
  ghost predicate ClustersInOrder(swapAb: bool, before: Order) {
    forall bm, bn, bm', bn', cm, cn, cm', cn' ::
      cm < cm' || (cm == cm' && cn < cn')
      ==> before(GemmLayout(swapAb, bm, bn, cm, cn), GemmLayout(swapAb, bm', bn', cm', cn'))
  }

  lemma BlocksInOrder(swapAb: bool, cm: int, cn: int, cm': int, cn': int, bms: seq<int>, bns: seq<int>, before: Order)
    requires ClustersInOrder(swapAb, before) && (cm < cm' || (cm == cm' && cn < cn'))
    ensures forall x, y :: x in Block(swapAb, cm, cn, bms, bns) && y in Block(swapAb, cm', cn', bms, bns)
                           ==> before(x, y)
  {
    forall x, y | x in Block(swapAb, cm, cn, bms, bns) && y in Block(swapAb, cm', cn', bms, bns)
      ensures before(x, y)
    {
      BlockMember(swapAb, cm, cn, bms, bns, x);
      BlockMember(swapAb, cm', cn', bms, bns, y);
      assert before(GemmLayout(swapAb, x.blockM, x.blockN, cm, cn), GemmLayout(swapAb, y.blockM, y.blockN, cm', cn'));
    }
  }

  lemma GridOrdered(swapAb: bool, bms: seq<int>, bns: seq<int>, before: Order)
    requires ClustersInOrder(swapAb, before)
    requires forall cm, cn :: ColumnsInOrder(swapAb, cm, cn, bms, bns, before)
    requires forall cm, cn :: RowsInOrder(swapAb, cm, cn, bms, bns, before)
    ensures Ordered(Grid(swapAb, bms, bns), before)
  {
    var a, b := Block(swapAb, 1, 1, bms, bns), Block(swapAb, 1, 2, bms, bns);
    var c, d := Block(swapAb, 2, 1, bms, bns), Block(swapAb, 2, 2, bms, bns);
    BlockOrdered(swapAb, 1, 1, bms, bns, before);
    BlockOrdered(swapAb, 1, 2, bms, bns, before);
    BlockOrdered(swapAb, 2, 1, bms, bns, before);
    BlockOrdered(swapAb, 2, 2, bms, bns, before);
    BlocksInOrder(swapAb, 1, 1, 1, 2, bms, bns, before);
    OrderedAppend(a, b, before);
    BlocksInOrder(swapAb, 1, 1, 2, 1, bms, bns, before);
    BlocksInOrder(swapAb, 1, 2, 2, 1, bms, bns, before);
    OrderedAppend(a + b, c, before);
    BlocksInOrder(swapAb, 1, 1, 2, 2, bms, bns, before);
    BlocksInOrder(swapAb, 1, 2, 2, 2, bms, bns, before);
    BlocksInOrder(swapAb, 2, 1, 2, 2, bms, bns, before);
    OrderedAppend(a + b + c, d, before);
  }
}
