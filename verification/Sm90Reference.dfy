/** An independent reading of the search for compute capability 9, in plain numbers: which layouts it
    considers and in which order, what the shared memory of each holds, what it costs, and which one
    is chosen. No function of the search itself appears in these definitions. */
module Sm90Reference {
  import opened IntMath
  import opened GemmTypes
  import opened Sm90Search
  import opened Sm90Selection
  import opened Wrappers

  // Block shapes

  predicate RowsListed(m: int, bm: int) {
    bm == 64 || bm == 128 || bm == 256 || (bm == 16 && m <= 16) || (bm == 32 && m <= 32)
  }

  /** Multiples of 16 up to 192, 176 left out. */
  predicate ColumnsListed(bn: int) { bn % 16 == 0 && (16 <= bn <= 160 || bn == 192) }

  /** Two blocks share one operand, and only on an even number of SMs. */
  predicate ClusterListed(numSms: int, cm: int, cn: int) {
    (cm == 1 && cn == 1) || (numSms % 2 == 0 && ((cm == 1 && cn == 2) || (cm == 2 && cn == 1)))
  }

  lemma BlockMsListed(m: int, bm: int)
    ensures bm in BlockMs(m) <==> RowsListed(m, bm)
  {
    assert BlockMs(m)[0] == 64 && BlockMs(m)[1] == 128 && BlockMs(m)[|BlockMs(m)| - 1] == 256;
    if m <= 16 {
      assert BlockMs(m)[2] == 16 && BlockMs(m)[3] == 32;
    } else if m <= 32 {
      assert BlockMs(m)[2] == 32;
    }
  }

  lemma BlockNsListed(bn: int)
    ensures bn in BlockNs() <==> bn % 16 == 0 && 16 <= bn <= 192
  {
    if bn in BlockNs() {
      var i :| 0 <= i < 12 && bn == 16 * (i + 1);
    }
    if bn % 16 == 0 && 16 <= bn <= 192 {
      assert BlockNs()[bn / 16 - 1] == bn;
    }
  }

  lemma ShapesListed(bm: int, bn: int)
    requires bn % 16 == 0 && 16 <= bn <= 192
    ensures ShapeAllowed(bm, bn) <==> ColumnsListed(bn) && (bm <= 128 || bn <= 128)
  {
    assert bn == 16 * (bn / 16);
    if bn > 128 {
      assert bn == 144 || bn == 160 || bn == 176 || bn == 192;
      assert 144 % 16 == 0 && 160 % 32 == 0 && 176 % 48 == 32 && 128 % 48 == 32 && 192 % 64 == 0;
    }
  }

  lemma ClustersListed(numSms: int, l: GemmLayout)
    requires SmallCluster(l)
    ensures ClusterAllowed(numSms, l.clusterM, l.clusterN) <==> ClusterListed(numSms, l.clusterM, l.clusterN)
  {
  }

  // Shared memory

  /** b has one row of scales for 128 columns: the number of them that the i-th tile of bn columns
      touches. */
  function TouchedRows(i: nat, bn: int): int
    requires bn > 0
  {
    (i * bn + bn - 1) / 128 - (i * bn) / 128 + 1
  }

  ghost predicate MostRows(bn: int, rows: int)
    requires bn > 0
  {
    (forall i: nat :: TouchedRows(i, bn) <= rows) && exists i: nat :: TouchedRows(i, bn) == rows
  }

  /** A tile whose width divides 128 never crosses a boundary. */
  lemma DivisorTouchesOne(i: nat, bn: int)
    requires bn in {16, 32, 64, 128}
    ensures TouchedRows(i, bn) == 1
  {
  }

  lemma NarrowTouchesTwo(i: nat, bn: int)
    requires 0 < bn <= 128
    ensures TouchedRows(i, bn) <= 2
  {
  }

  /** A tile wider by a divisor starts at a multiple of that divisor. */
  lemma WideTouchesTwo(i: nat, bn: int)
    requires bn in {144, 160, 192}
    ensures TouchedRows(i, bn) <= 2
  {
    if bn == 144 {
      StartOfTile(i * bn, bn, i + i / 8, 16 * (i % 8));
    } else if bn == 160 {
      StartOfTile(i * bn, bn, i + i / 4, 32 * (i % 4));
    } else {
      StartOfTile(i * bn, bn, i + i / 2, 64 * (i % 2));
    }
  }

  lemma StartOfTile(x: int, bn: int, q: int, r: int)
    requires x == 128 * q + r && 0 <= r && 128 < bn && r + bn <= 256
    ensures (x + bn - 1) / 128 - x / 128 <= 1
  {
  }

  lemma TwoAttained(bn: int)
    requires ColumnsListed(bn) && bn !in {16, 32, 64, 128}
    ensures exists i: nat :: TouchedRows(i, bn) == 2
  {
    assert bn == 16 * (bn / 16);
    if bn == 48 {
      assert TouchedRows(2, 48) == 2;
    } else if bn <= 112 {
      assert bn in {80, 96, 112};
      assert TouchedRows(1, bn) == 2;
    } else {
      assert TouchedRows(0, bn) == 2;
    }
  }

  lemma ListedTouch(bn: int)
    requires ColumnsListed(bn)
    ensures MostRows(bn, if bn in {16, 32, 64, 128} then 1 else 2)
  {
    if bn in {16, 32, 64, 128} {
      forall i: nat ensures TouchedRows(i, bn) <= 1 { DivisorTouchesOne(i, bn); }
      DivisorTouchesOne(0, bn);
    } else {
      forall i: nat ensures TouchedRows(i, bn) <= 2 {
        if bn <= 128 { NarrowTouchesTwo(i, bn); } else { WideTouchesTwo(i, bn); }
      }
      TwoAttained(bn);
    }
  }

  /** The one multiple of 16 up to 192 that is left out is the one whose tiles touch three. */
  lemma OnlyExcludedTouchesThree(bn: int)
    requires bn % 16 == 0 && 16 <= bn <= 192
    ensures !ColumnsListed(bn) <==> exists i: nat :: TouchedRows(i, bn) >= 3
  {
    if ColumnsListed(bn) {
      ListedTouch(bn);
    } else {
      assert bn == 16 * (bn / 16);
      assert bn == 176 && TouchedRows(5, 176) == 3;
    }
  }

  /** What shared memory is carved into: the output tile of two-byte elements; two eight-byte barriers
      for each of 16 stages; the scale rows of b that a tile can touch, a float for every 128 of k; and
      in each stage the tiles of a and b with a float of scale for each row of a. */
  datatype Regions = Regions(output: int, barriers: int, scales: int, stage: int) {
    function Total(stages: int): int { output + barriers + scales + stages * stage }
  }

  ghost predicate Carved(k: int, bm: int, bn: int, g: Regions)
    requires bn > 0
  {
    && LeastMultiple(g.output, 2 * (bm * bn), 1024)
    && g.barriers == 16 * 2 * 8
    && (exists rows :: MostRows(bn, rows) && LeastMultiple(g.scales, 4 * (rows * CeilDiv(k, 128)), 8))
    && LeastMultiple(g.stage, 128 * bm + 128 * bn + 4 * bm, 128)
  }

  lemma MostRowsUnique(bn: int, rows: int, rows': int)
    requires bn > 0 && MostRows(bn, rows) && MostRows(bn, rows')
    ensures rows == rows'
  {
    var i: nat :| TouchedRows(i, bn) == rows;
    var j: nat :| TouchedRows(j, bn) == rows';
  }

  lemma CarvedUnique(k: int, bm: int, bn: int, g: Regions, g': Regions)
    requires bn > 0 && Carved(k, bm, bn, g) && Carved(k, bm, bn, g')
    ensures g == g'
  {
    var rows :| MostRows(bn, rows) && LeastMultiple(g.scales, 4 * (rows * CeilDiv(k, 128)), 8);
    var rows' :| MostRows(bn, rows') && LeastMultiple(g'.scales, 4 * (rows' * CeilDiv(k, 128)), 8);
    MostRowsUnique(bn, rows, rows');
    LeastMultipleUnique(g.output, g'.output, 2 * (bm * bn), 1024);
    LeastMultipleUnique(g.scales, g'.scales, 4 * (rows * CeilDiv(k, 128)), 8);
    LeastMultipleUnique(g.stage, g'.stage, 128 * bm + 128 * bn + 4 * bm, 128);
  }

  /** The search's own fixed part and stage size are those regions. */
  lemma SearchCarves(k: int, l: GemmLayout) returns (g: Regions)
    requires PositiveBlocks(l) && ColumnsListed(l.blockN)
    ensures Carved(k, l.blockM, l.blockN, g)
    ensures FixedBytes(k, l) == g.output + g.barriers + g.scales && StageBytes(l) == g.stage
  {
    var bm, bn := l.blockM, l.blockN;
    var rows := if 128 % bn == 0 then 1 else 2;
    DividesListed(bn);
    ListedTouch(bn);
    g := Regions(AlignUp(bm * bn * 2, 1024), 256, AlignUp(CeilDiv(k, 128) * 4 * rows, 8), StageBytes(l));
    AlignUpIsLeastMultiple(bm * bn * 2, 1024);
    AlignUpIsLeastMultiple(CeilDiv(k, 128) * 4 * rows, 8);
    StageIsLeast(bm, bn);
    assert LeastMultiple(g.scales, 4 * (rows * CeilDiv(k, 128)), 8);
  }

  lemma DividesListed(bn: int)
    requires ColumnsListed(bn)
    ensures 128 % bn == 0 <==> bn in {16, 32, 64, 128}
  {
    assert bn == 16 * (bn / 16);
  }

  lemma StageIsLeast(bm: int, bn: int)
    ensures LeastMultiple(bm * 128 + bn * 128 + AlignUp(bm * 4, 128), 128 * bm + 128 * bn + 4 * bm, 128)
  {
    AlignUpIsLeastMultiple(bm * 4, 128);
    var q := AlignUp(bm * 4, 128) / 128;
    assert bm * 128 + bn * 128 + AlignUp(bm * 4, 128) == 128 * (bm + bn + q);
  }

  lemma ColumnsOfCandidate(m: int, k: int, numSms: int, l: GemmLayout)
    requires l in Candidates(m, k, numSms)
    ensures PositiveBlocks(l) && ColumnsListed(l.blockN)
  {
    CandidateCharacterized(m, k, numSms, l);
    BlockNsListed(l.blockN);
    ShapesListed(l.blockM, l.blockN);
  }

  /** What every candidate's shared memory is: room for all regions at the depth selected, within
      capacity, and at the greatest depth up to 16 for which that is so. */
  lemma SharedMemoryMeaning(m: int, k: int, numSms: int, l: GemmLayout) returns (g: Regions)
    requires l in Candidates(m, k, numSms)
    ensures PositiveBlocks(l) && Carved(k, l.blockM, l.blockN, g)
    ensures var p := PipelineOf(k, l);
            && p.smemSize == g.Total(p.numStages) <= 232448
            && 3 <= p.numStages <= 16
            && (p.numStages < 16 ==> g.Total(p.numStages + 1) > 232448)
  {
    ColumnsOfCandidate(m, k, numSms, l);
    g := SearchCarves(k, l);
    CandidatePipeline(m, k, numSms, l);
    TotalsAgree(FixedBytes(k, l), StageBytes(l), g);
  }

  lemma TotalsAgree(fixedBytes: int, stageBytes: int, g: Regions)
    requires stageBytes > 0 && fixedBytes == g.output + g.barriers + g.scales && stageBytes == g.stage
    ensures var p := Pipeline(fixedBytes, stageBytes, MAX_STAGES);
            p.smemSize == g.Total(p.numStages) && p.smemSize + stageBytes == g.Total(p.numStages + 1)
  {
    var s := Pipeline(fixedBytes, stageBytes, MAX_STAGES).numStages;
    assert (s + 1) * g.stage == s * g.stage + g.stage;
  }

  /** Fewest stages for a block: three from 24576 elements on, otherwise four. */
  function LeastStages(bm: int, bn: int): int { if bm * bn < 24576 then 4 else 3 }

  ghost predicate StagesFit(k: int, bm: int, bn: int)
    requires bn > 0
  {
    exists g: Regions :: Carved(k, bm, bn, g) && g.Total(LeastStages(bm, bn)) <= 232448
  }

  lemma StagesFitExactly(k: int, l: GemmLayout)
    requires PositiveBlocks(l) && ColumnsListed(l.blockN)
    ensures PipelineOf(k, l).numStages >= MinStages(l) <==> StagesFit(k, l.blockM, l.blockN)
  {
    var g := SearchCarves(k, l);
    PipelineIsLargest(FixedBytes(k, l), StageBytes(l), MAX_STAGES, MinStages(l));
    if StagesFit(k, l.blockM, l.blockN) {
      var g': Regions :| Carved(k, l.blockM, l.blockN, g') && g'.Total(LeastStages(l.blockM, l.blockN)) <= 232448;
      CarvedUnique(k, l.blockM, l.blockN, g, g');
    }
  }

  // Candidates

  ghost predicate Admitted(m: int, k: int, numSms: int, l: GemmLayout) {
    && PositiveBlocks(l) && SmallCluster(l) && !l.swapAb
    && RowsListed(m, l.blockM) && ColumnsListed(l.blockN) && (l.blockM <= 128 || l.blockN <= 128)
    && ClusterListed(numSms, l.clusterM, l.clusterN)
    && StagesFit(k, l.blockM, l.blockN)
  }

  lemma StorageNumbers(l: GemmLayout)
    requires l.blockN % 16 == 0
    ensures Storage(l).Some? && Storage(l).value.swizzleA == 128 && Storage(l).value.swizzleB == 128
  {
    assert (l.blockN * 2) % 32 == 0;
  }

  /** The candidates, in numbers. */
  lemma CandidatesExactly(m: int, k: int, numSms: int, l: GemmLayout)
    ensures l in Candidates(m, k, numSms) <==> Admitted(m, k, numSms, l)
  {
    CandidateCharacterized(m, k, numSms, l);
    BlockMsListed(m, l.blockM);
    BlockNsListed(l.blockN);
    if RowsListed(m, l.blockM) && l.blockN % 16 == 0 && 16 <= l.blockN <= 192 {
      ShapesListed(l.blockM, l.blockN);
      if ColumnsListed(l.blockN) && SmallCluster(l) {
        StorageNumbers(l);
        ClustersListed(numSms, l);
        StagesFitExactly(k, l);
      }
    }
  }

  /** The order in which block heights are listed. */
  function RowRank(bm: int): int {
    if bm == 64 then 0 else if bm == 128 then 1 else if bm == 16 then 2 else if bm == 32 then 3 else 4
  }

  /** The order of enumeration: by cluster, then by block height in that order, then by width. */
  predicate Earlier(x: GemmLayout, y: GemmLayout) {
    || x.clusterM < y.clusterM
    || (x.clusterM == y.clusterM
        && (|| x.clusterN < y.clusterN
            || (x.clusterN == y.clusterN
                && (|| RowRank(x.blockM) < RowRank(y.blockM)
                    || (RowRank(x.blockM) == RowRank(y.blockM) && x.blockN < y.blockN)))))
  }

  function InEnumeration(): Order { (x, y) => Earlier(x, y) }

  lemma RowsRanked(m: int, i: int, j: int)
    requires 0 <= i < j < |BlockMs(m)|
    ensures RowRank(BlockMs(m)[i]) < RowRank(BlockMs(m)[j])
  {
  }

  lemma CandidatesInOrder(m: int, k: int, numSms: int)
    ensures Ordered(Candidates(m, k, numSms), InEnumeration())
  {
    var before, bms, bns := InEnumeration(), BlockMs(m), BlockNs();
    forall cm, cn ensures ColumnsInOrder(false, cm, cn, bms, bns, before) {
    }
    forall cm, cn ensures RowsInOrder(false, cm, cn, bms, bns, before) {
      forall i, j, x, y | 0 <= i < j < |bms| && x in bns && y in bns
        ensures before(GemmLayout(false, bms[i], x, cm, cn), GemmLayout(false, bms[j], y, cm, cn))
      {
        RowsRanked(m, i, j);
      }
    }
    GridOrdered(false, bms, bns, before);
    FilterOrdered(Grid(false, bms, bns), Accepts(k, numSms), before);
  }

  // The configuration of a layout

  /** Each block loads and stores its own tile; rows of a and b are swizzled 128 bytes wide, rows of the
      output as wide as they allow; 128 threads load, and 128 compute for up to 64 rows, else 256. */
  lemma ConfigNumbers(m: int, k: int, numSms: int, l: GemmLayout)
    requires l in Candidates(m, k, numSms)
    ensures PositiveBlocks(l) && Storage(l).Some?
    ensures var c := ConfigFor(k, l);
            && c.layout == l && c.pipeline == PipelineOf(k, l)
            && c.storage.loadBlockM == c.storage.storeBlockM == l.blockM
            && c.storage.loadBlockN == c.storage.storeBlockN == l.blockN
            && c.storage.swizzleA == 128 && c.storage.swizzleB == 128
            && WidestSwizzle(c.storage.swizzleCd, 2 * l.blockN)
            && c.launch.numTmaThreads == 128 && c.launch.numMathThreads == (if l.blockM > 64 then 256 else 128)
            && c.launch.numThreads == c.launch.numTmaThreads + c.launch.numMathThreads
  {
    CandidatePipeline(m, k, numSms, l);
    CandidatesExactly(m, k, numSms, l);
    StorageNumbers(l);
    SwizzleIsWidest(l.blockN, 2, Storage(l).value.swizzleCd);
  }

  // Cost

  function Blocks(m: int, n: int, l: GemmLayout): int
    requires PositiveBlocks(l)
  {
    CeilDiv(m, l.blockM) * CeilDiv(n, l.blockN)
  }

  function Waves(m: int, n: int, numSms: int, l: GemmLayout): int
    requires PositiveBlocks(l) && numSms > 0
  {
    CeilDiv(Blocks(m, n, l), numSms)
  }

  /** Bytes between L1 and the tensor cores for one block: both tiles are written once and read once, at
      least 64 rows at a time, and the output passes twice. */
  function NearBytes(k: int, l: GemmLayout): int {
    k * (l.blockM + l.blockN + (if l.blockM < 64 then 64 else l.blockM) + l.blockN) + 4 * (l.blockM * l.blockN)
  }

  /** Bytes between L2 and one block: its share of both tiles, and the output once. */
  function FarBytes(k: int, l: GemmLayout): int
    requires SmallCluster(l)
  {
    k * (l.blockM / l.clusterN + l.blockN / l.clusterM) + 2 * (l.blockM * l.blockN)
  }

  /** Cycles in units of 1 / 80000. L1 passes 128 bytes a cycle and SM; L2 64, but no more than
      8000000 / 1300 in all, which binds from 97 SMs on. */
  function BlockScore(near: int, far: int, numSms: int): int {
    Max(625 * near, if numSms <= 96 then 1250 * far else 13 * (numSms * far))
  }

  function Score(m: int, n: int, k: int, numSms: int, l: GemmLayout): int
    requires PositiveBlocks(l) && SmallCluster(l) && numSms > 0
  {
    Waves(m, n, numSms, l) * BlockScore(NearBytes(k, l), FarBytes(k, l), numSms)
  }

  lemma BytesAgree(k: int, l: GemmLayout)
    requires SmallCluster(l)
    ensures L1Bytes(k, l) == NearBytes(k, l) && L2Bytes(k, l) == FarBytes(k, l)
  {
    var a, b := l.blockM + l.blockN, (if l.blockM < 64 then 64 else l.blockM) + l.blockN;
    assert Max(64, l.blockM) + l.blockN == b;
    assert k * (a + b) == k * a + k * b;
  }

  lemma {:induction false} RealProduct(a: int, b: int)
    ensures (a * b) as real == a as real * b as real
    decreases if b < 0 then -2 * b + 1 else 2 * b
  {
    if b < 0 {
      RealProduct(a, -b);
      assert a * b == -(a * -b);
      assert a as real * b as real == -(a as real * (-b) as real);
    } else if b > 0 {
      RealProduct(a, b - 1);
      assert a * b == a * (b - 1) + a;
      assert a as real * b as real == a as real * (b - 1) as real + a as real;
    }
  }

  lemma QuotientOf(x: real, w: real, y: real)
    requires w != 0.0 && x == y * w
    ensures x / w == y
  {
  }

  /** Cycles per SM and block of a transfer at c bytes a cycle and SM, over s SMs. */
  lemma SharedRate(x: real, c: real, s: real)
    requires c > 0.0 && s > 0.0
    ensures c * s > 0.0 && s * (x / (c * s)) == x / c
  {
    assert c * s > 0.0;
    var y := x / (c * s);
    assert x == y * (c * s);
    assert x == (s * y) * c;
    QuotientOf(x, c, s * y);
  }

  lemma ScaleOrder(s: real, x: real, y: real)
    requires s > 0.0
    ensures x >= y <==> s * x >= s * y
  {
  }

  lemma SameOrder(a: real, b: real, p: int, q: int)
    requires a * 80000.0 == p as real && b * 80000.0 == q as real
    ensures a < b <==> p < q
  {
  }

  /** Both rates applied, times the SM count: the slower transfer decides. */
  lemma SlowerPerSm(near: int, far: int, numSms: int)
    requires numSms > 0
    ensures numSms as real * Slower(near, far, numSms) * 80000.0
            == BlockScore(near, far, numSms) as real
  {
    var s := numSms as real;
    var x, y := near as real / L1Bandwidth(numSms), far as real / L2Bandwidth(numSms);
    var p, q := 625 * near, if numSms <= 96 then 1250 * far else 13 * (numSms * far);
    NearPerSm(near, numSms);
    FarPerSm(far, numSms);
    OrderTransfers(s, x, y, p, q);
  }

  lemma OrderTransfers(s: real, x: real, y: real, p: int, q: int)
    requires s > 0.0 && s * x * 80000.0 == p as real && s * y * 80000.0 == q as real
    ensures x >= y <==> p >= q
    ensures s * (if x >= y then x else y) * 80000.0 == Max(p, q) as real
  {
    var a, b := s * x, s * y;
    ScaleOrder(s, x, y);
    SameOrder(a, b, p, q);
  }

  lemma NearPerSm(near: int, numSms: int)
    requires numSms > 0
    ensures numSms as real * (near as real / L1Bandwidth(numSms)) * 80000.0 == (625 * near) as real
  {
    SharedRate(near as real, 128.0, numSms as real);
  }

  lemma FarPerSm(far: int, numSms: int)
    requires numSms > 0
    ensures numSms as real * (far as real / L2Bandwidth(numSms)) * 80000.0
            == (if numSms <= 96 then 1250 * far else 13 * (numSms * far)) as real
  {
    if numSms <= 96 {
      assert L2Bandwidth(numSms) == 64.0 * numSms as real;
      SharedRate(far as real, 64.0, numSms as real);
    } else {
      assert L2Bandwidth(numSms) == 80000.0 / 13.0;
      var x, w := far as real, 80000.0 / 13.0;
      QuotientOf(x, w, x * 13.0 / 80000.0);
      RealProduct(far, numSms);
      assert numSms * far == far * numSms;
      Regroup(numSms as real, x);
    }
  }

  lemma Regroup(s: real, x: real)
    ensures s * (x * 13.0 / 80000.0) * 80000.0 == 13.0 * (x * s)
  {
    assert x * 13.0 / 80000.0 * 80000.0 == x * 13.0;
    var z := x * 13.0 / 80000.0;
    assert s * z * 80000.0 == s * (z * 80000.0);
  }

  function Slower(near: int, far: int, numSms: int): real
    requires numSms > 0
  {
    var x, y := near as real / L1Bandwidth(numSms), far as real / L2Bandwidth(numSms);
    if x >= y then x else y
  }

  lemma ScaledWaves(waves: int, near: int, far: int, numSms: int)
    requires numSms > 0
    ensures (waves * numSms) as real * Slower(near, far, numSms) * 80000.0
            == (waves * BlockScore(near, far, numSms)) as real
  {
    var score := BlockScore(near, far, numSms);
    SlowerPerSm(near, far, numSms);
    RealProduct(waves, numSms);
    Combine(waves as real, numSms as real, Slower(near, far, numSms), score as real);
    RealProduct(score, waves);
    assert waves * score == score * waves;
  }

  lemma BottleneckIsScore(near: int, far: int, numSms: int, blocks: real, waves: int, slots: real)
    requires numSms > 0 && blocks > 0.0 && slots > 0.0 && slots == (waves * numSms) as real
    ensures Bottleneck(near as real, L1Bandwidth(numSms), far as real, L2Bandwidth(numSms), blocks, slots) * 80000.0
            == (waves * BlockScore(near, far, numSms)) as real
  {
    BottleneckClosedForm(near as real, L1Bandwidth(numSms), far as real, L2Bandwidth(numSms), blocks, slots);
    ScaledWaves(waves, near, far, numSms);
  }

  lemma SlotsAreWaves(m: int, n: int, numSms: int, l: GemmLayout)
    requires m > 0 && n > 0 && numSms > 0 && PositiveBlocks(l)
    ensures NumBlocks(m, n, l) > 0 && Slots(m, n, numSms, l) == (Waves(m, n, numSms, l) * numSms) as real
  {
    BlocksAndWavesPositive(m, n, numSms, l);
  }

  /** The cost of a candidate, computed in the source through divided block counts and efficiencies, is
      its integer score. */
  lemma CyclesAreScore(m: int, n: int, k: int, numSms: int, l: GemmLayout)
    requires m > 0 && n > 0 && numSms > 0 && PositiveBlocks(l) && SmallCluster(l)
    ensures Cycles(m, n, k, numSms, l) * 80000.0 == Score(m, n, k, numSms, l) as real
  {
    SlotsAreWaves(m, n, numSms, l);
    BytesAgree(k, l);
    BottleneckIsScore(L1Bytes(k, l), L2Bytes(k, l), numSms, NumBlocks(m, n, l) as real, Waves(m, n, numSms, l),
                      Slots(m, n, numSms, l));
  }

  lemma Combine(w: real, s: real, y: real, score: real)
    requires s * y * 80000.0 == score
    ensures (w * s) * y * 80000.0 == score * w
  {
    assert (w * s) * y * 80000.0 == w * (s * y * 80000.0);
  }

  // The choice

  /** A cluster is worthless in a single wave; otherwise the score decides. */
  predicate Cheaper(m: int, n: int, k: int, numSms: int, x: GemmLayout, y: GemmLayout)
    requires PositiveBlocks(x) && SmallCluster(x) && PositiveBlocks(y) && SmallCluster(y) && numSms > 0
  {
    var wasteX := x.clusterM * x.clusterN > 1 && Waves(m, n, numSms, x) <= 1;
    var wasteY := y.clusterM * y.clusterN > 1 && Waves(m, n, numSms, y) <= 1;
    !wasteX && (wasteY || Score(m, n, k, numSms, x) < Score(m, n, k, numSms, y))
  }

  /** The order of costs, which are quotients of reals with infinity, is an order of integers. */
  lemma CostsCompareScores(m: int, n: int, k: int, numSms: int, x: GemmLayout, y: GemmLayout)
    requires m > 0 && n > 0 && numSms > 0
    requires PositiveBlocks(x) && SmallCluster(x) && PositiveBlocks(y) && SmallCluster(y)
    requires Info(m, n, k, numSms, x).Some? && Info(m, n, k, numSms, y).Some?
    ensures Less(Info(m, n, k, numSms, x).value.cost, Info(m, n, k, numSms, y).value.cost)
            <==> Cheaper(m, n, k, numSms, x, y)
  {
    CyclesAreScore(m, n, k, numSms, x);
    CyclesAreScore(m, n, k, numSms, y);
    SameOrder(Cycles(m, n, k, numSms, x), Cycles(m, n, k, numSms, y),
              Score(m, n, k, numSms, x), Score(m, n, k, numSms, y));
  }

  predicate Preferred(m: int, n: int, k: int, numSms: int, x: GemmLayout, y: GemmLayout)
    requires PositiveBlocks(x) && SmallCluster(x) && PositiveBlocks(y) && SmallCluster(y) && numSms > 0
  {
    Cheaper(m, n, k, numSms, x, y) || (!Cheaper(m, n, k, numSms, y, x) && Earlier(x, y))
  }

  /** The chosen layout: admitted, and preferred to every other admitted one. */
  ghost predicate Chosen(m: int, n: int, k: int, numSms: int, l: GemmLayout)
    requires numSms > 0
  {
    Admitted(m, k, numSms, l)
    && forall x :: Admitted(m, k, numSms, x) && x != l ==> Preferred(m, n, k, numSms, l, x)
  }

  lemma ChosenUnique(m: int, n: int, k: int, numSms: int, x: GemmLayout, y: GemmLayout)
    requires numSms > 0 && Chosen(m, n, k, numSms, x) && Chosen(m, n, k, numSms, y)
    ensures x == y
  {
    if x != y {
      NotBothPreferred(m, n, k, numSms, x, y);
      assert false;
    }
  }

  lemma NotBothPreferred(m: int, n: int, k: int, numSms: int, x: GemmLayout, y: GemmLayout)
    requires PositiveBlocks(x) && SmallCluster(x) && PositiveBlocks(y) && SmallCluster(y) && numSms > 0
    ensures !Preferred(m, n, k, numSms, x, y) || !Preferred(m, n, k, numSms, y, x)
  {
  }

  lemma FirstIsPreferred(m: int, n: int, k: int, numSms: int, i: nat, j: nat)
    requires m > 0 && n > 0 && numSms > 0
    requires Usable(Candidates(m, k, numSms)) && AllInfosDefined(m, n, k, numSms, Candidates(m, k, numSms))
    requires FirstMinimum(Costs(m, n, k, numSms, Candidates(m, k, numSms)), i)
    requires i != j < |Candidates(m, k, numSms)|
    ensures var cs := Candidates(m, k, numSms);
            Preferred(m, n, k, numSms, cs[i], cs[j])
  {
    var cs := Candidates(m, k, numSms);
    var costs := Costs(m, n, k, numSms, cs);
    CostsCompareScores(m, n, k, numSms, cs[i], cs[j]);
    CostsCompareScores(m, n, k, numSms, cs[j], cs[i]);
    assert !Less(costs[j], costs[i]) && (j < i ==> Less(costs[i], costs[j]));
    if i < j {
      CandidatesInOrder(m, k, numSms);
      assert InEnumeration()(cs[i], cs[j]);
    }
  }

  /** The first minimum of the search is the chosen layout. */
  lemma SelectionMeaning(m: int, n: int, k: int, numSms: int, i: nat)
    requires m > 0 && n > 0 && numSms > 0
    requires Usable(Candidates(m, k, numSms)) && AllInfosDefined(m, n, k, numSms, Candidates(m, k, numSms))
    requires FirstMinimum(Costs(m, n, k, numSms, Candidates(m, k, numSms)), i)
    ensures Chosen(m, n, k, numSms, Candidates(m, k, numSms)[i])
  {
    var cs := Candidates(m, k, numSms);
    CandidatesExactly(m, k, numSms, cs[i]);
    forall x | Admitted(m, k, numSms, x) && x != cs[i] ensures Preferred(m, n, k, numSms, cs[i], x) {
      CandidatesExactly(m, k, numSms, x);
      var j :| 0 <= j < |cs| && cs[j] == x;
      FirstIsPreferred(m, n, k, numSms, i, j);
    }
  }
}
