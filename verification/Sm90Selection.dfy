/** What the search for compute capability 9 selects, and what every candidate guarantees. */
module Sm90Selection {
  import opened IntMath
  import opened GemmTypes
  import opened Sm90Search
  import opened Wrappers

  datatype Cost = Finite(cycles: real) | Infinite

  predicate Less(a: Cost, b: Cost) {
    match a
    case Infinite => false
    case Finite(x) => b.Infinite? || x < b.cycles
  }

  datatype LayoutInfo = LayoutInfo(numWaves: int, lastWaveUtil: int, cost: Cost)

  lemma BlocksAndWavesPositive(m: int, n: int, numSms: int, l: GemmLayout)
    requires m > 0 && n > 0 && numSms > 0 && PositiveBlocks(l)
    ensures NumBlocks(m, n, l) > 0 && NumWaves(m, n, numSms, l) > 0
  {
    CeilDivPositive(m, l.blockM);
    CeilDivPositive(n, l.blockN);
    MulMonotone(1, CeilDiv(m, l.blockM), CeilDiv(n, l.blockN));
    CeilDivPositive(NumBlocks(m, n, l), numSms);
  }

  function MinReal(a: real, b: real): real { if a <= b then a else b }

  function L2Bandwidth(numSms: int): (r: real)
    requires numSms > 0
    ensures r > 0.0
  {
    MinReal(64.0 * numSms as real, 8000000.0 / 1300.0)
  }

  function L1Bandwidth(numSms: int): (r: real)
    requires numSms > 0
    ensures r > 0.0
  {
    128.0 * numSms as real
  }

  /** Bytes one block moves through the L2 and L1 caches. */
  function L2Bytes(k: int, l: GemmLayout): int
    requires SmallCluster(l)
  {
    k * (l.blockM / l.clusterN + l.blockN / l.clusterM) + l.blockM * l.blockN * 2
  }

  function L1Bytes(k: int, l: GemmLayout): int {
    var ab := k * (l.blockM + l.blockN);
    var tc := k * (Max(64, l.blockM) + l.blockN) + l.blockM * l.blockN * 2;
    var cd := l.blockM * l.blockN * 2;
    ab + tc + cd
  }

  lemma QuotientPositive(a: real, b: real)
    requires a > 0.0 && b > 0.0
    ensures a / b > 0.0
  {
  }

  /** Cycles of the slower of two transfers, x bytes per block at bandwidth w, over b blocks, scaled
      up from the b blocks there are to the c block slots of all waves. */
  function Bottleneck(x1: real, w1: real, x2: real, w2: real, b: real, c: real): real
    requires w1 > 0.0 && w2 > 0.0 && b > 0.0 && c > 0.0
  {
    var efficiency := b / c;
    QuotientPositive(b, c);
    var first, second := x1 * b / w1, x2 * b / w2;
    if first >= second then first / efficiency else second / efficiency
  }

  lemma ScaledQuotient(x: real, b: real, w: real, c: real)
    requires b > 0.0 && w > 0.0 && c > 0.0
    ensures b / c > 0.0
    ensures (x * b / w) / (b / c) == c * (x / w)
  {
    QuotientPositive(b, c);
    var y := x / w;
    assert x == y * w;
    assert x * b / w == y * b by {
      assert x * b == (y * b) * w;
    }
    var z := b / c;
    assert b == z * c;
    assert y * b == (c * y) * z;
  }

  lemma QuotientOrder(x1: real, w1: real, x2: real, w2: real, b: real)
    requires w1 > 0.0 && w2 > 0.0 && b > 0.0
    ensures x1 * b / w1 >= x2 * b / w2 <==> x1 / w1 >= x2 / w2
  {
    var y, z := x1 / w1, x2 / w2;
    assert x1 == y * w1 && x2 == z * w2;
    assert x1 * b == (y * b) * w1 && x2 * b == (z * b) * w2;
    assert x1 * b / w1 == y * b && x2 * b / w2 == z * b;
  }

  /** The cost model in closed form: every wave, full or not, is charged for all SMs, and a block
      costs whichever of its two transfers is slower. The block count itself cancels out. */
  lemma BottleneckClosedForm(x1: real, w1: real, x2: real, w2: real, b: real, c: real)
    requires w1 > 0.0 && w2 > 0.0 && b > 0.0 && c > 0.0
    ensures Bottleneck(x1, w1, x2, w2, b, c)
         == if x1 / w1 >= x2 / w2 then c * (x1 / w1) else c * (x2 / w2)
  {
    QuotientOrder(x1, w1, x2, w2, b);
    if x1 / w1 >= x2 / w2 {
      ScaledQuotient(x1, b, w1, c);
    } else {
      ScaledQuotient(x2, b, w2, c);
    }
  }

  /** Block slots of all waves, full or not. */
  function Slots(m: int, n: int, numSms: int, l: GemmLayout): (r: real)
    requires m > 0 && n > 0 && numSms > 0 && PositiveBlocks(l)
    ensures r > 0.0
  {
    BlocksAndWavesPositive(m, n, numSms, l);
    MulMonotone(1, NumWaves(m, n, numSms, l), numSms);
    (NumWaves(m, n, numSms, l) * numSms) as real
  }

  function Cycles(m: int, n: int, k: int, numSms: int, l: GemmLayout): real
    requires m > 0 && n > 0 && numSms > 0 && PositiveBlocks(l) && SmallCluster(l)
  {
    BlocksAndWavesPositive(m, n, numSms, l);
    Bottleneck(L1Bytes(k, l) as real, L1Bandwidth(numSms), L2Bytes(k, l) as real, L2Bandwidth(numSms),
               NumBlocks(m, n, l) as real, Slots(m, n, numSms, l))
  }

  /** `sm90_layout_info`; None where the wave count does not fit in 32 bits and the source throws. */
  function Info(m: int, n: int, k: int, numSms: int, l: GemmLayout): Option<LayoutInfo>
    requires m > 0 && n > 0 && numSms > 0 && PositiveBlocks(l) && SmallCluster(l)
  {
    var numBlocks, numWaves := NumBlocks(m, n, l), NumWaves(m, n, numSms, l);
    if numWaves > I32_MAX then None
    else
      var last := numBlocks % numSms;
      var util := if last == 0 then numSms else last;
      var cost := if l.ClusterSize() > 1 && numWaves <= 1 then Infinite else Finite(Cycles(m, n, k, numSms, l));
      Some(LayoutInfo(numWaves, util, cost))
  }

  // Candidates

  /** Every candidate gets the deepest pipeline that fits under the cap, within shared memory, and at
      least three stages (four for all but the largest blocks). */
  lemma CandidatePipeline(m: int, k: int, numSms: int, l: GemmLayout)
    requires l in Candidates(m, k, numSms)
    ensures PositiveBlocks(l) && SmallCluster(l) && Storage(l).Some?
    ensures var p := PipelineOf(k, l);
            && 3 <= MinStages(l) <= p.numStages <= MAX_STAGES
            && p.smemSize <= SMEM_CAPACITY
            && (p.numStages < MAX_STAGES ==> p.smemSize + StageBytes(l) > SMEM_CAPACITY)
  {
    CandidateCharacterized(m, k, numSms, l);
    PipelineSizing(FixedBytes(k, l), StageBytes(l), MAX_STAGES);
  }

  /** Three is the best bound: a block of 256 by 128 gets exactly three. */
  lemma ThreeStagesAttained()
    ensures var l := GemmLayout(false, 256, 128, 1, 1);
            l in Candidates(256, 128, 1) && PositiveBlocks(l) && PipelineOf(128, l).numStages == 3
  {
    var l := GemmLayout(false, 256, 128, 1, 1);
    assert BlockNs()[7] == 128;
    assert FixedBytes(128, l) == 65800 && StageBytes(l) == 50176;
    assert PipelineOf(128, l).numStages == 3;
    assert Accepted(128, 1, l);
    CandidateCharacterized(256, 128, 1, l);
  }

  lemma FixedBytesMonotone(k1: int, k2: int, l: GemmLayout)
    requires k1 <= k2 && PositiveBlocks(l)
    ensures FixedBytes(k1, l) <= FixedBytes(k2, l)
  {
    CeilDivMonotone(k1, k2, BLOCK_K);
    var u := if BLOCK_K % l.blockN == 0 then 1 else 2;
    AlignUpMonotone(CeilDiv(k1, BLOCK_K) * 4 * u, CeilDiv(k2, BLOCK_K) * 4 * u, 8);
  }

  /** A longer reduction dimension only removes candidates: its list is the shorter dimension's list
      filtered once more, so a subsequence of it. */
  lemma CandidatesShrinkInK(m: int, k1: int, k2: int, numSms: int)
    requires k1 <= k2
    ensures Candidates(m, k2, numSms) == Filter(Candidates(m, k1, numSms), Accepts(k2, numSms))
  {
    var weak, strong := Accepts(k1, numSms), Accepts(k2, numSms);
    var all := Grid(false, BlockMs(m), BlockNs());
    forall l | l in all && strong(l)
      ensures weak(l)
    {
      FixedBytesMonotone(k1, k2, l);
      PipelineAntitone(FixedBytes(k1, l), FixedBytes(k2, l), StageBytes(l), MAX_STAGES);
    }
    FilterStronger(all, weak, strong);
  }

  /** Shared memory of the smallest block shape for m at its fewest stages, the scales of the second
      operand apart. */
  function LeastBytes(m: int): int {
    if m <= 16 then 18176 else if m <= 32 then 26368 else 44288
  }

  function SmallestM(m: int): int { if m <= 16 then 16 else if m <= 32 then 32 else 64 }

  /** The number of 128-wide steps of k whose scales still fit beside that shape. */
  function StepLimit(m: int): int { (SMEM_CAPACITY - LeastBytes(m)) / 4 }

  lemma EveryShapeNeedsLeastBytes(m: int, l: GemmLayout)
    requires l.blockM in BlockMs(m) && l.blockN in BlockNs()
    ensures PositiveBlocks(l)
    ensures AlignUp(l.blockM * l.blockN * 2, 1024) + 256 + MinStages(l) * StageBytes(l) >= LeastBytes(m)
  {
    var i :| 0 <= i < 12 && l.blockN == 16 * (i + 1);
    assert l.blockM >= SmallestM(m);
    MulMonotone(SmallestM(m), l.blockM, l.blockN);
    MulMonotone(16, l.blockN, SmallestM(m));
    AlignUpLeast(l.blockM * l.blockN * 2, 1024);
    AlignUpLeast(l.blockM * 4, 128);
    assert StageBytes(l) >= SmallestM(m) * 128 + 16 * 128 + AlignUp(SmallestM(m) * 4, 128) by {
      AlignUpMonotone(SmallestM(m) * 4, l.blockM * 4, 128);
    }
    if MinStages(l) == 3 {
      assert l.blockM >= 128 by {
        if l.blockM < 128 { MulMonotone(l.blockM, 64, l.blockN); }
      }
    }
  }

  lemma AcceptedWithinLimit(m: int, k: int, numSms: int, l: GemmLayout)
    requires l in Candidates(m, k, numSms)
    ensures CeilDiv(k, BLOCK_K) <= StepLimit(m)
  {
    CandidateCharacterized(m, k, numSms, l);
    EveryShapeNeedsLeastBytes(m, l);
    PipelineIsLargest(FixedBytes(k, l), StageBytes(l), MAX_STAGES, MinStages(l));
    var q := CeilDiv(k, BLOCK_K);
    var u := if BLOCK_K % l.blockN == 0 then 1 else 2;
    AlignUpLeast(q * 4 * u, 8);
    if q > StepLimit(m) { MulMonotone(1, u, q * 4); }
  }

  lemma SmallestShapeAccepted(m: int, k: int, numSms: int)
    requires CeilDiv(k, BLOCK_K) <= StepLimit(m)
    ensures GemmLayout(false, SmallestM(m), 16, 1, 1) in Candidates(m, k, numSms)
  {
    var l := GemmLayout(false, SmallestM(m), 16, 1, 1);
    assert BlockNs()[0] == 16;
    var limit := SMEM_CAPACITY - LeastBytes(m);
    AlignUpLeast(CeilDiv(k, BLOCK_K) * 4, 8);
    assert AlignUp(CeilDiv(k, BLOCK_K) * 4, 8) <= limit;
    assert FixedBytes(k, l) + 4 * StageBytes(l) <= SMEM_CAPACITY;
    PipelineIsLargest(FixedBytes(k, l), StageBytes(l), MAX_STAGES, 4);
    CandidateCharacterized(m, k, numSms, l);
  }

  /** The search finds a candidate exactly when the scales of k, one float per 128-wide step, fit
      beside the smallest block shape. */
  lemma CandidatesExistIff(m: int, k: int, numSms: int)
    ensures Candidates(m, k, numSms) != [] <==> CeilDiv(k, BLOCK_K) <= StepLimit(m)
  {
    if CeilDiv(k, BLOCK_K) <= StepLimit(m) {
      SmallestShapeAccepted(m, k, numSms);
    }
    if Candidates(m, k, numSms) != [] {
      AcceptedWithinLimit(m, k, numSms, Candidates(m, k, numSms)[0]);
    }
  }

  /** The largest k the scale transform accepts at granularity 128 always has a candidate. */
  lemma CandidatesExist(m: int, k: int, numSms: int)
    requires k <= 65536
    ensures Candidates(m, k, numSms) != []
  {
    CeilDivMonotone(k, 65536, BLOCK_K);
    CandidatesExistIff(m, k, numSms);
  }

  /** Each clustered candidate comes after the same block shape without a cluster. */
  lemma EarlierUnclusteredTwin(m: int, k: int, numSms: int, i: nat) returns (j: nat)
    requires i < |Candidates(m, k, numSms)| && Candidates(m, k, numSms)[i].ClusterSize() > 1
    ensures j < i && Candidates(m, k, numSms)[j] == Candidates(m, k, numSms)[i].(clusterM := 1, clusterN := 1)
  {
    var bms, bns, p := BlockMs(m), BlockNs(), Accepts(k, numSms);
    var first := Block(false, 1, 1, bms, bns);
    var rest := Block(false, 1, 2, bms, bns) + Block(false, 2, 1, bms, bns) + Block(false, 2, 2, bms, bns);
    assert Grid(false, bms, bns) == first + rest;
    FilterAppend(first, rest, p);
    var l := Candidates(m, k, numSms)[i];
    var twin := l.(clusterM := 1, clusterN := 1);
    CandidateCharacterized(m, k, numSms, l);
    TwinAccepted(k, numSms, l);
    BlockMember(false, 1, 1, bms, bns, twin);
    FilterMember(first, p, twin);
    if i < |Filter(first, p)| {
      FilterMember(first, p, l);
      BlockMember(false, 1, 1, bms, bns, l);
    }
    j :| 0 <= j < |Filter(first, p)| && Filter(first, p)[j] == twin;
  }

  lemma TwinAccepted(k: int, numSms: int, l: GemmLayout)
    requires Accepted(k, numSms, l)
    ensures Accepted(k, numSms, l.(clusterM := 1, clusterN := 1))
  {
    var twin := l.(clusterM := 1, clusterN := 1);
    assert FixedBytes(k, twin) == FixedBytes(k, l) && StageBytes(twin) == StageBytes(l);
    assert Storage(twin) == Storage(l);
  }

  // What clustering is worth

  /** A cluster of two halves the traffic of the operand it shares and changes nothing else. */
  lemma ClusteringSavesTraffic(k: int, l: GemmLayout)
    requires SmallCluster(l) && l.ClusterSize() == 2 && l.blockM % 2 == 0 && l.blockN % 2 == 0
    ensures var twin := l.(clusterM := 1, clusterN := 1);
            && L1Bytes(k, l) == L1Bytes(k, twin)
            && L2Bytes(k, twin) - L2Bytes(k, l) == k * ((if l.clusterN == 2 then l.blockM else l.blockN) / 2)
  {
    var a, b := l.blockM / 2, l.blockN / 2;
    assert l.blockM == 2 * a && l.blockN == 2 * b;
    if l.clusterN == 2 {
      assert l.clusterM == 1;
      assert k * (2 * a + 2 * b) - k * (a + 2 * b) == k * a;
    } else {
      assert l.clusterM == 2;
      assert k * (2 * a + 2 * b) - k * (2 * a + b) == k * b;
    }
  }

  lemma BottleneckMonotone(x1: real, w1: real, x2: real, x2': real, w2: real, b: real, c: real)
    requires w1 > 0.0 && w2 > 0.0 && b > 0.0 && c > 0.0 && x2' <= x2
    ensures Bottleneck(x1, w1, x2', w2, b, c) <= Bottleneck(x1, w1, x2, w2, b, c)
  {
    BottleneckClosedForm(x1, w1, x2, w2, b, c);
    BottleneckClosedForm(x1, w1, x2', w2, b, c);
    QuotientMonotone(x2', x2, w2);
    ScaledMonotone(c, x1 / w1, x2' / w2, x2 / w2);
  }

  lemma QuotientMonotone(x: real, y: real, w: real)
    requires w > 0.0 && x <= y
    ensures x / w <= y / w
  {
    var p, q := x / w, y / w;
    assert x == p * w && y == q * w;
    ProductOrder(p, q, w);
  }

  lemma ProductOrder(p: real, q: real, w: real)
    requires w > 0.0
    ensures p > q ==> p * w > q * w
  {
  }

  lemma ScaledMonotone(c: real, a: real, b': real, b: real)
    requires c > 0.0 && b' <= b
    ensures (if a >= b' then c * a else c * b') <= (if a >= b then c * a else c * b)
  {
  }

  /** So past the first wave a clustered layout never costs more than the same blocks without a
      cluster. */
  lemma ClusteringNeverCostsMore(m: int, n: int, k: int, numSms: int, l: GemmLayout)
    requires m > 0 && n > 0 && k >= 0 && numSms > 0 && l in Candidates(m, k, numSms) && l.ClusterSize() == 2
    ensures PositiveBlocks(l) && SmallCluster(l)
    ensures Cycles(m, n, k, numSms, l) <= Cycles(m, n, k, numSms, l.(clusterM := 1, clusterN := 1))
  {
    CandidateCharacterized(m, k, numSms, l);
    var twin := l.(clusterM := 1, clusterN := 1);
    BlocksEven(m, l);
    ClusteringSavesTraffic(k, l);
    assert L2Bytes(k, l) <= L2Bytes(k, twin) by {
      MulMonotone(0, k, (if l.clusterN == 2 then l.blockM else l.blockN) / 2);
    }
    BlocksAndWavesPositive(m, n, numSms, l);
    assert NumBlocks(m, n, twin) == NumBlocks(m, n, l) && Slots(m, n, numSms, twin) == Slots(m, n, numSms, l);
    BottleneckMonotone(L1Bytes(k, l) as real, L1Bandwidth(numSms), L2Bytes(k, twin) as real, L2Bytes(k, l) as real,
                       L2Bandwidth(numSms), NumBlocks(m, n, l) as real, Slots(m, n, numSms, l));
  }

  lemma BlocksEven(m: int, l: GemmLayout)
    requires l.blockM in BlockMs(m) && l.blockN in BlockNs()
    ensures l.blockM > 0 && l.blockN > 0 && l.blockM % 2 == 0 && l.blockN % 2 == 0
  {
    var i :| 0 <= i < 12 && l.blockN == 16 * (i + 1);
  }

  // Selection

  datatype Selection = Selected(config: GemmConfig, info: LayoutInfo) | NoCandidates | TooManyWaves

  function ConfigFor(k: int, l: GemmLayout): GemmConfig
    requires PositiveBlocks(l) && Storage(l).Some?
  {
    GemmConfig(l, Storage(l).value, PipelineOf(k, l), Launch(l))
  }

  /** i is the first index of minimum cost. */
  predicate FirstMinimum(costs: seq<Cost>, i: nat) {
    && i < |costs|
    && (forall j :: 0 <= j < |costs| ==> !Less(costs[j], costs[i]))
    && (forall j :: 0 <= j < i ==> Less(costs[i], costs[j]))
  }

  predicate Usable(ls: seq<GemmLayout>) {
    forall l :: l in ls ==> PositiveBlocks(l) && SmallCluster(l) && Storage(l).Some?
  }

  predicate AllInfosDefined(m: int, n: int, k: int, numSms: int, ls: seq<GemmLayout>)
    requires m > 0 && n > 0 && numSms > 0 && Usable(ls)
  {
    forall i :: 0 <= i < |ls| ==> Info(m, n, k, numSms, ls[i]).Some?
  }

  function Costs(m: int, n: int, k: int, numSms: int, ls: seq<GemmLayout>): (costs: seq<Cost>)
    requires m > 0 && n > 0 && numSms > 0 && Usable(ls) && AllInfosDefined(m, n, k, numSms, ls)
  {
    seq(|ls|, i requires 0 <= i < |ls| => Info(m, n, k, numSms, ls[i]).value.cost)
  }

  lemma CandidatesUsable(m: int, k: int, numSms: int)
    ensures Usable(Candidates(m, k, numSms))
  {
    forall l | l in Candidates(m, k, numSms)
      ensures PositiveBlocks(l) && SmallCluster(l) && Storage(l).Some?
    {
      CandidatePipeline(m, k, numSms, l);
    }
  }

  lemma FirstMinimumStep(costs: seq<Cost>, best: nat, cost: Cost)
    requires FirstMinimum(costs, best)
    ensures FirstMinimum(costs + [cost], if Less(cost, costs[best]) then |costs| else best)
  {
  }

  lemma CostsStep(m: int, n: int, k: int, numSms: int, ls: seq<GemmLayout>, i: nat)
    requires m > 0 && n > 0 && numSms > 0 && Usable(ls) && i < |ls| && AllInfosDefined(m, n, k, numSms, ls[..i])
    requires Info(m, n, k, numSms, ls[i]).Some?
    ensures AllInfosDefined(m, n, k, numSms, ls[..i + 1])
    ensures Costs(m, n, k, numSms, ls[..i + 1])
         == Costs(m, n, k, numSms, ls[..i]) + [Info(m, n, k, numSms, ls[i]).value.cost]
  {
    assert ls[..i + 1] == ls[..i] + [ls[i]];
  }

  /** The waves of the smallest block shape for m. */
  function MostWaves(m: int, n: int, numSms: int): int
    requires numSms > 0
  {
    NumWaves(m, n, numSms, GemmLayout(false, SmallestM(m), 16, 1, 1))
  }

  /** Wave counts overflow for some candidate exactly when they do for the smallest block shape, which is
      always a candidate if any is. */
  lemma InfosDefinedExactly(m: int, n: int, k: int, numSms: int)
    requires m > 0 && n > 0 && numSms > 0 && CeilDiv(k, BLOCK_K) <= StepLimit(m)
    requires Usable(Candidates(m, k, numSms))
    ensures AllInfosDefined(m, n, k, numSms, Candidates(m, k, numSms)) <==> MostWaves(m, n, numSms) <= I32_MAX
  {
    var cs, small := Candidates(m, k, numSms), GemmLayout(false, SmallestM(m), 16, 1, 1);
    SmallestShapeAccepted(m, k, numSms);
    forall i | 0 <= i < |cs|
      ensures NumWaves(m, n, numSms, cs[i]) <= MostWaves(m, n, numSms)
    {
      SmallestIsSmallest(m, k, numSms, cs[i]);
      LargerBlocksFewerWaves(m, n, numSms, small, cs[i]);
    }
    var i :| 0 <= i < |cs| && cs[i] == small;
  }

  lemma SmallestIsSmallest(m: int, k: int, numSms: int, l: GemmLayout)
    requires l in Candidates(m, k, numSms)
    ensures l.blockM >= SmallestM(m) && l.blockN >= 16
  {
    CandidateCharacterized(m, k, numSms, l);
    var j :| 0 <= j < 12 && l.blockN == 16 * (j + 1);
  }

  /** A search that yields anything. */
  predicate Selects(m: int, n: int, k: int, numSms: int)
    requires numSms > 0
  {
    CeilDiv(k, BLOCK_K) <= StepLimit(m) && MostWaves(m, n, numSms) <= I32_MAX
  }

  /** The search selects something exactly when the scales of k fit beside the smallest block shape and
      that shape's wave count fits 32 bits. */
  lemma SelectsExactly(m: int, n: int, k: int, numSms: int)
    requires m > 0 && n > 0 && numSms > 0
    requires Usable(Candidates(m, k, numSms))
    ensures Candidates(m, k, numSms) != [] && AllInfosDefined(m, n, k, numSms, Candidates(m, k, numSms))
            <==> Selects(m, n, k, numSms)
  {
    CandidatesExistIff(m, k, numSms);
    if CeilDiv(k, BLOCK_K) <= StepLimit(m) {
      InfosDefinedExactly(m, n, k, numSms);
    }
  }

  /** `sm90_best_config`: the first cheapest candidate. The whole search fails when there is no
      candidate, and also when any candidate's wave count overflows. */
  method BestConfig(m: int, n: int, k: int, numSms: int) returns (r: Selection)
    requires m > 0 && n > 0 && numSms > 0
    ensures r.Selected? <==> Selects(m, n, k, numSms)
    ensures Usable(Candidates(m, k, numSms))
    ensures var cs := Candidates(m, k, numSms);
            && (r.NoCandidates? <==> cs == [])
            && (r.TooManyWaves? ==> !AllInfosDefined(m, n, k, numSms, cs))
            && (r.Selected? ==>
                  && AllInfosDefined(m, n, k, numSms, cs)
                  && exists i: nat :: FirstMinimum(Costs(m, n, k, numSms, cs), i)
                              && r.config == ConfigFor(k, cs[i])
                              && Some(r.info) == Info(m, n, k, numSms, cs[i]))
  {
    var candidates := LayoutCandidates(m, k, numSms);
    CandidatesUsable(m, k, numSms);
    SelectsExactly(m, n, k, numSms);
    if candidates == [] {
      return NoCandidates;
    }
    var bestLayout := candidates[0];
    var firstInfo := Info(m, n, k, numSms, bestLayout);
    if firstInfo.None? {
      return TooManyWaves;
    }
    var bestInfo := firstInfo.value;
    ghost var best := 0;
    var i := 1;
    while i < |candidates|
      invariant 1 <= i <= |candidates|
      invariant AllInfosDefined(m, n, k, numSms, candidates[..i])
      invariant best < i && candidates[best] == bestLayout
      invariant Info(m, n, k, numSms, bestLayout) == Some(bestInfo)
      invariant FirstMinimum(Costs(m, n, k, numSms, candidates[..i]), best)
    {
      var info := Info(m, n, k, numSms, candidates[i]);
      if info.None? {
        return TooManyWaves;
      }
      CostsStep(m, n, k, numSms, candidates, i);
      FirstMinimumStep(Costs(m, n, k, numSms, candidates[..i]), best, info.value.cost);
      if Less(info.value.cost, bestInfo.cost) {
        bestLayout := candidates[i];
        bestInfo := info.value;
        best := i;
      }
      i := i + 1;
    }
    assert candidates[..i] == candidates;
    r := Selected(GemmConfig(bestLayout, Storage(bestLayout).value, PipelineOf(k, bestLayout), Launch(bestLayout)),
                  bestInfo);
  }

  lemma FirstMinimumUnique(costs: seq<Cost>, i: nat, j: nat)
    requires FirstMinimum(costs, i) && j < |costs|
    ensures FirstMinimum(costs, j) <==> j == i
  {
    if i < j {
      assert !Less(costs[j], costs[i]);
    } else if j < i {
      assert Less(costs[i], costs[j]);
    }
  }

  lemma OneWaveClusterLoses(m: int, n: int, k: int, numSms: int, i: nat) returns (j: nat)
    requires m > 0 && n > 0 && numSms > 0
    requires Usable(Candidates(m, k, numSms)) && AllInfosDefined(m, n, k, numSms, Candidates(m, k, numSms))
    requires i < |Candidates(m, k, numSms)|
    requires Candidates(m, k, numSms)[i].ClusterSize() > 1 && NumWaves(m, n, numSms, Candidates(m, k, numSms)[i]) <= 1
    ensures j < i
    ensures var costs := Costs(m, n, k, numSms, Candidates(m, k, numSms));
            Less(costs[j], costs[i])
  {
    j := EarlierUnclusteredTwin(m, k, numSms, i);
    var cs := Candidates(m, k, numSms);
    var costs := Costs(m, n, k, numSms, cs);
    assert costs[i] == Infinite;
    assert cs[j].ClusterSize() == 1;
    assert costs[j].Finite?;
  }

  /** A cheapest candidate is never a clustered layout that finishes in one wave: the infinite cost
      of that case loses to the unclustered twin. */
  lemma SelectionNeverClustersOneWave(m: int, n: int, k: int, numSms: int, i: nat)
    requires m > 0 && n > 0 && numSms > 0
    requires Usable(Candidates(m, k, numSms)) && AllInfosDefined(m, n, k, numSms, Candidates(m, k, numSms))
    requires FirstMinimum(Costs(m, n, k, numSms, Candidates(m, k, numSms)), i)
    ensures var l := Candidates(m, k, numSms)[i];
            l.ClusterSize() == 1 || NumWaves(m, n, numSms, l) > 1
  {
    var l := Candidates(m, k, numSms)[i];
    assert l.ClusterSize() >= 1 by {
      CandidatePipeline(m, k, numSms, l);
      MulMonotone(1, l.clusterM, l.clusterN);
    }
    if l.ClusterSize() > 1 && NumWaves(m, n, numSms, l) <= 1 {
      var j := OneWaveClusterLoses(m, n, k, numSms, i);
    }
  }
}
