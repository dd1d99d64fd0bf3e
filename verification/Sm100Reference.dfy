/** An independent reading of the search for compute capability 10, in plain numbers: which layouts it
    considers and in which order, what the shared memory and tensor memory of each holds, how they
    rank, and which one is chosen. No function of the enumeration itself appears in these definitions. */
module Sm100Reference {
  import opened IntMath
  import opened GemmTypes
  import opened Sm100Search
  import opened Sm100Selection
  import opened Wrappers

  // Block shapes

  predicate RowsListed(swapAb: bool, m: int, bm: int) {
    if swapAb then bm % 16 == 0 && 16 <= bm <= 240
    else (bm == 32 && m <= 32) || (bm == 64 && 32 < m <= 64) || (bm == 128 && 64 < m)
  }

  predicate ColumnsListed(swapAb: bool, k: int, bn: int) {
    if swapAb then bn == 128
    else bn == 16 || (bn % 32 == 0 && 32 <= bn <= (if k <= 256 then 128 else 224))
  }

  /** Two blocks share the second operand's tile, or with operands swapped the first's: on an even number
      of SMs, and where the grid has an even number of blocks in that direction. */
  predicate ClusterListed(m: int, n: int, numSms: int, l: GemmLayout)
    requires PositiveBlocks(l)
  {
    || (l.clusterM == 1 && l.clusterN == 1)
    || (!l.swapAb && l.clusterM == 2 && l.clusterN == 1 && numSms % 2 == 0 && CeilDiv(m, l.blockM) % 2 == 0)
    || (l.swapAb && l.clusterM == 1 && l.clusterN == 2 && numSms % 2 == 0 && CeilDiv(n, l.blockN) % 2 == 0)
  }

  predicate Admitted(m: int, n: int, k: int, numSms: int, l: GemmLayout) {
    && PositiveBlocks(l)
    && RowsListed(l.swapAb, m, l.blockM) && ColumnsListed(l.swapAb, k, l.blockN)
    && ClusterListed(m, n, numSms, l)
  }

  lemma PlainRows(m: int, bm: int)
    ensures bm in BlockMs(false, m) <==> RowsListed(false, m, bm)
  {
    assert BlockMs(false, m)[0] in BlockMs(false, m);
  }

  lemma SwappedRows(m: int, bm: int)
    ensures bm in BlockMs(true, m) <==> bm % 16 == 0 && 16 <= bm <= 256
  {
    if bm in BlockMs(true, m) {
      var i :| 0 <= i < 16 && bm == 16 * (i + 1);
    }
    if bm % 16 == 0 && 16 <= bm <= 256 {
      assert BlockMs(true, m)[bm / 16 - 1] == bm;
    }
  }

  lemma PlainColumns(k: int, bn: int)
    ensures bn in BlockNs(false, k) <==> bn == 16 || (bn % 32 == 0 && 32 <= bn <= (if k <= 256 then 128 else 256))
  {
    var count := if k <= 256 then 4 else 8;
    assert BlockNs(false, k)[0] == 16;
    if bn in BlockNs(false, k) && bn != 16 {
      var i :| 0 <= i < count && bn == 32 * (i + 1);
    }
    if bn % 32 == 0 && 32 <= bn <= 32 * count {
      assert BlockNs(false, k)[bn / 32] == bn;
    }
  }

  lemma SwappedColumns(k: int, bn: int)
    ensures bn in BlockNs(true, k) <==> bn == 128
  {
    assert BlockNs(true, k)[0] == 128;
  }

  // Tensor memory

  /** Columns of tensor memory: two accumulators as wide as the tile, and for every 128 rows or columns of
      scales, or part of them, four. */
  ghost predicate TensorColumns(width: int, bm: int, bn: int, columns: int) {
    exists a, b :: LeastMultiple(a, bm, 128) && LeastMultiple(b, bn, 128) && 32 * (columns - 2 * width) == a + b
  }

  lemma TmemIsTensorColumns(l: GemmLayout, columns: int)
    ensures TensorColumns(if l.swapAb then l.blockM else l.blockN, l.blockM, l.blockN, columns)
            <==> columns == TmemColumns(l)
  {
    var width := if l.swapAb then l.blockM else l.blockN;
    var a, b := AlignUp(l.blockM, 128), AlignUp(l.blockN, 128);
    AlignUpIsLeastMultiple(l.blockM, 128);
    AlignUpIsLeastMultiple(l.blockN, 128);
    assert a == 32 * (a / 32) && b == 32 * (b / 32) by {
      assert a == 128 * (a / 128) && b == 128 * (b / 128);
    }
    assert 32 * (TmemColumns(l) - 2 * width) == a + b;
    if TensorColumns(width, l.blockM, l.blockN, columns) {
      var a', b' :| LeastMultiple(a', l.blockM, 128) && LeastMultiple(b', l.blockN, 128)
                    && 32 * (columns - 2 * width) == a' + b';
      LeastMultipleUnique(a, a', l.blockM, 128);
      LeastMultipleUnique(b, b', l.blockN, 128);
    }
  }

  /** Of the shapes the loops visit, the 512 columns admit all but those 256 wide. */
  lemma TensorMemoryAdmits(l: GemmLayout)
    requires l.blockM % 16 == 0 && 16 <= l.blockM <= 256 && l.blockN % 16 == 0 && 16 <= l.blockN <= 256
    requires if l.swapAb then l.blockN == 128 else l.blockM <= 128
    requires !l.swapAb ==> l.blockN == 16 || l.blockN % 32 == 0
    ensures TmemColumns(l) <= TMEM_COLUMNS <==> (if l.swapAb then l.blockM <= 240 else l.blockN <= 224)
  {
    AlignUpBetween(l.blockM, 0, 256);
    AlignUpBetween(l.blockN, 0, 256);
    if l.swapAb {
      assert AlignUp(128, 128) == 128;
      if l.blockM > 240 { assert l.blockM == 256 && AlignUp(256, 128) == 256; }
    } else if l.blockN > 224 {
      assert l.blockN == 256 by {
        assert l.blockN == 32 * (l.blockN / 32);
      }
    }
  }

  // Candidates

  lemma StorageNumbers(l: GemmLayout)
    requires SmallCluster(l) && l.blockN % 16 == 0
    ensures Storage(l).Some? && Storage(l).value.swizzleA == 128 && Storage(l).value.swizzleB == 128
  {
    assert (l.blockN * 2) % 32 == 0;
  }

  lemma HalvesAreEights(x: int, parts: int)
    requires x % 16 == 0 && 1 <= parts <= 2
    ensures (x / parts) % 8 == 0
  {
    var q := x / 16;
    assert x == 16 * q;
    if parts == 1 {
      assert x / parts == 8 * (2 * q);
    } else {
      assert x / parts == 8 * q;
    }
  }

  lemma FiltersInNumbers(m: int, n: int, numSms: int, l: GemmLayout)
    requires SmallCluster(l)
    requires l.blockM % 16 == 0 && 16 <= l.blockM <= 256 && l.blockN % 16 == 0 && 16 <= l.blockN <= 256
    requires if l.swapAb then l.blockN == 128 else l.blockM <= 128 && (l.blockN == 16 || l.blockN % 32 == 0)
    ensures PositiveBlocks(l)
    ensures Accepted(m, n, numSms, l)
            <==> ClusterListed(m, n, numSms, l) && (if l.swapAb then l.blockM <= 240 else l.blockN <= 224)
  {
    StorageNumbers(l);
    HalvesAreEights(l.blockM, l.clusterN);
    HalvesAreEights(l.blockN, l.clusterM);
    TensorMemoryAdmits(l);
  }

  /** The candidates, in numbers. */
  lemma CandidatesExactly(m: int, n: int, k: int, numSms: int, l: GemmLayout)
    ensures l in Candidates(m, n, k, numSms) <==> Admitted(m, n, k, numSms, l)
  {
    CandidateCharacterized(m, n, k, numSms, l);
    ShapesListed(m, k, l);
    if l.blockM in BlockMs(l.swapAb, m) && l.blockN in BlockNs(l.swapAb, k) && SmallCluster(l) {
      BlockSizes(m, k, l);
      FiltersInNumbers(m, n, numSms, l);
    }
  }

  /** The listed shapes are those visited but for the widest, which the filters remove. */
  lemma ShapesListed(m: int, k: int, l: GemmLayout)
    ensures RowsListed(l.swapAb, m, l.blockM) && ColumnsListed(l.swapAb, k, l.blockN)
            <==> && l.blockM in BlockMs(l.swapAb, m) && l.blockN in BlockNs(l.swapAb, k)
                 && (if l.swapAb then l.blockM <= 240 else l.blockN <= 224)
  {
    if l.swapAb {
      SwappedRows(m, l.blockM);
      SwappedColumns(k, l.blockN);
      assert l.blockM % 16 == 0 ==> l.blockM == 16 * (l.blockM / 16);
    } else {
      PlainRows(m, l.blockM);
      PlainColumns(k, l.blockN);
      assert l.blockN % 32 == 0 ==> l.blockN == 32 * (l.blockN / 32);
    }
  }

  /** The order of enumeration: operands as given before swapped, then by cluster, height and width. */
  predicate Earlier(x: GemmLayout, y: GemmLayout) {
    || (!x.swapAb && y.swapAb)
    || (x.swapAb == y.swapAb
        && (|| x.clusterM < y.clusterM
            || (x.clusterM == y.clusterM
                && (|| x.clusterN < y.clusterN
                    || (x.clusterN == y.clusterN
                        && (|| x.blockM < y.blockM
                            || (x.blockM == y.blockM && x.blockN < y.blockN)))))))
  }

  function InEnumeration(): Order { (x, y) => Earlier(x, y) }

  lemma RowsAscend(swapAb: bool, m: int, i: int, j: int)
    requires 0 <= i < j < |BlockMs(swapAb, m)|
    ensures BlockMs(swapAb, m)[i] < BlockMs(swapAb, m)[j]
  {
  }

  lemma ColumnsAscend(swapAb: bool, k: int, i: int, j: int)
    requires 0 <= i < j < |BlockNs(swapAb, k)|
    ensures BlockNs(swapAb, k)[i] < BlockNs(swapAb, k)[j]
  {
  }

  lemma CandidatesForInOrder(swapAb: bool, m: int, n: int, k: int, numSms: int)
    ensures Ordered(CandidatesFor(swapAb, m, n, k, numSms), InEnumeration())
  {
    var before, bms, bns := InEnumeration(), BlockMs(swapAb, m), BlockNs(swapAb, k);
    forall cm, cn ensures ColumnsInOrder(swapAb, cm, cn, bms, bns, before) {
      forall bm, i, j | bm in bms && 0 <= i < j < |bns|
        ensures before(GemmLayout(swapAb, bm, bns[i], cm, cn), GemmLayout(swapAb, bm, bns[j], cm, cn))
      {
        ColumnsAscend(swapAb, k, i, j);
      }
    }
    forall cm, cn ensures RowsInOrder(swapAb, cm, cn, bms, bns, before) {
      forall i, j, x, y | 0 <= i < j < |bms| && x in bns && y in bns
        ensures before(GemmLayout(swapAb, bms[i], x, cm, cn), GemmLayout(swapAb, bms[j], y, cm, cn))
      {
        RowsAscend(swapAb, m, i, j);
      }
    }
    GridOrdered(swapAb, bms, bns, before);
    FilterOrdered(Grid(swapAb, bms, bns), Accepts(m, n, numSms), before);
  }

  lemma CandidatesInOrder(m: int, n: int, k: int, numSms: int)
    ensures Ordered(Candidates(m, n, k, numSms), InEnumeration())
  {
    var plain, swapped := CandidatesFor(false, m, n, k, numSms), CandidatesFor(true, m, n, k, numSms);
    CandidatesForInOrder(false, m, n, k, numSms);
    CandidatesForInOrder(true, m, n, k, numSms);
    forall x, y | x in plain && y in swapped ensures InEnumeration()(x, y) {
      CandidateForCharacterized(false, m, n, k, numSms, x);
      CandidateForCharacterized(true, m, n, k, numSms, y);
    }
    OrderedAppend(plain, swapped, InEnumeration());
  }

  // The configuration of a layout

  /** What shared memory is carved into: two output stages; three eight-byte barriers for each of 32
      stages, two for each of two accumulators and one more, with a four-byte pointer; and in each stage
      the parts of both tiles that a block of the cluster loads, with four bytes of scales for each of
      their rows and columns, in units of 128. */
  datatype Regions = Regions(output: int, barriers: int, pointer: int, stage: int) {
    function Total(stages: int): int { output + barriers + pointer + stages * stage }
  }

  ghost predicate Carved(l: GemmLayout, g: Regions)
    requires SmallCluster(l)
  {
    && (if l.swapAb then g.output == 2 * (16 * 128 * 2)
        else exists w :: WidestSwizzle(w, 2 * l.blockN) && g.output == 2 * (l.blockM * w))
    && g.barriers == 32 * 3 * 8 + 2 * 2 * 8 + 8
    && g.pointer == 4
    && exists a, b :: LeastMultiple(a, l.blockM, 128) && LeastMultiple(b, l.blockN, 128)
                      && g.stage == 128 * (l.blockM / l.clusterN) + 128 * (l.blockN / l.clusterM) + 4 * a + 4 * b
  }

  lemma SearchCarves(l: GemmLayout) returns (g: Regions)
    requires SmallCluster(l) && Storage(l).Some? && l.blockN % 16 == 0
    requires if l.swapAb then l.blockN == 128 else l.blockM <= 128
    ensures Carved(l, g)
    ensures FixedBytes(l, Storage(l).value) == g.output + g.barriers + g.pointer
    ensures StageBytes(l, Storage(l).value) == g.stage
  {
    var s := Storage(l).value;
    var a, b := AlignUp(l.blockM, 128), AlignUp(l.blockN, 128);
    AlignUpIsLeastMultiple(l.blockM, 128);
    AlignUpIsLeastMultiple(l.blockN, 128);
    SwizzleIsWidest(l.blockN, 2, s.swizzleCd);
    assert WidestSwizzle(s.swizzleCd, 2 * l.blockN);
    g := Regions(if l.swapAb then 8192 else 2 * (l.blockM * s.swizzleCd), 808, 4, StageBytes(l, s));
    assert l.blockM * s.swizzleCd * 2 == 2 * (l.blockM * s.swizzleCd);
    assert g.stage == 128 * (l.blockM / l.clusterN) + 128 * (l.blockN / l.clusterM) + 4 * a + 4 * b;
  }

  lemma CandidateShape(m: int, n: int, k: int, numSms: int, l: GemmLayout)
    requires l in Candidates(m, n, k, numSms)
    ensures SmallCluster(l) && l.blockM > 0 && l.blockN % 16 == 0
    ensures if l.swapAb then l.blockN == 128 else l.blockM <= 128
  {
    CandidatesExactly(m, n, k, numSms, l);
    if !l.swapAb && l.blockN != 16 {
      assert l.blockN == 32 * (l.blockN / 32);
    }
  }

  lemma CandidateCarves(m: int, n: int, k: int, numSms: int, l: GemmLayout, s: StorageConfig) returns (g: Regions)
    requires l in Candidates(m, n, k, numSms) && SmallCluster(l) && Storage(l) == Some(s)
    ensures Carved(l, g) && FixedBytes(l, s) == g.output + g.barriers + g.pointer && StageBytes(l, s) == g.stage
  {
    CandidateShape(m, n, k, numSms, l);
    g := SearchCarves(l);
  }

  /** What every candidate's shared memory is: room for all regions at the depth selected, within
      capacity, and at the greatest depth up to 32 for which that is so. */
  lemma SharedMemoryMeaning(m: int, n: int, k: int, numSms: int, l: GemmLayout) returns (s: StorageConfig, g: Regions)
    requires l in Candidates(m, n, k, numSms)
    ensures SmallCluster(l) && Storage(l) == Some(s) && StageBytes(l, s) > 0 && Carved(l, g)
    ensures var p := PipelineOf(l, s);
            && p.smemSize == g.Total(p.numStages) <= 232448
            && 4 <= p.numStages <= 32
            && (p.numStages < 32 ==> g.Total(p.numStages + 1) > 232448)
  {
    CandidatePipeline(m, n, k, numSms, l);
    s := Storage(l).value;
    g := CandidateCarves(m, n, k, numSms, l, s);
    DepthInTotals(FixedBytes(l, s), StageBytes(l, s), g, PipelineOf(l, s));
  }

  lemma DepthInTotals(fixedBytes: int, stageBytes: int, g: Regions, p: PipelineConfig)
    requires stageBytes > 0 && fixedBytes == g.output + g.barriers + g.pointer && stageBytes == g.stage
    requires p == Pipeline(fixedBytes, stageBytes, MAX_STAGES) && p.smemSize <= SMEM_CAPACITY
    requires p.numStages < MAX_STAGES ==> p.smemSize + stageBytes > SMEM_CAPACITY
    ensures p.smemSize == g.Total(p.numStages) <= 232448
    ensures p.numStages < 32 ==> g.Total(p.numStages + 1) > 232448
  {
    assert (p.numStages + 1) * g.stage == p.numStages * g.stage + g.stage;
  }

  /** The tensor memory of a candidate fits. */
  lemma TensorMemoryMeaning(m: int, n: int, k: int, numSms: int, l: GemmLayout) returns (columns: int)
    requires l in Candidates(m, n, k, numSms)
    ensures TensorColumns(if l.swapAb then l.blockM else l.blockN, l.blockM, l.blockN, columns) && columns <= 512
  {
    CandidateCharacterized(m, n, k, numSms, l);
    columns := TmemColumns(l);
    TmemIsTensorColumns(l, columns);
  }

  /** A block loads its share of the cluster's tiles, rows of a and b swizzled 128 bytes wide; it stores
      its rows at once, or 16 at a time with operands swapped, as wide as the output's rows allow. */
  lemma StorageMeaning(m: int, n: int, k: int, numSms: int, l: GemmLayout)
    requires l in Candidates(m, n, k, numSms)
    ensures SmallCluster(l) && Storage(l).Some?
    ensures var s := Storage(l).value;
            && s.loadBlockM * l.clusterN == l.blockM && s.loadBlockN * l.clusterM == l.blockN
            && s.storeBlockM == (if l.swapAb then 16 else l.blockM) && s.storeBlockN == l.blockN
            && s.swizzleA == 128 && s.swizzleB == 128 && WidestSwizzle(s.swizzleCd, 2 * l.blockN)
  {
    CandidateShape(m, n, k, numSms, l);
    LoadsMakeUpTile(m, n, k, numSms, l);
    StoresNumbers(l);
  }

  /** Of 256 threads, 128 load and compute and 128 store. */
  lemma ConfigOf(l: GemmLayout, s: StorageConfig)
    requires StageBytes(l, s) > 0
    ensures ConfigFor(l, s) == GemmConfig(l, s, PipelineOf(l, s), LaunchConfig(256, 32, 128, 128, 128))
    ensures var launch := ConfigFor(l, s).launch;
            launch.numThreads == launch.numNonEpilogueThreads + launch.numEpilogueThreads
  {
  }

  lemma StoresNumbers(l: GemmLayout)
    requires SmallCluster(l) && l.blockN % 16 == 0 && (!l.swapAb ==> l.blockM <= 128)
    ensures Storage(l).Some?
    ensures var s := Storage(l).value;
            && s.storeBlockM == (if l.swapAb then 16 else l.blockM) && s.storeBlockN == l.blockN
            && s.swizzleA == 128 && s.swizzleB == 128 && WidestSwizzle(s.swizzleCd, 2 * l.blockN)
  {
    StorageNumbers(l);
    SwizzleIsWidest(l.blockN, 2, Storage(l).value.swizzleCd);
  }

  // The choice

  function Blocks(m: int, n: int, l: GemmLayout): int
    requires PositiveBlocks(l)
  {
    CeilDiv(m, l.blockM) * CeilDiv(n, l.blockN)
  }

  /** What a layout is ranked by: waves, and blocks left for the last of them. */
  function RankIn(m: int, n: int, numSms: int, l: GemmLayout): Rank
    requires PositiveBlocks(l) && numSms > 0
  {
    var waves := CeilDiv(Blocks(m, n, l), numSms);
    Rank(waves > 1, l.clusterM * l.clusterN, waves, Blocks(m, n, l) - (waves - 1) * numSms,
         l.blockM + l.blockN, l.blockM * l.blockN)
  }

  lemma RanksAgree(m: int, n: int, numSms: int, l: GemmLayout)
    requires m > 0 && n > 0 && numSms > 0 && PositiveBlocks(l) && Info(m, n, numSms, l).Some?
    ensures RankOf(Info(m, n, numSms, l).value) == RankIn(m, n, numSms, l)
    ensures Info(m, n, numSms, l).value.numWaves >= 1
  {
    WavesCountBlocks(m, n, numSms, l);
  }

  predicate Preferred(m: int, n: int, numSms: int, x: GemmLayout, y: GemmLayout)
    requires PositiveBlocks(x) && PositiveBlocks(y) && numSms > 0
  {
    var p, q := RankIn(m, n, numSms, x), RankIn(m, n, numSms, y);
    Sm100Selection.Before(p, q) || (!Sm100Selection.Before(q, p) && Earlier(x, y))
  }

  /** The chosen layout: admitted, and preferred to every other admitted one. */
  ghost predicate Chosen(m: int, n: int, k: int, numSms: int, l: GemmLayout)
    requires numSms > 0
  {
    Admitted(m, n, k, numSms, l)
    && forall x :: Admitted(m, n, k, numSms, x) && x != l ==> Preferred(m, n, numSms, l, x)
  }

  lemma NotBothPreferred(m: int, n: int, numSms: int, x: GemmLayout, y: GemmLayout)
    requires PositiveBlocks(x) && PositiveBlocks(y) && numSms > 0
    ensures !Preferred(m, n, numSms, x, y) || !Preferred(m, n, numSms, y, x)
  {
  }

  lemma ChosenUnique(m: int, n: int, k: int, numSms: int, x: GemmLayout, y: GemmLayout)
    requires numSms > 0 && Chosen(m, n, k, numSms, x) && Chosen(m, n, k, numSms, y)
    ensures x == y
  {
    if x != y {
      NotBothPreferred(m, n, numSms, x, y);
      assert false;
    }
  }

  lemma FirstIsPreferred(m: int, n: int, k: int, numSms: int, i: nat, j: nat)
    requires m > 0 && n > 0 && numSms > 0
    requires AllPositive(Candidates(m, n, k, numSms)) && AllInfosDefined(m, n, numSms, Candidates(m, n, k, numSms))
    requires FirstBest(Infos(m, n, numSms, Candidates(m, n, k, numSms)), i)
    requires i != j < |Candidates(m, n, k, numSms)|
    ensures var cs := Candidates(m, n, k, numSms);
            Preferred(m, n, numSms, cs[i], cs[j])
  {
    var cs := Candidates(m, n, k, numSms);
    var infos := Infos(m, n, numSms, cs);
    RanksAgree(m, n, numSms, cs[i]);
    RanksAgree(m, n, numSms, cs[j]);
    assert infos[i] == Info(m, n, numSms, cs[i]).value && infos[j] == Info(m, n, numSms, cs[j]).value;
    RanksDecide(infos[i], infos[j]);
    assert !IsBetter(infos[j], infos[i]) && (j < i ==> IsBetter(infos[i], infos[j]));
    if i < j {
      CandidatesInOrder(m, n, k, numSms);
      assert InEnumeration()(cs[i], cs[j]);
    }
  }

  /** The first best of the search is the chosen layout. */
  lemma SelectionMeaning(m: int, n: int, k: int, numSms: int, i: nat)
    requires m > 0 && n > 0 && numSms > 0
    requires AllPositive(Candidates(m, n, k, numSms)) && AllInfosDefined(m, n, numSms, Candidates(m, n, k, numSms))
    requires FirstBest(Infos(m, n, numSms, Candidates(m, n, k, numSms)), i)
    ensures Chosen(m, n, k, numSms, Candidates(m, n, k, numSms)[i])
  {
    var cs := Candidates(m, n, k, numSms);
    CandidatesExactly(m, n, k, numSms, cs[i]);
    forall x | Admitted(m, n, k, numSms, x) && x != cs[i] ensures Preferred(m, n, numSms, cs[i], x) {
      CandidatesExactly(m, n, k, numSms, x);
      var j :| 0 <= j < |cs| && cs[j] == x;
      FirstIsPreferred(m, n, k, numSms, i, j);
    }
  }
}
