/** What the search for compute capability 10 selects: its six-level comparator is a strict weak
    order, so the fold over the candidates finds the first of the best. */
module Sm100Selection {
  import opened IntMath
  import opened GemmTypes
  import opened Sm100Search
  import opened Wrappers

  datatype LayoutInfo = LayoutInfo(numWaves: int, lastWaveUtil: int, layout: GemmLayout)

  /** `sm100_layout_info`; None where the wave count does not fit in 32 bits and the source throws. */
  function Info(m: int, n: int, numSms: int, l: GemmLayout): Option<LayoutInfo>
    requires numSms > 0 && PositiveBlocks(l)
  {
    var numBlocks, numWaves := NumBlocks(m, n, l), NumWaves(m, n, numSms, l);
    if numWaves > I32_MAX then None
    else
      var last := numBlocks % numSms;
      Some(LayoutInfo(numWaves, if last == 0 then numSms else last, l))
  }

  lemma BlocksPositive(m: int, n: int, l: GemmLayout)
    requires m > 0 && n > 0 && PositiveBlocks(l)
    ensures NumBlocks(m, n, l) > 0
  {
    CeilDivPositive(m, l.blockM);
    CeilDivPositive(n, l.blockN);
    MulMonotone(1, CeilDiv(m, l.blockM), CeilDiv(n, l.blockN));
  }

  lemma WavesAccount(blocks: int, numSms: int)
    requires blocks > 0 && numSms > 0
    ensures CeilDiv(blocks, numSms) >= 1
    ensures (CeilDiv(blocks, numSms) - 1) * numSms
            + (if blocks % numSms == 0 then numSms else blocks % numSms) == blocks
  {
    CeilDivPositive(blocks, numSms);
    var q, r := blocks / numSms, blocks % numSms;
    assert blocks == q * numSms + r;
    assert (q - 1) * numSms == q * numSms - numSms && (q + 1) * numSms == q * numSms + numSms;
    CeilDivCharacterized(blocks, numSms, if r == 0 then q else q + 1);
  }

  /** Every wave but the last is full, and the last one is not empty: the two numbers of an info
      account for every block of the grid. */
  lemma WavesCountBlocks(m: int, n: int, numSms: int, l: GemmLayout)
    requires m > 0 && n > 0 && numSms > 0 && PositiveBlocks(l)
    requires Info(m, n, numSms, l).Some?
    ensures var info := Info(m, n, numSms, l).value;
            && info.numWaves >= 1
            && 1 <= info.lastWaveUtil <= numSms
            && (info.numWaves - 1) * numSms + info.lastWaveUtil == NumBlocks(m, n, l)
  {
    BlocksPositive(m, n, l);
    WavesAccount(NumBlocks(m, n, l), numSms);
  }

  /** `sm100_layout_is_better`. */
  predicate IsBetter(a: LayoutInfo, b: LayoutInfo) {
    if (a.numWaves == 1 || b.numWaves == 1) && a.numWaves != b.numWaves then
      a.numWaves < b.numWaves
    else if a.layout.ClusterSize() != b.layout.ClusterSize() then
      a.layout.ClusterSize() > b.layout.ClusterSize()
    else if a.numWaves != b.numWaves then
      a.numWaves < b.numWaves
    else if a.lastWaveUtil != b.lastWaveUtil then
      a.lastWaveUtil > b.lastWaveUtil
    else
      var aExtent, bExtent := a.layout.blockM + a.layout.blockN, b.layout.blockM + b.layout.blockN;
      if aExtent != bExtent then aExtent < bExtent
      else a.layout.blockM * a.layout.blockN < b.layout.blockM * b.layout.blockN
  }

  /** What the comparator ranks by, most important first. */
  datatype Rank = Rank(severalWaves: bool, cluster: int, waves: int, util: int, extent: int, area: int)

  function RankOf(a: LayoutInfo): Rank {
    Rank(a.numWaves != 1, a.layout.ClusterSize(), a.numWaves, a.lastWaveUtil,
         a.layout.blockM + a.layout.blockN, a.layout.blockM * a.layout.blockN)
  }

  /** Lexicographic order: one wave, larger clusters, fewer waves, fuller last wave, smaller extent,
      smaller area. */
  predicate Before(x: Rank, y: Rank) {
    || (!x.severalWaves && y.severalWaves)
    || (x.severalWaves == y.severalWaves
        && (|| x.cluster > y.cluster
            || (x.cluster == y.cluster
                && (|| x.waves < y.waves
                    || (x.waves == y.waves
                        && (|| x.util > y.util
                            || (x.util == y.util
                                && (|| x.extent < y.extent
                                    || (x.extent == y.extent && x.area < y.area)))))))))
  }

  lemma BeforeIsStrictTotal(x: Rank, y: Rank, z: Rank)
    ensures !Before(x, x)
    ensures Before(x, y) && Before(y, z) ==> Before(x, z)
    ensures !Before(x, y) && !Before(y, x) <==> x == y
  {
  }

  /** With at least one wave each, the branching comparator is that order. */
  lemma IsBetterIsBefore(a: LayoutInfo, b: LayoutInfo)
    requires a.numWaves >= 1 && b.numWaves >= 1
    ensures IsBetter(a, b) <==> Before(RankOf(a), RankOf(b))
  {
  }

  /** The comparator is a strict weak order on infos with at least one wave: irreflexive, transitive,
      and neither beating the other is transitive too. */
  lemma IsBetterIsStrictWeakOrder(a: LayoutInfo, b: LayoutInfo, c: LayoutInfo)
    requires a.numWaves >= 1 && b.numWaves >= 1 && c.numWaves >= 1
    ensures !IsBetter(a, a)
    ensures IsBetter(a, b) && IsBetter(b, c) ==> IsBetter(a, c)
    ensures !IsBetter(a, b) && !IsBetter(b, a) && !IsBetter(b, c) && !IsBetter(c, b)
            ==> !IsBetter(a, c) && !IsBetter(c, a)
  {
    var x, y, z := RankOf(a), RankOf(b), RankOf(c);
    RanksDecide(a, b);
    RanksDecide(b, c);
    RanksDecide(a, c);
    RanksDecide(a, a);
    BeforeIsStrictTotal(x, y, z);
    BeforeIsStrictTotal(y, z, x);
  }

  lemma RanksDecide(a: LayoutInfo, b: LayoutInfo)
    requires a.numWaves >= 1 && b.numWaves >= 1
    ensures IsBetter(a, b) <==> Before(RankOf(a), RankOf(b))
    ensures IsBetter(b, a) <==> Before(RankOf(b), RankOf(a))
  {
    IsBetterIsBefore(a, b);
    IsBetterIsBefore(b, a);
  }

  /** Without that premise it is not even acyclic: an info without waves closes a cycle of three. */
  lemma NoWavesBreaksTheOrder()
    ensures exists a, b, c :: IsBetter(a, b) && IsBetter(b, c) && IsBetter(c, a)
  {
    var a := LayoutInfo(0, 1, GemmLayout(false, 32, 16, 1, 1));
    var b := LayoutInfo(1, 1, GemmLayout(false, 32, 16, 1, 1));
    var c := LayoutInfo(2, 1, GemmLayout(false, 32, 16, 2, 1));
    assert IsBetter(a, b) && IsBetter(b, c) && IsBetter(c, a);
  }

  // Selection

  datatype Selection = Selected(config: GemmConfig, info: LayoutInfo) | NoCandidates | TooManyWaves

  /** i is the first index that no other beats. */
  predicate FirstBest(infos: seq<LayoutInfo>, i: nat) {
    && i < |infos|
    && (forall j :: 0 <= j < |infos| ==> !IsBetter(infos[j], infos[i]))
    && (forall j :: 0 <= j < i ==> IsBetter(infos[i], infos[j]))
  }

  predicate WavesPositive(infos: seq<LayoutInfo>) { forall j :: 0 <= j < |infos| ==> infos[j].numWaves >= 1 }

  lemma FirstBestStep(infos: seq<LayoutInfo>, best: nat, info: LayoutInfo)
    requires WavesPositive(infos + [info]) && FirstBest(infos, best)
    ensures FirstBest(infos + [info], if IsBetter(info, infos[best]) then |infos| else best)
  {
    var longer := infos + [info];
    assert infos[best] == longer[best] && info == longer[|infos|];
    IsBetterIsStrictWeakOrder(info, info, info);
    if IsBetter(info, infos[best]) {
      forall j | 0 <= j < |infos|
        ensures IsBetter(info, longer[j]) && !IsBetter(longer[j], info)
      {
        assert longer[j] == infos[j];
        BeatsAll(info, infos[best], infos[j]);
      }
    }
  }

  lemma BeatsAll(a: LayoutInfo, b: LayoutInfo, c: LayoutInfo)
    requires a.numWaves >= 1 && b.numWaves >= 1 && c.numWaves >= 1
    requires IsBetter(a, b) && !IsBetter(c, b)
    ensures IsBetter(a, c) && !IsBetter(c, a)
  {
    RanksDecide(a, b);
    RanksDecide(b, c);
    RanksDecide(a, c);
    BeforeIsStrictTotal(RankOf(a), RankOf(b), RankOf(c));
    BeforeIsStrictTotal(RankOf(b), RankOf(c), RankOf(a));
    BeforeIsStrictTotal(RankOf(c), RankOf(a), RankOf(b));
  }

  function ConfigFor(l: GemmLayout, s: StorageConfig): GemmConfig
    requires StageBytes(l, s) > 0
  {
    GemmConfig(l, s, PipelineOf(l, s), Launch())
  }

  predicate Usable(l: GemmLayout) {
    PositiveBlocks(l) && SmallCluster(l) && Storage(l).Some? && StageBytes(l, Storage(l).value) > 0
  }

  predicate AllPositive(ls: seq<GemmLayout>) { forall i :: 0 <= i < |ls| ==> PositiveBlocks(ls[i]) }

  predicate AllInfosDefined(m: int, n: int, numSms: int, ls: seq<GemmLayout>)
    requires numSms > 0 && AllPositive(ls)
  {
    forall i :: 0 <= i < |ls| ==> Info(m, n, numSms, ls[i]).Some?
  }

  function Infos(m: int, n: int, numSms: int, ls: seq<GemmLayout>): seq<LayoutInfo>
    requires numSms > 0 && AllPositive(ls) && AllInfosDefined(m, n, numSms, ls)
  {
    seq(|ls|, i requires 0 <= i < |ls| => Info(m, n, numSms, ls[i]).value)
  }

  lemma InfosPositive(m: int, n: int, numSms: int, ls: seq<GemmLayout>)
    requires m > 0 && n > 0 && numSms > 0 && AllPositive(ls) && AllInfosDefined(m, n, numSms, ls)
    ensures WavesPositive(Infos(m, n, numSms, ls))
  {
    forall i | 0 <= i < |ls|
      ensures Infos(m, n, numSms, ls)[i].numWaves >= 1
    {
      WavesCountBlocks(m, n, numSms, ls[i]);
    }
  }

  lemma InfosStep(m: int, n: int, numSms: int, ls: seq<GemmLayout>, i: nat)
    requires m > 0 && n > 0 && numSms > 0 && AllPositive(ls) && i < |ls|
    requires AllInfosDefined(m, n, numSms, ls[..i]) && Info(m, n, numSms, ls[i]).Some?
    ensures AllInfosDefined(m, n, numSms, ls[..i + 1])
    ensures Infos(m, n, numSms, ls[..i + 1]) == Infos(m, n, numSms, ls[..i]) + [Info(m, n, numSms, ls[i]).value]
    ensures WavesPositive(Infos(m, n, numSms, ls[..i + 1]))
  {
    assert ls[..i + 1] == ls[..i] + [ls[i]];
    InfosPositive(m, n, numSms, ls[..i + 1]);
  }

  predicate AllUsable(ls: seq<GemmLayout>) { forall i :: 0 <= i < |ls| ==> Usable(ls[i]) }

  lemma CandidatesUsable(m: int, n: int, k: int, numSms: int)
    ensures AllPositive(Candidates(m, n, k, numSms)) && AllUsable(Candidates(m, n, k, numSms))
  {
    var cs := Candidates(m, n, k, numSms);
    forall i | 0 <= i < |cs|
      ensures PositiveBlocks(cs[i]) && Usable(cs[i])
    {
      CandidateCharacterized(m, n, k, numSms, cs[i]);
      CandidatePipeline(m, n, k, numSms, cs[i]);
    }
  }

  /** The outcome is the candidate at index i, and that candidate is the first best. */
  predicate SelectedAt(m: int, n: int, numSms: int, ls: seq<GemmLayout>, r: Selection, i: nat)
    requires numSms > 0 && AllPositive(ls) && AllUsable(ls) && AllInfosDefined(m, n, numSms, ls)
  {
    && r.Selected?
    && FirstBest(Infos(m, n, numSms, ls), i)
    && r.config == ConfigFor(ls[i], Storage(ls[i]).value)
    && Some(r.info) == Info(m, n, numSms, ls[i])
  }

  /** The smallest block shape of each operand order; both are always candidates. */
  function NarrowPlain(m: int): GemmLayout {
    GemmLayout(false, if m <= 32 then 32 else if m <= 64 then 64 else 128, 16, 1, 1)
  }

  const NARROW_SWAPPED: GemmLayout := GemmLayout(true, 16, 128, 1, 1)

  /** The wave counts of both fit 32 bits. */
  predicate Selects(m: int, n: int, numSms: int)
    requires numSms > 0
  {
    NumWaves(m, n, numSms, NarrowPlain(m)) <= I32_MAX && NumWaves(m, n, numSms, NARROW_SWAPPED) <= I32_MAX
  }

  lemma NarrowAreCandidates(m: int, n: int, k: int, numSms: int)
    ensures NarrowPlain(m) in Candidates(m, n, k, numSms) && NARROW_SWAPPED in Candidates(m, n, k, numSms)
  {
    assert BlockMs(false, m)[0] == NarrowPlain(m).blockM && BlockNs(false, k)[0] == 16;
    NarrowBlockAccepted(m, n, numSms, NarrowPlain(m).blockM);
    CandidateCharacterized(m, n, k, numSms, NarrowPlain(m));
    assert BlockMs(true, m)[0] == 16 && BlockNs(true, k)[0] == 128;
    NarrowSwappedAccepted(m, n, numSms);
    CandidateCharacterized(m, n, k, numSms, NARROW_SWAPPED);
  }

  lemma NarrowSwappedAccepted(m: int, n: int, numSms: int)
    ensures Accepted(m, n, numSms, NARROW_SWAPPED)
  {
    var l := NARROW_SWAPPED;
    assert AlignUp(16, 128) == 128 && AlignUp(128, 128) == 128;
    StorageDefined(l);
    assert numSms % 1 == 0 && CeilDiv(m, 16) % 1 == 0 && CeilDiv(n, 128) % 1 == 0;
  }

  lemma EveryCandidateIsWider(m: int, n: int, k: int, numSms: int, l: GemmLayout)
    requires m > 0 && n > 0 && numSms > 0 && l in Candidates(m, n, k, numSms)
    ensures PositiveBlocks(l)
    ensures NumWaves(m, n, numSms, l) <= NumWaves(m, n, numSms, if l.swapAb then NARROW_SWAPPED else NarrowPlain(m))
  {
    CandidateCharacterized(m, n, k, numSms, l);
    BlockSizes(m, k, l);
    LargerBlocksFewerWaves(m, n, numSms, if l.swapAb then NARROW_SWAPPED else NarrowPlain(m), l);
  }

  /** Some candidate's wave count overflows exactly when that of a smallest shape does. */
  lemma SelectsExactly(m: int, n: int, k: int, numSms: int)
    requires m > 0 && n > 0 && numSms > 0 && AllPositive(Candidates(m, n, k, numSms))
    ensures AllInfosDefined(m, n, numSms, Candidates(m, n, k, numSms)) <==> Selects(m, n, numSms)
  {
    var cs := Candidates(m, n, k, numSms);
    NarrowAreCandidates(m, n, k, numSms);
    forall i | 0 <= i < |cs|
      ensures Selects(m, n, numSms) ==> NumWaves(m, n, numSms, cs[i]) <= I32_MAX
    {
      EveryCandidateIsWider(m, n, k, numSms, cs[i]);
    }
    var i :| 0 <= i < |cs| && cs[i] == NarrowPlain(m);
    var j :| 0 <= j < |cs| && cs[j] == NARROW_SWAPPED;
    if AllInfosDefined(m, n, numSms, cs) {
      assert Info(m, n, numSms, cs[i]).Some? && Info(m, n, numSms, cs[j]).Some?;
    }
  }

  /** `sm100_best_config`: the first candidate that none beats. The search never fails for want of a
      candidate; it fails only when some candidate's wave count overflows. */
  method BestConfig(m: int, n: int, k: int, numSms: int) returns (r: Selection)
    requires m > 0 && n > 0 && numSms > 0
    ensures AllPositive(Candidates(m, n, k, numSms)) && AllUsable(Candidates(m, n, k, numSms))
    ensures !r.NoCandidates?
    ensures r.Selected? <==> Selects(m, n, numSms)
    ensures r.Selected? ==> AllInfosDefined(m, n, numSms, Candidates(m, n, k, numSms))
    ensures r.Selected? ==> exists i: nat :: SelectedAt(m, n, numSms, Candidates(m, n, k, numSms), r, i)
  {
    var candidates := LayoutCandidates(m, n, k, numSms);
    CandidatesUsable(m, n, k, numSms);
    CandidatesExist(m, n, k, numSms);
    SelectsExactly(m, n, k, numSms);
    if candidates == [] {
      return NoCandidates;
    }
    var defined, bestLayout, bestInfo := Fold(m, n, numSms, candidates);
    if !defined {
      return TooManyWaves;
    }
    ghost var i: nat :| FirstBest(Infos(m, n, numSms, candidates), i) && candidates[i] == bestLayout;
    assert Usable(candidates[i]);
    r := Selected(ConfigFor(bestLayout, Storage(bestLayout).value), bestInfo);
    assert SelectedAt(m, n, numSms, candidates, r, i);
  }

  /** The loop of `sm100_best_config` over a non-empty list; undefined when an info throws. */
  method Fold(m: int, n: int, numSms: int, candidates: seq<GemmLayout>)
    returns (defined: bool, bestLayout: GemmLayout, bestInfo: LayoutInfo)
    requires m > 0 && n > 0 && numSms > 0 && candidates != [] && AllPositive(candidates)
    ensures defined <==> AllInfosDefined(m, n, numSms, candidates)
    ensures defined ==> PositiveBlocks(bestLayout) && Info(m, n, numSms, bestLayout) == Some(bestInfo)
    ensures defined ==> exists i: nat :: FirstBest(Infos(m, n, numSms, candidates), i) && candidates[i] == bestLayout
  {
    bestLayout := candidates[0];
    bestInfo := LayoutInfo(0, 0, bestLayout);
    var firstInfo := Info(m, n, numSms, bestLayout);
    if firstInfo.None? {
      return false, bestLayout, bestInfo;
    }
    bestInfo := firstInfo.value;
    ghost var best := 0;
    WavesCountBlocks(m, n, numSms, bestLayout);
    IsBetterIsStrictWeakOrder(bestInfo, bestInfo, bestInfo);
    var i := 1;
    while i < |candidates|
      invariant 1 <= i <= |candidates|
      invariant AllInfosDefined(m, n, numSms, candidates[..i])
      invariant best < i && candidates[best] == bestLayout
      invariant Info(m, n, numSms, bestLayout) == Some(bestInfo)
      invariant FirstBest(Infos(m, n, numSms, candidates[..i]), best)
    {
      var info := Info(m, n, numSms, candidates[i]);
      if info.None? {
        return false, bestLayout, bestInfo;
      }
      InfosStep(m, n, numSms, candidates, i);
      FirstBestStep(Infos(m, n, numSms, candidates[..i]), best, info.value);
      if IsBetter(info.value, bestInfo) {
        bestLayout := candidates[i];
        bestInfo := info.value;
        best := i;
      }
      i := i + 1;
    }
    assert candidates[..i] == candidates;
    defined := true;
  }

  /** What the order means for the choice: a grid that some candidate finishes in one wave is
      finished in one wave, and otherwise a cluster is used whenever any candidate has one. */
  lemma SelectionPriorities(infos: seq<LayoutInfo>, i: nat, j: nat)
    requires WavesPositive(infos) && FirstBest(infos, i) && j < |infos|
    ensures infos[j].numWaves == 1 ==> infos[i].numWaves == 1
    ensures infos[i].numWaves > 1 ==> infos[j].layout.ClusterSize() <= infos[i].layout.ClusterSize()
    ensures infos[j].layout.ClusterSize() == infos[i].layout.ClusterSize() ==> infos[i].numWaves <= infos[j].numWaves
  {
    assert !IsBetter(infos[j], infos[i]);
  }
}
