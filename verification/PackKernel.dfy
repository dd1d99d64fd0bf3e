/** The packing kernel: four raw scales become one word of exponent bytes, and a scale that is not a
    positive normal power of two traps. The two word operations are values of their own here, so
    that index arithmetic and bit arithmetic are proved apart. */
module PackKernel {
  import opened IntMath
  import opened ScaleBits
  import opened ScaleIndexing
  import opened ScaleKernels

  /** What the kernel does with a raw scale: test it, and merge its exponent into a lane. */
  datatype LaneOps = LaneOps(traps: Word -> bool, merge: (Word, Word, int) -> Word) {
    /** Lanes past the row leave the word alone. */
    ghost predicate ZeroIsNeutral() {
      forall word, lane :: 0 <= lane < 4 ==> merge(word, 0, lane) == word
    }
  }

  function Merge(word: Word, bits: Word, lane: int): Word {
    if 0 <= lane < 4 then word | AtLane(bits >> 23, lane) else word
  }

  function KernelOps(): LaneOps { LaneOps(Traps, Merge) }

  lemma KernelOpsNeutral()
    ensures KernelOps().ZeroIsNeutral()
  {
    forall word: Word, lane | 0 <= lane < 4
      ensures Merge(word, 0, lane) == word
    {
    }
  }

  lemma FourMerges(b0: Word, b1: Word, b2: Word, b3: Word)
    ensures Merge(Merge(Merge(Merge(0, b0, 0), b1, 1), b2, 2), b3, 3) == Pack(b0, b1, b2, b3)
  {
  }

  /** The arguments of one launch: output columns hold four raw columns each. */
  predicate PackInputs(e: Extent, granMn: int, sfK: int, length: int) {
    Inputs(e, granMn, sfK, length) && e.cols == CeilDiv(sfK, 4)
  }

  /** The raw column that lane `lane` of thread t reads, if it is inside the row. */
  function RawColumn(e: Extent, t: int, lane: int): int
    requires e.cols > 0
  {
    (t % e.cols) * 4 + lane
  }

  function LaneBits(scale: seq<Word>, e: Extent, granMn: int, sfK: int, t: int, lane: int): Word
    requires PackInputs(e, granMn, sfK, |scale|) && 0 <= t < e.Count() && 0 <= lane < 4
  {
    AddressHasOwner(e, t);
    var k := RawColumn(e, t, lane);
    if k < sfK then
      ReadInRange(e, granMn, sfK, |scale|, t, k);
      scale[InputRow(e, granMn, sfK, t) + k]
    else 0
  }

  /** No lane that thread t reads traps. */
  predicate Clean(ops: LaneOps, scale: seq<Word>, e: Extent, granMn: int, sfK: int, t: int)
    requires PackInputs(e, granMn, sfK, |scale|) && 0 <= t < e.Count()
  {
    forall lane :: 0 <= lane < 4 && RawColumn(e, t, lane) < sfK ==> !ops.traps(LaneBits(scale, e, granMn, sfK, t, lane))
  }

  /** The word of thread t after n lanes. */
  function Merged(ops: LaneOps, scale: seq<Word>, e: Extent, granMn: int, sfK: int, t: int, n: int): Word
    requires PackInputs(e, granMn, sfK, |scale|) && 0 <= t < e.Count() && 0 <= n <= 4
  {
    if n == 0 then 0
    else ops.merge(Merged(ops, scale, e, granMn, sfK, t, n - 1), LaneBits(scale, e, granMn, sfK, t, n - 1), n - 1)
  }

  function PackedWords(ops: LaneOps, scale: seq<Word>, e: Extent, granMn: int, sfK: int): seq<Word>
    requires PackInputs(e, granMn, sfK, |scale|)
  {
    seq(Max(0, e.Count()), t requires 0 <= t < e.Count() => Merged(ops, scale, e, granMn, sfK, t, 4))
  }

  /** The index computations of one thread. */
  method PackIndices(e: Extent, granMn: int, sfK: int, length: int, block: int, thread: int)
    returns (active: bool, target: int, packedKIdx: int, inputRow: int)
    requires PackInputs(e, granMn, sfK, length) && 0 <= block <= I32_MAX && 0 <= thread < BLOCK
    ensures var t := block * BLOCK + thread;
            && (active <==> t < e.Count())
            && (active ==> && target == e.Address(t) && 0 <= target < e.cols * e.aligned
                           && packedKIdx == t % e.cols && 0 <= packedKIdx < 512
                           && inputRow == InputRow(e, granMn, sfK, t))
  {
    var linear := U64(U64(block * BLOCK) + thread);
    var count := U64(e.mn * e.cols);
    LinearExact(block, thread);
    CountFits(e);
    if linear >= count {
      return false, 0, 0, 0;
    }
    NoTruncation(e, linear, granMn, sfK);
    AddressHasOwner(e, linear);
    var mnIdx, kIdx := U32(linear / e.cols), U32(linear % e.cols);
    active, target, packedKIdx, inputRow :=
      true, U64(U64(kIdx * e.aligned) + mnIdx), kIdx, U64((mnIdx / granMn) * sfK);
  }

  /** The lane loop of thread t: traps exactly when one of its raw scales does. */
  method PackLanes(ops: LaneOps, scale: array<Word>, e: Extent, granMn: int, sfK: int, t: int,
                   packedKIdx: int, inputRow: int)
    returns (trapped: bool, packed: Word)
    requires PackInputs(e, granMn, sfK, scale.Length) && 0 <= t < e.Count() && ops.ZeroIsNeutral()
    requires packedKIdx == t % e.cols && 0 <= packedKIdx < 512 && inputRow == InputRow(e, granMn, sfK, t)
    ensures trapped <==> !Clean(ops, scale[..], e, granMn, sfK, t)
    ensures !trapped ==> packed == Merged(ops, scale[..], e, granMn, sfK, t, 4)
  {
    packed := 0;
    trapped := false;
    var lane := 0;
    while lane < 4
      invariant 0 <= lane <= 4
      invariant packed == Merged(ops, scale[..], e, granMn, sfK, t, lane)
      invariant forall l :: 0 <= l < lane && RawColumn(e, t, l) < sfK ==>
                  !ops.traps(LaneBits(scale[..], e, granMn, sfK, t, l))
    {
      var kIdx := U32(packedKIdx * 4 + lane);
      Small(packedKIdx * 4 + lane);
      if kIdx < sfK {
        ReadInRange(e, granMn, sfK, scale.Length, t, kIdx);
        var bits := scale[inputRow + kIdx];
        assert bits == LaneBits(scale[..], e, granMn, sfK, t, lane);
        if ops.traps(bits) {
          return true, packed;
        }
        packed := ops.merge(packed, bits, lane);
      }
      lane := lane + 1;
    }
  }

  /** One thread: traps, or writes its word if it is active. */
  method PackThread(ops: LaneOps, scale: array<Word>, transformed: array<Word>, e: Extent, granMn: int, sfK: int,
                    block: int, thread: int)
    returns (trapped: bool)
    requires PackInputs(e, granMn, sfK, scale.Length) && transformed.Length >= e.cols * e.aligned
    requires scale != transformed && 0 <= block <= I32_MAX && 0 <= thread < BLOCK && ops.ZeroIsNeutral()
    modifies transformed
    ensures var t := block * BLOCK + thread;
            && (t < e.Count() ==> 0 <= e.Address(t) < transformed.Length)
            && (trapped <==> t < e.Count() && !Clean(ops, scale[..], e, granMn, sfK, t))
            && transformed[..] == if t < e.Count() && !trapped
                                  then old(transformed[..])[e.Address(t) :=
                                         Merged(ops, scale[..], e, granMn, sfK, t, 4)]
                                  else old(transformed[..])
  {
    var active, target, packedKIdx, inputRow := PackIndices(e, granMn, sfK, scale.Length, block, thread);
    trapped := false;
    if active {
      var packed;
      trapped, packed := PackLanes(ops, scale, e, granMn, sfK, block * BLOCK + thread, packedKIdx, inputRow);
      if !trapped {
        transformed[target] := packed;
      }
    }
  }

  /** Some raw scale traps. */
  predicate Bad(ops: LaneOps, scale: seq<Word>) { exists i :: 0 <= i < |scale| && ops.traps(scale[i]) }

  lemma DirtyThreadSeesBad(ops: LaneOps, scale: seq<Word>, e: Extent, granMn: int, sfK: int, t: int)
    requires PackInputs(e, granMn, sfK, |scale|) && 0 <= t < e.Count() && !Clean(ops, scale, e, granMn, sfK, t)
    ensures Bad(ops, scale)
  {
    var lane :| 0 <= lane < 4 && RawColumn(e, t, lane) < sfK && ops.traps(LaneBits(scale, e, granMn, sfK, t, lane));
    AddressHasOwner(e, t);
    ReadInRange(e, granMn, sfK, |scale|, t, RawColumn(e, t, lane));
  }

  /** Every raw scale is read: by the thread of the first row that its raw row serves, in the lane of
      its column. */
  lemma EveryScaleIsRead(scale: seq<Word>, e: Extent, granMn: int, sfK: int, i: int) returns (t: int, lane: int)
    requires PackInputs(e, granMn, sfK, |scale|) && 0 <= i < |scale|
    ensures 0 <= t < e.Count() && 0 <= lane < 4 && RawColumn(e, t, lane) < sfK
    ensures LaneBits(scale, e, granMn, sfK, t, lane) == scale[i]
  {
    var r, k := i / sfK, i % sfK;
    assert i == r * sfK + k;
    DivNonNegative(i, sfK);
    if r >= CeilDiv(e.mn, granMn) { MulMonotone(CeilDiv(e.mn, granMn), r, sfK); }
    InputRowReached(e.mn, granMn, r);
    var col := k / 4;
    lane := k % 4;
    CeilDivCharacterized(sfK, 4, e.cols);
    var row := r * granMn;
    t := row * e.cols + col;
    RowMajorBound(row, col, e.mn, e.cols);
    DivModUnique(t, e.cols, row, col);
  }

  lemma AllCleanMeansNoneBad(ops: LaneOps, scale: seq<Word>, e: Extent, granMn: int, sfK: int)
    requires PackInputs(e, granMn, sfK, |scale|)
    requires forall t :: 0 <= t < e.Count() ==> Clean(ops, scale, e, granMn, sfK, t)
    ensures !Bad(ops, scale)
  {
    forall i | 0 <= i < |scale|
      ensures !ops.traps(scale[i])
    {
      var t, lane := EveryScaleIsRead(scale, e, granMn, sfK, i);
      assert Clean(ops, scale, e, granMn, sfK, t);
    }
  }

  /** The working threads among `done` are clean. */
  predicate CleanSoFar(ops: LaneOps, scale: seq<Word>, e: Extent, granMn: int, sfK: int, done: seq<int>)
    requires PackInputs(e, granMn, sfK, |scale|)
  {
    forall j :: 0 <= j < |done| && 0 <= done[j] < e.Count() ==> Clean(ops, scale, e, granMn, sfK, done[j])
  }

  lemma AllClean(ops: LaneOps, scale: seq<Word>, e: Extent, granMn: int, sfK: int, order: seq<int>)
    requires PackInputs(e, granMn, sfK, |scale|) && Schedule(order, Grid(e) * BLOCK)
    requires CleanSoFar(ops, scale, e, granMn, sfK, order)
    ensures !Bad(ops, scale)
  {
    GridCovers(e);
    forall t | 0 <= t < e.Count()
      ensures Clean(ops, scale, e, granMn, sfK, t)
    {
      assert t in order;
      var j :| 0 <= j < |order| && order[j] == t;
    }
    AllCleanMeansNoneBad(ops, scale, e, granMn, sfK);
  }

  /** Thread t, launched as part of its block; a trapping thread leaves the output alone. */
  method RunPack(ops: LaneOps, scale: array<Word>, transformed: array<Word>, e: Extent, granMn: int, sfK: int,
                 t: int, grid: int, ghost before: seq<Word>, ghost done: seq<int>)
    returns (trapped: bool)
    requires PackInputs(e, granMn, sfK, scale.Length) && transformed.Length >= e.cols * e.aligned && ops.ZeroIsNeutral()
    requires scale != transformed && grid <= I32_MAX && 0 <= t < grid * BLOCK
    requires Written(before, transformed[..], e, done, PackedWords(ops, scale[..], e, granMn, sfK))
    modifies transformed
    ensures trapped <==> t < e.Count() && !Clean(ops, scale[..], e, granMn, sfK, t)
    ensures Written(before, transformed[..], e, if trapped then done else done + [t],
                    PackedWords(ops, scale[..], e, granMn, sfK))
  {
    WrittenStep(before, transformed[..], e, done, PackedWords(ops, scale[..], e, granMn, sfK), t);
    BlockOfThread(t, grid);
    trapped := PackThread(ops, scale, transformed, e, granMn, sfK, t / BLOCK, t % BLOCK);
  }

  /** Any execution order of the launched threads traps exactly when some raw scale does. Otherwise
      every logical position holds its packed word; whatever happens, all other positions keep their
      contents. */
  method LaunchPack(ops: LaneOps, scale: array<Word>, transformed: array<Word>, e: Extent, granMn: int, sfK: int,
                    order: seq<int>)
    returns (trapped: bool)
    requires PackInputs(e, granMn, sfK, scale.Length) && transformed.Length >= e.cols * e.aligned && ops.ZeroIsNeutral()
    requires scale != transformed && Grid(e) <= I32_MAX && Schedule(order, Grid(e) * BLOCK)
    modifies transformed
    ensures trapped <==> Bad(ops, scale[..])
    ensures !trapped ==> AllWritten(old(transformed[..]), transformed[..], e,
                                    PackedWords(ops, scale[..], e, granMn, sfK))
    ensures exists done :: Written(old(transformed[..]), transformed[..], e, done,
                                   PackedWords(ops, scale[..], e, granMn, sfK))
  {
    ghost var before := transformed[..];
    CountFits(e);
    trapped := false;
    for i := 0 to |order|
      invariant !trapped
      invariant CleanSoFar(ops, scale[..], e, granMn, sfK, order[..i])
      invariant Written(before, transformed[..], e, order[..i], PackedWords(ops, scale[..], e, granMn, sfK))
    {
      trapped := RunPack(ops, scale, transformed, e, granMn, sfK, order[i], Grid(e), before, order[..i]);
      if trapped {
        DirtyThreadSeesBad(ops, scale[..], e, granMn, sfK, order[i]);
        return;
      }
      assert order[..i + 1] == order[..i] + [order[i]];
    }
    assert order[..|order|] == order;
    WrittenByAll(before, transformed[..], e, order, PackedWords(ops, scale[..], e, granMn, sfK));
    AllClean(ops, scale[..], e, granMn, sfK, order);
  }

  /** Raw scale (row / granMn, k), or zero past the row. */
  function RawAt(scale: seq<Word>, e: Extent, granMn: int, sfK: int, row: int, k: int): Word
    requires PackInputs(e, granMn, sfK, |scale|) && 0 <= row < e.mn && 0 <= k
  {
    if k < sfK then
      InputRowInRange(e.mn, granMn, row);
      RowMajorBound(row / granMn, k, CeilDiv(e.mn, granMn), sfK);
      scale[row / granMn * sfK + k]
    else 0
  }

  lemma ThreadOfElement(e: Extent, row: int, col: int)
    requires e.Valid() && 0 <= row < e.mn && 0 <= col < e.cols
    ensures var t := row * e.cols + col;
            && 0 <= t < e.Count() && t / e.cols == row && t % e.cols == col
            && e.Logical(col * e.aligned + row) && e.Owner(col * e.aligned + row) == t
            && 0 <= col * e.aligned + row < e.cols * e.aligned
  {
    RowMajorBound(row, col, e.mn, e.cols);
    DivModUnique(row * e.cols + col, e.cols, row, col);
    LogicalPosition(e, row, col);
  }

  lemma MergedUnpacks(scale: seq<Word>, e: Extent, granMn: int, sfK: int, row: int, col: int)
    requires PackInputs(e, granMn, sfK, |scale|) && 0 <= row < e.mn && 0 <= col < e.cols
    ensures 0 <= row * e.cols + col < e.Count()
    ensures Merged(KernelOps(), scale, e, granMn, sfK, row * e.cols + col, 4)
         == Pack(RawAt(scale, e, granMn, sfK, row, col * 4), RawAt(scale, e, granMn, sfK, row, col * 4 + 1),
                 RawAt(scale, e, granMn, sfK, row, col * 4 + 2), RawAt(scale, e, granMn, sfK, row, col * 4 + 3))
  {
    ThreadOfElement(e, row, col);
    MergedIsFold(KernelOps(), scale, e, granMn, sfK, row, col);
    FourMerges(RawAt(scale, e, granMn, sfK, row, col * 4), RawAt(scale, e, granMn, sfK, row, col * 4 + 1),
               RawAt(scale, e, granMn, sfK, row, col * 4 + 2), RawAt(scale, e, granMn, sfK, row, col * 4 + 3));
  }

  lemma MergedIsFold(ops: LaneOps, scale: seq<Word>, e: Extent, granMn: int, sfK: int, row: int, col: int)
    requires PackInputs(e, granMn, sfK, |scale|) && 0 <= row < e.mn && 0 <= col < e.cols
    ensures 0 <= row * e.cols + col < e.Count()
    ensures Merged(ops, scale, e, granMn, sfK, row * e.cols + col, 4)
         == ops.merge(ops.merge(ops.merge(ops.merge(0,
              RawAt(scale, e, granMn, sfK, row, col * 4), 0), RawAt(scale, e, granMn, sfK, row, col * 4 + 1), 1),
              RawAt(scale, e, granMn, sfK, row, col * 4 + 2), 2), RawAt(scale, e, granMn, sfK, row, col * 4 + 3), 3)
  {
    ThreadOfElement(e, row, col);
    var t := row * e.cols + col;
    assert forall lane :: 0 <= lane < 4 ==>
      LaneBits(scale, e, granMn, sfK, t, lane) == RawAt(scale, e, granMn, sfK, row, col * 4 + lane);
    assert Merged(ops, scale, e, granMn, sfK, t, 1) == ops.merge(0, LaneBits(scale, e, granMn, sfK, t, 0), 0);
    assert Merged(ops, scale, e, granMn, sfK, t, 2)
        == ops.merge(Merged(ops, scale, e, granMn, sfK, t, 1), LaneBits(scale, e, granMn, sfK, t, 1), 1);
    assert Merged(ops, scale, e, granMn, sfK, t, 3)
        == ops.merge(Merged(ops, scale, e, granMn, sfK, t, 2), LaneBits(scale, e, granMn, sfK, t, 2), 2);
  }

  lemma RawLanable(scale: seq<Word>, e: Extent, granMn: int, sfK: int, row: int, k: int)
    requires PackInputs(e, granMn, sfK, |scale|) && 0 <= row < e.mn && 0 <= k && !Bad(KernelOps(), scale)
    ensures Lanable(RawAt(scale, e, granMn, sfK, row, k))
  {
    if k < sfK {
      InputRowInRange(e.mn, granMn, row);
      RowMajorBound(row / granMn, k, CeilDiv(e.mn, granMn), sfK);
      assert !KernelOps().traps(scale[row / granMn * sfK + k]);
      TrapsExactly(scale[row / granMn * sfK + k]);
    }
  }

  /** The four lanes of a word unpack to four raw scales. */
  predicate LanesHold(word: Word, r0: Word, r1: Word, r2: Word, r3: Word) {
    Unpacks(Lane(word, 0), r0) && Unpacks(Lane(word, 1), r1) && Unpacks(Lane(word, 2), r2) && Unpacks(Lane(word, 3), r3)
  }

  lemma PackedLanesHold(b0: Word, b1: Word, b2: Word, b3: Word)
    requires Lanable(b0) && Lanable(b1) && Lanable(b2) && Lanable(b3)
    ensures LanesHold(Pack(b0, b1, b2, b3), b0, b1, b2, b3)
  {
    UnpackInvertsPack(b0, b1, b2, b3);
  }

  lemma WrittenWord(before: seq<Word>, now: seq<Word>, ops: LaneOps, scale: seq<Word>, e: Extent, granMn: int, sfK: int,
                    row: int, col: int)
    requires PackInputs(e, granMn, sfK, |scale|) && |now| >= e.cols * e.aligned
    requires AllWritten(before, now, e, PackedWords(ops, scale, e, granMn, sfK))
    requires 0 <= row < e.mn && 0 <= col < e.cols
    ensures 0 <= col * e.aligned + row < |now| && 0 <= row * e.cols + col < e.Count()
    ensures now[col * e.aligned + row] == Merged(ops, scale, e, granMn, sfK, row * e.cols + col, 4)
  {
    ThreadOfElement(e, row, col);
  }

  /** In terms of rows and columns: when nothing traps, lane `lane` of output word (row, col) unpacks
      to raw scale (row / granMn, 4 * col + lane), bit for bit, or is zero past the row. */
  lemma PackMeaning(before: seq<Word>, now: seq<Word>, scale: seq<Word>, e: Extent, granMn: int, sfK: int,
                    row: int, col: int)
    requires PackInputs(e, granMn, sfK, |scale|) && |now| >= e.cols * e.aligned && !Bad(KernelOps(), scale)
    requires AllWritten(before, now, e, PackedWords(KernelOps(), scale, e, granMn, sfK))
    requires 0 <= row < e.mn && 0 <= col < e.cols
    ensures 0 <= col * e.aligned + row < |now|
    ensures LanesHold(now[col * e.aligned + row],
                      RawAt(scale, e, granMn, sfK, row, col * 4), RawAt(scale, e, granMn, sfK, row, col * 4 + 1),
                      RawAt(scale, e, granMn, sfK, row, col * 4 + 2), RawAt(scale, e, granMn, sfK, row, col * 4 + 3))
  {
    WrittenWord(before, now, KernelOps(), scale, e, granMn, sfK, row, col);
    MergedUnpacks(scale, e, granMn, sfK, row, col);
    RawLanable(scale, e, granMn, sfK, row, col * 4);
    RawLanable(scale, e, granMn, sfK, row, col * 4 + 1);
    RawLanable(scale, e, granMn, sfK, row, col * 4 + 2);
    RawLanable(scale, e, granMn, sfK, row, col * 4 + 3);
    PackedLanesHold(RawAt(scale, e, granMn, sfK, row, col * 4), RawAt(scale, e, granMn, sfK, row, col * 4 + 1),
                    RawAt(scale, e, granMn, sfK, row, col * 4 + 2), RawAt(scale, e, granMn, sfK, row, col * 4 + 3));
  }

  /** The launch traps exactly when some raw scale is not a positive normal power of two. */
  lemma BadMeaning(scale: seq<Word>)
    ensures Bad(KernelOps(), scale) <==> exists i :: 0 <= i < |scale| && !IsScale(scale[i])
  {
    forall i | 0 <= i < |scale|
      ensures KernelOps().traps(scale[i]) <==> !IsScale(scale[i])
    {
      TrapsExactly(scale[i]);
    }
  }

  lemma PaddingUntouched(before: seq<Word>, now: seq<Word>, e: Extent, done: seq<int>, values: seq<Word>,
                         row: int, col: int)
    requires Written(before, now, e, done, values) && |now| >= e.cols * e.aligned
    requires e.mn <= row < e.aligned && 0 <= col < e.cols
    ensures 0 <= col * e.aligned + row < |now|
    ensures now[col * e.aligned + row] == before[col * e.aligned + row]
  {
    RowMajorBound(col, row, e.cols, e.aligned);
    DivModUnique(col * e.aligned + row, e.aligned, col, row);
  }

  /** The launch with the kernel's own word operations. */
  method PackScales(scale: array<Word>, transformed: array<Word>, e: Extent, granMn: int, sfK: int, order: seq<int>)
    returns (trapped: bool)
    requires PackInputs(e, granMn, sfK, scale.Length) && transformed.Length >= e.cols * e.aligned
    requires scale != transformed && Grid(e) <= I32_MAX && Schedule(order, Grid(e) * BLOCK)
    modifies transformed
    ensures trapped <==> exists i :: 0 <= i < scale.Length && !IsScale(scale[i])
    ensures !trapped ==> AllWritten(old(transformed[..]), transformed[..], e,
                                    PackedWords(KernelOps(), scale[..], e, granMn, sfK))
    ensures exists done :: Written(old(transformed[..]), transformed[..], e, done,
                                   PackedWords(KernelOps(), scale[..], e, granMn, sfK))
  {
    KernelOpsNeutral();
    trapped := LaunchPack(KernelOps(), scale, transformed, e, granMn, sfK, order);
    BadMeaning(scale[..]);
  }
}
