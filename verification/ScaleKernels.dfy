/** The two broadcast kernels embedded as source text. Each thread is a method over the output array;
    a launch runs the threads one after another in an arbitrary order. */
module ScaleKernels {
  import opened IntMath
  import opened ScaleBits
  import opened ScaleIndexing

  /** The arguments describe the raw scale: one row per granMn output rows, sfK columns. */
  predicate Inputs(e: Extent, granMn: int, sfK: int, length: int) {
    e.Valid() && 1 <= granMn <= I32_MAX && 1 <= sfK <= 512 && length == CeilDiv(e.mn, granMn) * sfK
  }

  /** Where the raw row that thread t reads begins. */
  function InputRow(e: Extent, granMn: int, sfK: int, t: int): int
    requires e.cols > 0 && granMn > 0
  {
    (t / e.cols) / granMn * sfK
  }

  lemma ReadInRange(e: Extent, granMn: int, sfK: int, length: int, t: int, k: int)
    requires Inputs(e, granMn, sfK, length) && 0 <= t < e.Count() && 0 <= k < sfK
    ensures 0 <= InputRow(e, granMn, sfK, t) + k < length
  {
    AddressHasOwner(e, t);
    InputRowInRange(e.mn, granMn, t / e.cols);
    RowMajorBound((t / e.cols) / granMn, k, CeilDiv(e.mn, granMn), sfK);
  }

  // One output array, many threads

  /** The output after the threads in `done`: position p holds what its owner writes once the owner
      has run, and its old contents until then; positions without an owner never change. */
  ghost predicate Written(before: seq<Word>, now: seq<Word>, e: Extent, done: seq<int>, values: seq<Word>) {
    && e.Valid() && |now| == |before| && |values| == e.Count()
    && forall p :: 0 <= p < |now| ==>
         now[p] == if e.Logical(p) && e.Owner(p) in done && 0 <= e.Owner(p) < |values|
                   then values[e.Owner(p)] else before[p]
  }

  lemma WrittenStep(before: seq<Word>, now: seq<Word>, e: Extent, done: seq<int>, values: seq<Word>, t: int)
    requires Written(before, now, e, done, values) && |now| >= e.cols * e.aligned && 0 <= t
    ensures t < e.Count() ==> 0 <= e.Address(t) < |now|
    ensures Written(before, if t < e.Count() then now[e.Address(t) := values[t]] else now, e, done + [t], values)
  {
    if t < e.Count() {
      AddressHasOwner(e, t);
    }
    forall p | 0 <= p < |now| && e.Logical(p)
      ensures 0 <= e.Owner(p) < e.Count() && e.Address(e.Owner(p)) == p
    {
      OwnerWritesAddress(e, p);
    }
  }

  /** Once every thread has run, exactly the logical positions are new. */
  ghost predicate AllWritten(before: seq<Word>, now: seq<Word>, e: Extent, values: seq<Word>) {
    && e.Valid() && |now| == |before| && |values| == e.Count()
    && forall p :: 0 <= p < |now| ==>
         now[p] == if e.Logical(p) && 0 <= e.Owner(p) < |values| then values[e.Owner(p)] else before[p]
  }

  lemma WrittenByAll(before: seq<Word>, now: seq<Word>, e: Extent, order: seq<int>, values: seq<Word>)
    requires Written(before, now, e, order, values) && Schedule(order, Grid(e) * BLOCK)
    ensures AllWritten(before, now, e, values)
  {
    GridCovers(e);
  }

  // Broadcast and transpose

  /** What thread t writes. */
  function Broadcast(scale: seq<Word>, e: Extent, granMn: int, t: int): Word
    requires Inputs(e, granMn, e.cols, |scale|) && 0 <= t < e.Count()
  {
    AddressHasOwner(e, t);
    ReadInRange(e, granMn, e.cols, |scale|, t, t % e.cols);
    scale[InputRow(e, granMn, e.cols, t) + t % e.cols]
  }

  function Broadcasts(scale: seq<Word>, e: Extent, granMn: int): seq<Word>
    requires Inputs(e, granMn, e.cols, |scale|)
  {
    seq(Max(0, e.Count()), t requires 0 <= t < e.Count() => Broadcast(scale, e, granMn, t))
  }

  /** The index computations of `broadcast_transpose_fp32`, casts included; inactive past the last
      element. */
  method BroadcastIndices(e: Extent, granMn: int, length: int, block: int, thread: int)
    returns (active: bool, target: int, source: int)
    requires Inputs(e, granMn, e.cols, length) && 0 <= block <= I32_MAX && 0 <= thread < BLOCK
    ensures var t := block * BLOCK + thread;
            && (active <==> t < e.Count())
            && (active ==> && target == e.Address(t) && 0 <= target < e.cols * e.aligned
                           && source == InputRow(e, granMn, e.cols, t) + t % e.cols && 0 <= source < length)
  {
    var linear := U64(U64(block * BLOCK) + thread);
    var count := U64(e.mn * e.cols);
    LinearExact(block, thread);
    CountFits(e);
    if linear >= count {
      return false, 0, 0;
    }
    NoTruncation(e, linear, granMn, e.cols);
    AddressHasOwner(e, linear);
    var mnIdx, kIdx := U32(linear / e.cols), U32(linear % e.cols);
    ReadInRange(e, granMn, e.cols, length, linear, kIdx);
    active, target, source := true, U64(U64(kIdx * e.aligned) + mnIdx), U64((mnIdx / granMn) * e.cols) + kIdx;
  }

  lemma LinearExact(block: int, thread: int)
    requires 0 <= block <= I32_MAX && 0 <= thread < BLOCK
    ensures U64(U64(block * BLOCK) + thread) == block * BLOCK + thread
  {
    Small(block * BLOCK);
    Small(block * BLOCK + thread);
  }

  /** One thread of `broadcast_transpose_fp32`. */
  method BroadcastThread(scale: array<Word>, transformed: array<Word>, e: Extent, granMn: int, block: int, thread: int)
    requires Inputs(e, granMn, e.cols, scale.Length) && transformed.Length >= e.cols * e.aligned
    requires scale != transformed && 0 <= block <= I32_MAX && 0 <= thread < BLOCK
    modifies transformed
    ensures var t := block * BLOCK + thread;
            && (t < e.Count() ==> 0 <= e.Address(t) < transformed.Length)
            && transformed[..] == if t < e.Count()
                                  then old(transformed[..])[e.Address(t) := Broadcast(scale[..], e, granMn, t)]
                                  else old(transformed[..])
  {
    var active, target, source := BroadcastIndices(e, granMn, scale.Length, block, thread);
    if active {
      transformed[target] := scale[source];
    }
  }

  lemma CountFits(e: Extent)
    requires e.Valid()
    ensures 0 < e.Count() && U64(e.Count()) == e.Count()
  {
    MulMonotone(1, e.mn, e.cols);
    ProductSmall(e.mn, e.cols);
    Small(e.Count());
  }

  lemma BlockOfThread(t: int, grid: int)
    requires 0 <= t < grid * BLOCK
    ensures 0 <= t / BLOCK < grid && 0 <= t % BLOCK < BLOCK && t / BLOCK * BLOCK + t % BLOCK == t
  {
  }

  /** Thread t, launched as part of its block. */
  method RunBroadcast(scale: array<Word>, transformed: array<Word>, e: Extent, granMn: int, t: int, grid: int,
                      ghost before: seq<Word>, ghost done: seq<int>)
    requires Inputs(e, granMn, e.cols, scale.Length) && transformed.Length >= e.cols * e.aligned
    requires scale != transformed && grid <= I32_MAX && 0 <= t < grid * BLOCK
    requires Written(before, transformed[..], e, done, Broadcasts(scale[..], e, granMn))
    modifies transformed
    ensures Written(before, transformed[..], e, done + [t], Broadcasts(scale[..], e, granMn))
  {
    WrittenStep(before, transformed[..], e, done, Broadcasts(scale[..], e, granMn), t);
    BlockOfThread(t, grid);
    BroadcastThread(scale, transformed, e, granMn, t / BLOCK, t % BLOCK);
  }

  /** Any execution order of the launched threads leaves every logical element holding its raw scale
      and every other element as it was. */
  method LaunchBroadcast(scale: array<Word>, transformed: array<Word>, e: Extent, granMn: int, order: seq<int>)
    requires Inputs(e, granMn, e.cols, scale.Length) && transformed.Length >= e.cols * e.aligned
    requires scale != transformed && Grid(e) <= I32_MAX && Schedule(order, Grid(e) * BLOCK)
    modifies transformed
    ensures AllWritten(old(transformed[..]), transformed[..], e, Broadcasts(scale[..], e, granMn))
  {
    ghost var before := transformed[..];
    CountFits(e);
    for i := 0 to |order|
      invariant Written(before, transformed[..], e, order[..i], Broadcasts(scale[..], e, granMn))
    {
      RunBroadcast(scale, transformed, e, granMn, order[i], Grid(e), before, order[..i]);
      assert order[..i + 1] == order[..i] + [order[i]];
    }
    assert order[..|order|] == order;
    WrittenByAll(before, transformed[..], e, order, Broadcasts(scale[..], e, granMn));
  }

  /** In terms of rows and columns: after the launch, output (row, col) is raw scale
      (row / granMn, col), and every position past the rows of a column keeps its contents. */
  lemma BroadcastMeaning(before: seq<Word>, now: seq<Word>, scale: seq<Word>, e: Extent, granMn: int,
                         row: int, col: int)
    requires Inputs(e, granMn, e.cols, |scale|) && |now| >= e.cols * e.aligned
    requires AllWritten(before, now, e, Broadcasts(scale, e, granMn))
    requires 0 <= row < e.aligned && 0 <= col < e.cols
    ensures 0 <= col * e.aligned + row < |now|
    ensures row < e.mn ==> && 0 <= row / granMn * e.cols + col < |scale|
                           && now[col * e.aligned + row] == scale[row / granMn * e.cols + col]
    ensures row >= e.mn ==> now[col * e.aligned + row] == before[col * e.aligned + row]
  {
    var p := col * e.aligned + row;
    RowMajorBound(col, row, e.cols, e.aligned);
    DivModUnique(p, e.aligned, col, row);
    if row < e.mn {
      LogicalPosition(e, row, col);
      OwnerWritesAddress(e, p);
      DivModUnique(row * e.cols + col, e.cols, row, col);
      ReadInRange(e, granMn, e.cols, |scale|, e.Owner(p), col);
    }
  }
}
