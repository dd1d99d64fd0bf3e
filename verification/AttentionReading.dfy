/** The generated attention kernel source, read back: header, function and template arguments of the
    seven kernels, position by position, and what the launches ask for in numbers. */
module AttentionReading {
  import opened AttentionSource
  import opened IntMath
  import opened KernelText
  import opened TextTemplate
  import opened Wrappers

  lemma EndCloses()
    ensures Closes(END, [])
  {
    assert END == "\n    " + (">" + ");\n};\n");
    BracketCloses("\n    ", ");\n};\n");
  }

  lemma CommasSeparate()
    ensures Separates(COMMA, []) && Separates(LINE, []) && Separates(COMMA + "1" + COMMA, ["1"])
  {
    assert COMMA == "," + " " && LINE == "," + "\n        ";
    CommaSeparates(" ");
    CommaSeparates("\n        ");
    assert IsWord("1");
    SeparatesThen(COMMA, [], "1", COMMA, []);
    assert [] + ["1"] + [] == ["1"];
  }

  function Rendered(values: seq<Piece>): seq<string> {
    seq(|values|, i requires 0 <= i < |values| => RenderPiece(values[i]))
  }

  function Nothing(count: nat): seq<seq<string>> { seq(count, _ => []) }

  lemma {:induction false} NothingBetween(values: seq<Piece>)
    ensures Listed(values, Nothing(|values|)) == Rendered(values)
  {
    if |values| > 0 {
      assert Nothing(|values|)[1..] == Nothing(|values[1..]|);
      NothingBetween(values[1..]);
      assert Rendered(values) == [RenderPiece(values[0])] + Rendered(values[1..]);
    }
  }

  predicate PlainSeparators(seps: seq<string>) {
    && |seps| > 0 && seps[|seps| - 1] == END
    && forall i :: 0 <= i < |seps| - 1 ==> seps[i] == COMMA || seps[i] == LINE
  }

  lemma PlainDelimits(seps: seq<string>)
    requires PlainSeparators(seps)
    ensures Delimits(seps, Nothing(|seps|))
  {
    CommasSeparate();
    EndCloses();
  }

  lemma ShapesPlain(c: Call)
    requires Accepted(c) && !c.Sm100Metadata?
    ensures |ShapeSeparators(c)| > 0
    ensures var seps := ShapeSeparators(c);
            forall i :: 0 <= i < |seps| ==>
              seps[i] == COMMA || seps[i] == LINE || (i == |seps| - 1 && seps[i] == END && TypeSeparators(c) == [])
  {
  }

  lemma TypesPlain(c: Call)
    requires Accepted(c) && !c.Sm100Metadata?
    ensures TypeSeparators(c) == [] ==> ShapeSeparators(c)[|ShapeSeparators(c)| - 1] == END
    ensures TypeSeparators(c) != [] ==> PlainSeparators(TypeSeparators(c))
  {
  }

  lemma SeparatorsPlain(c: Call)
    requires Accepted(c) && !c.Sm100Metadata?
    ensures PlainSeparators(AttentionSource.Separators(c))
  {
    ShapesPlain(c);
    TypesPlain(c);
    var a, b := ShapeSeparators(c), TypeSeparators(c);
    forall i | 0 <= i < |a + b| - 1 ensures (a + b)[i] == COMMA || (a + b)[i] == LINE {
      if i >= |a| { assert (a + b)[i] == b[i - |a|]; }
    }
  }

  lemma NoLiterals(c: Call)
    requires Accepted(c)
    ensures forall i :: 0 <= i < |Values(c)| ==> !Values(c)[i].Lit?
  {
  }

  // The arguments intended

  function Boolean(flag: bool): string { if flag then "true" else "false" }

  function ElementName(element: Element): string {
    if element == Float then "float" else "cutlass::" + "bfloat16_t"
  }

  /** The template arguments of each kernel, in the kernel's order. */
  function Intended(c: Call): seq<string>
    requires Accepted(c)
  {
    match c
    case Sm90Logits(heads, dim, compressed, logits, sms) =>
      [ Decimal(heads), Decimal(dim), Boolean(compressed), if heads == 32 then "4" else "2", "256", "3", "3" ]
      + [ Decimal(sms), "128", "512", ElementName(logits) ]
    case Sm100Logits(fp4, heads, dim, compressed, logits, weights, sms) =>
      [ Boolean(fp4), Decimal(heads), Decimal(dim), Boolean(compressed), Decimal(128 / heads), "256", "3" ]
      + [ if fp4 then "10" else "5", Decimal(sms), "128", "256", ElementName(logits), ElementName(weights) ]
    case CleanLogits(logits, _) => [ "1", "8192", "8", ElementName(logits) ]
    case Sm90Metadata(batch, varlen, sms) => [ Decimal(AlignUp(batch, 32)), "256", Decimal(sms), Boolean(varlen) ]
    case Sm100Metadata(_, nextN, varlen, sms) =>
      [ Decimal(nextN), "true", Boolean(varlen), "1", "256", Decimal(sms) ]
    case Sm90Paged(nextN, heads, dim, blockKv, logits, _) =>
      [ Decimal(nextN), Decimal(heads), Decimal(dim), Decimal(blockKv), "true", "false", "3" ]
      + [ "3", "256", "128", "512", ElementName(logits) ]
    case Sm100Paged(fp4, nextN, heads, dim, pageKv, varlen, logits, weights, _) =>
      [ Boolean(fp4), Decimal(nextN), Decimal(heads), Decimal(dim), Decimal(pageKv), "true", Boolean(varlen), "3" ]
      + [ if fp4 then "10" else "5", "256", "16", "128", "256", ElementName(logits), ElementName(weights) ]
  }

  lemma Numbers()
    ensures Decimal(1) == "1" && Decimal(2) == "2" && Decimal(3) == "3" && Decimal(4) == "4" && Decimal(5) == "5"
    ensures Decimal(8) == "8" && Decimal(10) == "10" && Decimal(16) == "16"
    ensures Decimal(128) == "128" && Decimal(256) == "256" && Decimal(512) == "512" && Decimal(8192) == "8192"
  {
    assert DecimalNat(12) == "12" && DecimalNat(25) == "25" && DecimalNat(51) == "51";
    assert DecimalNat(81) == "81" && DecimalNat(819) == "819";
  }

  lemma Sm90LogitsRendered(c: Call)
    requires Accepted(c) && c.Sm90Logits?
    ensures Rendered(Values(c)) == Intended(c)
  {
    Numbers();
  }

  lemma Sm100LogitsRendered(c: Call)
    requires Accepted(c) && c.Sm100Logits?
    ensures Rendered(Values(c)) == Intended(c)
  {
    Numbers();
  }

  lemma SmallRendered(c: Call)
    requires Accepted(c) && (c.CleanLogits? || c.Sm90Metadata?)
    ensures Rendered(Values(c)) == Intended(c)
  {
    Numbers();
  }

  lemma Sm90PagedRendered(c: Call)
    requires Accepted(c) && c.Sm90Paged?
    ensures Rendered(Values(c)) == Intended(c)
  {
    Numbers();
  }

  lemma Sm100PagedRendered(c: Call)
    requires Accepted(c) && c.Sm100Paged?
    ensures Rendered(Values(c)) == Intended(c)
  {
    Numbers();
  }

  lemma PlainFieldsRead(c: Call)
    requires Accepted(c) && !c.Sm100Metadata?
    ensures Arguments(Render(Interleave(Values(c), AttentionSource.Separators(c))), "", false) == Some(Intended(c))
  {
    var seps := AttentionSource.Separators(c);
    SeparatorsPlain(c);
    PlainDelimits(seps);
    NoLiterals(c);
    FieldsRead(Values(c), seps, Nothing(|seps|));
    NothingBetween(Values(c));
    if c.Sm90Logits? {
      Sm90LogitsRendered(c);
    } else if c.Sm100Logits? {
      Sm100LogitsRendered(c);
    } else if c.Sm90Paged? {
      Sm90PagedRendered(c);
    } else if c.Sm100Paged? {
      Sm100PagedRendered(c);
    } else {
      SmallRendered(c);
    }
  }

  lemma MetadataFieldsRead(c: Call)
    requires Accepted(c) && c.Sm100Metadata?
    ensures Arguments(Render(Interleave(Values(c), AttentionSource.Separators(c))), "", false) == Some(Intended(c))
  {
    var v, seps := Values(c), AttentionSource.Separators(c);
    var between: seq<seq<string>> := [[], [], ["1"]] + [[], []];
    CommasSeparate();
    EndCloses();
    Numbers();
    assert Delimits(seps, between);
    FieldsRead(v, seps, between);
    ListedThree(Num(c.nextN), Flag(true), Flag(c.varlen), [], [], ["1"]);
    ListedTwo(Num(256), Num(c.sms), [], []);
    ListedAppend([Num(c.nextN), Flag(true), Flag(c.varlen)], [Num(256), Num(c.sms)], [[], [], ["1"]], [[], []]);
    assert v == [Num(c.nextN), Flag(true), Flag(c.varlen)] + [Num(256), Num(c.sms)];
    assert Intended(c) == [Decimal(c.nextN)] + [] + [Word(true)] + [] + [Word(c.varlen)] + ["1"]
                          + ([Decimal(256)] + [] + [Decimal(c.sms)] + []);
  }

  lemma ImplNames()
    ensures IsName("impls/sm90_fp8_") && IsName("impls/sm100_") && IsName("impls/smxx_")
    ensures IsName("sm90_fp8_") && IsName("sm100_") && IsName("smxx_")
  {
  }

  lemma SchedulerNames()
    ensures IsName("scheduler/sm90_") && IsName("scheduler/sm100_")
    ensures IsName("sched::sm90_") && IsName("sched::sm100_") && IsName("_metadata")
  {
  }

  lemma KernelNames()
    ensures IsName("mqa_logits") && IsName("clean_logits") && IsName("paged_mqa_logits")
  {
  }

  lemma HeaderIsName(c: Call)
    ensures IsName(Header(c))
  {
    ImplNames();
    SchedulerNames();
    KernelNames();
  }

  lemma FunctionIsName(c: Call)
    ensures IsName(Function(c))
  {
    ImplNames();
    SchedulerNames();
    KernelNames();
  }

  /** The header that declares a kernel. */
  function IntendedFile(c: Call): string {
    match c
    case Sm90Logits(_, _, _, _, _) => "impls/sm90_fp8_mqa_logits"
    case Sm100Logits(_, _, _, _, _, _, _) => "impls/sm100_mqa_logits"
    case CleanLogits(_, _) => "impls/smxx_clean_logits"
    case Sm90Metadata(_, _, _) => "scheduler/sm90_paged_mqa_logits"
    case Sm100Metadata(_, _, _, _) => "scheduler/sm100_paged_mqa_logits"
    case Sm90Paged(_, _, _, _, _, _) => "impls/sm90_fp8_paged_mqa_logits"
    case Sm100Paged(_, _, _, _, _, _, _, _, _) => "impls/sm100_mqa_logits"
  }

  /** The kernel. */
  function IntendedFunction(c: Call): string {
    match c
    case Sm90Logits(_, _, _, _, _) => "sm90_fp8_mqa_logits"
    case Sm100Logits(_, _, _, _, _, _, _) => "sm100_mqa_logits"
    case CleanLogits(_, _) => "smxx_clean_logits"
    case Sm90Metadata(_, _, _) => "sched::sm90_paged_mqa_logits" + "_metadata"
    case Sm100Metadata(_, _, _, _) => "sched::sm100_paged_mqa_logits" + "_metadata"
    case Sm90Paged(_, _, _, _, _, _) => "sm90_fp8_paged_mqa_logits"
    case Sm100Paged(_, _, _, _, _, _, _, _, _) => "sm100_paged_mqa_logits"
  }

  lemma ImplFile(c: Call)
    requires !c.Sm90Metadata? && !c.Sm100Metadata?
    ensures Header(c) == IntendedFile(c)
  {
    if c.Sm90Logits? {
      assert "impls/sm90_fp8_" + "mqa_logits" == "impls/sm90_fp8_mqa_logits";
    } else if c.CleanLogits? {
      assert "impls/smxx_" + "clean_logits" == "impls/smxx_clean_logits";
    } else if c.Sm90Paged? {
      assert "impls/sm90_fp8_" + "paged_mqa_logits" == "impls/sm90_fp8_paged_mqa_logits";
    } else {
      assert "impls/sm100_" + "mqa_logits" == "impls/sm100_mqa_logits";
    }
  }

  lemma SchedulerFile(c: Call)
    requires c.Sm90Metadata? || c.Sm100Metadata?
    ensures Header(c) == IntendedFile(c)
  {
    assert "scheduler/sm90_" + "paged_mqa_logits" == "scheduler/sm90_paged_mqa_logits";
    assert "scheduler/sm100_" + "paged_mqa_logits" == "scheduler/sm100_paged_mqa_logits";
  }

  lemma ImplFunction(c: Call)
    requires !c.Sm90Metadata? && !c.Sm100Metadata?
    ensures Function(c) == IntendedFunction(c)
  {
    if c.Sm90Logits? {
      assert "sm90_fp8_" + "mqa_logits" == "sm90_fp8_mqa_logits";
    } else if c.Sm100Logits? {
      assert "sm100_" + "mqa_logits" == "sm100_mqa_logits";
    } else if c.CleanLogits? {
      assert "smxx_" + "clean_logits" == "smxx_clean_logits";
    } else if c.Sm90Paged? {
      assert "sm90_fp8_" + "paged_mqa_logits" == "sm90_fp8_paged_mqa_logits";
    } else {
      assert "sm100_" + "paged_mqa_logits" == "sm100_paged_mqa_logits";
    }
  }

  lemma SchedulerFunction(c: Call)
    requires c.Sm90Metadata? || c.Sm100Metadata?
    ensures Function(c) == IntendedFunction(c)
  {
    assert "sched::sm90_" + "paged_mqa_logits" == "sched::sm90_paged_mqa_logits";
    assert "sched::sm100_" + "paged_mqa_logits" == "sched::sm100_paged_mqa_logits";
  }

  lemma NamesAgree(c: Call)
    ensures Header(c) == IntendedFile(c) && Function(c) == IntendedFunction(c)
  {
    if c.Sm90Metadata? || c.Sm100Metadata? {
      SchedulerFile(c);
      SchedulerFunction(c);
    } else {
      ImplFile(c);
      ImplFunction(c);
    }
  }

  /** The source of a call names its kernel, with that kernel's arguments. */
  lemma SourceReads(c: Call)
    requires Accepted(c)
    ensures Read(Text(RepositoryFrame(), c))
         == Some(Kernel("deep_gemm/" + IntendedFile(c) + ".cuh", IntendedFunction(c), Intended(c)))
  {
    NamesAgree(c);
    var fields := Render(Interleave(Values(c), AttentionSource.Separators(c)));
    HeaderIsName(c);
    FunctionIsName(c);
    if c.Sm100Metadata? {
      MetadataFieldsRead(c);
    } else {
      PlainFieldsRead(c);
    }
    BlanksRead("\n        ", fields);
    OpeningReads(Header(c), Function(c), fields, Intended(c));
  }

  // The launch in numbers

  /** Threads are what the text prints, the loading and the computing ones together, or what the small
      kernels are written for. */
  lemma ThreadsInNumbers(c: Call)
    requires Accepted(c)
    ensures LaunchOf(c).gridX == if c.Sm90Metadata? || c.Sm100Metadata? then 1 else c.sms
    ensures LaunchOf(c).threads
         == match c
            case Sm90Logits(_, _, _, _, _) => 640
            case Sm100Logits(_, _, _, _, _, _, _) => 384
            case CleanLogits(_, _) => 256
            case Sm90Metadata(_, _, _) => 32
            case Sm100Metadata(_, _, _, _) => 256
            case Sm90Paged(_, _, _, _, _, _) => 640
            case Sm100Paged(_, _, _, _, _, _, _, _, _) => 384
  {
  }

  /** Three stages of 128 rows of queries with a float weight each, three of 256 keys with a float scale
      each, two eight-byte barriers for every stage and for each of four warp groups, and a pointer. */
  lemma LogitsMemory(c: Call)
    requires Accepted(c) && c.Sm90Logits?
    ensures LaunchOf(c).smemSize
         == 3 * (128 * c.dim + 128 * 4) + 3 * (256 * c.dim + 256 * 4) + (3 + 3 + 4) * 2 * 8 + 4
  {
    BlockOfHeads(c.heads);
    assert 128 / c.heads * c.heads == 128;
  }

  /** Three stages of the queries of one request with their weights, and for each of four warp groups
      three stages of 64 keys with their scales; weights, scales and the barriers of each pipeline in
      units of eight rows. */
  lemma PagedMemory(c: Call, weights: int)
    requires Accepted(c) && c.Sm90Paged? && LeastMultiple(weights, 4 * (c.nextN * c.heads), 8 * c.dim)
    ensures LaunchOf(c).smemSize
         == (3 * (c.nextN * c.heads * c.dim + weights) + 8 * c.dim)
            + 4 * (3 * (64 * c.dim + 8 * c.dim) + 8 * c.dim) + 4 * 2 * 8 + 4
  {
    var unit := c.dim * 8;
    AlignUpIsLeastMultiple(c.nextN * c.heads * 4, unit);
    LeastMultipleUnique(weights, AlignUp(c.nextN * c.heads * 4, unit), 4 * (c.nextN * c.heads), unit);
    OneUnit(c.dim);
  }

  lemma OneUnit(dim: int)
    requires dim in {32, 64, 128}
    ensures AlignUp(64 * 4, dim * 8) == dim * 8 && AlignUp(3 * 8 * 2, dim * 8) == dim * 8
  {
  }

  /** The remaining kernels: a fixed size, a float for each cleaned column, and a word for each request of
      the aligned batch or two for each request. */
  lemma OtherMemory(c: Call)
    requires Accepted(c) && !c.Sm90Logits? && !c.Sm90Paged?
    ensures c.Sm100Logits? || c.Sm100Paged? ==> LaunchOf(c).smemSize == 232448
    ensures c.CleanLogits? ==> LaunchOf(c).smemSize == 32768
    ensures c.Sm90Metadata? ==> LeastMultiple(LaunchOf(c).smemSize, 4 * c.batch, 128)
    ensures c.Sm100Metadata? ==> LaunchOf(c).smemSize == 8 * c.batch
  {
    if c.Sm90Metadata? {
      AlignUpIsLeastMultiple(c.batch, 32);
      var aligned := AlignUp(c.batch, 32);
      assert aligned == 32 * (aligned / 32);
    }
  }
}
