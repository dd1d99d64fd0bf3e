/** The generated GEMM kernel source, read back: a reader that knows nothing of the generator finds the
    header, the function and, position by position, the template arguments that the kernel of the
    selected configuration takes. */
module GemmReading {
  import opened KernelText
  import opened TextTemplate
  import opened GemmSource
  import opened GemmTypes
  import opened Wrappers

  lemma SeparatorsSeparate()
    ensures Separates(COMMA, []) && Separates(LINE, [])
    ensures Separates(LINE + "1" + LINE, ["1"]) && Separates(LINE + "0" + COMMA, ["0"])
    ensures Closes(Close(), [])
  {
    assert COMMA == "," + " " && LINE == "," + "\n        ";
    CommaSeparates(" ");
    CommaSeparates("\n        ");
    assert IsWord("0") && IsWord("1");
    SeparatesThen(LINE, [], "1", LINE, []);
    SeparatesThen(LINE, [], "0", COMMA, []);
    assert [] + ["1"] + [] == ["1"] && [] + ["0"] + [] == ["0"];
    BracketCloses("\n    ", ");\n};\n");
  }

  /** One more fixed argument before the end. */
  lemma FixedArgument(sep: string, s: string, end: string, words: seq<string>)
    requires Separates(sep, []) && IsWord(s) && Closes(end, words)
    ensures Closes(sep + s + end, [s] + words) && Closes(sep + (s + end), [s] + words)
  {
    ClosesThen(sep, [], s, end, words);
    assert [] + [s] + words == [s] + words && sep + s + end == sep + (s + end);
  }

  lemma FixedWords()
    ensures IsWord(IDENTITY) && IsWord("GemmType::Normal") && IsWord("cutlass::bfloat16_t")
  {
    IdentityIsWord();
  }

  lemma IdentityIsWord()
    ensures IsWord(IDENTITY)
  {
    assert IsWord("epilogue::transform::");
    assert IsWord("EpilogueIdentity");
  }

  lemma FixedTypes()
    ensures IsWord("cutlass::float_e4m3_t") && IsWord("true") && IsWord("false") && IsWord("cute::UMMA::Major::K")
  {
  }

  // Groups of insertions and of arguments

  function TilePieces(c: GemmConfig): seq<Piece> { [Num(c.layout.blockM), Num(c.layout.blockN), Num(BLOCK_K)] }

  function SwizzlePieces(c: GemmConfig): seq<Piece> {
    [Num(c.storage.swizzleA), Num(c.storage.swizzleB), Num(c.storage.swizzleCd)]
  }

  function ClusterPieces(c: GemmConfig, numSms: int): seq<Piece> {
    [Num(c.layout.ClusterSize()), Flag(c.layout.clusterN > 1), Num(numSms)]
  }

  function TileWords(c: GemmConfig): seq<string> { [Decimal(c.layout.blockM), Decimal(c.layout.blockN), "128"] }

  function SwizzleWords(c: GemmConfig): seq<string> {
    [Decimal(c.storage.swizzleA), Decimal(c.storage.swizzleB), Decimal(c.storage.swizzleCd)]
  }

  function ClusterWords(c: GemmConfig, numSms: int): seq<string> {
    [Decimal(c.layout.clusterM * c.layout.clusterN), if c.layout.clusterN == 2 then "true" else "false",
     Decimal(numSms)]
  }

  /** No fixed argument after any of three insertions. */
  const NONE: seq<seq<string>> := [[], [], []]

  lemma BlockKPrinted()
    ensures Decimal(BLOCK_K) == "128"
  {
    assert DecimalNat(1) == "1" && DecimalNat(12) == "12";
  }

  lemma ThreeListed(p: Piece, q: Piece, r: Piece, after: seq<string>)
    ensures Listed([p, q, r], [[], [], after]) == [RenderPiece(p), RenderPiece(q), RenderPiece(r)] + after
  {
    ListedThree(p, q, r, [], [], after);
  }

  lemma TileListed(c: GemmConfig, after: seq<string>)
    ensures Listed(TilePieces(c), [[], [], after]) == TileWords(c) + after
  {
    BlockKPrinted();
    ThreeListed(Num(c.layout.blockM), Num(c.layout.blockN), Num(BLOCK_K), after);
  }

  lemma SwizzleListed(c: GemmConfig)
    ensures Listed(SwizzlePieces(c), NONE) == SwizzleWords(c)
  {
    ThreeListed(Num(c.storage.swizzleA), Num(c.storage.swizzleB), Num(c.storage.swizzleCd), []);
  }

  lemma ClusterListed(c: GemmConfig, numSms: int, after: seq<string>)
    requires SmallCluster(c.layout)
    ensures Listed(ClusterPieces(c, numSms), [[], [], after]) == ClusterWords(c, numSms) + after
  {
    ThreeListed(Num(c.layout.ClusterSize()), Flag(c.layout.clusterN > 1), Num(numSms), after);
  }

  // Compute capability 9

  function Sm90End(): seq<string> { ["GemmType::Normal", "cutlass::bfloat16_t", IDENTITY] }

  lemma Sm90Closes()
    ensures Closes(COMMA + Sm90Tail(), Sm90End())
  {
    SeparatorsSeparate();
    FixedWords();
    var end := LINE + IDENTITY + Close();
    FixedArgument(LINE, IDENTITY, Close(), []);
    FixedArgument(LINE, "cutlass::bfloat16_t", end, [IDENTITY] + []);
    FixedArgument(COMMA, "GemmType::Normal", LINE + "cutlass::bfloat16_t" + end,
                  ["cutlass::bfloat16_t"] + ([IDENTITY] + []));
    assert ["GemmType::Normal"] + (["cutlass::bfloat16_t"] + ([IDENTITY] + [])) == Sm90End();
  }

  function Sm90Between(): seq<seq<string>> { [[], ["1"]] + NONE + NONE + NONE + [[], [], Sm90End()] }

  lemma Sm90Delimits()
    ensures Delimits(Sm90Separators(Sm90Tail()), Sm90Between())
  {
    SeparatorsSeparate();
    Sm90Closes();
  }

  function Sm90DepthPieces(c: GemmConfig): seq<Piece> {
    [Num(c.pipeline.numStages), Num(c.launch.numTmaThreads), Num(c.launch.numMathThreads)]
  }

  function Sm90DepthWords(c: GemmConfig): seq<string> {
    [Decimal(c.pipeline.numStages), Decimal(c.launch.numTmaThreads), Decimal(c.launch.numMathThreads)]
  }

  /** The template arguments that instantiate the kernel of a configuration, in the kernel's order. */
  function Sm90Arguments(n: int, k: int, c: GemmConfig, numSms: int): seq<string> {
    ["cute::UMMA::Major::K", "0", Decimal(n), Decimal(k), "1"]
    + TileWords(c) + SwizzleWords(c) + Sm90DepthWords(c) + ClusterWords(c, numSms) + Sm90End()
  }

  lemma Sm90Grouped(n: int, k: int, c: GemmConfig, numSms: int)
    ensures Sm90Values(n, k, c, numSms)
         == [Num(n), Num(k)] + TilePieces(c) + SwizzlePieces(c) + Sm90DepthPieces(c) + ClusterPieces(c, numSms)
  {
  }

  lemma Sm90Listed(n: int, k: int, c: GemmConfig, numSms: int)
    requires SmallCluster(c.layout)
    ensures Listed(Sm90Values(n, k, c, numSms), Sm90Between())
         == [Decimal(n), Decimal(k), "1"] + (TileWords(c) + []) + SwizzleWords(c) + Sm90DepthWords(c)
            + (ClusterWords(c, numSms) + Sm90End())
  {
    Sm90Grouped(n, k, c, numSms);
    ListedTwo(Num(n), Num(k), [], ["1"]);
    TileListed(c, []);
    SwizzleListed(c);
    ThreeListed(Num(c.pipeline.numStages), Num(c.launch.numTmaThreads), Num(c.launch.numMathThreads), []);
    ClusterListed(c, numSms, Sm90End());
    ListedFive([Num(n), Num(k)], TilePieces(c), SwizzlePieces(c), Sm90DepthPieces(c), ClusterPieces(c, numSms),
               [[], ["1"]], NONE, NONE, NONE, [[], [], Sm90End()]);
  }

  /** A first fixed argument and a separator with further ones lead to the inserted fields. */
  lemma BodyReads(first: string, sep: string, words: seq<string>, fields: string, listed: seq<string>)
    requires IsWord(first) && Separates(sep, words) && Arguments(fields, "", false) == Some(listed)
    ensures Arguments("\n        " + (first + (sep + fields)), "", false) == Some([first] + words + listed)
  {
    BlanksRead("\n        ", first + (sep + fields));
    WordReads(first, sep + fields, "");
    assert "" + first == first;
    assert Arguments(sep + fields, first, false) == PrependAll([first] + words, Arguments(fields, "", false));
  }

  lemma HeadReads(header: string, name: string, first: string, sep: string, words: seq<string>, fields: string,
                  listed: seq<string>)
    requires IsName(header) && IsName(name)
    requires IsWord(first) && Separates(sep, words) && Arguments(fields, "", false) == Some(listed)
    ensures Read(Opening(RepositoryFrame(), header, name) + (first + sep) + fields)
         == Some(Kernel("deep_gemm/" + header + ".cuh", name, [first] + words + listed))
  {
    var opening := Opening(RepositoryFrame(), header, name);
    BodyReads(first, sep, words, fields, listed);
    OpeningReads(header, name, first + (sep + fields), [first] + words + listed);
    assert opening + (first + sep) + fields == opening + (first + (sep + fields));
  }

  lemma Sm90FieldsRead(n: int, k: int, c: GemmConfig, numSms: int)
    ensures Arguments(Render(Interleave(Sm90Values(n, k, c, numSms), Sm90Separators(Sm90Tail()))), "", false)
         == Some(Listed(Sm90Values(n, k, c, numSms), Sm90Between()))
  {
    Sm90Delimits();
    FieldsRead(Sm90Values(n, k, c, numSms), Sm90Separators(Sm90Tail()), Sm90Between());
  }

  lemma Sm90Names()
    ensures IsName("impls/" + "sm90_fp8_gemm_1d2d") && IsName("sm90_fp8_gemm_1d2d_impl")
  {
    assert IsName("impls/") && IsName("sm90_fp8_gemm_1d2d");
  }

  /** The source of a configuration names the kernel of that configuration. */
  lemma Sm90Reads(n: int, k: int, c: GemmConfig, numSms: int)
    requires SmallCluster(c.layout)
    ensures Read(Sm90Text(Sm90Frame(), n, k, c, numSms))
         == Some(Kernel("deep_gemm/" + ("impls/" + "sm90_fp8_gemm_1d2d") + ".cuh", "sm90_fp8_gemm_1d2d_impl",
                        Sm90Arguments(n, k, c, numSms)))
  {
    var fields := Render(Interleave(Sm90Values(n, k, c, numSms), Sm90Separators(Sm90Tail())));
    var listed := Listed(Sm90Values(n, k, c, numSms), Sm90Between());
    SeparatorsSeparate();
    FixedTypes();
    Sm90Names();
    Sm90FieldsRead(n, k, c, numSms);
    HeadReads("impls/" + "sm90_fp8_gemm_1d2d", "sm90_fp8_gemm_1d2d_impl", "cute::UMMA::Major::K",
              LINE + "0" + COMMA, ["0"], fields, listed);
    Sm90Listed(n, k, c, numSms);
    Sm90Regroup(n, k, c, numSms, listed);
  }

  lemma Sm90Regroup(n: int, k: int, c: GemmConfig, numSms: int, listed: seq<string>)
    requires listed == [Decimal(n), Decimal(k), "1"] + (TileWords(c) + []) + SwizzleWords(c) + Sm90DepthWords(c)
                       + (ClusterWords(c, numSms) + Sm90End())
    ensures ["cute::UMMA::Major::K"] + ["0"] + listed == Sm90Arguments(n, k, c, numSms)
  {
    Joined(["cute::UMMA::Major::K"] + ["0"], [Decimal(n), Decimal(k), "1"], TileWords(c), SwizzleWords(c),
           Sm90DepthWords(c), ClusterWords(c, numSms), Sm90End());
    assert ["cute::UMMA::Major::K"] + ["0"] + [Decimal(n), Decimal(k), "1"]
        == ["cute::UMMA::Major::K", "0", Decimal(n), Decimal(k), "1"];
  }

  lemma Joined(a: seq<string>, b: seq<string>, c: seq<string>, d: seq<string>, e: seq<string>, f: seq<string>,
               g: seq<string>)
    ensures a + (b + (c + []) + d + e + (f + g)) == (a + b) + c + d + e + f + g
  {
  }

  // Compute capability 10

  function Sm100End(): seq<string> {
    ["true", "GemmType::Normal", "false", "cutlass::float_e4m3_t", "cutlass::float_e4m3_t"]
    + ["cutlass::bfloat16_t", IDENTITY]
  }

  function Sm100LastTypes(): string { LINE + IDENTITY + Close() }

  lemma Sm100TypesClose()
    ensures Closes(COMMA + ("cutlass::bfloat16_t" + Sm100LastTypes()), ["cutlass::bfloat16_t", IDENTITY])
  {
    SeparatorsSeparate();
    FixedWords();
    FixedArgument(LINE, IDENTITY, Close(), []);
    FixedArgument(COMMA, "cutlass::bfloat16_t", Sm100LastTypes(), [IDENTITY] + []);
    assert ["cutlass::bfloat16_t"] + ([IDENTITY] + []) == ["cutlass::bfloat16_t", IDENTITY];
  }

  lemma Sm100OperandsClose()
    ensures Closes(LINE + ("cutlass::float_e4m3_t" + (COMMA + ("cutlass::float_e4m3_t" + (COMMA
                   + ("cutlass::bfloat16_t" + Sm100LastTypes()))))),
                   ["cutlass::float_e4m3_t", "cutlass::float_e4m3_t"] + ["cutlass::bfloat16_t", IDENTITY])
  {
    SeparatorsSeparate();
    FixedTypes();
    Sm100TypesClose();
    var end, words := COMMA + ("cutlass::bfloat16_t" + Sm100LastTypes()), ["cutlass::bfloat16_t", IDENTITY];
    FixedArgument(COMMA, "cutlass::float_e4m3_t", end, words);
    FixedArgument(LINE, "cutlass::float_e4m3_t", COMMA + ("cutlass::float_e4m3_t" + end),
                  ["cutlass::float_e4m3_t"] + words);
    assert ["cutlass::float_e4m3_t"] + (["cutlass::float_e4m3_t"] + words)
        == ["cutlass::float_e4m3_t", "cutlass::float_e4m3_t"] + words;
  }

  lemma Sm100Closes()
    ensures Closes(COMMA + Sm100Tail(), Sm100End())
  {
    SeparatorsSeparate();
    FixedWords();
    FixedTypes();
    Sm100OperandsClose();
    var end := LINE + ("cutlass::float_e4m3_t" + (COMMA + ("cutlass::float_e4m3_t" + (COMMA
               + ("cutlass::bfloat16_t" + Sm100LastTypes())))));
    var words := ["cutlass::float_e4m3_t", "cutlass::float_e4m3_t"] + ["cutlass::bfloat16_t", IDENTITY];
    FixedArgument(COMMA, "false", end, words);
    FixedArgument(LINE, "GemmType::Normal", COMMA + ("false" + end), ["false"] + words);
    FixedArgument(COMMA, "true", LINE + ("GemmType::Normal" + (COMMA + ("false" + end))),
                  ["GemmType::Normal"] + (["false"] + words));
    assert ["true"] + (["GemmType::Normal"] + (["false"] + words)) == Sm100End();
  }

  function Sm100Between(): seq<seq<string>> {
    [[], [], ["0"]] + [[], []] + [[], [], ["1"]] + NONE + NONE + NONE + [Sm100End()]
  }

  lemma Sm100FirstSeparates()
    ensures Separates(COMMA + "cute::UMMA::Major::K" + LINE, ["cute::UMMA::Major::K"])
  {
    SeparatorsSeparate();
    FixedTypes();
    SeparatesThen(COMMA, [], "cute::UMMA::Major::K", LINE, []);
    assert [] + ["cute::UMMA::Major::K"] + [] == ["cute::UMMA::Major::K"];
  }

  lemma Sm100Delimits()
    ensures Delimits(Sm100Separators(Sm100Tail()), Sm100Between())
  {
    SeparatorsSeparate();
    Sm100Closes();
  }

  function Sm100DepthPieces(c: GemmConfig): seq<Piece> {
    [Num(c.pipeline.numStages), Num(c.launch.numNonEpilogueThreads), Num(c.launch.numEpilogueThreads)]
  }

  function Sm100DepthWords(c: GemmConfig): seq<string> {
    [Decimal(c.pipeline.numStages), Decimal(c.launch.numNonEpilogueThreads), Decimal(c.launch.numEpilogueThreads)]
  }

  function Sm100Arguments(n: int, k: int, granA: int, granB: int, c: GemmConfig, numSms: int): seq<string> {
    ["cute::UMMA::Major::K", "cute::UMMA::Major::K", Decimal(granA), Decimal(granB), Decimal(granA), "0"]
    + [Decimal(n), Decimal(k)] + (TileWords(c) + ["1"]) + SwizzleWords(c) + Sm100DepthWords(c)
    + ClusterWords(c, numSms) + [if c.layout.swapAb then "true" else "false"] + Sm100End()
  }

  lemma Sm100Grouped(n: int, k: int, granA: int, granB: int, c: GemmConfig, numSms: int)
    ensures Sm100Values(n, k, granA, granB, c, numSms)
         == [Num(granA), Num(granB), Num(granA)] + [Num(n), Num(k)] + TilePieces(c) + SwizzlePieces(c)
            + Sm100DepthPieces(c) + ClusterPieces(c, numSms) + [Flag(c.layout.swapAb)]
  {
  }

  lemma Sm100FrontListed(n: int, k: int, granA: int, granB: int, c: GemmConfig)
    ensures Listed([Num(granA), Num(granB), Num(granA)] + [Num(n), Num(k)] + TilePieces(c) + SwizzlePieces(c)
                   + Sm100DepthPieces(c), [[], [], ["0"]] + [[], []] + [[], [], ["1"]] + NONE + NONE)
         == ([Decimal(granA), Decimal(granB), Decimal(granA)] + ["0"]) + [Decimal(n), Decimal(k)]
            + (TileWords(c) + ["1"]) + SwizzleWords(c) + (Sm100DepthWords(c) + [])
  {
    ThreeListed(Num(granA), Num(granB), Num(granA), ["0"]);
    ListedTwo(Num(n), Num(k), [], []);
    TileListed(c, ["1"]);
    SwizzleListed(c);
    ThreeListed(Num(c.pipeline.numStages), Num(c.launch.numNonEpilogueThreads), Num(c.launch.numEpilogueThreads), []);
    ListedFive([Num(granA), Num(granB), Num(granA)], [Num(n), Num(k)], TilePieces(c), SwizzlePieces(c),
               Sm100DepthPieces(c), [[], [], ["0"]], [[], []], [[], [], ["1"]], NONE, NONE);
  }

  lemma Sm100Listed(n: int, k: int, granA: int, granB: int, c: GemmConfig, numSms: int)
    requires SmallCluster(c.layout)
    ensures Listed(Sm100Values(n, k, granA, granB, c, numSms), Sm100Between())
         == ([Decimal(granA), Decimal(granB), Decimal(granA)] + ["0"]) + [Decimal(n), Decimal(k)]
            + (TileWords(c) + ["1"]) + SwizzleWords(c) + (Sm100DepthWords(c) + []) + (ClusterWords(c, numSms) + [])
            + ([if c.layout.swapAb then "true" else "false"] + Sm100End())
  {
    Sm100Grouped(n, k, granA, granB, c, numSms);
    Sm100FrontListed(n, k, granA, granB, c);
    ClusterListed(c, numSms, []);
    ListedOne(Flag(c.layout.swapAb), Sm100End());
    ListedThreeGroups([Num(granA), Num(granB), Num(granA)] + [Num(n), Num(k)] + TilePieces(c) + SwizzlePieces(c)
                      + Sm100DepthPieces(c), ClusterPieces(c, numSms), [Flag(c.layout.swapAb)],
                      [[], [], ["0"]] + [[], []] + [[], [], ["1"]] + NONE + NONE, NONE, [Sm100End()]);
  }

  lemma ListedThreeGroups(v1: seq<Piece>, v2: seq<Piece>, v3: seq<Piece>,
                          b1: seq<seq<string>>, b2: seq<seq<string>>, b3: seq<seq<string>>)
    requires |v1| == |b1| && |v2| == |b2| && |v3| == |b3|
    ensures Listed(v1 + v2 + v3, b1 + b2 + b3) == Listed(v1, b1) + Listed(v2, b2) + Listed(v3, b3)
  {
    ListedAppend(v1, v2, b1, b2);
    ListedAppend(v1 + v2, v3, b1 + b2, b3);
  }

  lemma Sm100FieldsRead(n: int, k: int, granA: int, granB: int, c: GemmConfig, numSms: int)
    ensures Arguments(Render(Interleave(Sm100Values(n, k, granA, granB, c, numSms), Sm100Separators(Sm100Tail()))),
                      "", false)
         == Some(Listed(Sm100Values(n, k, granA, granB, c, numSms), Sm100Between()))
  {
    Sm100Delimits();
    FieldsRead(Sm100Values(n, k, granA, granB, c, numSms), Sm100Separators(Sm100Tail()), Sm100Between());
  }

  lemma Sm100Names()
    ensures IsName("impls/" + "sm100_fp8_fp4_gemm_1d1d") && IsName("sm100_fp8_fp4_gemm_1d1d" + "_impl")
  {
    assert IsName("impls/") && IsName("sm100_fp8_fp4_gemm_1d1d") && IsName("_impl");
  }

  lemma Sm100Reads(n: int, k: int, granA: int, granB: int, c: GemmConfig, numSms: int)
    requires SmallCluster(c.layout)
    ensures Read(Sm100Text(Sm100Frame(), n, k, granA, granB, c, numSms))
         == Some(Kernel("deep_gemm/" + ("impls/" + "sm100_fp8_fp4_gemm_1d1d") + ".cuh",
                        "sm100_fp8_fp4_gemm_1d1d" + "_impl", Sm100Arguments(n, k, granA, granB, c, numSms)))
  {
    var fields := Render(Interleave(Sm100Values(n, k, granA, granB, c, numSms), Sm100Separators(Sm100Tail())));
    var listed := Listed(Sm100Values(n, k, granA, granB, c, numSms), Sm100Between());
    FixedTypes();
    Sm100FirstSeparates();
    Sm100Names();
    Sm100FieldsRead(n, k, granA, granB, c, numSms);
    HeadReads("impls/" + "sm100_fp8_fp4_gemm_1d1d", "sm100_fp8_fp4_gemm_1d1d" + "_impl", "cute::UMMA::Major::K",
              COMMA + "cute::UMMA::Major::K" + LINE, ["cute::UMMA::Major::K"], fields, listed);
    Sm100Listed(n, k, granA, granB, c, numSms);
    Sm100Regroup(n, k, granA, granB, c, numSms, listed);
  }

  lemma Sm100Regroup(n: int, k: int, granA: int, granB: int, c: GemmConfig, numSms: int, listed: seq<string>)
    requires listed == ([Decimal(granA), Decimal(granB), Decimal(granA)] + ["0"]) + [Decimal(n), Decimal(k)]
                       + (TileWords(c) + ["1"]) + SwizzleWords(c) + (Sm100DepthWords(c) + [])
                       + (ClusterWords(c, numSms) + []) + ([if c.layout.swapAb then "true" else "false"] + Sm100End())
    ensures ["cute::UMMA::Major::K"] + ["cute::UMMA::Major::K"] + listed
         == Sm100Arguments(n, k, granA, granB, c, numSms)
  {
    var two := ["cute::UMMA::Major::K"] + ["cute::UMMA::Major::K"];
    var scales := [Decimal(granA), Decimal(granB), Decimal(granA)] + ["0"];
    JoinedEight(two, scales, [Decimal(n), Decimal(k)], TileWords(c) + ["1"], SwizzleWords(c), Sm100DepthWords(c),
                ClusterWords(c, numSms), [if c.layout.swapAb then "true" else "false"], Sm100End());
    assert two + scales
        == ["cute::UMMA::Major::K", "cute::UMMA::Major::K", Decimal(granA), Decimal(granB), Decimal(granA), "0"];
  }

  lemma JoinedEight(a: seq<string>, b: seq<string>, c: seq<string>, d: seq<string>, e: seq<string>, f: seq<string>,
                    g: seq<string>, h: seq<string>, i: seq<string>)
    ensures a + (b + c + d + e + (f + []) + (g + []) + (h + i)) == (a + b) + c + d + e + f + g + h + i
  {
  }
}
