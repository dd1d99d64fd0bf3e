/** Generated GEMM kernel source as a cache key. The text leaves out m, the shared-memory size and
    half of the cluster shape, yet it determines every launch parameter. */
module GemmSource {
  import opened TextTemplate
  import K = KernelText
  import opened GemmTypes
  import S90 = Sm90Search
  import Sel90 = Sm90Selection
  import S100 = Sm100Search
  import Sel100 = Sm100Selection

  const COMMA: string := ", "
  const LINE: string := ",\n        "

  /** The values `sm90_fp8_gemm_1d2d_code` inserts, in order. */
  function Sm90Values(n: int, k: int, c: GemmConfig, numSms: int): (r: seq<Piece>)
    ensures |r| == 14
  {
    [ Num(n), Num(k),
      Num(c.layout.blockM), Num(c.layout.blockN), Num(BLOCK_K),
      Num(c.storage.swizzleA), Num(c.storage.swizzleB), Num(c.storage.swizzleCd),
      Num(c.pipeline.numStages),
      Num(c.launch.numTmaThreads), Num(c.launch.numMathThreads),
      Num(c.layout.ClusterSize()), Flag(c.layout.clusterN > 1),
      Num(numSms) ]
  }

  function Sm90Separators(tail: string): (r: seq<string>)
    ensures |r| == 14
  {
    [ COMMA, LINE + "1" + LINE, COMMA, COMMA, LINE, COMMA, COMMA, LINE, LINE, COMMA, LINE, COMMA, LINE, COMMA + tail ]
  }

  function Sm90Head(): string {
    K.Opening(K.RepositoryFrame(), "impls/" + "sm90_fp8_gemm_1d2d", "sm90_fp8_gemm_1d2d_impl")
    + ("cute::UMMA::Major::K" + (LINE + "0" + COMMA))
  }

  /** What closes every argument list. */
  function Close(): string { "\n    " + (">" + ");\n};\n") }

  function Sm90Tail(): string {
    "GemmType::Normal" + (LINE + "cutlass::bfloat16_t" + (LINE + IDENTITY + Close()))
  }

  const IDENTITY: string := "epilogue::transform::" + "EpilogueIdentity"

  function Text(head: string, values: seq<Piece>, seps: seq<string>): string
    requires |values| == |seps|
  {
    head + Render(Interleave(values, seps))
  }

  /** The parts of a source text that never vary: its beginning and its end. */
  datatype Frame = Frame(head: string, tail: string)

  function Sm90Frame(): Frame { Frame(Sm90Head(), Sm90Tail()) }

  function Sm90Text(f: Frame, n: int, k: int, c: GemmConfig, numSms: int): string {
    Text(f.head, Sm90Values(n, k, c, numSms), Sm90Separators(f.tail))
  }

  /** The values `sm100_fp8_gemm_1d1d_code` inserts, in order. */
  function Sm100Values(n: int, k: int, granA: int, granB: int, c: GemmConfig, numSms: int): (r: seq<Piece>)
    ensures |r| == 18
  {
    [ Num(granA), Num(granB), Num(granA),
      Num(n), Num(k),
      Num(c.layout.blockM), Num(c.layout.blockN), Num(BLOCK_K),
      Num(c.storage.swizzleA), Num(c.storage.swizzleB), Num(c.storage.swizzleCd),
      Num(c.pipeline.numStages),
      Num(c.launch.numNonEpilogueThreads), Num(c.launch.numEpilogueThreads),
      Num(c.layout.ClusterSize()), Flag(c.layout.clusterN > 1),
      Num(numSms),
      Flag(c.layout.swapAb) ]
  }

  function Sm100Separators(tail: string): (r: seq<string>)
    ensures |r| == 18
  {
    [ COMMA, COMMA, LINE + "0" + COMMA, COMMA, LINE, COMMA, COMMA, LINE + "1" + LINE, COMMA, COMMA, LINE, LINE,
      COMMA, LINE, COMMA, LINE, LINE, COMMA + tail ]
  }

  function Sm100Head(): string {
    K.Opening(K.RepositoryFrame(), "impls/" + "sm100_fp8_fp4_gemm_1d1d", "sm100_fp8_fp4_gemm_1d1d" + "_impl")
    + ("cute::UMMA::Major::K" + (COMMA + "cute::UMMA::Major::K" + LINE))
  }

  function Sm100Tail(): string {
    "true" + (LINE + ("GemmType::Normal" + (COMMA + ("false" + (LINE + ("cutlass::float_e4m3_t"
    + (COMMA + ("cutlass::float_e4m3_t" + (COMMA + ("cutlass::bfloat16_t" + (LINE + IDENTITY + Close())))))))))))
  }

  function Sm100Frame(): Frame { Frame(Sm100Head(), Sm100Tail()) }

  function Sm100Text(f: Frame, n: int, k: int, granA: int, granB: int, c: GemmConfig, numSms: int): string {
    Text(f.head, Sm100Values(n, k, granA, granB, c, numSms), Sm100Separators(f.tail))
  }

  lemma SeparatorsStop(tail: string)
    ensures Separators(Sm90Separators(tail)) && Separators(Sm100Separators(tail))
  {
    assert COMMA[0] == ',' && LINE[0] == ',';
    assert (LINE + "1" + LINE)[0] == ',' && (LINE + "0" + COMMA)[0] == ',' && (COMMA + tail)[0] == ',';
  }

  /** Where the kinds of the values of an argument list do not depend on the arguments. */
  lemma KindsFixed(n: int, k: int, a: int, b: int, c: GemmConfig, s: int,
                   n': int, k': int, a': int, b': int, c': GemmConfig, s': int)
    ensures SameKinds(Sm90Values(n, k, c, s), Sm90Values(n', k', c', s'))
    ensures SameKinds(Sm100Values(n, k, a, b, c, s), Sm100Values(n', k', a', b', c', s'))
  {
  }

  lemma TextDetermined(head: string, ps: seq<Piece>, qs: seq<Piece>, seps: seq<string>)
    requires SameKinds(ps, qs) && |ps| == |seps| && Separators(seps)
    ensures Text(head, ps, seps) == Text(head, qs, seps) <==> ps == qs
  {
    if Text(head, ps, seps) == Text(head, qs, seps) {
      FieldsDetermined(head, ps, qs, seps);
    }
  }

  /** Two layouts with the same block shape, cluster size and second cluster side. */
  predicate SameShape(l: GemmLayout, l': GemmLayout) {
    && l.blockM == l'.blockM && l.blockN == l'.blockN
    && l.ClusterSize() == l'.ClusterSize()
    && (l.clusterN > 1 <==> l'.clusterN > 1)
  }

  lemma Sm90ValuesEqual(n: int, k: int, c: GemmConfig, s: int, n': int, k': int, c': GemmConfig, s': int)
    requires Sm90Values(n, k, c, s) == Sm90Values(n', k', c', s')
    ensures n == n' && k == k' && s == s' && SameShape(c.layout, c'.layout)
  {
    var ps, qs := Sm90Values(n, k, c, s), Sm90Values(n', k', c', s');
    assert ps[0] == qs[0] && ps[1] == qs[1] && ps[2] == qs[2] && ps[3] == qs[3];
    assert ps[11] == qs[11] && ps[12] == qs[12] && ps[13] == qs[13];
  }

  lemma Sm100ValuesEqual(n: int, k: int, a: int, b: int, c: GemmConfig, s: int,
                         n': int, k': int, a': int, b': int, c': GemmConfig, s': int)
    requires Sm100Values(n, k, a, b, c, s) == Sm100Values(n', k', a', b', c', s')
    ensures n == n' && k == k' && a == a' && b == b' && s == s' && SameShape(c.layout, c'.layout)
    ensures c.layout.swapAb == c'.layout.swapAb
  {
    var ps, qs := Sm100Values(n, k, a, b, c, s), Sm100Values(n', k', a', b', c', s');
    assert ps[0] == qs[0] && ps[1] == qs[1] && ps[3] == qs[3] && ps[4] == qs[4] && ps[5] == qs[5] && ps[6] == qs[6];
    assert ps[14] == qs[14] && ps[15] == qs[15] && ps[16] == qs[16] && ps[17] == qs[17];
  }

  /** The printed size and flag recover the cluster pair, because no search yields a cluster of more
      than two blocks. */
  lemma ShapeDeterminesLayout(l: GemmLayout, l': GemmLayout)
    requires SmallCluster(l) && SmallCluster(l') && l.ClusterSize() <= 2 && l'.ClusterSize() <= 2
    requires SameShape(l, l') && l.swapAb == l'.swapAb
    ensures l == l'
  {
  }

  lemma Sm90TextDetermines(f: Frame, n: int, k: int, c: GemmConfig, s: int, n': int, k': int, c': GemmConfig, s': int)
    requires Sm90Text(f, n, k, c, s) == Sm90Text(f, n', k', c', s')
    ensures n == n' && k == k' && s == s' && SameShape(c.layout, c'.layout)
  {
    KindsFixed(n, k, 0, 0, c, s, n', k', 0, 0, c', s');
    SeparatorsStop(f.tail);
    TextDetermined(f.head, Sm90Values(n, k, c, s), Sm90Values(n', k', c', s'), Sm90Separators(f.tail));
    Sm90ValuesEqual(n, k, c, s, n', k', c', s');
  }

  lemma Sm100TextDetermines(f: Frame, n: int, k: int, a: int, b: int, c: GemmConfig, s: int,
                            n': int, k': int, a': int, b': int, c': GemmConfig, s': int)
    requires Sm100Text(f, n, k, a, b, c, s) == Sm100Text(f, n', k', a', b', c', s')
    ensures n == n' && k == k' && a == a' && b == b' && s == s' && SameShape(c.layout, c'.layout)
    ensures c.layout.swapAb == c'.layout.swapAb
  {
    KindsFixed(n, k, a, b, c, s, n', k', a', b', c', s');
    SeparatorsStop(f.tail);
    TextDetermined(f.head, Sm100Values(n, k, a, b, c, s), Sm100Values(n', k', a', b', c', s'), Sm100Separators(f.tail));
    Sm100ValuesEqual(n, k, a, b, c, s, n', k', a', b', c', s');
  }

  /** Compute capability 9: two candidates, chosen for whatever m, have the same source exactly when
      they agree on n, k, the SM count and the whole configuration: layout, swizzles, stages, threads
      and shared-memory size. This holds for `Sm90Frame` as for any other fixed text. */
  lemma Sm90SourceDeterminesLaunch(f: Frame, m: int, n: int, k: int, s: int, l: GemmLayout,
                                   m': int, n': int, k': int, s': int, l': GemmLayout)
    requires l in S90.Candidates(m, k, s) && l' in S90.Candidates(m', k', s')
    ensures PositiveBlocks(l) && S90.Storage(l).Some? && PositiveBlocks(l') && S90.Storage(l').Some?
    ensures Sm90Text(f, n, k, Sel90.ConfigFor(k, l), s) == Sm90Text(f, n', k', Sel90.ConfigFor(k', l'), s')
            <==> n == n' && k == k' && s == s' && Sel90.ConfigFor(k, l) == Sel90.ConfigFor(k', l')
  {
    S90.CandidateCharacterized(m, k, s, l);
    S90.CandidateCharacterized(m', k', s', l');
    var c, c' := Sel90.ConfigFor(k, l), Sel90.ConfigFor(k', l');
    if Sm90Text(f, n, k, c, s) == Sm90Text(f, n', k', c', s') {
      Sm90TextDetermines(f, n, k, c, s, n', k', c', s');
      ShapeDeterminesLayout(l, l');
    }
  }

  /** Compute capability 10, likewise, with the two scale granularities. */
  lemma Sm100SourceDeterminesLaunch(f: Frame, m: int, n: int, k: int, s: int, a: int, b: int, l: GemmLayout,
                                    m': int, n': int, k': int, s': int, a': int, b': int, l': GemmLayout)
    requires l in S100.Candidates(m, n, k, s) && l' in S100.Candidates(m', n', k', s')
    ensures Sel100.Usable(l) && Sel100.Usable(l')
    ensures var c, c' := Sel100.ConfigFor(l, S100.Storage(l).value), Sel100.ConfigFor(l', S100.Storage(l').value);
            Sm100Text(f, n, k, a, b, c, s) == Sm100Text(f, n', k', a', b', c', s')
            <==> n == n' && k == k' && a == a' && b == b' && s == s' && c == c'
  {
    S100.CandidateCharacterized(m, n, k, s, l);
    S100.CandidatePipeline(m, n, k, s, l);
    S100.CandidateCharacterized(m', n', k', s', l');
    S100.CandidatePipeline(m', n', k', s', l');
    var c, c' := Sel100.ConfigFor(l, S100.Storage(l).value), Sel100.ConfigFor(l', S100.Storage(l').value);
    if Sm100Text(f, n, k, a, b, c, s) == Sm100Text(f, n', k', a', b', c', s') {
      Sm100TextDetermines(f, n, k, a, b, c, s, n', k', a', b', c', s');
      ShapeDeterminesLayout(l, l');
    }
  }

  // The repository's own beginning and end

  /** A text generated for a candidate. */
  predicate Sm90Generated(text: string, m: int, n: int, k: int, s: int, l: GemmLayout) {
    && l in S90.Candidates(m, k, s) && PositiveBlocks(l) && S90.Storage(l).Some?
    && text == Sm90Text(Sm90Frame(), n, k, Sel90.ConfigFor(k, l), s)
  }

  predicate Sm100Generated(text: string, m: int, n: int, k: int, s: int, a: int, b: int, l: GemmLayout) {
    && l in S100.Candidates(m, n, k, s) && Sel100.Usable(l)
    && text == Sm100Text(Sm100Frame(), n, k, a, b, Sel100.ConfigFor(l, S100.Storage(l).value), s)
  }

  lemma Sm90SourceOfRepository(text: string, m: int, n: int, k: int, s: int, l: GemmLayout,
                               m': int, n': int, k': int, s': int, l': GemmLayout)
    requires Sm90Generated(text, m, n, k, s, l) && Sm90Generated(text, m', n', k', s', l')
    ensures n == n' && k == k' && s == s' && Sel90.ConfigFor(k, l) == Sel90.ConfigFor(k', l')
  {
    Sm90SourceDeterminesLaunch(Sm90Frame(), m, n, k, s, l, m', n', k', s', l');
  }

  lemma Sm100SourceOfRepository(text: string, m: int, n: int, k: int, s: int, a: int, b: int, l: GemmLayout,
                                m': int, n': int, k': int, s': int, a': int, b': int, l': GemmLayout)
    requires Sm100Generated(text, m, n, k, s, a, b, l) && Sm100Generated(text, m', n', k', s', a', b', l')
    ensures n == n' && k == k' && a == a' && b == b' && s == s'
    ensures Sel100.ConfigFor(l, S100.Storage(l).value) == Sel100.ConfigFor(l', S100.Storage(l').value)
  {
    Sm100SourceDeterminesLaunch(Sm100Frame(), m, n, k, s, a, b, l, m', n', k', s', a', b', l');
  }
}
