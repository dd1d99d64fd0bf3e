/** Generated attention kernel source as a cache key: seven kernels, whose texts omit some launch
    parameters. The text of a call determines its kernel, its threads and, but for one kernel, its
    shared memory; what it leaves open is exactly what the launch passes afresh. */
module AttentionSource {
  import opened IntMath
  import opened KernelText
  import opened TextTemplate
  import opened Wrappers

  /** One launch, with the arguments that its source text or its launch parameters depend on. */
  datatype Call =
    | Sm90Logits(heads: int, dim: int, compressed: bool, logits: Element, sms: int)
    | Sm100Logits(fp4: bool, heads: int, dim: int, compressed: bool, logits: Element, weights: Element, sms: int)
    | CleanLogits(logits: Element, sms: int)
    | Sm90Metadata(batch: int, varlen: bool, sms: int)
    | Sm100Metadata(batch: int, nextN: int, varlen: bool, sms: int)
    | Sm90Paged(nextN: int, heads: int, dim: int, blockKv: int, logits: Element, sms: int)
    | Sm100Paged(fp4: bool, nextN: int, heads: int, dim: int, pageKv: int, varlen: bool,
                 logits: Element, weights: Element, sms: int)

  /** The shapes that the checks before a launch let through. */
  predicate Accepted(c: Call) {
    match c
    case Sm90Logits(heads, dim, _, _, _) => heads in {32, 64} && dim in {32, 64, 128}
    case Sm100Logits(fp4, heads, dim, _, logits, weights, _) =>
      heads in {8, 16, 32, 64} && dim in Dims(fp4) && (weights == Bfloat16 ==> logits == Bfloat16)
    case CleanLogits(_, _) => true
    case Sm90Metadata(batch, varlen, _) => batch > 0 && AlignUp(batch, 32) <= I32_MAX && !varlen
    case Sm100Metadata(batch, nextN, varlen, _) => batch > 0 && nextN > 0 && (varlen ==> nextN == 1)
    case Sm90Paged(nextN, heads, dim, blockKv, _, _) =>
      nextN in {1, 2} && heads in {32, 64} && dim in {32, 64, 128} && blockKv == 64
    case Sm100Paged(fp4, nextN, heads, dim, pageKv, varlen, logits, weights, _) =>
      && nextN > 0 && (varlen ==> nextN == 1) && pageKv in {32, 64}
      && heads in {8, 16, 32, 64} && dim in Dims(fp4) && (weights == Bfloat16 ==> logits == Bfloat16)
  }

  function Dims(fp4: bool): set<int> { if fp4 then {64, 128} else {32, 64, 128} }

  // The launch

  const SM100_SMEM: int := 232448

  datatype Launch = Launch(gridX: int, threads: int, smemSize: int)

  function KvStages(fp4: bool): int { if fp4 then 10 else 5 }

  /** Three stages of each operand, float weights and scales, and the barriers. */
  function Sm90LogitsSmem(blockQ: int, heads: int, dim: int): int {
    3 * (blockQ * heads * dim) + 3 * (256 * dim) + 3 * (blockQ * heads * 4) + 3 * (256 * 4)
    + (3 * 2 + 3 * 2 + 512 / 128 * 2) * 8 + 4
  }

  /** One query pipeline and a key pipeline for each of four warp groups, aligned to the swizzle. */
  function Sm90PagedSmem(nextN: int, heads: int, dim: int, blockKv: int): int
    requires dim > 0
  {
    var alignment := dim * 8;
    var query := 3 * (nextN * heads * dim + AlignUp(nextN * heads * 4, alignment)) + AlignUp(3 * 8 * 2, alignment);
    var keys := 3 * (blockKv * dim + AlignUp(blockKv * 4, alignment)) + AlignUp(3 * 8 * 2, alignment);
    query + 4 * keys + 4 * 2 * 8 + 4
  }

  function LaunchOf(c: Call): Launch
    requires Accepted(c)
  {
    match c
    case Sm90Logits(heads, dim, _, _, sms) => Launch(sms, 128 + 512, Sm90LogitsSmem(128 / heads, heads, dim))
    case Sm100Logits(_, _, _, _, _, _, sms) => Launch(sms, 128 + 256, SM100_SMEM)
    case CleanLogits(_, sms) => Launch(sms, 8 * 32, 8192 * 4)
    case Sm90Metadata(batch, varlen, _) =>
      var aligned := AlignUp(batch, 32);
      Launch(1, 32, (if varlen then 3 * aligned + 1 else aligned) * 4)
    case Sm100Metadata(batch, _, _, _) => Launch(1, 256, 2 * batch * 4)
    case Sm90Paged(nextN, heads, dim, blockKv, _, sms) =>
      Launch(sms, 128 + 512, Sm90PagedSmem(nextN, heads, dim, blockKv))
    case Sm100Paged(_, _, _, _, _, _, _, _, sms) => Launch(sms, 128 + 256, SM100_SMEM)
  }

  /** The launches of compute capability 9 stay within the capacity that those of compute capability
      10 ask for outright. */
  lemma SharedMemoryFits(c: Call)
    requires Accepted(c) && !c.Sm90Metadata? && !c.Sm100Metadata?
    ensures 0 < LaunchOf(c).smemSize <= SM100_SMEM
  {
    if c.Sm90Logits? {
      BlockOfHeads(c.heads);
      assert 128 / c.heads * c.heads == 128;
    } else if c.Sm90Paged? {
      PagedFits(c.nextN, c.heads, c.dim);
    }
  }

  lemma BlockOfHeads(heads: int)
    requires heads in {8, 16, 32, 64}
    ensures 128 / heads * heads == 128
  {
  }

  lemma AlignUpBelow(value: int, alignment: int)
    requires value >= 0 && alignment > 0
    ensures 0 <= AlignUp(value, alignment) < value + alignment
  {
  }

  lemma PagedFits(nextN: int, heads: int, dim: int)
    requires nextN in {1, 2} && heads in {32, 64} && dim in {32, 64, 128}
    ensures 0 < Sm90PagedSmem(nextN, heads, dim, 64) <= SM100_SMEM
  {
    AlignUpBelow(nextN * heads * 4, dim * 8);
    AlignUpBelow(64 * 4, dim * 8);
    AlignUpBelow(48, dim * 8);
    assert nextN * heads <= 128;
  }

  // The text

  const COMMA: string := ", "
  const LINE: string := ",\n        "
  const END: string := "\n    >);\n};\n"

  /** The lines before the thread counts. */
  function Shape(c: Call): seq<Piece>
    requires Accepted(c)
  {
    match c
    case Sm90Logits(heads, dim, compressed, _, sms) =>
      [ Num(heads), Num(dim), Flag(compressed), Num(128 / heads), Num(256), Num(3), Num(3), Num(sms) ]
    case Sm100Logits(fp4, heads, dim, compressed, _, _, sms) =>
      [ Flag(fp4), Num(heads), Num(dim), Flag(compressed), Num(128 / heads), Num(256), Num(3), Num(KvStages(fp4)),
        Num(sms) ]
    case CleanLogits(logits, _) => [ Num(1), Num(8192), Num(8), Type(logits) ]
    case Sm90Metadata(batch, varlen, sms) => [ Num(AlignUp(batch, 32)), Num(256), Num(sms), Flag(varlen) ]
    case Sm100Metadata(_, nextN, varlen, sms) => [ Num(nextN), Flag(true), Flag(varlen), Num(256), Num(sms) ]
    case Sm90Paged(nextN, heads, dim, blockKv, _, _) =>
      [ Num(nextN), Num(heads), Num(dim), Num(blockKv), Flag(true), Flag(false), Num(3), Num(3), Num(256) ]
    case Sm100Paged(fp4, nextN, heads, dim, pageKv, varlen, _, _, _) =>
      [ Flag(fp4), Num(nextN), Num(heads), Num(dim), Num(pageKv), Flag(true), Flag(varlen), Num(3),
        Num(KvStages(fp4)), Num(256), Num(16) ]
  }

  /** The thread counts and the element types, in the kernels that print them last. */
  function Types(c: Call): seq<Piece> {
    match c
    case Sm90Logits(_, _, _, logits, _) => [ Num(128), Num(512), Type(logits) ]
    case Sm100Logits(_, _, _, _, logits, weights, _) => [ Num(128), Num(256), Type(logits), Type(weights) ]
    case Sm90Paged(_, _, _, _, logits, _) => [ Num(128), Num(512), Type(logits) ]
    case Sm100Paged(_, _, _, _, _, _, logits, weights, _) => [ Num(128), Num(256), Type(logits), Type(weights) ]
    case _ => []
  }

  function ShapeSeparators(c: Call): (r: seq<string>)
    requires Accepted(c)
    ensures |r| == |Shape(c)|
  {
    match c
    case Sm90Logits(_, _, _, _, _) => [ COMMA, LINE, LINE, COMMA, LINE, COMMA, LINE, LINE ]
    case Sm100Logits(_, _, _, _, _, _, _) => [ LINE, COMMA, LINE, LINE, COMMA, LINE, COMMA, LINE, LINE ]
    case CleanLogits(_, _) => [ COMMA, COMMA, COMMA, END ]
    case Sm90Metadata(_, _, _) => [ COMMA, COMMA, COMMA, END ]
    case Sm100Metadata(_, _, _, _) => [ COMMA, COMMA, COMMA + "1" + COMMA, COMMA, END ]
    case Sm90Paged(_, _, _, _, _, _) => [ COMMA, LINE, COMMA, LINE, COMMA, LINE, COMMA, LINE, LINE ]
    case Sm100Paged(_, _, _, _, _, _, _, _, _) =>
      [ LINE, COMMA, LINE, COMMA, LINE, COMMA, LINE, COMMA, LINE, COMMA, LINE ]
  }

  function TypeSeparators(c: Call): (r: seq<string>)
    ensures |r| == |Types(c)|
  {
    match c
    case Sm90Logits(_, _, _, _, _) => [ COMMA, LINE, END ]
    case Sm100Logits(_, _, _, _, _, _, _) => [ COMMA, LINE, LINE, END ]
    case Sm90Paged(_, _, _, _, _, _) => [ COMMA, LINE, END ]
    case Sm100Paged(_, _, _, _, _, _, _, _, _) => [ COMMA, LINE, LINE, END ]
    case _ => []
  }

  function Values(c: Call): seq<Piece>
    requires Accepted(c)
  {
    Shape(c) + Types(c)
  }

  function Separators(c: Call): (r: seq<string>)
    requires Accepted(c)
    ensures |r| == |Values(c)|
  {
    ShapeSeparators(c) + TypeSeparators(c)
  }

  /** What names a kernel: the header included and the function instantiated. */
  function Header(c: Call): string {
    match c
    case Sm90Logits(_, _, _, _, _) => "impls/sm90_fp8_" + "mqa_logits"
    case Sm100Logits(_, _, _, _, _, _, _) => "impls/sm100_" + "mqa_logits"
    case CleanLogits(_, _) => "impls/smxx_" + "clean_logits"
    case Sm90Metadata(_, _, _) => "scheduler/sm90_" + "paged_mqa_logits"
    case Sm100Metadata(_, _, _, _) => "scheduler/sm100_" + "paged_mqa_logits"
    case Sm90Paged(_, _, _, _, _, _) => "impls/sm90_fp8_" + "paged_mqa_logits"
    case Sm100Paged(_, _, _, _, _, _, _, _, _) => "impls/sm100_" + "mqa_logits"
  }

  function Function(c: Call): string {
    match c
    case Sm90Logits(_, _, _, _, _) => "sm90_fp8_" + "mqa_logits"
    case Sm100Logits(_, _, _, _, _, _, _) => "sm100_" + "mqa_logits"
    case CleanLogits(_, _) => "smxx_" + "clean_logits"
    case Sm90Metadata(_, _, _) => "sched::sm90_" + "paged_mqa_logits" + "_metadata"
    case Sm100Metadata(_, _, _, _) => "sched::sm100_" + "paged_mqa_logits" + "_metadata"
    case Sm90Paged(_, _, _, _, _, _) => "sm90_fp8_" + "paged_mqa_logits"
    case Sm100Paged(_, _, _, _, _, _, _, _, _) => "sm100_" + "paged_mqa_logits"
  }

  function Text(f: Frame, c: Call): string
    requires Accepted(c)
  {
    Opening(f, Header(c), Function(c)) + Render(Interleave(Values(c), Separators(c)))
  }

  // What the text keeps

  predicate SameKernel(c: Call, d: Call) {
    match c
    case Sm90Logits(_, _, _, _, _) => d.Sm90Logits?
    case Sm100Logits(_, _, _, _, _, _, _) => d.Sm100Logits?
    case CleanLogits(_, _) => d.CleanLogits?
    case Sm90Metadata(_, _, _) => d.Sm90Metadata?
    case Sm100Metadata(_, _, _, _) => d.Sm100Metadata?
    case Sm90Paged(_, _, _, _, _, _) => d.Sm90Paged?
    case Sm100Paged(_, _, _, _, _, _, _, _, _) => d.Sm100Paged?
  }

  /** A call without what its text omits: the SM count of the cleaning and the paged kernels, the batch
      of the capability-10 metadata, and all but the aligned batch of the capability-9 metadata. */
  function Printed(c: Call): Call {
    match c
    case Sm90Logits(_, _, _, _, _) => c
    case Sm100Logits(_, _, _, _, _, _, _) => c
    case CleanLogits(logits, _) => CleanLogits(logits, 0)
    case Sm90Metadata(batch, varlen, sms) => Sm90Metadata(AlignUp(batch, 32), varlen, sms)
    case Sm100Metadata(_, nextN, varlen, sms) => Sm100Metadata(0, nextN, varlen, sms)
    case Sm90Paged(nextN, heads, dim, blockKv, logits, _) => Sm90Paged(nextN, heads, dim, blockKv, logits, 0)
    case Sm100Paged(fp4, nextN, heads, dim, pageKv, varlen, logits, weights, _) =>
      Sm100Paged(fp4, nextN, heads, dim, pageKv, varlen, logits, weights, 0)
  }

  lemma OpeningCharacters(f: Frame, header: string, name: string, rest: string, i: nat)
    ensures i < |header| ==> |f.before| + i < |Opening(f, header, name) + rest|
                             && (Opening(f, header, name) + rest)[|f.before| + i] == header[i]
    ensures var at := |f.before| + |header| + |f.between| + i;
            i < |name| ==> at < |Opening(f, header, name) + rest| && (Opening(f, header, name) + rest)[at] == name[i]
  {
    var front := f.before + header;
    if i < |header| {
      assert front[|f.before| + i] == header[i];
    }
    var middle := front + f.between;
    if i < |name| {
      assert (middle + name)[|middle| + i] == name[i];
    }
  }

  /** Two texts that open alike name kernels whose headers agree wherever both have a character. */
  lemma HeadersAgree(f: Frame, c: Call, d: Call, i: nat)
    requires Accepted(c) && Accepted(d) && Text(f, c) == Text(f, d)
    requires i < |Header(c)| && i < |Header(d)|
    ensures Header(c)[i] == Header(d)[i]
  {
    OpeningCharacters(f, Header(c), Function(c), Render(Interleave(Values(c), Separators(c))), i);
    OpeningCharacters(f, Header(d), Function(d), Render(Interleave(Values(d), Separators(d))), i);
  }

  lemma FunctionsAgree(f: Frame, c: Call, d: Call, i: nat)
    requires Accepted(c) && Accepted(d) && Text(f, c) == Text(f, d) && |Header(c)| == |Header(d)|
    requires i < |Function(c)| && i < |Function(d)|
    ensures Function(c)[i] == Function(d)[i]
  {
    OpeningCharacters(f, Header(c), Function(c), Render(Interleave(Values(c), Separators(c))), i);
    OpeningCharacters(f, Header(d), Function(d), Render(Interleave(Values(d), Separators(d))), i);
  }

  /** The characters that tell the kernels apart. */
  lemma HeaderMarks(c: Call)
    ensures |Header(c)| > 15
    ensures Header(c)[0] == 's' <==> c.Sm90Metadata? || c.Sm100Metadata?
    ensures Header(c)[8] == '9' <==> c.Sm90Logits? || c.Sm90Paged?
    ensures Header(c)[8] == 'x' <==> c.CleanLogits?
    ensures Header(c)[12] == '9' <==> c.Sm90Metadata?
    ensures c.Sm90Logits? ==> Header(c)[15] == 'm'
    ensures c.Sm90Paged? ==> Header(c)[15] == 'p'
  {
  }

  lemma FunctionMarks(c: Call)
    requires c.Sm100Logits? || c.Sm100Paged?
    ensures |Header(c)| == 22 && |Function(c)| > 6
    ensures Function(c)[6] == 'm' <==> c.Sm100Logits?
  {
  }

  lemma KernelDetermined(f: Frame, c: Call, d: Call)
    requires Accepted(c) && Accepted(d) && Text(f, c) == Text(f, d)
    ensures SameKernel(c, d)
  {
    HeaderMarks(c);
    HeaderMarks(d);
    HeadersAgree(f, c, d, 0);
    HeadersAgree(f, c, d, 8);
    HeadersAgree(f, c, d, 12);
    HeadersAgree(f, c, d, 15);
    if (c.Sm100Logits? || c.Sm100Paged?) && (d.Sm100Logits? || d.Sm100Paged?) {
      FunctionMarks(c);
      FunctionMarks(d);
      FunctionsAgree(f, c, d, 6);
    }
  }

  predicate IsLiteral(s: string) { s == COMMA || s == LINE || s == END || s == COMMA + "1" + COMMA }

  lemma LiteralsStop(s: string)
    requires IsLiteral(s)
    ensures |s| > 0 && !IsNumeral(s[0])
  {
    assert COMMA[0] == ',' && LINE[0] == ',' && END[0] == '\n' && (COMMA + "1" + COMMA)[0] == ',';
  }

  lemma ShapeLiterals(c: Call)
    requires Accepted(c)
    ensures forall i :: 0 <= i < |ShapeSeparators(c)| ==> IsLiteral(ShapeSeparators(c)[i])
  {
  }

  lemma TypeLiterals(c: Call)
    ensures forall i :: 0 <= i < |TypeSeparators(c)| ==> IsLiteral(TypeSeparators(c)[i])
  {
  }

  lemma SeparatorsStop(c: Call)
    requires Accepted(c)
    ensures TextTemplate.Separators(Separators(c))
  {
    ShapeLiterals(c);
    TypeLiterals(c);
    var seps := Separators(c);
    forall i | 0 <= i < |seps| ensures |seps[i]| > 0 && !IsNumeral(seps[i][0]) {
      LiteralsStop(seps[i]);
    }
  }

  lemma Sm90ShapeSameKinds(c: Call, d: Call)
    requires Accepted(c) && Accepted(d) && SameKernel(c, d) && !c.Sm100Logits? && !c.Sm100Paged?
    ensures SameKinds(Shape(c), Shape(d))
  {
  }

  lemma Sm100ShapeSameKinds(c: Call, d: Call)
    requires Accepted(c) && Accepted(d) && SameKernel(c, d) && (c.Sm100Logits? || c.Sm100Paged?)
    ensures SameKinds(Shape(c), Shape(d))
  {
  }

  lemma ShapeSameKinds(c: Call, d: Call)
    requires Accepted(c) && Accepted(d) && SameKernel(c, d)
    ensures SameKinds(Shape(c), Shape(d))
  {
    if c.Sm100Logits? || c.Sm100Paged? {
      Sm100ShapeSameKinds(c, d);
    } else {
      Sm90ShapeSameKinds(c, d);
    }
  }

  lemma TypesSameKinds(c: Call, d: Call)
    requires SameKernel(c, d)
    ensures SameKinds(Types(c), Types(d))
  {
  }

  lemma SameKindsAppend(p: seq<Piece>, q: seq<Piece>, s: seq<Piece>, t: seq<Piece>)
    requires SameKinds(p, q) && SameKinds(s, t)
    ensures SameKinds(p + s, q + t)
    ensures p + s == q + t <==> p == q && s == t
  {
    if p + s == q + t {
      assert (p + s)[..|p|] == p && (q + t)[..|p|] == q;
      assert (p + s)[|p|..] == s && (q + t)[|p|..] == t;
    }
  }

  lemma KernelFixesTheRest(c: Call, d: Call)
    requires Accepted(c) && Accepted(d) && SameKernel(c, d)
    ensures Separators(c) == Separators(d) && Header(c) == Header(d) && Function(c) == Function(d)
  {
  }

  lemma LogitsValuesEqual(c: Call, d: Call)
    requires Accepted(c) && Accepted(d) && SameKernel(c, d) && (c.Sm90Logits? || c.Sm100Logits? || c.CleanLogits?)
    ensures Shape(c) == Shape(d) && Types(c) == Types(d) <==> Printed(c) == Printed(d)
  {
    var p, q, s, t := Shape(c), Shape(d), Types(c), Types(d);
    if p == q && s == t {
      assert p[0] == q[0] && p[1] == q[1] && p[2] == q[2] && p[3] == q[3];
      if c.Sm90Logits? {
        assert p[7] == q[7] && s[2] == t[2];
      } else if c.Sm100Logits? {
        assert p[8] == q[8] && s[2] == t[2] && s[3] == t[3];
      }
    }
  }

  lemma MetadataValuesEqual(c: Call, d: Call)
    requires Accepted(c) && Accepted(d) && SameKernel(c, d) && (c.Sm90Metadata? || c.Sm100Metadata?)
    ensures Shape(c) == Shape(d) && Types(c) == Types(d) <==> Printed(c) == Printed(d)
  {
    var p, q := Shape(c), Shape(d);
    if p == q {
      assert p[0] == q[0] && p[2] == q[2] && p[3] == q[3];
      if c.Sm100Metadata? {
        assert p[4] == q[4];
      }
    }
  }

  lemma PagedValuesEqual(c: Call, d: Call)
    requires Accepted(c) && Accepted(d) && SameKernel(c, d) && (c.Sm90Paged? || c.Sm100Paged?)
    ensures Shape(c) == Shape(d) && Types(c) == Types(d) <==> Printed(c) == Printed(d)
  {
    var p, q, s, t := Shape(c), Shape(d), Types(c), Types(d);
    if p == q && s == t {
      assert p[0] == q[0] && p[1] == q[1] && p[2] == q[2] && p[3] == q[3] && s[2] == t[2];
      if c.Sm100Paged? {
        assert p[4] == q[4] && p[6] == q[6] && s[3] == t[3];
      }
    }
  }

  /** The insertions of two calls of one kernel are of the same kinds, and equal exactly when the calls
      print alike. */
  lemma ValuesEqual(c: Call, d: Call)
    requires Accepted(c) && Accepted(d) && SameKernel(c, d)
    ensures SameKinds(Values(c), Values(d))
    ensures Values(c) == Values(d) <==> Printed(c) == Printed(d)
  {
    ShapeSameKinds(c, d);
    TypesSameKinds(c, d);
    SameKindsAppend(Shape(c), Shape(d), Types(c), Types(d));
    if c.Sm90Logits? || c.Sm100Logits? || c.CleanLogits? {
      LogitsValuesEqual(c, d);
    } else if c.Sm90Metadata? || c.Sm100Metadata? {
      MetadataValuesEqual(c, d);
    } else {
      PagedValuesEqual(c, d);
    }
  }

  lemma KernelsOfEqualPrints(c: Call, d: Call)
    requires Printed(c) == Printed(d)
    ensures SameKernel(c, d)
  {
  }

  /** Two accepted calls, of whatever kernels, have the same text exactly when they agree on everything
      but the omissions listed at `Printed`. */
  lemma TextDeterminesPrinted(f: Frame, c: Call, d: Call)
    requires Accepted(c) && Accepted(d)
    ensures Text(f, c) == Text(f, d) <==> Printed(c) == Printed(d)
  {
    if Text(f, c) == Text(f, d) {
      KernelDetermined(f, c, d);
      KernelFixesTheRest(c, d);
      ValuesEqual(c, d);
      SeparatorsStop(c);
      FieldsDetermined(Opening(f, Header(c), Function(c)), Values(c), Values(d), Separators(c));
    } else if Printed(c) == Printed(d) {
      KernelsOfEqualPrints(c, d);
      KernelFixesTheRest(c, d);
      ValuesEqual(c, d);
    }
  }

  /** A text generated for an accepted call, with the repository's own words around the names. */
  predicate Generated(text: string, c: Call) { Accepted(c) && text == Text(RepositoryFrame(), c) }

  lemma SourceOfRepository(text: string, c: Call, d: Call)
    requires Generated(text, c) && Generated(text, d)
    ensures Printed(c) == Printed(d)
  {
    TextDeterminesPrinted(RepositoryFrame(), c, d);
  }

  /** Calls with one text launch with the same threads, and with the same shared memory and grid but
      for the kernels whose text leaves these open: there they agree exactly when the omitted batch, or
      SM count, does. */
  lemma TextDeterminesLaunch(f: Frame, c: Call, d: Call)
    requires Accepted(c) && Accepted(d) && Text(f, c) == Text(f, d)
    ensures SameKernel(c, d) && LaunchOf(c).threads == LaunchOf(d).threads
    ensures LaunchOf(c).smemSize == LaunchOf(d).smemSize <==> (c.Sm100Metadata? ==> c.batch == d.batch)
    ensures LaunchOf(c).gridX == LaunchOf(d).gridX
            <==> (c.CleanLogits? || c.Sm90Paged? || c.Sm100Paged? ==> c.sms == d.sms)
  {
    TextDeterminesPrinted(f, c, d);
    KernelsOfEqualPrints(c, d);
  }

  /** Both exceptions occur. */
  lemma TextLeavesOpen(f: Frame)
    ensures exists c, d :: Accepted(c) && Accepted(d) && Text(f, c) == Text(f, d)
                           && LaunchOf(c).smemSize != LaunchOf(d).smemSize
    ensures exists c, d :: Accepted(c) && Accepted(d) && Text(f, c) == Text(f, d)
                           && LaunchOf(c).gridX != LaunchOf(d).gridX
  {
    var c, d := Sm100Metadata(1, 1, false, 132), Sm100Metadata(2, 1, false, 132);
    TextDeterminesPrinted(f, c, d);
    assert LaunchOf(c).smemSize != LaunchOf(d).smemSize;
    var x, y := CleanLogits(Float, 1), CleanLogits(Float, 2);
    TextDeterminesPrinted(f, x, y);
    assert LaunchOf(x).gridX != LaunchOf(y).gridX;
  }
}
