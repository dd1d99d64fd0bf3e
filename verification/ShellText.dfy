/** Quoting of path strings for the shell, the compile command assembled from them, and the
    token recognition that the shell applies to it: sections 2.2.2 (single quotes), 2.2.3
    (double quotes) and 2.3 (token recognition) of the Shell Command Language in
    IEEE Std 1003.1-2017, restricted to the constructs that involve no expansion. */
module ShellText {
  import opened TextTemplate
  import opened Wrappers

  /** Words, the operators `&&` and `>&`, and the number of the descriptor that a redirection names. */
  datatype Token = Word(text: string) | AndIf | IoNumber(digits: string) | GreatAnd

  datatype Mode = Plain | Single | Double

  const NUL: char := 0 as char

  const ESCAPED_QUOTE: string := "'\"'\"'"

  /** Characters that stand for themselves outside quotes in any position of a word. */
  predicate IsBare(c: char) {
    ('a' <= c <= 'z') || ('A' <= c <= 'Z') || IsNumeral(c)
    || c in {'=', '+', ',', '_', '.', '/', ':'}
  }

  /** A lone digit is not a word yet: a redirection may follow it. */
  predicate IsLoneDigit(s: string) { |s| == 1 && IsDigit(s[0]) }

  predicate IsBareText(s: string) { forall i :: 0 <= i < |s| ==> IsBare(s[i]) }

  function Extend(word: Option<string>, s: string): Option<string> {
    Some((if word.Some? then word.value else "") + s)
  }

  function Emit(word: Option<string>): seq<Token> {
    if word.Some? then [Word(word.value)] else []
  }

  function Prepend(tokens: seq<Token>, rest: Option<seq<Token>>): Option<seq<Token>> {
    if rest.Some? then Some(tokens + rest.value) else None
  }

  /** Token recognition from a given quoting mode and partial word. The result is None when a
      quote is left open or when a character calls for an expansion, or for a redirection other
      than duplicating the output of a one-digit descriptor. */
  function Lex(s: string, mode: Mode, word: Option<string>): Option<seq<Token>>
    decreases |s|
  {
    if s == "" then (if mode == Plain then Some(Emit(word)) else None)
    else
      var c, rest := s[0], s[1..];
      match mode
      case Single =>
        if c == '\'' then Lex(rest, Plain, word) else Lex(rest, Single, Extend(word, [c]))
      case Double =>
        if c == '"' then Lex(rest, Plain, word)
        else if c == '$' || c == '`' || c == '\\' then None
        else Lex(rest, Double, Extend(word, [c]))
      case Plain =>
        if c == '\'' then Lex(rest, Single, Extend(word, ""))
        else if c == '"' then Lex(rest, Double, Extend(word, ""))
        else if c == ' ' then Prepend(Emit(word), Lex(rest, Plain, None))
        else if c == '&' && |rest| > 0 && rest[0] == '&' then
          Prepend(Emit(word) + [AndIf], Lex(rest[1..], Plain, None))
        else if IsDigit(c) && word.None? && |rest| > 1 && rest[0] == '>' && rest[1] == '&' then
          Prepend([IoNumber([c]), GreatAnd], Lex(rest[2..], Plain, None))
        else if IsBare(c) then Lex(rest, Plain, Extend(word, [c]))
        else None
  }

  /** What the C library sees of a string passed as `c_str()`. */
  function CString(s: string): string {
    if s == "" || s[0] == NUL then "" else [s[0]] + CString(s[1..])
  }

  /** The quoted form between its outer quotes. */
  function QuoteBody(s: string): string {
    if s == "" then ""
    else (if s[0] == '\'' then ESCAPED_QUOTE else [s[0]]) + QuoteBody(s[1..])
  }

  function Quote(s: string): string { "'" + QuoteBody(s) + "'" }

  lemma {:induction false} QuoteBodyAppend(a: string, b: string)
    ensures QuoteBody(a + b) == QuoteBody(a) + QuoteBody(b)
  {
    if a == "" {
      assert a + b == b;
    } else {
      assert (a + b)[1..] == a[1..] + b;
      QuoteBodyAppend(a[1..], b);
    }
  }

  /** The accumulator loop of `shell_quote`. */
  method ShellQuote(value: string) returns (out: string)
    ensures out == Quote(value)
  {
    out := "'";
    for i := 0 to |value|
      invariant out == "'" + QuoteBody(value[..i])
    {
      var c := value[i];
      assert value[..i + 1] == value[..i] + [c];
      QuoteBodyAppend(value[..i], [c]);
      assert [c][1..] == "";
      if c == '\'' {
        out := out + ESCAPED_QUOTE;
      } else {
        out := out + [c];
      }
    }
    assert value[..|value|] == value;
    out := out + "'";
  }

  /** An embedded quote closes the quoting, contributes one quoted quote, and reopens it. */
  lemma EscapedQuoteReads(w: string, rest: string)
    ensures Lex(ESCAPED_QUOTE + rest, Single, Some(w)) == Lex(rest, Single, Some(w + "'"))
  {
    var s := ESCAPED_QUOTE + rest;
    var s1, s2, s3, s4, s5 := s[1..], s[2..], s[3..], s[4..], s[5..];
    assert s1[1..] == s2 && s2[1..] == s3 && s3[1..] == s4 && s4[1..] == s5 && s5 == rest;
    assert Lex(s, Single, Some(w)) == Lex(s1, Plain, Some(w));
    assert Lex(s1, Plain, Some(w)) == Lex(s2, Double, Some(w + ""));
    assert w + "" == w;
    assert Lex(s2, Double, Some(w)) == Lex(s3, Double, Some(w + "'"));
    assert Lex(s3, Double, Some(w + "'")) == Lex(s4, Plain, Some(w + "'"));
    assert w + "'" + "" == w + "'";
    assert Lex(s4, Plain, Some(w + "'")) == Lex(rest, Single, Some(w + "'"));
  }

  /** Inside single quotes the body spells exactly the original string, whatever follows. */
  lemma {:induction false} QuoteBodyReads(s: string, w: string, rest: string)
    ensures Lex(QuoteBody(s) + rest, Single, Some(w)) == Lex(rest, Single, Some(w + s))
    decreases |s|
  {
    if s == "" {
      assert QuoteBody(s) + rest == rest && w + s == w;
    } else {
      var tail := QuoteBody(s[1..]) + rest;
      assert w + s == (w + [s[0]]) + s[1..];
      if s[0] == '\'' {
        assert QuoteBody(s) + rest == ESCAPED_QUOTE + tail;
        EscapedQuoteReads(w, tail);
      } else {
        assert QuoteBody(s) + rest == [s[0]] + tail;
      }
      QuoteBodyReads(s[1..], w + [s[0]], rest);
    }
  }

  /** A text that, read outside quotes, completes some tokens and leaves a partial word,
      independently of what comes after it. */
  ghost predicate Reads(text: string, before: Option<string>, tokens: seq<Token>, after: Option<string>) {
    forall rest {:trigger Lex(text + rest, Plain, before)} ::
      Lex(text + rest, Plain, before) == Prepend(tokens, Lex(rest, Plain, after))
  }

  lemma ReadsThen(a: string, b: string, w0: Option<string>, w1: Option<string>, w2: Option<string>,
                  s: seq<Token>, t: seq<Token>)
    requires Reads(a, w0, s, w1) && Reads(b, w1, t, w2)
    ensures Reads(a + b, w0, s + t, w2)
  {
    forall rest
      ensures Lex(a + b + rest, Plain, w0) == Prepend(s + t, Lex(rest, Plain, w2))
    {
      assert a + b + rest == a + (b + rest);
      assert Lex(a + (b + rest), Plain, w0) == Prepend(s, Lex(b + rest, Plain, w1));
      var r := Lex(rest, Plain, w2);
      if r.Some? { assert s + (t + r.value) == s + t + r.value; }
    }
  }

  lemma ReadsQuoted(s: string, before: Option<string>)
    ensures Reads(Quote(s), before, [], Extend(before, s))
  {
    forall rest
      ensures Lex(Quote(s) + rest, Plain, before) == Prepend([], Lex(rest, Plain, Extend(before, s)))
    {
      var w := Extend(before, "").value;
      assert Quote(s) + rest == "'" + (QuoteBody(s) + ("'" + rest));
      QuoteBodyReads(s, w, "'" + rest);
      assert w == if before.Some? then before.value else "";
      var r := Lex(rest, Plain, Extend(before, s));
      assert ("'" + rest)[1..] == rest;
      if r.Some? { assert [] + r.value == r.value; }
    }
  }

  lemma {:induction false} BareReads(s: string, w: string, rest: string)
    requires IsBareText(s)
    ensures Lex(s + rest, Plain, Some(w)) == Lex(rest, Plain, Some(w + s))
    decreases |s|
  {
    if s == "" {
      assert s + rest == rest && w + s == w;
    } else {
      assert s + rest == [s[0]] + (s[1..] + rest);
      assert w + s == (w + [s[0]]) + s[1..];
      BareReads(s[1..], w + [s[0]], rest);
    }
  }

  lemma ReadsAll(text: string, tokens: seq<Token>, after: Option<string>)
    requires Reads(text, None, tokens, after)
    ensures Lex(text, Plain, None) == Some(tokens + Emit(after))
  {
    assert text + "" == text;
    assert Lex(text + "", Plain, None) == Prepend(tokens, Lex("", Plain, after));
  }

  ghost predicate NulFree(s: string) { NUL !in s }

  lemma {:induction false} CStringOfNulFree(s: string)
    requires NulFree(s)
    ensures CString(s) == s
  {
    if s != "" { CStringOfNulFree(s[1..]); }
  }

  lemma {:induction false} CStringCutsAtNul(a: string, b: string)
    requires NulFree(a)
    ensures CString(a + [NUL] + b) == a
  {
    if a == "" {
      assert (a + [NUL] + b)[0] == NUL;
    } else {
      assert (a + [NUL] + b)[1..] == a[1..] + [NUL] + b;
      CStringCutsAtNul(a[1..], b);
    }
  }

  lemma {:induction false} QuoteBodyNulFree(s: string)
    requires NulFree(s)
    ensures NulFree(QuoteBody(s))
  {
    if s != "" { QuoteBodyNulFree(s[1..]); }
  }

  lemma QuotedIsOneWord(s: string)
    requires NulFree(s)
    ensures Lex(CString(Quote(s)), Plain, None) == Some([Word(s)])
  {
    QuoteBodyNulFree(s);
    CStringOfNulFree(Quote(s));
    ReadsQuoted(s, None);
    ReadsAll(Quote(s), [], Extend(None, s));
    assert Extend(None, s) == Some(s) by { assert "" + s == s; }
    assert [] + Emit(Some(s)) == [Word(s)];
  }

  lemma QuotedNulIsUnterminated(a: string, b: string)
    requires NulFree(a)
    ensures Lex(CString(Quote(a + [NUL] + b)), Plain, None) == None
  {
    QuoteBodyAppend(a + [NUL], b);
    QuoteBodyAppend(a, [NUL]);
    assert [NUL][1..] == "";
    assert Quote(a + [NUL] + b) == ("'" + QuoteBody(a)) + [NUL] + (QuoteBody(b) + "'");
    QuoteBodyNulFree(a);
    CStringCutsAtNul("'" + QuoteBody(a), QuoteBody(b) + "'");
    var cut := "'" + QuoteBody(a);
    assert cut[1..] == QuoteBody(a) == QuoteBody(a) + "";
    QuoteBodyReads(a, "", "");
    assert Extend(None, "") == Some("") by { assert "" + "" == ""; }
  }

  /** Round trip through the shell: the quoted form is one word equal to the original exactly for
      strings without a NUL; with a NUL the shell sees an unterminated quote. */
  lemma QuoteRoundTrip(s: string)
    ensures NulFree(s) <==> Lex(CString(Quote(s)), Plain, None) == Some([Word(s)])
    ensures !NulFree(s) <==> Lex(CString(Quote(s)), Plain, None) == None
  {
    if NulFree(s) {
      QuotedIsOneWord(s);
    } else {
      var i := FirstNul(s);
      QuotedNulIsUnterminated(s[..i], s[i + 1..]);
      assert s == s[..i] + [NUL] + s[i + 1..];
    }
  }

  function FirstNul(s: string): (i: nat)
    requires !NulFree(s)
    ensures i < |s| && s[i] == NUL && NulFree(s[..i])
  {
    if s[0] == NUL then 0
    else
      var i := 1 + FirstNul(s[1..]);
      assert s[..i] == [s[0]] + s[1..][..i - 1];
      i
  }

  /** One space-separated piece of a command line. */
  datatype Part =
    | Bare(text: string)
    | Quoted(prefix: string, path: string)
    | AndAnd

  function PartText(p: Part): string {
    match p
    case Bare(text) => text
    case Quoted(prefix, path) => prefix + Quote(path)
    case AndAnd => "&&"
  }

  /** The token a piece is meant to be. */
  function PartToken(p: Part): Token {
    match p
    case Bare(text) => Word(text)
    case Quoted(prefix, path) => Word(prefix + path)
    case AndAnd => AndIf
  }

  ghost predicate PlainPart(p: Part) {
    match p
    case Bare(text) => IsBareText(text) && text != "" && !IsLoneDigit(text)
    case Quoted(prefix, path) => IsBareText(prefix) && !IsLoneDigit(prefix)
    case AndAnd => true
  }

  function Line(ps: seq<Part>): string {
    if |ps| == 0 then ""
    else if |ps| == 1 then PartText(ps[0])
    else Line(ps[..|ps| - 1]) + (" " + PartText(ps[|ps| - 1]))
  }

  function Argv(ps: seq<Part>): seq<Token> {
    seq(|ps|, i requires 0 <= i < |ps| => PartToken(ps[i]))
  }

  /** After reading a piece the operator is complete, while a word may still be extended. */
  function Finished(p: Part): seq<Token> { if p.AndAnd? then [AndIf] else [] }

  function Pending(p: Part): Option<string> {
    if p.AndAnd? then None else Some(PartToken(p).text)
  }

  lemma PartReads(p: Part)
    requires PlainPart(p)
    ensures Reads(PartText(p), None, Finished(p), Pending(p))
  {
    match p {
      case Bare(text) => ReadsBareWord(text);
      case Quoted(prefix, path) => ReadsOption(prefix, path);
      case AndAnd =>
        forall rest ensures Lex("&&" + rest, Plain, None) == Prepend([AndIf], Lex(rest, Plain, None)) {
          var s := "&&" + rest;
          assert s[1..] == "&" + rest && s[1..][1..] == rest;
          assert Emit(None) + [AndIf] == [AndIf];
        }
    }
  }

  /** A quoted path, possibly glued to a bare option prefix, is one word. */
  lemma ReadsOption(prefix: string, path: string)
    requires IsBareText(prefix) && !IsLoneDigit(prefix)
    ensures Reads(prefix + Quote(path), None, [], Some(prefix + path))
  {
    if prefix == "" {
      ReadsQuoted(path, None);
      assert prefix + Quote(path) == Quote(path) && prefix + path == path;
      assert Extend(None, path) == Some(path) by { assert "" + path == path; }
    } else {
      ReadsBareWord(prefix);
      ReadsQuoted(path, Some(prefix));
      ReadsThen(prefix, Quote(path), None, Some(prefix), Some(prefix + path), [], []);
    }
  }

  lemma ReadsBareWord(word: string)
    requires IsBareText(word) && word != "" && !IsLoneDigit(word)
    ensures Reads(word, None, [], Some(word))
  {
    forall rest ensures Lex(word + rest, Plain, None) == Prepend([], Lex(rest, Plain, Some(word))) {
      assert word + rest == [word[0]] + (word[1..] + rest);
      assert |word| > 1 ==> (word[1..] + rest)[0] == word[1];
      BareReads(word[1..], [word[0]], rest);
      assert Extend(None, [word[0]]) == Some([word[0]]) by { assert "" + [word[0]] == [word[0]]; }
      assert [word[0]] + word[1..] == word;
      var r := Lex(rest, Plain, Some(word));
      if r.Some? { assert [] + r.value == r.value; }
    }
  }

  /** A space completes the piece before it, and the next piece is read from a clean state. */
  lemma ThenPart(text: string, tokens: seq<Token>, prev: Part, p: Part)
    requires Reads(text, None, tokens + Finished(prev), Pending(prev)) && PlainPart(p)
    ensures Reads(text + (" " + PartText(p)), None, tokens + [PartToken(prev)] + Finished(p), Pending(p))
  {
    var mid, emitted := Pending(prev), Emit(Pending(prev));
    PartReads(p);
    assert Reads(" ", mid, emitted, None);
    ReadsThen(" ", PartText(p), mid, None, Pending(p), emitted, Finished(p));
    ReadsThen(text, " " + PartText(p), None, mid, Pending(p), tokens + Finished(prev), emitted + Finished(p));
    assert tokens + Finished(prev) + (emitted + Finished(p)) == tokens + [PartToken(prev)] + Finished(p);
  }

  lemma {:induction false} LineReads(ps: seq<Part>)
    requires |ps| > 0 && forall p :: p in ps ==> PlainPart(p)
    ensures Reads(Line(ps), None, Argv(ps[..|ps| - 1]) + Finished(ps[|ps| - 1]), Pending(ps[|ps| - 1]))
  {
    var last := ps[|ps| - 1];
    if |ps| == 1 {
      PartReads(last);
      assert Argv(ps[..0]) + Finished(last) == Finished(last);
    } else {
      var front := ps[..|ps| - 1];
      var prev := front[|front| - 1];
      LineReads(front);
      ThenPart(Line(front), Argv(front[..|front| - 1]), prev, last);
      assert Argv(front) == Argv(front[..|front| - 1]) + [PartToken(prev)];
    }
  }

  lemma ArgvEnds(ps: seq<Part>)
    requires |ps| > 0
    ensures Argv(ps) == Argv(ps[..|ps| - 1]) + Finished(ps[|ps| - 1]) + Emit(Pending(ps[|ps| - 1]))
  {
    var last := ps[|ps| - 1];
    assert Finished(last) + Emit(Pending(last)) == [PartToken(last)];
    assert Argv(ps) == Argv(ps[..|ps| - 1]) + [PartToken(last)];
  }

  /** A command line of bare words, quoted paths and `&&` is recognised as exactly the words it was
      assembled from, for arbitrary path strings. */
  lemma LineLexes(ps: seq<Part>)
    requires forall p :: p in ps ==> PlainPart(p)
    ensures Lex(Line(ps), Plain, None) == Some(Argv(ps))
  {
    if |ps| > 0 {
      LineReads(ps);
      ArgvEnds(ps);
      ReadsAll(Line(ps), Argv(ps[..|ps| - 1]) + Finished(ps[|ps| - 1]), Pending(ps[|ps| - 1]));
    } else {
      assert Argv(ps) == [];
    }
  }

  const STDERR_TO_STDOUT: string := " 2>&1"

  lemma SpaceEndsWord(rest: string, word: Option<string>)
    ensures Lex(" " + rest, Plain, word) == Prepend(Emit(word), Lex(rest, Plain, None))
  {
    assert (" " + rest)[1..] == rest;
  }

  lemma DigitAloneLexes()
    ensures Lex("1", Plain, None) == Some([Word("1")])
  {
    assert "1"[1..] == "";
    assert Extend(None, "1") == Some("1") by { assert "" + "1" == "1"; }
    assert Lex("1", Plain, None) == Lex("", Plain, Some("1"));
  }

  lemma DuplicationLexes()
    ensures Lex("2>&1", Plain, None) == Some([IoNumber("2"), GreatAnd, Word("1")])
  {
    DigitAloneLexes();
    var s := "2>&1";
    assert s[1..][2..] == "1";
    assert Lex(s, Plain, None) == Prepend([IoNumber("2"), GreatAnd], Lex("1", Plain, None));
    assert [IoNumber("2"), GreatAnd] + [Word("1")] == [IoNumber("2"), GreatAnd, Word("1")];
  }

  lemma RedirectionLexes(word: Option<string>)
    ensures Lex(STDERR_TO_STDOUT, Plain, word) == Some(Emit(word) + [IoNumber("2"), GreatAnd, Word("1")])
  {
    assert STDERR_TO_STDOUT == " " + "2>&1";
    SpaceEndsWord("2>&1", word);
    DuplicationLexes();
  }

  /** A line with the suffix: the words of the line, then the redirection. */
  lemma RedirectedLineLexes(ps: seq<Part>)
    requires |ps| > 0 && forall p :: p in ps ==> PlainPart(p)
    ensures Lex(Line(ps) + STDERR_TO_STDOUT, Plain, None) == Some(Argv(ps) + [IoNumber("2"), GreatAnd, Word("1")])
  {
    LineReads(ps);
    ArgvEnds(ps);
    RedirectionLexes(Pending(ps[|ps| - 1]));
    ReadsInto(Line(ps), STDERR_TO_STDOUT, Argv(ps[..|ps| - 1]) + Finished(ps[|ps| - 1]), Pending(ps[|ps| - 1]),
              [IoNumber("2"), GreatAnd, Word("1")]);
  }

  lemma ReadsInto(text: string, rest: string, tokens: seq<Token>, after: Option<string>, more: seq<Token>)
    requires Reads(text, None, tokens, after) && Lex(rest, Plain, after) == Some(Emit(after) + more)
    ensures Lex(text + rest, Plain, None) == Some(tokens + Emit(after) + more)
  {
    assert Lex(text + rest, Plain, None) == Prepend(tokens, Lex(rest, Plain, after));
    assert tokens + (Emit(after) + more) == tokens + Emit(after) + more;
  }

  ghost predicate PathsNulFree(ps: seq<Part>) {
    forall p :: p in ps ==> p.Quoted? ==> NulFree(p.path)
  }

  lemma {:induction false} LineNulFree(ps: seq<Part>)
    requires PathsNulFree(ps) && forall p :: p in ps ==> PlainPart(p)
    ensures NulFree(Line(ps))
  {
    if |ps| > 0 {
      var last := ps[|ps| - 1];
      if last.Quoted? { QuoteBodyNulFree(last.path); }
      assert NulFree(PartText(last));
      LineNulFree(ps[..|ps| - 1]);
    }
  }

  /** Inputs of one compile: the directories are arbitrary strings, the switches environment variables
      read as integers, and the versions those of the compiler and the device. */
  datatype CompileSetup = CompileSetup(
    nvcc: string,
    includePath: string,
    cutlassInclude: string,
    cutlassUtilInclude: string,
    cppStandard: int,
    debug: int,
    ptxasVerbose: int,
    ptxasCheck: int,
    lineInfo: int,
    nvccMajor: int,
    nvccMinor: int,
    computeMajor: nat,
    computeMinor: nat)

  predicate SupportsArchFamily(c: CompileSetup) { c.nvccMajor > 12 || (c.nvccMajor == 12 && c.nvccMinor >= 9) }

  /** `nvcc_arch`: compute capability 10.x other than 10.1 is named by family where the compiler can. */
  function ArchSuffix(c: CompileSetup): string {
    if c.computeMajor == 10 && c.computeMinor != 1 then (if SupportsArchFamily(c) then "100f" else "100a")
    else Decimal(c.computeMajor * 10 + c.computeMinor) + "a"
  }

  function BaseFlags(c: CompileSetup): seq<Part> {
    [Bare("-std=c++" + Decimal(c.cppStandard)),
     Bare("--diag-suppress=39,161,174,177,186,940"),
     Bare("--ptxas-options=--register-usage-level=10")]
  }

  function OptionalFlags(c: CompileSetup): seq<Part> {
    (if c.debug != 0 || c.ptxasVerbose != 0 || c.ptxasCheck != 0
     then [Bare("--ptxas-options=--verbose" + ",--warn-on-local-memory-usage")] else [])
    + (if c.lineInfo != 0 then [Bare("-Xcompiler"), Bare("-rdynamic"), Bare("-lineinfo")] else [])
  }

  function IncludeFlags(c: CompileSetup): seq<Part> {
    [Quoted("-I", c.includePath), Quoted("-I", c.cutlassInclude), Quoted("-I", c.cutlassUtilInclude),
     Bare("--gpu-architecture=sm_" + ArchSuffix(c))]
  }

  function CodegenFlags(): seq<Part> {
    [Bare("--compiler-options=-fPIC,-O3" + ",-fconcepts" + ",-Wno-deprecated-declarations" + ",-Wno-abi"),
     Bare("-O3"), Bare("--expt-relaxed-constexpr"), Bare("--expt-extended-lambda")]
  }

  function CompilerFlags(c: CompileSetup): seq<Part> {
    BaseFlags(c) + OptionalFlags(c) + IncludeFlags(c) + CodegenFlags()
  }

  function CompileHead(nvcc: string, tmpRoot: string, codePath: string, cubinPath: string): seq<Part> {
    [Bare("cd"), Quoted("", tmpRoot), AndAnd, Quoted("", nvcc), Quoted("", codePath),
     Bare("-cubin"), Bare("-o"), Quoted("", cubinPath)]
  }

  function CompileCommand(c: CompileSetup, tmpRoot: string, codePath: string, cubinPath: string): string {
    Line(CompileHead(c.nvcc, tmpRoot, codePath, cubinPath) + CompilerFlags(c))
  }

  lemma BaseFlagsPlain(c: CompileSetup)
    ensures forall p :: p in BaseFlags(c) ==> PlainPart(p)
  {
    assert IsBareText("-std=c++");
    DiagnosticFlagPlain();
    RegisterFlagPlain();
  }

  lemma DiagnosticFlagPlain()
    ensures IsBareText("--diag-suppress=39,161,174,177,186,940")
  {
  }

  lemma RegisterFlagPlain()
    ensures IsBareText("--ptxas-options=--register-usage-level=10")
  {
  }

  lemma OptionalFlagsPlain(c: CompileSetup)
    ensures forall p :: p in OptionalFlags(c) ==> PlainPart(p)
  {
    VerboseFlagPlain();
    assert IsBareText("-Xcompiler") && IsBareText("-rdynamic") && IsBareText("-lineinfo");
  }

  lemma VerboseFlagPlain()
    ensures IsBareText("--ptxas-options=--verbose" + ",--warn-on-local-memory-usage")
  {
    assert IsBareText("--ptxas-options=--verbose");
    assert IsBareText(",--warn-on-local-memory-usage");
  }

  lemma IncludeFlagsPlain(c: CompileSetup)
    ensures forall p :: p in IncludeFlags(c) ==> PlainPart(p)
  {
    assert IsBareText("--gpu-architecture=sm_");
  }

  lemma BareConcat(a: string, b: string)
    requires IsBareText(a) && IsBareText(b)
    ensures IsBareText(a + b)
  {
  }

  lemma HostFlagsPlain()
    ensures IsBareText("--compiler-options=-fPIC,-O3" + ",-fconcepts" + ",-Wno-deprecated-declarations" + ",-Wno-abi")
  {
    var a, b, c, d := "--compiler-options=-fPIC,-O3", ",-fconcepts", ",-Wno-deprecated-declarations", ",-Wno-abi";
    BareConcat(a, b);
    BareConcat(a + b, c);
    BareConcat(a + b + c, d);
  }

  lemma DeviceFlagsPlain()
    ensures IsBareText("--expt-relaxed-constexpr") && IsBareText("--expt-extended-lambda")
  {
  }

  lemma CodegenFlagsPlain()
    ensures forall p :: p in CodegenFlags() ==> PlainPart(p)
  {
    HostFlagsPlain();
    DeviceFlagsPlain();
    forall p | p in CodegenFlags() ensures PlainPart(p) {
      var i :| 0 <= i < 4 && p == CodegenFlags()[i];
    }
  }

  lemma CompilerFlagsPlain(c: CompileSetup)
    requires NulFree(c.includePath) && NulFree(c.cutlassInclude) && NulFree(c.cutlassUtilInclude)
    ensures PathsNulFree(CompilerFlags(c))
    ensures forall p :: p in CompilerFlags(c) ==> PlainPart(p)
  {
    BaseFlagsPlain(c);
    OptionalFlagsPlain(c);
    IncludeFlagsPlain(c);
    CodegenFlagsPlain();
    PlainConcat(BaseFlags(c), OptionalFlags(c));
    PlainConcat(BaseFlags(c) + OptionalFlags(c), IncludeFlags(c));
    PlainConcat(BaseFlags(c) + OptionalFlags(c) + IncludeFlags(c), CodegenFlags());
  }

  lemma HeadPlain(nvcc: string, tmpRoot: string, codePath: string, cubinPath: string)
    ensures forall p :: p in CompileHead(nvcc, tmpRoot, codePath, cubinPath) ==> PlainPart(p)
  {
    assert IsBareText("cd") && IsBareText("-cubin") && IsBareText("-o");
  }

  lemma HeadArgv(nvcc: string, tmpRoot: string, codePath: string, cubinPath: string)
    ensures Argv(CompileHead(nvcc, tmpRoot, codePath, cubinPath))
         == [Word("cd"), Word(tmpRoot), AndIf, Word(nvcc), Word(codePath), Word("-cubin"), Word("-o"), Word(cubinPath)]
  {
    assert "" + tmpRoot == tmpRoot && "" + nvcc == nvcc && "" + codePath == codePath && "" + cubinPath == cubinPath;
  }

  lemma PlainConcat(head: seq<Part>, flags: seq<Part>)
    requires PathsNulFree(head) && forall p :: p in head ==> PlainPart(p)
    requires PathsNulFree(flags) && forall p :: p in flags ==> PlainPart(p)
    ensures PathsNulFree(head + flags) && forall p :: p in head + flags ==> PlainPart(p)
  {
  }

  lemma RedirectedLineNulFree(line: string)
    requires NulFree(line)
    ensures CString(line + STDERR_TO_STDOUT) == line + STDERR_TO_STDOUT
  {
    CStringOfNulFree(line + STDERR_TO_STDOUT);
  }

  lemma CommandLexes(head: seq<Part>, flags: seq<Part>)
    requires PathsNulFree(head) && forall p :: p in head ==> PlainPart(p)
    requires PathsNulFree(flags) && forall p :: p in flags ==> PlainPart(p)
    requires head != []
    ensures Lex(CString(Line(head + flags) + STDERR_TO_STDOUT), Plain, None)
         == Some(Argv(head) + Argv(flags) + [IoNumber("2"), GreatAnd, Word("1")])
  {
    PlainConcat(head, flags);
    LineAsCString(head + flags);
    ArgvAppend(head, flags);
  }

  lemma LineAsCString(ps: seq<Part>)
    requires |ps| > 0 && PathsNulFree(ps) && forall p :: p in ps ==> PlainPart(p)
    ensures Lex(CString(Line(ps) + STDERR_TO_STDOUT), Plain, None)
         == Some(Argv(ps) + [IoNumber("2"), GreatAnd, Word("1")])
  {
    LineNulFree(ps);
    RedirectedLineNulFree(Line(ps));
    RedirectedLineLexes(ps);
  }

  // What is intended

  /** The name by which the compiler is told the device: 9.0 and 10.1 by number, other 10.x by family from
      compiler 12.9 on and as 10.0 before; any other device by number. */
  predicate NamesDevice(c: CompileSetup, arch: string) {
    && (c.computeMajor == 9 && c.computeMinor == 0 ==> arch == "90a")
    && (c.computeMajor == 10 && c.computeMinor == 1 ==> arch == "101a")
    && (c.computeMajor == 10 && c.computeMinor != 1 ==>
          arch == if c.nvccMajor < 12 || (c.nvccMajor == 12 && c.nvccMinor <= 8) then "100a" else "100f")
    && (c.computeMajor != 9 && c.computeMajor != 10 ==> arch == Decimal(10 * c.computeMajor + c.computeMinor) + "a")
    && (c.computeMajor == 9 && c.computeMinor != 0 ==> arch == Decimal(90 + c.computeMinor) + "a")
  }

  function LanguageWords(c: CompileSetup): seq<Token> {
    [Word("-std=c++" + Decimal(c.cppStandard)),
     Word("--diag-suppress=39,161,174,177,186,940"),
     Word("--ptxas-options=--register-usage-level=10")]
  }

  function SwitchedWords(c: CompileSetup): seq<Token> {
    (if c.debug == 0 && c.ptxasVerbose == 0 && c.ptxasCheck == 0 then []
     else [Word("--ptxas-options=--verbose" + ",--warn-on-local-memory-usage")])
    + (if c.lineInfo == 0 then [] else [Word("-Xcompiler"), Word("-rdynamic"), Word("-lineinfo")])
  }

  function PlaceWords(c: CompileSetup, arch: string): seq<Token> {
    [Word("-I" + c.includePath), Word("-I" + c.cutlassInclude), Word("-I" + c.cutlassUtilInclude),
     Word("--gpu-architecture=sm_" + arch)]
  }

  function CodegenWords(): seq<Token> {
    [Word("--compiler-options=-fPIC,-O3" + ",-fconcepts" + ",-Wno-deprecated-declarations" + ",-Wno-abi"),
     Word("-O3"), Word("--expt-relaxed-constexpr"), Word("--expt-extended-lambda")]
  }

  /** The flag words, one by one. */
  function FlagWords(c: CompileSetup, arch: string): seq<Token> {
    LanguageWords(c) + SwitchedWords(c) + PlaceWords(c, arch) + CodegenWords()
  }

  lemma NameIsSuffix(c: CompileSetup, arch: string)
    ensures NamesDevice(c, arch) <==> arch == ArchSuffix(c)
  {
    assert DecimalNat(9) == "9" && DecimalNat(10) == "10";
    assert Decimal(90) == "90" && Decimal(101) == "101";
    assert "90" + "a" == "90a" && "101" + "a" == "101a";
  }

  lemma ArgvAppend(ps: seq<Part>, qs: seq<Part>)
    ensures Argv(ps + qs) == Argv(ps) + Argv(qs)
  {
  }

  lemma LanguageFlagWords(c: CompileSetup)
    ensures Argv(BaseFlags(c)) == LanguageWords(c)
  {
  }

  lemma OptionalFlagWords(c: CompileSetup)
    ensures Argv(OptionalFlags(c)) == SwitchedWords(c)
  {
  }

  lemma IncludeFlagWords(c: CompileSetup)
    ensures Argv(IncludeFlags(c)) == PlaceWords(c, ArchSuffix(c))
  {
  }

  lemma CodegenFlagWords()
    ensures Argv(CodegenFlags()) == CodegenWords()
  {
  }

  lemma FlagsAreWords(c: CompileSetup, arch: string)
    requires NamesDevice(c, arch)
    ensures Argv(CompilerFlags(c)) == FlagWords(c, arch)
  {
    NameIsSuffix(c, arch);
    FourArgv(BaseFlags(c), OptionalFlags(c), IncludeFlags(c), CodegenFlags());
    LanguageFlagWords(c);
    OptionalFlagWords(c);
    IncludeFlagWords(c);
    CodegenFlagWords();
  }

  lemma FourArgv(a: seq<Part>, b: seq<Part>, c: seq<Part>, d: seq<Part>)
    ensures Argv(a + b + c + d) == Argv(a) + Argv(b) + Argv(c) + Argv(d)
  {
    ArgvAppend(a, b);
    ArgvAppend(a + b, c);
    ArgvAppend(a + b + c, d);
  }

  /** The line that `run_command` hands to the shell for a compile: for arbitrary NUL-free directories
      the shell changes to the temporary root and then runs the compiler on exactly the intended
      argument vector, with its errors sent to its output. */
  lemma CompileCommandLexes(c: CompileSetup, arch: string, tmpRoot: string, codePath: string, cubinPath: string)
    requires NulFree(c.nvcc) && NulFree(c.includePath) && NulFree(c.cutlassInclude)
    requires NulFree(c.cutlassUtilInclude) && NulFree(tmpRoot) && NulFree(codePath) && NulFree(cubinPath)
    requires NamesDevice(c, arch)
    ensures Lex(CString(CompileCommand(c, tmpRoot, codePath, cubinPath) + STDERR_TO_STDOUT), Plain, None)
         == Some([Word("cd"), Word(tmpRoot), AndIf, Word(c.nvcc), Word(codePath), Word("-cubin"), Word("-o"),
                  Word(cubinPath)] + FlagWords(c, arch) + [IoNumber("2"), GreatAnd, Word("1")])
  {
    CompilerFlagsPlain(c);
    HeadPlain(c.nvcc, tmpRoot, codePath, cubinPath);
    HeadArgv(c.nvcc, tmpRoot, codePath, cubinPath);
    FlagsAreWords(c, arch);
    CommandLexes(CompileHead(c.nvcc, tmpRoot, codePath, cubinPath), CompilerFlags(c));
  }
}
