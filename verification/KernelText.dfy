/** The shape of every generated kernel source, and a reader for it: what the compiler would find when
    it looks for the header included, the function instantiated and its template arguments, one by one.
    The reader knows nothing of how the texts are put together. */
module KernelText {
  import opened TextTemplate
  import opened Wrappers

  /** The text around the two names, the same for every kernel. */
  datatype Frame = Frame(before: string, between: string, after: string)

  function RepositoryFrame(): Frame {
    Frame("#include " + "<" + "deep_gemm/", ".cuh" + ">" + Middle() + "&", "<" + "\n        ")
  }

  function Middle(): string {
    "\n\n" + "using namespace deep_gemm;\n\n" + "static void " + "__instantiate_kernel() {\n"
    + "    auto ptr = " + "reinterpret_cast<void*>" + "("
  }

  function Opening(f: Frame, header: string, name: string): string {
    f.before + header + f.between + name + f.after
  }

  // The reader

  function UpTo(s: string, c: char): string {
    if s == "" || s[0] == c then "" else [s[0]] + UpTo(s[1..], c)
  }

  /** What follows the first occurrence of a character. */
  function Past(s: string, c: char): string {
    if s == "" then "" else if s[0] == c then s[1..] else Past(s[1..], c)
  }

  predicate IsBlank(c: char) { c == ' ' || c == '\n' }

  function Prepend(word: string, rest: Option<seq<string>>): Option<seq<string>> {
    if rest.Some? then Some([word] + rest.value) else None
  }

  /** The arguments up to the closing bracket, of which a part of the first has been read already: words
      between commas, with blanks around them. None when the list is not closed, or when a blank splits a
      word. */
  function Arguments(s: string, word: string, ended: bool): Option<seq<string>> {
    if s == "" then None
    else if s[0] == '>' then Some([word])
    else if s[0] == ',' then Prepend(word, Arguments(s[1..], "", false))
    else if IsBlank(s[0]) then Arguments(s[1..], word, word != "")
    else if ended then None
    else Arguments(s[1..], word + [s[0]], false)
  }

  /** A kernel as its source names it. */
  datatype Kernel = Kernel(header: string, name: string, arguments: seq<string>)

  /** The header is what the first brackets enclose; the function is what an address is taken of. */
  function Read(text: string): Option<Kernel> {
    var instance := Past(text, '&');
    var arguments := Arguments(Past(instance, '<'), "", false);
    if arguments.None? then None
    else Some(Kernel(UpTo(Past(text, '<'), '>'), UpTo(instance, '<'), arguments.value))
  }

  // Reading the opening

  predicate Lacks(s: string, c: char) { forall i :: 0 <= i < |s| ==> s[i] != c }

  lemma {:induction false} PastFirst(p: string, c: char, s: string)
    requires Lacks(p, c)
    ensures Past(p + [c] + s, c) == s
  {
    if p == "" {
      assert (p + [c] + s)[1..] == s;
    } else {
      assert (p + [c] + s)[1..] == p[1..] + [c] + s;
      PastFirst(p[1..], c, s);
    }
  }

  lemma {:induction false} UpToFirst(p: string, c: char, s: string)
    requires Lacks(p, c)
    ensures UpTo(p + [c] + s, c) == p
  {
    if p == "" {
    } else {
      assert (p + [c] + s)[1..] == p[1..] + [c] + s;
      UpToFirst(p[1..], c, s);
    }
  }

  lemma MiddleLacks()
    ensures Lacks(Middle(), '&')
  {
    assert Lacks("\n\n", '&') && Lacks("using namespace deep_gemm;\n\n", '&') && Lacks("static void ", '&');
    assert Lacks("__instantiate_kernel() {\n", '&') && Lacks("    auto ptr = ", '&');
    assert Lacks("reinterpret_cast<void*>", '&') && Lacks("(", '&');
  }

  /** A name that none of the marks of the reader occurs in. */
  predicate IsName(s: string) { Lacks(s, '&') && Lacks(s, '<') && Lacks(s, '>') }

  lemma Regroup(a: string, b: string, c: string, d: string, e: string, f: string, g: string, h: string, i: string,
                j: string, k: string)
    ensures a + b + c + d + (e + f + g + h) + i + (b + j) + k
         == a + b + (c + d + e + f + (g + h + (i + b + (j + k))))
    ensures a + b + (c + d + e + f + (g + h + (i + b + (j + k))))
         == (a + b + (c + d + e) + f + g) + h + (i + b + (j + k))
  {
  }

  /** The two names are read back, and what remains to be read are the arguments. */
  lemma OpeningReads(header: string, name: string, body: string, arguments: seq<string>)
    requires IsName(header) && IsName(name) && Arguments("\n        " + body, "", false) == Some(arguments)
    ensures Read(Opening(RepositoryFrame(), header, name) + body)
         == Some(Kernel("deep_gemm/" + header + ".cuh", name, arguments))
  {
    var text := Opening(RepositoryFrame(), header, name) + body;
    var rest := "\n        " + body;
    var instance := name + ['<'] + rest;
    var file := "deep_gemm/" + header + ".cuh";
    Regroup("#include ", "<", "deep_gemm/", header, ".cuh", ">", Middle(), "&", name, "\n        ", body);
    assert text == "#include " + ['<'] + (file + ['>'] + (Middle() + ['&'] + instance));
    assert text == ("#include " + ['<'] + file + ['>'] + Middle()) + ['&'] + instance;
    HeaderReads(text, file, Middle() + ['&'] + instance);
    InstanceReads(text, file, instance);
    UpToFirst(name, '<', rest);
    PastFirst(name, '<', rest);
  }

  lemma HeaderReads(text: string, file: string, tail: string)
    requires Lacks(file, '>') && text == "#include " + ['<'] + (file + ['>'] + tail)
    ensures UpTo(Past(text, '<'), '>') == file
  {
    PastFirst("#include ", '<', file + ['>'] + tail);
    UpToFirst(file, '>', tail);
  }

  lemma InstanceReads(text: string, file: string, instance: string)
    requires Lacks(file, '&') && text == ("#include " + ['<'] + file + ['>'] + Middle()) + ['&'] + instance
    ensures Past(text, '&') == instance
  {
    MiddleLacks();
    PastFirst("#include " + ['<'] + file + ['>'] + Middle(), '&', instance);
  }

  // Reading the arguments

  predicate IsWord(s: string) {
    |s| > 0 && forall i :: 0 <= i < |s| ==> s[i] != '>' && s[i] != ',' && !IsBlank(s[i])
  }

  lemma {:induction false} WordReads(s: string, rest: string, word: string)
    requires s == "" || IsWord(s)
    ensures Arguments(s + rest, word, false) == Arguments(rest, word + s, false)
  {
    if s == "" {
      assert s + rest == rest && word + s == word;
    } else {
      assert (s + rest)[1..] == s[1..] + rest && word + [s[0]] + s[1..] == word + s;
      WordReads(s[1..], rest, word + [s[0]]);
    }
  }

  predicate AllBlank(s: string) { forall i :: 0 <= i < |s| ==> IsBlank(s[i]) }

  lemma {:induction false} BlanksRead(s: string, rest: string)
    requires AllBlank(s)
    ensures Arguments(s + rest, "", false) == Arguments(rest, "", false)
  {
    if s == "" {
      assert s + rest == rest;
    } else {
      assert (s + rest)[1..] == s[1..] + rest;
      BlanksRead(s[1..], rest);
    }
  }

  lemma {:induction false} BlanksEnd(s: string, rest: string, word: string, ended: bool)
    requires AllBlank(s) && |rest| > 0 && rest[0] == '>'
    ensures Arguments(s + rest, word, ended) == Some([word])
  {
    if s == "" {
      assert s + rest == rest;
    } else {
      assert (s + rest)[1..] == s[1..] + rest;
      BlanksEnd(s[1..], rest, word, word != "");
    }
  }

  function PrependAll(words: seq<string>, rest: Option<seq<string>>): Option<seq<string>> {
    if rest.Some? then Some(words + rest.value) else None
  }

  /** A separator: ends the word before it, contributes further words, and leaves the next one to begin. */
  ghost predicate Separates(sep: string, words: seq<string>) {
    forall word, rest {:trigger Arguments(sep + rest, word, false)} ::
      Arguments(sep + rest, word, false) == PrependAll([word] + words, Arguments(rest, "", false))
  }

  /** The last separator: ends the word before it and closes the list after further words. */
  ghost predicate Closes(sep: string, words: seq<string>) {
    forall word {:trigger Arguments(sep, word, false)} :: Arguments(sep, word, false) == Some([word] + words)
  }

  lemma PrependAllAppend(a: seq<string>, b: seq<string>, rest: Option<seq<string>>)
    ensures PrependAll(a, PrependAll(b, rest)) == PrependAll(a + b, rest)
  {
    if rest.Some? {
      assert a + (b + rest.value) == a + b + rest.value;
    }
  }

  lemma CommaSeparates(blanks: string)
    requires AllBlank(blanks)
    ensures Separates("," + blanks, [])
  {
    forall word, rest
      ensures Arguments("," + blanks + rest, word, false) == PrependAll([word] + [], Arguments(rest, "", false))
    {
      var s := "," + blanks + rest;
      assert s[0] == ',' && s[1..] == blanks + rest;
      BlanksRead(blanks, rest);
      assert [word] + [] == [word];
    }
  }

  /** A separator followed by one more word and another separator. */
  lemma SeparatesThen(sep: string, words: seq<string>, s: string, sep': string, words': seq<string>)
    requires Separates(sep, words) && IsWord(s) && Separates(sep', words')
    ensures Separates(sep + s + sep', words + [s] + words')
  {
    forall word, rest
      ensures Arguments(sep + s + sep' + rest, word, false)
           == PrependAll([word] + (words + [s] + words'), Arguments(rest, "", false))
    {
      assert sep + s + sep' + rest == sep + (s + (sep' + rest));
      WordReads(s, sep' + rest, "");
      assert "" + s == s;
      PrependAllAppend([word] + words, [s] + words', Arguments(rest, "", false));
      assert ([word] + words) + ([s] + words') == [word] + (words + [s] + words');
    }
  }

  lemma ClosesThen(sep: string, words: seq<string>, s: string, end: string, words': seq<string>)
    requires Separates(sep, words) && IsWord(s) && Closes(end, words')
    ensures Closes(sep + s + end, words + [s] + words')
  {
    forall word
      ensures Arguments(sep + s + end, word, false) == Some([word] + (words + [s] + words'))
    {
      assert sep + s + end == sep + (s + end);
      WordReads(s, end, "");
      assert "" + s == s;
      assert ([word] + words) + ([s] + words') == [word] + (words + [s] + words');
    }
  }

  lemma BracketCloses(blanks: string, rest: string)
    requires AllBlank(blanks)
    ensures Closes(blanks + (">" + rest), [])
  {
    forall word
      ensures Arguments(blanks + (">" + rest), word, false) == Some([word] + [])
    {
      BlanksEnd(blanks, ">" + rest, word, false);
      assert [word] + [] == [word];
    }
  }

  lemma TypeIsWord(element: Element)
    ensures IsWord(TypeName(element))
  {
    assert IsWord("cutlass::") && IsWord("bfloat16_t") && IsWord("float");
  }

  lemma PieceIsWord(p: Piece)
    requires !p.Lit?
    ensures IsWord(RenderPiece(p))
  {
    if p.Type? { TypeIsWord(p.element); }
  }

  /** The words between and after the inserted values. */
  function Listed(values: seq<Piece>, between: seq<seq<string>>): seq<string>
    requires |values| == |between|
  {
    if |values| == 0 then [] else [RenderPiece(values[0])] + between[0] + Listed(values[1..], between[1..])
  }

  lemma {:induction false} ListedAppend(ps: seq<Piece>, qs: seq<Piece>, a: seq<seq<string>>, b: seq<seq<string>>)
    requires |ps| == |a| && |qs| == |b|
    ensures Listed(ps + qs, a + b) == Listed(ps, a) + Listed(qs, b)
  {
    if |ps| == 0 {
      assert ps + qs == qs && a + b == b;
    } else {
      assert (ps + qs)[1..] == ps[1..] + qs && (a + b)[1..] == a[1..] + b;
      ListedAppend(ps[1..], qs, a[1..], b);
    }
  }

  lemma ListedOne(p: Piece, a: seq<string>)
    ensures Listed([p], [a]) == [RenderPiece(p)] + a
  {
  }

  lemma ListedTwo(p: Piece, q: Piece, a: seq<string>, b: seq<string>)
    ensures Listed([p, q], [a, b]) == [RenderPiece(p)] + a + [RenderPiece(q)] + b
  {
    ListedOne(p, a);
    ListedOne(q, b);
    ListedAppend([p], [q], [a], [b]);
    assert [p] + [q] == [p, q] && [a] + [b] == [a, b];
  }

  lemma ListedThree(p: Piece, q: Piece, r: Piece, a: seq<string>, b: seq<string>, c: seq<string>)
    ensures Listed([p, q, r], [a, b, c]) == [RenderPiece(p)] + a + [RenderPiece(q)] + b + [RenderPiece(r)] + c
  {
    ListedTwo(p, q, a, b);
    ListedOne(r, c);
    ListedAppend([p, q], [r], [a, b], [c]);
    assert [p, q] + [r] == [p, q, r] && [a, b] + [c] == [a, b, c];
  }

  lemma ListedFive(v1: seq<Piece>, v2: seq<Piece>, v3: seq<Piece>, v4: seq<Piece>, v5: seq<Piece>,
                   b1: seq<seq<string>>, b2: seq<seq<string>>, b3: seq<seq<string>>, b4: seq<seq<string>>,
                   b5: seq<seq<string>>)
    requires |v1| == |b1| && |v2| == |b2| && |v3| == |b3| && |v4| == |b4| && |v5| == |b5|
    ensures Listed(v1 + v2 + v3 + v4 + v5, b1 + b2 + b3 + b4 + b5)
         == Listed(v1, b1) + Listed(v2, b2) + Listed(v3, b3) + Listed(v4, b4) + Listed(v5, b5)
  {
    ListedAppend(v1, v2, b1, b2);
    ListedAppend(v1 + v2, v3, b1 + b2, b3);
    ListedAppend(v1 + v2 + v3, v4, b1 + b2 + b3, b4);
    ListedAppend(v1 + v2 + v3 + v4, v5, b1 + b2 + b3 + b4, b5);
  }

  ghost predicate Delimits(seps: seq<string>, between: seq<seq<string>>) {
    && |seps| == |between| && |seps| > 0
    && (forall i :: 0 <= i < |seps| - 1 ==> Separates(seps[i], between[i]))
    && Closes(seps[|seps| - 1], between[|seps| - 1])
  }

  /** Values between such separators are read back one by one, in the order they were inserted. */
  lemma {:induction false} FieldsRead(values: seq<Piece>, seps: seq<string>, between: seq<seq<string>>)
    requires |values| == |seps| && Delimits(seps, between) && forall i :: 0 <= i < |values| ==> !values[i].Lit?
    ensures Arguments(Render(Interleave(values, seps)), "", false) == Some(Listed(values, between))
  {
    var word := RenderPiece(values[0]);
    var rest := Render(Interleave(values[1..], seps[1..]));
    PieceIsWord(values[0]);
    RenderPair(values[0], Lit(seps[0]), Interleave(values[1..], seps[1..]));
    assert Render(Interleave(values, seps)) == word + (seps[0] + rest);
    WordReads(word, seps[0] + rest, "");
    assert "" + word == word;
    if |values| == 1 {
      assert rest == "" && seps[0] + rest == seps[0];
      assert Closes(seps[0], between[0]);
      assert Listed(values, between) == [word] + between[0];
    } else {
      assert Delimits(seps[1..], between[1..]);
      FieldsRead(values[1..], seps[1..], between[1..]);
      assert Separates(seps[0], between[0]);
    }
  }

  lemma RenderPair(p: Piece, q: Piece, ps: seq<Piece>)
    ensures Render([p, q] + ps) == RenderPiece(p) + (RenderPiece(q) + Render(ps))
  {
    assert ([p, q] + ps)[1..] == [q] + ps;
    assert ([q] + ps)[1..] == ps;
  }
}
