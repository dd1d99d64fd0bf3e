/** Text produced by C++ stream insertion: decimal integers, fixed literals, the words `true` and
    `false`, and the names of two element types, concatenated. Kernel source built this way serves as a cache key, so
    what matters is when such a text determines the values inserted into it. */
module TextTemplate {

  predicate IsDigit(c: char) { '0' <= c <= '9' }

  predicate IsNumeral(c: char) { IsDigit(c) || c == '-' }

  function DigitChar(d: nat): (c: char)
    requires d < 10
    ensures IsDigit(c)
  {
    '0' + (d as char)
  }

  function DigitValue(c: char): nat
    requires IsDigit(c)
  {
    c as int - '0' as int
  }

  /** Digits of a natural number, most significant first, without leading zeros. */
  function DecimalNat(n: nat): (s: string)
    ensures |s| > 0
    ensures forall i :: 0 <= i < |s| ==> IsDigit(s[i])
  {
    if n < 10 then [DigitChar(n)] else DecimalNat(n / 10) + [DigitChar(n % 10)]
  }

  /** What `<<` and `std::to_string` print for a signed integer. */
  function Decimal(n: int): (s: string)
    ensures |s| > 0
    ensures forall i :: 0 <= i < |s| ==> IsNumeral(s[i])
  {
    if n < 0 then "-" + DecimalNat(-n) else DecimalNat(n)
  }

  function ParseNat(s: string): nat
    requires forall i :: 0 <= i < |s| ==> IsDigit(s[i])
  {
    if |s| == 0 then 0 else ParseNat(s[..|s| - 1]) * 10 + DigitValue(s[|s| - 1])
  }

  lemma {:induction false} ParseInvertsDecimalNat(n: nat)
    ensures ParseNat(DecimalNat(n)) == n
  {
    if n >= 10 {
      var s := DecimalNat(n);
      assert s[..|s| - 1] == DecimalNat(n / 10);
      ParseInvertsDecimalNat(n / 10);
    }
  }

  lemma DecimalNatInjective(a: nat, b: nat)
    requires DecimalNat(a) == DecimalNat(b)
    ensures a == b
  {
    ParseInvertsDecimalNat(a);
    ParseInvertsDecimalNat(b);
  }

  lemma DecimalInjective(a: int, b: int)
    requires Decimal(a) == Decimal(b)
    ensures a == b
  {
    var s, t := Decimal(a), Decimal(b);
    assert s[0] == '-' <==> a < 0;
    assert t[0] == '-' <==> b < 0;
    if a < 0 {
      assert s[1..] == DecimalNat(-a) && t[1..] == DecimalNat(-b);
      DecimalNatInjective(-a, -b);
    } else {
      DecimalNatInjective(a, b);
    }
  }

  /** A text that a number can be followed by without running into its digits. */
  predicate Stops(s: string) { |s| == 0 || !IsNumeral(s[0]) }

  /** Length of the longest front of a text made of numeral characters. */
  function NumeralLength(s: string): nat {
    if Stops(s) then 0 else 1 + NumeralLength(s[1..])
  }

  lemma {:induction false} NumeralLengthOfFront(p: string, s: string)
    requires Stops(s) && forall i :: 0 <= i < |p| ==> IsNumeral(p[i])
    ensures NumeralLength(p + s) == |p|
  {
    if p == "" {
      assert p + s == s;
    } else {
      assert (p + s)[1..] == p[1..] + s;
      NumeralLengthOfFront(p[1..], s);
    }
  }

  /** A printed number is recovered from the front of a text as soon as what follows it cannot
      be mistaken for one of its digits. */
  lemma DecimalPrefixUnique(a: int, b: int, s: string, t: string)
    requires Stops(s) && Stops(t)
    requires Decimal(a) + s == Decimal(b) + t
    ensures a == b && s == t
  {
    var p, q := Decimal(a), Decimal(b);
    NumeralLengthOfFront(p, s);
    NumeralLengthOfFront(q, t);
    assert (p + s)[..|p|] == p && (q + t)[..|q|] == q;
    assert (p + s)[|p|..] == s && (q + t)[|q|..] == t;
    DecimalInjective(a, b);
  }

  /** The element types that the attention kernels are instantiated with. */
  datatype Element = Float | Bfloat16

  datatype Piece =
    | Lit(text: string)
    | Num(number: int)
    | Flag(flag: bool)
    | Type(element: Element)

  function Word(flag: bool): string { if flag then "true" else "false" }

  function TypeName(element: Element): string {
    match element
    case Float => "float"
    case Bfloat16 => "cutlass::" + "bfloat16_t"
  }

  function RenderPiece(p: Piece): string {
    match p
    case Lit(text) => text
    case Num(number) => Decimal(number)
    case Flag(flag) => Word(flag)
    case Type(element) => TypeName(element)
  }

  function Render(ps: seq<Piece>): string {
    if ps == [] then "" else RenderPiece(ps[0]) + Render(ps[1..])
  }

  /** Two texts built by the same sequence of insertions: equal literals, values in the same
      places. */
  predicate SameHole(p: Piece, q: Piece) {
    match p
    case Lit(text) => q == Lit(text)
    case Num(_) => q.Num?
    case Flag(_) => q.Flag?
    case Type(_) => q.Type?
  }

  predicate SameTemplate(ps: seq<Piece>, qs: seq<Piece>) {
    |ps| == |qs| && forall i :: 0 <= i < |ps| ==> SameHole(ps[i], qs[i])
  }

  predicate IsStop(p: Piece) { p.Lit? && |p.text| > 0 && !IsNumeral(p.text[0]) }

  /** Every number is followed by a literal that cannot continue it, or ends the text. */
  predicate NumbersDelimited(ps: seq<Piece>) {
    forall i :: 0 <= i < |ps| - 1 && ps[i].Num? ==> IsStop(ps[i + 1])
  }

  lemma RenderStops(ps: seq<Piece>)
    requires |ps| > 0 ==> IsStop(ps[0])
    ensures Stops(Render(ps))
  {
  }

  /** Unique decodability: a delimited template renders to the same text only from the same
      values. */
  lemma {:induction false} RenderInjective(ps: seq<Piece>, qs: seq<Piece>)
    requires SameTemplate(ps, qs) && NumbersDelimited(ps)
    requires Render(ps) == Render(qs)
    ensures ps == qs
  {
    if ps != [] {
      var p, q := ps[0], qs[0];
      var s, t := Render(ps[1..]), Render(qs[1..]);
      assert SameHole(p, q);
      assert RenderPiece(p) + s == RenderPiece(q) + t;
      match p {
        case Lit(text) =>
          assert (text + s)[|text|..] == s && (text + t)[|text|..] == t;
        case Num(number) =>
          if |ps| > 1 {
            assert IsStop(ps[0 + 1]);
            assert SameHole(ps[1], qs[1]);
          }
          RenderStops(ps[1..]);
          RenderStops(qs[1..]);
          DecimalPrefixUnique(number, q.number, s, t);
        case Flag(flag) =>
          WordPrefixUnique(flag, q.flag, s, t);
        case Type(element) =>
          TypeNamePrefixUnique(element, q.element, s, t);
      }
      assert SameTemplate(ps[1..], qs[1..]) by {
        forall i | 0 <= i < |ps[1..]| ensures SameHole(ps[1..][i], qs[1..][i]) {
          assert SameHole(ps[i + 1], qs[i + 1]);
        }
      }
      assert NumbersDelimited(ps[1..]) by {
        forall i | 0 <= i < |ps[1..]| - 1 && ps[1..][i].Num? ensures IsStop(ps[1..][i + 1]) {
          assert ps[i + 1].Num? && IsStop(ps[i + 1 + 1]);
        }
      }
      RenderInjective(ps[1..], qs[1..]);
      assert ps == [p] + ps[1..] && qs == [q] + qs[1..];
    }
  }

  lemma WordPrefixUnique(a: bool, b: bool, s: string, t: string)
    requires Word(a) + s == Word(b) + t
    ensures a == b && s == t
  {
    assert (Word(a) + s)[0] == Word(a)[0] && (Word(b) + t)[0] == Word(b)[0];
    assert (Word(a) + s)[|Word(a)|..] == s && (Word(b) + t)[|Word(b)|..] == t;
  }

  lemma TypeNamePrefixUnique(a: Element, b: Element, s: string, t: string)
    requires TypeName(a) + s == TypeName(b) + t
    ensures a == b && s == t
  {
    var p, q := TypeName(a), TypeName(b);
    assert (p + s)[0] == p[0] && (q + t)[0] == q[0];
    assert (p + s)[|p|..] == s && (q + t)[|q|..] == t;
  }

  /** Inserted values, each followed by the literal that separates it from the next. */
  function Interleave(values: seq<Piece>, seps: seq<string>): seq<Piece>
    requires |values| == |seps|
  {
    if |values| == 0 then [] else [values[0], Lit(seps[0])] + Interleave(values[1..], seps[1..])
  }

  predicate SameKind(p: Piece, q: Piece) { (p.Num? && q.Num?) || (p.Flag? && q.Flag?) || (p.Type? && q.Type?) }

  predicate SameKinds(ps: seq<Piece>, qs: seq<Piece>) {
    |ps| == |qs| && forall i :: 0 <= i < |ps| ==> SameKind(ps[i], qs[i])
  }

  predicate Separators(seps: seq<string>) { forall i :: 0 <= i < |seps| ==> |seps[i]| > 0 && !IsNumeral(seps[i][0]) }

  lemma {:induction false} InterleaveTemplate(ps: seq<Piece>, qs: seq<Piece>, seps: seq<string>)
    requires SameKinds(ps, qs) && |ps| == |seps| && Separators(seps)
    ensures SameTemplate(Interleave(ps, seps), Interleave(qs, seps))
    ensures NumbersDelimited(Interleave(ps, seps))
  {
    if |ps| > 0 {
      assert SameKind(ps[0], qs[0]);
      InterleaveTemplate(ps[1..], qs[1..], seps[1..]);
      assert IsStop(Lit(seps[0]));
      var rest := Interleave(ps[1..], seps[1..]);
      var whole: seq<Piece> := [ps[0], Lit(seps[0])] + rest;
      forall i | 0 <= i < |whole| - 1 && whole[i].Num?
        ensures IsStop(whole[i + 1])
      {
        if i >= 2 { assert rest[i - 2].Num? && whole[i + 1] == rest[i - 2 + 1]; }
      }
    }
  }

  lemma {:induction false} InterleaveInjective(ps: seq<Piece>, qs: seq<Piece>, seps: seq<string>)
    requires |ps| == |qs| == |seps| && Interleave(ps, seps) == Interleave(qs, seps)
    ensures ps == qs
  {
    if |ps| > 0 {
      var a, b := Interleave(ps, seps), Interleave(qs, seps);
      assert a[0] == ps[0] && b[0] == qs[0];
      assert a[2..] == Interleave(ps[1..], seps[1..]) && b[2..] == Interleave(qs[1..], seps[1..]);
      InterleaveInjective(ps[1..], qs[1..], seps[1..]);
      assert ps == [ps[0]] + ps[1..] && qs == [qs[0]] + qs[1..];
    }
  }

  /** A text with fixed separators is determined by, and determines, the values inserted into it. */
  lemma FieldsDetermined(head: string, ps: seq<Piece>, qs: seq<Piece>, seps: seq<string>)
    requires SameKinds(ps, qs) && |ps| == |seps| && Separators(seps)
    requires head + Render(Interleave(ps, seps)) == head + Render(Interleave(qs, seps))
    ensures ps == qs
  {
    var s, t := Render(Interleave(ps, seps)), Render(Interleave(qs, seps));
    assert (head + s)[|head|..] == s && (head + t)[|head|..] == t;
    InterleaveTemplate(ps, qs, seps);
    RenderInjective(Interleave(ps, seps), Interleave(qs, seps));
    InterleaveInjective(ps, qs, seps);
  }
}
