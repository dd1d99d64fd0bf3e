/** What one `build_kernel` call compiles, the key it is filed under in memory, and the directory
    names derived from that key. */
module CacheKey {
  import opened TextTemplate
  import opened Fnv

  /** A kernel name, the compiler configuration in force, and the generated source text. */
  datatype Request = Request(name: string, nvcc: string, flags: string, code: string)

  const SEP: string := "$$"

  /** The process-wide map is keyed by this text. */
  function Key(r: Request): string {
    r.name + SEP + r.nvcc + SEP + r.flags + SEP + r.code
  }

  function ByteOf(c: char): byte { c as int % 256 }

  function Bytes(s: string): seq<byte> { seq(|s|, i requires 0 <= i < |s| => ByteOf(s[i])) }

  function KeyDigest(r: Request): u64 { Digest(Bytes(Key(r))) }

  /** Directory of a published kernel under the cache root. */
  function CacheDir(r: Request): string {
    "kernel." + r.name + "." + HexU64(KeyDigest(r))
  }

  /** Private directory in which process `pid` builds the kernel. */
  function TmpDir(r: Request, pid: int): string {
    r.name + "." + Decimal(pid) + "." + HexU64(KeyDigest(r))
  }

  /** The fixed-width suffix makes both parts of a cache directory name recoverable. */
  lemma CacheDirCharacterized(r: Request, q: Request)
    ensures CacheDir(r) == CacheDir(q) <==> r.name == q.name && KeyDigest(r) == KeyDigest(q)
  {
    var x, y := HexU64(KeyDigest(r)), HexU64(KeyDigest(q));
    if CacheDir(r) == CacheDir(q) {
      SplitSuffix("kernel." + r.name + ".", x, "kernel." + q.name + ".", y);
      HexU64Injective(KeyDigest(r), KeyDigest(q));
      assert ("kernel." + r.name + ".")[7..7 + |r.name|] == r.name;
      assert ("kernel." + q.name + ".")[7..7 + |q.name|] == q.name;
    }
  }

  lemma SplitSuffix(a: string, x: string, b: string, y: string)
    requires |x| == |y| && a + x == b + y
    ensures a == b && x == y
  {
    assert (a + x)[..|a|] == a && (b + y)[..|b|] == b;
    assert (a + x)[|a|..] == x && (b + y)[|b|..] == y;
  }

  lemma SplitPrefix(a: string, x: string, b: string, y: string)
    requires |a| == |b| && a + x == b + y
    ensures a == b && x == y
  {
    assert (a + x)[..|a|] == a && (b + y)[..|b|] == b;
    assert (a + x)[|a|..] == x && (b + y)[|b|..] == y;
  }

  /** The name before the last dot: digits of a process id cannot hide a dot. */
  lemma NameDotPid(a: string, p: int, b: string, q: int)
    requires a + "." + Decimal(p) == b + "." + Decimal(q)
    ensures a == b && p == q
  {
    var s, t := a + "." + Decimal(p), b + "." + Decimal(q);
    assert s[|a|] == '.' && t[|b|] == '.';
    assert forall i :: |a| < i < |s| ==> s[i] == Decimal(p)[i - |a| - 1];
    assert forall i :: |b| < i < |t| ==> t[i] == Decimal(q)[i - |b| - 1];
    assert |a| == |b|;
    SplitPrefix(a + ".", Decimal(p), b + ".", Decimal(q));
    SplitPrefix(a, ".", b, ".");
    DecimalInjective(p, q);
  }

  /** Two live builders share a private directory only if they build the same name and digest in
      the same process. */
  lemma TmpDirCharacterized(r: Request, p: int, q: Request, p': int)
    ensures TmpDir(r, p) == TmpDir(q, p') <==>
            r.name == q.name && p == p' && KeyDigest(r) == KeyDigest(q)
  {
    var x, y := HexU64(KeyDigest(r)), HexU64(KeyDigest(q));
    if TmpDir(r, p) == TmpDir(q, p') {
      var a, b := r.name + "." + Decimal(p), q.name + "." + Decimal(p');
      assert TmpDir(r, p) == a + "." + x && TmpDir(q, p') == b + "." + y;
      SplitSuffix(a + ".", x, b + ".", y);
      SplitPrefix(a, ".", b, ".") by {
        assert |a + "."| == |a| + 1 && |b + "."| == |b| + 1;
      }
      HexU64Injective(KeyDigest(r), KeyDigest(q));
      NameDotPid(r.name, p, q.name, p');
    }
  }

  ghost predicate IsByteText(s: string) { forall i :: 0 <= i < |s| ==> s[i] as int < 256 }

  lemma OneByteChangesText(s: string, t: string, i: nat)
    requires IsByteText(s) && IsByteText(t)
    requires i < |s| == |t| && s[i] != t[i]
    requires forall j :: 0 <= j < |s| && j != i ==> s[j] == t[j]
    ensures Digest(Bytes(s)) != Digest(Bytes(t))
  {
    var a, b := Bytes(s), Bytes(t);
    assert a[i] == s[i] as int && b[i] == t[i] as int;
    assert DifferAtOneByte(a, b);
    OneByteChangesDigest(a, b);
  }

  /** Two keys of the same length that differ in one byte are filed in different directories. */
  lemma OneByteChangesCacheDir(r: Request, q: Request, i: nat)
    requires IsByteText(Key(r)) && IsByteText(Key(q))
    requires i < |Key(r)| == |Key(q)| && Key(r)[i] != Key(q)[i]
    requires forall j :: 0 <= j < |Key(r)| && j != i ==> Key(r)[j] == Key(q)[j]
    ensures KeyDigest(r) != KeyDigest(q) && CacheDir(r) != CacheDir(q)
  {
    OneByteChangesText(Key(r), Key(q), i);
    CacheDirCharacterized(r, q);
  }

  /** A separator starts at position i. */
  predicate SepAt(s: string, i: int) { 0 <= i <= |s| - 2 && s[i] == '$' && s[i + 1] == '$' }

  function Cut1(r: Request): nat { |r.name| }

  function Cut2(r: Request): nat { |r.name| + 2 + |r.nvcc| }

  function Cut3(r: Request): nat { |r.name| + 2 + |r.nvcc| + 2 + |r.flags| }

  lemma KeyCuts(r: Request)
    ensures SepAt(Key(r), Cut1(r)) && SepAt(Key(r), Cut2(r)) && SepAt(Key(r), Cut3(r))
    ensures Key(r)[..Cut1(r)] == r.name
    ensures Key(r)[Cut1(r) + 2..Cut2(r)] == r.nvcc
    ensures Key(r)[Cut2(r) + 2..Cut3(r)] == r.flags
    ensures Key(r)[Cut3(r) + 2..] == r.code
  {
  }

  /** The request obtained by reading a key with separators at three given places. */
  function Reading(s: string, a: nat, b: nat, c: nat): Request
    requires a + 2 <= b && b + 2 <= c && c + 2 <= |s|
  {
    Request(s[..a], s[a + 2..b], s[b + 2..c], s[c + 2..])
  }

  lemma ReadingHasKey(s: string, a: nat, b: nat, c: nat)
    requires a + 2 <= b && b + 2 <= c && c + 2 <= |s|
    requires SepAt(s, a) && SepAt(s, b) && SepAt(s, c)
    ensures Key(Reading(s, a, b, c)) == s
  {
    assert s[a..a + 2] == SEP && s[b..b + 2] == SEP && s[c..c + 2] == SEP;
    assert s == s[..a] + s[a..a + 2] + s[a + 2..b] + s[b..b + 2] + s[b + 2..c] + s[c..c + 2] + s[c + 2..];
  }

  /** The key contains a separator besides the three that delimit its fields. */
  ghost predicate ExtraSeparator(r: Request) {
    exists i :: SepAt(Key(r), i) && i != Cut1(r) && i != Cut2(r) && i != Cut3(r)
  }

  /** The key text determines the whole request exactly when it contains no further separator.
      A compiler path and a flag string are never empty in a running process. */
  lemma KeyDeterminesRequest(r: Request)
    requires r.nvcc != "" && r.flags != ""
    ensures (forall q :: Key(q) == Key(r) ==> q == r) <==> !ExtraSeparator(r)
  {
    KeyCuts(r);
    var s, a, b, c := Key(r), Cut1(r), Cut2(r), Cut3(r);
    if ExtraSeparator(r) {
      var i :| SepAt(s, i) && i != a && i != b && i != c;
      var q :=
        if i + 1 < a then Reading(s, i, a, b)
        else if i <= a + 1 then Reading(s, i, b, c)
        else if i + 1 < b then Reading(s, i, b, c)
        else if i <= b + 1 then Reading(s, a, i, c)
        else if i + 1 < c then Reading(s, a, i, c)
        else Reading(s, a, b, i);
      assert Key(q) == s by {
        if i + 1 < a { ReadingHasKey(s, i, a, b); }
        else if i + 1 < b { ReadingHasKey(s, i, b, c); }
        else if i + 1 < c { ReadingHasKey(s, a, i, c); }
        else { ReadingHasKey(s, a, b, i); }
      }
      assert q != r by {
        assert Cut1(q) != a || Cut2(q) != b || Cut3(q) != c;
      }
    } else {
      forall q | Key(q) == s ensures q == r {
        KeyCuts(q);
        assert Cut1(q) < Cut2(q) < Cut3(q);
        assert {Cut1(q), Cut2(q), Cut3(q)} <= {a, b, c};
        assert Cut1(q) == a && Cut2(q) == b && Cut3(q) == c;
      }
    }
  }

  /** An empty part puts two separators next to each other, and a third one across them. */
  lemma EmptyPartAddsSeparator(r: Request)
    requires r.nvcc == "" || r.flags == ""
    ensures ExtraSeparator(r)
  {
    KeyCuts(r);
    var i := if r.nvcc == "" then Cut1(r) else Cut2(r);
    assert SepAt(Key(r), i) && SepAt(Key(r), i + 2);
    assert SepAt(Key(r), i + 1);
  }

  /** A compiler path that itself contains the separator makes two configurations share a key. */
  lemma AmbiguousKeyExample()
    ensures var r := Request("k", "/opt$$a", "-O3", "x");
            var q := Request("k", "/opt", "a$$-O3", "x");
            r != q && Key(r) == Key(q) && CacheDir(r) == CacheDir(q)
  {
    var r, q := Request("k", "/opt$$a", "-O3", "x"), Request("k", "/opt", "a$$-O3", "x");
    assert Key(r) == Key(q);
  }
}
