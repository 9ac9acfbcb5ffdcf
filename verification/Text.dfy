/**
 Strings are sequences of Unicode code points, as Go's `range` sees them. White space is the
 set of Go's `unicode.IsSpace`; lower-casing applies one map to each code point.
 */
module Text {

  predicate IsSpace(c: char) {
    || '\U{0009}' <= c <= '\U{000d}'
    || c == ' '
    || c == '\U{0085}'
    || c == '\U{00a0}'
    || c == '\U{1680}'
    || '\U{2000}' <= c <= '\U{200a}'
    || c == '\U{2028}'
    || c == '\U{2029}'
    || c == '\U{202f}'
    || c == '\U{205f}'
    || c == '\U{3000}'
  }

  function MapChars(f: char -> char, s: string): (r: string)
    ensures |r| == |s|
    ensures forall i :: 0 <= i < |s| ==> r[i] == f(s[i])
  {
    seq(|s|, i requires 0 <= i < |s| => f(s[i]))
  }

  lemma MapCharsConcat(f: char -> char, a: string, b: string)
    ensures MapChars(f, a + b) == MapChars(f, a) + MapChars(f, b)
  {
  }

  // ---- strings.TrimSpace ----

  function TrimLeft(s: string): (r: string)
    ensures |r| <= |s| && r == s[|s| - |r|..]
    ensures r == "" || !IsSpace(r[0])
    ensures forall i :: 0 <= i < |s| - |r| ==> IsSpace(s[i])
  {
    if s != "" && IsSpace(s[0]) then TrimLeft(s[1..]) else s
  }

  function TrimRight(s: string): (r: string)
    ensures |r| <= |s| && r == s[..|r|]
    ensures r == "" || !IsSpace(r[|r| - 1])
    ensures forall i :: |r| <= i < |s| ==> IsSpace(s[i])
  {
    if s != "" && IsSpace(s[|s| - 1]) then TrimRight(s[..|s| - 1]) else s
  }

  predicate Trimmed(s: string) {
    s == "" || (!IsSpace(s[0]) && !IsSpace(s[|s| - 1]))
  }

  function TrimSpace(s: string): (r: string)
    ensures Trimmed(r)
  {
    TrimRight(TrimLeft(s))
  }

  lemma TrimSpaceIsSlice(s: string) returns (lo: nat, hi: nat)
    ensures lo <= hi <= |s| && TrimSpace(s) == s[lo..hi]
  {
    hide IsSpace;
    var l := TrimLeft(s);
    var r := TrimRight(l);
    lo := |s| - |l|;
    hi := lo + |r|;
    SliceOfSuffix(s, lo, |r|);
  }

  lemma SliceOfSuffix(s: string, lo: nat, n: nat)
    requires lo + n <= |s|
    ensures s[lo..][..n] == s[lo..lo + n]
  {
  }

  lemma TrimSpaceFixes(s: string)
    ensures TrimSpace(s) == s <==> Trimmed(s)
  {
  }

  lemma AllSpaceStep(s: string)
    requires s != ""
    ensures AllSpace(s) <==> IsSpace(s[0]) && AllSpace(s[1..])
  {
    hide IsSpace;
    if IsSpace(s[0]) && AllSpace(s[1..]) {
      forall i | 0 <= i < |s|
        ensures IsSpace(s[i])
      {
        assert i > 0 ==> s[i] == s[1..][i - 1];
      }
    }
  }

  lemma {:induction false} TrimLeftConcat(a: string, b: string)
    ensures TrimLeft(a + b) == if AllSpace(a) then TrimLeft(b) else TrimLeft(a) + b
  {
    if a == "" {
      assert a + b == b;
    } else {
      hide IsSpace, AllSpace;
      AllSpaceStep(a);
      assert (a + b)[0] == a[0] && (a + b)[1..] == a[1..] + b;
      if IsSpace(a[0]) {
        TrimLeftConcat(a[1..], b);
      }
    }
  }

  /** Trailing white space does not matter. */
  lemma TrimTrailing(s: string, c: char)
    requires IsSpace(c)
    ensures TrimSpace(s + [c]) == TrimSpace(s)
  {
    hide IsSpace;
    TrimLeftConcat(s, [c]);
    if AllSpace(s) {
      TrimSpaceEmpty(s);
      assert AllSpace(s + [c]);
      TrimSpaceEmpty(s + [c]);
    } else {
      var l := TrimLeft(s);
      assert (l + [c])[..|l|] == l;
    }
  }

  /** Anything more, up to another character that is not white, does matter. */
  lemma TrimTellsApart(a: string, b: string)
    requires b != "" && !IsSpace(b[|b| - 1])
    ensures TrimSpace(a + b) != TrimSpace(a)
  {
    hide IsSpace, AllSpace, TrimLeft, TrimRight, TrimSpace;
    if AllSpace(a) {
      TrimSpaceEmpty(a);
      NotAllSpace(a, b);
      TrimSpaceEmpty(a + b);
    } else {
      TrimLeftConcat(a, b);
      TrimmedSizes(a, b);
    }
  }

  lemma NotAllSpace(a: string, b: string)
    requires b != "" && !IsSpace(b[|b| - 1])
    ensures !AllSpace(a + b)
  {
    hide IsSpace;
    assert (a + b)[|a + b| - 1] == b[|b| - 1];
  }

  lemma TrimmedSizes(a: string, b: string)
    requires b != "" && !IsSpace(b[|b| - 1]) && TrimLeft(a + b) == TrimLeft(a) + b
    ensures |TrimSpace(a)| <= |TrimLeft(a)| < |TrimSpace(a + b)|
  {
    hide IsSpace, TrimLeft;
    var l := TrimLeft(a) + b;
    assert l[|l| - 1] == b[|b| - 1];
    assert TrimRight(l) == l;
  }

  lemma TrimSpaceTwice(s: string)
    ensures TrimSpace(TrimSpace(s)) == TrimSpace(s)
  {
    hide IsSpace, TrimSpace;
    TrimSpaceFixes(TrimSpace(s));
  }

  predicate AllSpace(s: string) {
    forall i :: 0 <= i < |s| ==> IsSpace(s[i])
  }

  /** Trimming empties a string exactly when it holds nothing but white space. */
  lemma TrimSpaceEmpty(s: string)
    ensures TrimSpace(s) == "" <==> AllSpace(s)
  {
    var l := TrimLeft(s);
    if l != "" {
      assert l[0] == s[|s| - |l|];
    }
  }

  /** Go's white space, one character at a time. */
  predicate WhiteByName(c: char) {
    || c == '\U{0009}' || c == '\U{000a}' || c == '\U{000b}' || c == '\U{000c}' || c == '\U{000d}'
    || c == '\U{0020}' || c == '\U{0085}' || c == '\U{00a0}' || c == '\U{1680}' || c == '\U{2000}'
    || c == '\U{2001}' || c == '\U{2002}' || c == '\U{2003}' || c == '\U{2004}' || c == '\U{2005}'
    || c == '\U{2006}' || c == '\U{2007}' || c == '\U{2008}' || c == '\U{2009}' || c == '\U{200a}'
    || c == '\U{2028}' || c == '\U{2029}' || c == '\U{202f}' || c == '\U{205f}' || c == '\U{3000}'
  }

  lemma SpaceByName(c: char)
    ensures IsSpace(c) <==> WhiteByName(c)
  {
  }

  /** Trimming removes exactly the named characters. */
  lemma TrimsExactly(c: char)
    ensures TrimSpace([c]) == "" <==> WhiteByName(c)
  {
    hide IsSpace, WhiteByName, TrimSpace;
    SpaceByName(c);
    TrimSpaceEmpty([c]);
    assert AllSpace([c]) <==> IsSpace([c][0]);
  }

  /** A map that keeps white space white and the rest not commutes with trimming. */
  ghost predicate KeepsSpace(f: char -> char) {
    forall c {:trigger f(c)} :: IsSpace(f(c)) <==> IsSpace(c)
  }

  lemma {:induction false} TrimLeftMaps(f: char -> char, s: string)
    requires KeepsSpace(f)
    ensures TrimLeft(MapChars(f, s)) == MapChars(f, TrimLeft(s))
  {
    var m := MapChars(f, s);
    if s != "" && IsSpace(s[0]) {
      assert m[0] == f(s[0]);
      assert m[1..] == MapChars(f, s[1..]);
      TrimLeftMaps(f, s[1..]);
    } else if s != "" {
      assert m[0] == f(s[0]);
    }
  }

  lemma {:induction false} TrimRightMaps(f: char -> char, s: string)
    requires KeepsSpace(f)
    ensures TrimRight(MapChars(f, s)) == MapChars(f, TrimRight(s))
  {
    var m := MapChars(f, s);
    if s != "" && IsSpace(s[|s| - 1]) {
      assert m[|s| - 1] == f(s[|s| - 1]);
      assert m[..|s| - 1] == MapChars(f, s[..|s| - 1]);
      TrimRightMaps(f, s[..|s| - 1]);
    } else if s != "" {
      assert m[|s| - 1] == f(s[|s| - 1]);
    }
  }

  lemma TrimSpaceMaps(f: char -> char, s: string)
    requires KeepsSpace(f)
    ensures TrimSpace(MapChars(f, s)) == MapChars(f, TrimSpace(s))
  {
    TrimLeftMaps(f, s);
    TrimRightMaps(f, TrimLeft(s));
  }

  // ---- what the platform's lower-casing is assumed to do ----

  function AsciiLower(c: char): char {
    if 'A' <= c <= 'Z' then ((c as int) + 32) as char else c
  }

  const DOTTED_I := '\U{0130}'
  const KELVIN_SIGN := '\U{212a}'

  /**
   The per-code-point lower-casing behind strings.ToLower. On ASCII it is the usual table; on the
   other code points only this much is used: it leaves white space as it is and makes none, and it maps
   just two of them into ASCII, the dotted capital I to `i` and the Kelvin sign to `k`.
   */
  ghost predicate LowerCasing(f: char -> char) {
    && (forall c {:trigger f(c)} :: c < '\U{0080}' ==> f(c) == AsciiLower(c))
    && KeepsSpace(f)
    && (forall c {:trigger f(c)} :: IsSpace(c) ==> f(c) == c)
    && (forall c {:trigger f(c)} :: c >= '\U{0080}' && f(c) < '\U{0080}' ==> FoldsIntoAscii(c, f(c)))
  }

  predicate FoldsIntoAscii(c: char, d: char) {
    (c == DOTTED_I && d == 'i') || (c == KELVIN_SIGN && d == 'k')
  }

  ghost predicate Idempotent(f: char -> char) {
    forall c :: f(f(c)) == f(c)
  }

  /** The ASCII table by itself is such a lower-casing. */
  lemma AsciiLowerCases()
    ensures LowerCasing(AsciiLower) && Idempotent(AsciiLower)
  {
  }

  // ---- UTF-8 ----

  /** Bytes of a code point in UTF-8. */
  function Width(c: char): nat {
    if c < '\U{0080}' then 1 else if c < '\U{0800}' then 2 else if c < '\U{10000}' then 3 else 4
  }

  /** Go's len. */
  function Bytes(s: string): nat {
    if s == "" then 0 else Bytes(s[..|s| - 1]) + Width(s[|s| - 1])
  }

  /** What is left of a string when its last `n` bytes go: its code points that lie wholly before the cut. */
  function DropBytes(s: string, n: nat): string {
    if n == 0 || s == "" then s
    else if Width(s[|s| - 1]) <= n then DropBytes(s[..|s| - 1], n - Width(s[|s| - 1]))
    else s[..|s| - 1]
  }

  lemma {:induction false} BytesConcat(a: string, b: string)
    ensures Bytes(a + b) == Bytes(a) + Bytes(b)
  {
    if b == "" {
      assert a + b == a;
    } else {
      assert (a + b)[..|a + b| - 1] == a + b[..|b| - 1];
      BytesConcat(a, b[..|b| - 1]);
    }
  }

  lemma {:induction false} BytesAtLeast(s: string)
    ensures Bytes(s) >= |s|
  {
    if s != "" {
      BytesAtLeast(s[..|s| - 1]);
    }
  }

  /** Cutting as many bytes as an ending has cuts that ending. */
  lemma {:induction false} DropEnding(a: string, b: string)
    ensures DropBytes(a + b, Bytes(b)) == a
  {
    if b == "" {
      assert a + b == a;
    } else {
      assert (a + b)[..|a + b| - 1] == a + b[..|b| - 1];
      DropEnding(a, b[..|b| - 1]);
    }
  }

  lemma {:induction false} DropIsPrefix(s: string, n: nat)
    ensures DropBytes(s, n) <= s
  {
    if n > 0 && s != "" {
      if Width(s[|s| - 1]) <= n {
        DropIsPrefix(s[..|s| - 1], n - Width(s[|s| - 1]));
      }
    }
  }

  /** Code points of one byte each. */
  predicate SingleBytes(s: string) {
    forall i :: 0 <= i < |s| ==> s[i] < '\U{0080}'
  }

  lemma {:induction false} SingleBytesLength(s: string)
    requires SingleBytes(s)
    ensures Bytes(s) == |s|
  {
    if s != "" {
      SingleBytesLength(s[..|s| - 1]);
    }
  }

  function ToLower(f: char -> char, s: string): string {
    MapChars(f, s)
  }
}
