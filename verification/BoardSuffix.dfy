/** Removal of the site marker that job boards append to page titles. */
module BoardSuffix {
  import opened Text
  import Collapse

  const BOARD_SUFFIXES: seq<string> := [
    " | LinkedIn",
    " - LinkedIn",
    " | Indeed.com",
    " | Indeed",
    " - Indeed.com",
    " - Indeed",
    " | Glassdoor",
    " - Glassdoor"
  ]

  /** `suffix` ends `s`, whatever the case of either. */
  predicate Matches(lower: char -> char, s: string, suffix: string) {
    && |suffix| <= |s|
    && ToLower(lower, s)[|s| - |suffix|..] == ToLower(lower, suffix)
  }

  /** The cut is by the suffix's length in bytes, whatever the matching ending of the title takes. */
  function Cut(s: string, suffix: string): string {
    TrimSpace(DropBytes(s, Bytes(suffix)))
  }

  /** First match in the table wins. */
  function Strip(lower: char -> char, table: seq<string>, s: string): string {
    if table == [] then s
    else if Matches(lower, s, table[0]) then Cut(s, table[0])
    else Strip(lower, table[1..], s)
  }

  function StripBoardSuffixSpec(lower: char -> char, s: string): string {
    Strip(lower, BOARD_SUFFIXES, s)
  }

  method StripBoardSuffix(lower: char -> char, s: string) returns (r: string)
    ensures r == StripBoardSuffixSpec(lower, s)
  {
    hide TrimSpace;
    var lowered := ToLower(lower, s);
    for k := 0 to |BOARD_SUFFIXES|
      invariant StripBoardSuffixSpec(lower, s) == Strip(lower, BOARD_SUFFIXES[k..], s)
    {
      var suffix := BOARD_SUFFIXES[k];
      assert BOARD_SUFFIXES[k..][1..] == BOARD_SUFFIXES[k + 1..];
      if |suffix| <= |lowered| && lowered[|lowered| - |suffix|..] == ToLower(lower, suffix) {
        return TrimSpace(DropBytes(s, Bytes(suffix)));
      }
    }
    r := s;
  }

  /** What a match says about the last character and the separator of the title. */
  lemma MatchedEnds(lower: char -> char, s: string, suffix: string)
    requires Matches(lower, s, suffix) && |suffix| >= 2
    ensures lower(s[|s| - 1]) == lower(suffix[|suffix| - 1])
    ensures lower(s[|s| - |suffix| + 1]) == lower(suffix[1])
    ensures lower(s[|s| - |suffix|]) == lower(suffix[0])
  {
    var tail := ToLower(lower, s)[|s| - |suffix|..];
    assert tail[|suffix| - 1] == lower(s[|s| - 1]);
    assert tail[1] == lower(s[|s| - |suffix| + 1]);
    assert tail[0] == lower(s[|s| - |suffix|]);
  }

  // The three characters of a suffix that tell it from the others: the last one and the separator
  // (and the leading space, which all share).

  function LastChar(k: nat): char {
    if k <= 1 then 'n' else if k == 2 || k == 4 then 'm' else if k == 3 || k == 5 then 'd' else 'r'
  }

  function Separator(k: nat): char {
    if k == 0 || k == 2 || k == 3 || k == 6 then '|' else '-'
  }

  function Length(k: nat): nat {
    if k <= 1 then 11 else if k == 2 || k == 4 then 13 else if k == 3 || k == 5 then 9 else 12
  }

  lemma SuffixShape(k: nat)
    requires k < |BOARD_SUFFIXES|
    ensures k < 8 && |BOARD_SUFFIXES[k]| == Length(k)
    ensures BOARD_SUFFIXES[k][0] == ' '
    ensures BOARD_SUFFIXES[k][1] == Separator(k)
    ensures BOARD_SUFFIXES[k][Length(k) - 1] == LastChar(k)
  {
  }

  lemma DifferentEndsExclude(lower: char -> char, s: string, a: string, b: string)
    requires |a| >= 2 && |b| >= 2
    requires Matches(lower, s, a) && Matches(lower, s, b)
    ensures lower(a[|a| - 1]) == lower(b[|b| - 1])
    ensures |a| == |b| ==> lower(a[1]) == lower(b[1])
  {
    MatchedEnds(lower, s, a);
    MatchedEnds(lower, s, b);
  }

  lemma LowerFixes(lower: char -> char, c: char)
    requires LowerCasing(lower)
    ensures c in {'n', 'm', 'd', 'r', '|', '-', ' '} ==> lower(c) == c
  {
  }

  /** No title ends in two of the table's suffixes. */
  lemma OneSuffixMatches(lower: char -> char, s: string, i: nat, j: nat)
    requires LowerCasing(lower)
    requires i < |BOARD_SUFFIXES| && j < |BOARD_SUFFIXES|
    requires Matches(lower, s, BOARD_SUFFIXES[i]) && Matches(lower, s, BOARD_SUFFIXES[j])
    ensures i == j
  {
    hide BOARD_SUFFIXES, LowerCasing, Matches, ToLower;
    SuffixShape(i);
    SuffixShape(j);
    DifferentEndsExclude(lower, s, BOARD_SUFFIXES[i], BOARD_SUFFIXES[j]);
    LowerFixes(lower, LastChar(i));
    LowerFixes(lower, LastChar(j));
    LowerFixes(lower, Separator(i));
    LowerFixes(lower, Separator(j));
  }

  /** The index of the first match, or the table's length. */
  function FirstMatch(lower: char -> char, table: seq<string>, s: string): nat {
    if table == [] then 0
    else if Matches(lower, s, table[0]) then 0
    else 1 + FirstMatch(lower, table[1..], s)
  }

  lemma {:induction false} FirstMatches(lower: char -> char, table: seq<string>, s: string)
    ensures var k := FirstMatch(lower, table, s);
            && k <= |table|
            && (k < |table| ==> Matches(lower, s, table[k]) && |table[k]| <= |s| && Strip(lower, table, s) == Cut(s, table[k]))
            && (k == |table| ==> Strip(lower, table, s) == s)
            && (forall i :: 0 <= i < k ==> !Matches(lower, s, table[i]))
  {
    hide Cut, ToLower;
    if table != [] && !Matches(lower, s, table[0]) {
      FirstMatches(lower, table[1..], s);
    }
  }

  // ---- what the cut takes away ----

  /** Bytes of a text beyond one per code point. */
  function Excess(s: string): int {
    Bytes(s) - |s|
  }

  /** The widest code point that lower-cases to what `c` does, for an ASCII `c`. */
  function Room(c: char): nat {
    if c == 'k' || c == 'K' then 3 else if c == 'i' || c == 'I' then 2 else 1
  }

  function Budget(s: string): nat {
    if s == "" then 0 else Budget(s[..|s| - 1]) + Room(s[|s| - 1])
  }

  lemma SourceFits(lower: char -> char, c: char, d: char)
    requires LowerCasing(lower) && d < '\U{0080}' && lower(c) == lower(d)
    ensures Width(c) <= Room(d)
    ensures Room(d) == 1 ==> c < '\U{0080}'
  {
    hide IsSpace, KeepsSpace;
    assert lower(d) == AsciiLower(d);
  }

  lemma {:induction false} BytesWithin(lower: char -> char, t: string, u: string)
    requires LowerCasing(lower) && SingleBytes(u) && ToLower(lower, t) == ToLower(lower, u)
    ensures |t| == |u| && Bytes(t) <= Budget(u)
  {
    hide LowerCasing;
    assert |t| == |ToLower(lower, t)| == |ToLower(lower, u)| == |u|;
    if t != "" {
      var n := |t| - 1;
      assert ToLower(lower, t[..n]) == ToLower(lower, t)[..n] == ToLower(lower, u[..n]);
      assert lower(t[n]) == ToLower(lower, t)[n] == ToLower(lower, u)[n] == lower(u[n]);
      SourceFits(lower, t[n], u[n]);
      BytesWithin(lower, t[..n], u[..n]);
    }
  }

  /** The most bytes that a match of suffix `k` can have too many; its first characters have none to spare. */
  function Spare(k: nat): nat {
    if k <= 1 then 4 else if k <= 5 then 1 else 0
  }

  lemma SuffixBudget(k: nat)
    requires k < |BOARD_SUFFIXES|
    ensures SingleBytes(BOARD_SUFFIXES[k])
    ensures Budget(BOARD_SUFFIXES[k]) == |BOARD_SUFFIXES[k]| + Spare(k)
    ensures 4 < |BOARD_SUFFIXES[k]|
    ensures forall i :: 0 <= i < Spare(k) ==> Room(BOARD_SUFFIXES[k][i]) == 1
  {
    hide BOARD_SUFFIXES, Room, Budget, SingleBytes;
    var u := BOARD_SUFFIXES[k];
    SuffixIsAscii(k);
    SuffixRooms(k);
    assert u[..|u|] == u;
    BudgetOfNothing();
    assert u[..0] == "";
    if k <= 1 {
      PlainStretch(u, 0, 4);
      BudgetStep(u, 4);
      PlainStretch(u, 5, 6);
      BudgetStep(u, 6);
      PlainStretch(u, 7, 9);
      BudgetStep(u, 9);
      PlainStretch(u, 10, |u|);
    } else if k <= 5 {
      PlainStretch(u, 0, 3);
      BudgetStep(u, 3);
      PlainStretch(u, 4, |u|);
    } else {
      PlainStretch(u, 0, |u|);
    }
  }

  lemma SuffixIsAscii(k: nat)
    requires k < |BOARD_SUFFIXES|
    ensures SingleBytes(BOARD_SUFFIXES[k])
  {
  }

  /** Where the table's suffixes have an `i` or a `k`. */
  lemma SuffixRooms(k: nat)
    requires k < |BOARD_SUFFIXES|
    ensures k < 8 && |BOARD_SUFFIXES[k]| == Length(k)
    ensures forall i :: 0 <= i < Length(k) ==> Room(BOARD_SUFFIXES[k][i]) == RoomAt(k, i)
  {
  }

  function RoomAt(k: nat, i: nat): nat {
    if (k <= 1 && (i == 4 || i == 9)) || (2 <= k <= 5 && i == 3) then 2 else if k <= 1 && i == 6 then 3 else 1
  }

  lemma BudgetOfNothing()
    ensures Budget("") == 0
  {
  }

  lemma BudgetStep(u: string, i: nat)
    requires i < |u|
    ensures Budget(u[..i + 1]) == Budget(u[..i]) + Room(u[i])
  {
    assert u[..i + 1][..i] == u[..i];
  }

  lemma {:induction false} PlainStretch(u: string, from: nat, to: nat)
    requires from <= to <= |u| && forall i :: from <= i < to ==> Room(u[i]) == 1
    ensures Budget(u[..to]) == Budget(u[..from]) + to - from
  {
    hide Room;
    if from < to {
      PlainStretch(u, from, to - 1);
      BudgetStep(u, to - 1);
    }
  }

  /**
   A match is a suffix with some `i` spelled as a dotted capital I or some `k` as the Kelvin sign; for
   each byte those take too much, one character of the suffix is left behind, at most four in all.
   */
  lemma CutLeavesExcess(lower: char -> char, s: string, k: nat)
    requires LowerCasing(lower)
    requires k < |BOARD_SUFFIXES| && Matches(lower, s, BOARD_SUFFIXES[k])
    ensures var n := |s| - |BOARD_SUFFIXES[k]|;
            0 <= Excess(s[n..]) <= 4 && DropBytes(s, Bytes(BOARD_SUFFIXES[k])) == s[..n + Excess(s[n..])]
  {
    hide LowerCasing, BOARD_SUFFIXES, Budget, Room, Bytes, DropBytes, ToLower, Matches, Excess, SingleBytes;
    var u := BOARD_SUFFIXES[k];
    MatchedTail(lower, s, u);
    var n := |s| - |u|;
    var t := s[n..];
    SuffixBudget(k);
    ExcessWithin(lower, t, u);
    SingleBytesLength(u);
    var e := Excess(t);
    StartIsPlain(lower, t, u, e);
    BytesAfterExcess(t);
    DropsAfter(s, n, e, Bytes(u));
  }

  lemma MatchedTail(lower: char -> char, s: string, u: string)
    requires Matches(lower, s, u)
    ensures |u| <= |s| && ToLower(lower, s[|s| - |u|..]) == ToLower(lower, u)
  {
    assert ToLower(lower, s[|s| - |u|..]) == ToLower(lower, s)[|s| - |u|..];
  }

  lemma DropsAfter(s: string, n: nat, e: nat, bytes: nat)
    requires n + e <= |s| && Bytes(s[n..][e..]) == bytes
    ensures DropBytes(s, bytes) == s[..n + e]
  {
    hide Bytes, DropBytes;
    assert s == s[..n + e] + s[n..][e..];
    DropEnding(s[..n + e], s[n..][e..]);
  }

  lemma StartIsPlain(lower: char -> char, t: string, u: string, e: nat)
    requires LowerCasing(lower) && SingleBytes(u) && ToLower(lower, t) == ToLower(lower, u)
    requires e <= |t| == |u| && forall i :: 0 <= i < e ==> Room(u[i]) == 1
    ensures SingleBytes(t[..e])
  {
    hide LowerCasing, Room;
    forall i | 0 <= i < e
      ensures t[i] < '\U{0080}'
    {
      assert lower(t[i]) == ToLower(lower, t)[i] == ToLower(lower, u)[i] == lower(u[i]);
      SourceFits(lower, t[i], u[i]);
    }
  }

  lemma ExcessWithin(lower: char -> char, t: string, u: string)
    requires LowerCasing(lower) && SingleBytes(u) && ToLower(lower, t) == ToLower(lower, u)
    ensures |t| == |u| && 0 <= Excess(t) <= Budget(u) - |u|
  {
    hide LowerCasing, ToLower, Budget, SingleBytes, Bytes;
    BytesWithin(lower, t, u);
    BytesAtLeast(t);
  }

  lemma BytesAfterExcess(t: string)
    requires 0 <= Excess(t) <= |t| && SingleBytes(t[..Excess(t)])
    ensures Bytes(t[Excess(t)..]) == |t|
  {
    hide Bytes, SingleBytes;
    var e := Excess(t);
    assert t == t[..e] + t[e..];
    BytesConcat(t[..e], t[e..]);
    SingleBytesLength(t[..e]);
  }

  /** The code's answer without the loop: cut the one matching suffix, wherever the table lists it. */
  lemma StripMeaning(lower: char -> char, s: string, k: nat)
    requires LowerCasing(lower)
    requires k < |BOARD_SUFFIXES| && Matches(lower, s, BOARD_SUFFIXES[k])
    ensures var n := |s| - |BOARD_SUFFIXES[k]|;
            && 0 <= Excess(s[n..]) <= 4
            && StripBoardSuffixSpec(lower, s) == TrimSpace(s[..n + Excess(s[n..])])
    ensures Trimmed(StripBoardSuffixSpec(lower, s))
  {
    hide LowerCasing, BOARD_SUFFIXES, ToLower, TrimSpace;
    var first := FirstMatch(lower, BOARD_SUFFIXES, s);
    FirstMatches(lower, BOARD_SUFFIXES, s);
    if first < |BOARD_SUFFIXES| {
      OneSuffixMatches(lower, s, k, first);
    }
    CutLeavesExcess(lower, s, k);
  }

  ghost predicate Exclusive(lower: char -> char, table: seq<string>, s: string) {
    forall i, j :: 0 <= i < |table| && 0 <= j < |table| && Matches(lower, s, table[i]) && Matches(lower, s, table[j])
      ==> i == j
  }

  lemma ExclusiveTablesAgree(lower: char -> char, a: seq<string>, b: seq<string>, s: string)
    requires Exclusive(lower, b, s) && multiset(a) == multiset(b)
    ensures Strip(lower, a, s) == Strip(lower, b, s)
  {
    hide Cut, ToLower;
    var k, j := FirstMatch(lower, a, s), FirstMatch(lower, b, s);
    FirstMatches(lower, a, s);
    FirstMatches(lower, b, s);
    assert j < |b| ==> b[j] in multiset(a);
    if k < |a| {
      assert a[k] in multiset(b);
      var i :| 0 <= i < |b| && b[i] == a[k];
      assert i == j;
    }
  }

  /** The table's order is immaterial: any listing of the same suffixes gives the same title. */
  lemma StripIgnoresOrder(lower: char -> char, table: seq<string>, s: string)
    requires LowerCasing(lower)
    requires multiset(table) == multiset(BOARD_SUFFIXES)
    ensures Strip(lower, table, s) == StripBoardSuffixSpec(lower, s)
  {
    assert Exclusive(lower, BOARD_SUFFIXES, s) by {
      forall i, j | 0 <= i < |BOARD_SUFFIXES| && 0 <= j < |BOARD_SUFFIXES|
                    && Matches(lower, s, BOARD_SUFFIXES[i]) && Matches(lower, s, BOARD_SUFFIXES[j])
        ensures i == j
      {
        OneSuffixMatches(lower, s, i, j);
      }
    }
    ExclusiveTablesAgree(lower, table, BOARD_SUFFIXES, s);
  }

  ghost predicate SuffixFree(lower: char -> char, s: string) {
    forall k :: 0 <= k < |BOARD_SUFFIXES| ==> !Matches(lower, s, BOARD_SUFFIXES[k])
  }

  lemma StripOfSuffixFree(lower: char -> char, s: string)
    requires SuffixFree(lower, s)
    ensures StripBoardSuffixSpec(lower, s) == s
  {
    hide Matches, Cut;
    FirstMatches(lower, BOARD_SUFFIXES, s);
  }

  // ---- titles equal up to case ----

  lemma MatchUpToCase(lower: char -> char, s: string, t: string, suffix: string)
    requires ToLower(lower, s) == ToLower(lower, t)
    ensures |s| == |t| == |ToLower(lower, s)| && (Matches(lower, s, suffix) <==> Matches(lower, t, suffix))
  {
    assert |s| == |ToLower(lower, s)| == |ToLower(lower, t)| == |t|;
  }

  /** What shows of the suffix after the cut: nothing, its separator, or separator and first letter. */
  function Residue(lower: char -> char, s: string): int {
    var k := FirstMatch(lower, BOARD_SUFFIXES, s);
    if k < |BOARD_SUFFIXES| && Matches(lower, s, BOARD_SUFFIXES[k])
    then Excess(s[|s| - |BOARD_SUFFIXES[k]|..]) / 2
    else 0
  }

  lemma ResidueOfMatch(lower: char -> char, s: string, k: nat)
    requires LowerCasing(lower)
    requires k < |BOARD_SUFFIXES| && Matches(lower, s, BOARD_SUFFIXES[k])
    ensures Residue(lower, s) == Excess(s[|s| - |BOARD_SUFFIXES[k]|..]) / 2
  {
    hide LowerCasing, BOARD_SUFFIXES, ToLower;
    FirstMatches(lower, BOARD_SUFFIXES, s);
    var first := FirstMatch(lower, BOARD_SUFFIXES, s);
    if first < |BOARD_SUFFIXES| {
      OneSuffixMatches(lower, s, k, first);
    }
  }

  /** Cuts that leave one or two of a space and what follows it differ when the character that follows does. */
  lemma TrimResidues(l: string, n: nat, d: nat, e: nat)
    requires n + 4 <= |l| && d <= 4 && e <= 4
    requires IsSpace(l[n]) && !IsSpace(l[n + 1]) && IsSpace(l[n + 2]) && !IsSpace(l[n + 3])
    ensures TrimSpace(l[..n + d]) == TrimSpace(l[..n + e]) <==> d / 2 == e / 2
  {
    hide IsSpace, TrimSpace;
    assert l[..n + 1] == l[..n] + [l[n]];
    TrimTrailing(l[..n], l[n]);
    assert l[..n + 3] == l[..n + 2] + [l[n + 2]];
    TrimTrailing(l[..n + 2], l[n + 2]);
    assert l[..n + 2] == l[..n] + l[n..n + 2];
    TrimTellsApart(l[..n], l[n..n + 2]);
    assert l[..n + 4] == l[..n] + l[n..n + 4];
    TrimTellsApart(l[..n], l[n..n + 4]);
    assert l[..n + 4] == l[..n + 2] + l[n + 2..n + 4];
    TrimTellsApart(l[..n + 2], l[n + 2..n + 4]);
  }

  /** The lower-cased title around a match. */
  lemma MatchedShape(lower: char -> char, s: string, k: nat)
    requires LowerCasing(lower)
    requires k < |BOARD_SUFFIXES| && Matches(lower, s, BOARD_SUFFIXES[k])
    ensures var l, n := ToLower(lower, s), |s| - |BOARD_SUFFIXES[k]|;
            && 4 < |BOARD_SUFFIXES[k]| <= |s|
            && IsSpace(l[n]) && !IsSpace(l[n + 1]) && IsSpace(l[n + 2]) && !IsSpace(l[n + 3])
            && !IsSpace(l[|s| - 1])
  {
    hide LowerCasing, BOARD_SUFFIXES, IsSpace;
    var u, n := BOARD_SUFFIXES[k], |s| - |BOARD_SUFFIXES[k]|;
    SuffixSpaces(k);
    LowerCasingKeepsSpace(lower);
    MatchedSpaces(lower, s, u, 0);
    MatchedSpaces(lower, s, u, 1);
    MatchedSpaces(lower, s, u, 2);
    MatchedSpaces(lower, s, u, 3);
    MatchedSpaces(lower, s, u, |u| - 1);
  }

  lemma MatchedSpaces(lower: char -> char, s: string, u: string, i: nat)
    requires KeepsSpace(lower) && Matches(lower, s, u) && i < |u|
    ensures IsSpace(ToLower(lower, s)[|s| - |u| + i]) <==> IsSpace(u[i])
  {
    hide IsSpace;
    var l := ToLower(lower, s);
    assert l[|s| - |u| + i] == l[|s| - |u|..][i] == ToLower(lower, u)[i] == lower(u[i]);
  }

  lemma SuffixSpaces(k: nat)
    requires k < |BOARD_SUFFIXES|
    ensures var u := BOARD_SUFFIXES[k];
            4 < |u| && IsSpace(u[0]) && !IsSpace(u[1]) && IsSpace(u[2]) && !IsSpace(u[3]) && !IsSpace(u[|u| - 1])
  {
  }

  /** A stripped title, lower-cased, is read off the lower-cased title. */
  lemma StrippedLower(lower: char -> char, s: string, k: nat)
    requires LowerCasing(lower)
    requires k < |BOARD_SUFFIXES| && Matches(lower, s, BOARD_SUFFIXES[k])
    ensures var n := |s| - |BOARD_SUFFIXES[k]|;
            && 0 <= Excess(s[n..]) <= 4 < |BOARD_SUFFIXES[k]| <= |s|
            && ToLower(lower, StripBoardSuffixSpec(lower, s)) == TrimSpace(ToLower(lower, s)[..n + Excess(s[n..])])
  {
    hide LowerCasing, StripBoardSuffixSpec, BOARD_SUFFIXES, TrimSpace;
    StripMeaning(lower, s, k);
    SuffixBudget(k);
    var m := |s| - |BOARD_SUFFIXES[k]| + Excess(s[|s| - |BOARD_SUFFIXES[k]|..]);
    LowerCasingKeepsSpace(lower);
    TrimSpaceMaps(lower, s[..m]);
    assert ToLower(lower, s[..m]) == ToLower(lower, s)[..m];
  }

  lemma LowerCasingKeepsSpace(lower: char -> char)
    requires LowerCasing(lower)
    ensures KeepsSpace(lower)
  {
    hide KeepsSpace, IsSpace;
  }

  /** Titles equal up to case stay equal up to case exactly when their cuts leave equally much of the suffix. */
  lemma StripUpToCase(lower: char -> char, s: string, t: string)
    requires LowerCasing(lower) && ToLower(lower, s) == ToLower(lower, t)
    ensures ToLower(lower, StripBoardSuffixSpec(lower, s)) == ToLower(lower, StripBoardSuffixSpec(lower, t))
        <==> Residue(lower, s) == Residue(lower, t)
  {
    hide LowerCasing, StripBoardSuffixSpec, Residue, BOARD_SUFFIXES, TrimSpace, ToLower, Matches, IsSpace;
    var k := FirstMatch(lower, BOARD_SUFFIXES, s);
    FirstMatches(lower, BOARD_SUFFIXES, s);
    if k < |BOARD_SUFFIXES| {
      MatchUpToCase(lower, s, t, BOARD_SUFFIXES[k]);
      ResidueOfMatch(lower, s, k);
      ResidueOfMatch(lower, t, k);
      StrippedLower(lower, s, k);
      StrippedLower(lower, t, k);
      MatchedShape(lower, s, k);
      var n := |s| - |BOARD_SUFFIXES[k]|;
      TrimResidues(ToLower(lower, s), n, Excess(s[n..]), Excess(t[n..]));
    } else {
      SuffixFreeStays(lower, s);
      SuffixFreeUpToCase(lower, s, t);
      SuffixFreeStays(lower, t);
    }
  }

  /** The same with outer white space disregarded, as the dedup key does. */
  lemma StripTextUpToCase(lower: char -> char, s: string, t: string)
    requires LowerCasing(lower) && ToLower(lower, s) == ToLower(lower, t)
    ensures TrimSpace(ToLower(lower, StripBoardSuffixSpec(lower, s))) == TrimSpace(ToLower(lower, StripBoardSuffixSpec(lower, t)))
        <==> Residue(lower, s) == Residue(lower, t)
  {
    hide LowerCasing, StripBoardSuffixSpec, Residue, BOARD_SUFFIXES, TrimSpace, ToLower, Matches, Excess;
    StripUpToCase(lower, s, t);
    var k := FirstMatch(lower, BOARD_SUFFIXES, s);
    FirstMatches(lower, BOARD_SUFFIXES, s);
    if k < |BOARD_SUFFIXES| {
      MatchUpToCase(lower, s, t, BOARD_SUFFIXES[k]);
      StrippedLower(lower, s, k);
      StrippedLower(lower, t, k);
      var n := |s| - |BOARD_SUFFIXES[k]|;
      TrimSpaceTwice(ToLower(lower, s)[..n + Excess(s[n..])]);
      TrimSpaceTwice(ToLower(lower, t)[..n + Excess(t[n..])]);
    } else {
      SuffixFreeStays(lower, s);
      SuffixFreeUpToCase(lower, s, t);
      SuffixFreeStays(lower, t);
    }
  }

  lemma SuffixFreeUpToCase(lower: char -> char, s: string, t: string)
    requires ToLower(lower, s) == ToLower(lower, t)
    ensures SuffixFree(lower, s) <==> SuffixFree(lower, t)
  {
    hide ToLower, Matches;
    forall k | 0 <= k < |BOARD_SUFFIXES|
      ensures Matches(lower, s, BOARD_SUFFIXES[k]) <==> Matches(lower, t, BOARD_SUFFIXES[k])
    {
      MatchUpToCase(lower, s, t, BOARD_SUFFIXES[k]);
    }
  }

  lemma SuffixFreeStays(lower: char -> char, s: string)
    requires SuffixFree(lower, s)
    ensures StripBoardSuffixSpec(lower, s) == s && Residue(lower, s) == 0
  {
    hide Matches, Cut, BOARD_SUFFIXES;
    StripOfSuffixFree(lower, s);
  }

  /** A stripped title never has the same text, white space aside, as the title it came from. */
  lemma StripChangesText(lower: char -> char, s: string)
    requires LowerCasing(lower)
    ensures TrimSpace(ToLower(lower, StripBoardSuffixSpec(lower, s))) == TrimSpace(ToLower(lower, s)) <==> SuffixFree(lower, s)
  {
    hide LowerCasing, StripBoardSuffixSpec, BOARD_SUFFIXES, TrimSpace, Matches, IsSpace;
    var k := FirstMatch(lower, BOARD_SUFFIXES, s);
    FirstMatches(lower, BOARD_SUFFIXES, s);
    if k < |BOARD_SUFFIXES| {
      assert !SuffixFree(lower, s);
      StrippedLower(lower, s, k);
      MatchedShape(lower, s, k);
      var l, m := ToLower(lower, s), |s| - |BOARD_SUFFIXES[k]| + Excess(s[|s| - |BOARD_SUFFIXES[k]|..]);
      assert l == l[..m] + l[m..] && l[m..][|l[m..]| - 1] == l[|s| - 1];
      TrimTellsApart(l[..m], l[m..]);
      TrimSpaceTwice(l[..m]);
    } else {
      SuffixFreeStays(lower, s);
    }
  }

  const KELVIN_TITLE := "SWE | Lin\U{212a}edIn"
  const PLAIN_TITLE := "SWE | LinkedIn"

  /** The condition matters: a Kelvin sign in the suffix leaves the separator behind. */
  lemma KelvinSignLeavesBar(lower: char -> char)
    requires LowerCasing(lower) && lower(KELVIN_SIGN) == 'k'
    ensures ToLower(lower, KELVIN_TITLE) == ToLower(lower, PLAIN_TITLE)
    ensures Residue(lower, KELVIN_TITLE) == 1 && Residue(lower, PLAIN_TITLE) == 0
    ensures ToLower(lower, StripBoardSuffixSpec(lower, KELVIN_TITLE)) != ToLower(lower, StripBoardSuffixSpec(lower, PLAIN_TITLE))
  {
    hide StripBoardSuffixSpec, LowerCasing, KELVIN_TITLE, PLAIN_TITLE, ToLower, Matches, Residue, Excess;
    TitleShapes();
    KelvinLower(lower);
    PlainMatches(lower);
    MatchUpToCase(lower, KELVIN_TITLE, PLAIN_TITLE, BOARD_SUFFIXES[0]);
    ResidueOfMatch(lower, KELVIN_TITLE, 0);
    ResidueOfMatch(lower, PLAIN_TITLE, 0);
    KelvinBytes();
    assert Residue(lower, KELVIN_TITLE) == 1 && Residue(lower, PLAIN_TITLE) == 0;
    StripUpToCase(lower, KELVIN_TITLE, PLAIN_TITLE);
  }

  // ---- after collapsing ----

  lemma SubstringCollapsed(s: string, lo: nat, hi: nat)
    requires Collapse.Collapsed(s) && lo <= hi <= |s|
    requires lo < hi ==> s[lo] != ' ' && s[hi - 1] != ' '
    ensures Collapse.Collapsed(s[lo..hi])
  {
    var r := s[lo..hi];
    forall i | 0 < i < |r|
      ensures !(r[i - 1] == ' ' && r[i] == ' ')
    {
      assert r[i] == s[lo + i] && r[i - 1] == s[lo + i - 1];
    }
  }

  lemma CutIsSubstring(s: string, suffix: string) returns (lo: nat, hi: nat)
    ensures lo <= hi <= |s| && Cut(s, suffix) == s[lo..hi]
  {
    hide TrimSpace;
    DropIsPrefix(s, Bytes(suffix));
    var kept := DropBytes(s, Bytes(suffix));
    lo, hi := TrimSpaceIsSlice(kept);
    SlicePrefix(s, |kept|, lo, hi);
  }

  lemma SlicePrefix(s: string, n: nat, lo: nat, hi: nat)
    requires lo <= hi <= n <= |s|
    ensures s[..n][lo..hi] == s[lo..hi]
  {
  }

  /** A match in a collapsed title leaves something before the suffix, and a plain space starts the suffix. */
  lemma SomethingBeforeSuffix(lower: char -> char, s: string, k: nat)
    requires LowerCasing(lower) && Collapse.Collapsed(s)
    requires k < |BOARD_SUFFIXES| && Matches(lower, s, BOARD_SUFFIXES[k])
    ensures |BOARD_SUFFIXES[k]| < |s| && s[|s| - |BOARD_SUFFIXES[k]|] == ' '
  {
    SuffixShape(k);
    MatchedEnds(lower, s, BOARD_SUFFIXES[k]);
    var c := s[|s| - |BOARD_SUFFIXES[k]|];
    assert lower(' ') == ' ';
    assert IsSpace(lower(c)) && IsSpace(c) && lower(c) == c;
  }

  lemma TrimKeepsCollapsed(s: string)
    requires Collapse.Collapsed(s)
    ensures Collapse.Collapsed(TrimSpace(s))
  {
    hide TrimSpace, Collapse.Collapsed;
    var lo, hi := TrimSpaceIsSlice(s);
    var r := TrimSpace(s);
    assert Trimmed(r) && IsSpace(' ');
    if lo < hi {
      assert r[0] == s[lo] && r[|r| - 1] == s[hi - 1];
    }
    SubstringCollapsed(s, lo, hi);
  }

  lemma CutKeepsCollapsed(s: string, suffix: string)
    requires Collapse.Collapsed(s)
    ensures Collapse.Collapsed(Cut(s, suffix))
  {
    hide TrimSpace, Collapse.Collapsed;
    var lo, hi := CutIsSubstring(s, suffix);
    var r := Cut(s, suffix);
    assert Trimmed(r) && IsSpace(' ');
    if lo < hi {
      assert r[0] == s[lo] && r[|r| - 1] == s[hi - 1];
    }
    SubstringCollapsed(s, lo, hi);
  }

  /** Stripping keeps the collapsed normal form, whatever the table. */
  lemma {:induction false} StripKeepsCollapsed(lower: char -> char, table: seq<string>, s: string)
    requires Collapse.Collapsed(s)
    ensures Collapse.Collapsed(Strip(lower, table, s))
  {
    if table == [] {
    } else if Matches(lower, s, table[0]) {
      CutKeepsCollapsed(s, table[0]);
    } else {
      StripKeepsCollapsed(lower, table[1..], s);
    }
  }

  /**
   A title with a suffix is stripped to nothing exactly when all that precedes the suffix is white space
   and the cut leaves none of it; after collapsing that can only be white space the collapse does not
   fold (U+2003, say).
   */
  lemma StripEmpties(lower: char -> char, s: string, k: nat)
    requires LowerCasing(lower)
    requires k < |BOARD_SUFFIXES| && Matches(lower, s, BOARD_SUFFIXES[k])
    ensures StripBoardSuffixSpec(lower, s) == "" <==> AllSpace(s[..|s| - |BOARD_SUFFIXES[k]|]) && Residue(lower, s) == 0
  {
    hide LowerCasing, StripBoardSuffixSpec, Residue, BOARD_SUFFIXES, TrimSpace, IsSpace, Excess;
    var n := |s| - |BOARD_SUFFIXES[k]|;
    var e := Excess(s[n..]);
    StripMeaning(lower, s, k);
    ResidueOfMatch(lower, s, k);
    MatchedTitle(lower, s, k);
    TrimSpaceEmpty(s[..n + e]);
    assert forall i :: 0 <= i < n ==> s[..n + e][i] == s[..n][i];
    if e > 0 {
      assert s[..n + e][n] == s[n];
    }
    if e > 1 {
      assert s[..n + e][n + 1] == s[n + 1];
    }
  }

  /** The title itself around a match. */
  lemma MatchedTitle(lower: char -> char, s: string, k: nat)
    requires LowerCasing(lower)
    requires k < |BOARD_SUFFIXES| && Matches(lower, s, BOARD_SUFFIXES[k])
    ensures var n := |s| - |BOARD_SUFFIXES[k]|;
            4 < |BOARD_SUFFIXES[k]| && IsSpace(s[n]) && !IsSpace(s[n + 1])
  {
    hide LowerCasing, BOARD_SUFFIXES, IsSpace;
    MatchedShape(lower, s, k);
    LowerCasingKeepsSpace(lower);
    var n := |s| - |BOARD_SUFFIXES[k]|;
    assert ToLower(lower, s)[n] == lower(s[n]) && ToLower(lower, s)[n + 1] == lower(s[n + 1]);
  }

  predicate OnlyPlainSpaces(s: string) {
    forall i :: 0 <= i < |s| && IsSpace(s[i]) ==> s[i] == ' '
  }

  lemma TrimIsPrefix(s: string)
    requires s != "" && !IsSpace(s[0])
    ensures TrimSpace(s) != "" && TrimSpace(s) <= s
  {
    TrimSpaceEmpty(s);
  }

  /**
   When the only white space left after collapsing is the plain space, the result is a prefix of the
   collapsed title, and a title never becomes empty.
   */
  lemma StripIsPrefix(lower: char -> char, s: string)
    requires LowerCasing(lower) && Collapse.Collapsed(s) && OnlyPlainSpaces(s)
    ensures StripBoardSuffixSpec(lower, s) <= s
    ensures s != "" ==> StripBoardSuffixSpec(lower, s) != ""
  {
    hide Matches, Cut, LowerCasing, BOARD_SUFFIXES, StripBoardSuffixSpec, TrimSpace, Excess;
    var k := FirstMatch(lower, BOARD_SUFFIXES, s);
    FirstMatches(lower, BOARD_SUFFIXES, s);
    if k < |BOARD_SUFFIXES| {
      SomethingBeforeSuffix(lower, s, k);
      StripMeaning(lower, s, k);
      SuffixBudget(k);
      var kept := s[..|s| - |BOARD_SUFFIXES[k]| + Excess(s[|s| - |BOARD_SUFFIXES[k]|..])];
      assert kept != "" && kept[0] == s[0] && s[0] != ' ';
      TrimIsPrefix(kept);
    } else {
      SuffixFreeStays(lower, s);
    }
  }

  const EM_SPACED := "\U{2003} | Indeed"

  /** The hypothesis of StripIsPrefix matters: an em space survives collapsing, and then the whole title goes. */
  lemma StripCanEmptyATitle(lower: char -> char)
    requires LowerCasing(lower)
    ensures Collapse.Collapsed(EM_SPACED)
    ensures StripBoardSuffixSpec(lower, EM_SPACED) == ""
  {
    hide Matches, StripBoardSuffixSpec, Residue, LowerCasing, AllSpace, Collapse.Collapsed;
    EmSpacedCollapsed();
    IndeedSuffix();
    MatchesOwnTail(lower, EM_SPACED, BOARD_SUFFIXES[3]);
    ResidueOfMatch(lower, EM_SPACED, 3);
    SingleBytesLength(EM_SPACED[1..]);
    StripEmpties(lower, EM_SPACED, 3);
  }

  lemma EmSpacedCollapsed()
    ensures Collapse.Collapsed(EM_SPACED)
  {
  }

  lemma IndeedSuffix()
    ensures |BOARD_SUFFIXES| == 8 && |EM_SPACED| == 10 && |BOARD_SUFFIXES[3]| == 9
    ensures EM_SPACED[1..] == BOARD_SUFFIXES[3]
    ensures AllSpace(EM_SPACED[..1]) && SingleBytes(BOARD_SUFFIXES[3])
  {
  }

  lemma MatchesOwnTail(lower: char -> char, s: string, suffix: string)
    requires |suffix| <= |s| && s[|s| - |suffix|..] == suffix
    ensures Matches(lower, s, suffix)
  {
    var tail := ToLower(lower, s)[|s| - |suffix|..];
    forall i | 0 <= i < |suffix|
      ensures tail[i] == ToLower(lower, suffix)[i]
    {
      assert tail[i] == lower(s[|s| - |suffix| + i]);
      assert suffix[i] == s[|s| - |suffix| + i];
    }
  }

  // ---- the suffixes, named ----

  predicate NamedSuffix(suffix: string) {
    suffix in [" | LinkedIn", " - LinkedIn", " | Indeed.com", " - Indeed.com", " | Indeed", " - Indeed", " | Glassdoor", " - Glassdoor"]
  }

  lemma TableIsNamed(k: nat)
    requires k < |BOARD_SUFFIXES|
    ensures NamedSuffix(BOARD_SUFFIXES[k])
  {
  }

  lemma NamedIsInTable(suffix: string) returns (k: nat)
    requires NamedSuffix(suffix)
    ensures k < |BOARD_SUFFIXES| && BOARD_SUFFIXES[k] == suffix
  {
    k := if suffix == " | LinkedIn" then 0
         else if suffix == " - LinkedIn" then 1
         else if suffix == " | Indeed.com" then 2
         else if suffix == " | Indeed" then 3
         else if suffix == " - Indeed.com" then 4
         else if suffix == " - Indeed" then 5
         else if suffix == " | Glassdoor" then 6
         else 7;
  }

  /** Each of the eight suffixes goes, and only what ends in one of them, in any case, loses anything. */
  lemma NamedSuffixesGo(lower: char -> char, title: string, suffix: string)
    requires LowerCasing(lower) && NamedSuffix(suffix)
    ensures StripBoardSuffixSpec(lower, title + suffix) == TrimSpace(title)
  {
    hide LowerCasing, StripBoardSuffixSpec, BOARD_SUFFIXES, TrimSpace, Matches, NamedSuffix, Bytes, SingleBytes;
    var k := NamedIsInTable(suffix);
    var s := title + suffix;
    assert s[|s| - |suffix|..] == suffix;
    MatchesOwnTail(lower, s, suffix);
    StripMeaning(lower, s, k);
    SuffixIsAscii(k);
    SingleBytesLength(suffix);
    assert s[..|s| - |suffix|] == title;
  }

  lemma OthersStay(lower: char -> char, s: string)
    ensures (forall suffix :: NamedSuffix(suffix) ==> !Matches(lower, s, suffix)) ==> StripBoardSuffixSpec(lower, s) == s
  {
    hide StripBoardSuffixSpec, BOARD_SUFFIXES, Matches, NamedSuffix;
    if forall suffix :: NamedSuffix(suffix) ==> !Matches(lower, s, suffix) {
      forall k | 0 <= k < |BOARD_SUFFIXES|
        ensures !Matches(lower, s, BOARD_SUFFIXES[k])
      {
        TableIsNamed(k);
      }
      StripOfSuffixFree(lower, s);
    }
  }

  // ---- the Kelvin title ----

  lemma TitleShapes()
    ensures |KELVIN_TITLE| == |PLAIN_TITLE| == 14
    ensures KELVIN_TITLE[9] == KELVIN_SIGN && PLAIN_TITLE[9] == 'k'
    ensures KELVIN_TITLE[..9] == PLAIN_TITLE[..9] && KELVIN_TITLE[10..] == PLAIN_TITLE[10..]
    ensures PLAIN_TITLE[3..] == BOARD_SUFFIXES[0] && |BOARD_SUFFIXES[0]| == 11 && |BOARD_SUFFIXES| == 8
    ensures SingleBytes(PLAIN_TITLE)
  {
  }

  lemma KelvinLower(lower: char -> char)
    requires LowerCasing(lower) && lower(KELVIN_SIGN) == 'k'
    ensures ToLower(lower, KELVIN_TITLE) == ToLower(lower, PLAIN_TITLE)
  {
    hide IsSpace, KeepsSpace, KELVIN_TITLE, PLAIN_TITLE;
    TitleShapes();
    assert lower('k') == AsciiLower('k');
    forall i | 0 <= i < 14
      ensures ToLower(lower, KELVIN_TITLE)[i] == ToLower(lower, PLAIN_TITLE)[i]
    {
      if i < 9 {
        assert KELVIN_TITLE[..9][i] == PLAIN_TITLE[..9][i];
      } else if i > 9 {
        assert KELVIN_TITLE[10..][i - 10] == PLAIN_TITLE[10..][i - 10];
      }
    }
  }

  lemma PlainMatches(lower: char -> char)
    ensures Matches(lower, PLAIN_TITLE, BOARD_SUFFIXES[0])
  {
    hide ToLower, Matches;
    TitleShapes();
    MatchesOwnTail(lower, PLAIN_TITLE, BOARD_SUFFIXES[0]);
  }

  lemma KelvinBytes()
    ensures |KELVIN_TITLE| == |PLAIN_TITLE| == 14
    ensures Excess(KELVIN_TITLE[3..]) == 2 && Excess(PLAIN_TITLE[3..]) == 0
  {
    hide KELVIN_TITLE, PLAIN_TITLE, BOARD_SUFFIXES;
    TitleShapes();
    var a, b := PLAIN_TITLE[3..9], PLAIN_TITLE[10..];
    SingleBytesLength(PLAIN_TITLE[3..]);
    SingleBytesLength(a);
    SingleBytesLength(b);
    assert KELVIN_TITLE[3..] == a + [KELVIN_SIGN] + b;
    BytesConcat(a + [KELVIN_SIGN], b);
    BytesConcat(a, [KELVIN_SIGN]);
    assert Bytes([KELVIN_SIGN]) == 3;
  }
}
