/** The Redis key of a submission, and what equality of two keys means. */
module DedupKey {
  import opened Text
  import opened Canonical
  import Collapse
  import BoardSuffix

  function Normalize(lower: char -> char, s: string): string {
    ToLower(lower, TrimSpace(s))
  }

  function Payload(lower: char -> char, company: string, jobTitle: string): string {
    Normalize(lower, company) + "|" + Normalize(lower, jobTitle)
  }

  function Key(p: Platform, userID: string, company: string, jobTitle: string): string {
    "dedup:v1:" + userID + ":" + p.sha256(Payload(p.lower, company, jobTitle))
  }

  function EventKey(p: Platform, e: Event): string {
    Key(p, e.userID, e.company, e.jobTitle)
  }

  ghost predicate FixedWidth(sha256: string -> string) {
    forall s :: |sha256(s)| == 64
  }

  /** The digest tells these two texts apart, if they differ. */
  predicate Distinguishes(sha256: string -> string, s: string, t: string) {
    sha256(s) == sha256(t) ==> s == t
  }

  /** No other submission's payload collides with this one. */
  ghost predicate CollisionFree(p: Platform, company: string, title: string) {
    forall c, t :: Distinguishes(p.sha256, Payload(p.lower, c, t), Payload(p.lower, company, title))
  }

  // ---- whose submission ----

  /** The digest has a fixed width, so the user can be read off the key, colons in the user id or not. */
  lemma KeyDeterminesUser(p: Platform, u1: string, c1: string, t1: string, u2: string, c2: string, t2: string)
    requires FixedWidth(p.sha256)
    ensures Key(p, u1, c1, t1) == Key(p, u2, c2, t2) <==>
      u1 == u2 && p.sha256(Payload(p.lower, c1, t1)) == p.sha256(Payload(p.lower, c2, t2))
  {
    var d1, d2 := p.sha256(Payload(p.lower, c1, t1)), p.sha256(Payload(p.lower, c2, t2));
    var k1, k2 := Key(p, u1, c1, t1), Key(p, u2, c2, t2);
    assert k1[9..|k1| - 65] == u1 && k1[|k1| - 64..] == d1;
    assert k2[9..|k2| - 65] == u2 && k2[|k2| - 64..] == d2;
  }

  /** The key's text: the versioned prefix, the user, a colon, and the digest in the last 64 characters. */
  lemma KeyText(p: Platform, user: string, company: string, title: string)
    requires FixedWidth(p.sha256)
    ensures var key := Key(p, user, company, title);
            && |key| == 74 + |user|
            && key[..9] == "dedup:v1:" && key[9..|key| - 65] == user && key[|key| - 65] == ':'
            && key[|key| - 64..] == p.sha256(Payload(p.lower, company, title))
  {
    hide Payload;
  }

  // ---- which job ----

  predicate BarFree(s: string) {
    '|' !in s
  }

  lemma NormalizeBarFree(lower: char -> char, s: string)
    requires LowerCasing(lower) && BarFree(s)
    ensures BarFree(Normalize(lower, s))
  {
    hide LowerCasing, TrimSpace;
    var lo, hi := TrimSpaceIsSlice(s);
    forall i | 0 <= i < hi - lo
      ensures Normalize(lower, s)[i] != '|'
    {
      assert Normalize(lower, s)[i] == lower(s[lo + i]);
      BarOnlyFromBar(lower, s[lo + i]);
    }
  }

  lemma BarOnlyFromBar(lower: char -> char, c: char)
    requires LowerCasing(lower)
    ensures lower(c) == '|' <==> c == '|'
  {
    hide KeepsSpace, IsSpace;
  }

  /** Unless the two payloads collide, equal keys of companies free of `|` mean the same user, company and title. */
  lemma {:induction false} KeyMeaning(p: Platform, u1: string, c1: string, t1: string, u2: string, c2: string, t2: string)
    requires FixedWidth(p.sha256) && LowerCasing(p.lower)
    requires Distinguishes(p.sha256, Payload(p.lower, c1, t1), Payload(p.lower, c2, t2))
    requires BarFree(c1) && BarFree(c2)
    ensures Key(p, u1, c1, t1) == Key(p, u2, c2, t2) <==>
      && u1 == u2
      && Normalize(p.lower, c1) == Normalize(p.lower, c2)
      && Normalize(p.lower, t1) == Normalize(p.lower, t2)
  {
    KeyDeterminesUser(p, u1, c1, t1, u2, c2, t2);
    NormalizeBarFree(p.lower, c1);
    NormalizeBarFree(p.lower, c2);
    if Payload(p.lower, c1, t1) == Payload(p.lower, c2, t2) {
      FirstBarSplits(Normalize(p.lower, c1), Normalize(p.lower, t1), Normalize(p.lower, c2), Normalize(p.lower, t2));
    }
  }

  lemma FirstBar(a: string, b: string)
    requires BarFree(a)
    ensures (a + "|" + b)[|a|] == '|'
    ensures forall i :: 0 <= i < |a| ==> (a + "|" + b)[i] != '|'
    ensures (a + "|" + b)[..|a|] == a && (a + "|" + b)[|a| + 1..] == b
  {
  }

  lemma FirstBarSplits(a: string, b: string, c: string, d: string)
    requires BarFree(a) && BarFree(c) && a + "|" + b == c + "|" + d
    ensures a == c && b == d
  {
    FirstBar(a, b);
    FirstBar(c, d);
  }

  /**
   Without the hypothesis on companies, exactly these fields share their key with others: the payload
   has a second bar, whose two sides are free of white space at their ends. Then the text left of
   that bar as company, and the text right of it as title, share the key.
   */
  predicate SecondBar(payload: string, at: nat, i: nat) {
    && i < |payload| && i != at && payload[i] == '|'
    && Trimmed(payload[..i]) && Trimmed(payload[i + 1..])
  }

  ghost predicate SameKeySameFields(p: Platform, user: string, company: string, title: string) {
    forall c, t :: Key(p, user, c, t) == Key(p, user, company, title) ==>
      Normalize(p.lower, c) == Normalize(p.lower, company) && Normalize(p.lower, t) == Normalize(p.lower, title)
  }

  lemma {:induction false} KeyIdentifiesFields(p: Platform, user: string, company: string, title: string)
    requires FixedWidth(p.sha256) && LowerCasing(p.lower) && Idempotent(p.lower)
    requires CollisionFree(p, company, title)
    ensures SameKeySameFields(p, user, company, title) <==>
      forall i :: !SecondBar(Payload(p.lower, company, title), |Normalize(p.lower, company)|, i)
  {
    if i :| SecondBar(Payload(p.lower, company, title), |Normalize(p.lower, company)|, i) {
      OtherFieldsSameKey(p, user, company, title, i);
    } else {
      forall c, t | Key(p, user, c, t) == Key(p, user, company, title)
        ensures Normalize(p.lower, c) == Normalize(p.lower, company)
        ensures Normalize(p.lower, t) == Normalize(p.lower, title)
      {
        KeyDeterminesUser(p, user, c, t, user, company, title);
        assert Distinguishes(p.sha256, Payload(p.lower, c, t), Payload(p.lower, company, title));
        NormalizeIsTrimmed(p.lower, c);
        NormalizeIsTrimmed(p.lower, t);
        OtherSplit(Normalize(p.lower, c), Normalize(p.lower, t), Normalize(p.lower, company), Normalize(p.lower, title));
      }
    }
  }

  /** Two ways to read one payload either agree or split it at different bars. */
  lemma OtherSplit(a: string, b: string, c: string, d: string)
    requires a + "|" + b == c + "|" + d && Trimmed(a) && Trimmed(b)
    ensures (a == c && b == d) || SecondBar(c + "|" + d, |c|, |a|)
  {
    var payload := c + "|" + d;
    assert payload[..|a|] == a && payload[|a| + 1..] == b;
    assert payload[..|c|] == c && payload[|c| + 1..] == d;
  }

  lemma OtherFieldsSameKey(p: Platform, user: string, company: string, title: string, i: nat)
    requires LowerCasing(p.lower) && Idempotent(p.lower)
    requires SecondBar(Payload(p.lower, company, title), |Normalize(p.lower, company)|, i)
    ensures !SameKeySameFields(p, user, company, title)
  {
    var payload := Payload(p.lower, company, title);
    PayloadIsLower(p.lower, company, title);
    var c, t := ResplitPayload(p.lower, payload, i);
    assert Key(p, user, c, t) == Key(p, user, company, title);
    assert |Normalize(p.lower, c)| != |Normalize(p.lower, company)|;
  }

  lemma ResplitPayload(lower: char -> char, payload: string, i: nat) returns (c: string, t: string)
    requires i < |payload| && payload[i] == '|' && Trimmed(payload[..i]) && Trimmed(payload[i + 1..])
    requires forall j :: 0 <= j < |payload| ==> lower(payload[j]) == payload[j]
    ensures Payload(lower, c, t) == payload && |Normalize(lower, c)| == i
  {
    c, t := payload[..i], payload[i + 1..];
    NormalizeFixes(lower, c);
    NormalizeFixes(lower, t);
    assert payload == c + "|" + t;
  }

  lemma NormalizeIsTrimmed(lower: char -> char, s: string)
    requires LowerCasing(lower)
    ensures Trimmed(Normalize(lower, s))
  {
    hide TrimSpace, LowerCasing;
    assert KeepsSpace(lower) by {
      LowerCasingFacts(lower);
    }
    MappedTrimmed(lower, TrimSpace(s));
  }

  lemma LowerCasingFacts(lower: char -> char)
    requires LowerCasing(lower)
    ensures KeepsSpace(lower) && lower('|') == '|'
  {
    hide KeepsSpace, IsSpace;
    assert lower('|') == AsciiLower('|');
  }

  lemma MappedTrimmed(lower: char -> char, s: string)
    requires KeepsSpace(lower) && Trimmed(s)
    ensures Trimmed(ToLower(lower, s))
  {
    hide IsSpace;
    if s != "" {
      assert ToLower(lower, s)[0] == lower(s[0]);
      assert ToLower(lower, s)[|s| - 1] == lower(s[|s| - 1]);
    }
  }

  lemma PayloadIsLower(lower: char -> char, company: string, title: string)
    requires LowerCasing(lower) && Idempotent(lower)
    ensures var payload := Payload(lower, company, title);
            forall i :: 0 <= i < |payload| ==> lower(payload[i]) == payload[i]
  {
    hide LowerCasing, TrimSpace;
    LowerCasingFacts(lower);
    var payload := Payload(lower, company, title);
    var c, t := TrimSpace(company), TrimSpace(title);
    forall i | 0 <= i < |payload|
      ensures lower(payload[i]) == payload[i]
    {
      if i < |c| {
        assert payload[i] == lower(c[i]);
      } else if i > |c| {
        assert payload[i] == lower(t[i - |c| - 1]);
      } else {
        assert payload[i] == '|';
      }
    }
  }

  lemma NormalizeFixes(lower: char -> char, s: string)
    requires Trimmed(s) && forall i :: 0 <= i < |s| ==> lower(s[i]) == s[i]
    ensures Normalize(lower, s) == s
  {
    TrimSpaceFixes(s);
  }

  lemma NormalizeAroundBar(lower: char -> char, a: string, b: string)
    requires LowerCasing(lower)
    requires Trimmed(a) && Trimmed(b) && a != "" && b != ""
    ensures Normalize(lower, a + "|" + b) == Normalize(lower, a) + "|" + Normalize(lower, b)
  {
    hide LowerCasing, TrimSpace, IsSpace;
    LowerCasingFacts(lower);
    TrimSpaceFixes(a);
    TrimSpaceFixes(b);
    var whole := a + "|" + b;
    assert whole[0] == a[0] && whole[|whole| - 1] == b[|b| - 1];
    assert Trimmed(whole);
    TrimSpaceFixes(a + "|" + b);
    MapCharsConcat(lower, a + "|", b);
    MapCharsConcat(lower, a, "|");
  }

  /** Two different jobs, one key: the bar may sit in the company or in the title. */
  lemma {:induction false} BarConfusesJobs(p: Platform, user: string, a: string, b: string, c: string)
    requires LowerCasing(p.lower)
    requires Trimmed(a) && Trimmed(b) && Trimmed(c) && a != "" && b != "" && c != ""
    ensures Key(p, user, a + "|" + b, c) == Key(p, user, a, b + "|" + c)
    ensures Normalize(p.lower, a + "|" + b) != Normalize(p.lower, a)
  {
    NormalizeAroundBar(p.lower, a, b);
    NormalizeAroundBar(p.lower, b, c);
    BarsAssociate(Normalize(p.lower, a), Normalize(p.lower, b), Normalize(p.lower, c));
    assert Payload(p.lower, a + "|" + b, c) == Payload(p.lower, a, b + "|" + c);
    assert |Normalize(p.lower, a + "|" + b)| > |Normalize(p.lower, a)|;
  }

  lemma BarsAssociate(a: string, b: string, c: string)
    ensures (a + "|" + b) + "|" + c == a + "|" + (b + "|" + c)
  {
  }

  // ---- one job, one key ----

  lemma NormalizeUpToCase(lower: char -> char, a: string, b: string)
    requires LowerCasing(lower) && ToLower(lower, a) == ToLower(lower, b)
    ensures Normalize(lower, a) == Normalize(lower, b)
  {
    TrimSpaceMaps(lower, a);
    TrimSpaceMaps(lower, b);
  }

  predicate Collapsing(source: int) {
    source == SOURCE_CHROME_EXT || source == SOURCE_SCRAPER
  }

  /**
   What the two paths do to two titles with the same words comes to the same text: the scraper's path
   strips nothing; the Chrome path strips a board suffix, if any, and may leave part of it behind.
   */
  ghost predicate StripsAlike(p: Platform, r1: Request, r2: Request) {
    var t1, t2 := Collapse.CollapseSpec(r1.jobTitle), Collapse.CollapseSpec(r2.jobTitle);
    if r1.source == r2.source
    then r1.source == SOURCE_SCRAPER || BoardSuffix.Residue(p.lower, t1) == BoardSuffix.Residue(p.lower, t2)
    else BoardSuffix.SuffixFree(p.lower, if r1.source == SOURCE_CHROME_EXT then t1 else t2)
  }

  /**
   Key stability. Two requests of one user from the Chrome extension or the scraper, with the same
   words in company and title up to case, get the same key when their titles are stripped alike; and,
   unless their payloads collide, only then.
   */
  lemma {:induction false} SameWordsSameKey(p: Platform, r1: Request, r2: Request, now1: int, now2: int)
    requires LowerCasing(p.lower)
    requires Prepare(p, r1, now1).Ok? && Prepare(p, r2, now2).Ok?
    requires Collapsing(r1.source) && Collapsing(r2.source)
    requires TrimSpace(r1.userId) == TrimSpace(r2.userId)
    requires SameWords(p.lower, r1.company, r2.company) && SameWords(p.lower, r1.jobTitle, r2.jobTitle)
    ensures var e1, e2 := Prepare(p, r1, now1).value, Prepare(p, r2, now2).value;
            && (StripsAlike(p, r1, r2) ==> EventKey(p, e1) == EventKey(p, e2))
            && (EventKey(p, e1) == EventKey(p, e2) && PayloadsDistinct(p, e1, e2) ==> StripsAlike(p, r1, r2))
  {
    hide Prepare, LowerCasing, SameWords, Normalize, ToLower, TrimSpace, BoardSuffix.SuffixFree, BoardSuffix.StripBoardSuffixSpec,
         StripsAlike, Collapse.CollapseSpec;
    var e1, e2 := Prepare(p, r1, now1).value, Prepare(p, r2, now2).value;
    CollapsingFields(p, r1, now1);
    CollapsingFields(p, r2, now2);
    CollapseUpToCase(p.lower, r1.company, r2.company);
    CollapseUpToCase(p.lower, r1.jobTitle, r2.jobTitle);
    NormalizeUpToCase(p.lower, e1.company, e2.company);
    TitlesAlike(p, r1, r2, e1.jobTitle, e2.jobTitle);
    KeyOfSameCompany(p, e1.userID, Normalize(p.lower, e1.company), e1, e2);
  }

  /** The normalised title that a request contributes to its key. */
  lemma TitlesAlike(p: Platform, r1: Request, r2: Request, title1: string, title2: string)
    requires LowerCasing(p.lower) && Collapsing(r1.source) && Collapsing(r2.source)
    requires ToLower(p.lower, Collapse.CollapseSpec(r1.jobTitle)) == ToLower(p.lower, Collapse.CollapseSpec(r2.jobTitle))
    requires title1 == CollapsedTitle(p, r1) && title2 == CollapsedTitle(p, r2)
    ensures Normalize(p.lower, title1) == Normalize(p.lower, title2) <==> StripsAlike(p, r1, r2)
  {
    hide LowerCasing, ToLower, TrimSpace, BoardSuffix.SuffixFree, BoardSuffix.StripBoardSuffixSpec, BoardSuffix.Residue, Collapse.CollapseSpec;
    var t1, t2 := Collapse.CollapseSpec(r1.jobTitle), Collapse.CollapseSpec(r2.jobTitle);
    NormalizeIsTrimmedLower(p.lower, title1);
    NormalizeIsTrimmedLower(p.lower, title2);
    BoardSuffix.StripTextUpToCase(p.lower, t1, t2);
    BoardSuffix.StripChangesText(p.lower, t1);
    BoardSuffix.StripChangesText(p.lower, t2);
  }

  /** The two events' payloads do not collide. */
  predicate PayloadsDistinct(p: Platform, e1: Event, e2: Event) {
    Distinguishes(p.sha256, Payload(p.lower, e1.company, e1.jobTitle), Payload(p.lower, e2.company, e2.jobTitle))
  }

  lemma NormalizeIsTrimmedLower(lower: char -> char, s: string)
    requires LowerCasing(lower)
    ensures Normalize(lower, s) == TrimSpace(ToLower(lower, s))
  {
    hide LowerCasing, TrimSpace;
    LowerCasingFacts(lower);
    TrimSpaceMaps(lower, s);
  }

  lemma KeyOfSameCompany(p: Platform, user: string, company: string, e1: Event, e2: Event)
    requires e1.userID == e2.userID == user
    requires Normalize(p.lower, e1.company) == Normalize(p.lower, e2.company) == company
    ensures var x, y := Payload(p.lower, e1.company, e1.jobTitle), Payload(p.lower, e2.company, e2.jobTitle);
            && (x == y <==> Normalize(p.lower, e1.jobTitle) == Normalize(p.lower, e2.jobTitle))
            && (EventKey(p, e1) == EventKey(p, e2) <==> p.sha256(x) == p.sha256(y))
  {
    hide Normalize;
    var a, b := Normalize(p.lower, e1.jobTitle), Normalize(p.lower, e2.jobTitle);
    assert (company + "|" + a)[|company| + 1..] == a && (company + "|" + b)[|company| + 1..] == b;
    var n := 9 + |user| + 1;
    assert EventKey(p, e1)[n..] == p.sha256(Payload(p.lower, e1.company, e1.jobTitle));
    assert EventKey(p, e2)[n..] == p.sha256(Payload(p.lower, e2.company, e2.jobTitle));
  }

  function CollapsedTitle(p: Platform, r: Request): string {
    var t := Collapse.CollapseSpec(r.jobTitle);
    if r.source == SOURCE_SCRAPER then t else BoardSuffix.StripBoardSuffixSpec(p.lower, t)
  }

  /** The dashboard's defensive trimming never changes the key: it is that of the fields as they were sent. */
  lemma DashboardKey(p: Platform, req: Request, now: int)
    requires Prepare(p, req, now).Ok? && req.source == SOURCE_DASHBOARD
    ensures EventKey(p, Prepare(p, req, now).value) == Key(p, TrimSpace(req.userId), req.company, req.jobTitle)
  {
    hide TrimSpace, IsHTTPURL, ToLower;
    TrimSpaceTwice(req.company);
    TrimSpaceTwice(req.jobTitle);
  }

  lemma CollapsingFields(p: Platform, r: Request, now: int)
    requires Prepare(p, r, now).Ok? && Collapsing(r.source)
    ensures var e := Prepare(p, r, now).value;
            && e.userID == TrimSpace(r.userId)
            && e.company == Collapse.CollapseSpec(r.company)
            && e.jobTitle == CollapsedTitle(p, r)
  {
    hide TrimSpace, IsHTTPURL, Collapse.CollapseSpec, BoardSuffix.StripBoardSuffixSpec;
  }
}
