/**
 When a dedup key identifies the job, among the submissions the service accepts. Validation asks only
 that company and title are not empty; on the collapsing paths a field of nothing but an em space passes
 and contributes nothing to the key.
 */
module JobIdentity {
  import opened Prelude
  import opened Text
  import opened Canonical
  import opened DedupKey
  import BoardSuffix
  import Collapse

  /** The event of some accepted submission of this user. */
  ghost predicate Accepted(p: Platform, user: string, e: Event) {
    e.userID == user && exists req, now: int :: Prepare(p, req, now) == Ok(e)
  }

  /** Lower-casing makes no zero-width character. */
  ghost predicate MakesNoneInvisible(lower: char -> char) {
    forall c {:trigger lower(c)} :: Collapse.ZeroWidth(lower(c)) ==> Collapse.ZeroWidth(c)
  }

  /** A URL that any source may submit. */
  predicate GoodUrl(p: Platform, url: string) {
    url != "" && Trimmed(url) && IsHTTPURL(p, url)
  }

  /**
   The normal forms that company and title of an accepted submission can have: both non-empty, or one
   empty and the other collapsed, since only the collapsing paths let a blank field pass.
   */
  predicate Expressible(company: string, title: string) {
    (company != "" || Collapse.Collapsed(title)) && (title != "" || Collapse.Collapsed(company))
  }

  const BLANK := "\U{2003}"

  function Submittable(text: string): string {
    if text == "" then BLANK else text
  }

  lemma BlankIsCollapsed()
    ensures Collapse.Collapsed(BLANK) && BLANK != ""
  {
  }

  lemma BlankIsSpace()
    ensures AllSpace(BLANK)
  {
  }

  lemma SubmittableText(lower: char -> char, text: string)
    requires Trimmed(text) && forall i :: 0 <= i < |text| ==> lower(text[i]) == text[i]
    ensures Submittable(text) != "" && Normalize(lower, Submittable(text)) == text
    ensures Collapse.Collapsed(text) ==> Collapse.Collapsed(Submittable(text)) && Collapse.CollapseSpec(Submittable(text)) == Submittable(text)
  {
    hide TrimSpace, Collapse.Collapsed, Collapse.CollapseSpec, BLANK, AllSpace;
    BlankIsCollapsed();
    Collapse.CollapseSpecFixes(Submittable(text));
    if text == "" {
      BlankIsSpace();
      TrimSpaceEmpty(BLANK);
    } else {
      NormalizeFixes(lower, text);
    }
  }

  /** An accepted submission with given normal forms: from the dashboard, or from the scraper if one is empty. */
  function Expressing(user: string, company: string, title: string, url: string): Request {
    Request(user, Submittable(title), Submittable(company), url,
            if company != "" && title != "" then SOURCE_DASHBOARD else SOURCE_SCRAPER, Some(0))
  }

  lemma ExpressibleIsAccepted(p: Platform, user: string, company: string, title: string, url: string)
    requires Trimmed(user) && user != "" && GoodUrl(p, url) && Expressible(company, title)
    requires Trimmed(company) && forall i :: 0 <= i < |company| ==> p.lower(company[i]) == company[i]
    requires Trimmed(title) && forall i :: 0 <= i < |title| ==> p.lower(title[i]) == title[i]
    ensures var e := Event(user, Submittable(title), Submittable(company), url, Expressing(user, company, title, url).source, 0, SCHEMA_VERSION);
            && Prepare(p, Expressing(user, company, title, url), 0) == Ok(e)
            && Normalize(p.lower, e.company) == company && Normalize(p.lower, e.jobTitle) == title
  {
    hide Normalize, TrimSpace, Trimmed, IsHTTPURL, Collapse.Collapsed, Collapse.CollapseSpec, BLANK;
    SubmittableText(p.lower, company);
    SubmittableText(p.lower, title);
    TrimSpaceFixes(user);
    TrimSpaceFixes(url);
    TrimSpaceFixes(company);
    TrimSpaceFixes(title);
    EmptyIsCollapsed();
  }

  lemma EmptyIsCollapsed()
    ensures Collapse.Collapsed("")
  {
  }

  lemma LowerKeepsWordChar(lower: char -> char, c: char)
    requires LowerCasing(lower) && MakesNoneInvisible(lower)
    ensures Collapse.WordChar(c) ==> Collapse.WordChar(lower(c))
    ensures lower(c) == ' ' <==> c == ' '
  {
    hide KeepsSpace;
    LowerCasingFacts(lower);
    SpacesAreFixed(lower, c);
    assert Collapse.Break(lower(c)) ==> IsSpace(lower(c));
  }

  lemma SpacesAreFixed(lower: char -> char, c: char)
    requires LowerCasing(lower)
    ensures (IsSpace(lower(c)) <==> IsSpace(c)) && (IsSpace(c) ==> lower(c) == c)
  {
    hide IsSpace;
  }

  lemma LowerKeepsCollapsed(lower: char -> char, s: string)
    requires LowerCasing(lower) && MakesNoneInvisible(lower) && Collapse.Collapsed(s)
    ensures Collapse.Collapsed(ToLower(lower, s))
  {
    hide LowerCasing, MakesNoneInvisible, Collapse.WordChar;
    var l := ToLower(lower, s);
    forall i | 0 <= i < |s|
      ensures l[i] == lower(s[i]) && (l[i] == ' ' <==> s[i] == ' ') && (l[i] == ' ' || Collapse.WordChar(l[i]))
    {
      LowerKeepsWordChar(lower, s[i]);
    }
  }

  lemma NormalizeKeepsCollapsed(lower: char -> char, s: string)
    requires LowerCasing(lower) && MakesNoneInvisible(lower) && Collapse.Collapsed(s)
    ensures Collapse.Collapsed(Normalize(lower, s))
  {
    hide LowerCasing, MakesNoneInvisible, Collapse.Collapsed, TrimSpace, ToLower;
    BoardSuffix.TrimKeepsCollapsed(s);
    LowerKeepsCollapsed(lower, TrimSpace(s));
  }

  lemma AcceptedIsExpressible(p: Platform, req: Request, now: int)
    requires LowerCasing(p.lower) && MakesNoneInvisible(p.lower) && Prepare(p, req, now).Ok?
    ensures var e := Prepare(p, req, now).value;
            Expressible(Normalize(p.lower, e.company), Normalize(p.lower, e.jobTitle))
  {
    hide LowerCasing, MakesNoneInvisible, Prepare, Collapse.Collapsed, Collapse.CollapseSpec, BoardSuffix.StripBoardSuffixSpec, TrimSpace;
    PreparedEvent(p, req, now);
    var e := Prepare(p, req, now).value;
    if req.source == SOURCE_DASHBOARD {
      DashboardFields(p, req, now);
      TrimSpaceTwice(req.company);
      TrimSpaceTwice(req.jobTitle);
    } else {
      CollapsingFields(p, req, now);
      Collapse.CollapseSpecNormal(req.company);
      Collapse.CollapseSpecNormal(req.jobTitle);
      BoardSuffix.StripKeepsCollapsed(p.lower, BoardSuffix.BOARD_SUFFIXES, Collapse.CollapseSpec(req.jobTitle));
      StripIsTableStrip(p.lower, Collapse.CollapseSpec(req.jobTitle));
      NormalizeKeepsCollapsed(p.lower, e.company);
      NormalizeKeepsCollapsed(p.lower, e.jobTitle);
    }
  }

  lemma StripIsTableStrip(lower: char -> char, s: string)
    ensures BoardSuffix.StripBoardSuffixSpec(lower, s) == BoardSuffix.Strip(lower, BoardSuffix.BOARD_SUFFIXES, s)
  {
    hide BoardSuffix.Strip;
  }

  lemma DashboardFields(p: Platform, req: Request, now: int)
    requires Prepare(p, req, now).Ok? && req.source == SOURCE_DASHBOARD
    ensures var e := Prepare(p, req, now).value;
            && e.company == TrimSpace(req.company) != "" && e.jobTitle == TrimSpace(req.jobTitle) != ""
  {
    hide TrimSpace, IsHTTPURL;
  }

  // ---- the theorem ----

  ghost predicate SameKeySameJob(p: Platform, user: string, company: string, title: string) {
    forall e :: Accepted(p, user, e) && EventKey(p, e) == Key(p, user, company, title) ==>
      Normalize(p.lower, e.company) == Normalize(p.lower, company) && Normalize(p.lower, e.jobTitle) == Normalize(p.lower, title)
  }

  /** The payload can be split at another bar into the normal forms of another accepted submission. */
  predicate OtherReading(payload: string, at: nat, i: nat) {
    SecondBar(payload, at, i) && Expressible(payload[..i], payload[i + 1..])
  }

  /**
   A submission's key identifies its job among all accepted submissions of the user if and only if its
   payload has no other reading.
   */
  lemma {:induction false} KeyIdentifiesJob(p: Platform, user: string, company: string, title: string, url: string)
    requires FixedWidth(p.sha256) && LowerCasing(p.lower) && Idempotent(p.lower) && MakesNoneInvisible(p.lower)
    requires CollisionFree(p, company, title)
    requires Trimmed(user) && user != "" && GoodUrl(p, url)
    ensures SameKeySameJob(p, user, company, title) <==>
      forall i :: !OtherReading(Payload(p.lower, company, title), |Normalize(p.lower, company)|, i)
  {
    hide LowerCasing, Idempotent, MakesNoneInvisible, FixedWidth, Key, Payload, Normalize, Prepare, Expressible, GoodUrl;
    var payload, at := Payload(p.lower, company, title), |Normalize(p.lower, company)|;
    if i :| OtherReading(payload, at, i) {
      OtherJobAccepted(p, user, company, title, url, i);
    } else {
      forall e | Accepted(p, user, e) && EventKey(p, e) == Key(p, user, company, title)
        ensures Normalize(p.lower, e.company) == Normalize(p.lower, company)
        ensures Normalize(p.lower, e.jobTitle) == Normalize(p.lower, title)
      {
        OneReading(p, user, company, title, e);
      }
    }
  }

  lemma OneReading(p: Platform, user: string, company: string, title: string, e: Event)
    requires FixedWidth(p.sha256) && LowerCasing(p.lower) && MakesNoneInvisible(p.lower) && CollisionFree(p, company, title)
    requires Accepted(p, user, e) && EventKey(p, e) == Key(p, user, company, title)
    requires forall i :: !OtherReading(Payload(p.lower, company, title), |Normalize(p.lower, company)|, i)
    ensures Normalize(p.lower, e.company) == Normalize(p.lower, company)
    ensures Normalize(p.lower, e.jobTitle) == Normalize(p.lower, title)
  {
    hide LowerCasing, MakesNoneInvisible, FixedWidth, Key, Normalize, Prepare, Expressible, Trimmed;
    KeyDeterminesUser(p, user, e.company, e.jobTitle, user, company, title);
    assert Distinguishes(p.sha256, Payload(p.lower, e.company, e.jobTitle), Payload(p.lower, company, title));
    var a, b := Normalize(p.lower, e.company), Normalize(p.lower, e.jobTitle);
    NormalizeIsTrimmed(p.lower, e.company);
    NormalizeIsTrimmed(p.lower, e.jobTitle);
    OtherSplit(a, b, Normalize(p.lower, company), Normalize(p.lower, title));
    var req, now: int :| Prepare(p, req, now) == Ok(e);
    AcceptedIsExpressible(p, req, now);
    var payload := Payload(p.lower, company, title);
    assert payload == a + "|" + b;
    assert payload[..|a|] == a && payload[|a| + 1..] == b;
    assert !OtherReading(payload, |Normalize(p.lower, company)|, |a|);
  }

  lemma OtherJobAccepted(p: Platform, user: string, company: string, title: string, url: string, i: nat)
    requires LowerCasing(p.lower) && Idempotent(p.lower)
    requires Trimmed(user) && user != "" && GoodUrl(p, url)
    requires OtherReading(Payload(p.lower, company, title), |Normalize(p.lower, company)|, i)
    ensures !SameKeySameJob(p, user, company, title)
  {
    hide LowerCasing, Idempotent, Normalize, Prepare, Expressible, Trimmed, GoodUrl;
    var payload := Payload(p.lower, company, title);
    PayloadIsLower(p.lower, company, title);
    var c, t := payload[..i], payload[i + 1..];
    ExpressibleIsAccepted(p, user, c, t, url);
    var e := Prepare(p, Expressing(user, c, t, url), 0).value;
    assert Accepted(p, user, e);
    assert payload == c + "|" + t;
    assert EventKey(p, e) == Key(p, user, company, title);
    assert |Normalize(p.lower, e.company)| != |Normalize(p.lower, company)|;
  }

  /** A bar at the end of a title counts: a scraped job with that bar in its company and a blank title is accepted. */
  lemma BlankTitleSharesKey(p: Platform, user: string, company: string, title: string, url: string)
    requires LowerCasing(p.lower) && Trimmed(user) && user != "" && GoodUrl(p, url)
    requires Trimmed(company) && Trimmed(title) && company != "" && title != ""
    requires Collapse.Collapsed(company + "|" + title)
    ensures var full := Prepare(p, Request(user, title + "|", company, url, SOURCE_DASHBOARD, Some(0)), 0);
            var blank := Prepare(p, Request(user, BLANK, company + "|" + title, url, SOURCE_SCRAPER, Some(0)), 0);
            full.Ok? && blank.Ok? && EventKey(p, full.value) == EventKey(p, blank.value)
  {
    hide LowerCasing, TrimSpace, Key, Payload, IsHTTPURL, Collapse.Collapsed, Collapse.CollapseSpec, BLANK, IsSpace, AllSpace;
    BlankIsCollapsed();
    Collapse.CollapseSpecFixes(BLANK);
    Collapse.CollapseSpecFixes(company + "|" + title);
    TrimSpaceFixes(user);
    TrimSpaceFixes(url);
    TrimSpaceFixes(company);
    BarEndsTrimmed(title);
    TrimSpaceFixes(title + "|");
    SamePayload(p.lower, company, title);
    KeyOfPayload(p, user, company, title + "|", company + "|" + title, BLANK);
  }

  lemma BarEndsTrimmed(s: string)
    requires Trimmed(s) && s != ""
    ensures Trimmed(s + "|")
  {
  }

  lemma KeyOfPayload(p: Platform, user: string, c1: string, t1: string, c2: string, t2: string)
    requires Payload(p.lower, c1, t1) == Payload(p.lower, c2, t2)
    ensures Key(p, user, c1, t1) == Key(p, user, c2, t2)
  {
    hide Payload;
  }

  lemma SamePayload(lower: char -> char, company: string, title: string)
    requires LowerCasing(lower) && Trimmed(company) && Trimmed(title) && company != "" && title != ""
    ensures Payload(lower, company, title + "|") == Payload(lower, company + "|" + title, BLANK)
  {
    hide LowerCasing, TrimSpace, IsSpace, AllSpace, BLANK;
    LowerCasingFacts(lower);
    BlankIsSpace();
    TrimSpaceEmpty(BLANK);
    BarEndsTrimmed(title);
    TrimSpaceFixes(title + "|");
    TrimSpaceFixes(title);
    MapCharsConcat(lower, title, "|");
    NormalizeAroundBar(lower, company, title);
    assert ToLower(lower, "|") == "|";
    var a, b := Normalize(lower, company), Normalize(lower, title);
    assert a + "|" + (b + "|") == (a + "|" + b) + "|" + "";
  }

  /** Those hypotheses can be met: for every submission there are a lower-casing and a digest like that. */
  lemma HypothesesAreMet(p: Platform, company: string, title: string) returns (q: Platform)
    ensures FixedWidth(q.sha256) && LowerCasing(q.lower) && Idempotent(q.lower) && CollisionFree(q, company, title)
    ensures MakesNoneInvisible(q.lower)
    ensures q.urls == p.urls
  {
    var own := Payload(AsciiLower, company, title);
    var sha256 := (s: string) => seq(64, i => if s == own then 'a' else 'b');
    q := p.(lower := AsciiLower, sha256 := sha256);
    AsciiLowerCases();
    forall c, t
      ensures Distinguishes(sha256, Payload(AsciiLower, c, t), own)
    {
      assert sha256(own)[0] == 'a';
      if Payload(AsciiLower, c, t) != own {
        assert sha256(Payload(AsciiLower, c, t))[0] == 'b';
      }
    }
  }

}
