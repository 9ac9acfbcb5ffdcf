/** The canonical application event, its validation, and the per-source transformers that build it. */
module Canonical {
  import opened Prelude
  import opened Text
  import Collapse
  import BoardSuffix
  import Tracking

  const SOURCE_DASHBOARD := 1
  const SOURCE_CHROME_EXT := 2
  const SOURCE_SCRAPER := 3
  const SCHEMA_VERSION := "1.0"

  /** SubmitApplicationRequest; `source` is the proto enum value, any int32. */
  datatype Request = Request(
    userId: string,
    jobTitle: string,
    company: string,
    url: string,
    source: int,
    appliedAt: Option<int>
  )

  datatype Event = Event(
    userID: string,
    jobTitle: string,
    company: string,
    url: string,
    source: int,
    appliedAt: int,
    schemaVersion: string
  )

  datatype Rejection =
    | UnsupportedSource
    | UserIDRequired
    | JobTitleRequired
    | CompanyRequired
    | URLRequired
    | InvalidURL
    | SourceRequired
    | SchemaRequired

  /** What the service takes from its platform: lower-casing, SHA-256 as hex text, and net/url. */
  datatype Platform = Platform(
    lower: char -> char,
    sha256: string -> string,
    urls: Tracking.UrlLib
  )

  predicate IsHTTPURL(p: Platform, s: string) {
    var u := p.urls.parse(s);
    && u.Some?
    && (var scheme := ToLower(p.lower, u.value.scheme); scheme == "http" || scheme == "https")
    && u.value.host != ""
  }

  /** ApplicationEvent.Validate: the first rule that fails, in the order the code tries them. */
  function Validate(p: Platform, e: Event): Option<Rejection> {
    if e.userID == "" then Some(UserIDRequired)
    else if e.jobTitle == "" then Some(JobTitleRequired)
    else if e.company == "" then Some(CompanyRequired)
    else if e.url == "" then Some(URLRequired)
    else if !IsHTTPURL(p, e.url) then Some(InvalidURL)
    else if e.source == 0 then Some(SourceRequired)
    else if e.schemaVersion == "" then Some(SchemaRequired)
    else None
  }

  /** The rules, each by itself. */
  predicate Breaks(p: Platform, e: Event, rule: Rejection) {
    match rule
    case UnsupportedSource => false
    case UserIDRequired => e.userID == ""
    case JobTitleRequired => e.jobTitle == ""
    case CompanyRequired => e.company == ""
    case URLRequired => e.url == ""
    case InvalidURL => !IsHTTPURL(p, e.url)
    case SourceRequired => e.source == 0
    case SchemaRequired => e.schemaVersion == ""
  }

  function Place(rule: Rejection): nat {
    match rule
    case UnsupportedSource => 0
    case UserIDRequired => 1
    case JobTitleRequired => 2
    case CompanyRequired => 3
    case URLRequired => 4
    case InvalidURL => 5
    case SourceRequired => 6
    case SchemaRequired => 7
  }

  /** Validation passes exactly when no rule is broken, and otherwise names the first broken one. */
  lemma ValidateNamesFirst(p: Platform, e: Event, rule: Rejection)
    ensures Validate(p, e) == Some(rule) <==>
      Breaks(p, e, rule) && forall earlier :: Place(earlier) < Place(rule) ==> !Breaks(p, e, earlier)
    ensures Validate(p, e) == None ==> !Breaks(p, e, rule)
  {
    hide IsHTTPURL;
    var named := Validate(p, e);
    if named.Some? {
      assert Breaks(p, e, named.value);
      if Breaks(p, e, rule) {
        assert Place(named.value) <= Place(rule);
      }
    }
  }

  /** The order, spelled out: user, title, company, URL, its form; each is reported only when the ones before it hold. */
  lemma RuleOrder(p: Platform, e: Event)
    ensures Validate(p, e) == Some(UserIDRequired) <==> e.userID == ""
    ensures Validate(p, e) == Some(JobTitleRequired) <==> e.userID != "" && e.jobTitle == ""
    ensures Validate(p, e) == Some(CompanyRequired) <==> e.userID != "" && e.jobTitle != "" && e.company == ""
    ensures Validate(p, e) == Some(URLRequired) <==> e.userID != "" && e.jobTitle != "" && e.company != "" && e.url == ""
    ensures Validate(p, e) == Some(InvalidURL) <==>
      e.userID != "" && e.jobTitle != "" && e.company != "" && e.url != "" && !IsHTTPURL(p, e.url)
  {
    hide IsHTTPURL;
  }

  function AppliedAtOrNow(ts: Option<int>, now: int): int {
    match ts
    case None => now
    case Some(t) => t
  }

  function FromDashboard(p: Platform, req: Request, now: int): Event {
    Event(TrimSpace(req.userId), TrimSpace(req.jobTitle), TrimSpace(req.company), TrimSpace(req.url),
          SOURCE_DASHBOARD, AppliedAtOrNow(req.appliedAt, now), SCHEMA_VERSION)
  }

  function FromChromeExt(p: Platform, req: Request, now: int): Event {
    Event(TrimSpace(req.userId),
          BoardSuffix.StripBoardSuffixSpec(p.lower, Collapse.CollapseSpec(req.jobTitle)),
          Collapse.CollapseSpec(req.company),
          Tracking.StripTrackingSpec(p.urls, TrimSpace(req.url)),
          SOURCE_CHROME_EXT, AppliedAtOrNow(req.appliedAt, now), SCHEMA_VERSION)
  }

  function FromScraper(p: Platform, req: Request, now: int): Event {
    Event(TrimSpace(req.userId), Collapse.CollapseSpec(req.jobTitle), Collapse.CollapseSpec(req.company),
          TrimSpace(req.url), SOURCE_SCRAPER, AppliedAtOrNow(req.appliedAt, now), SCHEMA_VERSION)
  }

  function Transform(p: Platform, req: Request, now: int): Option<Event> {
    if req.source == SOURCE_DASHBOARD then Some(FromDashboard(p, req, now))
    else if req.source == SOURCE_CHROME_EXT then Some(FromChromeExt(p, req, now))
    else if req.source == SOURCE_SCRAPER then Some(FromScraper(p, req, now))
    else None
  }

  /** The part of submitOne before any store is touched: pick the transformer, transform, validate. */
  function Prepare(p: Platform, req: Request, now: int): Result<Event, Rejection> {
    match Transform(p, req, now)
    case None => Err(UnsupportedSource)
    case Some(event) =>
      match Validate(p, event)
      case Some(why) => Err(why)
      case None => Ok(event)
  }

  /** What the rest of the service may rely on in a prepared event. */
  lemma {:induction false} PreparedEvent(p: Platform, req: Request, now: int)
    requires Prepare(p, req, now).Ok?
    ensures var e := Prepare(p, req, now).value;
            && e.userID == TrimSpace(req.userId) != ""
            && e.jobTitle != "" && e.company != "" && IsHTTPURL(p, e.url)
            && e.source == req.source && 1 <= e.source <= 3
            && e.schemaVersion == "1.0"
            && (req.source != 2 ==> e.url == TrimSpace(req.url))
            && (req.appliedAt.Some? ==> e.appliedAt == req.appliedAt.value) && (req.appliedAt.None? ==> e.appliedAt == now)
  {
    hide TrimSpace, IsHTTPURL, Collapse.CollapseSpec, BoardSuffix.StripBoardSuffixSpec, Tracking.StripTrackingSpec;
  }

  /**
   A prepared Chrome event's URL: it parses, and its query is that of the trimmed request URL without
   the tracking keys; a URL that has none is kept as it is, trimmed.
   */
  lemma {:induction false} ChromeUrl(p: Platform, req: Request, now: int)
    requires Tracking.QuerySurvives(p.urls) && req.source == 2 && Prepare(p, req, now).Ok?
    ensures var sent, stored := p.urls.parse(TrimSpace(req.url)), p.urls.parse(Prepare(p, req, now).value.url);
            && sent.Some? && stored.Some?
            && (var before := p.urls.query(sent.value.rawQuery);
                && p.urls.query(stored.value.rawQuery) == before - Tracking.TRACKING_PARAMS
                && p.urls.query(stored.value.rawQuery).Keys !! Tracking.TRACKING_PARAMS
                && (before.Keys !! Tracking.TRACKING_PARAMS ==> Prepare(p, req, now).value.url == TrimSpace(req.url)))
  {
    hide TrimSpace, Prepare, Tracking.StripTrackingSpec, Tracking.QuerySurvives, Tracking.TRACKING_PARAMS;
    ChromeFields(p, req, now);
    GoodUrlParses(p, Prepare(p, req, now).value.url);
    var url := TrimSpace(req.url);
    Tracking.UntouchedExactly(p.urls, url);
    if p.urls.parse(url).Some? {
      Tracking.CleanedUrl(p.urls, url);
      DisjointAfter(p.urls.query(p.urls.parse(url).value.rawQuery));
    }
  }

  lemma DisjointAfter(q: Tracking.Values)
    ensures (q - Tracking.TRACKING_PARAMS).Keys !! Tracking.TRACKING_PARAMS
  {
    hide Tracking.TRACKING_PARAMS;
  }

  lemma ChromeFields(p: Platform, req: Request, now: int)
    requires req.source == 2 && Prepare(p, req, now).Ok?
    ensures Prepare(p, req, now).value.url == Tracking.StripTrackingSpec(p.urls, TrimSpace(req.url))
    ensures IsHTTPURL(p, Prepare(p, req, now).value.url)
  {
    hide TrimSpace, IsHTTPURL, Collapse.CollapseSpec, BoardSuffix.StripBoardSuffixSpec, Tracking.StripTrackingSpec;
  }

  /** The URL rule, spelled out: it parses, the scheme is http or https in any case, and there is a host. */
  lemma GoodUrlParses(p: Platform, url: string)
    ensures IsHTTPURL(p, url) <==>
      && p.urls.parse(url).Some?
      && ToLower(p.lower, p.urls.parse(url).value.scheme) in ["http", "https"]
      && p.urls.parse(url).value.host != ""
  {
  }

  /** What is accepted: a known source, four non-empty fields and a good URL, all after transformation; nothing more is asked. */
  lemma AcceptedExactly(p: Platform, req: Request, now: int)
    ensures Prepare(p, req, now).Ok? <==>
      && 1 <= req.source <= 3
      && (var e := Transform(p, req, now).value;
          && e.userID != "" && e.jobTitle != "" && e.company != "" && e.url != ""
          && p.urls.parse(e.url).Some?
          && ToLower(p.lower, p.urls.parse(e.url).value.scheme) in ["http", "https"]
          && p.urls.parse(e.url).value.host != "")
  {
    hide TrimSpace, IsHTTPURL, Collapse.CollapseSpec, BoardSuffix.StripBoardSuffixSpec, Tracking.StripTrackingSpec, ToLower;
    if Transform(p, req, now).Some? {
      GoodUrlParses(p, Transform(p, req, now).value.url);
    }
  }

  /**
   The last two validation rules are never what a caller sees: an unspecified source is caught when
   the transformer is picked, and every transformer stamps the schema version.
   */
  lemma {:induction false} RejectionsSeen(p: Platform, req: Request, now: int)
    ensures Prepare(p, req, now) == Err(UnsupportedSource) <==> !(1 <= req.source <= 3)
    ensures Prepare(p, req, now) != Err(SourceRequired)
    ensures Prepare(p, req, now) != Err(SchemaRequired)
  {
    hide TrimSpace, IsHTTPURL, Validate, Collapse.CollapseSpec, BoardSuffix.StripBoardSuffixSpec, Tracking.StripTrackingSpec;
    var event := Transform(p, req, now);
    if event.Some? {
      LastRulesHold(p, event.value);
    }
  }

  lemma LastRulesHold(p: Platform, e: Event)
    requires e.source != 0 && e.schemaVersion != ""
    ensures var v := Validate(p, e);
            v.Some? ==> !v.value.SourceRequired? && !v.value.SchemaRequired? && !v.value.UnsupportedSource?
  {
  }

  // ---- two submissions of one job ----

  /** The same list of words, up to case. */
  predicate SameWords(lower: char -> char, a: string, b: string) {
    var u, v := Collapse.Words(a), Collapse.Words(b);
    && |u| == |v|
    && forall i :: 0 <= i < |u| ==> ToLower(lower, u[i]) == ToLower(lower, v[i])
  }

  lemma {:induction false} JoinUpToCase(lower: char -> char, u: seq<string>, v: seq<string>)
    requires |u| == |v|
    requires forall i :: 0 <= i < |u| ==> ToLower(lower, u[i]) == ToLower(lower, v[i])
    ensures ToLower(lower, Collapse.Join(u)) == ToLower(lower, Collapse.Join(v))
  {
    if |u| > 1 {
      var n := |u| - 1;
      JoinUpToCase(lower, u[..n], v[..n]);
      MapCharsConcat(lower, Collapse.Join(u[..n]) + " ", u[n]);
      MapCharsConcat(lower, Collapse.Join(v[..n]) + " ", v[n]);
      MapCharsConcat(lower, Collapse.Join(u[..n]), " ");
      MapCharsConcat(lower, Collapse.Join(v[..n]), " ");
    }
  }

  lemma CollapseUpToCase(lower: char -> char, a: string, b: string)
    requires SameWords(lower, a, b)
    ensures ToLower(lower, Collapse.CollapseSpec(a)) == ToLower(lower, Collapse.CollapseSpec(b))
  {
    JoinUpToCase(lower, Collapse.Words(a), Collapse.Words(b));
  }
}
