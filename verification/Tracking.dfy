/**
 Removal of tracking parameters from URLs. Parsing and printing belong to net/url: they are
 function values here, and what is needed of them is a hypothesis. Printing a parsed URL need not be
 undone by parsing it again (the path may come back escaped, a lone `?` is lost); only the query is
 asked to survive.
 */
module Tracking {
  import opened Prelude

  const TRACKING_PARAMS: set<string> := {
    "utm_source", "utm_medium", "utm_campaign", "utm_content", "utm_term",
    "gclid", "fbclid", "refId", "ref", "trk", "trackingId"
  }

  /** The parsed URL; `rest` stands for the parts nothing here looks at. */
  datatype Url = Url(scheme: string, host: string, rest: string, rawQuery: string)

  /** Query values: each key with its list of values. */
  type Values = map<string, seq<string>>

  datatype UrlLib = UrlLib(
    parse: string -> Option<Url>,     // url.Parse, None for a parse error
    format: Url -> string,             // URL.String
    query: string -> Values,          // URL.Query
    encode: Values -> string          // Values.Encode
  )

  predicate WellFormed(q: Values) {
    forall k :: k in q ==> q[k] != []
  }

  /** A URL that was parsed and given an encoded query. */
  function WithQuery(lib: UrlLib, u: Url, q: Values): Url {
    u.(rawQuery := lib.encode(q))
  }

  /** Query encoding and parsing undo each other, and a URL printed with an encoded query parses again with that query. */
  ghost predicate QuerySurvives(lib: UrlLib) {
    && (forall raw :: WellFormed(lib.query(raw)))
    && (forall q :: WellFormed(q) ==> lib.query(lib.encode(q)) == q)
    && (forall s, q :: lib.parse(s).Some? && WellFormed(q) ==>
          var u := WithQuery(lib, lib.parse(s).value, q);
          lib.parse(lib.format(u)).Some? && lib.parse(lib.format(u)).value.rawQuery == u.rawQuery)
  }

  function StripTrackingSpec(lib: UrlLib, raw: string): string {
    match lib.parse(raw)
    case None => raw
    case Some(u) =>
      var q := lib.query(u.rawQuery);
      if q.Keys !! TRACKING_PARAMS then raw
      else lib.format(WithQuery(lib, u, q - TRACKING_PARAMS))
  }

  /**
   The loop visits the keys in whatever order the map yields them (`:|` leaves it open), so its
   contract holds for every iteration order.
   */
  method StripTrackingParams(lib: UrlLib, raw: string) returns (r: string)
    ensures r == StripTrackingSpec(lib, raw)
  {
    var parsed := lib.parse(raw);
    if parsed.None? {
      return raw;
    }
    var u := parsed.value;
    var original := lib.query(u.rawQuery);
    var q := original;
    var dirty := false;
    var pending := original.Keys;
    while pending != {}
      invariant pending <= original.Keys
      invariant q == original - (TRACKING_PARAMS * (original.Keys - pending))
      invariant dirty <==> TRACKING_PARAMS * (original.Keys - pending) != {}
      decreases pending
    {
      var k :| k in pending;
      if k in TRACKING_PARAMS {
        q := q - {k};
        dirty := true;
        assert k in TRACKING_PARAMS * (original.Keys - (pending - {k}));
      } else {
        assert TRACKING_PARAMS * (original.Keys - (pending - {k})) == TRACKING_PARAMS * (original.Keys - pending);
      }
      pending := pending - {k};
    }
    assert original.Keys - pending == original.Keys;
    if !dirty {
      return raw;
    }
    assert q == original - TRACKING_PARAMS;
    u := u.(rawQuery := lib.encode(q));
    r := lib.format(u);
  }

  /**
   The cleaned URL parses, and its query is the old one without the tracking keys. Nothing else about
   it changes, if printing keeps the rest of this URL.
   */
  lemma {:induction false} CleanedUrl(lib: UrlLib, raw: string)
    requires QuerySurvives(lib) && lib.parse(raw).Some?
    ensures var u := lib.parse(raw).value;
            var clean := lib.parse(StripTrackingSpec(lib, raw));
            var asked := WithQuery(lib, u, lib.query(u.rawQuery) - TRACKING_PARAMS);
            && clean.Some?
            && lib.query(clean.value.rawQuery) == lib.query(u.rawQuery) - TRACKING_PARAMS
            && (lib.parse(lib.format(asked)) == Some(asked) ==> clean.value == u.(rawQuery := clean.value.rawQuery))
  {
    var u := lib.parse(raw).value;
    var q := lib.query(u.rawQuery);
    if q.Keys !! TRACKING_PARAMS {
      assert q - TRACKING_PARAMS == q;
    } else {
      assert WellFormed(q);
      assert WellFormed(q - TRACKING_PARAMS);
    }
  }

  /** The keys that go, named, and that no other does. */
  lemma {:induction false} TrackingKeysNamed(lib: UrlLib, raw: string, key: string)
    requires QuerySurvives(lib) && lib.parse(raw).Some?
    ensures var before := lib.query(lib.parse(raw).value.rawQuery);
            var clean := lib.parse(StripTrackingSpec(lib, raw));
            && clean.Some?
            && (var after := lib.query(clean.value.rawQuery);
                if key in ["utm_source", "utm_medium", "utm_campaign", "utm_content", "utm_term",
                           "gclid", "fbclid", "refId", "ref", "trk", "trackingId"]
                then key !in after
                else (key in after <==> key in before) && (key in before ==> after[key] == before[key]))
  {
    hide QuerySurvives, StripTrackingSpec;
    CleanedUrl(lib, raw);
  }

  /** The URL comes back as it was exactly when it does not parse or carries no tracking key. */
  lemma {:induction false} UntouchedExactly(lib: UrlLib, raw: string)
    requires QuerySurvives(lib)
    ensures StripTrackingSpec(lib, raw) == raw <==>
      lib.parse(raw).None? || lib.query(lib.parse(raw).value.rawQuery).Keys !! TRACKING_PARAMS
  {
    hide QuerySurvives, TRACKING_PARAMS;
    if lib.parse(raw).Some? {
      CleanedUrl(lib, raw);
      assert (lib.query(lib.parse(raw).value.rawQuery) - TRACKING_PARAMS).Keys !! TRACKING_PARAMS;
    }
  }

  /** Cleaning twice changes nothing more, and a URL without tracking keys is returned as it came. */
  lemma {:induction false} StripTrackingIdempotent(lib: UrlLib, raw: string)
    requires QuerySurvives(lib)
    ensures StripTrackingSpec(lib, StripTrackingSpec(lib, raw)) == StripTrackingSpec(lib, raw)
  {
    if lib.parse(raw).Some? {
      CleanedUrl(lib, raw);
      var clean := lib.parse(StripTrackingSpec(lib, raw)).value;
      assert lib.query(clean.rawQuery).Keys !! TRACKING_PARAMS;
    }
  }
}
