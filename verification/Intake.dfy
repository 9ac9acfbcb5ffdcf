/** The service's own configuration of the protocol, and what its callers get in terms of users, jobs and ids. */
module Intake {
  import opened Prelude
  import opened Text
  import opened Uuid
  import opened Dedup
  import opened Canonical
  import opened Protocol
  import opened Provenance
  import AtMostOnce
  import DedupKey
  import Repo

  function IntakeConfig(p: Platform, ttl: int): Config {
    Config(ttl, (req, now) => Prepare(p, req, now), (user, company, title) => DedupKey.Key(p, user, company, title))
  }

  // ---- GetApplicationStatus ----

  datatype StatusError = ApplicationIdMissing | UserIdMissing | ApplicationNotFound | Internal(cause: Repo.RepoError)

  function GetApplicationStatus(t: Repo.Tables, id: string, userID: string): Result<Repo.Record, StatusError> {
    if id == "" then Err(ApplicationIdMissing)
    else if userID == "" then Err(UserIdMissing)
    else match Repo.GetByIDAndUserID(t, id, userID)
      case Ok(rec) => Ok(rec)
      case Err(e) => if e == Repo.NotFound then Err(ApplicationNotFound) else Err(Internal(e))
  }

  /** A row that a call's id names belongs to the call's user; a digest collision can only confuse jobs, not users. */
  lemma NamedRowIsOwn(p: Platform, ttl: int, apps: map<Uuid, Repo.Row>, text: string, e: Event)
    requires DedupKey.FixedWidth(p.sha256)
    requires NamesRow(IntakeConfig(p, ttl), apps, text, KeyOf(IntakeConfig(p, ttl), e))
    ensures apps[ParseUuid(text).value].userID == e.userID
  {
    hide ParseUuid, UuidToString, DedupKey.Key;
    var row := apps[ParseUuid(text).value];
    DedupKey.KeyDeterminesUser(p, row.userID, row.company, row.jobTitle, e.userID, e.company, e.jobTitle);
  }

  /** The record is the writer's submission: every field, source and status unharmed by their 16-bit columns. */
  predicate RecordOf(rec: Repo.Record, id: string, e: Event, createdAt: int) {
    && rec.id == id
    && rec.userID == e.userID && rec.jobTitle == e.jobTitle && rec.company == e.company && rec.url == e.url
    && rec.source == e.source && rec.status == 1
    && rec.appliedAt == e.appliedAt && rec.createdAt == createdAt && rec.schemaVersion == e.schemaVersion
  }

  /**
   Read-back. After any run whatever, an id returned by a submit, inserted or deduplicated, is found
   by GetApplicationStatus for the caller's trimmed user id; it gives the record of some submission
   with the caller's own key, with the creation time of its insert, and no other user id finds it.
   */
  lemma {:induction false} ReturnedIdReadsBack(p: Platform, ttl: int, start: int, steps: seq<Step>, c: nat, other: string)
    requires DedupKey.FixedWidth(p.sha256)
    requires var s := Run(IntakeConfig(p, ttl), Init(start), steps);
             c < |s.calls| && s.calls[c].pc.Returned? && s.calls[c].pc.result.Ok?
    ensures var s := Run(IntakeConfig(p, ttl), Init(start), steps);
            var text, user := s.calls[c].pc.result.value, TrimSpace(s.calls[c].req.userId);
            var found := GetApplicationStatus(s.tables, text, user);
            && found.Ok? && ParseUuid(text).Some? && ParseUuid(text).value in s.tables.applications
            && (exists w: nat :: w < |s.calls| && s.calls[w].key == s.calls[c].key && RecordOf(found.value, text, s.calls[w].event, s.tables.applications[ParseUuid(text).value].createdAt))
            && (other != user && other != "" ==> GetApplicationStatus(s.tables, text, other) == Err(ApplicationNotFound))
  {
    var cfg := IntakeConfig(p, ttl);
    var s := Run(cfg, Init(start), steps);
    RunSound(cfg, Init(start), steps);
    ReturnedIdFound(p, ttl, s, c, other);
  }

  lemma ReturnedCallsUser(p: Platform, ttl: int, apps: map<Uuid, Repo.Row>, call: Call)
    requires CallSound(IntakeConfig(p, ttl), apps, call) && call.pc.Returned? && call.pc.result.Ok?
    ensures call.event.userID == TrimSpace(call.req.userId) != ""
    ensures NamesRow(IntakeConfig(p, ttl), apps, call.pc.result.value, KeyOf(IntakeConfig(p, ttl), call.event))
    ensures call.key == KeyOf(IntakeConfig(p, ttl), call.event)
  {
    hide Prepare, TrimSpace, DedupKey.Key, NamesRow;
    PreparedEvent(p, call.req, call.began);
  }

  /** The owner finds a stored row by its printed id, and nobody else does. */
  lemma StatusOfRow(t: Repo.Tables, text: string, id: Uuid, user: string)
    requires text == UuidToString(id) && id in t.applications && t.applications[id].id == id && user != ""
    ensures GetApplicationStatus(t, text, user) ==
      if user == t.applications[id].userID then Ok(Repo.FromRow(t.applications[id])) else Err(ApplicationNotFound)
  {
    ParsePrint(id);
  }

  /** Every answer of GetApplicationStatus. */
  lemma StatusExactly(t: Repo.Tables, text: string, user: string)
    ensures var status := GetApplicationStatus(t, text, user);
            var id := ParseUuid(text);
            && (status == Err(ApplicationIdMissing) <==> text == "")
            && (status == Err(UserIdMissing) <==> text != "" && user == "")
            && (status == Err(Internal(Repo.InvalidUuid)) <==> text != "" && user != "" && id == None)
            && (status == Err(ApplicationNotFound) <==>
                  && user != "" && id.Some?
                  && !(id.value in t.applications && t.applications[id.value].id == id.value && t.applications[id.value].userID == user))
            && (status.Ok? <==>
                  && user != "" && id.Some?
                  && id.value in t.applications && t.applications[id.value].id == id.value && t.applications[id.value].userID == user)
            && (status.Ok? ==> Repo.GetByIDAndUserID(t, text, user) == Ok(status.value))
  {
    hide ParseUuid, UuidToString, Repo.GetByIDAndUserID;
    Repo.ReadFindsExactly(t, text, user);
    NothingParsesEmpty();
  }

  lemma NothingParsesEmpty()
    ensures ParseUuid("") == None
  {
  }

  lemma SoundRowIsRecord(p: Platform, ttl: int, calls: seq<Call>, apps: map<Uuid, Repo.Row>, id: Uuid, a: Audit)
    requires RowSound(IntakeConfig(p, ttl), calls, apps, id, a)
    ensures RecordOf(Repo.FromRow(apps[id]), UuidToString(id), calls[a.writer].event, apps[id].createdAt)
  {
    hide Prepare, UuidToString, DedupKey.Key, TrimSpace, IsHTTPURL, RecordOf, Repo.NewRow, Repo.FromRow;
    var e := calls[a.writer].event;
    PreparedEvent(p, calls[a.writer].req, calls[a.writer].began);
    NewRowIsRecord(e, id, apps[id].createdAt);
  }

  lemma NewRowIsRecord(e: Event, id: Uuid, createdAt: int)
    requires 1 <= e.source <= 3
    ensures RecordOf(Repo.FromRow(Repo.NewRow(Params(e), id, createdAt)), UuidToString(id), e, createdAt)
  {
    hide UuidToString;
  }

  lemma ReturnedIdFound(p: Platform, ttl: int, s: State, c: nat, other: string)
    requires DedupKey.FixedWidth(p.sha256) && Sound(IntakeConfig(p, ttl), s)
    requires c < |s.calls| && s.calls[c].pc.Returned? && s.calls[c].pc.result.Ok?
    ensures var text, user := s.calls[c].pc.result.value, TrimSpace(s.calls[c].req.userId);
            var found := GetApplicationStatus(s.tables, text, user);
            && found.Ok? && ParseUuid(text).Some? && ParseUuid(text).value in s.tables.applications
            && (exists w: nat :: w < |s.calls| && s.calls[w].key == s.calls[c].key && RecordOf(found.value, text, s.calls[w].event, s.tables.applications[ParseUuid(text).value].createdAt))
            && (other != user && other != "" ==> GetApplicationStatus(s.tables, text, other) == Err(ApplicationNotFound))
  {
    hide Prepare, TrimSpace, DedupKey.Key, ParseUuid, UuidToString, GetApplicationStatus, RecordOf, CallSound,
         Repo.Announces, Repo.HasEvent, Repo.NoTwoEvents;
    var cfg := IntakeConfig(p, ttl);
    var call, apps := s.calls[c], s.tables.applications;
    ReturnedCallsUser(p, ttl, apps, call);
    var text := call.pc.result.value;
    var id := ParseUuid(text).value;
    NamedRowIsOwn(p, ttl, apps, text, call.event);
    SoundRowIsRecord(p, ttl, s.calls, apps, id, s.audit[id]);
    StatusOfRow(s.tables, text, id, call.event.userID);
    if other != call.event.userID && other != "" {
      StatusOfRow(s.tables, text, id, other);
    }
    var w := s.audit[id].writer;
    assert s.calls[w].key == call.key;
  }

  // ---- at most once, in terms of rows ----

  /** Two rows are the same job: one user, and company and title equal up to case and outer white space. */
  predicate SameJob(p: Platform, a: Repo.Row, b: Repo.Row) {
    && a.userID == b.userID
    && DedupKey.Normalize(p.lower, a.company) == DedupKey.Normalize(p.lower, b.company)
    && DedupKey.Normalize(p.lower, a.jobTitle) == DedupKey.Normalize(p.lower, b.jobTitle)
  }

  lemma SameJobSameAudit(p: Platform, ttl: int, s: State, id: Uuid, id': Uuid)
    requires Sound(IntakeConfig(p, ttl), s)
    requires id in s.tables.applications && id' in s.tables.applications
    requires SameJob(p, s.tables.applications[id], s.tables.applications[id'])
    ensures id in s.audit && id' in s.audit && s.audit[id].key == s.audit[id'].key
  {
    hide Prepare, UuidToString, ParseUuid, Repo.Paired, DedupKey.Normalize;
    var cfg := IntakeConfig(p, ttl);
    assert RowSound(cfg, s.calls, s.tables.applications, id, s.audit[id]);
    assert RowSound(cfg, s.calls, s.tables.applications, id', s.audit[id']);
  }

  /**
   However many clients submit at the same time: in a punctual run no job has two rows unless the
   claim behind one was won a full TTL after the other was cached; so a run shorter than the TTL
   records each job once. Nothing is assumed of the digest.
   */
  lemma {:induction false} EachJobOncePerTTL(p: Platform, ttl: int, start: int, steps: seq<Step>, id: Uuid, id': Uuid)
    requires AtMostOnce.PunctualRun(IntakeConfig(p, ttl), Init(start), steps)
    requires var apps := Run(IntakeConfig(p, ttl), Init(start), steps).tables.applications;
             id in apps && id' in apps && id != id' && SameJob(p, apps[id], apps[id'])
    ensures var s := Run(IntakeConfig(p, ttl), Init(start), steps);
            && id in s.audit && id' in s.audit
            && s.now >= start + ttl
            && (AtMostOnce.After(IntakeConfig(p, ttl), s.audit[id].claim, s.audit[id'])
                || AtMostOnce.After(IntakeConfig(p, ttl), s.audit[id'].claim, s.audit[id]))
  {
    hide SameJob, AtMostOnce.After, AtMostOnce.PunctualRun, Sound, Run, Init, Prepare, DedupKey.Key;
    var cfg := IntakeConfig(p, ttl);
    InitSound(cfg, start);
    RunSound(cfg, Init(start), steps);
    SameJobSameAudit(p, ttl, Run(cfg, Init(start), steps), id, id');
    AtMostOnce.AtMostOncePerTTL(cfg, start, steps, id, id');
    if Run(cfg, Init(start), steps).now < start + ttl {
      AtMostOnce.ShortRunRecordsOnce(cfg, start, steps, id, id');
    }
  }
}
