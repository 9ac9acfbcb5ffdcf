/** The Postgres repository: two tables, the dual-write transaction, and the owner-scoped read. */
module Repo {
  import opened Prelude
  import opened Uuid

  /** The SQL row; source and status are SMALLINT columns. */
  datatype Row = Row(
    id: Uuid,
    userID: string,
    jobTitle: string,
    company: string,
    url: string,
    source: int,
    status: int,
    appliedAt: int,
    createdAt: int,
    schemaVersion: string
  )

  datatype Record = Record(
    id: string,
    userID: string,
    jobTitle: string,
    company: string,
    url: string,
    source: int,
    status: int,
    appliedAt: int,
    createdAt: int,
    schemaVersion: string
  )

  datatype InsertParams = InsertParams(
    userID: string,
    jobTitle: string,
    company: string,
    url: string,
    source: int,
    status: int,
    appliedAt: int,
    schemaVersion: string
  )

  /** The event payload: protobuf encoding is injective, so the bytes are represented by what they encode. */
  datatype Payload = Marshalled(application: Record)

  datatype OutboxRow = OutboxRow(aggregateId: Uuid, topic: string, payload: Payload)

  datatype Tables = Tables(applications: map<Uuid, Row>, outbox: seq<OutboxRow>)

  const EMPTY_TABLES := Tables(map[], [])

  datatype RepoError = InvalidUuid | NotFound | BeginTx | InsertApplication | BuildPayload | InsertOutbox | CommitTx

  /**
   Where the transaction is struck by an error. A commit can fail in two ways: the transaction is
   lost, or it is applied and only the acknowledgement is lost.
   */
  datatype TxFault = NoFault | AtBegin | AtInsert | AtBuild | AtOutbox | AtCommit(applied: bool)

  /** Go's int32 to int16 conversion. */
  function ToInt16(x: int): int {
    (x + 0x8000) % 0x1_0000 - 0x8000
  }

  function NewRow(p: InsertParams, id: Uuid, createdAt: int): Row {
    Row(id, p.userID, p.jobTitle, p.company, p.url, ToInt16(p.source), ToInt16(p.status),
        p.appliedAt, createdAt, p.schemaVersion)
  }

  function FromRow(r: Row): Record {
    Record(UuidToString(r.id), r.userID, r.jobTitle, r.company, r.url, r.source, r.status,
           r.appliedAt, r.createdAt, r.schemaVersion)
  }

  type PayloadBuilder = Record -> Payload

  /** The tables with one application and its event added. */
  function Committed(t: Tables, p: InsertParams, topic: string, build: PayloadBuilder, id: Uuid, createdAt: int): Tables {
    var row := NewRow(p, id, createdAt);
    Tables(t.applications[id := row], t.outbox + [OutboxRow(id, topic, build(FromRow(row)))])
  }

  /** The error the transaction ends in, if any; a primary-key clash is an insert error. */
  function TxError(t: Tables, id: Uuid, fault: TxFault): Option<RepoError> {
    if fault == AtBegin then Some(BeginTx)
    else if fault == AtInsert || id in t.applications then Some(InsertApplication)
    else if fault == AtBuild then Some(BuildPayload)
    else if fault == AtOutbox then Some(InsertOutbox)
    else if fault.AtCommit? then Some(CommitTx)
    else None
  }

  /** The transaction as one atomic step on the tables. */
  function InsertTx(t: Tables, p: InsertParams, topic: string, build: PayloadBuilder, id: Uuid, createdAt: int, fault: TxFault)
    : (Tables, Result<Record, RepoError>)
  {
    match TxError(t, id, fault)
    case None => (Committed(t, p, topic, build, id, createdAt), Ok(FromRow(NewRow(p, id, createdAt))))
    case Some(e) =>
      (if e == CommitTx && fault.applied then Committed(t, p, topic, build, id, createdAt) else t, Err(e))
  }

  function GetByIDAndUserID(t: Tables, id: string, userID: string): Result<Record, RepoError> {
    match ParseUuid(id)
    case None => Err(InvalidUuid)
    case Some(uid) =>
      if uid in t.applications && t.applications[uid].id == uid && t.applications[uid].userID == userID
      then Ok(FromRow(t.applications[uid]))
      else Err(NotFound)
  }

  /** The tables as an object the repository updates; a transaction works on a private copy until it commits. */
  class PostgresRepo {
    var tables: Tables

    constructor ()
      ensures tables == EMPTY_TABLES
    {
      tables := EMPTY_TABLES;
    }

    method InsertWithOutbox(p: InsertParams, topic: string, build: PayloadBuilder, id: Uuid, createdAt: int, fault: TxFault)
      returns (r: Result<Record, RepoError>)
      modifies this
      ensures (tables, r) == InsertTx(old(tables), p, topic, build, id, createdAt, fault)
    {
      if fault == AtBegin {
        return Err(BeginTx);
      }
      var tx := tables;
      if fault == AtInsert || id in tx.applications {
        return Err(InsertApplication);
      }
      var row := NewRow(p, id, createdAt);
      tx := tx.(applications := tx.applications[id := row]);
      var rec := FromRow(row);
      if fault == AtBuild {
        return Err(BuildPayload);
      }
      var payload := build(rec);
      if fault == AtOutbox {
        return Err(InsertOutbox);
      }
      tx := tx.(outbox := tx.outbox + [OutboxRow(row.id, topic, payload)]);
      if fault.AtCommit? {
        if fault.applied {
          tables := tx;
        }
        return Err(CommitTx);
      }
      tables := tx;
      return Ok(rec);
    }
  }

  // ---- the dual-write contract ----

  /** The event announces a stored application and encodes its record. */
  ghost predicate Announces(event: OutboxRow, apps: map<Uuid, Row>, topic: string, build: PayloadBuilder) {
    && event.aggregateId in apps
    && event.topic == topic
    && event.payload == build(FromRow(apps[event.aggregateId]))
  }

  ghost predicate HasEvent(outbox: seq<OutboxRow>, id: Uuid) {
    exists i :: 0 <= i < |outbox| && outbox[i].aggregateId == id
  }

  ghost predicate NoTwoEvents(outbox: seq<OutboxRow>) {
    forall i, j :: 0 <= i < j < |outbox| ==> outbox[i].aggregateId != outbox[j].aggregateId
  }

  /** Applications and outbox rows correspond one to one, and each event encodes its application. */
  ghost predicate Paired(t: Tables, topic: string, build: PayloadBuilder) {
    && |t.outbox| == |t.applications|
    && (forall i :: 0 <= i < |t.outbox| ==> Announces(t.outbox[i], t.applications, topic, build))
    && NoTwoEvents(t.outbox)
    && (forall id :: id in t.applications ==> t.applications[id].id == id && HasEvent(t.outbox, id))
  }

  lemma HasEventAfter(outbox: seq<OutboxRow>, event: OutboxRow, id: Uuid)
    requires HasEvent(outbox, id) || event.aggregateId == id
    ensures HasEvent(outbox + [event], id)
  {
    if HasEvent(outbox, id) {
      var i :| 0 <= i < |outbox| && outbox[i].aggregateId == id;
      assert (outbox + [event])[i].aggregateId == id;
    } else {
      assert (outbox + [event])[|outbox|].aggregateId == id;
    }
  }

  lemma AnnouncesAfter(event: OutboxRow, apps: map<Uuid, Row>, row: Row, topic: string, build: PayloadBuilder)
    requires Announces(event, apps, topic, build) && row.id !in apps
    ensures Announces(event, apps[row.id := row], topic, build)
  {
  }

  lemma NoTwoEventsAfter(outbox: seq<OutboxRow>, apps: map<Uuid, Row>, event: OutboxRow)
    requires NoTwoEvents(outbox) && event.aggregateId !in apps
    requires forall i :: 0 <= i < |outbox| ==> outbox[i].aggregateId in apps
    ensures NoTwoEvents(outbox + [event])
  {
  }

  lemma CommittedKeepsPaired(t: Tables, p: InsertParams, topic: string, build: PayloadBuilder, id: Uuid, createdAt: int)
    requires Paired(t, topic, build) && id !in t.applications
    ensures Paired(Committed(t, p, topic, build, id, createdAt), topic, build)
  {
    var row := NewRow(p, id, createdAt);
    var event := OutboxRow(id, topic, build(FromRow(row)));
    var apps, outbox := t.applications[id := row], t.outbox + [event];
    forall i | 0 <= i < |outbox|
      ensures Announces(outbox[i], apps, topic, build)
    {
      if i < |t.outbox| {
        AnnouncesAfter(t.outbox[i], t.applications, row, topic, build);
      }
    }
    forall u | u in apps
      ensures apps[u].id == u && HasEvent(outbox, u)
    {
      HasEventAfter(t.outbox, event, u);
    }
    NoTwoEventsAfter(t.outbox, t.applications, event) by {
      forall i | 0 <= i < |t.outbox|
        ensures t.outbox[i].aggregateId in t.applications
      {
        assert Announces(t.outbox[i], t.applications, topic, build);
      }
    }
  }

  /**
   Both rows or neither, whatever the fault: the correspondence survives, a success adds exactly one
   application and returns its record, and an error other than a lost commit changes nothing.
   */
  lemma {:induction false} InsertTxKeepsPaired(t: Tables, p: InsertParams, topic: string, build: PayloadBuilder, id: Uuid, createdAt: int, fault: TxFault)
    requires Paired(t, topic, build)
    ensures var (t', r) := InsertTx(t, p, topic, build, id, createdAt, fault);
            && Paired(t', topic, build)
            && (r.Ok? ==> id !in t.applications && t'.applications == t.applications[id := NewRow(p, id, createdAt)])
            && (r.Err? && fault != AtCommit(true) ==> t' == t)
  {
    hide Paired, NewRow, FromRow;
    if id !in t.applications {
      CommittedKeepsPaired(t, p, topic, build, id, createdAt);
    }
  }

  /** Which error, or none: the first statement that fails, a clash of ids counting as a failed insert. */
  lemma InsertOutcome(t: Tables, p: InsertParams, topic: string, build: PayloadBuilder, id: Uuid, createdAt: int, fault: TxFault)
    ensures var (t', r) := InsertTx(t, p, topic, build, id, createdAt, fault);
            && (r.Ok? <==> fault == NoFault && id !in t.applications)
            && (r == Err(BeginTx) <==> fault == AtBegin)
            && (r == Err(InsertApplication) <==> fault == AtInsert || (fault != AtBegin && id in t.applications))
            && (r == Err(BuildPayload) <==> fault == AtBuild && id !in t.applications)
            && (r == Err(InsertOutbox) <==> fault == AtOutbox && id !in t.applications)
            && (r == Err(CommitTx) <==> fault.AtCommit? && id !in t.applications)
            && (id !in t.applications ==> (id in t'.applications <==> fault == NoFault || fault == AtCommit(true)))
  {
    hide UuidToString;
  }

  /** The id handed out by a successful insert reads back the very record, field by field what was asked for, for its owner only. */
  lemma InsertReadsBack(t: Tables, p: InsertParams, topic: string, build: PayloadBuilder, id: Uuid, createdAt: int, fault: TxFault, user: string)
    ensures var (t', r) := InsertTx(t, p, topic, build, id, createdAt, fault);
            r.Ok? ==>
              && GetByIDAndUserID(t', r.value.id, user) == (if user == p.userID then Ok(r.value) else Err(NotFound))
              && r.value.id == UuidToString(id)
              && r.value.userID == p.userID && r.value.jobTitle == p.jobTitle && r.value.company == p.company && r.value.url == p.url
              && r.value.source == ToInt16(p.source) && r.value.status == ToInt16(p.status)
              && r.value.appliedAt == p.appliedAt && r.value.createdAt == createdAt && r.value.schemaVersion == p.schemaVersion
  {
    hide UuidToString, ParseUuid;
    ParsePrint(id);
  }

  /** What is read is the stored row, field by field. */
  lemma RecordIsRow(t: Tables, id: Uuid)
    requires id in t.applications && t.applications[id].id == id
    ensures var row := t.applications[id];
            var found := GetByIDAndUserID(t, UuidToString(id), row.userID);
            && found.Ok? && found.value.id == UuidToString(id)
            && found.value.userID == row.userID && found.value.jobTitle == row.jobTitle && found.value.company == row.company
            && found.value.url == row.url && found.value.source == row.source && found.value.status == row.status
            && found.value.appliedAt == row.appliedAt && found.value.createdAt == row.createdAt
            && found.value.schemaVersion == row.schemaVersion
  {
    hide UuidToString, ParseUuid;
    ParsePrint(id);
  }

  /** An event carries the record that its application's owner reads back. */
  ghost predicate EventReadsBack(t: Tables, event: OutboxRow) {
    var id := event.aggregateId;
    id in t.applications && GetByIDAndUserID(t, UuidToString(id), t.applications[id].userID) == Ok(event.payload.application)
  }

  /** The payload holds the record itself. */
  ghost predicate Encodes(build: PayloadBuilder) {
    forall rec :: build(rec).application == rec
  }

  lemma PairedReadsBack(t: Tables, topic: string, build: PayloadBuilder)
    requires Paired(t, topic, build) && Encodes(build)
    ensures forall i :: 0 <= i < |t.outbox| ==> EventReadsBack(t, t.outbox[i])
  {
    hide UuidToString, ParseUuid;
    forall i | 0 <= i < |t.outbox|
      ensures EventReadsBack(t, t.outbox[i])
    {
      assert Announces(t.outbox[i], t.applications, topic, build);
      ParsePrint(t.outbox[i].aggregateId);
    }
  }

  /** The read finds exactly the owner's stored rows: what is no UUID is an error, and any other miss is not-found. */
  lemma ReadFindsExactly(t: Tables, text: string, user: string)
    ensures var found := GetByIDAndUserID(t, text, user);
            var id := ParseUuid(text);
            && (found == Err(InvalidUuid) <==> id == None)
            && (found == Err(NotFound) <==>
                  id.Some? && !(id.value in t.applications && t.applications[id.value].id == id.value && t.applications[id.value].userID == user))
            && (found.Ok? <==>
                  id.Some? && id.value in t.applications && t.applications[id.value].id == id.value && t.applications[id.value].userID == user)
            && (found.Ok? ==> found.value.userID == user)
  {
    hide ParseUuid, UuidToString;
  }

  /** Enum values travel through the SMALLINT column unharmed exactly when they fit in 16 bits. */
  lemma Int16Lossless(x: int)
    requires -0x8000_0000 <= x < 0x8000_0000
    ensures ToInt16(x) == x <==> -0x8000 <= x < 0x8000
    ensures -0x8000 <= ToInt16(x) < 0x8000 && (ToInt16(x) - x) % 0x1_0000 == 0
  {
  }
}
