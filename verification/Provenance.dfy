/**
 What holds in every reachable state, with no assumption at all: Redis calls may fail, applied or
 not, transactions may fail, sentinels and entries may expire, calls may crash, and a call without
 a claim may overwrite or delete another's entry.
 */
module Provenance {
  import opened Prelude
  import opened Uuid
  import opened Dedup
  import opened Canonical
  import opened Protocol
  import Repo

  function RowKey(cfg: Config, row: Repo.Row): string {
    cfg.key(row.userID, row.company, row.jobTitle)
  }

  /** `text` is the printed id of a committed row whose own fields give `key`. */
  predicate NamesRow(cfg: Config, apps: map<Uuid, Repo.Row>, text: string, key: string) {
    var id := ParseUuid(text);
    && id.Some?
    && text == UuidToString(id.value)
    && id.value in apps
    && RowKey(cfg, apps[id.value]) == key
  }

  predicate CallSound(cfg: Config, apps: map<Uuid, Repo.Row>, call: Call) {
    && call.key == KeyOf(cfg, call.event)
    && (cfg.prepare(call.req, call.began) == Ok(call.event) || (call.pc.Returned? && call.pc.result.Err? && call.pc.result.error.Invalid?))
    && (call.pc.AtSet? ==> NamesRow(cfg, apps, UuidToString(call.pc.id), call.key))
    && (call.pc.Returned? && call.pc.result.Ok? ==> NamesRow(cfg, apps, call.pc.result.value, call.key))
  }

  predicate EntrySound(cfg: Config, apps: map<Uuid, Repo.Row>, key: string, value: string) {
    value == PENDING_SENTINEL || NamesRow(cfg, apps, value, key)
  }

  /** A row is what its writer asked for. */
  predicate RowSound(cfg: Config, calls: seq<Call>, apps: map<Uuid, Repo.Row>, id: Uuid, a: Audit) {
    && id in apps
    && a.writer < |calls|
    && a.key == calls[a.writer].key
    && calls[a.writer].key == KeyOf(cfg, calls[a.writer].event)
    && cfg.prepare(calls[a.writer].req, calls[a.writer].began) == Ok(calls[a.writer].event)
    && apps[id] == Repo.NewRow(Params(calls[a.writer].event), id, apps[id].createdAt)
  }

  ghost predicate Sound(cfg: Config, s: State) {
    && Repo.Paired(s.tables, TOPIC_JOBS_SUBMITTED, JobsSubmittedPayload)
    && s.audit.Keys == s.tables.applications.Keys
    && (forall c :: 0 <= c < |s.calls| ==> CallSound(cfg, s.tables.applications, s.calls[c]))
    && (forall k :: k in s.store ==> EntrySound(cfg, s.tables.applications, k, s.store[k].value))
    && (forall id :: id in s.audit ==> RowSound(cfg, s.calls, s.tables.applications, id, s.audit[id]))
  }

  // ---- one step ----

  /** Only the program counter of one call changes, to one that is sound as it stands. */
  lemma MoveSound(cfg: Config, s: State, c: nat, pc: PC)
    requires Sound(cfg, s) && c < |s.calls| && InFlight(s.calls[c].pc)
    requires CallSound(cfg, s.tables.applications, s.calls[c].(pc := pc))
    ensures Sound(cfg, Move(s, c, pc))
  {
    hide ParseUuid, UuidToString, NamesRow, RowKey, EntrySound, Repo.Paired;
    var s' := Move(s, c, pc);
    forall id | id in s'.audit
      ensures RowSound(cfg, s'.calls, s'.tables.applications, id, s'.audit[id])
    {
      assert RowSound(cfg, s.calls, s.tables.applications, id, s.audit[id]);
    }
  }

  lemma EntryStored(cfg: Config, s: State, key: string, value: string, ttl: int)
    requires Sound(cfg, s) && EntrySound(cfg, s.tables.applications, key, value)
    ensures Sound(cfg, s.(store := Set(s.store, key, value, ttl, s.now)))
  {
    hide NamesRow, CallSound, RowSound, EntrySound, Repo.Paired;
  }

  lemma EntryRemoved(cfg: Config, s: State, key: string)
    requires Sound(cfg, s)
    ensures Sound(cfg, s.(store := Del(s.store, key)))
  {
    hide NamesRow, CallSound, RowSound, EntrySound, Repo.Paired;
  }

  lemma CallIsSound(cfg: Config, s: State, c: nat)
    requires Sound(cfg, s) && c < |s.calls|
    ensures CallSound(cfg, s.tables.applications, s.calls[c])
  {
    hide CallSound, RowSound, EntrySound, Repo.Paired;
  }

  lemma StartSound(cfg: Config, s: State, req: Request)
    requires Sound(cfg, s)
    ensures Sound(cfg, Next(cfg, s, Start(req)))
  {
    var s' := Next(cfg, s, Start(req));
    forall id | id in s'.audit
      ensures RowSound(cfg, s'.calls, s'.tables.applications, id, s'.audit[id])
    {
      assert RowSound(cfg, s.calls, s.tables.applications, id, s.audit[id]);
    }
  }

  lemma HitSound(cfg: Config, s: State, key: string)
    requires Sound(cfg, s)
    ensures var hit := CheckHit(s.store, key, s.now);
            hit.Some? ==> NamesRow(cfg, s.tables.applications, hit.value, key)
  {
    if key in s.store {
      assert EntrySound(cfg, s.tables.applications, key, s.store[key].value);
    }
  }

  lemma SetAtSound(cfg: Config, s: State, id: Uuid, at: int)
    requires Sound(cfg, s) && id in s.audit
    ensures Sound(cfg, s.(audit := s.audit[id := s.audit[id].(setAt := Some(at))]))
  {
    hide CallSound, EntrySound, Repo.Paired;
    var audit := s.audit[id := s.audit[id].(setAt := Some(at))];
    forall u | u in audit
      ensures RowSound(cfg, s.calls, s.tables.applications, u, audit[u])
    {
      assert RowSound(cfg, s.calls, s.tables.applications, u, s.audit[u]);
    }
  }

  lemma SetSound(cfg: Config, s: State, c: nat, fault: Fault)
    requires Sound(cfg, s) && c < |s.calls| && s.calls[c].pc.AtSet?
    ensures Sound(cfg, StepSet(cfg, s, c, fault))
  {
    hide ParseUuid, UuidToString, NamesRow, Sound;
    var key, id := s.calls[c].key, s.calls[c].pc.id;
    var done := Returned(Ok(UuidToString(id)));
    CallIsSound(cfg, s, c);
    if Applied(fault) {
      var s1 := s.(store := Set(s.store, key, UuidToString(id), cfg.ttl, s.now));
      EntryStored(cfg, s, key, UuidToString(id), cfg.ttl);
      var s2 := if id in s1.audit then s1.(audit := s1.audit[id := s1.audit[id].(setAt := Some(s.now))]) else s1;
      if id in s1.audit {
        SetAtSound(cfg, s1, id, s.now);
      }
      MoveSound(cfg, s2, c, done);
    } else {
      MoveSound(cfg, s, c, done);
    }
  }

  lemma RedisSound(cfg: Config, s: State, c: nat, fault: Fault)
    requires Sound(cfg, s)
    ensures Sound(cfg, Next(cfg, s, Redis(c, fault)))
  {
    hide ParseUuid, UuidToString, NamesRow, Sound;
    if c < |s.calls| {
      var call := s.calls[c];
      CallIsSound(cfg, s, c);
      var s' := Next(cfg, s, Redis(c, fault));
      match call.pc
      case AtCheck =>
        HitSound(cfg, s, call.key);
        MoveSound(cfg, s, c, s'.calls[c].pc);
      case AtClaim =>
        EntryStored(cfg, s, call.key, PENDING_SENTINEL, PENDING_TTL);
        MoveSound(cfg, s.(store := s'.store), c, s'.calls[c].pc);
      case AtRecheck =>
        HitSound(cfg, s, call.key);
        MoveSound(cfg, s, c, s'.calls[c].pc);
      case AtSet(_, _) =>
        SetSound(cfg, s, c, fault);
      case AtRelease(_, _) =>
        EntryRemoved(cfg, s, call.key);
        MoveSound(cfg, s.(store := s'.store), c, s'.calls[c].pc);
      case _ =>
    }
  }

  lemma NewRowNamed(cfg: Config, apps: map<Uuid, Repo.Row>, id: Uuid, row: Repo.Row)
    ensures NamesRow(cfg, apps[id := row], UuidToString(id), RowKey(cfg, row))
  {
    ParsePrint(id);
  }

  lemma CallSoundKept(cfg: Config, apps: map<Uuid, Repo.Row>, id: Uuid, row: Repo.Row, call: Call)
    requires CallSound(cfg, apps, call) && id !in apps
    ensures CallSound(cfg, apps[id := row], call)
  {
    hide ParseUuid, UuidToString;
  }

  lemma EntrySoundKept(cfg: Config, apps: map<Uuid, Repo.Row>, id: Uuid, row: Repo.Row, key: string, value: string)
    requires EntrySound(cfg, apps, key, value) && id !in apps
    ensures EntrySound(cfg, apps[id := row], key, value)
  {
    hide ParseUuid, UuidToString;
  }

  lemma RowSoundKept(cfg: Config, calls: seq<Call>, apps: map<Uuid, Repo.Row>, id: Uuid, row: Repo.Row, u: Uuid, a: Audit)
    requires RowSound(cfg, calls, apps, u, a) && id !in apps
    ensures RowSound(cfg, calls, apps[id := row], u, a)
  {
    hide ParseUuid, UuidToString;
  }

  /** The state after call `c` has committed row `id`, before its program counter moves. */
  function WithRow(s: State, c: nat, id: Uuid, createdAt: int): State
    requires c < |s.calls| && s.calls[c].pc.AtInsert?
  {
    s.(tables := Repo.Committed(s.tables, Params(s.calls[c].event), TOPIC_JOBS_SUBMITTED, JobsSubmittedPayload, id, createdAt),
       audit := s.audit[id := Audit(c, s.calls[c].key, s.calls[c].pc.claim, None)])
  }

  lemma NewRowSound(cfg: Config, s: State, c: nat, id: Uuid, createdAt: int)
    requires c < |s.calls| && s.calls[c].pc.AtInsert? && CallSound(cfg, s.tables.applications, s.calls[c])
    ensures var call := s.calls[c];
            var row := Repo.NewRow(Params(call.event), id, createdAt);
            && RowKey(cfg, row) == call.key
            && RowSound(cfg, s.calls, s.tables.applications[id := row], id, Audit(c, call.key, call.pc.claim, None))
  {
    hide ParseUuid, UuidToString;
  }

  lemma RowAdded(cfg: Config, s: State, c: nat, id: Uuid, createdAt: int)
    requires Sound(cfg, s) && c < |s.calls| && s.calls[c].pc.AtInsert? && id !in s.tables.applications
    ensures Sound(cfg, WithRow(s, c, id, createdAt))
    ensures NamesRow(cfg, WithRow(s, c, id, createdAt).tables.applications, UuidToString(id), s.calls[c].key)
  {
    hide ParseUuid, UuidToString, NamesRow, Repo.Paired, EntrySound, CallSound, RowSound;
    var call, apps := s.calls[c], s.tables.applications;
    var row := Repo.NewRow(Params(call.event), id, createdAt);
    Repo.CommittedKeepsPaired(s.tables, Params(call.event), TOPIC_JOBS_SUBMITTED, JobsSubmittedPayload, id, createdAt);
    NewRowNamed(cfg, apps, id, row);
    NewRowSound(cfg, s, c, id, createdAt);
    forall d | 0 <= d < |s.calls| {
      CallSoundKept(cfg, apps, id, row, s.calls[d]);
    }
    forall k | k in s.store {
      EntrySoundKept(cfg, apps, id, row, k, s.store[k].value);
    }
    forall u | u in s.audit {
      RowSoundKept(cfg, s.calls, apps, id, row, u, s.audit[u]);
    }
  }

  lemma InsertSound(cfg: Config, s: State, c: nat, id: Uuid, createdAt: int, fault: Repo.TxFault)
    requires Sound(cfg, s)
    ensures Sound(cfg, Next(cfg, s, Insert(c, id, createdAt, fault)))
  {
    hide Sound, NamesRow, ParseUuid, UuidToString;
    if c < |s.calls| && s.calls[c].pc.AtInsert? {
      var s' := StepInsert(s, c, id, createdAt, fault);
      CallIsSound(cfg, s, c);
      if id !in s.tables.applications && id in s'.tables.applications {
        RowAdded(cfg, s, c, id, createdAt);
        assert s' == Move(WithRow(s, c, id, createdAt), c, s'.calls[c].pc);
        CallIsSound(cfg, WithRow(s, c, id, createdAt), c);
        MoveSound(cfg, WithRow(s, c, id, createdAt), c, s'.calls[c].pc);
      } else {
        assert s' == Move(s, c, s'.calls[c].pc);
        MoveSound(cfg, s, c, s'.calls[c].pc);
      }
    }
  }

  lemma {:induction false} NextSound(cfg: Config, s: State, step: Step)
    requires Sound(cfg, s)
    ensures Sound(cfg, Next(cfg, s, step))
  {
    match step
    case Start(req) => StartSound(cfg, s, req);
    case Tick(_) =>
    case Crash(c) =>
      if c < |s.calls| && InFlight(s.calls[c].pc) {
        assert CallSound(cfg, s.tables.applications, s.calls[c]);
        MoveSound(cfg, s, c, Crashed);
      }
    case Redis(c, fault) => RedisSound(cfg, s, c, fault);
    case Insert(c, id, createdAt, fault) => InsertSound(cfg, s, c, id, createdAt, fault);
  }

  lemma {:induction false} RunSound(cfg: Config, s: State, steps: seq<Step>)
    requires Sound(cfg, s)
    ensures Sound(cfg, Run(cfg, s, steps))
  {
    if steps != [] {
      RunSound(cfg, s, steps[..|steps| - 1]);
      NextSound(cfg, Run(cfg, s, steps[..|steps| - 1]), steps[|steps| - 1]);
    }
  }

  lemma InitSound(cfg: Config, start: int)
    ensures Sound(cfg, Init(start))
  {
  }

  // ---- over whole runs ----

  /**
   Provenance: in every reachable state, each cached value is the sentinel or else the printed id of
   a committed row whose own fields hash to that very key, and never both.
   */
  lemma {:induction false} CacheProvenance(cfg: Config, start: int, steps: seq<Step>, key: string)
    ensures var s := Run(cfg, Init(start), steps);
            key in s.store ==>
              (s.store[key].value == PENDING_SENTINEL <==> !NamesRow(cfg, s.tables.applications, s.store[key].value, key))
  {
    var s := Run(cfg, Init(start), steps);
    RunSound(cfg, Init(start), steps);
    if key in s.store {
      assert EntrySound(cfg, s.tables.applications, key, s.store[key].value);
      if NamesRow(cfg, s.tables.applications, s.store[key].value, key) {
        IdIsNotSentinel(ParseUuid(s.store[key].value).value);
      }
    }
  }

  /**
   Conservation: in every reachable state applications and outbox events correspond one to one, and each
   event carries, on the one topic, exactly the record that its application's owner reads back.
   */
  lemma {:induction false} OutboxConservation(cfg: Config, start: int, steps: seq<Step>)
    ensures var t := Run(cfg, Init(start), steps).tables;
            && Repo.Paired(t, "jobs.submitted", JobsSubmittedPayload)
            && (forall i :: 0 <= i < |t.outbox| ==> Repo.EventReadsBack(t, t.outbox[i]))
  {
    hide Run, Init, Repo.Paired, Repo.EventReadsBack;
    InitSound(cfg, start);
    RunSound(cfg, Init(start), steps);
    PayloadEncodes();
    Repo.PairedReadsBack(Run(cfg, Init(start), steps).tables, TOPIC_JOBS_SUBMITTED, JobsSubmittedPayload);
  }

  lemma PayloadEncodes()
    ensures Repo.Encodes(JobsSubmittedPayload)
  {
  }

  /** Step `i` inserted the row: its parameters are those of the call's event, and its creation time is the step's. */
  predicate InsertedAt(cfg: Config, s: State, steps: seq<Step>, id: Uuid, row: Repo.Row, i: nat)
    requires i < |steps|
  {
    var before, step := Run(cfg, s, steps[..i]), steps[i];
    && step.Insert? && step.id == id && step.txFault in {Repo.NoFault, Repo.AtCommit(true)}
    && step.c < |before.calls| && before.calls[step.c].pc.AtInsert? && id !in before.tables.applications
    && row == Repo.NewRow(Params(before.calls[step.c].event), id, step.createdAt)
  }

  lemma RowAfterStep(cfg: Config, s: State, step: Step, id: Uuid)
    requires id in Next(cfg, s, step).tables.applications
    ensures var row := Next(cfg, s, step).tables.applications[id];
            || (id in s.tables.applications && row == s.tables.applications[id])
            || (&& step.Insert? && step.id == id && step.txFault in {Repo.NoFault, Repo.AtCommit(true)}
                && step.c < |s.calls| && s.calls[step.c].pc.AtInsert? && id !in s.tables.applications
                && row == Repo.NewRow(Params(s.calls[step.c].event), id, step.createdAt))
  {
    hide UuidToString, CheckHit, Get, SetNX, Set, Del, Admit, Params, Repo.NewRow, Repo.FromRow;
  }

  /** Every row was inserted by a step of the run and has not changed since; created_at is that of the insert. */
  lemma {:induction false} RowHasInsert(cfg: Config, start: int, steps: seq<Step>, id: Uuid) returns (i: nat)
    requires id in Run(cfg, Init(start), steps).tables.applications
    ensures i < |steps| && InsertedAt(cfg, Init(start), steps, id, Run(cfg, Init(start), steps).tables.applications[id], i)
  {
    hide Next, Params, Repo.NewRow;
    var n := |steps| - 1;
    var before := Run(cfg, Init(start), steps[..n]);
    RowAfterStep(cfg, before, steps[n], id);
    if id in before.tables.applications && Run(cfg, Init(start), steps).tables.applications[id] == before.tables.applications[id] {
      i := RowHasInsert(cfg, start, steps[..n], id);
      assert steps[..n][..i] == steps[..i];
    } else {
      i := n;
    }
  }

  /** Rows and events are only ever added: whatever is in the tables stays there unchanged. */
  lemma {:induction false} TablesOnlyGrow(cfg: Config, s: State, steps: seq<Step>)
    requires Sound(cfg, s)
    ensures var t := Run(cfg, s, steps).tables;
            && s.tables.outbox <= t.outbox
            && (forall id :: id in s.tables.applications ==> id in t.applications && t.applications[id] == s.tables.applications[id])
  {
    if steps != [] {
      var before := Run(cfg, s, steps[..|steps| - 1]);
      TablesOnlyGrow(cfg, s, steps[..|steps| - 1]);
      NextTablesGrow(cfg, before, steps[|steps| - 1]);
    }
  }

  lemma NextTablesGrow(cfg: Config, s: State, step: Step)
    ensures var t := Next(cfg, s, step).tables;
            && s.tables.outbox <= t.outbox
            && (forall id :: id in s.tables.applications ==> id in t.applications && t.applications[id] == s.tables.applications[id])
  {
    hide UuidToString, CheckHit, Get, SetNX, Set, Del, Admit;
  }
}
