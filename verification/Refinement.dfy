/**
 While nothing expires, claims are answered and a failed transaction leaves nothing behind, any
 interleaving of submitOne calls refines one atomic map from dedup keys to application ids, wherever
 calls crash and whatever becomes of checks, Sets and Releases.
 */
module Refinement {
  import opened Prelude
  import opened Uuid
  import opened Dedup
  import opened Protocol
  import opened Lock
  import opened AtMostOnce
  import opened Agreement
  import Repo

  // ---- the abstract machine ----

  type Registry = map<string, Uuid>

  /** The atomic operations: record a new key, or leave the map alone. */
  predicate AtomicStep(m: Registry, m': Registry, key: string, id: Uuid) {
    m' == m || (key !in m && m' == m[key := id])
  }

  /** The registry of a run: an insert that commits records its row's key. */
  function RegistryAfter(m: Registry, s: State, s': State, step: Step): Registry {
    if step.Insert? && step.id in s'.audit && step.id !in s.audit then m[s'.audit[step.id].key := step.id] else m
  }

  function RegistryOf(cfg: Config, s: State, steps: seq<Step>): Registry {
    if steps == [] then map[]
    else
      var n := |steps| - 1;
      var before := Run(cfg, s, steps[..n]);
      RegistryAfter(RegistryOf(cfg, s, steps[..n]), before, Next(cfg, before, steps[n]), steps[n])
  }

  // ---- lasting runs ----

  predicate NothingExpired(s: State) {
    forall key :: key in s.store ==> s.now < s.store[key].expires
  }

  /** A claim is answered, and a transaction that reports failure has left no row. */
  predicate Orderly(s: State, step: Step) {
    ClaimsAnswer(s, step) && FailedMeansAbsent(step)
  }

  predicate LastingStep(cfg: Config, s: State, steps: seq<Step>, i: nat)
    requires i < |steps|
  {
    var before := Run(cfg, s, steps[..i]);
    Orderly(before, steps[i]) && NothingExpired(Next(cfg, before, steps[i]))
  }

  ghost predicate LastingRun(cfg: Config, s: State, steps: seq<Step>) {
    forall i :: 0 <= i < |steps| ==> LastingStep(cfg, s, steps, i)
  }

  // ---- the refinement relation ----

  /** The key of a row is taken: by the row's id once that is cached, by the writer's sentinel before. */
  predicate KeyTaken(cfg: Config, s: State, id: Uuid) {
    id in s.audit ==>
      var a := s.audit[id];
      && a.key in s.store
      && match a.setAt
         case None => s.store[a.key].value == PENDING_SENTINEL
         case Some(t) => s.store[a.key] == Entry(UuidToString(id), t + cfg.ttl)
  }

  /** A holder of a row's key is the row's own writer, about to Set. */
  predicate HolderWrote(s: State, c: nat, id: Uuid) {
    c < |s.calls| && id in s.audit && Holding(s.calls[c].pc) && s.calls[c].key == s.audit[id].key ==>
      s.calls[c].pc.AtSet? && s.calls[c].pc.id == id
  }

  predicate Registered(m: Registry, s: State, id: Uuid) {
    id in s.audit ==> s.audit[id].key in m && m[s.audit[id].key] == id
  }

  /** `text` is the registry's id for `key`. */
  predicate Names(m: Registry, s: State, key: string, text: string) {
    key in m && text == UuidToString(m[key]) && m[key] in s.audit && s.audit[m[key]].key == key
  }

  /** And that id is cached. */
  predicate Answers(m: Registry, s: State, key: string, text: string) {
    Names(m, s, key, text) && s.audit[m[key]].setAt.Some?
  }

  predicate EntryAnswers(m: Registry, s: State, key: string) {
    key in s.store ==> s.store[key].value == PENDING_SENTINEL || Answers(m, s, key, s.store[key].value)
  }

  predicate HasId(s: State, c: nat) {
    c < |s.calls| && s.calls[c].pc.Returned? && s.calls[c].pc.result.Ok?
  }

  predicate ReturnNames(m: Registry, s: State, c: nat) {
    HasId(s, c) ==> Names(m, s, s.calls[c].key, s.calls[c].pc.result.value)
  }

  predicate Relates(cfg: Config, m: Registry, s: State, c: nat, id: Uuid, key: string) {
    && KeyTaken(cfg, s, id)
    && HolderWrote(s, c, id)
    && (c < |s.calls| ==> SetterWrote(s, c))
    && Registered(m, s, id)
    && EntryAnswers(m, s, key)
    && ReturnNames(m, s, c)
    && (key in m ==> m[key] in s.audit && s.audit[m[key]].key == key)
  }

  predicate AuditKeys(s: State) {
    s.audit.Keys == s.tables.applications.Keys
  }

  ghost predicate Refines(cfg: Config, m: Registry, s: State) {
    && Locked(s)
    && AuditKeys(s)
    && NothingExpired(s)
    && forall c: nat, id: Uuid, key: string :: Relates(cfg, m, s, c, id, key)
  }

  // ---- one step ----

  lemma HoldersInTime(cfg: Config, m: Registry, s: State)
    requires Refines(cfg, m, s)
    ensures Timely(s)
  {
    hide Locked, Relates, AuditKeys;
    forall c | 0 <= c < |s.calls|
      ensures OnTime(s.calls[c].pc, s.now)
    {
      UseLocked(s, c, c);
    }
  }

  /** A key with a recorded row is not free, and its holder, if any, is the row's own writer before Set. */
  lemma RecordedKey(cfg: Config, m: Registry, s: State, id: Uuid, c: nat)
    requires Refines(cfg, m, s) && id in s.audit
    ensures Get(s.store, s.audit[id].key, s.now).Some?
    ensures HolderWrote(s, c, id)
  {
    hide UuidToString, Refines;
    UseRefines(cfg, m, s, c, id, s.audit[id].key);
    LiveEntry(cfg, m, s, s.audit[id].key);
  }

  lemma RelatesAfter(cfg: Config, m: Registry, s: State, step: Step, d: nat, u: Uuid, key: string)
    requires Refines(cfg, m, s) && Orderly(s, step) && NothingExpired(Next(cfg, s, step))
    ensures Relates(cfg, RegistryAfter(m, s, Next(cfg, s, step), step), Next(cfg, s, step), d, u, key)
  {
    hide UuidToString, Refines, NothingExpired;
    UseRefines(cfg, m, s, d, u, key);
    match step
    case Start(req) =>
    case Tick(_) =>
    case Crash(c) =>
    case Redis(c, fault) =>
      if c < |s.calls| {
        RedisRelates(cfg, m, s, c, fault, d, u, key);
      }
    case Insert(c, id, createdAt, fault) =>
      InsertRelates(cfg, m, s, c, id, createdAt, fault, d, u, key);
  }

  /** Nothing has expired, so what is stored is what Redis returns. */
  lemma LiveEntry(cfg: Config, m: Registry, s: State, key: string)
    requires Refines(cfg, m, s) && key in s.store
    ensures Get(s.store, key, s.now) == Some(s.store[key].value)
  {
    hide Relates, Locked, AuditKeys;
  }

  lemma RedisRelates(cfg: Config, m: Registry, s: State, c: nat, fault: Fault, d: nat, u: Uuid, key: string)
    requires Refines(cfg, m, s) && c < |s.calls|
    requires ClaimsAnswer(s, Redis(c, fault))
    ensures Relates(cfg, m, Next(cfg, s, Redis(c, fault)), d, u, key)
  {
    hide UuidToString, Refines, Relates;
    match s.calls[c].pc
    case AtCheck => ReadRelates(cfg, m, s, c, fault, d, u, key);
    case AtClaim => ClaimRelates(cfg, m, s, c, d, u, key);
    case AtRecheck => ReadRelates(cfg, m, s, c, fault, d, u, key);
    case AtSet(_, _) => SetRelates(cfg, m, s, c, fault, d, u, key);
    case AtRelease(_, _) => ReleaseRelates(cfg, m, s, c, fault, d, u, key);
    case _ => assert Relates(cfg, m, s, d, u, key) by { UseRefines(cfg, m, s, d, u, key); }
  }

  lemma UseRefines(cfg: Config, m: Registry, s: State, d: nat, u: Uuid, key: string)
    requires Refines(cfg, m, s)
    ensures Relates(cfg, m, s, d, u, key) && Locked(s) && AuditKeys(s)
  {
    hide Locked, AuditKeys, NothingExpired;
  }

  lemma ReadRelates(cfg: Config, m: Registry, s: State, c: nat, fault: Fault, d: nat, u: Uuid, key: string)
    requires Refines(cfg, m, s) && c < |s.calls| && (s.calls[c].pc.AtCheck? || s.calls[c].pc.AtRecheck?)
    ensures Relates(cfg, m, Next(cfg, s, Redis(c, fault)), d, u, key)
  {
    hide UuidToString, Refines;
    UseRefines(cfg, m, s, d, u, key);
    UseRefines(cfg, m, s, c, u, s.calls[c].key);
  }

  lemma ClaimRelates(cfg: Config, m: Registry, s: State, c: nat, d: nat, u: Uuid, key: string)
    requires Refines(cfg, m, s) && c < |s.calls| && s.calls[c].pc.AtClaim?
    ensures Relates(cfg, m, Next(cfg, s, Redis(c, Done)), d, u, key)
  {
    hide UuidToString, Refines;
    UseRefines(cfg, m, s, d, u, key);
    if u in s.audit {
      RecordedKey(cfg, m, s, u, c);
    }
  }

  lemma SetRelates(cfg: Config, m: Registry, s: State, c: nat, fault: Fault, d: nat, u: Uuid, key: string)
    requires Refines(cfg, m, s) && c < |s.calls| && s.calls[c].pc.AtSet?
    ensures Relates(cfg, m, Next(cfg, s, Redis(c, fault)), d, u, key)
  {
    hide UuidToString, Refines, Locked;
    UseRefines(cfg, m, s, d, u, key);
    UseRefines(cfg, m, s, c, s.calls[c].pc.id, s.calls[c].key);
    UseRefines(cfg, m, s, c, u, key);
    UseLocked(s, c, d);
  }

  lemma ReleaseRelates(cfg: Config, m: Registry, s: State, c: nat, fault: Fault, d: nat, u: Uuid, key: string)
    requires Refines(cfg, m, s) && c < |s.calls| && s.calls[c].pc.AtRelease?
    ensures Relates(cfg, m, Next(cfg, s, Redis(c, fault)), d, u, key)
  {
    hide UuidToString, Refines, Locked;
    UseRefines(cfg, m, s, d, u, key);
    UseRefines(cfg, m, s, c, u, key);
    UseLocked(s, c, d);
  }

  /** An insert either adds its own row, writer and key recorded, or changes nothing but its call. */
  lemma InsertEffect(cfg: Config, s: State, c: nat, id: Uuid, createdAt: int, fault: Repo.TxFault)
    requires fault != Repo.AtCommit(true) && AuditKeys(s)
    requires c < |s.calls| && s.calls[c].pc.AtInsert?
    ensures var s' := Next(cfg, s, Insert(c, id, createdAt, fault));
            && s'.store == s.store && s'.now == s.now
            && s'.calls == s.calls[c := s.calls[c].(pc := s'.calls[c].pc)]
            && (if id !in s.audit && fault == Repo.NoFault
                then && s'.audit == s.audit[id := Audit(c, s.calls[c].key, s.calls[c].pc.claim, None)]
                     && s'.calls[c].pc == AtSet(s.calls[c].pc.claim, id)
                else s'.audit == s.audit && s'.calls[c].pc.AtRelease?)
  {
    hide UuidToString;
  }

  lemma InsertRelates(cfg: Config, m: Registry, s: State, c: nat, id: Uuid, createdAt: int, fault: Repo.TxFault, d: nat, u: Uuid, key: string)
    requires Refines(cfg, m, s) && fault != Repo.AtCommit(true)
    ensures var s' := Next(cfg, s, Insert(c, id, createdAt, fault));
            Relates(cfg, RegistryAfter(m, s, s', Insert(c, id, createdAt, fault)), s', d, u, key)
  {
    hide UuidToString, Refines, Locked, StepInsert;
    UseRefines(cfg, m, s, d, u, key);
    if c < |s.calls| && s.calls[c].pc.AtInsert? {
      UseLocked(s, c, d);
      InsertEffect(cfg, s, c, id, createdAt, fault);
      UseRefines(cfg, m, s, c, u, s.calls[c].key);
      if s.calls[c].key in m {
        RecordedKey(cfg, m, s, m[s.calls[c].key], c);
      }
    }
  }

  lemma NextAuditKeys(cfg: Config, m: Registry, s: State, step: Step)
    requires Refines(cfg, m, s)
    ensures AuditKeys(Next(cfg, s, step))
  {
    hide UuidToString, Refines, Locked, CheckHit, Get, SetNX, Admit;
    var c := if step.Redis? then step.c else 0;
    UseRefines(cfg, m, s, c, seq(16, i => 0), "");
  }

  lemma NextRefines(cfg: Config, m: Registry, s: State, step: Step)
    requires Refines(cfg, m, s) && Orderly(s, step) && NothingExpired(Next(cfg, s, step))
    ensures Refines(cfg, RegistryAfter(m, s, Next(cfg, s, step), step), Next(cfg, s, step))
  {
    hide Next, Locked, NothingExpired, Relates, RegistryAfter, Timely, AuditKeys;
    HoldersInTime(cfg, m, s);
    NextLocked(cfg, s, step);
    NextAuditKeys(cfg, m, s, step);
    forall d: nat, u: Uuid, key: string
      ensures Relates(cfg, RegistryAfter(m, s, Next(cfg, s, step), step), Next(cfg, s, step), d, u, key)
    {
      RelatesAfter(cfg, m, s, step, d, u, key);
    }
  }

  // ---- over whole runs ----

  lemma InitRefines(cfg: Config, start: int)
    ensures Refines(cfg, map[], Init(start))
  {
  }

  lemma LastingPrefix(cfg: Config, s: State, steps: seq<Step>, n: nat)
    requires LastingRun(cfg, s, steps) && n <= |steps|
    ensures LastingRun(cfg, s, steps[..n])
  {
    hide NothingExpired, Orderly, Next, Run;
    forall i | 0 <= i < n
      ensures LastingStep(cfg, s, steps[..n], i)
    {
      assert LastingStep(cfg, s, steps, i);
      assert steps[..n][..i] == steps[..i];
    }
  }

  lemma {:induction false} RunRefines(cfg: Config, start: int, steps: seq<Step>)
    requires LastingRun(cfg, Init(start), steps)
    ensures Refines(cfg, RegistryOf(cfg, Init(start), steps), Run(cfg, Init(start), steps))
  {
    hide NothingExpired, Orderly, Next, Refines, RegistryAfter;
    if steps == [] {
      InitRefines(cfg, start);
    } else {
      var n := |steps| - 1;
      LastingPrefix(cfg, Init(start), steps, n);
      RunRefines(cfg, start, steps[..n]);
      assert LastingStep(cfg, Init(start), steps, n);
      NextRefines(cfg, RegistryOf(cfg, Init(start), steps[..n]), Run(cfg, Init(start), steps[..n]), steps[n]);
    }
  }

  /**
   Every step of a lasting run is one atomic step of the map: a new key recorded by its own successful
   insert, or no change. Lost claims, pending duplicates and failed inserts leave the map alone.
   */
  lemma {:induction false} StepIsAtomic(cfg: Config, start: int, steps: seq<Step>, step: Step)
    requires LastingRun(cfg, Init(start), steps + [step])
    ensures var m := RegistryOf(cfg, Init(start), steps);
            var m' := RegistryOf(cfg, Init(start), steps + [step]);
            && (m' != m ==> step.Insert? && step.txFault.NoFault? && step.c < |Run(cfg, Init(start), steps).calls|)
            && (step.Insert? && step.c < |Run(cfg, Init(start), steps).calls| ==>
                  AtomicStep(m, m', Run(cfg, Init(start), steps).calls[step.c].key, step.id))
  {
    hide Refines, NothingExpired, Next, RegistryAfter;
    var all := steps + [step];
    assert all[..|steps|] == steps;
    LastingPrefix(cfg, Init(start), all, |steps|);
    RunRefines(cfg, start, steps);
    assert LastingStep(cfg, Init(start), all, |steps|);
    InsertIsAtomic(cfg, RegistryOf(cfg, Init(start), steps), Run(cfg, Init(start), steps), step);
  }

  lemma InsertIsAtomic(cfg: Config, m: Registry, s: State, step: Step)
    requires Refines(cfg, m, s) && Orderly(s, step)
    ensures var m' := RegistryAfter(m, s, Next(cfg, s, step), step);
            && (m' != m ==> step.Insert? && step.txFault.NoFault? && step.c < |s.calls|)
            && (step.Insert? && step.c < |s.calls| ==> AtomicStep(m, m', s.calls[step.c].key, step.id))
  {
    hide UuidToString, Refines, Locked, StepInsert;
    if step.Insert? && step.c < |s.calls| && s.calls[step.c].pc.AtInsert? {
      var key := s.calls[step.c].key;
      UseRefines(cfg, m, s, step.c, step.id, key);
      UseLocked(s, step.c, step.c);
      InsertEffect(cfg, s, step.c, step.id, step.createdAt, step.txFault);
      if key in m {
        RecordedKey(cfg, m, s, m[key], step.c);
      }
    }
  }

  /**
   Refinement: in every state of a lasting run each key has at most one row, the map lists exactly the
   rows, and whatever id a call has returned, inserted or found, is the map's id for the call's key.
   */
  lemma {:induction false} ReturnsAreTheRegistrys(cfg: Config, start: int, steps: seq<Step>, c: nat, id: Uuid)
    requires LastingRun(cfg, Init(start), steps)
    ensures var s := Run(cfg, Init(start), steps);
            var m := RegistryOf(cfg, Init(start), steps);
            && (id in s.tables.applications <==> id in m.Values)
            && (id in s.tables.applications ==> id in s.audit && s.audit[id].key in m && m[s.audit[id].key] == id)
            && (c < |s.calls| && s.calls[c].pc.Returned? && s.calls[c].pc.result.Ok? ==>
                  s.calls[c].key in m && s.calls[c].pc.result == Ok(UuidToString(m[s.calls[c].key])))
  {
    hide UuidToString, Locked, NothingExpired;
    var s, m := Run(cfg, Init(start), steps), RegistryOf(cfg, Init(start), steps);
    RunRefines(cfg, start, steps);
    UseRefines(cfg, m, s, c, id, "");
    forall key | key in m && m[key] == id
      ensures id in s.audit
    {
      UseRefines(cfg, m, s, c, id, key);
    }
  }

  // ---- what later submits see ----

  lemma AnsweredKeyHits(cfg: Config, m: Registry, s: State, key: string, text: string)
    requires Refines(cfg, m, s) && Answers(m, s, key, text)
    ensures CheckHit(s.store, key, s.now) == Some(text)
  {
    hide UuidToString, Refines;
    UseRefines(cfg, m, s, 0, m[key], key);
    LiveEntry(cfg, m, s, key);
    IdIsNotSentinel(m[key]);
  }

  lemma AnswerKept(cfg: Config, m: Registry, s: State, step: Step, key: string, text: string)
    requires Refines(cfg, m, s) && Orderly(s, step) && Answers(m, s, key, text)
    ensures var s' := Next(cfg, s, step);
            Answers(RegistryAfter(m, s, s', step), s', key, text)
  {
    hide UuidToString, Refines, Locked, StepInsert, CheckHit, Get, SetNX;
    UseRefines(cfg, m, s, 0, m[key], key);
    if step.Insert? && step.c < |s.calls| && s.calls[step.c].pc.AtInsert? {
      UseRefines(cfg, m, s, step.c, m[key], key);
      UseLocked(s, step.c, step.c);
      InsertEffect(cfg, s, step.c, step.id, step.createdAt, step.txFault);
    }
  }

  /** Every id a call has returned is cached: true as long as Sets take effect. */
  ghost predicate ReturnsCached(m: Registry, s: State) {
    forall c: nat :: ReturnCached(m, s, c)
  }

  predicate ReturnCached(m: Registry, s: State, c: nat) {
    HasId(s, c) ==> Answers(m, s, s.calls[c].key, s.calls[c].pc.result.value)
  }

  lemma NextReturnsCached(cfg: Config, m: Registry, s: State, step: Step, c: nat)
    requires Refines(cfg, m, s) && Orderly(s, step) && SetsTakeEffect(s, step) && ReturnsCached(m, s)
    ensures ReturnCached(RegistryAfter(m, s, Next(cfg, s, step), step), Next(cfg, s, step), c)
  {
    hide UuidToString, Refines, Answers, Locked, Next, RegistryAfter, Orderly, SetsTakeEffect, ReturnsCached;
    if HasId(s, c) {
      UseReturnsCached(m, s, c);
      AnswerKept(cfg, m, s, step, s.calls[c].key, s.calls[c].pc.result.value);
      StepKeepsKeys(cfg, s, step, c);
      ReturnedStays(cfg, s, step, c);
    } else if HasId(Next(cfg, s, step), c) {
      NewReturnCached(cfg, m, s, step, c);
    }
  }

  lemma UseReturnsCached(m: Registry, s: State, c: nat)
    requires ReturnsCached(m, s) && HasId(s, c)
    ensures Answers(m, s, s.calls[c].key, s.calls[c].pc.result.value)
  {
    hide Answers;
    assert ReturnCached(m, s, c);
  }

  lemma ReturnedStays(cfg: Config, s: State, step: Step, c: nat)
    requires HasId(s, c)
    ensures HasId(Next(cfg, s, step), c) && Next(cfg, s, step).calls[c].pc == s.calls[c].pc
  {
    hide UuidToString, Repo.InsertTx, CheckHit, Get, SetNX, Admit;
  }

  /** An id is returned from the cache, or by the Set that caches it. */
  lemma NewReturnCached(cfg: Config, m: Registry, s: State, step: Step, c: nat)
    requires Refines(cfg, m, s) && Orderly(s, step) && SetsTakeEffect(s, step)
    requires !HasId(s, c) && HasId(Next(cfg, s, step), c)
    ensures var s' := Next(cfg, s, step);
            Answers(RegistryAfter(m, s, s', step), s', s'.calls[c].key, s'.calls[c].pc.result.value)
  {
    hide UuidToString, Refines, Locked, Repo.InsertTx, SetNX;
    assert c < |s.calls| && step.Redis? && step.c == c;
    var key := s.calls[c].key;
    if s.calls[c].pc.AtSet? {
      UseRefines(cfg, m, s, c, s.calls[c].pc.id, key);
    } else {
      UseRefines(cfg, m, s, c, seq(16, i => 0), key);
    }
  }

  ghost predicate SetsApplied(cfg: Config, s: State, steps: seq<Step>) {
    forall i :: 0 <= i < |steps| ==> SetsTakeEffect(Run(cfg, s, steps[..i]), steps[i])
  }

  lemma SetsPrefix(cfg: Config, s: State, steps: seq<Step>, n: nat)
    requires SetsApplied(cfg, s, steps) && n <= |steps|
    ensures SetsApplied(cfg, s, steps[..n])
  {
    hide Run, SetsTakeEffect;
    forall i | 0 <= i < n
      ensures SetsTakeEffect(Run(cfg, s, steps[..n][..i]), steps[..n][i])
    {
      assert steps[..n][..i] == steps[..i];
    }
  }

  lemma {:induction false} RunReturnsCached(cfg: Config, start: int, steps: seq<Step>)
    requires LastingRun(cfg, Init(start), steps) && SetsApplied(cfg, Init(start), steps)
    ensures ReturnsCached(RegistryOf(cfg, Init(start), steps), Run(cfg, Init(start), steps))
  {
    hide NothingExpired, Orderly, Next, Refines, RegistryAfter, ReturnCached, SetsTakeEffect;
    if steps == [] {
      forall c: nat
        ensures ReturnCached(map[], Init(start), c)
      {
        NobodyHasId(start, c);
      }
    } else {
      var n := |steps| - 1;
      LastingPrefix(cfg, Init(start), steps, n);
      SetsPrefix(cfg, Init(start), steps, n);
      RunReturnsCached(cfg, start, steps[..n]);
      RunRefines(cfg, start, steps[..n]);
      assert LastingStep(cfg, Init(start), steps, n);
      var s, m := Run(cfg, Init(start), steps[..n]), RegistryOf(cfg, Init(start), steps[..n]);
      forall c: nat
        ensures ReturnCached(RegistryAfter(m, s, Next(cfg, s, steps[n]), steps[n]), Next(cfg, s, steps[n]), c)
      {
        NextReturnsCached(cfg, m, s, steps[n], c);
      }
    }
  }

  lemma NobodyHasId(start: int, c: nat)
    ensures ReturnCached(map[], Init(start), c)
  {
  }

  /**
   Idempotence: when Sets take effect and re-checks are answered, once some submit of a key has returned
   an id, every submit of that key that starts later, and every one still at or before its re-check,
   returns that id if it returns at all; it neither inserts nor reports a pending duplicate.
   */
  lemma {:induction false} LaterSubmitsAgree(cfg: Config, start: int, before: seq<Step>, after: seq<Step>, c: nat, d: nat)
    requires LastingRun(cfg, Init(start), before + after) && SetsApplied(cfg, Init(start), before)
    requires RechecksAnswered(cfg, Run(cfg, Init(start), before), after)
    requires var s := Run(cfg, Init(start), before);
             HasId(s, c) && (d < |s.calls| ==> StillAsking(s.calls[d].pc, s.calls[c].pc.result.value))
    requires var s, t := Run(cfg, Init(start), before), Run(cfg, Init(start), before + after);
             d < |t.calls| && t.calls[d].key == s.calls[c].key
    ensures var s, t := Run(cfg, Init(start), before), Run(cfg, Init(start), before + after);
            StillAsking(t.calls[d].pc, s.calls[c].pc.result.value)
  {
    hide NothingExpired, Orderly, Next, Refines, RegistryAfter, Answers, RechecksAnswered, StillAsking;
    var s := Run(cfg, Init(start), before);
    assert (before + after)[..|before|] == before;
    LastingPrefix(cfg, Init(start), before + after, |before|);
    RunReturnsCached(cfg, start, before);
    UseReturnsCached(RegistryOf(cfg, Init(start), before), s, c);
    AgreeAlong(cfg, start, before, after, d, s.calls[c].key, s.calls[c].pc.result.value);
  }

  lemma {:induction false} AgreeAlong(cfg: Config, start: int, before: seq<Step>, after: seq<Step>, d: nat, key: string, text: string)
    requires LastingRun(cfg, Init(start), before + after) && RechecksAnswered(cfg, Run(cfg, Init(start), before), after)
    requires Answers(RegistryOf(cfg, Init(start), before), Run(cfg, Init(start), before), key, text)
    requires var s := Run(cfg, Init(start), before);
             d < |s.calls| ==> StillAsking(s.calls[d].pc, text)
    requires var t := Run(cfg, Init(start), before + after);
             d < |t.calls| ==> t.calls[d].key == key
    ensures var t, m := Run(cfg, Init(start), before + after), RegistryOf(cfg, Init(start), before + after);
            Answers(m, t, key, text) && (d < |t.calls| ==> StillAsking(t.calls[d].pc, text))
    decreases |after|
  {
    hide Init, NothingExpired, Orderly, Next, Refines, RegistryAfter, Answers, RechecksAnswer, StillAsking;
    var all := before + after;
    if after == [] {
      assert all == before;
    } else {
      var n := |after| - 1;
      var most := before + after[..n];
      assert all[..|all| - 1] == most && all[|all| - 1] == after[n];
      LastingPrefix(cfg, Init(start), all, |all| - 1);
      assert LastingStep(cfg, Init(start), all, |all| - 1);
      RunRefines(cfg, start, most);
      var t, m := Run(cfg, Init(start), most), RegistryOf(cfg, Init(start), most);
      assert Run(cfg, Init(start), all) == Next(cfg, t, after[n]);
      StepKeepsKeys(cfg, t, after[n], d);
      RechecksPrefix(cfg, Run(cfg, Init(start), before), after, n);
      RunAppend(cfg, Init(start), before, after[..n]);
      assert RechecksAnswer(Run(cfg, Run(cfg, Init(start), before), after[..n]), after[n]);
      AgreeAlong(cfg, start, before, after[..n], d, key, text);
      AnswerKept(cfg, m, t, after[n], key, text);
      AnsweredKeyHits(cfg, m, t, key, text);
      OrderlyClaims(t, after[n]);
      AskingStays(cfg, t, after[n], d, key, text);
    }
  }

  lemma OrderlyClaims(s: State, step: Step)
    requires Orderly(s, step)
    ensures ClaimsAnswer(s, step)
  {
  }
}
