/**
 The intake server as one process sees it: submitOne and the batch RPC as methods over the deduper
 and the repository. What the environment does to a call (delays, faults, the generated id) is its
 fate. Each method is proved against a function of the world, and a submit is proved to be a run of
 the protocol in which only that call moves.
 */
module Server {
  import opened Prelude
  import opened Uuid
  import opened Dedup
  import opened Canonical
  import opened Protocol
  import opened Intake
  import DedupKey
  import Repo

  const MAX_BATCH_SIZE := 500

  datatype World = World(store: Store, tables: Repo.Tables, now: int)

  /** The time that passes before each operation of one call, and how each operation ends. */
  datatype Fate = Fate(
    startDelay: nat,
    checkDelay: nat, check: Fault,
    claimDelay: nat, claim: Fault,
    recheckDelay: nat, recheck: Fault,
    insertDelay: nat, insert: Repo.TxFault, id: Uuid, createdAt: int,
    finishDelay: nat, finish: Fault
  )

  function After(w: World, delay: nat): World {
    w.(now := w.now + delay)
  }

  // ---- submitOne as a function of the world ----

  function Submit(cfg: Config, w: World, req: Request, f: Fate): (World, SubmitResult) {
    var w0 := After(w, f.startDelay);
    match cfg.prepare(req, w0.now)
    case Err(why) => (w0, Err(Invalid(why)))
    case Ok(e) => SubmitPrepared(cfg, w0, e, f)
  }

  function SubmitPrepared(cfg: Config, w: World, e: Event, f: Fate): (World, SubmitResult) {
    var w1 := After(w, f.checkDelay);
    var hit := CheckHit(w1.store, KeyOf(cfg, e), w1.now);
    if f.check.Done? && hit.Some? then (w1, Ok(hit.value)) else SubmitMissed(cfg, w1, e, f)
  }

  function SubmitMissed(cfg: Config, w: World, e: Event, f: Fate): (World, SubmitResult) {
    var key := KeyOf(cfg, e);
    var w1 := After(w, f.claimDelay);
    var free := Get(w1.store, key, w1.now).None?;
    if f.claim.Done? && !free then
      var w2 := After(w1, f.recheckDelay);
      var hit := CheckHit(w2.store, key, w2.now);
      (w2, if f.recheck.Done? && hit.Some? then Ok(hit.value) else Err(PendingDuplicate))
    else
      var store := if Applied(f.claim) then SetNX(w1.store, key, PENDING_SENTINEL, PENDING_TTL, w1.now) else w1.store;
      SubmitInsert(cfg, w1.(store := store), e, f)
  }

  function SubmitInsert(cfg: Config, w: World, e: Event, f: Fate): (World, SubmitResult) {
    var key := KeyOf(cfg, e);
    var w1 := After(w, f.insertDelay);
    var (tables, r) := Repo.InsertTx(w1.tables, Params(e), TOPIC_JOBS_SUBMITTED, JobsSubmittedPayload, f.id, f.createdAt, f.insert);
    var w2 := After(w1.(tables := tables), f.finishDelay);
    match r
    case Err(cause) =>
      (w2.(store := if Applied(f.finish) then Del(w2.store, key) else w2.store), Err(InsertFailed(cause)))
    case Ok(rec) =>
      (w2.(store := if Applied(f.finish) then Set(w2.store, key, rec.id, cfg.ttl, w2.now) else w2.store), Ok(rec.id))
  }

  // ---- a submit is a run of the protocol ----

  function WorldOf(s: State): World {
    World(s.store, s.tables, s.now)
  }

  /** From s to t only call `n` has moved, to its return. */
  predicate OnlyReturned(s: State, t: State, n: nat, r: SubmitResult)
    requires n < |s.calls|
  {
    t.calls == s.calls[n := s.calls[n].(pc := Returned(r))]
  }

  lemma InsertIsARun(cfg: Config, s: State, n: nat, f: Fate) returns (steps: seq<Step>)
    requires n < |s.calls| && s.calls[n].pc.AtInsert? && s.calls[n].key == KeyOf(cfg, s.calls[n].event)
    ensures var (w, r) := SubmitInsert(cfg, WorldOf(s), s.calls[n].event, f);
            var t := Run(cfg, s, steps);
            WorldOf(t) == w && OnlyReturned(s, t, n, r)
  {
    hide UuidToString;
    steps := [Tick(f.insertDelay), Insert(n, f.id, f.createdAt, f.insert), Tick(f.finishDelay), Redis(n, f.finish)];
    var s1 := Next(cfg, s, steps[0]);
    var s2 := Next(cfg, s1, steps[1]);
    var s3 := Next(cfg, s2, steps[2]);
    var s4 := Next(cfg, s3, steps[3]);
    RunThrough(cfg, s, steps, [s, s1, s2, s3, s4]);
  }

  /** The claim of a call that has missed, and its re-check. */
  lemma ClaimMoves(cfg: Config, s: State, n: nat, delay: nat, fault: Fault)
    requires n < |s.calls| && s.calls[n].pc.AtClaim?
    ensures var s' := Next(cfg, Next(cfg, s, Tick(delay)), Redis(n, fault));
            var now, key := s.now + delay, s.calls[n].key;
            var free := Get(s.store, key, now).None?;
            && (fault.Done? && !free ==> s' == Move(s.(now := now), n, AtRecheck))
            && (!(fault.Done? && !free) ==>
                  && s'.calls[n].pc.AtInsert?
                  && s' == Move(s.(now := now, store := if Applied(fault) then SetNX(s.store, key, PENDING_SENTINEL, PENDING_TTL, now) else s.store),
                                n, s'.calls[n].pc))
  {
  }

  lemma RecheckMoves(cfg: Config, s: State, n: nat, delay: nat, fault: Fault)
    requires n < |s.calls| && s.calls[n].pc.AtRecheck?
    ensures var hit := CheckHit(s.store, s.calls[n].key, s.now + delay);
            Next(cfg, Next(cfg, s, Tick(delay)), Redis(n, fault)) ==
              Move(s.(now := s.now + delay), n, Returned(if fault.Done? && hit.Some? then Ok(hit.value) else Err(PendingDuplicate)))
  {
  }

  lemma CheckMoves(cfg: Config, s: State, n: nat, delay: nat, fault: Fault)
    requires n < |s.calls| && s.calls[n].pc.AtCheck?
    ensures var hit := CheckHit(s.store, s.calls[n].key, s.now + delay);
            Next(cfg, Next(cfg, s, Tick(delay)), Redis(n, fault)) ==
              Move(s.(now := s.now + delay), n, if fault.Done? && hit.Some? then Returned(Ok(hit.value)) else AtClaim)
  {
  }

  lemma MissedIsARun(cfg: Config, s: State, n: nat, f: Fate) returns (steps: seq<Step>)
    requires n < |s.calls| && s.calls[n].pc.AtClaim? && s.calls[n].key == KeyOf(cfg, s.calls[n].event)
    ensures var (w, r) := SubmitMissed(cfg, WorldOf(s), s.calls[n].event, f);
            var t := Run(cfg, s, steps);
            WorldOf(t) == w && OnlyReturned(s, t, n, r)
  {
    hide Next, SubmitInsert, CheckHit, Get, SetNX, KeyOf;
    var first := [Tick(f.claimDelay), Redis(n, f.claim)];
    var s1 := Next(cfg, s, first[0]);
    var s2 := Next(cfg, s1, first[1]);
    RunThrough(cfg, s, first, [s, s1, s2]);
    ClaimMoves(cfg, s, n, f.claimDelay, f.claim);
    if s2.calls[n].pc.AtRecheck? {
      var rest := [Tick(f.recheckDelay), Redis(n, f.recheck)];
      var s3 := Next(cfg, s2, rest[0]);
      var s4 := Next(cfg, s3, rest[1]);
      RunThrough(cfg, s2, rest, [s2, s3, s4]);
      RecheckMoves(cfg, s2, n, f.recheckDelay, f.recheck);
      RunAppend(cfg, s, first, rest);
      steps := first + rest;
    } else {
      var rest := InsertIsARun(cfg, s2, n, f);
      RunAppend(cfg, s, first, rest);
      steps := first + rest;
    }
  }

  lemma PreparedIsARun(cfg: Config, s: State, n: nat, f: Fate) returns (steps: seq<Step>)
    requires n < |s.calls| && s.calls[n].pc.AtCheck? && s.calls[n].key == KeyOf(cfg, s.calls[n].event)
    ensures var (w, r) := SubmitPrepared(cfg, WorldOf(s), s.calls[n].event, f);
            var t := Run(cfg, s, steps);
            WorldOf(t) == w && OnlyReturned(s, t, n, r)
  {
    hide Next, SubmitMissed, CheckHit, KeyOf;
    steps := [Tick(f.checkDelay), Redis(n, f.check)];
    var s1 := Next(cfg, s, steps[0]);
    var s2 := Next(cfg, s1, steps[1]);
    RunThrough(cfg, s, steps, [s, s1, s2]);
    CheckMoves(cfg, s, n, f.checkDelay, f.check);
    if s2.calls[n].pc.AtClaim? {
      var rest := MissedIsARun(cfg, s2, n, f);
      RunAppend(cfg, s, steps, rest);
      steps := steps + rest;
    }
  }

  /** The new call of a submit that starts in state s, once it has returned. */
  predicate NewCallReturned(cfg: Config, s: State, t: State, req: Request, began: int, r: SubmitResult) {
    && |t.calls| == |s.calls| + 1
    && t.calls[..|s.calls|] == s.calls
    && t.calls[|s.calls|] == Admit(cfg, req, began).(pc := Returned(r))
  }

  /**
   A submit by itself is a run of the protocol: from any state there are steps that change the world
   as Submit says, add one call, and leave it returned with Submit's result.
   */
  lemma {:induction false} SubmitIsARun(cfg: Config, s: State, req: Request, f: Fate) returns (steps: seq<Step>)
    ensures var (w, r) := Submit(cfg, WorldOf(s), req, f);
            var t := Run(cfg, s, steps);
            WorldOf(t) == w && NewCallReturned(cfg, s, t, req, s.now + f.startDelay, r)
  {
    hide UuidToString, Repo.InsertTx, SubmitPrepared;
    steps := [Tick(f.startDelay), Start(req)];
    var s1 := Next(cfg, s, steps[0]);
    var s2 := Next(cfg, s1, steps[1]);
    RunThrough(cfg, s, steps, [s, s1, s2]);
    if cfg.prepare(req, s1.now).Ok? {
      var rest := PreparedIsARun(cfg, s2, |s.calls|, f);
      RunAppend(cfg, s, steps, rest);
      steps := steps + rest;
    }
  }

  // ---- the batch RPC ----

  datatype ItemError = Submission(error: SubmitError) | ContextDone

  /** BatchSubmitResult: exactly one of an application id and an error message. */
  datatype ItemResult = ApplicationId(id: string) | ErrorMessage(error: ItemError)

  datatype BatchError = EmptyBatch | BatchTooLarge(size: nat)

  function ToItem(r: SubmitResult): ItemResult {
    match r
    case Ok(id) => ApplicationId(id)
    case Err(e) => ErrorMessage(Submission(e))
  }

  /** The left fold of Submit over the first `n` items; from item `cancelFrom` on the context is done. */
  function Fold(cfg: Config, w: World, apps: seq<Request>, fates: nat -> Fate, cancelFrom: nat, n: nat): (r: (World, seq<ItemResult>))
    requires n <= |apps|
    ensures |r.1| == n
  {
    if n == 0 then (w, [])
    else
      var (w1, items) := Fold(cfg, w, apps, fates, cancelFrom, n - 1);
      if cancelFrom <= n - 1 then (w1, items + [ErrorMessage(ContextDone)])
      else
        var (w2, r) := Submit(cfg, w1, apps[n - 1], fates(n - 1));
        (w2, items + [ToItem(r)])
  }

  function Batch(cfg: Config, w: World, apps: seq<Request>, fates: nat -> Fate, cancelFrom: nat)
    : (World, Result<seq<ItemResult>, BatchError>)
  {
    if |apps| == 0 then (w, Err(EmptyBatch))
    else if |apps| > MAX_BATCH_SIZE then (w, Err(BatchTooLarge(|apps|)))
    else
      var (w', items) := Fold(cfg, w, apps, fates, cancelFrom, |apps|);
      (w', Ok(items))
  }

  /**
   The size rule: a batch is served if and only if it has 1 to 500 items; otherwise nothing happens, and
   the error is the empty one for no items and the size error with the batch's own size for more.
   */
  lemma BatchSizes(cfg: Config, w: World, apps: seq<Request>, fates: nat -> Fate, cancelFrom: nat)
    ensures var (w', r) := Batch(cfg, w, apps, fates, cancelFrom);
            && (r.Ok? <==> 1 <= |apps| <= 500)
            && (r.Ok? ==> |r.value| == |apps|)
            && (r.Err? ==> w' == w && r.error == if |apps| == 0 then EmptyBatch else BatchTooLarge(|apps|))
  {
    hide Submit;
  }

  /** Each item of a batch reports its own submit: the id it returned, or its error. */
  lemma {:induction false} ItemsReport(cfg: Config, w: World, apps: seq<Request>, fates: nat -> Fate, cancelFrom: nat, n: nat, i: nat)
    requires i < n <= |apps| && i < cancelFrom
    ensures var item := Fold(cfg, w, apps, fates, cancelFrom, n).1[i];
            var (_, r) := Submit(cfg, Fold(cfg, w, apps, fates, cancelFrom, i).0, apps[i], fates(i));
            && (forall id :: item == ApplicationId(id) <==> r == Ok(id))
            && (forall e :: item == ErrorMessage(Submission(e)) <==> r == Err(e))
  {
    hide Submit;
    if i < n - 1 {
      ItemsReport(cfg, w, apps, fates, cancelFrom, n - 1, i);
    }
  }

  /** The cause an insert reports for a fault, where a clash of ids is a failed insert. */
  predicate CauseOf(cause: Repo.RepoError, fault: Repo.TxFault, clash: bool) {
    && (cause == Repo.BeginTx <==> fault == Repo.AtBegin)
    && (clash && fault != Repo.AtBegin ==> cause == Repo.InsertApplication)
    && (!clash ==>
          && (cause == Repo.InsertApplication <==> fault == Repo.AtInsert)
          && (cause == Repo.BuildPayload <==> fault == Repo.AtBuild)
          && (cause == Repo.InsertOutbox <==> fault == Repo.AtOutbox)
          && (cause == Repo.CommitTx <==> fault.AtCommit?))
  }

  /**
   What a valid submit that finds nothing at first is told. If its claim is answered and lost: the id
   that is there by the second look, or a pending duplicate. Otherwise it inserts: the printed new id,
   or the insert's own error, named by what went wrong.
   */
  lemma MissAnswers(cfg: Config, w: World, e: Event, f: Fate)
    ensures var (w', r) := SubmitMissed(cfg, w, e, f);
            var claimed := Get(w.store, KeyOf(cfg, e), w.now + f.claimDelay).None?;
            var second := Get(w.store, KeyOf(cfg, e), w.now + f.claimDelay + f.recheckDelay);
            if f.claim == Done && !claimed then
              && w'.tables == w.tables && w'.store == w.store
              && r == (if f.recheck == Done && second.Some? && second.value != "__pending__" then Ok(second.value) else Err(PendingDuplicate))
            else
              && (r.Ok? <==> f.insert == Repo.NoFault && f.id !in w.tables.applications)
              && (r.Ok? ==> r.value == UuidToString(f.id) && f.id in w'.tables.applications)
              && (r.Err? ==> r.error.InsertFailed? && CauseOf(r.error.cause, f.insert, f.id in w.tables.applications))
  {
    hide UuidToString, KeyOf, SetNX, Set, Del;
  }

  /** A submit that does not validate is told the rule it broke, and touches nothing. */
  lemma InvalidAnswers(cfg: Config, w: World, req: Request, f: Fate)
    requires cfg.prepare(req, w.now + f.startDelay).Err?
    ensures Submit(cfg, w, req, f) == (After(w, f.startDelay), Err(Invalid(cfg.prepare(req, w.now + f.startDelay).error)))
  {
  }

  /** A committed id found at the first look is the answer, and neither store is touched, whatever else would befall the call. */
  lemma HitTouchesNothing(cfg: Config, w: World, req: Request, f: Fate, id: string)
    requires cfg.prepare(req, w.now + f.startDelay).Ok? && f.check.Done?
    requires var key := KeyOf(cfg, cfg.prepare(req, w.now + f.startDelay).value);
             id != PENDING_SENTINEL && Get(w.store, key, w.now + f.startDelay + f.checkDelay) == Some(id)
    ensures Submit(cfg, w, req, f) == (After(w, f.startDelay + f.checkDelay), Ok(id))
  {
    hide SubmitMissed, KeyOf;
  }

  /** After cancellation: only errors to the end, and no further change of state. */
  lemma {:induction false} CancelledSuffix(cfg: Config, w: World, apps: seq<Request>, fates: nat -> Fate, cancelFrom: nat, n: nat)
    requires cancelFrom <= n <= |apps|
    ensures Fold(cfg, w, apps, fates, cancelFrom, n).0 == Fold(cfg, w, apps, fates, cancelFrom, cancelFrom).0
    ensures Fold(cfg, w, apps, fates, cancelFrom, n).1[..cancelFrom] == Fold(cfg, w, apps, fates, cancelFrom, cancelFrom).1
    ensures forall i :: cancelFrom <= i < n ==> Fold(cfg, w, apps, fates, cancelFrom, n).1[i] == ErrorMessage(ContextDone)
  {
    if n > cancelFrom {
      CancelledSuffix(cfg, w, apps, fates, cancelFrom, n - 1);
    }
  }

  lemma ConfigTtl(p: Platform, ttl: int)
    ensures IntakeConfig(p, ttl).ttl == ttl
  {
  }

  lemma ConfigIsPlatform(p: Platform, ttl: int, req: Request, now: int)
    ensures IntakeConfig(p, ttl).prepare(req, now) == Prepare(p, req, now)
  {
    hide Prepare;
  }

  lemma KeyIsPlatform(p: Platform, ttl: int, e: Event)
    ensures KeyOf(IntakeConfig(p, ttl), e) == DedupKey.Key(p, e.userID, e.company, e.jobTitle)
  {
    hide DedupKey.Key;
  }

  class IntakeServer {
    const platform: Platform
    const deduper: RedisDeduper
    const repo: Repo.PostgresRepo
    var now: int   // the wall clock

    ghost predicate Valid() {
      deduper.platform == platform
    }

    ghost function Cfg(): Config {
      IntakeConfig(platform, deduper.ttl)
    }

    ghost function View(): World
      reads this, deduper, repo
    {
      World(deduper.store, repo.tables, now)
    }

    constructor (platform: Platform, ttl: int, now: int)
      ensures Valid() && Cfg() == IntakeConfig(platform, ttl)
      ensures View() == World(map[], Repo.EMPTY_TABLES, now)
      ensures fresh(deduper) && fresh(repo)
    {
      this.platform := platform;
      this.deduper := new RedisDeduper(platform, ttl);
      this.repo := new Repo.PostgresRepo();
      this.now := now;
    }

    method SubmitOne(req: Request, f: Fate) returns (r: SubmitResult)
      requires Valid()
      modifies this, deduper, repo
      ensures (View(), r) == Submit(Cfg(), old(View()), req, f)
    {
      hide IntakeConfig, KeyOf, Prepare, DedupKey.Key, SubmitInsert, CheckHit, Get, SetNX;
      var event;
      now := now + f.startDelay;
      ConfigIsPlatform(platform, deduper.ttl, req, now);
      match Prepare(platform, req, now) {
        case Err(why) => return Err(Invalid(why));
        case Ok(e) => event := e;
      }
      KeyIsPlatform(platform, deduper.ttl, event);

      now := now + f.checkDelay;
      var checked := deduper.Check(event.userID, event.company, event.jobTitle, now, f.check);
      if checked.Ok? && checked.value.Some? {
        return Ok(checked.value.value);
      }

      now := now + f.claimDelay;
      var claimed := deduper.Claim(event.userID, event.company, event.jobTitle, now, f.claim);
      if claimed.Ok? && !claimed.value {
        now := now + f.recheckDelay;
        var again := deduper.Check(event.userID, event.company, event.jobTitle, now, f.recheck);
        if again.Ok? && again.value.Some? {
          return Ok(again.value.value);
        }
        return Err(PendingDuplicate);
      }

      r := InsertAndCache(event, f);
    }

    /** The insert, and the Set or Release that ends the call. */
    method InsertAndCache(event: Event, f: Fate) returns (r: SubmitResult)
      requires Valid()
      modifies this, deduper, repo
      ensures (View(), r) == SubmitInsert(Cfg(), old(View()), event, f)
    {
      hide IntakeConfig, KeyOf, UuidToString, DedupKey.Key, Repo.InsertTx, Set, Del, Params;
      KeyIsPlatform(platform, deduper.ttl, event);
      ConfigTtl(platform, deduper.ttl);
      now := now + f.insertDelay;
      var rec := repo.InsertWithOutbox(Params(event), TOPIC_JOBS_SUBMITTED, JobsSubmittedPayload, f.id, f.createdAt, f.insert);
      now := now + f.finishDelay;
      if rec.Err? {
        deduper.Release(event.userID, event.company, event.jobTitle, f.finish);
        return Err(InsertFailed(rec.error));
      }
      deduper.SetId(event.userID, event.company, event.jobTitle, rec.value.id, now, f.finish);
      return Ok(rec.value.id);
    }

    method BatchSubmitApplication(apps: seq<Request>, fates: nat -> Fate, cancelFrom: nat)
      returns (r: Result<seq<ItemResult>, BatchError>)
      requires Valid()
      modifies this, deduper, repo
      ensures (View(), r) == Batch(Cfg(), old(View()), apps, fates, cancelFrom)
    {
      if |apps| == 0 {
        return Err(EmptyBatch);
      }
      if |apps| > MAX_BATCH_SIZE {
        return Err(BatchTooLarge(|apps|));
      }
      var results := new ItemResult[|apps|](_ => ErrorMessage(ContextDone));
      for i := 0 to |apps|
        invariant (View(), results[..i]) == Fold(Cfg(), old(View()), apps, fates, cancelFrom, i)
      {
        if cancelFrom <= i {
          results[i] := ErrorMessage(ContextDone);
        } else {
          var one := SubmitOne(apps[i], fates(i));
          results[i] := ToItem(one);
        }
        assert results[..i + 1] == results[..i] + [results[i]];
      }
      assert results[..|apps|] == results[..];
      return Ok(results[..]);
    }
  }
}
