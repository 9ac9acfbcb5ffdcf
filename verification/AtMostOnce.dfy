/**
 At most once, in time. Two rows of one key lie a full TTL apart, provided that claims are answered,
 every call that wins a claim finishes with its key before the sentinel runs out, Sets take effect, a
 transaction that reports failure has left no row, and no call dies between its insert and its Set.
 Failed checks, failed Releases and lost acknowledgements of a Set do no harm.
 */
module AtMostOnce {
  import opened Prelude
  import opened Uuid
  import opened Dedup
  import opened Protocol
  import opened Lock
  import Repo

  /** A Set takes effect, acknowledged or not. */
  predicate SetsTakeEffect(s: State, step: Step) {
    step.Redis? && step.c < |s.calls| && s.calls[step.c].pc.AtSet? ==> Applied(step.fault)
  }

  /** A transaction that reports failure has left no row. */
  predicate FailedMeansAbsent(step: Step) {
    step.Insert? ==> step.txFault != Repo.AtCommit(true)
  }

  /** No call dies between its insert and its Set. */
  predicate WritersSurvive(s: State, step: Step) {
    step.Crash? && step.c < |s.calls| ==> !s.calls[step.c].pc.AtSet?
  }

  predicate Dependable(s: State, step: Step) {
    ClaimsAnswer(s, step) && SetsTakeEffect(s, step) && FailedMeansAbsent(step) && WritersSurvive(s, step)
  }

  predicate PunctualStep(cfg: Config, s: State, steps: seq<Step>, i: nat)
    requires i < |steps|
  {
    var before := Run(cfg, s, steps[..i]);
    Dependable(before, steps[i]) && Timely(Next(cfg, before, steps[i]))
  }

  ghost predicate PunctualRun(cfg: Config, s: State, steps: seq<Step>) {
    forall i :: 0 <= i < |steps| ==> PunctualStep(cfg, s, steps, i)
  }

  // ---- the invariant, beside the lock ----

  /** A call about to Set wrote the row it will announce. */
  predicate SetterWrote(s: State, c: nat)
    requires c < |s.calls|
  {
    var pc := s.calls[c].pc;
    pc.AtSet? ==> pc.id in s.audit && s.audit[pc.id] == Audit(c, s.calls[c].key, pc.claim, None)
  }

  /** A row not yet cached has its writer still at Set; a cached one keeps its key occupied for the full TTL. */
  predicate RowCovered(cfg: Config, s: State, id: Uuid)
    requires id in s.audit
  {
    var a := s.audit[id];
    && a.claim.Won? && a.claim.at <= s.now
    && match a.setAt
       case None =>
         && a.writer < |s.calls|
         && s.calls[a.writer].key == a.key
         && s.calls[a.writer].pc == AtSet(a.claim, id)
       case Some(t) =>
         && a.claim.at <= t <= s.now
         && (s.now < t + cfg.ttl ==>
               a.key in s.store && s.store[a.key] == Entry(UuidToString(id), t + cfg.ttl))
  }

  /** The claim was won no earlier than a full TTL after the row was cached. */
  predicate After(cfg: Config, claim: Claim, a: Audit) {
    claim.Won? && a.setAt.Some? && claim.at >= a.setAt.value + cfg.ttl
  }

  /** A holder's claim comes after every row of its key, but for the row it has just written. */
  predicate HolderAfterRow(cfg: Config, s: State, c: nat, id: Uuid)
    requires c < |s.calls| && id in s.audit
  {
    var call := s.calls[c];
    (Holding(call.pc) && s.audit[id].key == call.key && !(call.pc.AtSet? && call.pc.id == id)) ==>
      After(cfg, call.pc.claim, s.audit[id])
  }

  /** Two rows of one key: the claim behind one of them was won a full TTL after the other was cached. */
  predicate RowsApart(cfg: Config, s: State, id: Uuid, id': Uuid)
    requires id in s.audit && id' in s.audit
  {
    id != id' && s.audit[id].key == s.audit[id'].key ==>
      After(cfg, s.audit[id].claim, s.audit[id']) || After(cfg, s.audit[id'].claim, s.audit[id])
  }

  /** All of the above, for one call and two rows at a time. */
  predicate Fits(cfg: Config, s: State, c: nat, id: Uuid, id': Uuid) {
    && (c < |s.calls| ==> SetterWrote(s, c))
    && (id in s.audit ==> RowCovered(cfg, s, id))
    && (c < |s.calls| && id in s.audit ==> HolderAfterRow(cfg, s, c, id))
    && (id in s.audit && id' in s.audit ==> RowsApart(cfg, s, id, id'))
  }

  ghost predicate Covered(cfg: Config, s: State) {
    && s.audit.Keys == s.tables.applications.Keys
    && forall c: nat, id: Uuid, id': Uuid :: Fits(cfg, s, c, id, id')
  }

  ghost predicate Exclusive(cfg: Config, s: State) {
    Locked(s) && Covered(cfg, s)
  }

  lemma UseCovered(cfg: Config, s: State, c: nat, id: Uuid, id': Uuid)
    requires Covered(cfg, s)
    ensures Fits(cfg, s, c, id, id')
    ensures s.audit.Keys == s.tables.applications.Keys
  {
  }

  // ---- steps that neither take nor give up a claim ----

  /** A call that is not about to Set moves on without becoming a holder, or keeps its claim. */
  lemma MoveCovered(cfg: Config, s: State, c: nat, pc: PC)
    requires Covered(cfg, s) && c < |s.calls|
    requires !s.calls[c].pc.AtSet? && !pc.AtInsert? && !pc.AtSet?
    requires pc.AtRelease? ==> s.calls[c].pc.AtInsert? && pc.claim == s.calls[c].pc.claim
    ensures Covered(cfg, Move(s, c, pc))
  {
    hide UuidToString;
    var s' := Move(s, c, pc);
    forall d: nat, id: Uuid, id': Uuid
      ensures Fits(cfg, s', d, id, id')
    {
      assert Fits(cfg, s, d, id, id');
    }
  }

  lemma StartCovered(cfg: Config, s: State, req: Canonical.Request)
    requires Covered(cfg, s)
    ensures Covered(cfg, Next(cfg, s, Start(req)))
  {
    hide UuidToString;
    var s' := Next(cfg, s, Start(req));
    assert !Holding(s'.calls[|s.calls|].pc);
    forall d: nat, id: Uuid, id': Uuid
      ensures Fits(cfg, s', d, id, id')
    {
      assert Fits(cfg, s, d, id, id');
    }
  }

  lemma TickCovered(cfg: Config, s: State, elapsed: nat)
    requires Covered(cfg, s)
    ensures Covered(cfg, Next(cfg, s, Tick(elapsed)))
  {
    hide UuidToString;
    var s' := Next(cfg, s, Tick(elapsed));
    forall d: nat, id: Uuid, id': Uuid
      ensures Fits(cfg, s', d, id, id')
    {
      assert Fits(cfg, s, d, id, id');
    }
  }

  // ---- winning a claim ----

  /** A key that looks free is not held, and every row of it was cached at least a TTL ago. */
  lemma FreeKey(cfg: Config, s: State, key: string, d: nat, id: Uuid)
    requires Exclusive(cfg, s) && Timely(s) && Get(s.store, key, s.now).None?
    ensures d < |s.calls| && Holding(s.calls[d].pc) ==> s.calls[d].key != key
    ensures id in s.audit && s.audit[id].key == key ==>
              s.audit[id].setAt.Some? && s.now >= s.audit[id].setAt.value + cfg.ttl
  {
    hide UuidToString, Locked, Covered;
    UseLocked(s, d, d);
    UseCovered(cfg, s, d, id, id);
    if id in s.audit {
      UseLocked(s, s.audit[id].writer, d);
    }
  }

  lemma WinCovered(cfg: Config, s: State, c: nat)
    requires Exclusive(cfg, s) && Timely(s)
    requires c < |s.calls| && s.calls[c].pc == AtClaim && Get(s.store, s.calls[c].key, s.now).None?
    ensures Covered(cfg, StepClaim(s, c, Done))
  {
    hide UuidToString, Locked, Timely;
    var s' := StepClaim(s, c, Done);
    forall d: nat, id: Uuid, id': Uuid
      ensures Fits(cfg, s', d, id, id')
    {
      assert Fits(cfg, s, d, id, id');
      FreeKey(cfg, s, s.calls[c].key, d, id);
    }
  }

  // ---- with the claim in hand ----

  lemma CommitCovered(cfg: Config, s: State, c: nat, id: Uuid, createdAt: int)
    requires Exclusive(cfg, s) && c < |s.calls| && s.calls[c].pc.AtInsert?
    requires id !in s.tables.applications
    ensures Covered(cfg, StepInsert(s, c, id, createdAt, Repo.NoFault))
  {
    hide UuidToString, Locked;
    var s' := StepInsert(s, c, id, createdAt, Repo.NoFault);
    forall d: nat, u: Uuid, v: Uuid
      ensures Fits(cfg, s', d, u, v)
    {
      UseLocked(s, c, d);
      assert Fits(cfg, s, d, u, v);
      assert Fits(cfg, s, c, u, v);
      assert Fits(cfg, s, c, v, u);
    }
  }

  lemma SetCovered(cfg: Config, s: State, c: nat, fault: Fault)
    requires Exclusive(cfg, s) && c < |s.calls| && s.calls[c].pc.AtSet? && Applied(fault)
    ensures Covered(cfg, StepSet(cfg, s, c, fault))
  {
    hide UuidToString, Locked;
    var s' := StepSet(cfg, s, c, fault);
    forall d: nat, u: Uuid, v: Uuid
      ensures Fits(cfg, s', d, u, v)
    {
      UseLocked(s, c, d);
      assert Fits(cfg, s, d, u, v);
      assert Fits(cfg, s, c, u, v);
    }
  }

  lemma ReleaseCovered(cfg: Config, s: State, c: nat, fault: Fault)
    requires Exclusive(cfg, s) && c < |s.calls| && s.calls[c].pc.AtRelease?
    ensures Covered(cfg, StepRelease(s, c, fault))
  {
    hide UuidToString, Locked;
    var s' := StepRelease(s, c, fault);
    forall d: nat, u: Uuid, v: Uuid
      ensures Fits(cfg, s', d, u, v)
    {
      UseLocked(s, c, d);
      assert Fits(cfg, s, d, u, v);
      assert Fits(cfg, s, c, u, v);
    }
  }

  // ---- every step, every run ----

  lemma RedisCovered(cfg: Config, s: State, c: nat, fault: Fault)
    requires Exclusive(cfg, s) && Timely(s) && Dependable(s, Redis(c, fault))
    ensures Covered(cfg, Next(cfg, s, Redis(c, fault)))
  {
    hide UuidToString, Covered, Locked, Timely;
    if c < |s.calls| {
      var s' := Next(cfg, s, Redis(c, fault));
      match s.calls[c].pc
      case AtCheck => MoveCovered(cfg, s, c, s'.calls[c].pc);
      case AtClaim =>
        if Get(s.store, s.calls[c].key, s.now).None? {
          WinCovered(cfg, s, c);
        } else {
          MoveCovered(cfg, s, c, AtRecheck);
        }
      case AtRecheck => MoveCovered(cfg, s, c, s'.calls[c].pc);
      case AtSet(_, _) => SetCovered(cfg, s, c, fault);
      case AtRelease(_, _) => ReleaseCovered(cfg, s, c, fault);
      case _ =>
    }
  }

  lemma InsertCovered(cfg: Config, s: State, c: nat, id: Uuid, createdAt: int, fault: Repo.TxFault)
    requires Exclusive(cfg, s) && fault != Repo.AtCommit(true)
    ensures Covered(cfg, Next(cfg, s, Insert(c, id, createdAt, fault)))
  {
    hide UuidToString, Covered, Locked;
    if c < |s.calls| && s.calls[c].pc.AtInsert? {
      var s' := StepInsert(s, c, id, createdAt, fault);
      if fault == Repo.NoFault && id !in s.tables.applications {
        CommitCovered(cfg, s, c, id, createdAt);
      } else {
        assert s'.tables == s.tables && s'.audit == s.audit;
        assert s' == Move(s, c, s'.calls[c].pc);
        MoveCovered(cfg, s, c, s'.calls[c].pc);
      }
    }
  }

  lemma NextExclusive(cfg: Config, s: State, step: Step)
    requires Exclusive(cfg, s) && Timely(s) && Dependable(s, step)
    ensures Exclusive(cfg, Next(cfg, s, step))
  {
    hide Covered, Locked, Timely;
    NextLocked(cfg, s, step);
    match step
    case Start(req) => StartCovered(cfg, s, req);
    case Tick(elapsed) => TickCovered(cfg, s, elapsed);
    case Crash(c) =>
      if c < |s.calls| && InFlight(s.calls[c].pc) {
        MoveCovered(cfg, s, c, Crashed);
      }
    case Redis(c, fault) => RedisCovered(cfg, s, c, fault);
    case Insert(c, id, createdAt, fault) => InsertCovered(cfg, s, c, id, createdAt, fault);
  }

  lemma InitExclusive(cfg: Config, start: int)
    ensures Exclusive(cfg, Init(start)) && Timely(Init(start))
  {
  }

  lemma {:induction false} RunExclusive(cfg: Config, s: State, steps: seq<Step>)
    requires Exclusive(cfg, s) && Timely(s) && PunctualRun(cfg, s, steps)
    ensures Exclusive(cfg, Run(cfg, s, steps)) && Timely(Run(cfg, s, steps))
  {
    hide Exclusive, Timely, Dependable, Next;
    if steps != [] {
      var n := |steps| - 1;
      PunctualPrefix(cfg, s, steps, n);
      RunExclusive(cfg, s, steps[..n]);
      assert PunctualStep(cfg, s, steps, n);
      NextExclusive(cfg, Run(cfg, s, steps[..n]), steps[n]);
    }
  }

  lemma PunctualPrefix(cfg: Config, s: State, steps: seq<Step>, n: nat)
    requires PunctualRun(cfg, s, steps) && n <= |steps|
    ensures PunctualRun(cfg, s, steps[..n])
  {
    hide Timely, Dependable, Next, Run;
    forall i | 0 <= i < n
      ensures PunctualStep(cfg, s, steps[..n], i)
    {
      assert PunctualStep(cfg, s, steps, i);
      assert steps[..n][..i] == steps[..i];
    }
  }

  /**
   Timed at-most-once: in every state of a punctual run, of two rows with one key, the later one's
   claim was won at least the TTL after the earlier one's Set.
   */
  lemma {:induction false} AtMostOncePerTTL(cfg: Config, start: int, steps: seq<Step>, id: Uuid, id': Uuid)
    requires PunctualRun(cfg, Init(start), steps)
    requires var s := Run(cfg, Init(start), steps);
             id in s.tables.applications && id' in s.tables.applications && id != id'
    ensures var s := Run(cfg, Init(start), steps);
            && id in s.audit && id' in s.audit
            && (s.audit[id].key == s.audit[id'].key ==>
                  After(cfg, s.audit[id].claim, s.audit[id']) || After(cfg, s.audit[id'].claim, s.audit[id]))
  {
    hide Run, Init, PunctualRun, Covered;
    InitExclusive(cfg, start);
    RunExclusive(cfg, Init(start), steps);
    UseCovered(cfg, Run(cfg, Init(start), steps), 0, id, id');
  }

  // ---- times in any run ----

  /** What was won or cached in a run was won or cached between its start and now. */
  ghost predicate Clocked(s: State, start: int) {
    && start <= s.now
    && (forall c :: 0 <= c < |s.calls| ==> ClaimClocked(s.calls[c].pc, start, s.now))
    && (forall id :: id in s.audit ==> RowClocked(s.audit[id], start, s.now))
  }

  predicate ClaimClocked(pc: PC, start: int, now: int) {
    Holding(pc) ==> start <= pc.claim.at <= now
  }

  predicate RowClocked(a: Audit, start: int, now: int) {
    && (a.claim.Won? ==> start <= a.claim.at <= now)
    && (a.setAt.Some? ==> start <= a.setAt.value <= now)
  }

  lemma NextClocked(cfg: Config, s: State, step: Step, start: int)
    requires Clocked(s, start)
    ensures Clocked(Next(cfg, s, step), start)
  {
    hide UuidToString, Repo.InsertTx, CheckHit, Get, SetNX;
  }

  lemma InitClocked(start: int)
    ensures Clocked(Init(start), start)
  {
  }

  lemma {:induction false} RunClocked(cfg: Config, start: int, steps: seq<Step>)
    ensures Clocked(Run(cfg, Init(start), steps), start)
  {
    hide Next, Clocked, Init;
    if steps == [] {
      InitClocked(start);
    } else {
      RunClocked(cfg, start, steps[..|steps| - 1]);
      NextClocked(cfg, Run(cfg, Init(start), steps[..|steps| - 1]), steps[|steps| - 1], start);
    }
  }

  /** In a run over in less than the pending TTL no holder can be late. */
  lemma QuickRunIsTimely(cfg: Config, start: int, steps: seq<Step>, n: nat)
    requires n <= |steps| && Run(cfg, Init(start), steps).now < start + PENDING_TTL
    ensures Timely(Run(cfg, Init(start), steps[..n]))
  {
    hide Run, Next, Init;
    assert steps == steps[..n] + steps[n..];
    TimeAdvances(cfg, Init(start), steps[..n], steps[n..]);
    RunClocked(cfg, start, steps[..n]);
    var s := Run(cfg, Init(start), steps[..n]);
    forall c | 0 <= c < |s.calls|
      ensures OnTime(s.calls[c].pc, s.now)
    {
      assert ClaimClocked(s.calls[c].pc, start, s.now);
    }
  }

  /** In a run shorter than the TTL no claim can come a TTL after a row was cached. */
  lemma {:induction false} ShortRunHasNoAfter(cfg: Config, start: int, steps: seq<Step>, id: Uuid, id': Uuid)
    requires var s := Run(cfg, Init(start), steps);
             s.now < start + cfg.ttl && id in s.audit && id' in s.audit
    ensures var s := Run(cfg, Init(start), steps);
            !After(cfg, s.audit[id].claim, s.audit[id'])
  {
    hide Run, Init;
    RunClocked(cfg, start, steps);
    var s := Run(cfg, Init(start), steps);
    assert RowClocked(s.audit[id], start, s.now) && RowClocked(s.audit[id'], start, s.now);
  }

  /** A punctual run shorter than the TTL records each key at most once. */
  lemma {:induction false} ShortRunRecordsOnce(cfg: Config, start: int, steps: seq<Step>, id: Uuid, id': Uuid)
    requires PunctualRun(cfg, Init(start), steps)
    requires var s := Run(cfg, Init(start), steps);
             && s.now < start + cfg.ttl
             && id in s.tables.applications && id' in s.tables.applications && id != id'
    ensures var s := Run(cfg, Init(start), steps);
            id in s.audit && id' in s.audit && s.audit[id].key != s.audit[id'].key
  {
    hide Run, Init, PunctualRun, After;
    AtMostOncePerTTL(cfg, start, steps, id, id');
    ShortRunHasNoAfter(cfg, start, steps, id, id');
    ShortRunHasNoAfter(cfg, start, steps, id', id);
  }
}
