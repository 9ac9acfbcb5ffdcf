/**
 The claim as a lock. While claims are answered and every winner gives its key up before the sentinel
 runs out, a held key carries its holder's own sentinel and no key has two holders, whatever else
 fails: checks, Sets, Releases, transactions, crashes.
 */
module Lock {
  import opened Prelude
  import opened Uuid
  import opened Dedup
  import opened Protocol
  import Repo

  /** Between winning a claim and giving it up. */
  predicate Holding(pc: PC) {
    (pc.AtInsert? || pc.AtSet? || pc.AtRelease?) && pc.claim.Won?
  }

  predicate OnTime(pc: PC, now: int) {
    Holding(pc) ==> now < pc.claim.at + PENDING_TTL
  }

  /** No claim holder has outlived its sentinel. */
  predicate Timely(s: State) {
    forall c :: 0 <= c < |s.calls| ==> OnTime(s.calls[c].pc, s.now)
  }

  /** The Redis command of a call at a given point of submitOne. */
  predicate ClaimsNow(s: State, step: Step) {
    step.Redis? && step.c < |s.calls| && s.calls[step.c].pc.AtClaim?
  }

  /** A claim is acknowledged; other Redis commands may fail. */
  predicate ClaimsAnswer(s: State, step: Step) {
    ClaimsNow(s, step) ==> step.fault.Done?
  }

  predicate LockStep(cfg: Config, s: State, steps: seq<Step>, i: nat)
    requires i < |steps|
  {
    var before := Run(cfg, s, steps[..i]);
    ClaimsAnswer(before, steps[i]) && Timely(Next(cfg, before, steps[i]))
  }

  ghost predicate LockRun(cfg: Config, s: State, steps: seq<Step>) {
    forall i :: 0 <= i < |steps| ==> LockStep(cfg, s, steps, i)
  }

  // ---- the invariant ----

  /** A holder's key carries its own sentinel. */
  predicate HolderOwnsKey(s: State, c: nat)
    requires c < |s.calls|
  {
    Holding(s.calls[c].pc) ==>
      var at := s.calls[c].pc.claim.at;
      && at <= s.now
      && s.calls[c].key in s.store
      && s.store[s.calls[c].key] == Entry(PENDING_SENTINEL, at + PENDING_TTL)
  }

  /** Nobody inserts, sets or releases without a claim. */
  predicate InserterHolds(s: State, c: nat)
    requires c < |s.calls|
  {
    var pc := s.calls[c].pc;
    pc.AtInsert? || pc.AtSet? || pc.AtRelease? ==> Holding(pc)
  }

  predicate OneHolder(s: State, c: nat, d: nat)
    requires c < |s.calls| && d < |s.calls|
  {
    c != d && Holding(s.calls[c].pc) && Holding(s.calls[d].pc) ==> s.calls[c].key != s.calls[d].key
  }

  predicate LockFits(s: State, c: nat, d: nat) {
    && (c < |s.calls| ==> HolderOwnsKey(s, c) && InserterHolds(s, c))
    && (c < |s.calls| && d < |s.calls| ==> OneHolder(s, c, d))
  }

  ghost predicate Locked(s: State) {
    forall c: nat, d: nat :: LockFits(s, c, d)
  }

  lemma UseLocked(s: State, c: nat, d: nat)
    requires Locked(s)
    ensures LockFits(s, c, d)
  {
  }

  // ---- every step, every run ----

  lemma InitLocked(start: int)
    ensures Locked(Init(start)) && Timely(Init(start))
  {
  }

  /** A call that is not about to claim writes no key but its own. */
  lemma RedisLockFits(cfg: Config, s: State, m: nat, fault: Fault, c: nat, d: nat)
    requires Locked(s) && Timely(s) && ClaimsAnswer(s, Redis(m, fault)) && m < |s.calls|
    ensures LockFits(StepRedis(cfg, s, m, fault), c, d)
  {
    hide UuidToString, CheckHit, Locked, Timely, StepClaim;
    UseLocked(s, c, d);
    UseLocked(s, m, c);
    UseLocked(s, m, d);
    if s.calls[m].pc.AtClaim? {
      ClaimLockFits(s, m, c, d);
    }
  }

  lemma ClaimLockFits(s: State, m: nat, c: nat, d: nat)
    requires Locked(s) && Timely(s) && m < |s.calls| && s.calls[m].pc.AtClaim?
    ensures LockFits(StepClaim(s, m, Done), c, d)
  {
    hide Locked, Timely;
    OnTimeAt(s, c);
    OnTimeAt(s, d);
    UseLocked(s, c, d);
    UseLocked(s, d, c);
    UseLocked(s, m, c);
    UseLocked(s, m, d);
  }

  lemma OnTimeAt(s: State, c: nat)
    requires Timely(s)
    ensures c < |s.calls| ==> OnTime(s.calls[c].pc, s.now)
  {
  }

  /** Steps that touch no key. */
  lemma OtherLockFits(cfg: Config, s: State, step: Step, c: nat, d: nat)
    requires Locked(s) && !step.Redis?
    ensures LockFits(Next(cfg, s, step), c, d)
  {
    hide UuidToString, Repo.InsertTx, Locked;
    UseLocked(s, c, d);
  }

  lemma NextLockFits(cfg: Config, s: State, step: Step, c: nat, d: nat)
    requires Locked(s) && Timely(s) && ClaimsAnswer(s, step)
    ensures LockFits(Next(cfg, s, step), c, d)
  {
    hide StepRedis, Locked, Timely, ClaimsAnswer, LockFits;
    if step.Redis? {
      if step.c < |s.calls| {
        RedisLockFits(cfg, s, step.c, step.fault, c, d);
      } else {
        UseLocked(s, c, d);
      }
    } else {
      OtherLockFits(cfg, s, step, c, d);
    }
  }

  lemma NextLocked(cfg: Config, s: State, step: Step)
    requires Locked(s) && Timely(s) && ClaimsAnswer(s, step)
    ensures Locked(Next(cfg, s, step))
  {
    hide Next, LockFits, Timely, ClaimsAnswer;
    forall c: nat, d: nat
      ensures LockFits(Next(cfg, s, step), c, d)
    {
      NextLockFits(cfg, s, step, c, d);
    }
  }

  lemma LockPrefix(cfg: Config, s: State, steps: seq<Step>, n: nat)
    requires LockRun(cfg, s, steps) && n <= |steps|
    ensures LockRun(cfg, s, steps[..n])
  {
    hide Timely, ClaimsAnswer, Next, Run;
    forall i | 0 <= i < n
      ensures LockStep(cfg, s, steps[..n], i)
    {
      assert LockStep(cfg, s, steps, i);
      assert steps[..n][..i] == steps[..i];
    }
  }

  lemma {:induction false} RunLocked(cfg: Config, s: State, steps: seq<Step>)
    requires Locked(s) && Timely(s) && LockRun(cfg, s, steps)
    ensures Locked(Run(cfg, s, steps)) && Timely(Run(cfg, s, steps))
  {
    hide Locked, Timely, ClaimsAnswer, Next;
    if steps != [] {
      var n := |steps| - 1;
      LockPrefix(cfg, s, steps, n);
      RunLocked(cfg, s, steps[..n]);
      assert LockStep(cfg, s, steps, n);
      NextLocked(cfg, Run(cfg, s, steps[..n]), steps[n]);
    }
  }

  /** Mutual exclusion: in every state of such a run a holder's key carries the holder's own live sentinel, and no other call holds it. */
  lemma {:induction false} HoldersExclude(cfg: Config, start: int, steps: seq<Step>, c: nat, d: nat)
    requires LockRun(cfg, Init(start), steps)
    requires var s := Run(cfg, Init(start), steps);
             c < |s.calls| && d < |s.calls| && Holding(s.calls[c].pc)
    ensures var s := Run(cfg, Init(start), steps);
            && Get(s.store, s.calls[c].key, s.now) == Some(PENDING_SENTINEL)
            && s.store[s.calls[c].key].expires == s.calls[c].pc.claim.at + PENDING_TTL
            && (Holding(s.calls[d].pc) && s.calls[d].key == s.calls[c].key ==> c == d)
  {
    hide Run, Next, Init, LockRun;
    InitLocked(start);
    RunLocked(cfg, Init(start), steps);
    UseLocked(Run(cfg, Init(start), steps), c, d);
    assert OnTime(Run(cfg, Init(start), steps).calls[c].pc, Run(cfg, Init(start), steps).now);
  }
}
