/**
 The sentinel as the mark of a holder. While claims are answered and on time, Sets and Releases take
 effect, and no holder crashes, the sentinel is under a key exactly while one call holds its claim.
 Inserts may fail in any way, a commit that is applied and reported failed included.
 */
module Holder {
  import opened Prelude
  import opened Uuid
  import opened Dedup
  import opened Protocol
  import opened Lock
  import Repo

  predicate Holds(s: State, c: nat, key: string) {
    c < |s.calls| && Holding(s.calls[c].pc) && s.calls[c].key == key
  }

  ghost predicate Held(s: State, key: string) {
    exists c: nat :: Holds(s, c, key)
  }

  predicate Pending(s: State, key: string) {
    key in s.store && s.store[key].value == PENDING_SENTINEL
  }

  ghost predicate EverySentinelHeld(s: State) {
    forall key :: Pending(s, key) ==> Held(s, key)
  }

  /** A holder that ends takes its sentinel away: its Set or Release takes effect, and it does not crash. */
  predicate HolderCleansUp(s: State, step: Step) {
    match step
    case Redis(c, fault) => c < |s.calls| && (s.calls[c].pc.AtSet? || s.calls[c].pc.AtRelease?) ==> Applied(fault)
    case Crash(c) => c < |s.calls| ==> !Holding(s.calls[c].pc)
    case _ => true
  }

  ghost predicate CleanRun(cfg: Config, s: State, steps: seq<Step>) {
    && LockRun(cfg, s, steps)
    && forall i :: 0 <= i < |steps| ==> HolderCleansUp(Run(cfg, s, steps[..i]), steps[i])
  }

  /** Where a holder goes: it keeps the claim, or gives the key up for an id or for nothing. */
  lemma HolderStays(cfg: Config, s: State, step: Step, c: nat, key: string)
    requires Holds(s, c, key) && HolderCleansUp(s, step)
    ensures var s' := Next(cfg, s, step);
            Holds(s', c, key) || !Pending(s', key)
  {
    hide UuidToString, Repo.InsertTx, CheckHit, Get;
    if s.calls[c].pc.AtSet? {
      IdIsNotSentinel(s.calls[c].pc.id);
    }
  }

  lemma NewSentinelHeld(cfg: Config, s: State, step: Step, key: string)
    requires ClaimsAnswer(s, step)
    requires !Pending(s, key) && Pending(Next(cfg, s, step), key)
    ensures Held(Next(cfg, s, step), key)
  {
    hide UuidToString, Repo.InsertTx;
    assert step.Redis? && step.c < |s.calls|;
    if s.calls[step.c].pc.AtSet? {
      IdIsNotSentinel(s.calls[step.c].pc.id);
    }
    assert Holds(Next(cfg, s, step), step.c, key);
  }

  lemma NextSentinelHeld(cfg: Config, s: State, step: Step)
    requires EverySentinelHeld(s) && ClaimsAnswer(s, step) && HolderCleansUp(s, step)
    ensures EverySentinelHeld(Next(cfg, s, step))
  {
    hide Next, Holds, Pending, ClaimsAnswer, HolderCleansUp;
    var s' := Next(cfg, s, step);
    forall key | Pending(s', key)
      ensures Held(s', key)
    {
      if Pending(s, key) {
        var c: nat :| Holds(s, c, key);
        HolderStays(cfg, s, step, c, key);
      } else {
        NewSentinelHeld(cfg, s, step, key);
      }
    }
  }

  lemma {:induction false} RunSentinelHeld(cfg: Config, s: State, steps: seq<Step>)
    requires EverySentinelHeld(s) && CleanRun(cfg, s, steps)
    ensures EverySentinelHeld(Run(cfg, s, steps))
  {
    hide Timely, ClaimsAnswer, HolderCleansUp, Next, EverySentinelHeld;
    if steps != [] {
      var n := |steps| - 1;
      CleanPrefix(cfg, s, steps, n);
      RunSentinelHeld(cfg, s, steps[..n]);
      assert LockStep(cfg, s, steps, n);
      NextSentinelHeld(cfg, Run(cfg, s, steps[..n]), steps[n]);
    }
  }

  lemma CleanPrefix(cfg: Config, s: State, steps: seq<Step>, n: nat)
    requires CleanRun(cfg, s, steps) && n <= |steps|
    ensures CleanRun(cfg, s, steps[..n])
  {
    hide LockRun, HolderCleansUp, Run;
    LockPrefix(cfg, s, steps, n);
    forall i | 0 <= i < n
      ensures HolderCleansUp(Run(cfg, s, steps[..n][..i]), steps[..n][i])
    {
      assert steps[..n][..i] == steps[..i];
    }
  }

  /** In every state of a clean run a key carries the sentinel if and only if some call holds its claim. */
  lemma {:induction false} SentinelMeansHolder(cfg: Config, start: int, steps: seq<Step>, key: string)
    requires CleanRun(cfg, Init(start), steps)
    ensures var s := Run(cfg, Init(start), steps);
            Pending(s, key) <==> Held(s, key)
  {
    hide Run, LockRun, HolderCleansUp, Locked;
    var s := Run(cfg, Init(start), steps);
    InitLocked(start);
    RunLocked(cfg, Init(start), steps);
    RunSentinelHeld(cfg, Init(start), steps);
    if c: nat :| Holds(s, c, key) {
      UseLocked(s, c, c);
    }
  }

  /**
   In every state of a clean run: a key carries the sentinel exactly when some call holds its claim,
   no two calls hold one key, and the live sentinel under it is the holder's own.
   */
  lemma {:induction false} SentinelMeansOneHolder(cfg: Config, start: int, steps: seq<Step>, key: string, c: nat, d: nat)
    requires CleanRun(cfg, Init(start), steps)
    ensures var s := Run(cfg, Init(start), steps);
            && (Pending(s, key) <==> Held(s, key))
            && (Holds(s, c, key) && Holds(s, d, key) ==> c == d)
            && (Holds(s, c, key) ==> s.store[key] == Entry(PENDING_SENTINEL, s.calls[c].pc.claim.at + PENDING_TTL)
                                     && Get(s.store, key, s.now) == Some(PENDING_SENTINEL))
  {
    hide Run, LockRun, Init, Pending, Held;
    SentinelMeansHolder(cfg, start, steps, key);
    if Holds(Run(cfg, Init(start), steps), c, key) {
      HoldersExclude(cfg, start, steps, c, c);
      if Holds(Run(cfg, Init(start), steps), d, key) {
        HoldersExclude(cfg, start, steps, c, d);
      }
    }
  }

  /** With no call in flight, no key is left pending. */
  lemma {:induction false} QuietStoreHasNoSentinel(cfg: Config, start: int, steps: seq<Step>, key: string)
    requires CleanRun(cfg, Init(start), steps)
    requires var s := Run(cfg, Init(start), steps);
             forall c :: 0 <= c < |s.calls| ==> !InFlight(s.calls[c].pc)
    ensures !Pending(Run(cfg, Init(start), steps), key)
  {
    hide Run, LockRun, HolderCleansUp, Init;
    SentinelMeansHolder(cfg, start, steps, key);
  }

  // ---- who writes ----

  predicate Changes(s: State, t: State, key: string) {
    (key in t.store) != (key in s.store) || (key in s.store && key in t.store && t.store[key] != s.store[key])
  }

  /**
   Only the winner of a claim writes: while claims are answered and on time, a step that changes what
   is under a key is a claim won on a free key, which makes its call the holder, or the Set or Release
   of the call whose own sentinel is there.
   */
  lemma {:induction false} LosersNeverWrite(cfg: Config, start: int, steps: seq<Step>, step: Step, key: string)
    requires LockRun(cfg, Init(start), steps)
    requires var s := Run(cfg, Init(start), steps);
             ClaimsAnswer(s, step) && Changes(s, Next(cfg, s, step), key)
    ensures var s := Run(cfg, Init(start), steps);
            && step.Redis? && step.c < |s.calls| && s.calls[step.c].key == key
            && (|| (Holds(s, step.c, key) && key in s.store
                    && s.store[key] == Entry(PENDING_SENTINEL, s.calls[step.c].pc.claim.at + PENDING_TTL))
                || (s.calls[step.c].pc == AtClaim && Get(s.store, key, s.now).None? && Holds(Next(cfg, s, step), step.c, key)))
  {
    hide Run, LockRun, Next, Changes, Locked;
    InitLocked(start);
    RunLocked(cfg, Init(start), steps);
    ChangeByHolder(cfg, Run(cfg, Init(start), steps), step, key);
  }

  lemma ChangeByHolder(cfg: Config, s: State, step: Step, key: string)
    requires Locked(s) && ClaimsAnswer(s, step) && Changes(s, Next(cfg, s, step), key)
    ensures step.Redis? && step.c < |s.calls| && s.calls[step.c].key == key
    ensures || (Holds(s, step.c, key) && key in s.store
                && s.store[key] == Entry(PENDING_SENTINEL, s.calls[step.c].pc.claim.at + PENDING_TTL))
            || (s.calls[step.c].pc == AtClaim && Get(s.store, key, s.now).None? && Holds(Next(cfg, s, step), step.c, key))
  {
    hide UuidToString, Repo.InsertTx, Locked;
    if step.Redis? {
      UseLocked(s, step.c, step.c);
    }
  }
}
