/**
 Recovery without help: whoever crashed and whatever Release failed, a key is free again once no claim
 has been written for the pending TTL and no id for the full TTL. No assumption on the run.
 */
module Recovery {
  import opened Uuid
  import opened Dedup
  import opened Protocol
  import Repo

  /** The step's SET NX takes effect under `key`. */
  predicate WritesClaim(s: State, step: Step, key: string) {
    && step.Redis? && step.c < |s.calls|
    && s.calls[step.c].pc.AtClaim? && s.calls[step.c].key == key
    && Applied(step.fault) && Get(s.store, key, s.now).None?
  }

  /** The step's SET takes effect under `key`. */
  predicate WritesId(s: State, step: Step, key: string) {
    && step.Redis? && step.c < |s.calls|
    && s.calls[step.c].pc.AtSet? && s.calls[step.c].key == key
    && Applied(step.fault)
  }

  /** Step `i` of the run wrote the entry. */
  predicate WrittenAt(cfg: Config, s: State, steps: seq<Step>, key: string, entry: Entry, i: nat)
    requires i < |steps|
  {
    var before := Run(cfg, s, steps[..i]);
    || (WritesClaim(before, steps[i], key) && entry == Entry(PENDING_SENTINEL, before.now + PENDING_TTL))
    || (WritesId(before, steps[i], key)
        && entry == Entry(UuidToString(before.calls[steps[i].c].pc.id), before.now + cfg.ttl))
  }

  lemma EntryAfterStep(cfg: Config, s: State, step: Step, key: string)
    requires key in Next(cfg, s, step).store
    ensures var entry := Next(cfg, s, step).store[key];
            || (key in s.store && entry == s.store[key])
            || (WritesClaim(s, step, key) && entry == Entry(PENDING_SENTINEL, s.now + PENDING_TTL))
            || (WritesId(s, step, key) && entry == Entry(UuidToString(s.calls[step.c].pc.id), s.now + cfg.ttl))
  {
    hide UuidToString, Repo.InsertTx;
  }

  /** Every entry was written by some step of the run: a claim's sentinel, or a Set's id, with its own expiry. */
  lemma {:induction false} EntryHasWriter(cfg: Config, start: int, steps: seq<Step>, key: string) returns (i: nat)
    requires key in Run(cfg, Init(start), steps).store
    ensures i < |steps| && WrittenAt(cfg, Init(start), steps, key, Run(cfg, Init(start), steps).store[key], i)
  {
    hide UuidToString, Next;
    var n := |steps| - 1;
    var before := Run(cfg, Init(start), steps[..n]);
    EntryAfterStep(cfg, before, steps[n], key);
    if key in before.store && Run(cfg, Init(start), steps).store[key] == before.store[key] {
      i := EntryHasWriter(cfg, start, steps[..n], key);
      assert steps[..n][..i] == steps[..i];
    } else {
      i := n;
    }
  }

  /** The steps under which the key would still be taken. */
  ghost predicate NoRecentWrite(cfg: Config, start: int, steps: seq<Step>, key: string) {
    var now := Run(cfg, Init(start), steps).now;
    forall i :: 0 <= i < |steps| ==> WrittenLongAgo(cfg, start, steps, key, now, i)
  }

  predicate WrittenLongAgo(cfg: Config, start: int, steps: seq<Step>, key: string, now: int, i: nat)
    requires i < |steps|
  {
    var before := Run(cfg, Init(start), steps[..i]);
    && (WritesClaim(before, steps[i], key) ==> before.now + PENDING_TTL <= now)
    && (WritesId(before, steps[i], key) ==> before.now + cfg.ttl <= now)
  }

  /** An unwritten key is free, so the next acknowledged claim on it wins. */
  lemma {:induction false} ForgottenKeyIsFree(cfg: Config, start: int, steps: seq<Step>, key: string, c: nat)
    requires NoRecentWrite(cfg, start, steps, key)
    ensures var s := Run(cfg, Init(start), steps);
            && Get(s.store, key, s.now).None?
            && (c < |s.calls| && s.calls[c].pc.AtClaim? && s.calls[c].key == key ==>
                  Next(cfg, s, Redis(c, Done)).calls[c].pc == AtInsert(Won(s.now)))
  {
    hide UuidToString, Run;
    var s := Run(cfg, Init(start), steps);
    if key in s.store {
      var i := EntryHasWriter(cfg, start, steps, key);
      assert WrittenLongAgo(cfg, start, steps, key, s.now, i);
    }
  }

  /** No sentinel outlives its claim by more than the pending TTL, and no id its Set by more than the TTL. Times are in nanoseconds. */
  lemma {:induction false} ExpiryBounds(cfg: Config, start: int, steps: seq<Step>, key: string)
    requires cfg.ttl >= 0
    ensures var s := Run(cfg, Init(start), steps);
            key in s.store ==>
              s.store[key].expires <= s.now + if s.store[key].value == "__pending__" then 30_000_000_000 else cfg.ttl
  {
    hide UuidToString, Run;
    var s := Run(cfg, Init(start), steps);
    if key in s.store {
      var i := EntryHasWriter(cfg, start, steps, key);
      var before := Run(cfg, Init(start), steps[..i]);
      assert steps == steps[..i] + steps[i..];
      TimeAdvances(cfg, Init(start), steps[..i], steps[i..]);
      if WritesId(before, steps[i], key) {
        IdIsNotSentinel(before.calls[steps[i].c].pc.id);
      }
    }
  }
}
