/**
 What later submits of a key are told. While the key carries a committed id, a call that has not yet
 gone past its second look at the cache can only return that id.
 */
module Agreement {
  import opened Prelude
  import opened Uuid
  import opened Dedup
  import opened Protocol
  import opened Lock
  import opened AtMostOnce
  import Repo

  /** Where a call may be that has not yet gone past its second look at the cache. */
  predicate StillAsking(pc: PC, text: string) {
    || pc.AtCheck? || pc.AtClaim? || pc.AtRecheck? || pc.Crashed?
    || pc == Returned(Ok(text))
    || (pc.Returned? && pc.result.Err? && pc.result.error.Invalid?)
  }

  /** A second look at the cache is answered; the first may fail, for the claim then finds the key taken. */
  predicate RechecksAnswer(s: State, step: Step) {
    step.Redis? && step.c < |s.calls| && s.calls[step.c].pc.AtRecheck? ==> step.fault.Done?
  }

  ghost predicate RechecksAnswered(cfg: Config, s: State, steps: seq<Step>) {
    forall i :: 0 <= i < |steps| ==> RechecksAnswer(Run(cfg, s, steps[..i]), steps[i])
  }

  lemma RechecksPrefix(cfg: Config, s: State, steps: seq<Step>, n: nat)
    requires RechecksAnswered(cfg, s, steps) && n <= |steps|
    ensures RechecksAnswered(cfg, s, steps[..n])
  {
    hide Run, RechecksAnswer;
    forall i | 0 <= i < n
      ensures RechecksAnswer(Run(cfg, s, steps[..n][..i]), steps[..n][i])
    {
      assert steps[..n][..i] == steps[..i];
    }
  }

  lemma AskingStays(cfg: Config, s: State, step: Step, c: nat, key: string, text: string)
    requires ClaimsAnswer(s, step) && RechecksAnswer(s, step) && CheckHit(s.store, key, s.now) == Some(text)
    requires c < |s.calls| ==> s.calls[c].key == key && StillAsking(s.calls[c].pc, text)
    ensures c < |Next(cfg, s, step).calls| && Next(cfg, s, step).calls[c].key == key ==>
              StillAsking(Next(cfg, s, step).calls[c].pc, text)
  {
    hide UuidToString, Repo.InsertTx;
  }

  /** A call keeps its key. */
  lemma {:induction false} KeyKept(cfg: Config, s: State, steps: seq<Step>, c: nat)
    ensures |s.calls| <= |Run(cfg, s, steps).calls|
    ensures c < |s.calls| ==> Run(cfg, s, steps).calls[c].key == s.calls[c].key
  {
    hide Next;
    if steps != [] {
      KeyKept(cfg, s, steps[..|steps| - 1], c);
      StepKeepsKeys(cfg, Run(cfg, s, steps[..|steps| - 1]), steps[|steps| - 1], c);
    }
  }

  lemma StepKeepsKeys(cfg: Config, s: State, step: Step, c: nat)
    ensures |s.calls| <= |Next(cfg, s, step).calls|
    ensures c < |s.calls| ==> Next(cfg, s, step).calls[c].key == s.calls[c].key
  {
    hide UuidToString, Repo.InsertTx, CheckHit, Get, SetNX, Admit;
  }

  // ---- for a full TTL ----

  predicate Cached(s: State, id: Uuid, a: Audit) {
    id in s.audit && s.audit[id] == a && a.setAt.Some?
  }

  lemma CachedHits(cfg: Config, s: State, id: Uuid, a: Audit)
    requires Exclusive(cfg, s) && Cached(s, id, a) && s.now < a.setAt.value + cfg.ttl
    ensures CheckHit(s.store, a.key, s.now) == Some(UuidToString(id))
  {
    hide UuidToString, Locked, Covered;
    UseCovered(cfg, s, 0, id, id);
    IdIsNotSentinel(id);
  }

  lemma CachedStays(cfg: Config, s: State, step: Step, id: Uuid, a: Audit)
    requires Exclusive(cfg, s) && Cached(s, id, a)
    ensures Cached(Next(cfg, s, step), id, a)
  {
    hide UuidToString, Locked, Covered, CheckHit, Get, SetNX;
    var c := if step.Redis? || step.Insert? then step.c else 0;
    UseCovered(cfg, s, c, id, id);
  }

  /**
   Idempotence for a full TTL: in a punctual run, from the moment a row's id is cached until the TTL has
   passed, every submit of its key that starts later, and every one still at or before its re-check,
   returns that id if it returns at all. Other entries and sentinels may expire meanwhile.
   */
  lemma {:induction false} SubmitsAgreeForTTL(cfg: Config, start: int, before: seq<Step>, after: seq<Step>, id: Uuid, a: Audit, d: nat)
    requires PunctualRun(cfg, Init(start), before + after) && RechecksAnswered(cfg, Run(cfg, Init(start), before), after)
    requires var s := Run(cfg, Init(start), before);
             Cached(s, id, a) && (d < |s.calls| ==> StillAsking(s.calls[d].pc, UuidToString(id)))
    requires var t := Run(cfg, Init(start), before + after);
             t.now < a.setAt.value + cfg.ttl && d < |t.calls| && t.calls[d].key == a.key
    ensures StillAsking(Run(cfg, Init(start), before + after).calls[d].pc, UuidToString(id))
  {
    hide Run, Init, PunctualRun, RechecksAnswered, StillAsking, UuidToString;
    AgreeForTTL(cfg, start, before, after, id, a, d);
  }

  lemma {:induction false} AgreeForTTL(cfg: Config, start: int, before: seq<Step>, after: seq<Step>, id: Uuid, a: Audit, d: nat)
    requires PunctualRun(cfg, Init(start), before + after) && RechecksAnswered(cfg, Run(cfg, Init(start), before), after)
    requires var s := Run(cfg, Init(start), before);
             Cached(s, id, a) && (d < |s.calls| ==> StillAsking(s.calls[d].pc, UuidToString(id)))
    requires var t := Run(cfg, Init(start), before + after);
             t.now < a.setAt.value + cfg.ttl && (d < |t.calls| ==> t.calls[d].key == a.key)
    ensures var t := Run(cfg, Init(start), before + after);
            Cached(t, id, a) && (d < |t.calls| ==> StillAsking(t.calls[d].pc, UuidToString(id)))
    decreases |after|
  {
    hide Init, Next, Dependable, Timely, Exclusive, Cached, StillAsking, RechecksAnswer, UuidToString;
    var all := before + after;
    if after == [] {
      assert all == before;
    } else {
      var n := |after| - 1;
      var most := before + after[..n];
      var t := Run(cfg, Init(start), most);
      assert all[..|all| - 1] == most && all[|all| - 1] == after[n];
      assert Run(cfg, Init(start), all) == Next(cfg, t, after[n]);
      PunctualPrefix(cfg, Init(start), all, |all| - 1);
      assert PunctualStep(cfg, Init(start), all, |all| - 1);
      InitExclusive(cfg, start);
      RunExclusive(cfg, Init(start), most);
      StepKeepsKeys(cfg, t, after[n], d);
      TimeStep(cfg, t, after[n]);
      RechecksPrefix(cfg, Run(cfg, Init(start), before), after, n);
      RunAppend(cfg, Init(start), before, after[..n]);
      assert RechecksAnswer(Run(cfg, Run(cfg, Init(start), before), after[..n]), after[n]);
      AgreeForTTL(cfg, start, before, after[..n], id, a, d);
      CachedHasTime(t, id, a);
      CachedHits(cfg, t, id, a);
      CachedStays(cfg, t, after[n], id, a);
      DependableClaims(t, after[n]);
      AskingStays(cfg, t, after[n], d, a.key, UuidToString(id));
    }
  }

  lemma TimeStep(cfg: Config, s: State, step: Step)
    ensures s.now <= Next(cfg, s, step).now
  {
    hide UuidToString, Repo.InsertTx;
  }

  lemma CachedHasTime(s: State, id: Uuid, a: Audit)
    requires Cached(s, id, a)
    ensures a.setAt.Some?
  {
  }

  lemma DependableClaims(s: State, step: Step)
    requires Dependable(s, step)
    ensures ClaimsAnswer(s, step)
  {
  }
}
