/**
 Where at-most-once ends. The service chooses availability when Redis errors, and deletes or
 overwrites a key without checking whose sentinel it is. The timed guarantee rests on five hypotheses
 about the run; for each of them, and for every request that validates, here is a run that drops just
 that one and records the same job twice within the pending TTL.
 */
module Limits {
  import opened Uuid
  import opened Dedup
  import opened Canonical
  import opened Protocol
  import opened Provenance
  import opened Lock
  import opened AtMostOnce
  import Repo

  datatype Hypothesis = ClaimsAnswered | SetsApplied | FailedIsAbsent | WritersReachSet | HoldersInTime

  /** Step `i` of the run keeps the hypothesis. */
  predicate Keeps(h: Hypothesis, cfg: Config, s: State, steps: seq<Step>, i: nat)
    requires i < |steps|
  {
    var before := Run(cfg, s, steps[..i]);
    match h
    case ClaimsAnswered => ClaimsAnswer(before, steps[i])
    case SetsApplied => SetsTakeEffect(before, steps[i])
    case FailedIsAbsent => FailedMeansAbsent(steps[i])
    case WritersReachSet => WritersSurvive(before, steps[i])
    case HoldersInTime => Timely(Next(cfg, before, steps[i]))
  }

  ghost predicate KeepsAllBut(h: Hypothesis, cfg: Config, s: State, steps: seq<Step>) {
    forall g, i :: g != h && 0 <= i < |steps| ==> Keeps(g, cfg, s, steps, i)
  }

  /** The five hypotheses together are what a punctual run is. */
  lemma PunctualIsAllFive(cfg: Config, s: State, steps: seq<Step>)
    ensures PunctualRun(cfg, s, steps) <==> forall g, i :: 0 <= i < |steps| ==> Keeps(g, cfg, s, steps, i)
  {
    hide Run, Next, Timely, ClaimsAnswer, SetsTakeEffect, FailedMeansAbsent, WritersSurvive;
    if PunctualRun(cfg, s, steps) {
      forall g: Hypothesis, i | 0 <= i < |steps|
        ensures Keeps(g, cfg, s, steps, i)
      {
        assert PunctualStep(cfg, s, steps, i);
      }
    }
    if forall g, i :: 0 <= i < |steps| ==> Keeps(g, cfg, s, steps, i) {
      forall i | 0 <= i < |steps|
        ensures PunctualStep(cfg, s, steps, i)
      {
        assert Keeps(ClaimsAnswered, cfg, s, steps, i) && Keeps(SetsApplied, cfg, s, steps, i);
        assert Keeps(FailedIsAbsent, cfg, s, steps, i) && Keeps(WritersReachSet, cfg, s, steps, i);
        assert Keeps(HoldersInTime, cfg, s, steps, i);
      }
    }
  }

  predicate RecordedTwice(cfg: Config, s: State, a: Uuid, b: Uuid) {
    && a != b && a in s.tables.applications && b in s.tables.applications
    && RowKey(cfg, s.tables.applications[a]) == RowKey(cfg, s.tables.applications[b])
  }

  lemma AuditKeyIsRowKey(cfg: Config, s: State, id: Uuid)
    requires Sound(cfg, s) && id in s.tables.applications
    ensures id in s.audit && s.audit[id].key == RowKey(cfg, s.tables.applications[id])
  {
    hide CallSound, EntrySound, Repo.Paired;
    assert RowSound(cfg, s.calls, s.tables.applications, id, s.audit[id]);
  }

  /** Recording a key twice in a run shorter than the TTL is what timed at-most-once excludes. */
  lemma {:induction false} TwiceIsNotApart(cfg: Config, start: int, steps: seq<Step>, a: Uuid, b: Uuid)
    requires var s := Run(cfg, Init(start), steps);
             RecordedTwice(cfg, s, a, b) && s.now < start + cfg.ttl
    ensures var s := Run(cfg, Init(start), steps);
            a in s.audit && b in s.audit && !RowsApart(cfg, s, a, b)
  {
    hide Run, Init, Sound, After;
    InitSound(cfg, start);
    RunSound(cfg, Init(start), steps);
    AuditKeyIsRowKey(cfg, Run(cfg, Init(start), steps), a);
    AuditKeyIsRowKey(cfg, Run(cfg, Init(start), steps), b);
    ShortRunHasNoAfter(cfg, start, steps, a, b);
    ShortRunHasNoAfter(cfg, start, steps, b, a);
  }

  // ---- what a run given state by state keeps ----

  predicate StepKeeps(h: Hypothesis, s: State, step: Step) {
    && (h.ClaimsAnswered? || ClaimsAnswer(s, step))
    && (h.SetsApplied? || SetsTakeEffect(s, step))
    && (h.FailedIsAbsent? || FailedMeansAbsent(step))
    && (h.WritersReachSet? || WritersSurvive(s, step))
  }

  /** A step that no hypothesis but the last excludes, in any state. */
  predicate Harmless(step: Step) {
    && !step.Crash?
    && (step.Redis? ==> step.fault.Done?)
    && (step.Insert? ==> step.txFault != Repo.AtCommit(true))
  }

  ghost predicate Chain(cfg: Config, steps: seq<Step>, states: seq<State>) {
    && |states| == |steps| + 1
    && forall i :: 0 <= i < |steps| ==> states[i + 1] == Next(cfg, states[i], steps[i])
  }

  /** All steps but number `j` are harmless, that one breaks at most `h`, and no holder is ever late. */
  lemma ChainKeeps(h: Hypothesis, cfg: Config, steps: seq<Step>, states: seq<State>, j: nat)
    requires Chain(cfg, steps, states) && j < |steps|
    requires forall i :: 0 <= i < |steps| && i != j ==> Harmless(steps[i])
    requires StepKeeps(h, states[j], steps[j])
    requires h.HoldersInTime? || forall i :: 0 <= i < |states| ==> Timely(states[i])
    ensures KeepsAllBut(h, cfg, states[0], steps)
  {
    hide Next, Run, Timely;
    RunPrefixes(cfg, states[0], steps, states);
    forall g: Hypothesis, i | g != h && 0 <= i < |steps|
      ensures Keeps(g, cfg, states[0], steps, i)
    {
      assert Run(cfg, states[0], steps[..i]) == states[i];
      assert i != j ==> Harmless(steps[i]);
      assert states[i + 1] == Next(cfg, states[i], steps[i]);
    }
  }

  lemma QuickChainTimely(cfg: Config, start: int, steps: seq<Step>, states: seq<State>)
    requires Chain(cfg, steps, states) && states[0] == Init(start) && states[|steps|].now < start + PENDING_TTL
    ensures forall i :: 0 <= i < |states| ==> Timely(states[i])
  {
    hide Next, Run, Timely, Init;
    RunPrefixes(cfg, states[0], steps, states);
    RunThrough(cfg, states[0], steps, states);
    forall i | 0 <= i < |states|
      ensures Timely(states[i])
    {
      assert Run(cfg, states[0], steps[..i]) == states[i];
      QuickRunIsTimely(cfg, start, steps, i);
    }
  }

  /** The same for a run of two calls, looked at one state at a time. */
  lemma TwoOnTime(s: State)
    requires |s.calls| <= 2
    requires |s.calls| > 0 ==> OnTime(s.calls[0].pc, s.now)
    requires |s.calls| > 1 ==> OnTime(s.calls[1].pc, s.now)
    ensures Timely(s)
  {
  }

  // ---- the moves the runs are made of ----

  lemma Starts(cfg: Config, s: State, req: Request)
    requires cfg.prepare(req, s.now).Ok?
    ensures Next(cfg, s, Start(req)) == s.(calls := s.calls + [Admit(cfg, req, s.now)])
    ensures Admit(cfg, req, s.now).pc == AtCheck
  {
  }

  lemma Ticks(cfg: Config, s: State, elapsed: nat)
    ensures Next(cfg, s, Tick(elapsed)) == s.(now := s.now + elapsed)
  {
  }

  /** Call `c` holds its key from now on. */
  function Claimed(s: State, c: nat): State
    requires c < |s.calls|
  {
    Move(s.(store := s.store[s.calls[c].key := Entry(PENDING_SENTINEL, s.now + PENDING_TTL)]), c, AtInsert(Won(s.now)))
  }

  lemma MissAndWin(cfg: Config, s: State, c: nat)
    requires c < |s.calls| && s.calls[c].pc == AtCheck && Get(s.store, s.calls[c].key, s.now).None?
    ensures Next(cfg, s, Redis(c, Done)) == Move(s, c, AtClaim)
    ensures Next(cfg, Next(cfg, s, Redis(c, Done)), Redis(c, Done)) == Claimed(s, c)
  {
    var s1 := Next(cfg, s, Redis(c, Done));
    assert s1 == Move(s, c, AtClaim);
  }

  lemma MissAndFail(cfg: Config, s: State, c: nat)
    requires c < |s.calls| && s.calls[c].pc == AtCheck && CheckHit(s.store, s.calls[c].key, s.now).None?
    ensures Next(cfg, s, Redis(c, Done)) == Move(s, c, AtClaim)
    ensures Next(cfg, Next(cfg, s, Redis(c, Done)), Redis(c, Failed(false))) == Move(s, c, AtInsert(Unclaimed))
  {
    var s1 := Next(cfg, s, Redis(c, Done));
    assert s1 == Move(s, c, AtClaim);
  }

  lemma Releases(cfg: Config, s: State, c: nat)
    requires c < |s.calls| && s.calls[c].pc.AtRelease?
    ensures var s' := Next(cfg, s, Redis(c, Done));
            && s'.store == s.store - {s.calls[c].key}
            && s' == s.(store := s'.store, calls := s'.calls)
            && s'.calls == s.calls[c := s.calls[c].(pc := s'.calls[c].pc)]
  {
  }

  lemma FailsInsert(cfg: Config, s: State, c: nat, id: Uuid)
    requires c < |s.calls| && s.calls[c].pc.AtInsert?
    ensures Next(cfg, s, Insert(c, id, s.now, Repo.AtInsert)) == Move(s, c, AtRelease(s.calls[c].pc.claim, Repo.InsertApplication))
  {
    hide UuidToString;
  }

  /** Call `c` stores a row; its commit is acknowledged, or reported failed all the same. */
  lemma StoresRow(cfg: Config, s: State, c: nat, id: Uuid, createdAt: int, fault: Repo.TxFault)
    requires c < |s.calls| && s.calls[c].pc.AtInsert? && id !in s.tables.applications
    requires fault == Repo.NoFault || fault == Repo.AtCommit(true)
    ensures var s' := Next(cfg, s, Insert(c, id, createdAt, fault));
            && s'.tables.applications == s.tables.applications[id := Repo.NewRow(Params(s.calls[c].event), id, createdAt)]
            && s' == s.(calls := s'.calls, tables := s'.tables, audit := s'.audit)
            && s'.calls == s.calls[c := s.calls[c].(pc := s'.calls[c].pc)]
            && (if fault == Repo.NoFault then s'.calls[c].pc == AtSet(s.calls[c].pc.claim, id) else s'.calls[c].pc.AtRelease?)
  {
    hide UuidToString;
  }

  /** A stored row and an insert of the same event make two rows of one key. */
  lemma SecondRow(cfg: Config, s: State, c: nat, a: Uuid, b: Uuid, createdAt: int)
    requires c < |s.calls| && s.calls[c].pc.AtInsert? && a != b && b !in s.tables.applications
    requires a in s.tables.applications
    requires s.tables.applications[a] == Repo.NewRow(Params(s.calls[c].event), a, createdAt)
    ensures var t := Next(cfg, s, Insert(c, b, s.now, Repo.NoFault));
            RecordedTwice(cfg, t, a, b) && t.now == s.now
  {
    hide UuidToString, Next;
    StoresRow(cfg, s, c, b, s.now, Repo.NoFault);
  }

  /** Two callers start and the first wins the claim. */
  lemma FirstHolds(cfg: Config, req: Request, start: int) returns (states: seq<State>)
    requires cfg.prepare(req, start).Ok?
    ensures |states| == 5 && states[0] == Init(start)
    ensures states[1] == Next(cfg, states[0], Start(req)) && states[2] == Next(cfg, states[1], Start(req))
    ensures states[3] == Next(cfg, states[2], Redis(0, Done)) && states[4] == Next(cfg, states[3], Redis(0, Done))
    ensures forall i :: 0 <= i < 5 ==> Timely(states[i])
    ensures var call := Admit(cfg, req, start);
            && call.pc == AtCheck
            && states[4] == State([call.(pc := AtInsert(Won(start))), call],
                                  map[call.key := Entry(PENDING_SENTINEL, start + PENDING_TTL)],
                                  Repo.EMPTY_TABLES, start, map[])
  {
    hide Next, Timely;
    var s0 := Init(start);
    var s1 := Next(cfg, s0, Start(req));
    var s2 := Next(cfg, s1, Start(req));
    var s3 := Next(cfg, s2, Redis(0, Done));
    var s4 := Next(cfg, s3, Redis(0, Done));
    Starts(cfg, s0, req);
    Starts(cfg, s1, req);
    MissAndWin(cfg, s2, 0);
    TwoOnTime(s0);
    TwoOnTime(s1);
    TwoOnTime(s2);
    TwoOnTime(s3);
    TwoOnTime(s4);
    states := [s0, s1, s2, s3, s4];
  }

  // ---- claims are answered ----

  /** The second caller's claim errors while the first holds the key. */
  function ClaimErrorRun(req: Request, start: int, a: Uuid, b: Uuid): seq<Step> {
    [Start(req), Start(req), Redis(0, Done), Redis(0, Done), Redis(1, Done), Redis(1, Failed(false)),
     Insert(0, a, start, Repo.NoFault), Insert(1, b, start, Repo.NoFault)]
  }

  lemma ClaimErrorDuplicates(cfg: Config, req: Request, start: int, a: Uuid, b: Uuid)
    requires cfg.prepare(req, start).Ok? && a != b
    ensures var s := Run(cfg, Init(start), ClaimErrorRun(req, start, a, b));
            RecordedTwice(cfg, s, a, b) && s.now == start
    ensures KeepsAllBut(ClaimsAnswered, cfg, Init(start), ClaimErrorRun(req, start, a, b))
  {
    hide Next, Run, RecordedTwice, KeepsAllBut, Admit, Timely, Init, Repo.NewRow;
    var steps := ClaimErrorRun(req, start, a, b);
    var first := FirstHolds(cfg, req, start);
    var s4 := first[4];
    var s5 := Next(cfg, s4, Redis(1, Done));
    var s6 := Next(cfg, s5, Redis(1, Failed(false)));
    var s7 := Next(cfg, s6, Insert(0, a, start, Repo.NoFault));
    var s8 := Next(cfg, s7, Insert(1, b, start, Repo.NoFault));
    MissAndFail(cfg, s4, 1);
    StoresRow(cfg, s6, 0, a, start, Repo.NoFault);
    SecondRow(cfg, s7, 1, a, b, start);
    var states := first + [s5, s6, s7, s8];
    RunThrough(cfg, Init(start), steps, states);
    QuickChainTimely(cfg, start, steps, states);
    ChainKeeps(ClaimsAnswered, cfg, steps, states, 5);
  }

  /** A call that went ahead without a claim fails its insert and deletes the holder's sentinel. */
  function StrangerReleaseRun(req: Request, start: int, a: Uuid, b: Uuid): seq<Step> {
    [Start(req), Start(req), Start(req), Redis(0, Done), Redis(0, Failed(false)), Redis(1, Done), Redis(1, Done),
     Insert(0, a, start, Repo.AtInsert), Redis(0, Done), Redis(2, Done), Redis(2, Done),
     Insert(1, a, start, Repo.NoFault), Insert(2, b, start, Repo.NoFault)]
  }

  /** Three callers start; the first goes ahead without a claim, and the second wins it. */
  lemma StrangerInserts(cfg: Config, req: Request, start: int) returns (states: seq<State>)
    requires cfg.prepare(req, start).Ok?
    ensures |states| == 8 && states[0] == Init(start)
    ensures states[1] == Next(cfg, states[0], Start(req)) && states[2] == Next(cfg, states[1], Start(req))
    ensures states[3] == Next(cfg, states[2], Start(req)) && states[4] == Next(cfg, states[3], Redis(0, Done))
    ensures states[5] == Next(cfg, states[4], Redis(0, Failed(false)))
    ensures states[6] == Next(cfg, states[5], Redis(1, Done)) && states[7] == Next(cfg, states[6], Redis(1, Done))
    ensures StepKeeps(ClaimsAnswered, states[4], Redis(0, Failed(false)))
    ensures var call := Admit(cfg, req, start);
            && call.pc == AtCheck
            && states[7] == State([call.(pc := AtInsert(Unclaimed)), call.(pc := AtInsert(Won(start))), call],
                                  map[call.key := Entry(PENDING_SENTINEL, start + PENDING_TTL)],
                                  Repo.EMPTY_TABLES, start, map[])
  {
    hide Next, Admit;
    var s0 := Init(start);
    var s1 := Next(cfg, s0, Start(req));
    var s2 := Next(cfg, s1, Start(req));
    var s3 := Next(cfg, s2, Start(req));
    var s4 := Next(cfg, s3, Redis(0, Done));
    var s5 := Next(cfg, s4, Redis(0, Failed(false)));
    var s6 := Next(cfg, s5, Redis(1, Done));
    var s7 := Next(cfg, s6, Redis(1, Done));
    Starts(cfg, s0, req);
    Starts(cfg, s1, req);
    Starts(cfg, s2, req);
    MissAndFail(cfg, s3, 0);
    MissAndWin(cfg, s5, 1);
    states := [s0, s1, s2, s3, s4, s5, s6, s7];
  }

  /** The first caller's insert fails, its Release deletes the second's sentinel, and the third wins a claim. */
  lemma StrangerReleases(cfg: Config, s: State, a: Uuid) returns (states: seq<State>)
    requires |s.calls| == 3 && s.calls[0].pc == AtInsert(Unclaimed) && s.calls[2].pc == AtCheck
    requires s.calls[2].key == s.calls[0].key
    requires s.store == map[s.calls[0].key := Entry(PENDING_SENTINEL, s.now + PENDING_TTL)]
    ensures |states| == 5 && states[0] == s
    ensures states[1] == Next(cfg, states[0], Insert(0, a, s.now, Repo.AtInsert)) && states[2] == Next(cfg, states[1], Redis(0, Done))
    ensures states[3] == Next(cfg, states[2], Redis(2, Done)) && states[4] == Next(cfg, states[3], Redis(2, Done))
    ensures var t := states[4];
            && t.tables == s.tables && t.now == s.now && |t.calls| == 3
            && t.calls[1] == s.calls[1] && t.calls[2] == s.calls[2].(pc := AtInsert(Won(s.now)))
  {
    hide Next;
    var s1 := Next(cfg, s, Insert(0, a, s.now, Repo.AtInsert));
    var s2 := Next(cfg, s1, Redis(0, Done));
    var s3 := Next(cfg, s2, Redis(2, Done));
    var s4 := Next(cfg, s3, Redis(2, Done));
    FailsInsert(cfg, s, 0, a);
    Releases(cfg, s1, 0);
    MissAndWin(cfg, s2, 2);
    states := [s, s1, s2, s3, s4];
  }

  lemma StrangerReleaseDuplicates(cfg: Config, req: Request, start: int, a: Uuid, b: Uuid)
    requires cfg.prepare(req, start).Ok? && a != b
    ensures var s := Run(cfg, Init(start), StrangerReleaseRun(req, start, a, b));
            RecordedTwice(cfg, s, a, b) && s.now == start
    ensures KeepsAllBut(ClaimsAnswered, cfg, Init(start), StrangerReleaseRun(req, start, a, b))
  {
    hide Next, Run, RecordedTwice, KeepsAllBut, StepKeeps, Init, Admit, Timely, Repo.NewRow;
    var steps := StrangerReleaseRun(req, start, a, b);
    var first := StrangerInserts(cfg, req, start);
    var s7 := first[7];
    var second := StrangerReleases(cfg, s7, a);
    var s11 := second[4];
    var s12 := Next(cfg, s11, Insert(1, a, start, Repo.NoFault));
    var s13 := Next(cfg, s12, Insert(2, b, start, Repo.NoFault));
    StoresRow(cfg, s11, 1, a, start, Repo.NoFault);
    SecondRow(cfg, s12, 2, a, b, start);
    var states := first + second[1..] + [s12, s13];
    RunThrough(cfg, Init(start), steps, states);
    QuickChainTimely(cfg, start, steps, states);
    ChainKeeps(ClaimsAnswered, cfg, steps, states, 4);
  }

  // ---- a failed insert leaves no row ----

  /** The commit is applied but reported failed, so the key is released over a stored row. */
  function LostCommitRun(req: Request, start: int, a: Uuid, b: Uuid): seq<Step> {
    [Start(req), Start(req), Redis(0, Done), Redis(0, Done), Insert(0, a, start, Repo.AtCommit(true)), Redis(0, Done),
     Redis(1, Done), Redis(1, Done), Insert(1, b, start, Repo.NoFault)]
  }

  lemma LostCommitDuplicates(cfg: Config, req: Request, start: int, a: Uuid, b: Uuid)
    requires cfg.prepare(req, start).Ok? && a != b
    ensures var s := Run(cfg, Init(start), LostCommitRun(req, start, a, b));
            RecordedTwice(cfg, s, a, b) && s.now == start
    ensures KeepsAllBut(FailedIsAbsent, cfg, Init(start), LostCommitRun(req, start, a, b))
  {
    hide Next, Run, RecordedTwice, KeepsAllBut, Admit, Timely, Init, Repo.NewRow;
    var steps := LostCommitRun(req, start, a, b);
    var first := FirstHolds(cfg, req, start);
    var s4 := first[4];
    var s5 := Next(cfg, s4, Insert(0, a, start, Repo.AtCommit(true)));
    var s6 := Next(cfg, s5, Redis(0, Done));
    var s7 := Next(cfg, s6, Redis(1, Done));
    var s8 := Next(cfg, s7, Redis(1, Done));
    var s9 := Next(cfg, s8, Insert(1, b, start, Repo.NoFault));
    StoresRow(cfg, s4, 0, a, start, Repo.AtCommit(true));
    Releases(cfg, s5, 0);
    MissAndWin(cfg, s6, 1);
    SecondRow(cfg, s8, 1, a, b, start);
    var states := first + [s5, s6, s7, s8, s9];
    RunThrough(cfg, Init(start), steps, states);
    QuickChainTimely(cfg, start, steps, states);
    ChainKeeps(FailedIsAbsent, cfg, steps, states, 4);
  }

  // ---- holders finish in time ----

  /** The holder is still inserting when its sentinel runs out. */
  function SlowInsertRun(req: Request, start: int, a: Uuid, b: Uuid): seq<Step> {
    [Start(req), Start(req), Redis(0, Done), Redis(0, Done), Tick(PENDING_TTL), Redis(1, Done), Redis(1, Done),
     Insert(0, a, start + PENDING_TTL, Repo.NoFault), Insert(1, b, start + PENDING_TTL, Repo.NoFault)]
  }

  lemma SlowInsertDuplicates(cfg: Config, req: Request, start: int, a: Uuid, b: Uuid)
    requires cfg.prepare(req, start).Ok? && a != b
    ensures var s := Run(cfg, Init(start), SlowInsertRun(req, start, a, b));
            RecordedTwice(cfg, s, a, b) && s.now == start + PENDING_TTL
    ensures KeepsAllBut(HoldersInTime, cfg, Init(start), SlowInsertRun(req, start, a, b))
  {
    hide Next, Run, RecordedTwice, KeepsAllBut, Admit, Timely, Init, Repo.NewRow;
    var steps := SlowInsertRun(req, start, a, b);
    var first := FirstHolds(cfg, req, start);
    var s4 := first[4];
    var s5 := Next(cfg, s4, Tick(PENDING_TTL));
    var s6 := Next(cfg, s5, Redis(1, Done));
    var s7 := Next(cfg, s6, Redis(1, Done));
    var s8 := Next(cfg, s7, Insert(0, a, start + PENDING_TTL, Repo.NoFault));
    var s9 := Next(cfg, s8, Insert(1, b, start + PENDING_TTL, Repo.NoFault));
    Ticks(cfg, s4, PENDING_TTL);
    MissAndWin(cfg, s5, 1);
    StoresRow(cfg, s7, 0, a, start + PENDING_TTL, Repo.NoFault);
    SecondRow(cfg, s8, 1, a, b, start + PENDING_TTL);
    var states := first + [s5, s6, s7, s8, s9];
    RunThrough(cfg, Init(start), steps, states);
    ChainKeeps(HoldersInTime, cfg, steps, states, 0);
  }

  // ---- the row is cached ----

  /**
   The row is stored but not cached, since its writer crashes or its Set does not reach Redis; the
   sentinel runs out, and a later submit inserts again.
   */
  function UncachedRun(req: Request, start: int, a: Uuid, b: Uuid, loss: Step): seq<Step> {
    [Start(req), Start(req), Redis(0, Done), Redis(0, Done), Insert(0, a, start, Repo.NoFault), loss,
     Tick(PENDING_TTL), Redis(1, Done), Redis(1, Done), Insert(1, b, start + PENDING_TTL, Repo.NoFault)]
  }

  predicate Loses(h: Hypothesis, loss: Step) {
    (h.WritersReachSet? && loss == Crash(0)) || (h.SetsApplied? && loss == Redis(0, Failed(false)))
  }

  /** From there the row is stored, its caching is lost, and the sentinel runs out. */
  lemma CachingLost(cfg: Config, h: Hypothesis, s: State, a: Uuid, loss: Step) returns (t: State)
    requires |s.calls| == 2 && s.calls[0].pc.AtInsert? && s.calls[1].pc == AtCheck && s.tables == Repo.EMPTY_TABLES && Timely(s)
    requires Loses(h, loss)
    ensures var s5 := Next(cfg, s, Insert(0, a, s.now, Repo.NoFault));
            var s6 := Next(cfg, s5, loss);
            && t == Next(cfg, s6, Tick(PENDING_TTL))
            && Timely(s5) && Timely(s6) && Timely(t) && StepKeeps(h, s5, loss)
            && |t.calls| == 2 && !InFlight(t.calls[0].pc)
            && t.calls == [s.calls[0].(pc := t.calls[0].pc), s.calls[1]]
            && t.store == s.store
            && t.tables.applications == map[a := Repo.NewRow(Params(s.calls[0].event), a, s.now)]
            && t.now == s.now + PENDING_TTL
  {
    hide Next;
    var s5 := Next(cfg, s, Insert(0, a, s.now, Repo.NoFault));
    StoresRow(cfg, s, 0, a, s.now, Repo.NoFault);
    LosesCaching(cfg, h, s5, loss);
    var s6 := Next(cfg, s5, loss);
    Ticks(cfg, s6, PENDING_TTL);
    t := Next(cfg, s6, Tick(PENDING_TTL));
  }

  lemma LosesCaching(cfg: Config, h: Hypothesis, s: State, loss: Step)
    requires 0 < |s.calls| && s.calls[0].pc.AtSet? && Loses(h, loss)
    ensures var s' := Next(cfg, s, loss);
            && s' == Move(s, 0, s'.calls[0].pc)
            && !InFlight(s'.calls[0].pc)
  {
    hide UuidToString;
  }

  lemma UncachedDuplicates(cfg: Config, req: Request, start: int, a: Uuid, b: Uuid, h: Hypothesis, loss: Step)
    requires cfg.prepare(req, start).Ok? && a != b && Loses(h, loss)
    ensures var s := Run(cfg, Init(start), UncachedRun(req, start, a, b, loss));
            RecordedTwice(cfg, s, a, b) && s.now == start + PENDING_TTL
    ensures KeepsAllBut(h, cfg, Init(start), UncachedRun(req, start, a, b, loss))
  {
    hide Next, Run, RecordedTwice, KeepsAllBut, Timely, StepKeeps, Init, Admit;
    var steps := UncachedRun(req, start, a, b, loss);
    var first := FirstHolds(cfg, req, start);
    var s4 := first[4];
    var s5 := Next(cfg, s4, Insert(0, a, start, Repo.NoFault));
    var s6 := Next(cfg, s5, loss);
    var s7 := CachingLost(cfg, h, s4, a, loss);
    var s8 := Next(cfg, s7, Redis(1, Done));
    var s9 := Next(cfg, s8, Redis(1, Done));
    var s10 := Next(cfg, s9, Insert(1, b, start + PENDING_TTL, Repo.NoFault));
    MissAndWin(cfg, s7, 1);
    StoresRow(cfg, s9, 1, b, start + PENDING_TTL, Repo.NoFault);
    SecondRow(cfg, s9, 1, a, b, start);
    TwoOnTime(s8);
    TwoOnTime(s9);
    TwoOnTime(s10);
    var states := first + [s5, s6, s7, s8, s9, s10];
    RunThrough(cfg, Init(start), steps, states);
    ChainKeeps(h, cfg, steps, states, 5);
  }

  /** The writer crashes between insert and Set. */
  lemma CrashBeforeSetDuplicates(cfg: Config, req: Request, start: int, a: Uuid, b: Uuid)
    requires cfg.prepare(req, start).Ok? && a != b
    ensures var s := Run(cfg, Init(start), UncachedRun(req, start, a, b, Crash(0)));
            RecordedTwice(cfg, s, a, b) && s.now == start + PENDING_TTL
    ensures KeepsAllBut(WritersReachSet, cfg, Init(start), UncachedRun(req, start, a, b, Crash(0)))
  {
    hide Run, Init, RecordedTwice, KeepsAllBut, UncachedRun;
    UncachedDuplicates(cfg, req, start, a, b, WritersReachSet, Crash(0));
  }

  /** The writer's Set does not reach Redis, and its id is returned all the same. */
  lemma LostSetDuplicates(cfg: Config, req: Request, start: int, a: Uuid, b: Uuid)
    requires cfg.prepare(req, start).Ok? && a != b
    ensures var s := Run(cfg, Init(start), UncachedRun(req, start, a, b, Redis(0, Failed(false))));
            RecordedTwice(cfg, s, a, b) && s.now == start + PENDING_TTL
    ensures KeepsAllBut(SetsApplied, cfg, Init(start), UncachedRun(req, start, a, b, Redis(0, Failed(false))))
  {
    hide Run, Init, RecordedTwice, KeepsAllBut, UncachedRun;
    UncachedDuplicates(cfg, req, start, a, b, SetsApplied, Redis(0, Failed(false)));
  }

  // ---- none can be dropped ----

  function DuplicatingRun(h: Hypothesis, req: Request, start: int, a: Uuid, b: Uuid): seq<Step> {
    match h
    case ClaimsAnswered => ClaimErrorRun(req, start, a, b)
    case SetsApplied => UncachedRun(req, start, a, b, Redis(0, Failed(false)))
    case FailedIsAbsent => LostCommitRun(req, start, a, b)
    case WritersReachSet => UncachedRun(req, start, a, b, Crash(0))
    case HoldersInTime => SlowInsertRun(req, start, a, b)
  }

  /**
   Each of the five hypotheses behind AtMostOncePerTTL is needed: whichever is dropped, there is a run
   that keeps the other four, takes no longer than the pending TTL and records the job twice; with a
   longer full TTL its end contradicts the theorem's conclusion.
   */
  lemma EachHypothesisNeeded(cfg: Config, h: Hypothesis, req: Request, start: int, a: Uuid, b: Uuid)
    requires cfg.prepare(req, start).Ok? && a != b
    ensures KeepsAllBut(h, cfg, Init(start), DuplicatingRun(h, req, start, a, b))
    ensures var s := Run(cfg, Init(start), DuplicatingRun(h, req, start, a, b));
            && RecordedTwice(cfg, s, a, b) && s.now <= start + PENDING_TTL
            && (cfg.ttl > PENDING_TTL ==> a in s.audit && b in s.audit && !RowsApart(cfg, s, a, b))
  {
    hide Run, Init, RecordedTwice, KeepsAllBut, RowsApart, UncachedRun, ClaimErrorRun, LostCommitRun, SlowInsertRun;
    match h {
      case ClaimsAnswered => ClaimErrorDuplicates(cfg, req, start, a, b);
      case SetsApplied => LostSetDuplicates(cfg, req, start, a, b);
      case FailedIsAbsent => LostCommitDuplicates(cfg, req, start, a, b);
      case WritersReachSet => CrashBeforeSetDuplicates(cfg, req, start, a, b);
      case HoldersInTime => SlowInsertDuplicates(cfg, req, start, a, b);
    }
    if cfg.ttl > PENDING_TTL {
      TwiceIsNotApart(cfg, start, DuplicatingRun(h, req, start, a, b), a, b);
    }
  }
}
