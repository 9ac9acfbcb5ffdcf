/** The load-test loop: batches from the generator, one RPC each, and the tally. */
module Runner {
  import opened Prelude
  import opened Canonical
  import opened Generator
  import Stats
  import Server

  datatype Reply = RpcFailed | RpcOk(results: seq<Server.ItemResult>)

  datatype RunnerConfig = RunnerConfig(userID: string, total: int, batchSize: int, rps: real, dupPct: real)

  datatype ConfigError = BadBatchSize | BadTotal | BadRPS | NoUser

  function CheckConfig(cfg: RunnerConfig): Option<ConfigError> {
    if cfg.batchSize <= 0 then Some(BadBatchSize)
    else if cfg.total < 0 then Some(BadTotal)
    else if cfg.rps <= 0.0 then Some(BadRPS)
    else if cfg.userID == "" then Some(NoUser)
    else None
  }

  function ToRequest(userID: string, app: Application, appliedAt: int): Request {
    Request(userID, app.jobTitle, app.company, app.url, SOURCE_SCRAPER, Some(appliedAt))
  }

  /** Which configurations run, and which complaint comes first. */
  lemma ConfigRules(cfg: RunnerConfig)
    ensures CheckConfig(cfg) == None <==> cfg.batchSize > 0 && cfg.total >= 0 && cfg.rps > 0.0 && cfg.userID != ""
    ensures CheckConfig(cfg) == Some(BadBatchSize) <==> cfg.batchSize <= 0
    ensures CheckConfig(cfg) == Some(BadTotal) <==> cfg.batchSize > 0 && cfg.total < 0
    ensures CheckConfig(cfg) == Some(BadRPS) <==> cfg.batchSize > 0 && cfg.total >= 0 && cfg.rps <= 0.0
  {
  }

  // ---- counting a reply ----

  predicate Succeeded(r: Server.ItemResult) {
    r.ApplicationId? && r.id != ""
  }

  function Successes(results: seq<Server.ItemResult>): (n: nat)
    ensures n <= |results|
  {
    if results == [] then 0
    else Successes(results[..|results| - 1]) + if Succeeded(results[|results| - 1]) then 1 else 0
  }

  method CountResults(results: seq<Server.ItemResult>) returns (ok: nat, failed: nat)
    ensures ok == Successes(results) && ok + failed == |results|
  {
    ok, failed := 0, 0;
    for i := 0 to |results|
      invariant ok == Successes(results[..i]) && ok + failed == i
    {
      assert results[..i + 1][..i] == results[..i];
      if results[i].ApplicationId? && results[i].id != "" {
        ok := ok + 1;
      } else {
        failed := failed + 1;
      }
    }
    assert results[..|results|] == results;
  }

  function Answered(results: seq<Server.ItemResult>): set<nat> {
    set i: nat | i < |results| && results[i].ApplicationId? && results[i].id != ""
  }

  /** The successes are the results with a non-empty application id. */
  lemma {:induction false} SuccessesCounted(results: seq<Server.ItemResult>)
    ensures Successes(results) == |Answered(results)|
  {
    if results == [] {
      assert Answered(results) == {};
    } else {
      hide Answered;
      SuccessesCounted(results[..|results| - 1]);
      AnsweredGrows(results);
    }
  }

  lemma AnsweredGrows(results: seq<Server.ItemResult>)
    requires results != []
    ensures var last := results[|results| - 1];
            |Answered(results)| == |Answered(results[..|results| - 1])| + if last.ApplicationId? && last.id != "" then 1 else 0
  {
    var n := |results| - 1;
    var before := Answered(results[..n]);
    forall i: nat
      ensures i in Answered(results) <==> i in before || (i == n && results[n].ApplicationId? && results[n].id != "")
    {
      if i < n {
        assert results[..n][i] == results[i];
      }
    }
    assert Answered(results) == if results[n].ApplicationId? && results[n].id != "" then before + {n} else before;
  }

  lemma {:induction false} AllSucceed(results: seq<Server.ItemResult>)
    ensures Successes(results) == |results| <==> forall i :: 0 <= i < |results| ==> Succeeded(results[i])
  {
    if results != [] {
      AllSucceed(results[..|results| - 1]);
    }
  }

  function OutcomeOf(batch: seq<Request>, reply: Reply): Stats.Outcome {
    match reply
    case RpcFailed => Stats.RpcError(|batch|)
    case RpcOk(results) => Stats.RpcSuccess(Successes(results), |results| - Successes(results))
  }

  function Outcomes(sent: seq<seq<Request>>, replies: seq<Reply>): (r: seq<Stats.Outcome>)
    requires |sent| == |replies|
    ensures |r| == |sent|
  {
    seq(|sent|, i requires 0 <= i < |sent| => OutcomeOf(sent[i], replies[i]))
  }

  function FailedReplies(replies: seq<Reply>): set<nat> {
    set j: nat | j < |replies| && replies[j].RpcFailed?
  }

  /** The failed RPCs of a tally are the replies that failed, and every application of theirs counts as failed. */
  lemma {:induction false} FailedRepliesCounted(sent: seq<seq<Request>>, replies: seq<Reply>)
    requires |sent| == |replies|
    ensures Stats.TallyOf(Outcomes(sent, replies)).rpcsFailed == |FailedReplies(replies)|
    ensures (forall j :: 0 <= j < |replies| ==> replies[j].RpcFailed?) ==> Stats.TallyOf(Outcomes(sent, replies)).appsOK == 0
  {
    if sent == [] {
      assert FailedReplies(replies) == {};
    } else {
      var n := |sent| - 1;
      FailedRepliesCounted(sent[..n], replies[..n]);
      assert Outcomes(sent, replies)[..n] == Outcomes(sent[..n], replies[..n]);
      var before := FailedReplies(replies[..n]);
      assert FailedReplies(replies) == if replies[n].RpcFailed? then before + {n} else before;
    }
  }

  // ---- the requests of a run ----

  /** The first `n` requests the run would send. */
  function Requests(cfg: RunnerConfig, draws: nat -> Draw, clock: nat -> int, n: nat): (r: seq<Request>)
    ensures |r| == n
  {
    var apps := Emitted(Clamp(cfg.dupPct), draws, n).0;
    seq(n, i requires 0 <= i < n => ToRequest(cfg.userID, apps[i], clock(i)))
  }

  /** Request number `i` is the generator's application number `i`, field by field, for the run's user, from the scraper, now. */
  lemma RequestFields(cfg: RunnerConfig, draws: nat -> Draw, clock: nat -> int, n: nat, i: nat)
    requires i < n
    ensures var req, app := Requests(cfg, draws, clock, n)[i], Emitted(Clamp(cfg.dupPct), draws, n).0[i];
            && req.userId == cfg.userID && req.jobTitle == app.jobTitle && req.company == app.company && req.url == app.url
            && req.source == 3 && req.appliedAt == Some(clock(i))
  {
    var apps := Emitted(Clamp(cfg.dupPct), draws, n).0;
    assert Requests(cfg, draws, clock, n)[i] == ToRequest(cfg.userID, apps[i], clock(i));
  }

  lemma {:induction false} EmittedPrefix(dupPct: real, draws: nat -> Draw, m: nat, n: nat)
    requires m <= n
    ensures Emitted(dupPct, draws, n).0[..m] == Emitted(dupPct, draws, m).0
  {
    if m < n {
      EmittedPrefix(dupPct, draws, m, n - 1);
    }
  }

  lemma RequestsPrefix(cfg: RunnerConfig, draws: nat -> Draw, clock: nat -> int, m: nat, n: nat)
    requires m <= n
    ensures Requests(cfg, draws, clock, n)[..m] == Requests(cfg, draws, clock, m)
  {
    EmittedPrefix(Clamp(cfg.dupPct), draws, m, n);
  }

  function Concat(batches: seq<seq<Request>>): seq<Request> {
    if batches == [] then [] else Concat(batches[..|batches| - 1]) + batches[|batches| - 1]
  }

  /** The submitter fed the batches one after another: its last state and its replies. */
  function Replay<S>(submit: (S, seq<Request>) -> (S, Reply), s0: S, batches: seq<seq<Request>>): (r: (S, seq<Reply>))
    ensures |r.1| == |batches|
  {
    if batches == [] then (s0, [])
    else
      var (s, replies) := Replay(submit, s0, batches[..|batches| - 1]);
      var (s', reply) := submit(s, batches[|batches| - 1]);
      (s', replies + [reply])
  }

  /** Every batch is full, but for the last, which holds at least one request. */
  predicate Batched(batches: seq<seq<Request>>, size: int) {
    && (forall j :: 0 <= j < |batches| - 1 ==> |batches[j]| == size)
    && (batches != [] ==> 1 <= |batches[|batches| - 1]| <= size)
  }

  // ---- the loop ----

  datatype RunResult<S> =
    | Rejected(error: ConfigError)
    | Finished(tally: Stats.Tally, state: S, sent: seq<seq<Request>>, replies: seq<Reply>, drained: bool, err: Option<ContextError>)

  /** What ctx.Err() can be, when it is not nil. */
  datatype ContextError = Canceled | DeadlineExceeded

  /**
   A run so far: the replies and the submitter's state are what feeding it the sent batches gives, the
   tally counts them, and the batches, all full but for the last, are the first requests in order.
   */
  ghost predicate RunSoFar<S(!new)>(
    cfg: RunnerConfig, draws: nat -> Draw, clock: nat -> int, submit: (S, seq<Request>) -> (S, Reply), s0: S,
    state: S, sent: seq<seq<Request>>, replies: seq<Reply>, tally: Stats.Tally)
  {
    && (state, replies) == Replay(submit, s0, sent)
    && tally == Stats.TallyOf(Outcomes(sent, replies))
    && Batched(sent, cfg.batchSize)
    && |Concat(sent)| <= cfg.total
    && Concat(sent) == Requests(cfg, draws, clock, |Concat(sent)|)
  }

  /**
   Run: `submit` stands for the RPC client and carries the state of whatever answers it; the limiter's
   Wait fails at RPC `waitFailsAt`, and the run then ends early with the context's own error `ctxErr`,
   not the limiter's. That is nil when Wait refuses because a deadline is too near but not yet past: the
   run then reports success although it has not drained.
   */
  method Run<S(!new)>(
    cfg: RunnerConfig, draws: nat -> Draw, clock: nat -> int, waitFailsAt: nat, ctxErr: Option<ContextError>,
    submit: (S, seq<Request>) -> (S, Reply), s0: S)
    returns (r: RunResult<S>)
    ensures CheckConfig(cfg).Some? ==> r == Rejected(CheckConfig(cfg).value)
    ensures CheckConfig(cfg).None? ==> r.Finished?
    ensures r.Finished? ==>
      && RunSoFar(cfg, draws, clock, submit, s0, r.state, r.sent, r.replies, r.tally)
      && (r.drained <==> |Concat(r.sent)| == cfg.total)
      && |r.sent| <= waitFailsAt && (!r.drained ==> |r.sent| == waitFailsAt)
      && r.err == (if r.drained then None else ctxErr)
  {
    hide RunSoFar, Requests, Concat, Emitted, Stats.Count;
    if cfg.batchSize <= 0 {
      return Rejected(BadBatchSize);
    }
    if cfg.total < 0 {
      return Rejected(BadTotal);
    }
    if cfg.rps <= 0.0 {
      return Rejected(BadRPS);
    }
    if cfg.userID == "" {
      return Rejected(NoUser);
    }
    var gen := new Generator(cfg.dupPct);
    var st := new Stats.Stats();
    var state := s0;
    var sent: seq<seq<Request>>, replies: seq<Reply> := [], [];
    ghost var done: nat := 0;
    var remaining := cfg.total;
    RunStarts(cfg, draws, clock, submit, s0);
    while remaining > 0
      invariant remaining >= 0 && done + remaining == cfg.total && |Concat(sent)| == done
      invariant gen.dupPct == Clamp(cfg.dupPct) && gen.pool == Emitted(gen.dupPct, draws, done).1
      invariant RunSoFar(cfg, draws, clock, submit, s0, state, sent, replies, st.View())
      invariant remaining > 0 ==> sent == [] || |sent[|sent| - 1]| == cfg.batchSize
      invariant |sent| <= waitFailsAt
    {
      var batchSize := cfg.batchSize;
      if remaining < batchSize {
        batchSize := remaining;
      }
      var batch := BuildBatch(gen, cfg, draws, clock, cfg.total - remaining, batchSize);
      if |sent| == waitFailsAt {
        return Finished(st.View(), state, sent, replies, false, ctxErr);
      }
      var (state', reply) := submit(state, batch);
      RunGoesOn(cfg, draws, clock, submit, s0, state, sent, replies, st.View(), batch, state', reply);
      Record(st, batch, reply);
      state, sent, replies := state', sent + [batch], replies + [reply];
      done := done + batchSize;
      remaining := remaining - batchSize;
    }
    return Finished(st.View(), state, sent, replies, true, None);
  }

  lemma RunStarts<S(!new)>(cfg: RunnerConfig, draws: nat -> Draw, clock: nat -> int, submit: (S, seq<Request>) -> (S, Reply), s0: S)
    requires cfg.total >= 0
    ensures RunSoFar(cfg, draws, clock, submit, s0, s0, [], [], Stats.TallyOf([]))
    ensures Concat([]) == [] && Emitted(Clamp(cfg.dupPct), draws, 0).1 == []
  {
    assert Outcomes([], []) == [];
  }

  lemma RunGoesOn<S(!new)>(
    cfg: RunnerConfig, draws: nat -> Draw, clock: nat -> int, submit: (S, seq<Request>) -> (S, Reply), s0: S,
    state: S, sent: seq<seq<Request>>, replies: seq<Reply>, tally: Stats.Tally,
    batch: seq<Request>, state': S, reply: Reply)
    requires RunSoFar(cfg, draws, clock, submit, s0, state, sent, replies, tally)
    requires submit(state, batch) == (state', reply)
    requires 1 <= |batch| <= cfg.batchSize && |Concat(sent)| + |batch| <= cfg.total
    requires batch == Requests(cfg, draws, clock, |Concat(sent)| + |batch|)[|Concat(sent)|..]
    requires sent == [] || |sent[|sent| - 1]| == cfg.batchSize
    ensures RunSoFar(cfg, draws, clock, submit, s0, state', sent + [batch], replies + [reply],
                     Stats.Count(tally, OutcomeOf(batch, reply)))
    ensures |Concat(sent + [batch])| == |Concat(sent)| + |batch|
  {
    hide Replay, Concat, Outcomes, Requests, Batched, Stats.Count, Stats.TallyOf;
    var k := |Concat(sent)|;
    ReplayGrows(submit, s0, sent, batch, state', reply);
    ConcatGrows(sent, batch);
    TallyGrows(sent, replies, batch, reply);
    BatchedGrows(sent, batch, cfg.batchSize);
    RequestsPrefix(cfg, draws, clock, k, k + |batch|);
    RejoinRequests(Requests(cfg, draws, clock, k + |batch|), k);
  }

  /** The branch on the RPC's error, with the counting of its results. */
  method Record(st: Stats.Stats, batch: seq<Request>, reply: Reply)
    modifies st
    ensures st.View() == Stats.Count(old(st.View()), OutcomeOf(batch, reply))
  {
    match reply {
      case RpcFailed =>
        st.RecordRPCError(|batch|);
      case RpcOk(results) =>
        var ok, failed := CountResults(results);
        st.RecordRPCSuccess(ok, failed);
    }
  }

  lemma BatchedGrows(sent: seq<seq<Request>>, batch: seq<Request>, size: int)
    requires Batched(sent, size) && 1 <= |batch| <= size
    requires sent == [] || |sent[|sent| - 1]| == size
    ensures Batched(sent + [batch], size)
  {
  }

  lemma RejoinRequests(all: seq<Request>, k: nat)
    requires k <= |all|
    ensures all[..k] + all[k..] == all
  {
  }

  lemma ReplayGrows<S>(
    submit: (S, seq<Request>) -> (S, Reply), s0: S, sent: seq<seq<Request>>, batch: seq<Request>, s: S, reply: Reply)
    requires submit(Replay(submit, s0, sent).0, batch) == (s, reply)
    ensures Replay(submit, s0, sent + [batch]) == (s, Replay(submit, s0, sent).1 + [reply])
  {
    assert (sent + [batch])[..|sent|] == sent;
  }

  lemma ConcatGrows(sent: seq<seq<Request>>, batch: seq<Request>)
    ensures Concat(sent + [batch]) == Concat(sent) + batch
  {
    assert (sent + [batch])[..|sent|] == sent;
  }

  lemma TallyGrows(sent: seq<seq<Request>>, replies: seq<Reply>, batch: seq<Request>, reply: Reply)
    requires |sent| == |replies|
    ensures Stats.TallyOf(Outcomes(sent + [batch], replies + [reply]))
         == Stats.Count(Stats.TallyOf(Outcomes(sent, replies)), OutcomeOf(batch, reply))
  {
    var all := Outcomes(sent + [batch], replies + [reply]);
    assert all[..|sent|] == Outcomes(sent, replies);
  }

  lemma NextRequest(cfg: RunnerConfig, draws: nat -> Draw, clock: nat -> int, done: nat, k: nat, app: Application)
    requires done <= k
    requires app == Emitted(Clamp(cfg.dupPct), draws, k + 1).0[k]
    ensures Requests(cfg, draws, clock, k + 1)[done..]
         == Requests(cfg, draws, clock, k)[done..] + [ToRequest(cfg.userID, app, clock(k))]
  {
    hide Emitted, ToRequest;
    RequestsPrefix(cfg, draws, clock, k, k + 1);
    var all := Requests(cfg, draws, clock, k + 1);
    assert all == all[..k] + [all[k]];
  }

  lemma EmittedStep(dupPct: real, draws: nat -> Draw, k: nat)
    ensures var next := NextOf(dupPct, Emitted(dupPct, draws, k).1, draws(k));
            Emitted(dupPct, draws, k + 1).0[k] == next.0 && Emitted(dupPct, draws, k + 1).1 == next.1
  {
    hide NextOf;
  }

  /** The next `n` requests, filled in by index. */
  method BuildBatch(gen: Generator, cfg: RunnerConfig, draws: nat -> Draw, clock: nat -> int, done: nat, n: nat)
    returns (batch: seq<Request>)
    requires gen.dupPct == Clamp(cfg.dupPct) && gen.pool == Emitted(gen.dupPct, draws, done).1
    modifies gen
    ensures gen.pool == Emitted(gen.dupPct, draws, done + n).1
    ensures batch == Requests(cfg, draws, clock, done + n)[done..]
  {
    hide Requests, ToRequest, Clamp, Emitted, NextOf;
    var out := new Request[n](_ => Request("", "", "", "", 0, None));
    for i := 0 to n
      invariant gen.pool == Emitted(gen.dupPct, draws, done + i).1
      invariant out[..i] == Requests(cfg, draws, clock, done + i)[done..]
    {
      EmittedStep(gen.dupPct, draws, done + i);
      var app := gen.Next(draws(done + i));
      out[i] := ToRequest(cfg.userID, app, clock(done + i));
      NextRequest(cfg, draws, clock, done, done + i, app);
      assert out[..i + 1] == out[..i] + [out[i]];
    }
    assert out[..n] == out[..];
    batch := out[..];
  }

  // ---- what a run counts ----

  /** Every answered RPC came back with one result per item. */
  predicate FullyAnswered(sent: seq<seq<Request>>, replies: seq<Reply>) {
    && |sent| == |replies|
    && forall j :: 0 <= j < |sent| && replies[j].RpcOk? ==> |replies[j].results| == |sent[j]|
  }

  lemma {:induction false} SizesAddUp(sent: seq<seq<Request>>, replies: seq<Reply>)
    requires FullyAnswered(sent, replies)
    ensures Stats.TotalSize(Outcomes(sent, replies)) == |Concat(sent)|
  {
    if sent != [] {
      var n := |sent| - 1;
      SizesAddUp(sent[..n], replies[..n]);
      assert Outcomes(sent, replies)[..n] == Outcomes(sent[..n], replies[..n]);
    }
  }

  lemma {:induction false} BatchesFill(batches: seq<seq<Request>>, size: nat)
    requires Batched(batches, size) && batches != []
    ensures (|batches| - 1) * size < |Concat(batches)| <= |batches| * size
  {
    var n := |batches| - 1;
    if n == 0 {
      assert batches[..0] == [];
      assert Concat(batches) == batches[0];
    } else {
      var front := batches[..n];
      assert |front[n - 1]| == size;
      BatchesFill(front, size);
      FullBatches(front, size);
      assert (n + 1) * size == n * size + size;
    }
  }

  lemma {:induction false} FullBatches(batches: seq<seq<Request>>, size: nat)
    requires forall j :: 0 <= j < |batches| ==> |batches[j]| == size
    ensures |Concat(batches)| == |batches| * size
  {
    if batches != [] {
      var n := |batches| - 1;
      FullBatches(batches[..n], size);
      assert (n + 1) * size == n * size + size;
    }
  }

  lemma CeilingUnique(total: nat, size: nat, n: nat)
    requires size > 0 && (n - 1) * size < total <= n * size
    ensures n == (total + size - 1) / size
  {
    var x := total + size - 1;
    assert n * size <= x < (n + 1) * size by {
      assert (n - 1) * size == n * size - size;
      assert (n + 1) * size == n * size + size;
    }
    DivisionUnique(x, size, n);
  }

  lemma DivisionUnique(x: nat, size: nat, n: nat)
    requires size > 0 && n * size <= x < (n + 1) * size
    ensures x / size == n
  {
    var q := x / size;
    assert x == q * size + x % size;
    MultiplyMonotone(q + 1, n, size);
    MultiplyMonotone(n + 1, q, size);
    assert (q + 1) * size == q * size + size;
  }

  lemma MultiplyMonotone(a: int, b: int, c: nat)
    ensures a <= b ==> a * c <= b * c
  {
    if a <= b {
      assert b * c - a * c == (b - a) * c;
    }
  }

  /**
   Conservation, for any prefix of a run (each loop head is the end of such a prefix): as long as
   answers have one result per item, the applications attempted are exactly those sent, ok and failed
   add up to them, and a run that drains its total has made ceil(total / batchSize) RPCs.
   */
  lemma RunConserves(cfg: RunnerConfig, sent: seq<seq<Request>>, replies: seq<Reply>)
    requires CheckConfig(cfg).None?
    requires Batched(sent, cfg.batchSize) && FullyAnswered(sent, replies) && |Concat(sent)| <= cfg.total
    ensures var t := Stats.TallyOf(Outcomes(sent, replies));
            && t.appsAttempted + (cfg.total - |Concat(sent)|) == cfg.total
            && t.appsAttempted == t.appsOK + t.appsFailed
            && t.rpcsAttempted == t.rpcsOK + t.rpcsFailed == |sent|
            && (|Concat(sent)| == cfg.total ==> t.rpcsAttempted == (cfg.total + cfg.batchSize - 1) / cfg.batchSize)
  {
    Stats.TallyConserves(Outcomes(sent, replies));
    SizesAddUp(sent, replies);
    if |Concat(sent)| == cfg.total {
      if sent == [] {
        DivisionUnique(cfg.batchSize - 1, cfg.batchSize, 0);
      } else {
        BatchesFill(sent, cfg.batchSize);
        CeilingUnique(cfg.total, cfg.batchSize, |sent|);
      }
    }
  }
}
