/** Counters of a load-test run. */
module Stats {

  datatype Tally = Tally(
    rpcsAttempted: int, rpcsOK: int, rpcsFailed: int,
    appsAttempted: int, appsOK: int, appsFailed: int
  )

  /** What one RPC adds: a whole-batch failure of some size, or the counts of an answered batch. */
  datatype Outcome = RpcError(batchSize: int) | RpcSuccess(okCount: int, failCount: int)

  function Count(t: Tally, o: Outcome): Tally {
    match o
    case RpcError(n) =>
      Tally(t.rpcsAttempted + 1, t.rpcsOK, t.rpcsFailed + 1, t.appsAttempted + n, t.appsOK, t.appsFailed + n)
    case RpcSuccess(ok, failed) =>
      Tally(t.rpcsAttempted + 1, t.rpcsOK + 1, t.rpcsFailed, t.appsAttempted + ok + failed, t.appsOK + ok, t.appsFailed + failed)
  }

  function TallyOf(outcomes: seq<Outcome>): Tally {
    if outcomes == [] then Tally(0, 0, 0, 0, 0, 0)
    else Count(TallyOf(outcomes[..|outcomes| - 1]), outcomes[|outcomes| - 1])
  }

  class Stats {
    var rpcsAttempted: int
    var rpcsOK: int
    var rpcsFailed: int
    var appsAttempted: int
    var appsOK: int
    var appsFailed: int

    function View(): Tally
      reads this
    {
      Tally(rpcsAttempted, rpcsOK, rpcsFailed, appsAttempted, appsOK, appsFailed)
    }

    constructor ()
      ensures View() == TallyOf([])
    {
      rpcsAttempted, rpcsOK, rpcsFailed, appsAttempted, appsOK, appsFailed := 0, 0, 0, 0, 0, 0;
    }

    method RecordRPCError(batchSize: int)
      modifies this
      ensures View() == Count(old(View()), RpcError(batchSize))
    {
      rpcsAttempted := rpcsAttempted + 1;
      rpcsFailed := rpcsFailed + 1;
      appsAttempted := appsAttempted + batchSize;
      appsFailed := appsFailed + batchSize;
    }

    method RecordRPCSuccess(okCount: int, failCount: int)
      modifies this
      ensures View() == Count(old(View()), RpcSuccess(okCount, failCount))
    {
      rpcsAttempted := rpcsAttempted + 1;
      rpcsOK := rpcsOK + 1;
      appsAttempted := appsAttempted + okCount + failCount;
      appsOK := appsOK + okCount;
      appsFailed := appsFailed + failCount;
    }
  }

  // ---- what the counters mean ----

  function RpcFailures(outcomes: seq<Outcome>): set<nat> {
    set j: nat | j < |outcomes| && outcomes[j].RpcError?
  }

  /** Applications of failed RPCs. */
  function LostInErrors(outcomes: seq<Outcome>): int {
    if outcomes == [] then 0
    else
      var last := outcomes[|outcomes| - 1];
      LostInErrors(outcomes[..|outcomes| - 1]) + if last.RpcError? then last.batchSize else 0
  }

  /** Failed results of answered RPCs. */
  function FailedResults(outcomes: seq<Outcome>): int {
    if outcomes == [] then 0
    else
      var last := outcomes[|outcomes| - 1];
      FailedResults(outcomes[..|outcomes| - 1]) + if last.RpcSuccess? then last.failCount else 0
  }

  /** Successful results of answered RPCs. */
  function OkResults(outcomes: seq<Outcome>): int {
    if outcomes == [] then 0
    else
      var last := outcomes[|outcomes| - 1];
      OkResults(outcomes[..|outcomes| - 1]) + if last.RpcSuccess? then last.okCount else 0
  }

  /**
   A failed RPC is one failed RPC and all its applications failed; only answered RPCs contribute
   successes, and their failed results the other failures.
   */
  lemma {:induction false} FailuresCounted(outcomes: seq<Outcome>)
    ensures var t := TallyOf(outcomes);
            && t.rpcsFailed == |RpcFailures(outcomes)| && t.rpcsOK == |outcomes| - |RpcFailures(outcomes)|
            && t.appsFailed == LostInErrors(outcomes) + FailedResults(outcomes)
            && t.appsOK == OkResults(outcomes)
  {
    if outcomes == [] {
      assert RpcFailures(outcomes) == {};
    } else {
      var n := |outcomes| - 1;
      FailuresCounted(outcomes[..n]);
      var before := RpcFailures(outcomes[..n]);
      assert RpcFailures(outcomes) == if outcomes[n].RpcError? then before + {n} else before;
    }
  }

  function SizeOf(o: Outcome): int {
    match o
    case RpcError(n) => n
    case RpcSuccess(ok, failed) => ok + failed
  }

  function TotalSize(outcomes: seq<Outcome>): int {
    if outcomes == [] then 0 else TotalSize(outcomes[..|outcomes| - 1]) + SizeOf(outcomes[|outcomes| - 1])
  }

  /** Nothing is lost: whatever was recorded, attempted = ok + failed, and the attempts are the sizes recorded. */
  lemma {:induction false} TallyConserves(outcomes: seq<Outcome>)
    ensures var t := TallyOf(outcomes);
            && t.rpcsAttempted == t.rpcsOK + t.rpcsFailed == |outcomes|
            && t.appsAttempted == t.appsOK + t.appsFailed == TotalSize(outcomes)
  {
    if outcomes != [] {
      TallyConserves(outcomes[..|outcomes| - 1]);
    }
  }
}
