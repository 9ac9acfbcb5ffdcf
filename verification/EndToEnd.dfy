/** The load test against the server: how many rows a whole scraper run creates. */
module EndToEnd {
  import opened Prelude
  import opened Text
  import opened Canonical
  import opened Protocol
  import opened Server
  import opened Counting
  import opened Intake
  import opened Runner
  import Generator
  import Collapse
  import DedupKey
  import Stats

  /** The server answering RPCs, one fate per item in the order the items arrive. */
  type Serving = (World, nat)

  function Later(fates: nat -> Fate, k: nat): nat -> Fate {
    (i: nat) => fates(k + i)
  }

  function ServeBatch(cfg: Config, fates: nat -> Fate, s: Serving, batch: seq<Request>): (Serving, Reply) {
    var (w, r) := Batch(cfg, s.0, batch, Later(fates, s.1), |batch|);
    ((w, s.1 + |batch|), match r case Ok(items) => RpcOk(items) case Err(_) => RpcFailed)
  }

  function Serve(cfg: Config, fates: nat -> Fate): (Serving, seq<Request>) -> (Serving, Reply) {
    (s: Serving, batch: seq<Request>) => ServeBatch(cfg, fates, s, batch)
  }

  // ---- batches add up to one sequence of submits ----

  lemma {:induction false} FoldOfPrefix(cfg: Config, w: World, a: seq<Request>, b: seq<Request>, fates: nat -> Fate, c: nat, n: nat)
    requires n <= |a|
    ensures Fold(cfg, w, a + b, fates, c, n) == Fold(cfg, w, a, fates, c, n)
  {
    hide Submit;
    if n > 0 {
      FoldOfPrefix(cfg, w, a, b, fates, c, n - 1);
    }
  }

  /** Submitting `a` and then `b` is submitting `a + b`. */
  lemma {:induction false} FoldAppend(cfg: Config, w: World, a: seq<Request>, b: seq<Request>, fates: nat -> Fate, c: nat, n: nat)
    requires n <= |b| && |a| + n <= c
    ensures var (w1, items) := Fold(cfg, w, a, fates, c, |a|);
            var (w2, more) := Fold(cfg, w1, b, Later(fates, |a|), c, n);
            Fold(cfg, w, a + b, fates, c, |a| + n) == (w2, items + more)
  {
    hide Submit;
    var (w1, items) := Fold(cfg, w, a, fates, c, |a|);
    if n == 0 {
      FoldOfPrefix(cfg, w, a, b, fates, c, |a|);
      assert items + [] == items;
    } else {
      FoldAppend(cfg, w, a, b, fates, c, n - 1);
      var more := Fold(cfg, w1, b, Later(fates, |a|), c, n).1;
      assert items + more == (items + more[..n - 1]) + [more[n - 1]];
      assert (a + b)[|a| + n - 1] == b[n - 1];
      assert Later(fates, |a|)(n - 1) == fates(|a| + n - 1);
    }
  }

  function Results(replies: seq<Reply>): seq<ItemResult> {
    if replies == [] then []
    else
      Results(replies[..|replies| - 1]) +
      match replies[|replies| - 1] case RpcOk(items) => items case RpcFailed => []
  }

  predicate RightSized(batches: seq<seq<Request>>) {
    forall j :: 0 <= j < |batches| ==> 1 <= |batches[j]| <= MAX_BATCH_SIZE
  }

  /** RPC after RPC of at most 500 items, the server does what one long sequence of submits would do. */
  lemma {:induction false} ServingIsOneFold(cfg: Config, fates: nat -> Fate, w: World, batches: seq<seq<Request>>)
    requires RightSized(batches)
    ensures var ((w', k), replies) := Replay(Serve(cfg, fates), (w, 0), batches);
            var all := Concat(batches);
            && k == |all|
            && (w', Results(replies)) == Fold(cfg, w, all, fates, |all|, |all|)
            && (forall j :: 0 <= j < |batches| ==> replies[j].RpcOk? && |replies[j].results| == |batches[j]|)
  {
    if batches != [] {
      var n := |batches| - 1;
      var front, last := batches[..n], batches[n];
      ServingIsOneFold(cfg, fates, w, front);
      var ((w1, k), replies) := Replay(Serve(cfg, fates), (w, 0), front);
      OneMoreBatch(cfg, fates, w, Concat(front), last, w1, Results(replies));
      var (s2, reply) := Serve(cfg, fates)((w1, k), last);
      assert (replies + [reply])[..n] == replies;
    }
  }

  lemma OneMoreBatch(cfg: Config, fates: nat -> Fate, w: World, a: seq<Request>, b: seq<Request>, w1: World, items: seq<ItemResult>)
    requires 1 <= |b| <= MAX_BATCH_SIZE
    requires (w1, items) == Fold(cfg, w, a, fates, |a|, |a|)
    ensures var (s, reply) := Serve(cfg, fates)((w1, |a|), b);
            && s.1 == |a + b| && reply.RpcOk? && |reply.results| == |b|
            && (s.0, items + reply.results) == Fold(cfg, w, a + b, fates, |a + b|, |a + b|)
  {
    hide Submit;
    var c := |a + b|;
    FoldUncancelled(cfg, w, a, fates, |a|, c, |a|);
    FoldUncancelled(cfg, w1, b, Later(fates, |a|), |b|, c, |b|);
    FoldAppend(cfg, w, a, b, fates, c, |b|);
  }

  // ---- distinct keys against the generator's pool ----

  function ScrapedKey(p: Platform, userID: string, app: Generator.Application): string {
    DedupKey.Key(p, TrimSpace(userID), Collapse.CollapseSpec(app.company), Collapse.CollapseSpec(app.jobTitle))
  }

  lemma KeyOfScraped(p: Platform, ttl: int, userID: string, app: Generator.Application, t: int)
    ensures var key := KeyOfRequest(IntakeConfig(p, ttl), ToRequest(userID, app, t));
            key.Some? ==> key.value == ScrapedKey(p, userID, app)
  {
    hide DedupKey.Key, Prepare, TrimSpace, Collapse.CollapseSpec;
    var req := ToRequest(userID, app, t);
    if Prepare(p, req, 0).Ok? {
      DedupKey.CollapsingFields(p, req, 0);
    }
  }

  lemma {:induction false} KeyHasRequest(cfg: Config, apps: seq<Request>, n: nat, key: string) returns (i: nat)
    requires n <= |apps| && key in KeysOf(cfg, apps, n)
    ensures i < n && KeyOfRequest(cfg, apps[i]) == Some(key)
  {
    hide KeyOfRequest;
    if KeyOfRequest(cfg, apps[n - 1]) == Some(key) {
      i := n - 1;
    } else {
      i := KeyHasRequest(cfg, apps, n - 1, key);
    }
  }

  /** A run has at most as many distinct keys as the generator has pooled pairs. */
  lemma {:induction false} KeysWithinPool(p: Platform, ttl: int, rc: RunnerConfig, draws: nat -> Generator.Draw, clock: nat -> int, n: nat)
    ensures |KeysOf(IntakeConfig(p, ttl), Requests(rc, draws, clock, n), n)| <= |Generator.Emitted(Generator.Clamp(rc.dupPct), draws, n).1|
  {
    hide DedupKey.Key, KeyOfRequest, KeysOf, ScrapedKey, Generator.Emitted;
    var cfg := IntakeConfig(p, ttl);
    var requests := Requests(rc, draws, clock, n);
    var (apps, pool) := Generator.Emitted(Generator.Clamp(rc.dupPct), draws, n);
    var f := (a: Generator.Application) => ScrapedKey(p, rc.userID, a);
    forall key | key in KeysOf(cfg, requests, n)
      ensures exists j :: 0 <= j < |pool| && f(pool[j]) == key
    {
      var i := KeyHasRequest(cfg, requests, n, key);
      KeyOfScraped(p, ttl, rc.userID, apps[i], clock(i));
      Generator.EmittedFromPool(Generator.Clamp(rc.dupPct), draws, n);
      assert Generator.InPool(pool, apps[i]);
      var j :| 0 <= j < |pool| && Generator.SamePair(pool[j], apps[i]);
      SamePairSameKey(p, rc.userID, pool[j], apps[i]);
      assert f(pool[j]) == key;
    }
    ImageNoLarger(pool, f, KeysOf(cfg, requests, n));
  }

  lemma SamePairSameKey(p: Platform, userID: string, a: Generator.Application, b: Generator.Application)
    requires Generator.SamePair(a, b)
    ensures ScrapedKey(p, userID, a) == ScrapedKey(p, userID, b)
  {
  }

  // ---- the whole run ----

  /**
   A drained scraper run while nobody else works on its keys: batches of at most 500, every item valid,
   stores that answer, fresh ids, none of the run's own keys cached or pending beforehand, and a duration
   below the TTL. Then the rows created number exactly the distinct keys sent, at most the generator's
   pool, and every application counts as a success. Other users' entries may be there and may expire.
   */
  lemma {:induction false} ScraperRunCounts(
    p: Platform, ttl: int, rc: RunnerConfig, draws: nat -> Generator.Draw, clock: nat -> int, fates: nat -> Fate,
    w0: World, end: Serving, sent: seq<seq<Request>>, replies: seq<Reply>, tally: Stats.Tally)
    requires CheckConfig(rc).None? && rc.batchSize <= MAX_BATCH_SIZE
    requires RunSoFar(rc, draws, clock, Serve(IntakeConfig(p, ttl), fates), (w0, 0), end, sent, replies, tally)
    requires |Concat(sent)| == rc.total && end.0.now < w0.now + ttl
    requires CleanFates(fates, rc.total) && FreshIds(w0, fates, rc.total)
    requires var requests := Requests(rc, draws, clock, rc.total);
             && (forall i :: 0 <= i < rc.total ==> KeyOfRequest(IntakeConfig(p, ttl), requests[i]).Some?)
             && LiveKeys(w0) !! KeysOf(IntakeConfig(p, ttl), requests, rc.total)
    ensures var keys := KeysOf(IntakeConfig(p, ttl), Requests(rc, draws, clock, rc.total), rc.total);
            && |end.0.tables.applications| == |w0.tables.applications| + |keys|
            && |keys| <= |Generator.Emitted(Generator.Clamp(rc.dupPct), draws, rc.total).1|
    ensures tally.appsAttempted == tally.appsOK == rc.total && tally.appsFailed == 0
    ensures tally.rpcsAttempted == tally.rpcsOK == (rc.total + rc.batchSize - 1) / rc.batchSize
  {
    hide SteadyOn, FreshIds, Clean, KeyOfRequest, KeysOf, LiveKeys, Requests, Concat, Fold, Replay, Batched, Serve,
         Stats.TallyOf, Outcomes, IntakeConfig, ItemsCount, SameElsewhere, Timeless;
    var cfg := IntakeConfig(p, ttl);
    var n := rc.total;
    var requests := Requests(rc, draws, clock, n);
    var keys := KeysOf(cfg, requests, n);
    BatchedIsRightSized(sent, rc.batchSize);
    ServingIsOneFold(cfg, fates, w0, sent);
    IntakeIsTimeless(p, ttl);
    ConfigTtl(p, ttl);
    FoldTakesTime(cfg, w0, requests, fates, n, n);
    NothingLiveIsSteady(cfg, w0, keys);
    QuietFoldCounts(cfg, w0, requests, fates, w0.now + ttl, n);
    assert keys - LiveKeys(w0) == keys;
    CountedSucceed(cfg, w0, requests, end.0, Results(replies));
    KeysWithinPool(p, ttl, rc, draws, clock, n);
    RunConserves(rc, sent, replies);
    TallyOfSuccesses(sent, replies);
  }

  lemma NothingLiveIsSteady(cfg: Config, w: World, keys: set<string>)
    requires LiveKeys(w) !! keys && cfg.ttl > 0
    ensures SteadyOn(cfg, w, keys, w.now + cfg.ttl)
  {
    hide LiveKeys;
    LiveOnly(w, keys);
  }

  lemma {:induction false} FoldTakesTime(cfg: Config, w: World, apps: seq<Request>, fates: nat -> Fate, c: nat, n: nat)
    requires n <= |apps|
    ensures w.now <= Fold(cfg, w, apps, fates, c, n).0.now
  {
    hide Submit;
    if n > 0 {
      FoldTakesTime(cfg, w, apps, fates, c, n - 1);
      SubmitTakesTime(cfg, Fold(cfg, w, apps, fates, c, n - 1).0, apps[n - 1], fates(n - 1));
    }
  }

  lemma BatchedIsRightSized(batches: seq<seq<Request>>, size: int)
    requires Batched(batches, size) && 1 <= size <= MAX_BATCH_SIZE
    ensures RightSized(batches)
  {
  }

  /** Valid items of keys that were not cached before succeed. */
  lemma CountedSucceed(cfg: Config, w: World, apps: seq<Request>, w': World, items: seq<ItemResult>)
    requires ItemsCount(cfg, w', apps, |apps|, items) && LiveKeys(w) !! KeysOf(cfg, apps, |apps|)
    requires KeysOf(cfg, apps, |apps|) <= LiveKeys(w')
    requires forall k :: k in KeysOf(cfg, apps, |apps|) && k !in LiveKeys(w) ==> |w'.store[k].value| == 36
    requires forall i :: 0 <= i < |apps| ==> KeyOfRequest(cfg, apps[i]).Some?
    ensures forall i :: 0 <= i < |items| ==> Succeeded(items[i])
  {
    hide LiveKeys, KeyOfRequest, KeysOf;
    forall i | 0 <= i < |items|
      ensures Succeeded(items[i])
    {
      assert ItemCounts(cfg, w', apps[i], items[i]);
      KeyOfIndex(cfg, apps, |apps|, i);
    }
  }

  lemma {:induction false} KeyOfIndex(cfg: Config, apps: seq<Request>, n: nat, i: nat)
    requires i < n <= |apps| && KeyOfRequest(cfg, apps[i]).Some?
    ensures KeyOfRequest(cfg, apps[i]).value in KeysOf(cfg, apps, n)
  {
    hide KeyOfRequest;
    if i < n - 1 {
      KeyOfIndex(cfg, apps, n - 1, i);
    }
  }

  lemma {:induction false} TallyOfSuccesses(sent: seq<seq<Request>>, replies: seq<Reply>)
    requires |sent| == |replies|
    requires forall j :: 0 <= j < |sent| ==> replies[j].RpcOk?
    requires forall i :: 0 <= i < |Results(replies)| ==> Succeeded(Results(replies)[i])
    ensures Stats.TallyOf(Outcomes(sent, replies)).appsFailed == 0
    ensures Stats.TallyOf(Outcomes(sent, replies)).rpcsFailed == 0
  {
    if sent != [] {
      var n := |sent| - 1;
      var before, last := Results(replies[..n]), replies[n].results;
      assert Results(replies) == before + last;
      forall i | 0 <= i < |before|
        ensures Succeeded(before[i])
      {
        assert Results(replies)[i] == before[i];
      }
      forall i | 0 <= i < |last|
        ensures Succeeded(last[i])
      {
        assert Results(replies)[|before| + i] == last[i];
      }
      AllSucceed(last);
      TallyOfSuccesses(sent[..n], replies[..n]);
      assert Outcomes(sent, replies)[..n] == Outcomes(sent[..n], replies[..n]);
    }
  }
}
