/**
 Per-user token buckets. A bucket holds at most `burst` tokens, starts full, refills at `rps` tokens a
 second and gives one token to each request it allows. Rates and times are reals.
 */
module RateLimit {

  datatype Bucket = Bucket(tokens: real, last: real)

  datatype Limits = Limits(rps: real, burst: nat)

  function FullBucket(l: Limits): Bucket {
    Bucket(l.burst as real, 0.0)
  }

  function Min(x: real, y: real): real {
    if x <= y then x else y
  }

  /** Tokens at time t, refilled since the last allowed request and capped. */
  function TokensAt(l: Limits, b: Bucket, t: real): real {
    var last := if t < b.last then t else b.last;
    Min(l.burst as real, b.tokens + l.rps * (t - last))
  }

  /** AllowN(t, 1): the bucket only changes when the request is allowed. */
  function Take(l: Limits, b: Bucket, t: real): (Bucket, bool) {
    var tokens := TokensAt(l, b, t) - 1.0;
    if 1 <= l.burst && tokens >= 0.0 then (Bucket(tokens, t), true) else (b, false)
  }

  type Buckets = map<string, Bucket>

  function BucketOf(l: Limits, m: Buckets, user: string): Bucket {
    if user in m then m[user] else FullBucket(l)
  }

  class UserRateLimiter {
    const limits: Limits
    var limiters: Buckets

    constructor (rps: real, burst: nat)
      ensures limits == Limits(rps, burst) && limiters == map[]
    {
      limits := Limits(rps, burst);
      limiters := map[];
    }

    method LimiterFor(userID: string) returns (b: Bucket)
      modifies this
      ensures b == BucketOf(limits, old(limiters), userID)
      ensures limiters == old(limiters)[userID := b]
    {
      if userID !in limiters {
        limiters := limiters[userID := FullBucket(limits)];
      }
      b := limiters[userID];
    }

    method Allow(userID: string, now: real) returns (ok: bool)
      modifies this
      ensures var (b, allowed) := Take(limits, BucketOf(limits, old(limiters), userID), now);
              limiters == old(limiters)[userID := b] && ok == allowed
    {
      var before := LimiterFor(userID);
      var (after, allowed) := Take(limits, before, now);
      limiters := limiters[userID := after];
      ok := allowed;
    }
  }

  // ---- traffic ----

  datatype Arrival = Arrival(user: string, at: real)

  /** The limiter fed a whole traffic: its buckets and its decisions. */
  function Serve(l: Limits, arrivals: seq<Arrival>): (r: (Buckets, seq<bool>))
    ensures |r.1| == |arrivals|
  {
    if arrivals == [] then (map[], [])
    else
      var n := |arrivals| - 1;
      var (m, decisions) := Serve(l, arrivals[..n]);
      var (b, ok) := Take(l, BucketOf(l, m, arrivals[n].user), arrivals[n].at);
      (m[arrivals[n].user := b], decisions + [ok])
  }

  /** One bucket alone: its state, and the times at which it allowed a request. */
  function Alone(l: Limits, times: seq<real>): (Bucket, seq<real>) {
    if times == [] then (FullBucket(l), [])
    else
      var n := |times| - 1;
      var (b, allowed) := Alone(l, times[..n]);
      var (b', ok) := Take(l, b, times[n]);
      (b', if ok then allowed + [times[n]] else allowed)
  }

  function TimesOf(user: string, arrivals: seq<Arrival>): seq<real> {
    if arrivals == [] then []
    else
      var n := |arrivals| - 1;
      TimesOf(user, arrivals[..n]) + if arrivals[n].user == user then [arrivals[n].at] else []
  }

  /** The times at which the limiter let the user through. */
  function AllowedTo(user: string, arrivals: seq<Arrival>, decisions: seq<bool>): seq<real>
    requires |arrivals| == |decisions|
  {
    if arrivals == [] then []
    else
      var n := |arrivals| - 1;
      AllowedTo(user, arrivals[..n], decisions[..n]) +
      if arrivals[n].user == user && decisions[n] then [arrivals[n].at] else []
  }

  /** Users do not affect each other: in any mix, a user gets what a bucket fed only that user's calls gives. */
  lemma {:induction false} UsersAreIndependent(l: Limits, arrivals: seq<Arrival>, user: string)
    ensures var (m, decisions) := Serve(l, arrivals);
            var (b, allowed) := Alone(l, TimesOf(user, arrivals));
            BucketOf(l, m, user) == b && AllowedTo(user, arrivals, decisions) == allowed
  {
    hide Take;
    if arrivals != [] {
      var n := |arrivals| - 1;
      UsersAreIndependent(l, arrivals[..n], user);
      var (m, decisions) := Serve(l, arrivals[..n]);
      var (m', decisions') := Serve(l, arrivals);
      assert decisions'[..n] == decisions;
      var times := TimesOf(user, arrivals[..n]);
      if arrivals[n].user == user {
        assert (times + [arrivals[n].at])[..|times|] == times;
      } else {
        assert TimesOf(user, arrivals) == times;
      }
    }
  }

  // ---- what the bucket enforces ----

  predicate Ordered(times: seq<real>) {
    forall i, j :: 0 <= i < j < |times| ==> times[i] <= times[j]
  }

  /** The bucket's content as a function of the allowed requests only. */
  function Level(l: Limits, allowed: seq<real>, t: real): real {
    if allowed == [] then l.burst as real
    else
      var n := |allowed| - 1;
      Min(l.burst as real, Level(l, allowed[..n], allowed[n]) - 1.0 + l.rps * (t - allowed[n]))
  }

  lemma LevelAfter(l: Limits, allowed: seq<real>, at: real, t: real)
    ensures Level(l, allowed + [at], t) == Min(l.burst as real, Level(l, allowed, at) - 1.0 + l.rps * (t - at))
  {
    assert (allowed + [at])[..|allowed|] == allowed;
  }

  /** After requests at ordered times, the bucket's content is the level of the requests it allowed. */
  lemma {:induction false} BucketHoldsLevel(l: Limits, times: seq<real>, t: real)
    requires l.rps >= 0.0 && Ordered(times) && (times != [] ==> times[|times| - 1] <= t)
    ensures var (b, allowed) := Alone(l, times);
            && Ordered(allowed)
            && (allowed != [] ==> times != [] && allowed[|allowed| - 1] <= times[|times| - 1])
            && TokensAt(l, b, t) == Level(l, allowed, t)
  {
    hide TokensAt, Level;
    if times == [] {
      FullStaysFull(l, t);
    } else {
      var n := |times| - 1;
      BucketHoldsLevel(l, times[..n], times[n]);
      BucketHoldsLevel(l, times[..n], t);
      var (b, allowed) := Alone(l, times[..n]);
      LevelAfter(l, allowed, times[n], t);
      TokensLater(l, TokensAt(l, b, times[n]) - 1.0, times[n], t);
    }
  }

  lemma TokensLater(l: Limits, tokens: real, at: real, t: real)
    requires at <= t
    ensures TokensAt(l, Bucket(tokens, at), t) == Min(l.burst as real, tokens + l.rps * (t - at))
  {
  }

  /** A clock reading before the bucket's last one neither refills nor drains it. */
  lemma ClockBackwards(l: Limits, b: Bucket, t: real)
    requires t <= b.last
    ensures TokensAt(l, b, t) == Min(l.burst as real, b.tokens)
  {
    assert l.rps * 0.0 == 0.0;
  }

  lemma FullStaysFull(l: Limits, t: real)
    requires l.rps >= 0.0
    ensures TokensAt(l, FullBucket(l), t) == l.burst as real == Level(l, [], t)
  {
    var last := if t < 0.0 then t else 0.0;
    assert l.rps * (t - last) >= 0.0;
  }

  /** Requests from allowed[i] on, and one more at t, against what a window of that length may hold. */
  predicate Room(l: Limits, allowed: seq<real>, t: real, i: nat, x: real)
    requires i < |allowed|
  {
    l.burst as real + l.rps * (t - allowed[i]) - (|allowed| - i) as real >= x
  }

  /** Room before an allowed request, against the room left once it is counted. */
  lemma RoomShift(l: Limits, front: seq<real>, at: real, t: real, i: nat, x: real)
    requires i < |front|
    ensures Room(l, front + [at], t, i, x) <==> Room(l, front, at, i, x + 1.0 - l.rps * (t - at))
  {
    var u := front[i];
    assert l.rps * (t - u) == l.rps * (t - at) + l.rps * (at - u);
  }

  lemma RoomLast(l: Limits, front: seq<real>, at: real, t: real, x: real)
    ensures Room(l, front + [at], t, |front|, x) <==> l.burst as real >= x + 1.0 - l.rps * (t - at)
  {
  }

  /** The level is the tightest of all windows that end at t. */
  lemma {:induction false} LevelIsTightestWindow(l: Limits, allowed: seq<real>, t: real, x: real)
    ensures Level(l, allowed, t) >= x <==>
      l.burst as real >= x && forall i :: 0 <= i < |allowed| ==> Room(l, allowed, t, i, x)
  {
    hide Room;
    if allowed != [] {
      var n := |allowed| - 1;
      var front, at := allowed[..n], allowed[n];
      var x' := x + 1.0 - l.rps * (t - at);
      assert front + [at] == allowed;
      LevelIsTightestWindow(l, front, at, x');
      LevelAfter(l, front, at, t);
      RoomLast(l, front, at, t, x);
      forall i | 0 <= i < n
        ensures Room(l, allowed, t, i, x) <==> Room(l, front, at, i, x')
      {
        RoomShift(l, front, at, t, i, x);
      }
    }
  }

  /**
   The decision is exactly the window rule: a request at t is allowed if and only if, counting it, no
   window that starts at an allowed request and ends at t would hold more than burst + rps * length.
   */
  lemma AllowedExactlyWithinWindows(l: Limits, times: seq<real>, t: real)
    requires l.rps >= 0.0 && Ordered(times + [t])
    ensures var (b, allowed) := Alone(l, times);
            Take(l, b, t).1 <==> 1 <= l.burst && forall i :: 0 <= i < |allowed| ==> Room(l, allowed, t, i, 1.0)
  {
    var all := times + [t];
    assert Ordered(times) && (times != [] ==> times[|times| - 1] <= t) by {
      assert forall i :: 0 <= i < |times| ==> all[i] == times[i];
      assert all[|times|] == t;
    }
    BucketHoldsLevel(l, times, t);
    LevelIsTightestWindow(l, Alone(l, times).1, t, 1.0);
  }

  /** From one allowed request to another, counting both, at most burst + rps times the time between. */
  lemma {:induction false} AllowedSpan(l: Limits, times: seq<real>, i: nat, k: nat)
    requires l.rps >= 0.0 && Ordered(times)
    requires i <= k < |Alone(l, times).1|
    ensures var allowed := Alone(l, times).1;
            (k - i + 1) as real <= l.burst as real + l.rps * (allowed[k] - allowed[i])
  {
    hide Take, Room;
    var n := |times| - 1;
    var (b, allowed) := Alone(l, times[..n]);
    if k < |allowed| {
      AllowedSpan(l, times[..n], i, k);
    } else {
      assert times[..n] + [times[n]] == times;
      AllowedExactlyWithinWindows(l, times[..n], times[n]);
      LastSpan(l, allowed, times[n], i);
    }
  }

  lemma LastSpan(l: Limits, allowed: seq<real>, t: real, i: nat)
    requires i <= |allowed| && 1 <= l.burst
    requires forall j :: 0 <= j < |allowed| ==> Room(l, allowed, t, j, 1.0)
    ensures (|allowed| - i + 1) as real <= l.burst as real + l.rps * (t - (allowed + [t])[i])
  {
    if i < |allowed| {
      assert Room(l, allowed, t, i, 1.0);
    }
  }

  function InWindow(times: seq<real>, from: real, to: real): set<int> {
    set k | 0 <= k < |times| && from <= times[k] <= to
  }

  /** The number of indices between two of them. */
  lemma {:induction false} IndicesBetween(s: set<int>, lo: int, hi: int)
    requires forall k :: k in s ==> lo <= k <= hi
    ensures lo <= hi + 1 ==> |s| <= hi - lo + 1
    decreases hi - lo
  {
    if lo > hi {
      assert forall k :: k !in s;
      assert s == {};
    } else {
      IndicesBetween(s - {hi}, lo, hi - 1);
      assert |s| <= |s - {hi}| + 1 by {
        if hi in s {
          assert s == (s - {hi}) + {hi};
        } else {
          assert s == s - {hi};
        }
      }
    }
  }

  lemma {:induction false} WindowCount(allowed: seq<real>, from: real, to: real, s: set<int>) returns (i: nat, k: nat)
    requires s == InWindow(allowed, from, to) && |s| != 0
    ensures i <= k < |allowed| && |s| <= k - i + 1
    ensures from <= allowed[i] && allowed[k] <= to
  {
    i, k := 0, |allowed| - 1;
    while i !in s
      invariant i <= k && forall j :: j in s ==> i <= j
      decreases k - i
    {
      var j :| j in s;
      i := i + 1;
    }
    while k !in s
      invariant i <= k < |allowed| && forall j :: j in s ==> i <= j <= k
      decreases k
    {
      k := k - 1;
    }
    IndicesBetween(s, i, k);
  }

  /**
   The rate bound: in any mix of users with non-decreasing clock readings, the calls allowed to one
   user in a window of length T number at most burst + rps * T.
   */
  lemma RateBound(l: Limits, arrivals: seq<Arrival>, user: string, from: real, to: real)
    requires l.rps >= 0.0 && from <= to
    requires forall i, j :: 0 <= i < j < |arrivals| ==> arrivals[i].at <= arrivals[j].at
    ensures |InWindow(AllowedTo(user, arrivals, Serve(l, arrivals).1), from, to)| as real <= l.burst as real + l.rps * (to - from)
  {
    hide Take, Serve, TimesOf, Alone, AllowedTo, InWindow, Ordered;
    UsersAreIndependent(l, arrivals, user);
    TimesInOrder(user, arrivals);
    AloneRateBound(l, TimesOf(user, arrivals), from, to);
  }

  /** The same for one bucket alone. */
  lemma AloneRateBound(l: Limits, times: seq<real>, from: real, to: real)
    requires l.rps >= 0.0 && from <= to && Ordered(times)
    ensures |InWindow(Alone(l, times).1, from, to)| as real <= l.burst as real + l.rps * (to - from)
  {
    hide Take, Alone, Ordered;
    var allowed := Alone(l, times).1;
    var s := InWindow(allowed, from, to);
    if |s| == 0 {
      LongerWindow(l.rps, 0, 0, l.burst as real, 0.0, to - from);
    } else {
      var i, k := WindowCount(allowed, from, to, s);
      AllowedSpan(l, times, i, k);
      SpanInWindow(l, allowed, i, k, |s|, from, to);
    }
  }

  /** A span inside a window, and fewer requests than it may hold. */
  lemma SpanInWindow(l: Limits, allowed: seq<real>, i: nat, k: nat, n: int, from: real, to: real)
    requires l.rps >= 0.0 && i <= k < |allowed| && from <= allowed[i] && allowed[k] <= to
    requires n <= k - i + 1
    requires (k - i + 1) as real <= l.burst as real + l.rps * (allowed[k] - allowed[i])
    ensures n as real <= l.burst as real + l.rps * (to - from)
  {
    LongerWindow(l.rps, n, k - i + 1, l.burst as real, allowed[k] - allowed[i], to - from);
  }

  /** What a window of length x bounds, a longer one does. */
  lemma LongerWindow(rps: real, n: int, m: int, burst: real, x: real, y: real)
    requires rps >= 0.0 && x <= y
    requires n <= m && m as real <= burst + rps * x
    ensures n as real <= burst + rps * y
  {
    assert rps * (y - x) >= 0.0;
    assert rps * y == rps * x + rps * (y - x);
  }

  lemma {:induction false} TimesInOrder(user: string, arrivals: seq<Arrival>)
    requires forall i, j :: 0 <= i < j < |arrivals| ==> arrivals[i].at <= arrivals[j].at
    ensures Ordered(TimesOf(user, arrivals))
    ensures forall i :: 0 <= i < |TimesOf(user, arrivals)| ==> TimesOf(user, arrivals)[i] <= arrivals[|arrivals| - 1].at
  {
    if arrivals != [] {
      TimesInOrder(user, arrivals[..|arrivals| - 1]);
    }
  }
}
