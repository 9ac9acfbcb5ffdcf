/** Synthetic applications for the load test. The faker's output is the sequence of draws it yields. */
module Generator {

  datatype Application = Application(jobTitle: string, company: string, url: string)

  /** One round of the faker: the roll for a duplicate, the entropy behind the pool index, and the fresh fields. */
  datatype Draw = Draw(roll: real, entropy: nat, jobTitle: string, company: string, uuid: string, url: string)

  function Clamp(dupPct: real): real {
    if dupPct < 0.0 then 0.0 else if dupPct > 1.0 then 1.0 else dupPct
  }

  /** IntRange(lo, hi): some integer between the bounds. */
  function IntRange(entropy: nat, lo: nat, hi: nat): (r: nat)
    requires lo <= hi
    ensures lo <= r <= hi
  {
    lo + entropy % (hi - lo + 1)
  }

  /** One call of Next: the application emitted, and the pool after it. */
  function NextOf(dupPct: real, pool: seq<Application>, d: Draw): (Application, seq<Application>) {
    if |pool| > 0 && d.roll < dupPct then
      (pool[IntRange(d.entropy, 0, |pool| - 1)].(url := d.url), pool)
    else
      var app := Application(d.jobTitle, d.company, "https://jobs.example.com/" + d.uuid);
      (app, pool + [app])
  }

  class Generator {
    const dupPct: real
    var pool: seq<Application>

    constructor (dupPct: real)
      ensures this.dupPct == Clamp(dupPct) && pool == []
    {
      this.dupPct := Clamp(dupPct);
      pool := [];
    }

    method Next(d: Draw) returns (app: Application)
      modifies this
      ensures (app, pool) == NextOf(dupPct, old(pool), d)
    {
      if |pool| > 0 && d.roll < dupPct {
        var base := pool[IntRange(d.entropy, 0, |pool| - 1)];
        base := base.(url := d.url);
        return base;
      }
      app := Application(d.jobTitle, d.company, "https://jobs.example.com/" + d.uuid);
      pool := pool + [app];
    }
  }

  /** The first `n` applications, and the pool they leave. */
  function Emitted(dupPct: real, draws: nat -> Draw, n: nat): (r: (seq<Application>, seq<Application>))
    ensures |r.0| == n
  {
    if n == 0 then ([], [])
    else
      var (apps, pool) := Emitted(dupPct, draws, n - 1);
      var (app, pool') := NextOf(dupPct, pool, draws(n - 1));
      (apps + [app], pool')
  }

  /** A roll below the fraction, once there is something to repeat, repeats a pooled pair with a fresh URL and adds nothing. */
  lemma NextRepeats(dupPct: real, pool: seq<Application>, d: Draw)
    requires pool != [] && d.roll < dupPct
    ensures var (app, pool') := NextOf(dupPct, pool, d);
            && pool' == pool
            && app.url == d.url
            && exists i :: 0 <= i < |pool| && app.company == pool[i].company && app.jobTitle == pool[i].jobTitle
  {
    assert SamePair(pool[IntRange(d.entropy, 0, |pool| - 1)], NextOf(dupPct, pool, d).0);
  }

  /** Any other roll, and always the first, makes a new application of what is drawn and adds it to the pool. */
  lemma NextIsFresh(dupPct: real, pool: seq<Application>, d: Draw)
    requires pool == [] || d.roll >= dupPct
    ensures var (app, pool') := NextOf(dupPct, pool, d);
            && app.jobTitle == d.jobTitle && app.company == d.company && app.url == "https://jobs.example.com/" + d.uuid
            && pool' == pool + [app]
  {
  }

  /** The fraction is kept between 0 and 1, so that 0 never repeats and 1 always does. */
  lemma ClampNearest(x: real, y: real)
    requires 0.0 <= y <= 1.0
    ensures 0.0 <= Clamp(x) <= 1.0
    ensures (if x < Clamp(x) then Clamp(x) - x else x - Clamp(x)) <= if x < y then y - x else x - y
  {
  }

  predicate SamePair(a: Application, b: Application) {
    a.company == b.company && a.jobTitle == b.jobTitle
  }

  ghost predicate InPool(pool: seq<Application>, a: Application) {
    exists i :: 0 <= i < |pool| && SamePair(pool[i], a)
  }

  lemma InPoolGrows(pool: seq<Application>, app: Application, a: Application)
    requires InPool(pool, a) || SamePair(app, a)
    ensures InPool(pool + [app], a)
  {
    if InPool(pool, a) {
      var i :| 0 <= i < |pool| && SamePair(pool[i], a);
      assert SamePair((pool + [app])[i], a);
    } else {
      assert SamePair((pool + [app])[|pool|], a);
    }
  }

  /**
   Every emitted (company, title) pair is one of the pool's; the pool holds at least the first pair
   and never more than were emitted; a generator that never duplicates pools them all.
   */
  lemma {:induction false} EmittedFromPool(dupPct: real, draws: nat -> Draw, n: nat)
    ensures var (apps, pool) := Emitted(dupPct, draws, n);
            && (forall i :: 0 <= i < n ==> InPool(pool, apps[i]))
            && (n > 0 ==> 1 <= |pool|) && |pool| <= n
            && ((forall i: nat :: i < n ==> draws(i).roll >= dupPct) ==> pool == apps)
  {
    if n > 0 {
      EmittedFromPool(dupPct, draws, n - 1);
      var (apps, pool) := Emitted(dupPct, draws, n - 1);
      var (app, pool') := NextOf(dupPct, pool, draws(n - 1));
      var all := apps + [app];
      forall i | 0 <= i < n
        ensures InPool(pool', all[i])
      {
        if pool' == pool {
          if i == n - 1 {
            assert SamePair(pool[IntRange(draws(n - 1).entropy, 0, |pool| - 1)], app);
          }
        } else {
          InPoolGrows(pool, app, all[i]);
        }
      }
    }
  }
}
