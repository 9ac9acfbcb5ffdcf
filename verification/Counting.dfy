/**
 How many rows a quiet server creates. One client alone, stores that answer, and none of the client's
 own keys pending or expiring before the end: a sequence of submits adds exactly one row per distinct
 new key, and items with one key get one id, whatever other keys the store holds. And whatever happens,
 the ids a batch hands out read back.
 */
module Counting {
  import opened Prelude
  import opened Text
  import opened Uuid
  import opened Dedup
  import opened Canonical
  import opened Protocol
  import opened Intake
  import opened Server
  import DedupKey
  import Repo

  // ---- a quiet server ----

  function LiveKeys(w: World): set<string> {
    set key | key in w.store && w.now < w.store[key].expires
  }

  /** Every live entry is a committed id that outlasts the horizon, and so will any id cached from now on. */
  predicate Steady(cfg: Config, w: World, horizon: int) {
    && w.now < horizon <= w.now + cfg.ttl
    && forall key :: key in LiveKeys(w) ==>
         w.store[key].value != PENDING_SENTINEL && horizon <= w.store[key].expires
  }

  predicate Clean(f: Fate) {
    f.check.Done? && f.claim.Done? && f.recheck.Done? && f.insert.NoFault? && f.finish.Done?
  }

  /** The key of a request, None when it does not validate; the clock only feeds a missing applied_at. */
  function KeyOfRequest(cfg: Config, req: Request): Option<string> {
    match cfg.prepare(req, 0)
    case Ok(e) => Some(KeyOf(cfg, e))
    case Err(_) => None
  }

  ghost predicate Timeless(cfg: Config) {
    forall req, t: int ::
      match cfg.prepare(req, t)
      case Ok(e) => KeyOfRequest(cfg, req) == Some(KeyOf(cfg, e))
      case Err(_) => KeyOfRequest(cfg, req) == None
  }

  lemma {:induction false} IntakeIsTimeless(p: Platform, ttl: int)
    ensures Timeless(IntakeConfig(p, ttl))
  {
    hide DedupKey.Key;
    var cfg := IntakeConfig(p, ttl);
    forall req, t: int
      ensures match cfg.prepare(req, t)
              case Ok(e) => KeyOfRequest(cfg, req) == Some(KeyOf(cfg, e))
              case Err(_) => KeyOfRequest(cfg, req) == None
    {
      PrepareUpToTime(p, req, t);
    }
  }

  lemma PrepareUpToTime(p: Platform, req: Request, t: int)
    ensures var a, b := Prepare(p, req, 0), Prepare(p, req, t);
            && a.Ok? == b.Ok?
            && (a.Ok? ==> a.value.userID == b.value.userID && a.value.company == b.value.company
                          && a.value.jobTitle == b.value.jobTitle)
  {
    var a, b := Transform(p, req, 0), Transform(p, req, t);
    assert a.Some? == b.Some?;
    assert a.Some? ==> b.value == a.value.(appliedAt := b.value.appliedAt);
  }

  // ---- one submit ----

  /** What one clean submit does to a steady world. */
  predicate SubmitCounts(cfg: Config, w: World, req: Request, id: Uuid, w': World, r: SubmitResult) {
    match KeyOfRequest(cfg, req)
    case None => w'.store == w.store && w'.tables == w.tables && r.Err?
    case Some(key) =>
      && LiveKeys(w') == LiveKeys(w) + {key}
      && (forall k :: k in LiveKeys(w) ==> w'.store[k] == w.store[k])
      && r == Ok(w'.store[key].value)
      && if key in LiveKeys(w) then w'.tables == w.tables
         else
           && w'.store[key].value == UuidToString(id)
           && w'.tables.applications.Keys == w.tables.applications.Keys + {id}
  }

  lemma LiveLater(cfg: Config, w: World, w': World, horizon: int)
    requires Steady(cfg, w, horizon) && w'.store == w.store && w.now <= w'.now < horizon
    ensures LiveKeys(w') == LiveKeys(w) && Steady(cfg, w', horizon)
  {
  }

  lemma MissCounts(cfg: Config, w: World, e: Event, f: Fate, horizon: int)
    requires Steady(cfg, w, horizon) && Clean(f) && f.id !in w.tables.applications
    requires KeyOf(cfg, e) !in LiveKeys(w)
    requires SubmitMissed(cfg, w, e, f).0.now < horizon
    ensures var (w', r) := SubmitMissed(cfg, w, e, f);
            var key := KeyOf(cfg, e);
            && w.now <= w'.now
            && Steady(cfg, w', horizon)
            && LiveKeys(w') == LiveKeys(w) + {key}
            && (forall k :: k in LiveKeys(w) ==> w'.store[k] == w.store[k])
            && w'.store[key].value == UuidToString(f.id) && r == Ok(UuidToString(f.id))
            && w'.tables.applications.Keys == w.tables.applications.Keys + {f.id}
  {
    hide UuidToString;
    var (w', r) := SubmitMissed(cfg, w, e, f);
    var key := KeyOf(cfg, e);
    IdIsNotSentinel(f.id);
    assert w'.store == w.store[key := Entry(UuidToString(f.id), w'.now + cfg.ttl)];
    forall k | k in LiveKeys(w)
      ensures k in LiveKeys(w')
    {
      assert horizon <= w.store[k].expires;
    }
  }

  lemma SteadySubmitCounts(cfg: Config, w: World, req: Request, f: Fate, horizon: int)
    requires Timeless(cfg) && Steady(cfg, w, horizon) && Clean(f) && f.id !in w.tables.applications
    requires Submit(cfg, w, req, f).0.now < horizon
    ensures var (w', r) := Submit(cfg, w, req, f);
            w.now <= w'.now && Steady(cfg, w', horizon) && SubmitCounts(cfg, w, req, f.id, w', r)
  {
    hide UuidToString, SubmitMissed;
    var w0 := Server.After(w, f.startDelay);
    var (w', r) := Submit(cfg, w, req, f);
    SubmitTakesTime(cfg, w, req, f);
    match cfg.prepare(req, w0.now)
    case Err(_) =>
      assert KeyOfRequest(cfg, req) == None;
      LiveLater(cfg, w, w', horizon);
    case Ok(e) =>
      assert KeyOfRequest(cfg, req) == Some(KeyOf(cfg, e));
      var w1 := Server.After(w0, f.checkDelay);
      LiveLater(cfg, w, w1, horizon);
      if KeyOf(cfg, e) !in LiveKeys(w1) {
        MissCounts(cfg, w1, e, f, horizon);
      }
  }

  // ---- only the keys concerned matter ----

  function OnlyKeys(store: Store, keys: set<string>): Store {
    map key | key in store && key in keys :: store[key]
  }

  /** The world with its store restricted to some keys. */
  function Only(w: World, keys: set<string>): World {
    w.(store := OnlyKeys(w.store, keys))
  }

  ghost predicate SameElsewhere(keys: set<string>, a: Store, b: Store) {
    forall k :: k !in keys ==> (k in a <==> k in b) && (k in a ==> a[k] == b[k])
  }

  lemma ReadsCommute(store: Store, keys: set<string>, key: string, now: int)
    requires key in keys
    ensures Get(OnlyKeys(store, keys), key, now) == Get(store, key, now)
    ensures CheckHit(OnlyKeys(store, keys), key, now) == CheckHit(store, key, now)
  {
  }

  lemma WritesCommute(store: Store, keys: set<string>, key: string, value: string, ttl: int, now: int)
    requires key in keys
    ensures OnlyKeys(Set(store, key, value, ttl, now), keys) == Set(OnlyKeys(store, keys), key, value, ttl, now)
    ensures OnlyKeys(Del(store, key), keys) == Del(OnlyKeys(store, keys), key)
    ensures OnlyKeys(SetNX(store, key, value, ttl, now), keys) == SetNX(OnlyKeys(store, keys), key, value, ttl, now)
    ensures SameElsewhere(keys, store, Set(store, key, value, ttl, now)) && SameElsewhere(keys, store, Del(store, key))
    ensures SameElsewhere(keys, store, SetNX(store, key, value, ttl, now))
  {
    ReadsCommute(store, keys, key, now);
  }

  lemma ElsewhereTwice(keys: set<string>, a: Store, b: Store, c: Store)
    requires SameElsewhere(keys, a, b) && SameElsewhere(keys, b, c)
    ensures SameElsewhere(keys, a, c)
  {
  }

  lemma InsertFramed(cfg: Config, w: World, e: Event, f: Fate, keys: set<string>)
    requires KeyOf(cfg, e) in keys
    ensures var (w', r) := SubmitInsert(cfg, w, e, f);
            SubmitInsert(cfg, Only(w, keys), e, f) == (Only(w', keys), r) && SameElsewhere(keys, w.store, w'.store)
  {
    hide KeyOf, UuidToString, Repo.InsertTx, OnlyKeys, SameElsewhere, Set, Del, SetNX;
    var (w', r) := SubmitInsert(cfg, w, e, f);
    WritesCommute(w.store, keys, KeyOf(cfg, e), if r.Ok? then r.value else "", cfg.ttl, w'.now);
    ElsewhereSelf(keys, w.store);
  }

  lemma ElsewhereSelf(keys: set<string>, a: Store)
    ensures SameElsewhere(keys, a, a)
  {
  }

  lemma MissedFramed(cfg: Config, w: World, e: Event, f: Fate, keys: set<string>)
    requires KeyOf(cfg, e) in keys
    ensures var (w', r) := SubmitMissed(cfg, w, e, f);
            SubmitMissed(cfg, Only(w, keys), e, f) == (Only(w', keys), r) && SameElsewhere(keys, w.store, w'.store)
  {
    hide KeyOf, SubmitInsert, OnlyKeys, SameElsewhere, Get, CheckHit, SetNX;
    var key := KeyOf(cfg, e);
    var w1 := Server.After(w, f.claimDelay);
    ReadsCommute(w.store, keys, key, w1.now);
    ReadsCommute(w.store, keys, key, w1.now + f.recheckDelay);
    WritesCommute(w.store, keys, key, PENDING_SENTINEL, PENDING_TTL, w1.now);
    ElsewhereSelf(keys, w.store);
    if !(f.claim.Done? && Get(w1.store, key, w1.now).Some?) {
      var w2 := w1.(store := if Applied(f.claim) then SetNX(w1.store, key, PENDING_SENTINEL, PENDING_TTL, w1.now) else w1.store);
      InsertFramed(cfg, w2, e, f, keys);
      ElsewhereTwice(keys, w.store, w2.store, SubmitInsert(cfg, w2, e, f).0.store);
    }
  }

  /** A submit whose key is among `keys` does in the restricted world what it does in the whole, and leaves the other keys alone. */
  lemma SubmitFramed(cfg: Config, w: World, req: Request, f: Fate, keys: set<string>)
    requires Timeless(cfg) && (KeyOfRequest(cfg, req).Some? ==> KeyOfRequest(cfg, req).value in keys)
    ensures var (w', r) := Submit(cfg, w, req, f);
            Submit(cfg, Only(w, keys), req, f) == (Only(w', keys), r) && SameElsewhere(keys, w.store, w'.store)
  {
    hide KeyOf, KeyOfRequest, SubmitMissed, OnlyKeys, SameElsewhere, CheckHit;
    var w0 := Server.After(w, f.startDelay);
    ElsewhereSelf(keys, w.store);
    match cfg.prepare(req, w0.now)
    case Err(_) =>
    case Ok(e) =>
      assert KeyOfRequest(cfg, req) == Some(KeyOf(cfg, e));
      var w1 := Server.After(w0, f.checkDelay);
      ReadsCommute(w.store, keys, KeyOf(cfg, e), w1.now);
      MissedFramed(cfg, w1, e, f, keys);
  }

  lemma {:induction false} FoldFramed(cfg: Config, w: World, apps: seq<Request>, fates: nat -> Fate, c: nat, n: nat, keys: set<string>)
    requires Timeless(cfg) && n <= |apps| && KeysOf(cfg, apps, n) <= keys
    ensures var (w', items) := Fold(cfg, w, apps, fates, c, n);
            Fold(cfg, Only(w, keys), apps, fates, c, n) == (Only(w', keys), items) && SameElsewhere(keys, w.store, w'.store)
  {
    hide Submit, KeyOfRequest, OnlyKeys, SameElsewhere, Timeless;
    if n == 0 {
      ElsewhereSelf(keys, w.store);
    } else {
      assert KeysOf(cfg, apps, n - 1) <= KeysOf(cfg, apps, n);
      FoldFramed(cfg, w, apps, fates, c, n - 1, keys);
      var w1 := Fold(cfg, w, apps, fates, c, n - 1).0;
      SubmitFramed(cfg, w1, apps[n - 1], fates(n - 1), keys);
      ElsewhereTwice(keys, w.store, w1.store, Submit(cfg, w1, apps[n - 1], fates(n - 1)).0.store);
    }
  }

  /** None of `keys` is pending or expires before the horizon; the rest of the store may do as it likes. */
  predicate SteadyOn(cfg: Config, w: World, keys: set<string>, horizon: int) {
    Steady(cfg, Only(w, keys), horizon)
  }

  lemma LiveOnly(w: World, keys: set<string>)
    ensures LiveKeys(Only(w, keys)) == LiveKeys(w) * keys
  {
  }

  /** One clean submit, whatever the rest of the store holds. */
  lemma {:induction false} SubmitOneCounts(cfg: Config, w: World, req: Request, f: Fate, key: string, horizon: int)
    requires Timeless(cfg) && KeyOfRequest(cfg, req) == Some(key)
    requires SteadyOn(cfg, w, {key}, horizon) && Clean(f) && f.id !in w.tables.applications
    requires Submit(cfg, w, req, f).0.now < horizon
    ensures var (w', r) := Submit(cfg, w, req, f);
            && SteadyOn(cfg, w', {key}, horizon) && SameElsewhere({key}, w.store, w'.store)
            && key in LiveKeys(w') && r == Ok(w'.store[key].value)
            && (if key in LiveKeys(w) then w'.tables == w.tables && w'.store[key] == w.store[key]
                else && w'.store[key].value == UuidToString(f.id)
                     && w'.tables.applications.Keys == w.tables.applications.Keys + {f.id})
  {
    hide Submit, KeyOfRequest, Steady, UuidToString, Clean, Timeless;
    var (w', r) := Submit(cfg, w, req, f);
    SubmitFramed(cfg, w, req, f, {key});
    SteadySubmitCounts(cfg, Only(w, {key}), req, f, horizon);
    LiveOnly(w, {key});
    LiveOnly(w', {key});
  }

  lemma SubmitTakesTime(cfg: Config, w: World, req: Request, f: Fate)
    ensures w.now <= w.now + f.startDelay <= Submit(cfg, w, req, f).0.now
    ensures cfg.prepare(req, w.now + f.startDelay).Ok? ==> w.now + f.startDelay + f.checkDelay <= Submit(cfg, w, req, f).0.now
  {
    hide UuidToString, Repo.InsertTx;
  }

  // ---- a sequence of submits ----

  /** The keys of the first `n` requests that validate. */
  function KeysOf(cfg: Config, apps: seq<Request>, n: nat): set<string>
    requires n <= |apps|
  {
    if n == 0 then {}
    else
      var before := KeysOf(cfg, apps, n - 1);
      match KeyOfRequest(cfg, apps[n - 1])
      case None => before
      case Some(key) => before + {key}
  }

  predicate FreshIds(w: World, fates: nat -> Fate, n: nat) {
    && (forall i :: 0 <= i < n ==> fates(i).id !in w.tables.applications)
    && (forall i, j :: 0 <= i < j < n ==> fates(i).id != fates(j).id)
  }

  ghost predicate CleanFates(fates: nat -> Fate, n: nat) {
    forall i: nat :: i < n ==> Clean(fates(i))
  }

  predicate ItemCounts(cfg: Config, w: World, req: Request, item: ItemResult) {
    match KeyOfRequest(cfg, req)
    case None => item.ErrorMessage?
    case Some(key) => key in LiveKeys(w) && item == ApplicationId(w.store[key].value)
  }

  /** The live keys are the old ones, untouched, and those of the requests, each with a printed id. */
  ghost predicate KeysCount(cfg: Config, w: World, apps: seq<Request>, n: nat, w': World)
    requires n <= |apps|
  {
    && LiveKeys(w') == LiveKeys(w) + KeysOf(cfg, apps, n)
    && (forall k :: k in LiveKeys(w) ==> w'.store[k] == w.store[k])
    && (forall k :: k in LiveKeys(w') - LiveKeys(w) ==> |w'.store[k].value| == 36)
  }

  /** One row has been added for each key that was not live before. */
  ghost predicate RowsCount(w: World, fates: nat -> Fate, n: nat, w': World) {
    && |w'.tables.applications| == |w.tables.applications| + |LiveKeys(w') - LiveKeys(w)|
    && (forall u :: u in w'.tables.applications ==> u in w.tables.applications || IdAmong(fates, n, u))
  }

  predicate IdAmong(fates: nat -> Fate, n: nat, id: Uuid) {
    exists i: nat :: i < n && id == fates(i).id
  }

  ghost predicate ItemsCount(cfg: Config, w: World, apps: seq<Request>, n: nat, items: seq<ItemResult>) {
    && |items| == n <= |apps|
    && forall i :: 0 <= i < n ==> ItemCounts(cfg, w, apps[i], items[i])
  }

  lemma KeysStep(cfg: Config, w: World, apps: seq<Request>, n: nat, w1: World, id: Uuid, w2: World, r: SubmitResult)
    requires n < |apps| && KeysCount(cfg, w, apps, n, w1)
    requires SubmitCounts(cfg, w1, apps[n], id, w2, r) && w1.now <= w2.now
    requires KeyOfRequest(cfg, apps[n]).None? ==> LiveKeys(w2) == LiveKeys(w1)
    ensures KeysCount(cfg, w, apps, n + 1, w2)
  {
    hide KeyOfRequest;
  }

  lemma GainedStep(l: set<string>, l1: set<string>, key: string)
    requires l <= l1 && key !in l1
    ensures |(l1 + {key}) - l| == |l1 - l| + 1
  {
    assert (l1 + {key}) - l == (l1 - l) + {key};
  }

  lemma RowCountStep(a: map<Uuid, Repo.Row>, b: map<Uuid, Repo.Row>, id: Uuid)
    requires id !in a && b.Keys == a.Keys + {id}
    ensures |b| == |a| + 1
  {
    assert |b.Keys| == |a.Keys| + 1;
  }

  lemma RowsStep(cfg: Config, w: World, fates: nat -> Fate, n: nat, w1: World, req: Request, w2: World, r: SubmitResult)
    requires RowsCount(w, fates, n, w1) && LiveKeys(w) <= LiveKeys(w1)
    requires SubmitCounts(cfg, w1, req, fates(n).id, w2, r)
    requires KeyOfRequest(cfg, req).None? ==> LiveKeys(w2) == LiveKeys(w1)
    requires fates(n).id !in w1.tables.applications
    ensures RowsCount(w, fates, n + 1, w2)
  {
    hide KeyOfRequest, UuidToString, LiveKeys, IdAmong;
    forall u | u in w2.tables.applications && u !in w.tables.applications
      ensures IdAmong(fates, n + 1, u)
    {
      AmongNext(fates, n, u);
    }
    if KeyOfRequest(cfg, req).Some? {
      var key := KeyOfRequest(cfg, req).value;
      if key in LiveKeys(w1) {
        assert LiveKeys(w1) + {key} == LiveKeys(w1);
      } else {
        GainedStep(LiveKeys(w), LiveKeys(w1), key);
        RowCountStep(w1.tables.applications, w2.tables.applications, fates(n).id);
      }
    }
  }

  lemma AmongNext(fates: nat -> Fate, n: nat, u: Uuid)
    ensures IdAmong(fates, n, u) || u == fates(n).id ==> IdAmong(fates, n + 1, u)
  {
  }

  lemma ItemsStep(cfg: Config, apps: seq<Request>, n: nat, w1: World, items: seq<ItemResult>, id: Uuid, w2: World, r: SubmitResult)
    requires n < |apps| && ItemsCount(cfg, w1, apps, n, items)
    requires SubmitCounts(cfg, w1, apps[n], id, w2, r)
    requires KeyOfRequest(cfg, apps[n]).None? ==> LiveKeys(w2) == LiveKeys(w1)
    ensures ItemsCount(cfg, w2, apps, n + 1, items + [ToItem(r)])
  {
    hide KeyOfRequest, UuidToString;
    var items' := items + [ToItem(r)];
    forall i | 0 <= i < n + 1
      ensures ItemCounts(cfg, w2, apps[i], items'[i])
    {
      if i < n {
        assert ItemCounts(cfg, w1, apps[i], items[i]);
      }
    }
  }

  lemma FreshNext(w: World, fates: nat -> Fate, n: nat, w1: World)
    requires FreshIds(w, fates, n + 1) && RowsCount(w, fates, n, w1)
    ensures fates(n).id !in w1.tables.applications
  {
    var id := fates(n).id;
    assert forall i: nat :: i < n ==> fates(i).id != id;
    assert id in w1.tables.applications ==> IdAmong(fates, n, id);
  }

  /**
   A quiet sequence of submits, from any wholly steady world: the rows added number exactly the distinct
   keys of the valid requests that were not live before; every valid item gets the id cached under
   its key, so equal keys get equal ids; every invalid item gets an error.
   */
  lemma {:induction false} SteadyFoldCounts(cfg: Config, w: World, apps: seq<Request>, fates: nat -> Fate, horizon: int, n: nat)
    requires n <= |apps| && Timeless(cfg) && Steady(cfg, w, horizon)
    requires CleanFates(fates, n) && FreshIds(w, fates, n)
    requires Fold(cfg, w, apps, fates, n, n).0.now < horizon
    ensures var (w', items) := Fold(cfg, w, apps, fates, n, n);
            && w.now <= w'.now
            && Steady(cfg, w', horizon)
            && KeysCount(cfg, w, apps, n, w')
            && RowsCount(w, fates, n, w')
            && ItemsCount(cfg, w', apps, n, items)
  {
    hide UuidToString, Steady, Submit, KeyOfRequest, SubmitCounts, KeysCount, RowsCount, ItemsCount, Clean, FreshIds;
    if n == 0 {
      EmptyFoldCounts(cfg, w, apps, fates);
    } else {
      var m := n - 1;
      FoldUncancelled(cfg, w, apps, fates, n, m, m);
      var (w1, items) := Fold(cfg, w, apps, fates, m, m);
      SubmitTakesTime(cfg, w1, apps[m], fates(m));
      FreshPrefix(w, fates, n);
      SteadyFoldCounts(cfg, w, apps, fates, horizon, m);
      var (w2, r) := Submit(cfg, w1, apps[m], fates(m));
      FreshNext(w, fates, m, w1);
      assert Clean(fates(m));
      SteadySubmitCounts(cfg, w1, apps[m], fates(m), horizon);
      InvalidKeepsLive(cfg, w1, apps[m], fates(m).id, w2, r, horizon);
      KeysStep(cfg, w, apps, m, w1, fates(m).id, w2, r);
      LiveGrow(cfg, w, apps, m, w1);
      RowsStep(cfg, w, fates, m, w1, apps[m], w2, r);
      ItemsStep(cfg, apps, m, w1, items, fates(m).id, w2, r);
    }
  }

  lemma EmptyFoldCounts(cfg: Config, w: World, apps: seq<Request>, fates: nat -> Fate)
    ensures KeysCount(cfg, w, apps, 0, w) && RowsCount(w, fates, 0, w) && ItemsCount(cfg, w, apps, 0, [])
  {
    assert LiveKeys(w) - LiveKeys(w) == {};
  }

  /** A context that is not done before the end does not matter. */
  lemma {:induction false} FoldUncancelled(cfg: Config, w: World, apps: seq<Request>, fates: nat -> Fate, c: nat, d: nat, n: nat)
    requires n <= |apps| && n <= c && n <= d
    ensures Fold(cfg, w, apps, fates, c, n) == Fold(cfg, w, apps, fates, d, n)
  {
    hide Submit;
    if n > 0 {
      FoldUncancelled(cfg, w, apps, fates, c, d, n - 1);
    }
  }

  lemma FreshPrefix(w: World, fates: nat -> Fate, n: nat)
    requires n > 0 && FreshIds(w, fates, n)
    ensures FreshIds(w, fates, n - 1)
  {
  }

  lemma LiveGrow(cfg: Config, w: World, apps: seq<Request>, n: nat, w': World)
    requires n <= |apps| && KeysCount(cfg, w, apps, n, w')
    ensures LiveKeys(w) <= LiveKeys(w')
  {
  }

  lemma InvalidKeepsLive(cfg: Config, w: World, req: Request, id: Uuid, w': World, r: SubmitResult, horizon: int)
    requires Steady(cfg, w, horizon) && Steady(cfg, w', horizon) && w.now <= w'.now
    requires SubmitCounts(cfg, w, req, id, w', r)
    ensures KeyOfRequest(cfg, req).None? ==> LiveKeys(w') == LiveKeys(w)
  {
    if KeyOfRequest(cfg, req).None? {
      LiveLater(cfg, w, w', horizon);
    }
  }

  /** Valid items get ids, equal ones for equal keys; invalid items get errors. */
  ghost predicate ItemsByKey(cfg: Config, apps: seq<Request>, items: seq<ItemResult>) {
    && |items| == |apps|
    && (forall i :: 0 <= i < |apps| ==> (items[i].ApplicationId? <==> KeyOfRequest(cfg, apps[i]).Some?))
    && (forall i, j :: 0 <= i < |apps| && 0 <= j < |apps| ==> SameKeySameItem(cfg, apps[i], apps[j], items[i], items[j]))
  }

  predicate SameKeySameItem(cfg: Config, a: Request, b: Request, x: ItemResult, y: ItemResult) {
    KeyOfRequest(cfg, a).Some? && KeyOfRequest(cfg, a) == KeyOfRequest(cfg, b) ==> x == y
  }

  lemma CountedItemsByKey(cfg: Config, w: World, apps: seq<Request>, items: seq<ItemResult>)
    requires ItemsCount(cfg, w, apps, |apps|, items)
    ensures ItemsByKey(cfg, apps, items)
  {
    hide KeyOfRequest, LiveKeys;
    forall i, j | 0 <= i < |apps| && 0 <= j < |apps|
      ensures items[i].ApplicationId? <==> KeyOfRequest(cfg, apps[i]).Some?
      ensures SameKeySameItem(cfg, apps[i], apps[j], items[i], items[j])
    {
      assert ItemCounts(cfg, w, apps[i], items[i]) && ItemCounts(cfg, w, apps[j], items[j]);
    }
  }

  /**
   The same when only the sequence's own keys are known to be steady: it adds one row for each of them
   that was not live, leaves each of them live with the id that its items got, and touches no other key.
   */
  lemma {:induction false} QuietFoldCounts(cfg: Config, w: World, apps: seq<Request>, fates: nat -> Fate, horizon: int, n: nat)
    requires n <= |apps| && Timeless(cfg) && SteadyOn(cfg, w, KeysOf(cfg, apps, n), horizon)
    requires CleanFates(fates, n) && FreshIds(w, fates, n)
    requires Fold(cfg, w, apps, fates, n, n).0.now < horizon
    ensures var (w', items) := Fold(cfg, w, apps, fates, n, n);
            var keys := KeysOf(cfg, apps, n);
            && w.now <= w'.now
            && |w'.tables.applications| == |w.tables.applications| + |keys - LiveKeys(w)|
            && ItemsCount(cfg, w', apps, n, items)
            && keys <= LiveKeys(w')
            && (forall k :: k in keys && k in LiveKeys(w) ==> w'.store[k] == w.store[k])
            && (forall k :: k in keys && k !in LiveKeys(w) ==> |w'.store[k].value| == 36)
            && SameElsewhere(keys, w.store, w'.store)
  {
    hide Steady, Submit, KeyOfRequest, Clean, FreshIds, Fold, KeysOf, SameElsewhere, ItemsCount, LiveKeys, Timeless;
    var keys := KeysOf(cfg, apps, n);
    var (w', items) := Fold(cfg, w, apps, fates, n, n);
    FoldFramed(cfg, w, apps, fates, n, n, keys);
    FreshOnly(w, fates, n, keys);
    SteadyFoldCounts(cfg, Only(w, keys), apps, fates, horizon, n);
    OnlyCounts(cfg, w, apps, fates, n, keys, w', items);
  }

  lemma FreshOnly(w: World, fates: nat -> Fate, n: nat, keys: set<string>)
    requires FreshIds(w, fates, n)
    ensures FreshIds(Only(w, keys), fates, n)
  {
    hide OnlyKeys;
  }

  /** Counting in the restricted world, read back in the whole. */
  lemma OnlyCounts(cfg: Config, w: World, apps: seq<Request>, fates: nat -> Fate, n: nat, keys: set<string>, w': World, items: seq<ItemResult>)
    requires n <= |apps| && keys == KeysOf(cfg, apps, n)
    requires KeysCount(cfg, Only(w, keys), apps, n, Only(w', keys)) && RowsCount(Only(w, keys), fates, n, Only(w', keys))
    requires ItemsCount(cfg, Only(w', keys), apps, n, items)
    ensures |w'.tables.applications| == |w.tables.applications| + |keys - LiveKeys(w)|
    ensures ItemsCount(cfg, w', apps, n, items)
    ensures keys <= LiveKeys(w')
    ensures forall k :: k in keys && k in LiveKeys(w) ==> w'.store[k] == w.store[k]
    ensures forall k :: k in keys && k !in LiveKeys(w) ==> |w'.store[k].value| == 36
  {
    hide KeyOfRequest, KeysOf, IdAmong, LiveKeys, ItemsCount;
    LiveOnly(w, keys);
    LiveOnly(w', keys);
    LiveStored(Only(w', keys));
    assert LiveKeys(Only(w', keys)) - LiveKeys(Only(w, keys)) == keys - LiveKeys(w);
    OnlyItems(cfg, apps, n, keys, w', items);
  }

  lemma LiveStored(w: World)
    ensures forall k :: k in LiveKeys(w) ==> k in w.store
  {
  }

  lemma OnlyItems(cfg: Config, apps: seq<Request>, n: nat, keys: set<string>, w: World, items: seq<ItemResult>)
    requires n <= |apps| && ItemsCount(cfg, Only(w, keys), apps, n, items)
    ensures ItemsCount(cfg, w, apps, n, items)
  {
    hide KeyOfRequest, LiveKeys;
    LiveOnly(w, keys);
    LiveStored(Only(w, keys));
    forall i | 0 <= i < n
      ensures ItemCounts(cfg, w, apps[i], items[i])
    {
      assert ItemCounts(cfg, Only(w, keys), apps[i], items[i]);
    }
  }

  /**
   One batch, while no other client works on its keys: the RPC succeeds, the rows added number the
   distinct keys of its valid items that were not cached, and valid items with equal keys get equal ids.
   */
  lemma {:induction false} QuietBatch(
    cfg: Config, w: World, apps: seq<Request>, fates: nat -> Fate, horizon: int, w': World, r: Result<seq<ItemResult>, BatchError>)
    requires 0 < |apps| <= MAX_BATCH_SIZE && Timeless(cfg) && SteadyOn(cfg, w, KeysOf(cfg, apps, |apps|), horizon)
    requires CleanFates(fates, |apps|) && FreshIds(w, fates, |apps|)
    requires (w', r) == Batch(cfg, w, apps, fates, |apps|) && w'.now < horizon
    ensures r.Ok? && ItemsByKey(cfg, apps, r.value)
    ensures |w'.tables.applications| == |w.tables.applications| + |KeysOf(cfg, apps, |apps|) - LiveKeys(w)|
  {
    hide SteadyOn, KeyOfRequest, Clean, FreshIds, LiveKeys, KeysOf, Fold, ItemsByKey, ItemsCount, SameElsewhere, Timeless;
    QuietFoldCounts(cfg, w, apps, fates, horizon, |apps|);
    CountedItemsByKey(cfg, w', apps, r.value);
  }

  // ---- any batch ----

  ghost predicate ItemReturned(s: State, req: Request, item: ItemResult) {
    item.ApplicationId? ==>
      exists c: nat :: c < |s.calls| && s.calls[c].req == req && s.calls[c].pc == Returned(Ok(item.id))
  }

  lemma ItemStaysReturned(s: State, t: State, req: Request, item: ItemResult)
    requires ItemReturned(s, req, item) && |s.calls| <= |t.calls| && t.calls[..|s.calls|] == s.calls
    ensures ItemReturned(t, req, item)
  {
    if item.ApplicationId? {
      var c: nat :| c < |s.calls| && s.calls[c].req == req && s.calls[c].pc == Returned(Ok(item.id));
      assert t.calls[c] == s.calls[c];
    }
  }

  /** The ids among the first results are returns of calls in the state. */
  ghost predicate ItemsReturned(s: State, apps: seq<Request>, items: seq<ItemResult>) {
    |items| <= |apps| && forall i :: 0 <= i < |items| ==> ItemReturned(s, apps[i], items[i])
  }

  /** One more item, submitted by itself: a run that adds its call and keeps the earlier ones. */
  lemma OneMoreItem(cfg: Config, s: State, apps: seq<Request>, items: seq<ItemResult>, f: Fate) returns (steps: seq<Step>)
    requires ItemsReturned(s, apps, items) && |items| < |apps|
    ensures var (w, r) := Submit(cfg, WorldOf(s), apps[|items|], f);
            WorldOf(Run(cfg, s, steps)) == w && ItemsReturned(Run(cfg, s, steps), apps, items + [ToItem(r)])
  {
    hide Submit, ItemReturned, Next, Run, WorldOf, ToItem;
    var n := |items|;
    steps := SubmitIsARun(cfg, s, apps[n], f);
    var t := Run(cfg, s, steps);
    var (w, r) := Submit(cfg, WorldOf(s), apps[n], f);
    forall i | 0 <= i < n
      ensures ItemReturned(t, apps[i], items[i])
    {
      ItemStaysReturned(s, t, apps[i], items[i]);
    }
    NewItemReturned(cfg, s, t, apps[n], s.now + f.startDelay, r);
  }

  /** A batch, whatever befalls its items, is a run of the protocol, and each id it hands out is the return of a call in it. */
  lemma {:induction false} BatchIsARun(cfg: Config, s: State, apps: seq<Request>, fates: nat -> Fate, cancelFrom: nat, n: nat)
    returns (steps: seq<Step>)
    requires n <= |apps|
    ensures var (w, items) := Fold(cfg, WorldOf(s), apps, fates, cancelFrom, n);
            var t := Run(cfg, s, steps);
            WorldOf(t) == w && ItemsReturned(t, apps, items)
  {
    hide Submit, ItemReturned, Next, WorldOf, ToItem;
    if n == 0 {
      steps := [];
    } else {
      steps := BatchIsARun(cfg, s, apps, fates, cancelFrom, n - 1);
      var items := Fold(cfg, WorldOf(s), apps, fates, cancelFrom, n - 1).1;
      var t := Run(cfg, s, steps);
      if n - 1 < cancelFrom {
        var more := OneMoreItem(cfg, t, apps, items, fates(n - 1));
        RunAppend(cfg, s, steps, more);
        steps := steps + more;
      } else {
        CancelledItem(t, apps[n - 1]);
      }
    }
  }

  lemma NewItemReturned(cfg: Config, s: State, t: State, req: Request, began: int, r: SubmitResult)
    requires NewCallReturned(cfg, s, t, req, began, r)
    ensures ItemReturned(t, req, ToItem(r))
  {
    assert t.calls[|s.calls|].req == req;
  }

  lemma CancelledItem(s: State, req: Request)
    ensures ItemReturned(s, req, ErrorMessage(ContextDone))
  {
  }

  /**
   Whatever happens during a batch (faults, expiry, cancellation), on any state the protocol can reach:
   afterwards each id it returned is found by GetApplicationStatus for that item's trimmed user id.
   */
  lemma {:induction false} BatchIdsReadBack(p: Platform, ttl: int, start: int, before: seq<Step>, apps: seq<Request>, fates: nat -> Fate, cancelFrom: nat, i: nat)
    requires DedupKey.FixedWidth(p.sha256) && i < |apps|
    requires var s := Run(IntakeConfig(p, ttl), Init(start), before);
             Fold(IntakeConfig(p, ttl), WorldOf(s), apps, fates, cancelFrom, |apps|).1[i].ApplicationId?
    ensures var s := Run(IntakeConfig(p, ttl), Init(start), before);
            var (w, items) := Fold(IntakeConfig(p, ttl), WorldOf(s), apps, fates, cancelFrom, |apps|);
            var found := GetApplicationStatus(w.tables, items[i].id, TrimSpace(apps[i].userId));
            found.Ok? && found.value.id == items[i].id && found.value.userID == TrimSpace(apps[i].userId)
  {
    hide Fold, Run, Prepare, TrimSpace, DedupKey.Key, GetApplicationStatus;
    var cfg := IntakeConfig(p, ttl);
    var s := Run(cfg, Init(start), before);
    var (w, items) := Fold(cfg, WorldOf(s), apps, fates, cancelFrom, |apps|);
    var steps := BatchIsARun(cfg, s, apps, fates, cancelFrom, |apps|);
    var t := Run(cfg, s, steps);
    RunAppend(cfg, Init(start), before, steps);
    assert ItemReturned(t, apps[i], items[i]);
    assert items[i].ApplicationId?;
    var c: nat :| c < |t.calls| && t.calls[c].req == apps[i] && t.calls[c].pc == Returned(Ok(items[i].id));
    ReturnedIdReadsBack(p, ttl, start, before + steps, c, "");
    StatusIsOwn(t.tables, items[i].id, TrimSpace(apps[i].userId));
  }

  lemma StatusIsOwn(t: Repo.Tables, id: string, user: string)
    ensures var found := GetApplicationStatus(t, id, user);
            found.Ok? ==> found.value.userID == user
  {
    hide ParseUuid, UuidToString;
  }
}
