/** The Redis deduper: one string per key with an expiry time, and the four calls made on it. */
module Dedup {
  import opened Prelude
  import Canonical
  import DedupKey
  import Uuid

  // Times and durations are in nanoseconds.
  const SECOND: int := 1_000_000_000
  const PENDING_TTL: int := 30 * SECOND

  const PENDING_SENTINEL := "__pending__"

  datatype Entry = Entry(value: string, expires: int)

  type Store = map<string, Entry>

  /** How a call ends: acknowledged, or with an error, after the server applied it or without. */
  datatype Fault = Done | Failed(applied: bool)

  predicate Applied(f: Fault) {
    f.Done? || f.applied
  }

  // ---- Redis commands ----

  /** GET: an entry is gone from the moment it expires. */
  function Get(store: Store, key: string, now: int): Option<string> {
    if key in store && now < store[key].expires then Some(store[key].value) else None
  }

  function SetNX(store: Store, key: string, value: string, ttl: int, now: int): Store {
    if Get(store, key, now).None? then store[key := Entry(value, now + ttl)] else store
  }

  function Set(store: Store, key: string, value: string, ttl: int, now: int): Store {
    store[key := Entry(value, now + ttl)]
  }

  function Del(store: Store, key: string): Store {
    store - {key}
  }

  /** The committed id under a key; a pending sentinel counts as a miss. */
  function CheckHit(store: Store, key: string, now: int): Option<string> {
    var v := Get(store, key, now);
    if v == Some(PENDING_SENTINEL) then None else v
  }

  /** A UUID's text is never the sentinel: the lengths differ. */
  lemma IdIsNotSentinel(id: Uuid.Uuid)
    ensures Uuid.UuidToString(id) != PENDING_SENTINEL
  {
    assert |PENDING_SENTINEL| == 11;
  }

  datatype RedisError = RedisError

  class RedisDeduper {
    const platform: Canonical.Platform
    const ttl: int
    var store: Store

    constructor (platform: Canonical.Platform, ttl: int)
      ensures this.platform == platform && this.ttl == ttl && store == map[]
    {
      this.platform := platform;
      this.ttl := ttl;
      store := map[];
    }

    /** `Ok(None)` is a miss, `Ok(Some(id))` a hit. */
    method Check(userID: string, company: string, jobTitle: string, now: int, fault: Fault)
      returns (r: Result<Option<string>, RedisError>)
      ensures fault.Done? ==> r == Ok(CheckHit(store, DedupKey.Key(platform, userID, company, jobTitle), now))
      ensures fault.Failed? ==> r == Err(RedisError)
    {
      if fault.Failed? {
        return Err(RedisError);
      }
      var val := Get(store, DedupKey.Key(platform, userID, company, jobTitle), now);
      if val.None? {
        return Ok(None);
      }
      if val.value == PENDING_SENTINEL {
        return Ok(None);
      }
      return Ok(Some(val.value));
    }

    method Claim(userID: string, company: string, jobTitle: string, now: int, fault: Fault)
      returns (r: Result<bool, RedisError>)
      modifies this
      ensures var key := DedupKey.Key(platform, userID, company, jobTitle);
              && store == (if Applied(fault) then SetNX(old(store), key, PENDING_SENTINEL, PENDING_TTL, now) else old(store))
              && r == (if fault.Done? then Ok(Get(old(store), key, now).None?) else Err(RedisError))
      ensures r == Ok(false) ==> store == old(store)
    {
      var key := DedupKey.Key(platform, userID, company, jobTitle);
      var free := Get(store, key, now).None?;
      if Applied(fault) {
        store := SetNX(store, key, PENDING_SENTINEL, PENDING_TTL, now);
      }
      r := if fault.Done? then Ok(free) else Err(RedisError);
    }

    method SetId(userID: string, company: string, jobTitle: string, applicationID: string, now: int, fault: Fault)
      modifies this
      ensures var key := DedupKey.Key(platform, userID, company, jobTitle);
              store == if Applied(fault) then Set(old(store), key, applicationID, ttl, now) else old(store)
    {
      if Applied(fault) {
        store := Set(store, DedupKey.Key(platform, userID, company, jobTitle), applicationID, ttl, now);
      }
    }

    method Release(userID: string, company: string, jobTitle: string, fault: Fault)
      modifies this
      ensures var key := DedupKey.Key(platform, userID, company, jobTitle);
              store == if Applied(fault) then Del(old(store), key) else old(store)
    {
      if Applied(fault) {
        store := Del(store, DedupKey.Key(platform, userID, company, jobTitle));
      }
    }
  }
}
