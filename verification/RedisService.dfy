/** The shared expiring key-value store.  Time is in milliseconds; Redis expiry is given in whole seconds. */
module RedisService {
  import opened Wrappers

  datatype Item = Item(value: string, expiresAt: nat)

  type Store = map<string, Item>

  predicate Live(store: Store, key: string, now: nat) {
    key in store && now < store[key].expiresAt
  }

  function Read(store: Store, key: string, now: nat): Option<string> {
    if Live(store, key, now) then Some(store[key].value) else None
  }

  function Write(store: Store, key: string, value: string, ttlSeconds: nat, now: nat): Store {
    store[key := Item(value, now + ttlSeconds * 1000)]
  }

  /** `Math.ceil(ttlMs / 1000)`. */
  function CeilSeconds(ms: int): (s: int)
    ensures s * 1000 >= ms > (s - 1) * 1000
  {
    (ms + 999) / 1000
  }

  function BlacklistKey(jti: string): string {
    "bl:" + jti
  }

  function ActiveKey(userId: string): string {
    "active:" + userId
  }

  /** A time to live that is not positive is ignored. */
  function Blacklisted(store: Store, jti: string, ttlMs: int, now: nat): Store {
    if ttlMs <= 0 then store else Write(store, BlacklistKey(jti), "1", CeilSeconds(ttlMs), now)
  }

  predicate IsBlacklisted(store: Store, jti: string, now: nat) {
    Read(store, BlacklistKey(jti), now).Some?
  }

  const ACTIVE_TTL_SECONDS := 30

  function CacheActive(store: Store, userId: string, isActive: bool, now: nat): Store {
    Write(store, ActiveKey(userId), if isActive then "1" else "0", ACTIVE_TTL_SECONDS, now)
  }

  function CachedActive(store: Store, userId: string, now: nat): Option<bool> {
    match Read(store, ActiveKey(userId), now)
    case None => None
    case Some(value) => Some(value == "1")
  }

  /** A value is read back exactly while it lives, a deleted one not at all, and neither touches another key. */
  lemma ReadBack(store: Store, key: string, value: string, ttlSeconds: nat, now: nat, other: string, later: nat)
    ensures Read(Write(store, key, value, ttlSeconds, now), other, later) ==
      if other != key then Read(store, other, later)
      else if later < now + ttlSeconds * 1000 then Some(value) else None
    ensures Read(store - {key}, other, later) == if other == key then None else Read(store, other, later)
  {
  }

  /** The name spaces do not collide, and inside one every owner has his own key. */
  lemma KeysAreSeparate(a: string, b: string)
    ensures BlacklistKey(a) != ActiveKey(b)
    ensures BlacklistKey(a) == BlacklistKey(b) <==> a == b
    ensures ActiveKey(a) == ActiveKey(b) <==> a == b
  {
    assert BlacklistKey(a)[0] == 'b' && ActiveKey(b)[0] == 'a';
    assert BlacklistKey(a)[3..] == a && BlacklistKey(b)[3..] == b;
    assert ActiveKey(a)[7..] == a && ActiveKey(b)[7..] == b;
  }

  class RedisService {
    var store: Store

    constructor ()
      ensures store == map[]
    {
      store := map[];
    }

    /** Redis refuses an expiry that is not positive, and the call throws. */
    method Set(key: string, value: string, ttlMs: int, now: nat) returns (ok: bool)
      modifies this
      ensures ok <==> ttlMs > 0
      ensures store == if ok then Write(old(store), key, value, CeilSeconds(ttlMs), now) else old(store)
    {
      var ttlSeconds := CeilSeconds(ttlMs);
      ok := ttlSeconds > 0;
      if ok { store := Write(store, key, value, ttlSeconds, now); }
    }

    method Get(key: string, now: nat) returns (value: Option<string>)
      ensures value == Read(store, key, now)
    {
      value := Read(store, key, now);
    }

    method Del(key: string)
      modifies this
      ensures store == old(store) - {key}
    {
      store := store - {key};
    }

    method Blacklist(jti: string, ttlMs: int, now: nat)
      modifies this
      ensures store == Blacklisted(old(store), jti, ttlMs, now)
    {
      if ttlMs <= 0 { return; }
      var ok := Set(BlacklistKey(jti), "1", ttlMs, now);
    }

    method CacheActiveStatus(userId: string, isActive: bool, now: nat)
      modifies this
      ensures store == CacheActive(old(store), userId, isActive, now)
    {
      var ok := Set(ActiveKey(userId), if isActive then "1" else "0", ACTIVE_TTL_SECONDS * 1000, now);
    }

    method GetCachedActiveStatus(userId: string, now: nat) returns (status: Option<bool>)
      ensures status == CachedActive(store, userId, now)
    {
      var value := Get(ActiveKey(userId), now);
      status := if value.None? then None else Some(value.value == "1");
    }

    method InvalidateActiveStatus(userId: string)
      modifies this
      ensures store == old(store) - {ActiveKey(userId)}
    {
      Del(ActiveKey(userId));
    }
  }
}
