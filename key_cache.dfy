/**
 * The lock-key cache as a value: a map from local ID to lock-key plus the instant it was
 * cached, with the freshness test, insertion, clearing, and the configured lifetime.
 */
module KeyCache {
  import opened Wrappers
  import opened LockKeys

  datatype CacheEntry = CacheEntry(lockKey: LockKey, timestamp: int)

  type Cache = map<string, CacheEntry>

  /** 30 minutes, in milliseconds: the lifetime when none is given. */
  const DEFAULT_MAX_LIFETIME_MS: nat := 30 * 60 * 1000

  function Min(a: int, b: int): int {
    if a <= b then a else b
  }

  /** The freshness test of getCachedLockKey: the window is clamped by `now` itself. */
  predicate IsFresh(entry: CacheEntry, now: int, maxLifetime: nat) {
    entry.timestamp >= now - Min(maxLifetime, now)
  }

  /** getCachedLockKey: the cached lock-key, without its timestamp, while it is fresh. */
  function CachedLockKey(cache: Cache, localID: string, now: int, maxLifetime: nat): (r: Option<LockKey>)
    ensures r.Some? <==> localID in cache && cache[localID].timestamp >= now - Min(maxLifetime, now)
    ensures r.Some? ==> r.value == cache[localID].lockKey
  {
    if localID in cache && IsFresh(cache[localID], now, maxLifetime) then Some(cache[localID].lockKey)
    else None
  }

  /** cacheLockKey: insert stamped with `now`, but leave an existing entry alone unless forced. */
  function CachePut(cache: Cache, localID: string, lockKey: LockKey, now: int, forceUpdate: bool): (r: Cache)
    ensures r.Keys == cache.Keys + {localID}
    ensures forall other :: other in cache && other != localID ==> r[other] == cache[other]
    ensures localID in cache && !forceUpdate ==> r[localID] == cache[localID]
    ensures localID !in cache || forceUpdate ==> r[localID] == CacheEntry(lockKey, now)
  {
    if localID !in cache || forceUpdate then cache[localID := CacheEntry(lockKey, now)] else cache
  }

  /** clearLockKeyCache: drop one entry, or (no ID given) all of them. */
  function CacheClear(cache: Cache, localID: Option<string>): (r: Cache)
    ensures localID.None? ==> r == map[]
    ensures localID.Some? ==> r.Keys == cache.Keys - {localID.value}
    ensures forall other :: other in r ==> other in cache && r[other] == cache[other]
  {
    if localID.Some? then cache - {localID.value} else map[]
  }

  /** The freshness window: once the clock has passed the lifetime, an entry is fresh for
      exactly `maxLifetime` milliseconds, both ends included; before that, any entry stamped
      at or after the epoch is fresh. */
  lemma FreshnessWindow(entry: CacheEntry, now: int, maxLifetime: nat)
    ensures now >= maxLifetime ==> (IsFresh(entry, now, maxLifetime) <==> now - entry.timestamp <= maxLifetime)
    ensures now < maxLifetime ==> (IsFresh(entry, now, maxLifetime) <==> entry.timestamp >= 0)
  {
  }

  /** An entry cached at `t0` is still returned at `t0 + maxLifetime` and gone one
      millisecond later. */
  lemma ExpiresAfterLifetime(cache: Cache, localID: string, lockKey: LockKey, t0: nat, maxLifetime: nat)
    requires localID !in cache
    ensures CachedLockKey(CachePut(cache, localID, lockKey, t0, false), localID, t0 + maxLifetime, maxLifetime) == Some(lockKey)
    ensures CachedLockKey(CachePut(cache, localID, lockKey, t0, false), localID, t0 + maxLifetime + 1, maxLifetime) == None
  {
    var c := CachePut(cache, localID, lockKey, t0, false);
    assert c[localID] == CacheEntry(lockKey, t0);
  }

  /** A key just stored is what a lookup at the same instant returns. */
  lemma LookupAfterPut(cache: Cache, localID: string, lockKey: LockKey, now: nat, maxLifetime: nat, forceUpdate: bool)
    requires localID !in cache || forceUpdate
    ensures CachedLockKey(CachePut(cache, localID, lockKey, now, forceUpdate), localID, now, maxLifetime) == Some(lockKey)
  {
    var c := CachePut(cache, localID, lockKey, now, forceUpdate);
    assert c[localID] == CacheEntry(lockKey, now);
  }

  /** What setMaxLockKeyCacheLifetime is given: nothing (the default applies), a value
      Number() turns into an integer, or one it turns into NaN. */
  datatype LifetimeArg = Omitted | Numeric(ms: int) | NotANumber

  /** `Math.max(0, Number(ms) || 0)`. */
  function MaxLifetimeFrom(arg: LifetimeArg): (ms: nat)
    ensures arg.Omitted? ==> ms == DEFAULT_MAX_LIFETIME_MS
    ensures arg.NotANumber? ==> ms == 0
    ensures arg.Numeric? ==> (ms == arg.ms || (arg.ms < 0 && ms == 0))
  {
    match arg
    case Omitted => DEFAULT_MAX_LIFETIME_MS
    case NotANumber => 0
    case Numeric(n) => if n > 0 then n else 0
  }

  /** A lifetime that Number() cannot read, or one not above zero, leaves only the entries
      stamped at the current instant or later fresh (the clock being past the epoch). */
  lemma NonPositiveLifetimeOnlyNow(cache: Cache, localID: string, now: int, arg: LifetimeArg)
    requires now >= 0
    requires arg.NotANumber? || (arg.Numeric? && arg.ms <= 0)
    ensures CachedLockKey(cache, localID, now, MaxLifetimeFrom(arg)).Some?
            <==> localID in cache && cache[localID].timestamp >= now
  {
  }
}
