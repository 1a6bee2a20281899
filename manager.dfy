/**
 * The lock-key manager: the module-level state of the library (the lock-key cache, the
 * identity registry and its storage record, the current abort token and its link to an
 * external signal, the configured cache lifetime and storage type) as one object, and the
 * operations that change it, getLockKey's state machine first among them.
 */
module Manager {
  import opened Wrappers
  import opened Foreign
  import opened LockKeys
  import opened Registry
  import opened KeyCache
  import opened ManagerTypes
  import opened LockKeyFlow

  class LockKeyManager {
    const prims: Primitives
    /** MAX_LOCK_KEY_CACHE_LIFETIME */
    var maxLifetime: nat
    /** DEFAULT_STORAGE_TYPE */
    var storageType: string
    /** The value stored under "local-identities"; None when the key is absent. */
    var persisted: Option<StoredIdentities>
    /** Whether `localIdentities` has been loaded (it starts out null). */
    var loaded: bool
    /** localIdentities */
    var identities: Identities
    /** lockKeyCache */
    var cache: Cache
    /** abortToken: the current AbortController, if any. */
    var abortToken: Option<Token>
    /** How many AbortControllers have been created; the next one gets this number. */
    var nextToken: Token
    /** The reason each aborted AbortController was aborted with. */
    var abortReasons: map<Token, string>
    /** externalSignalCache: token -> the external signal its handler listens to. */
    var links: map<Token, SignalId>

    /** Token numbers are issued in order; only the current token can hold a link to an
        external signal (so at most one handler is attached); every registry identity has
        a passkey. */
    ghost predicate Valid()
      reads this
    {
      && (abortToken.Some? ==> abortToken.value < nextToken)
      && (forall t :: t in abortReasons ==> t < nextToken)
      && (forall t :: t in links ==> abortToken == Some(t))
      && EveryIdentityHasPasskey(identities)
    }

    /** The registry as the next checkStorage() will leave it. */
    function LoadedIdentities(): Identities
      reads this
    {
      if loaded then identities else LoadLocalIdentities(prims, persisted)
    }

    /** A ceremony was begun with resetAbortToken(signal) and settled: its token is
        released and no handler is left attached. */
    twostate predicate CeremonySettled(signal: Option<ExternalSignal>)
      reads this
    {
      && nextToken == old(nextToken) + 1
      && abortReasons == ReasonsAfterReset(old(abortToken), old(abortReasons), old(nextToken), signal)
      && abortToken.None? && links == map[]
    }

    /** A ceremony was begun and the call threw before the cleanup: the new token stays
        current, with its handler still attached. */
    twostate predicate CeremonyAbandoned(signal: Option<ExternalSignal>)
      reads this
    {
      && nextToken == old(nextToken) + 1
      && abortReasons == ReasonsAfterReset(old(abortToken), old(abortReasons), old(nextToken), signal)
      && abortToken == Some(old(nextToken))
      && links == LinksAfterReset(signal, old(nextToken))
    }

    twostate predicate TokensUnchanged()
      reads this
    {
      && abortToken == old(abortToken) && nextToken == old(nextToken)
      && abortReasons == old(abortReasons) && links == old(links)
    }

    /** The module's state when it is first imported, with `stored` already in storage. */
    constructor (prims: Primitives, stored: Option<StoredIdentities>)
      ensures Valid()
      ensures this.prims == prims && persisted == stored && !loaded && identities == map[]
      ensures maxLifetime == DEFAULT_MAX_LIFETIME_MS && storageType == DEFAULT_STORAGE_TYPE
      ensures cache == map[] && abortToken.None? && nextToken == 0
      ensures abortReasons == map[] && links == map[]
    {
      this.prims := prims;
      maxLifetime := DEFAULT_MAX_LIFETIME_MS;
      storageType := DEFAULT_STORAGE_TYPE;
      persisted := stored;
      loaded := false;
      identities := map[];
      cache := map[];
      abortToken := None;
      nextToken := 0;
      abortReasons := map[];
      links := map[];
    }

    // ------------------------------------------------------------ registry

    /** checkStorage: load the registry the first time it is needed. */
    method CheckStorage()
      requires Valid()
      modifies this`loaded, this`identities
      ensures Valid() && loaded
      ensures identities == old(LoadedIdentities())
      ensures old(loaded) ==> identities == old(identities)
    {
      if !loaded {
        identities := LoadLocalIdentities(prims, persisted);
        loaded := true;
      }
    }

    /** storeLocalIdentities */
    method StoreLocalIdentities()
      requires Valid()
      modifies this`loaded, this`identities, this`persisted
      ensures Valid() && loaded
      ensures identities == old(LoadedIdentities())
      ensures old(loaded) ==> identities == old(identities)
      ensures persisted == StoredRecord(prims, identities)
    {
      CheckStorage();
      persisted := StoredRecord(prims, identities);
    }

    /** storeLocalIdentities once the registry is loaded, when its checkStorage() does nothing. */
    method Persist()
      requires loaded
      modifies this`persisted
      ensures persisted == StoredRecord(prims, identities)
    {
      persisted := StoredRecord(prims, identities);
    }

    /** listLocalIdentities */
    method ListLocalIdentities() returns (ids: set<string>)
      requires Valid()
      modifies this`loaded, this`identities
      ensures Valid() && loaded
      ensures identities == old(LoadedIdentities())
      ensures ids == identities.Keys
    {
      CheckStorage();
      ids := identities.Keys;
    }

    /** removeLocalAccount: forget the identity and its cached key, then persist. */
    method RemoveLocalAccount(localID: string)
      requires Valid()
      modifies this`loaded, this`identities, this`cache, this`persisted
      ensures Valid() && loaded
      ensures cache == old(cache) - {localID}
      ensures identities == old(LoadedIdentities()) - {localID}
      ensures persisted == StoredRecord(prims, identities)
    {
      CheckStorage();
      cache := cache - {localID};
      identities := identities - {localID};
      Persist();
    }

    /** configureStorage */
    method ConfigureStorage(requested: string) returns (r: Result<string, Failure>)
      modifies this`storageType
      ensures r == CheckStorageType(requested)
      ensures storageType == if r.Ok? then requested else old(storageType)
    {
      r := CheckStorageType(requested);
      if r.Ok? {
        storageType := requested;
      }
    }

    // ------------------------------------------------------------ cache

    /** getCachedLockKey */
    method GetCachedLockKey(localID: string, now: int) returns (lockKey: Option<LockKey>)
      ensures lockKey == CachedLockKey(cache, localID, now, maxLifetime)
    {
      lockKey := CachedLockKey(cache, localID, now, maxLifetime);
    }

    /** cacheLockKey */
    method CacheLockKey(localID: string, lockKey: LockKey, now: int, forceUpdate: bool)
      modifies this`cache
      ensures cache == CachePut(old(cache), localID, lockKey, now, forceUpdate)
    {
      cache := CachePut(cache, localID, lockKey, now, forceUpdate);
    }

    /** clearLockKeyCache */
    method ClearLockKeyCache(localID: Option<string>)
      modifies this`cache
      ensures cache == CacheClear(old(cache), localID)
    {
      cache := CacheClear(cache, localID);
    }

    /** setMaxLockKeyCacheLifetime */
    method SetMaxLockKeyCacheLifetime(arg: LifetimeArg) returns (ms: nat)
      modifies this`maxLifetime
      ensures ms == MaxLifetimeFrom(arg) && maxLifetime == ms
    {
      ms := MaxLifetimeFrom(arg);
      maxLifetime := ms;
    }

    // ------------------------------------------------------------ abort token

    /** cleanupExternalSignalHandler: detach the token's handler, if it has one. */
    method CleanupExternalSignalHandler(token: Option<Token>)
      requires Valid()
      modifies this`links
      ensures Valid()
      ensures links == if token.Some? then old(links) - {token.value} else old(links)
      ensures token.None? || token.value !in old(links) ==> links == old(links)
    {
      if token.Some? && token.value in links {
        var t := token.value;
        links := links - {t};
      }
    }

    /** resetAbortToken: abandon the previous token, start a new one, chain it to the
        external signal. */
    method ResetAbortToken(signal: Option<ExternalSignal>)
      requires Valid()
      modifies this`abortToken, this`nextToken, this`abortReasons, this`links
      ensures Valid()
      ensures abortToken == Some(old(nextToken)) && nextToken == old(nextToken) + 1
      ensures abortReasons == ReasonsAfterReset(old(abortToken), old(abortReasons), old(nextToken), signal)
      ensures links == LinksAfterReset(signal, old(nextToken))
    {
      if abortToken.Some? {
        CleanupExternalSignalHandler(abortToken);
        if abortToken.value !in abortReasons {
          abortReasons := abortReasons[abortToken.value := ABANDONED_REASON];
        }
      }
      assert links == map[];
      var t := nextToken;
      nextToken := nextToken + 1;
      abortToken := Some(t);
      if signal.Some? {
        if signal.value.aborted {
          abortReasons := abortReasons[t := signal.value.reason];
        } else {
          links := links[t := signal.value.id];
        }
      }
    }

    /** `cleanupExternalSignalHandler(abortToken); abortToken = null;` after a ceremony. */
    method EndCeremony()
      requires Valid()
      modifies this`abortToken, this`links
      ensures Valid()
      ensures abortToken.None? && links == map[]
    {
      CleanupExternalSignalHandler(abortToken);
      abortToken := None;
    }

    // ------------------------------------------------------------ getLockKey

    /** getLockKey: load the registry, resolve the local ID, take the branch its state and
        the options select, around that branch's ceremony start a fresh abort token and
        (unless an exception escapes first) release it, then leave the registry, cache and
        storage as the branch decides. `matching` is the registered identity, if any, that
        holds the credential an authentication answered with, as Object.entries finds it. */
    method GetLockKey(req: Request, w: World) returns (outcome: Outcome, ghost registry: Identities, ghost matching: Option<string>)
      requires Valid()
      modifies this`loaded, this`identities, this`cache, this`persisted, this`abortToken, this`nextToken, this`abortReasons, this`links
      ensures registry == old(LoadedIdentities())
      ensures Valid() && loaded
      ensures w.authentication.Completed? ==> EntriesMatch(registry, w.authentication.result.credentialID, matching)
      ensures var e := GetLockKeyStep(prims, registry, old(cache), maxLifetime, req, w, matching);
              && outcome == e.outcome && identities == e.identities && cache == e.cache
              && persisted == (if e.store then StoredRecord(prims, identities) else old(persisted))
              && (!e.ceremony ==> TokensUnchanged())
              && (e.ceremony && e.settled ==> CeremonySettled(req.signal))
              && (e.ceremony && !e.settled ==> CeremonyAbandoned(req.signal))
    {
      CheckStorage();
      registry := identities;
      outcome, matching := GetLockKeyLoaded(req, w);
    }

    /** getLockKey once checkStorage() has loaded the registry. */
    method GetLockKeyLoaded(req: Request, w: World) returns (outcome: Outcome, ghost matching: Option<string>)
      requires Valid() && loaded
      modifies this`identities, this`cache, this`persisted, this`abortToken, this`nextToken, this`abortReasons, this`links
      ensures Valid() && loaded
      ensures w.authentication.Completed? ==> EntriesMatch(old(identities), w.authentication.result.credentialID, matching)
      ensures var e := GetLockKeyStep(prims, old(identities), old(cache), maxLifetime, req, w, matching);
              && outcome == e.outcome && identities == e.identities && cache == e.cache
              && persisted == (if e.store then StoredRecord(prims, identities) else old(persisted))
              && (!e.ceremony ==> TokensUnchanged())
              && (e.ceremony && e.settled ==> CeremonySettled(req.signal))
              && (e.ceremony && !e.settled ==> CeremonyAbandoned(req.signal))
    {
      var found: Option<string> := None;
      if w.authentication.Completed? {
        var credentialID := w.authentication.result.credentialID;
        if exists id :: id in identities && HasCredential(identities[id], credentialID) {
          var id :| id in identities && HasCredential(identities[id], credentialID);
          found := Some(id);
        }
      }
      matching := found;
      var e := GetLockKeyStep(prims, identities, cache, maxLifetime, req, w, found);
      OnlyResolvedIdentityChanges(prims, identities, cache, maxLifetime, req, w, found);
      Apply(e, req.signal);
      outcome := e.outcome;
    }

    /** The state changes of one getLockKey branch, in the order the code makes them. */
    method Apply(e: Effects, signal: Option<ExternalSignal>)
      requires Valid() && loaded && EveryIdentityHasPasskey(e.identities)
      modifies this`identities, this`cache, this`persisted, this`abortToken, this`nextToken, this`abortReasons, this`links
      ensures Valid() && loaded
      ensures identities == e.identities && cache == e.cache
      ensures persisted == if e.store then StoredRecord(prims, identities) else old(persisted)
      ensures !e.ceremony ==> TokensUnchanged()
      ensures e.ceremony && e.settled ==> CeremonySettled(signal)
      ensures e.ceremony && !e.settled ==> CeremonyAbandoned(signal)
    {
      if e.ceremony {
        ResetAbortToken(signal);
        if e.settled {
          EndCeremony();
        }
      }
      identities := e.identities;
      cache := e.cache;
      if e.store {
        Persist();
      }
    }
  }
}
