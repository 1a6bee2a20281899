/**
 * getLockKey's decisions as values: for each branch, what the call settles with, the
 * registry and lock-key cache it leaves, whether it writes the registry back to storage,
 * whether it starts an abort token, and whether the cleanup after the ceremony runs (it
 * is skipped when an exception escapes before it, for there is no try/finally).
 */
module LockKeyFlow {
  import opened Wrappers
  import opened Foreign
  import opened LockKeys
  import opened Registry
  import opened KeyCache
  import opened ManagerTypes

  /** The effects of one getLockKey call, apart from the abort-token bookkeeping itself. */
  datatype Effects = Effects(
    outcome: Outcome,
    identities: Identities,
    cache: Cache,
    /** storeLocalIdentities() is called. */
    store: bool,
    /** resetAbortToken() is called. */
    ceremony: bool,
    /** The `cleanupExternalSignalHandler(abortToken); abortToken = null;` after it runs. */
    settled: bool,
    /** The user handle passed to the registration ceremony, when one is started. */
    handle: Option<Bytes>)

  /** Every registered identity has at least one passkey (loading drops any that has none). */
  ghost predicate EveryIdentityHasPasskey(identities: Identities) {
    forall id :: id in identities ==> |identities[id].passkeys| > 0
  }

  /** No identity but `localID` is added, removed or changed. */
  ghost predicate OthersUnchanged(before: Identities, after: Identities, localID: string) {
    forall id :: id != localID ==> (id in after <==> id in before) && (id in before ==> after[id] == before[id])
  }

  /** The identity `Object.entries(localIdentities).find(...)` picks for a credential: one
      holding a passkey with that credential ID, or none when no identity holds one. */
  ghost predicate EntriesMatch(identities: Identities, credentialID: string, matching: Option<string>) {
    match matching
    case Some(m) => m in identities && HasCredential(identities[m], credentialID)
    case None => forall id :: id in identities ==> !HasCredential(identities[id], credentialID)
  }

  /** The cached-key branch with addNewPasskey: register one more passkey with the cached
      key, append it to the identity, store; return the cached key. */
  function AddPasskeyStep(p: Primitives, identities: Identities, cache: Cache, localID: string,
                          lockKey: LockKey, reg: Ceremony<RegResult>): (e: Effects)
    requires localID in identities
    ensures e.ceremony && e.cache == cache
    ensures e.settled <==> lockKey.iv.Some? && !reg.Threw?
    ensures e.outcome == if e.settled then Key(lockKey, localID) else Failed(RegistrationFailed)
    ensures e.store <==> lockKey.iv.Some? && reg.Completed?
    ensures !e.store ==> e.identities == identities
    ensures e.store ==>
              var before := identities[localID];
              && OthersUnchanged(identities, e.identities, localID)
              && localID in e.identities
              && e.identities[localID].lastSeq == before.lastSeq + 1
              && e.identities[localID].passkeys
                 == before.passkeys + [BuildPasskeyEntry(p, before.lastSeq + 1, reg.result.credentialID, reg.result.publicKey)]
    ensures e.handle.Some? <==> lockKey.iv.Some?
    ensures e.handle.Some? ==> e.handle.value == UserHandle(lockKey.iv.value, identities[localID].lastSeq + 1)
  {
    var handle := RegistrationHandle(identities, localID, lockKey);
    match Registration(p, identities, localID, lockKey, reg)
    case Err(f) => Effects(Failed(f), identities, cache, false, true, false, handle)
    case Ok(None) => Effects(Key(lockKey, localID), identities, cache, false, true, true, handle)
    case Ok(Some(record)) =>
      var merged := Identity(record.lastSeq, identities[localID].passkeys + record.passkeys);
      Effects(Key(lockKey, localID), identities[localID := merged], cache, true, true, true, handle)
  }

  /** The reset branch: the cache entry is dropped, a new (or imported and checked) lock-key
      is registered, and the new one-passkey record replaces the identity; a dismissed
      registration leaves the identity removed from memory but not from storage. */
  function ResetStep(p: Primitives, identities: Identities, cache: Cache, localID: string,
                     req: Request, w: World): (e: Effects)
    requires localID in identities
    ensures e.ceremony
    ensures var key := ImportedOrFresh(p, req, w);
            && (key.Err? ==> e.outcome == Failed(UnrecognizedLockKey))
            && (key.Ok? && (key.value.iv.None? || w.registration.Threw?) ==> e.outcome == Failed(RegistrationFailed))
            && (e.settled <==> key.Ok? && key.value.iv.Some? && !w.registration.Threw?)
            && (e.outcome.Key? <==> e.settled && w.registration.Completed?)
            && (e.outcome.Key? ==>
                  && e.outcome == Key(key.value, localID)
                  && localID in e.identities
                  && e.identities[localID]
                     == Identity(identities[localID].lastSeq + 1,
                                 [BuildPasskeyEntry(p, identities[localID].lastSeq + 1,
                                                    w.registration.result.credentialID,
                                                    w.registration.result.publicKey)])
                  && e.cache == (cache - {localID})[localID := CacheEntry(key.value, w.now)])
    ensures e.outcome == NoKey <==> e.settled && w.registration.NoResult?
    ensures e.outcome == NoKey ==> e.identities == identities - {localID}
    ensures !e.settled ==> e.identities == identities
    ensures !e.outcome.Key? ==> e.cache == cache - {localID}
    ensures e.store <==> e.outcome.Key?
    ensures OthersUnchanged(identities, e.identities, localID)
    ensures var key := ImportedOrFresh(p, req, w);
            && (e.handle.Some? <==> key.Ok? && key.value.iv.Some?)
            && (e.handle.Some? ==> e.handle.value == UserHandle(key.value.iv.value, identities[localID].lastSeq + 1))
  {
    var cleared := cache - {localID};
    match ImportedOrFresh(p, req, w)
    case Err(f) => Effects(Failed(f), identities, cleared, false, true, false, None)
    case Ok(lockKey) =>
      var handle := RegistrationHandle(identities, localID, lockKey);
      match Registration(p, identities, localID, lockKey, w.registration)
      case Err(f) => Effects(Failed(f), identities, cleared, false, true, false, handle)
      case Ok(None) => Effects(NoKey, identities - {localID}, cleared, false, true, true, handle)
      case Ok(Some(record)) =>
        Effects(Key(lockKey, localID), identities[localID := record],
                CachePut(cleared, localID, lockKey, w.now, false), true, true, true, handle)
  }

  /** The restricted-authentication branch: the cache entry is dropped, the identity's own
      passkeys are offered, the response is verified against the passkey it names (when
      asked to), and the key it carries is extracted and cached. */
  function RestrictedAuthStep(p: Primitives, identities: Identities, cache: Cache, localID: string,
                              verify: bool, w: World): (e: Effects)
    requires localID in identities
    ensures e.ceremony && e.identities == identities && !e.store
    ensures e.settled <==> !w.authentication.Threw?
    ensures w.authentication.Threw? ==> e.outcome == Failed(AuthCeremonyFailed)
    ensures w.authentication.NoResult? ==> e.outcome == NoKey
    ensures w.authentication.Completed? ==>
              var ar := w.authentication.result;
              var verified := !verify || AuthVerified(identities[localID], ar.credentialID, w.responseVerifies);
              var k := ExtractedLockKey(p, ar.userID);
              && (!verified ==> e.outcome == Failed(AuthVerificationFailed))
              && (verified && k.Err? ==> e.outcome == Failed(InvalidPasskeyInfo))
              && (verified && k.Ok? ==> e.outcome == Key(k.value, localID))
    ensures e.outcome.Key? ==> e.cache == (cache - {localID})[localID := CacheEntry(e.outcome.lockKey, w.now)]
    ensures !e.outcome.Key? ==> e.cache == cache - {localID}
    ensures e.handle.None?
  {
    var cleared := cache - {localID};
    match w.authentication
    case Threw => Effects(Failed(AuthCeremonyFailed), identities, cleared, false, true, false, None)
    case NoResult => Effects(NoKey, identities, cleared, false, true, true, None)
    case Completed(ar) =>
      if verify && !AuthVerified(identities[localID], ar.credentialID, w.responseVerifies) then
        Effects(Failed(AuthVerificationFailed), identities, cleared, false, true, true, None)
      else
        match ExtractedLockKey(p, ar.userID)
        case Err(f) => Effects(Failed(f), identities, cleared, false, true, true, None)
        case Ok(k) => Effects(Key(k, localID), identities, CachePut(cleared, localID, k, w.now, false), false, true, true, None)
  }

  /** The discoverable-authentication branch: any passkey may answer; its key is extracted
      and cached under the requested ID; when a registered identity holds the credential,
      that identity is adopted (the entry under the requested ID is dropped, the response is
      verified against the identity's passkey, the key is cached under the identity). */
  function DiscoverableStep(p: Primitives, identities: Identities, cache: Cache, localID: string,
                            verify: bool, w: World, matching: Option<string>): (e: Effects)
    requires localID !in identities
    requires w.authentication.Completed? ==> EntriesMatch(identities, w.authentication.result.credentialID, matching)
    ensures e.ceremony && e.identities == identities && !e.store
    ensures e.settled <==> !w.authentication.Threw?
    ensures w.authentication.Threw? ==> e.outcome == Failed(AuthCeremonyFailed) && e.cache == cache
    ensures w.authentication.NoResult? ==> e.outcome == NoKey && e.cache == cache
    ensures w.authentication.Completed? ==>
              var ar := w.authentication.result;
              var k := ExtractedLockKey(p, ar.userID);
              && (k.Err? ==> e.outcome == Failed(InvalidPasskeyInfo) && e.cache == cache)
              && (k.Ok? && matching.None? && verify ==>
                    e.outcome == Failed(UnverifiedUnrecognizedPasskey) && e.cache == cache[localID := CacheEntry(k.value, w.now)])
              && (k.Ok? && matching.None? && !verify ==>
                    e.outcome == Key(k.value, localID) && e.cache == cache[localID := CacheEntry(k.value, w.now)])
              && (k.Ok? && matching.Some? ==>
                    var m := matching.value;
                    if verify && !AuthVerified(identities[m], ar.credentialID, w.responseVerifies) then
                      e.outcome == Failed(AuthVerificationFailed) && e.cache == cache - {localID}
                    else
                      e.outcome == Key(k.value, m) && e.cache == (cache - {localID})[m := CacheEntry(k.value, w.now)])
    ensures e.handle.None?
  {
    match w.authentication
    case Threw => Effects(Failed(AuthCeremonyFailed), identities, cache, false, true, false, None)
    case NoResult => Effects(NoKey, identities, cache, false, true, true, None)
    case Completed(ar) =>
      match ExtractedLockKey(p, ar.userID)
      case Err(f) => Effects(Failed(f), identities, cache, false, true, true, None)
      case Ok(k) =>
        var extracted := CacheResolvedKey(cache, localID, k, w.now);
        match matching
        case Some(m) =>
          var cleared := extracted - {localID};
          assert cleared == cache - {localID};
          if verify && !AuthVerified(identities[m], ar.credentialID, w.responseVerifies) then
            Effects(Failed(AuthVerificationFailed), identities, cleared, false, true, true, None)
          else
            Effects(Key(k, m), identities, CacheResolvedKey(cleared, m, k, w.now), false, true, true, None)
        case None =>
          if verify then Effects(Failed(UnverifiedUnrecognizedPasskey), identities, extracted, false, true, true, None)
          else Effects(Key(k, localID), identities, extracted, false, true, true, None)
  }

  /** The first-registration branch: a new identity with one passkey at sequence 1, its key
      cached and the registry stored. */
  function FirstRegistrationStep(p: Primitives, identities: Identities, cache: Cache, localID: string,
                                 req: Request, w: World): (e: Effects)
    requires localID !in identities
    ensures e.ceremony
    ensures var key := ImportedOrFresh(p, req, w);
            && (key.Err? ==> e.outcome == Failed(UnrecognizedLockKey))
            && (key.Ok? && (key.value.iv.None? || w.registration.Threw?) ==> e.outcome == Failed(RegistrationFailed))
            && (e.settled <==> key.Ok? && key.value.iv.Some? && !w.registration.Threw?)
            && (e.outcome == NoKey <==> e.settled && w.registration.NoResult?)
            && (e.outcome.Key? <==> e.settled && w.registration.Completed?)
            && (e.outcome.Key? ==>
                  && e.outcome == Key(key.value, localID)
                  && e.identities
                     == identities[localID := Identity(1, [BuildPasskeyEntry(p, 1, w.registration.result.credentialID,
                                                                             w.registration.result.publicKey)])]
                  && e.cache == cache[localID := CacheEntry(key.value, w.now)])
    ensures !e.outcome.Key? ==> e.identities == identities && e.cache == cache
    ensures e.store <==> e.outcome.Key?
    ensures var key := ImportedOrFresh(p, req, w);
            && (e.handle.Some? <==> key.Ok? && key.value.iv.Some?)
            && (e.handle.Some? ==> e.handle.value == UserHandle(key.value.iv.value, 1))
  {
    match ImportedOrFresh(p, req, w)
    case Err(f) => Effects(Failed(f), identities, cache, false, true, false, None)
    case Ok(lockKey) =>
      var handle := RegistrationHandle(identities, localID, lockKey);
      match Registration(p, identities, localID, lockKey, w.registration)
      case Err(f) => Effects(Failed(f), identities, cache, false, true, false, handle)
      case Ok(None) => Effects(NoKey, identities, cache, false, true, true, handle)
      case Ok(Some(record)) =>
        Effects(Key(lockKey, localID), identities[localID := record],
                CacheResolvedKey(cache, localID, lockKey, w.now), true, true, true, handle)
  }

  // ---------------------------------------------------------------- the caching as written

  /** DiscoverableStep with the key cached through cacheLockKey's insert-if-absent, as the
      code has it: an entry already under the requested ID, or under the adopted identity,
      is kept. Everything but the cache agrees with DiscoverableStep; each cache entry is
      either the one it had or the one DiscoverableStep puts there; with no entry under
      those IDs beforehand the two agree entirely. */
  function DiscoverableStepAsWritten(p: Primitives, identities: Identities, cache: Cache, localID: string,
                                     verify: bool, w: World, matching: Option<string>): (e: Effects)
    requires localID !in identities
    requires w.authentication.Completed? ==> EntriesMatch(identities, w.authentication.result.credentialID, matching)
    ensures var fixed := DiscoverableStep(p, identities, cache, localID, verify, w, matching);
            && e.(cache := fixed.cache) == fixed
            && e.cache.Keys == fixed.cache.Keys
            && (forall id :: id in e.cache ==> e.cache[id] == fixed.cache[id] || (id in cache && e.cache[id] == cache[id]))
            && (localID !in cache && (matching.Some? ==> matching.value !in cache) ==> e == fixed)
  {
    match w.authentication
    case Threw => Effects(Failed(AuthCeremonyFailed), identities, cache, false, true, false, None)
    case NoResult => Effects(NoKey, identities, cache, false, true, true, None)
    case Completed(ar) =>
      match ExtractedLockKey(p, ar.userID)
      case Err(f) => Effects(Failed(f), identities, cache, false, true, true, None)
      case Ok(k) =>
        var extracted := CachePut(cache, localID, k, w.now, false);
        match matching
        case Some(m) =>
          var cleared := extracted - {localID};
          assert cleared == cache - {localID};
          if verify && !AuthVerified(identities[m], ar.credentialID, w.responseVerifies) then
            Effects(Failed(AuthVerificationFailed), identities, cleared, false, true, true, None)
          else
            Effects(Key(k, m), identities, CachePut(cleared, m, k, w.now, false), false, true, true, None)
        case None =>
          if verify then Effects(Failed(UnverifiedUnrecognizedPasskey), identities, extracted, false, true, true, None)
          else Effects(Key(k, localID), identities, extracted, false, true, true, None)
  }

  /** FirstRegistrationStep with the new key cached through insert-if-absent, as the code has
      it. It agrees with FirstRegistrationStep except that an entry already under the local
      ID is kept; with none there the two agree entirely. */
  function FirstRegistrationStepAsWritten(p: Primitives, identities: Identities, cache: Cache, localID: string,
                                          req: Request, w: World): (e: Effects)
    requires localID !in identities
    ensures var fixed := FirstRegistrationStep(p, identities, cache, localID, req, w);
            && e.(cache := fixed.cache) == fixed
            && e.cache.Keys == fixed.cache.Keys
            && (forall id :: id in e.cache ==> e.cache[id] == fixed.cache[id] || (id in cache && e.cache[id] == cache[id]))
            && (localID !in cache ==> e == fixed)
            && (localID in cache && e.outcome.Key? ==> e.cache[localID] == cache[localID])
  {
    match ImportedOrFresh(p, req, w)
    case Err(f) => Effects(Failed(f), identities, cache, false, true, false, None)
    case Ok(lockKey) =>
      var handle := RegistrationHandle(identities, localID, lockKey);
      match Registration(p, identities, localID, lockKey, w.registration)
      case Err(f) => Effects(Failed(f), identities, cache, false, true, false, handle)
      case Ok(None) => Effects(NoKey, identities, cache, false, true, true, handle)
      case Ok(Some(record)) =>
        Effects(Key(lockKey, localID), identities[localID := record],
                CachePut(cache, localID, lockKey, w.now, false), true, true, true, handle)
  }

  /** As written, an unverified discoverable authentication under a not-yet-registered ID
      caches the key it extracted, and that entry survives the ID's first registration: the
      registration returns its new key, but the cache (so the next call for that ID, which
      takes the cached-key branch) still gives the earlier key, a different one when the
      two seeds differ. */
  lemma EarlierKeyShadowsRegistrationAsWritten(p: Primitives, identities: Identities, cache: Cache, localID: string,
                                               maxLifetime: nat, w1: World, w2: World)
    requires localID !in identities && localID !in cache
    requires w1.authentication.Completed?
    requires EntriesMatch(identities, w1.authentication.result.credentialID, None)
    requires ExtractedLockKey(p, w1.authentication.result.userID).Ok?
    requires w2.registration.Completed?
    requires 0 <= w1.now <= w2.now <= w1.now + maxLifetime
    requires SeedFromUserID(w1.authentication.result.userID).value != w2.freshSeed
    ensures var earlier := ExtractedLockKey(p, w1.authentication.result.userID).value;
            var req1 := Request(Some(localID), false, false, None, false, None);
            var req2 := Request(Some(localID), true, false, None, true, None);
            var req3 := Request(Some(localID), false, false, None, true, None);
            var e1 := DiscoverableStepAsWritten(p, identities, cache, localID, false, w1, None);
            var e2 := FirstRegistrationStepAsWritten(p, e1.identities, e1.cache, localID, req2, w2);
            && PathOf(identities, cache, maxLifetime, req1, w1) == DiscoverableAuth
            && e1.outcome == Key(earlier, localID)
            && PathOf(e1.identities, e1.cache, maxLifetime, req2, w2) == FirstRegistration
            && e2.outcome == Key(DeriveLockKey(p, w2.freshSeed), localID)
            && PathOf(e2.identities, e2.cache, maxLifetime, req3, w2) == ReturnCached
            && CachedLockKey(e2.cache, localID, w2.now, maxLifetime) == Some(earlier)
            && earlier != DeriveLockKey(p, w2.freshSeed)
  {
    var earlier := ExtractedLockKey(p, w1.authentication.result.userID).value;
    var e1 := DiscoverableStepAsWritten(p, identities, cache, localID, false, w1, None);
    assert e1.cache[localID] == CacheEntry(earlier, w1.now);
    var req2 := Request(Some(localID), true, false, None, true, None);
    var e2 := FirstRegistrationStepAsWritten(p, e1.identities, e1.cache, localID, req2, w2);
    assert e2.cache[localID] == CacheEntry(earlier, w1.now);
  }

  /** As written, a discoverable authentication that adopts a registered identity whose cache
      entry has expired (nothing purges expired entries) returns the freshly extracted key,
      but the cache keeps the expired entry and gives nothing for that identity. */
  lemma ExpiredEntryKeptAsWritten(p: Primitives, identities: Identities, cache: Cache, localID: string,
                                  verify: bool, w: World, maxLifetime: nat, m: string)
    requires localID !in identities
    requires w.authentication.Completed?
    requires EntriesMatch(identities, w.authentication.result.credentialID, Some(m))
    requires ExtractedLockKey(p, w.authentication.result.userID).Ok?
    requires verify ==> AuthVerified(identities[m], w.authentication.result.credentialID, w.responseVerifies)
    requires m in cache && !IsFresh(cache[m], w.now, maxLifetime)
    ensures var e := DiscoverableStepAsWritten(p, identities, cache, localID, verify, w, Some(m));
            && e.outcome == Key(ExtractedLockKey(p, w.authentication.result.userID).value, m)
            && CachedLockKey(e.cache, m, w.now, maxLifetime) == None
  {
    var e := DiscoverableStepAsWritten(p, identities, cache, localID, verify, w, Some(m));
    assert e.cache[m] == cache[m];
  }

  /** The branch getLockKey takes, from the registry and cache as it finds them. */
  function PathOf(identities: Identities, cache: Cache, maxLifetime: nat, req: Request, w: World): Path {
    var localID := ResolvedID(req, w);
    Decide(localID in identities, CachedLockKey(cache, localID, w.now, maxLifetime).Some?, req)
  }

  /** getLockKey once the registry is loaded: resolve the local ID, look up the cache,
      take the branch. `matching` is the identity the discoverable branch would adopt. */
  function GetLockKeyStep(p: Primitives, identities: Identities, cache: Cache, maxLifetime: nat,
                          req: Request, w: World, matching: Option<string>): (e: Effects)
    requires w.authentication.Completed? ==> EntriesMatch(identities, w.authentication.result.credentialID, matching)
    ensures var localID := ResolvedID(req, w);
            var path := PathOf(identities, cache, maxLifetime, req, w);
            && (e.ceremony <==> path != ReturnCached && path != NotCachedForNewPasskey)
            && (path == ReturnCached ==>
                  e == Effects(Key(CachedLockKey(cache, localID, w.now, maxLifetime).value, localID),
                               identities, cache, false, false, false, None))
            && (path == NotCachedForNewPasskey ==>
                  e == Effects(Failed(KeyNotCachedForNewPasskey), identities, cache - {localID}, false, false, false, None))
            && (path == AddPasskey ==>
                  e == AddPasskeyStep(p, identities, cache, localID,
                                      CachedLockKey(cache, localID, w.now, maxLifetime).value, w.registration))
            && (path == ResetIdentity ==> e == ResetStep(p, identities, cache, localID, req, w))
            && (path == RestrictedAuth ==> e == RestrictedAuthStep(p, identities, cache, localID, req.verify, w))
            && (path == DiscoverableAuth ==> e == DiscoverableStep(p, identities, cache, localID, req.verify, w, matching))
            && (path == FirstRegistration ==> e == FirstRegistrationStep(p, identities, cache, localID, req, w))
  {
    var localID := ResolvedID(req, w);
    var cached := CachedLockKey(cache, localID, w.now, maxLifetime);
    if localID in identities then
      if cached.Some? && !req.resetLockKey then
        if req.addNewPasskey then AddPasskeyStep(p, identities, cache, localID, cached.value, w.registration)
        else Effects(Key(cached.value, localID), identities, cache, false, false, false, None)
      else if req.resetLockKey then ResetStep(p, identities, cache, localID, req, w)
      else if !req.addNewPasskey then RestrictedAuthStep(p, identities, cache, localID, req.verify, w)
      else Effects(Failed(KeyNotCachedForNewPasskey), identities, cache - {localID}, false, false, false, None)
    else if !req.addNewPasskey then DiscoverableStep(p, identities, cache, localID, req.verify, w, matching)
    else FirstRegistrationStep(p, identities, cache, localID, req, w)
  }

  // ---------------------------------------------------------------- properties across branches

  /** Whatever getLockKey returns is what the cache then gives back for that identity. */
  lemma ReturnedKeyIsCached(p: Primitives, identities: Identities, cache: Cache, maxLifetime: nat,
                            req: Request, w: World, matching: Option<string>)
    requires w.authentication.Completed? ==> EntriesMatch(identities, w.authentication.result.credentialID, matching)
    requires w.now >= 0
    ensures var e := GetLockKeyStep(p, identities, cache, maxLifetime, req, w, matching);
            e.outcome.Key? ==> CachedLockKey(e.cache, e.outcome.localIdentity, w.now, maxLifetime) == Some(e.outcome.lockKey)
  {
  }

  /** Only the resolved local ID's record can change; every identity keeps a passkey. */
  lemma OnlyResolvedIdentityChanges(p: Primitives, identities: Identities, cache: Cache, maxLifetime: nat,
                                    req: Request, w: World, matching: Option<string>)
    requires w.authentication.Completed? ==> EntriesMatch(identities, w.authentication.result.credentialID, matching)
    ensures var e := GetLockKeyStep(p, identities, cache, maxLifetime, req, w, matching);
            && OthersUnchanged(identities, e.identities, ResolvedID(req, w))
            && (EveryIdentityHasPasskey(identities) ==> EveryIdentityHasPasskey(e.identities))
  {
  }

  /** With `verify` on, a key that came from an authentication is returned only for a
      registered identity whose passkey the response verified against. */
  lemma VerifiedAuthenticationOnly(p: Primitives, identities: Identities, cache: Cache, maxLifetime: nat,
                                   req: Request, w: World, matching: Option<string>)
    requires w.authentication.Completed? ==> EntriesMatch(identities, w.authentication.result.credentialID, matching)
    requires req.verify
    ensures var e := GetLockKeyStep(p, identities, cache, maxLifetime, req, w, matching);
            var path := PathOf(identities, cache, maxLifetime, req, w);
            (path == RestrictedAuth || path == DiscoverableAuth) && e.outcome.Key? ==>
              && w.authentication.Completed?
              && e.outcome.localIdentity in identities
              && AuthVerified(identities[e.outcome.localIdentity], w.authentication.result.credentialID, w.responseVerifies)
  {
  }

  /** Called without options, getLockKey never registers: it returns the cached key or
      authenticates under the generated ID, verifying the response, and stores nothing. */
  lemma DefaultRequestOnlyAuthenticates(p: Primitives, identities: Identities, cache: Cache, maxLifetime: nat,
                                        w: World, matching: Option<string>)
    requires w.authentication.Completed? ==> EntriesMatch(identities, w.authentication.result.credentialID, matching)
    ensures var e := GetLockKeyStep(p, identities, cache, maxLifetime, DEFAULT_REQUEST, w, matching);
            var path := PathOf(identities, cache, maxLifetime, DEFAULT_REQUEST, w);
            && ResolvedID(DEFAULT_REQUEST, w) == w.generatedID
            && (path == ReturnCached || path == RestrictedAuth || path == DiscoverableAuth)
            && !e.store && e.identities == identities
            && (path != ReturnCached && e.outcome.Key? ==>
                  && w.authentication.Completed?
                  && e.outcome.localIdentity in identities
                  && AuthVerified(identities[e.outcome.localIdentity], w.authentication.result.credentialID,
                                  w.responseVerifies))
  {
    VerifiedAuthenticationOnly(p, identities, cache, maxLifetime, DEFAULT_REQUEST, w, matching);
  }

  /** An exception that escapes before the cleanup (the ceremony threw, the lock-key was
      rejected) changes neither the registry nor storage and caches nothing new. */
  lemma AbandonedCeremonyChangesNothing(p: Primitives, identities: Identities, cache: Cache, maxLifetime: nat,
                                        req: Request, w: World, matching: Option<string>)
    requires w.authentication.Completed? ==> EntriesMatch(identities, w.authentication.result.credentialID, matching)
    ensures var e := GetLockKeyStep(p, identities, cache, maxLifetime, req, w, matching);
            e.ceremony && !e.settled ==>
              && e.outcome.Failed?
              && e.identities == identities && !e.store
              && forall id :: id in e.cache ==> id in cache && e.cache[id] == cache[id]
  {
  }

  /** The registry is written back only after a registration that completed, and then it
      holds the identity the returned key belongs to. */
  lemma StoredOnlyAfterRegistration(p: Primitives, identities: Identities, cache: Cache, maxLifetime: nat,
                                    req: Request, w: World, matching: Option<string>)
    requires w.authentication.Completed? ==> EntriesMatch(identities, w.authentication.result.credentialID, matching)
    ensures var e := GetLockKeyStep(p, identities, cache, maxLifetime, req, w, matching);
            e.store ==>
              && w.registration.Completed? && e.settled
              && e.outcome.Key? && e.outcome.localIdentity == ResolvedID(req, w)
              && e.outcome.localIdentity in e.identities
  {
  }

  /** A registration is the only thing that hands a user handle to a ceremony, and what
      it stores is tied to that handle: the handle is the returned key's seed followed by
      the identity's new `lastSeq` in two bytes, so a later authentication with the new
      passkey recovers the key derived from that seed, and nothing when the seed is not
      32 bytes long. Only a key derived from its own seed is recovered as it is. */
  lemma RegisteredHandleCarriesKey(p: Primitives, identities: Identities, cache: Cache, maxLifetime: nat,
                                   req: Request, w: World, matching: Option<string>)
    requires w.authentication.Completed? ==> EntriesMatch(identities, w.authentication.result.credentialID, matching)
    ensures var e := GetLockKeyStep(p, identities, cache, maxLifetime, req, w, matching);
            var path := PathOf(identities, cache, maxLifetime, req, w);
            var localID := ResolvedID(req, w);
            && (e.handle.Some? ==> path == AddPasskey || path == ResetIdentity || path == FirstRegistration)
            && (e.store ==>
                  && e.handle.Some? && e.outcome.Key? && e.outcome.lockKey.iv.Some?
                  && var h := e.handle.value;
                     var iv := e.outcome.lockKey.iv.value;
                     && |h| == |iv| + 2 && h[..|iv|] == iv
                     && BigEndian16(h[|iv|], h[|iv| + 1]) == e.identities[localID].lastSeq % SEQ_MODULUS
                     && (|iv| == IV_BYTE_LENGTH ==> ExtractedLockKey(p, e.handle) == Ok(DeriveLockKey(p, iv)))
                     && (|iv| != IV_BYTE_LENGTH ==> ExtractedLockKey(p, e.handle).Err?)
                     && (|iv| == IV_BYTE_LENGTH && e.outcome.lockKey == DeriveLockKey(p, iv) ==>
                           ExtractedLockKey(p, e.handle) == Ok(e.outcome.lockKey)))
  {
    var e := GetLockKeyStep(p, identities, cache, maxLifetime, req, w, matching);
    if e.store {
      var iv := e.outcome.lockKey.iv.value;
      var localID := ResolvedID(req, w);
      var n := e.identities[localID].lastSeq;
      assert e.handle.value == UserHandle(iv, n);
      if |iv| == IV_BYTE_LENGTH {
        RegisteredLockKeyRecovered(p, iv, n);
      }
    }
  }

  /** Two passkeys added one after the other with the same cached key get handles that share
      the key's seed and differ in the counter, which goes up by one. */
  lemma SuccessiveHandlesDifferInCounter(p: Primitives, identities: Identities, cache: Cache, localID: string,
                                         lockKey: LockKey, first: Ceremony<RegResult>, second: Ceremony<RegResult>)
    requires localID in identities && lockKey.iv.Some? && first.Completed?
    ensures var e1 := AddPasskeyStep(p, identities, cache, localID, lockKey, first);
            var e2 := AddPasskeyStep(p, e1.identities, cache, localID, lockKey, second);
            var iv := lockKey.iv.value;
            && e1.handle.Some? && e2.handle.Some?
            && e1.handle.value[..|iv|] == e2.handle.value[..|iv|] == iv
            && BigEndian16(e2.handle.value[|iv|], e2.handle.value[|iv| + 1])
               == (BigEndian16(e1.handle.value[|iv|], e1.handle.value[|iv| + 1]) + 1) % SEQ_MODULUS
            && e1.handle != e2.handle
  {
    var e1 := AddPasskeyStep(p, identities, cache, localID, lockKey, first);
    var e2 := AddPasskeyStep(p, e1.identities, cache, localID, lockKey, second);
    var iv := lockKey.iv.value;
    var n := identities[localID].lastSeq + 1;
    assert e1.identities[localID].lastSeq == n;
    var h1, h2 := UserHandle(iv, n), UserHandle(iv, n + 1);
    assert e1.handle.value == h1 && e2.handle.value == h2;
    assert (n + 1) % SEQ_MODULUS == (n % SEQ_MODULUS + 1) % SEQ_MODULUS;
    HandlesDifferOnlyInSequence(iv, n, n + 1);
  }

  /** An imported key of the current version is taken as it is, whatever its seed: one whose
      `iv` is not 32 bytes long is registered and returned, but the handle of its passkey
      recovers no key. */
  lemma ShortSeedImportUnrecoverable(p: Primitives, identities: Identities, cache: Cache, localID: string,
                                     imported: LockKey, w: World)
    requires localID in identities
    requires imported.keyFormatVersion == Some(CURRENT_LOCK_KEY_FORMAT_VERSION)
    requires imported.iv.Some? && |imported.iv.value| != IV_BYTE_LENGTH
    requires w.registration.Completed?
    ensures var req := Request(Some(localID), false, true, Some(imported), true, None);
            var e := ResetStep(p, identities, cache, localID, req, w);
            && e.outcome == Key(imported, localID) && e.store
            && e.handle.Some? && ExtractedLockKey(p, e.handle).Err?
  {
  }

  /** Every identity in the registry would pass the load-time checks once stored. */
  ghost predicate RegistrySound(p: Primitives, identities: Identities) {
    forall id :: id in identities ==> IdentitySound(p, identities[id])
  }

  /** A registration result the load-time checks will accept once it is stored. */
  ghost predicate RegistrationStorable(p: Primitives, reg: Ceremony<RegResult>) {
    reg.Completed? ==>
      && reg.result.credentialID != ""
      && p.pack(reg.result.publicKey).raw != "" && p.pack(reg.result.publicKey).spki != ""
  }

  /** The passkey a registration adds is sound. */
  lemma RegisteredEntrySound(p: Primitives, seqNo: int, reg: Ceremony<RegResult>)
    requires p.Valid() && RegistrationStorable(p, reg) && reg.Completed?
    ensures PasskeySound(p, BuildPasskeyEntry(p, seqNo, reg.result.credentialID, reg.result.publicKey))
  {
    BuiltPasskeyEntryAccepted(p, seqNo, reg.result.credentialID, reg.result.publicKey);
  }

  lemma AddPasskeyKeepsSound(p: Primitives, identities: Identities, cache: Cache, localID: string,
                             lockKey: LockKey, reg: Ceremony<RegResult>)
    requires localID in identities
    requires p.Valid() && RegistrySound(p, identities) && RegistrationStorable(p, reg)
    ensures RegistrySound(p, AddPasskeyStep(p, identities, cache, localID, lockKey, reg).identities)
  {
    var e := AddPasskeyStep(p, identities, cache, localID, lockKey, reg);
    if e.store {
      RegisteredEntrySound(p, identities[localID].lastSeq + 1, reg);
      assert IdentitySound(p, e.identities[localID]) by {
        var ps := e.identities[localID].passkeys;
        assert forall i :: 0 <= i < |ps| - 1 ==> ps[i] == identities[localID].passkeys[i];
      }
    }
  }

  lemma ResetKeepsSound(p: Primitives, identities: Identities, cache: Cache, localID: string, req: Request, w: World)
    requires localID in identities
    requires p.Valid() && RegistrySound(p, identities) && RegistrationStorable(p, w.registration)
    ensures RegistrySound(p, ResetStep(p, identities, cache, localID, req, w).identities)
  {
    if ResetStep(p, identities, cache, localID, req, w).outcome.Key? {
      RegisteredEntrySound(p, identities[localID].lastSeq + 1, w.registration);
    }
  }

  lemma FirstRegistrationKeepsSound(p: Primitives, identities: Identities, cache: Cache, localID: string,
                                    req: Request, w: World)
    requires localID !in identities
    requires p.Valid() && RegistrySound(p, identities) && RegistrationStorable(p, w.registration)
    ensures RegistrySound(p, FirstRegistrationStep(p, identities, cache, localID, req, w).identities)
  {
    if FirstRegistrationStep(p, identities, cache, localID, req, w).outcome.Key? {
      RegisteredEntrySound(p, 1, w.registration);
    }
  }

  /** getLockKey keeps the registry sound. */
  lemma RegistryStaysSound(p: Primitives, identities: Identities, cache: Cache, maxLifetime: nat,
                           req: Request, w: World, matching: Option<string>)
    requires w.authentication.Completed? ==> EntriesMatch(identities, w.authentication.result.credentialID, matching)
    requires p.Valid() && RegistrySound(p, identities) && RegistrationStorable(p, w.registration)
    ensures RegistrySound(p, GetLockKeyStep(p, identities, cache, maxLifetime, req, w, matching).identities)
  {
    var localID := ResolvedID(req, w);
    match PathOf(identities, cache, maxLifetime, req, w)
    case AddPasskey =>
      AddPasskeyKeepsSound(p, identities, cache, localID, CachedLockKey(cache, localID, w.now, maxLifetime).value, w.registration);
    case ResetIdentity => ResetKeepsSound(p, identities, cache, localID, req, w);
    case FirstRegistration => FirstRegistrationKeepsSound(p, identities, cache, localID, req, w);
    case _ =>
  }

  /** So what getLockKey stores loads back as the registry it leaves in memory. */
  lemma StoredRegistryReloads(p: Primitives, identities: Identities, cache: Cache, maxLifetime: nat,
                              req: Request, w: World, matching: Option<string>)
    requires w.authentication.Completed? ==> EntriesMatch(identities, w.authentication.result.credentialID, matching)
    requires p.Valid() && RegistrySound(p, identities) && RegistrationStorable(p, w.registration)
    ensures var e := GetLockKeyStep(p, identities, cache, maxLifetime, req, w, matching);
            LoadLocalIdentities(p, StoredRecord(p, e.identities)) == e.identities
  {
    RegistryStaysSound(p, identities, cache, maxLifetime, req, w, matching);
    LoadAfterStore(p, GetLockKeyStep(p, identities, cache, maxLifetime, req, w, matching).identities);
  }

  /** Starting from whatever storage held: the registry getLockKey loads is sound when packing
      undoes unpacking, so the one it leaves is sound too and reloads as it is. */
  lemma LoadedRegistryStaysSound(p: Primitives, stored: Option<StoredIdentities>, cache: Cache, maxLifetime: nat,
                                 req: Request, w: World, matching: Option<string>)
    requires w.authentication.Completed? ==>
               EntriesMatch(LoadLocalIdentities(p, stored), w.authentication.result.credentialID, matching)
    requires p.Valid() && CodecStable(p) && RegistrationStorable(p, w.registration)
    ensures var e := GetLockKeyStep(p, LoadLocalIdentities(p, stored), cache, maxLifetime, req, w, matching);
            && RegistrySound(p, e.identities)
            && LoadLocalIdentities(p, StoredRecord(p, e.identities)) == e.identities
  {
    LoadedIdentitiesSound(p, stored);
    StoredRegistryReloads(p, LoadLocalIdentities(p, stored), cache, maxLifetime, req, w, matching);
    RegistryStaysSound(p, LoadLocalIdentities(p, stored), cache, maxLifetime, req, w, matching);
  }
}
