# Local Data Lock: the lock-key lifecycle manager

This project models the lock-key lifecycle logic of Local Data Lock in `src/ldl.js`. A
lock-key is a keypair derived from a 32-byte seed (`iv`), and passkeys carry that seed in
their WebAuthn user handle. The model covers:

- **lock-key derivation and validation**: `deriveLockKey`, `checkLockKey`, the user handle
  `registerLocalIdentity` builds, and the seed `extractLockKey` takes back from it;
- **the lock-key cache**: `getCachedLockKey`'s TTL test, `cacheLockKey`'s insert-if-absent,
  `clearLockKeyCache` and `setMaxLockKeyCacheLifetime`;
- **the identity registry**: `loadLocalIdentities`' structural and hash-integrity filter,
  `storeLocalIdentities`' packing and its removal of an empty record,
  `buildPasskeyEntry`/`computePasskeyEntryHash`, `listLocalIdentities`,
  `removeLocalAccount` and `checkStorage`'s lazy load;
- **getLockKey's state machine**: returning the cached key, adding a passkey, resetting or
  importing a key, restricted authentication, the "not cached for a new passkey" error,
  discoverable authentication with credential matching, and first registration;
- **the abort-token coordinator**: `resetAbortToken` and `cleanupExternalSignalHandler`;
- **`configureStorage`**, and **`lockData`**'s null check and choice of output format.

Layout, one module per file:

- `foreign.dfy` (`Foreign`) holds the sodium primitives, the public-key pack/unpack codec,
  the hash and base64. They are function values inside a `Primitives` datatype.
- `lock_keys.dfy` (`LockKeys`): derivation, `checkLockKey`, the user handle.
- `key_cache.dfy` (`KeyCache`): the cache as a map value, and the lifetime argument.
- `registry.dfy` (`Registry`): the in-memory and stored shapes of identities, the load filter,
  the store packing, the integrity hash.
- `sealing.dfy` (`Sealing`): `lockData`.
- `manager_types.dfy` (`ManagerTypes`) holds the values getLockKey exchanges with callers and
  ceremonies, `registerLocalIdentity`, the branch decision, the whitelist and the abort-token
  bookkeeping functions.
- `lock_key_flow.dfy` (`LockKeyFlow`) describes each getLockKey branch as an `Effects` value:
  - the outcome;
  - the registry and cache it leaves;
  - whether it stores;
  - whether it starts an abort token;
  - whether the cleanup after the ceremony runs.

  It also holds the properties that hold across branches.
- `manager.dfy` (`Manager`): the class `LockKeyManager`, whose fields are the module-level
  variables of `src/ldl.js`, and whose methods update them in place:
  - `lockKeyCache`, `localIdentities` and whether it was loaded;
  - the stored record;
  - `abortToken` and `externalSignalCache`;
  - `MAX_LOCK_KEY_CACHE_LIFETIME` and `DEFAULT_STORAGE_TYPE`.

  Its `GetLockKey` method is proved to leave exactly the state `LockKeyFlow.GetLockKeyStep`
  describes. The properties of that function are proved once, in `LockKeyFlow`.

The outside world is passed in:

- the clock is a `now` value;
- the random local ID and seed are `World` fields;
- each WebAuthn ceremony is a `Ceremony` value: completed with a result, dismissed (null), or
  thrown;
- signature verification is a predicate on the public key;
- storage is the `persisted` field.

Ceremony failures are modelled as `Failed` outcomes, which are the exceptions getLockKey
throws.

## Where the code and its documented design differ

The model follows the code in each case below.

- The cache TTL test keeps an entry whose age equals the lifetime: the test is `>=`, so both
  ends of the window are included. Before the clock passes the lifetime, the window is
  clamped to the epoch (`Math.min(MAX_LOCK_KEY_CACHE_LIFETIME, now)`).
- The design describes a background purge of expired entries. The code has none, so expired
  entries stay until they are overwritten (forced) or deleted.
- A reset gives the new record `lastSeq` = old `lastSeq` + 1, not 1. This is because
  `registerLocalIdentity` still sees the old record.
- A reset deletes the identity's cache entry before it registers. A dismissed reset
  registration removes the identity from memory but does not store the registry, and the call
  returns nothing.
- The sequence number is written with `setInt16`, that is, modulo 2^16. Nothing rejects
  passkey 65536: its user handle ends in two zero bytes, and passkey 65537's handle equals
  passkey 1's.
- `configureStorage` accepts `idb`, `local-storage`, `session-storage`, `cookie` and `opfs`
  (no `opfs-worker`). It only sets the storage type: an already loaded registry is not
  reloaded.
- There is no try/finally around the ceremonies. When registration or authentication throws,
  or an imported key is rejected after `resetAbortToken`, the new abort token stays current
  and its external-signal handler stays attached.
- In the restricted-authentication branch, a failed verification still leaves the cache entry
  deleted (it was dropped at the start of the branch).
- A reset requested for an identity that is not registered is not a reset: an unknown
  identity always goes to discoverable authentication or first registration, whatever
  `resetLockKey` says.
- The integrity guard drops the whole identity when one of its passkeys fails, not just that passkey: the test is an `every` over the passkeys inside the identity filter (`src/ldl.js:601-620`). Registry.OneBadPasskeyDropsIdentity states this.
- An imported key of the current version is taken as it is (`src/ldl.js:501-503`), so nothing ties its keys to its `iv`. Its passkey's handle carries the `iv`, and authentication later derives the key from it: a key whose keys do not come from its `iv` is recovered as a different key, and one whose `iv` is not 32 bytes is not recovered at all (LockKeyFlow.ShortSeedImportUnrecoverable).
- `storeLocalIdentities` tests `Object.keys(identities).length > 0`. The model states this as
  "the registry is not the empty map".

## Model

| member | source | states |
|---|---|---|
| LockKeys.DeriveLockKey | src/ldl.js:474-493 | the key has format version 1 and carries its seed; its signing pair is the seeded keypair, and its encryption pair is that pair's curve25519 conversion |
| LockKeys.CheckLockKey | src/ldl.js:495-513 | a version-1 candidate is returned unchanged; otherwise a 32-byte `iv` is re-derived; the error UnrecognizedLockKey occurs exactly when neither holds; any accepted key is version 1 |
| LockKeys.CheckLockKeyIdempotent | src/ldl.js:495-513 | checking an accepted key again accepts it unchanged |
| LockKeys.SeqBytes | src/ldl.js:367-368 | two bytes whose big-endian value is the sequence number modulo 2^16 |
| LockKeys.UserHandle | src/ldl.js:366-370 | the handle is the seed followed by two bytes holding `lastSeq` mod 2^16 big-endian; its length is `iv` length + 2 |
| LockKeys.SeedFromUserID | src/ldl.js:407-414 | a seed exists exactly when the user ID is a byte array of length 34; the seed is its 32-byte prefix |
| LockKeys.ExtractedLockKey | src/ldl.js:405-425 | the key is derived from the handle's seed when the handle is accepted; otherwise InvalidPasskeyInfo |
| LockKeys.UserHandleRoundTrip | src/ldl.js:366-414 | extracting from a handle built from a 32-byte seed gives that seed back |
| LockKeys.AcceptedUserIDIsHandle | src/ldl.js:407-414 | every accepted user ID is the handle of its own seed and of the number in its last two bytes |
| LockKeys.RegisteredLockKeyRecovered | src/ldl.js:366-418 | authenticating with a passkey registered for a seed yields the key derived from that seed |
| LockKeys.HandlesDifferOnlyInSequence | src/ldl.js:358-370 | handles of one seed share the seed prefix, and are equal exactly when the sequence numbers agree modulo 2^16 |
| KeyCache.CachedLockKey | src/ldl.js:89-104 | a key is returned exactly when the ID is cached with timestamp >= now - min(lifetime, now); it is the entry's key without the timestamp |
| KeyCache.CachePut | src/ldl.js:106-116 | an existing entry is kept unless forced; otherwise the key is stored stamped with `now`; no other entry changes |
| KeyCache.CacheClear | src/ldl.js:118-125 | with no ID, the cache is emptied; with an ID, exactly that entry goes and the others are unchanged |
| KeyCache.FreshnessWindow | src/ldl.js:96-98 | once the clock passes the lifetime, an entry is fresh exactly while its age is <= the lifetime; before that, exactly when its timestamp is >= 0 |
| KeyCache.ExpiresAfterLifetime | src/ldl.js:89-116 | a key cached at t0 is returned at t0 + lifetime and not one millisecond later |
| KeyCache.LookupAfterPut | src/ldl.js:89-116 | a key just stored (new ID or forced) is what a lookup at that instant returns |
| KeyCache.MaxLifetimeFrom | src/ldl.js:661-665 | an omitted argument gives 30 minutes; NaN gives 0; a number gives itself, or 0 when negative; the result is never negative |
| KeyCache.NonPositiveLifetimeOnlyNow | src/ldl.js:661-665 | a lifetime that is NaN, zero or negative becomes 0, and then only entries stamped at the current instant or later are returned |
| Registry.ComputePasskeyEntryHash | src/ldl.js:680-686 | with a hash that is never empty, the entry hash is never empty |
| Registry.HashDeterminedByContent | src/ldl.js:680-686 | with a collision-free hash, two entries hash alike exactly when they agree on the sequence number, the credential ID and the packed public key: the hash covers every field but `hash` |
| Registry.BuildPasskeyEntry | src/ldl.js:673-678 | the entry keeps its fields and carries the hash of its own content |
| Registry.PackPasskeys | src/ldl.js:645-648 | each passkey is packed in place and the order is kept |
| Registry.StoredRecord | src/ldl.js:636-658 | an empty registry removes the storage key; otherwise the record has the same IDs, each identity packed |
| Registry.PasskeyAccepted | src/ldl.js:605-619 | where packing undoes unpacking, a stored passkey passes exactly when its credential ID is a non-empty string, its `seq` a number, its public key an object with a numeric `algoCOSE` and non-empty `raw` and `spki`, and its `hash` a non-empty string equal to computePasskeyEntryHash of the entry |
| Registry.IdentityAccepted | src/ldl.js:601-620 | a stored identity passes exactly when `lastSeq` is a number and `passkeys` a non-empty array every element of which passes |
| Registry.UnpackPasskeys | src/ldl.js:626-629 | one passkey per stored passkey, in order: each stored passkey passes the test and the i-th result is its unpacking (the `...passkey` copy with the public key unpacked), with a non-empty credential ID |
| Registry.LoadLocalIdentities | src/ldl.js:594-634 | an ID is loaded exactly when its stored identity passes the test, and an absent record loads as empty; each loaded identity is the unpacking of its stored record; every loaded identity has passkeys, each with a credential ID |
| Registry.EveryPasskeyAcceptedIff | src/ldl.js:605-619 | the recursive test holds exactly when every stored passkey passes |
| Registry.OneBadPasskeyDropsIdentity | src/ldl.js:601-620 | one failing passkey drops its whole identity on load |
| Registry.BuiltPasskeyEntryAccepted | src/ldl.js:673-686 | an entry built by buildPasskeyEntry, with a credential ID and a packable key, passes the load-time integrity check once stored |
| Registry.PackedPasskeyRoundTrip | src/ldl.js:622-648 | a sound passkey, once packed (PackPasskey, the store-side map), passes the load test and unpacks (UnpackPasskey, the load-side map) to itself |
| Registry.PackedPasskeysRoundTrip | src/ldl.js:622-648 | the same for a whole passkey list, in order |
| Registry.LoadAfterStore | src/ldl.js:594-658 | loading what storeLocalIdentities wrote gives back the registry it was given |
| Registry.TamperedPasskeyRejected | src/ldl.js:616-618 | with a collision-free hash, a stored passkey whose content changed while its hash was kept fails the load test |
| Registry.LoadedIdentitiesSound | src/ldl.js:594-634 | where packing undoes unpacking, every identity loaded from any stored record would pass the load test again once stored |
| Sealing.ToLowerAscii | src/ldl.js:551 | same length; each character is lower-cased |
| Sealing.LockData | src/ldl.js:515-559 | null data fails with DataEncryptionFailed; otherwise the sealed box is returned as base64 text exactly when the format (by default "base64") is "base64" or "base-64" in any letter case (IsBase64Format), and as raw bytes otherwise |
| Sealing.LowerAsciiIdempotent | src/ldl.js:551 | lower-casing twice is lower-casing once |
| Sealing.FormatIgnoresCase | src/ldl.js:551 | a format and its lower-cased form select the same output |
| Sealing.DefaultFormatIsBase64 | src/ldl.js:515-556 | without an output format, lockData returns the sealed box as base64 text |
| ManagerTypes.Decide | src/ldl.js:150-327 | each of the seven branches is taken exactly under its combination of known identity, fresh cache entry, resetLockKey and addNewPasskey |
| ManagerTypes.ImportedOrFresh | src/ldl.js:194-199 | the key used is version 1; without useLockKey it carries the fresh seed; with it, UnrecognizedLockKey occurs exactly when the offered key is neither version 1 nor has a 32-byte `iv` |
| ManagerTypes.FindPasskey | src/ldl.js:243-245 | none exactly when no passkey has the credential ID; otherwise the first passkey that has it |
| ManagerTypes.AuthVerified | src/ldl.js:243-252 | the response counts as verified only if a passkey with the returned credential ID exists |
| ManagerTypes.AuthVerifiedNeedsCredential | src/ldl.js:243-252 | verification succeeds only if a passkey has the credential, and then exactly when the response verifies against that passkey's key |
| ManagerTypes.RegistrationUserHandle | src/ldl.js:357-370 | the handle is the key's seed followed by two bytes whose big-endian value is ((the identity's lastSeq, or 0 when it is not registered) + 1) mod 2^16 (NextSeq) |
| ManagerTypes.Registration | src/ldl.js:355-403 | RegistrationFailed exactly when the key has no `iv` or the ceremony throws; nothing when it is dismissed; otherwise one passkey built at sequence lastSeq + 1 (NextSeq), with that lastSeq |
| ManagerTypes.RegisteredRecordSound | src/ldl.js:384-395 | the record a registration returns passes the load-time checks once stored |
| ManagerTypes.RegisteredKeyRecoveredByAuth | src/ldl.js:366-418 | authenticating with the passkey just registered for a derived key gives that key back |
| ManagerTypes.CheckStorageType | src/ldl.js:688-695 | accepted exactly when the type is on the whitelist; otherwise UnrecognizedStorageType |
| ManagerTypes.ResetAbortsPrevious | src/ldl.js:429-446 | for ReasonsAfterReset: the previous token ends aborted and keeps an existing reason (else "Passkey operation abandoned."); the new token is aborted exactly when the external signal already was, with its reason; no other reason changes |
| ManagerTypes.HandlerAfterReset | src/ldl.js:442-456 | for LinksAfterReset: the new token is the only one with a handler, and has one, on the given signal, exactly when that signal had not fired yet |
| ManagerTypes.CacheResolvedKey | src/ldl.js:340-343 | the corrected caching: the entry under the ID becomes the resolved key stamped with `now`, which the cache then returns for that ID under every lifetime; other entries are unchanged |
| LockKeyFlow.AddPasskeyStep | src/ldl.js:154-179 | the cached key is returned once the ceremony settles; after a completed registration, identity passkeys = old ++ [new entry at lastSeq + 1] and lastSeq = old + 1, then a store; no other identity changes; a throw gives RegistrationFailed with no store; the handle given to the ceremony is the cached key's seed followed by lastSeq + 1 |
| LockKeyFlow.ResetStep | src/ldl.js:180-218 | the cache entry is dropped; a rejected import or failed registration throws with the registry untouched; a dismissal removes the identity, without a store; success replaces the record with one passkey at old lastSeq + 1, caches the key and stores; the handle given to the ceremony is the new key's seed followed by old lastSeq + 1 |
| LockKeyFlow.RestrictedAuthStep | src/ldl.js:219-260 | the cache entry is dropped; a thrown ceremony fails; a dismissal returns nothing; a failed verification fails before extraction; a bad user handle gives InvalidPasskeyInfo; otherwise the extracted key is returned and cached; the registry never changes; no registration handle |
| LockKeyFlow.DiscoverableStep | src/ldl.js:266-325 | the key is cached under the requested ID first; a matching identity is adopted: that entry is dropped, the key is verified against the identity's passkey and cached under it; with no match, verify fails and no verify returns the key under the requested ID; no registration handle |
| LockKeyFlow.FirstRegistrationStep | src/ldl.js:326-350 | success adds the identity with lastSeq 1 and one passkey at sequence 1, caches the key and stores; any other outcome leaves the registry and cache as they were; the handle given to the ceremony is the key's seed followed by 1 |
| LockKeyFlow.DiscoverableStepAsWritten | src/ldl.js:266-325 | the discoverable branch with insert-if-absent caching: outcome, registry and storage as in DiscoverableStep; each cache entry is its old one or DiscoverableStep's; the same as DiscoverableStep when no entry was under the requested or adopted ID |
| LockKeyFlow.FirstRegistrationStepAsWritten | src/ldl.js:326-350 | the first-registration branch with insert-if-absent caching: as FirstRegistrationStep except that an entry already under the ID is kept |
| LockKeyFlow.EarlierKeyShadowsRegistrationAsWritten | src/ldl.js:266-350 | as written, an unverified discoverable authentication under an unregistered ID caches key A; the ID's first registration then returns the new key, but the cache, and so the next call's cached-key branch, still gives A, which differs from the new key when the seeds differ |
| LockKeyFlow.ExpiredEntryKeptAsWritten | src/ldl.js:294-314 | as written, adopting a registered identity whose cache entry has expired returns the extracted key while the cache gives nothing for that identity |
| LockKeyFlow.GetLockKeyStep | src/ldl.js:134-350 | the branch Decide selects is the one taken; a cached key without a reset is returned as it is; a missing key with addNewPasskey fails and drops the entry; a ceremony runs exactly on the other five branches |
| LockKeyFlow.ReturnedKeyIsCached | src/ldl.js:134-350 | with the corrected caching (CacheResolvedKey), whatever key getLockKey returns for an identity the cache gives back for that identity at that instant; as written this fails, see Findings |
| LockKeyFlow.OnlyResolvedIdentityChanges | src/ldl.js:134-350 | no identity except the resolved local ID is added, removed or changed, and every identity keeps a passkey |
| LockKeyFlow.VerifiedAuthenticationOnly | src/ldl.js:240-318 | with verify on, a key from an authentication is returned only for a registered identity whose passkey the response verified against |
| LockKeyFlow.DefaultRequestOnlyAuthenticates | src/ldl.js:134-147 | with no options (generated ID, no new passkey, no reset, verify on), getLockKey never registers: it returns the cached key or authenticates, verifying the response, and stores nothing |
| LockKeyFlow.AbandonedCeremonyChangesNothing | src/ldl.js:134-350 | when an exception escapes before the cleanup, the call fails, the registry is unchanged, nothing is stored and nothing new is cached |
| LockKeyFlow.StoredOnlyAfterRegistration | src/ldl.js:134-350 | the registry is stored only after a completed registration, and then the returned key belongs to the resolved identity, which is in the registry |
| LockKeyFlow.RegisteredHandleCarriesKey | src/ldl.js:355-382 | only a registration branch hands a user handle to a ceremony; after a stored registration the handle is the returned key's seed followed by the identity's new lastSeq mod 2^16, so authenticating with the new passkey recovers the key derived from that seed (the returned key itself when it was derived from its seed), and no key when the seed is not 32 bytes |
| LockKeyFlow.SuccessiveHandlesDifferInCounter | src/ldl.js:154-170 | two passkeys added one after the other with the same cached key get handles with the same seed prefix, whose counters differ by one mod 2^16, so the handles differ |
| LockKeyFlow.ShortSeedImportUnrecoverable | src/ldl.js:194-211 | a version-1 key imported with an `iv` that is not 32 bytes is registered, stored and returned, but its passkey's handle recovers no key |
| LockKeyFlow.RegisteredEntrySound | src/ldl.js:389-393 | the passkey entry a registration adds passes the integrity check once stored |
| LockKeyFlow.AddPasskeyKeepsSound | src/ldl.js:164-170 | appending the new passkey keeps every identity loadable |
| LockKeyFlow.ResetKeepsSound | src/ldl.js:191-211 | replacing or dropping the identity on reset keeps every identity loadable |
| LockKeyFlow.FirstRegistrationKeepsSound | src/ldl.js:340-343 | adding the first record keeps every identity loadable |
| LockKeyFlow.RegistryStaysSound | src/ldl.js:134-350 | from a sound registry, and with a registration result whose credential ID and packed key are non-empty (RegistrationStorable), every getLockKey branch keeps every identity loadable |
| LockKeyFlow.StoredRegistryReloads | src/ldl.js:134-350 | under the same two premises, the registry getLockKey leaves, once stored, loads back unchanged |
| LockKeyFlow.LoadedRegistryStaysSound | src/ldl.js:134-350 | where packing undoes unpacking and the registration result is storable, the registry getLockKey leaves after loading any stored record is sound and reloads unchanged |
| Manager.LockKeyManager.constructor | src/ldl.js:20-28 | the initial module state: 30-minute lifetime, "idb", nothing loaded, empty cache, no abort token |
| Manager.LockKeyManager.CheckStorage | src/ldl.js:697-704 | the registry is loaded from storage the first time and unchanged afterwards |
| Manager.LockKeyManager.StoreLocalIdentities | src/ldl.js:636-659 | loads first if needed, then the stored record is the packing of the registry (none if empty) |
| Manager.LockKeyManager.Persist | src/ldl.js:636-659 | with the registry loaded, the stored record becomes the packing of the registry |
| Manager.LockKeyManager.ListLocalIdentities | src/ldl.js:84-87 | returns the IDs of the loaded registry |
| Manager.LockKeyManager.RemoveLocalAccount | src/ldl.js:127-132 | the ID's cache entry and identity are deleted and the rest is stored |
| Manager.LockKeyManager.ConfigureStorage | src/ldl.js:688-695 | a whitelisted type becomes the storage type; otherwise the error occurs and the type is unchanged |
| Manager.LockKeyManager.GetCachedLockKey | src/ldl.js:89-104 | returns the fresh cached key, as KeyCache.CachedLockKey states |
| Manager.LockKeyManager.CacheLockKey | src/ldl.js:106-116 | the cache changes as KeyCache.CachePut states |
| Manager.LockKeyManager.ClearLockKeyCache | src/ldl.js:118-125 | the cache changes as KeyCache.CacheClear states |
| Manager.LockKeyManager.SetMaxLockKeyCacheLifetime | src/ldl.js:661-665 | the new lifetime is KeyCache.MaxLifetimeFrom of the argument, and is returned |
| Manager.LockKeyManager.CleanupExternalSignalHandler | src/ldl.js:460-468 | only the given token's link is removed (which makes it idempotent), and nothing else changes |
| Manager.LockKeyManager.ResetAbortToken | src/ldl.js:429-458 | a new token, numbered after every earlier one, becomes current; reasons change as ManagerTypes.ResetAbortsPrevious states; only the new token can be linked to the signal |
| Manager.LockKeyManager.EndCeremony | src/ldl.js:160-161 | the current token's handler is detached and no token is current |
| Manager.LockKeyManager.GetLockKey | src/ldl.js:134-350 | after checkStorage, the new state is the one GetLockKeyStep gives: the outcome, the registry, the cache and the stored record; the abort token is untouched without a ceremony, released after a settled one, and left current after an abandoned one |
| Manager.LockKeyManager.GetLockKeyLoaded | src/ldl.js:150-350 | the same, for a registry already loaded; the matching identity is one holding the credential, or none when no identity does |
| Manager.LockKeyManager.Apply | src/ldl.js:156-343 | the registry, cache and storage become what the branch decided; the abort-token fields follow its ceremony |

## Left out

- WebAuthn (`register`, `auth`, `verifyAuthResponse`, `regDefaults`/`authDefaults`) is foreign. Ceremony outcomes and the verification result are inputs; a `verifyAuthResponse` that throws is not modelled.
- The sodium primitives, `packPublicKeyJSON`/`unpackPublicKeyJSON`, `JSON.stringify` and base64 are uninterpreted functions. The model assumes these properties of them, each only where a member's premises name it:
  - unpack undoes pack and a hash is never empty (`Primitives.Valid`): the lemmas that unpack what was packed, such as Registry.PackedPasskeyRoundTrip, Registry.LoadAfterStore and LockKeyFlow.StoredRegistryReloads, and the soundness lemmas of registration;
  - pack undoes unpack (`CodecStable`): the contract of Registry.PasskeyAccepted, Registry.LoadedIdentitiesSound and LockKeyFlow.LoadedRegistryStaysSound;
  - packing an already packed key leaves it unchanged: Registry.PasskeyAccepted hashes the stored key as it is (next line);
  - the hash has no collisions (`DigestInjective`): Registry.TamperedPasskeyRejected and Registry.HashDeterminedByContent.
- Registry.PasskeyAccepted: hashes the stored, already packed key as it is, where the load test's computePasskeyEntryHash (`src/ldl.js:618`) packs it once more (`src/ldl.js:684`). The model thus takes `packPublicKeyJSON` to leave a packed key unchanged. Its contract, Registry.LoadedIdentitiesSound and LockKeyFlow.LoadedRegistryStaysSound assume that packing undoes unpacking (CodecStable).
- LockKeyFlow.RegistryStaysSound: assumes a sound registry and a storable registration result. That a registry loaded from storage is sound is proved only where packing undoes unpacking (LockKeyFlow.LoadedRegistryStaysSound), which the primitives' contract does not promise.
- LockKeyFlow.StoredRegistryReloads: the same two premises as RegistryStaysSound.
- `deriveLockKey` is total in the model: its wrapped derivation error cannot be reached.
- `lockData`: coercing the data to bytes (`ArrayBuffer`, `JSON.stringify`, UTF-8, `String`) is left out, except for the null test. So is a non-string `outputFormat`, whose `toLowerCase` would throw.
- `unlockData` is not part of this model (sealed-box decryption only).
- Sealing.ToLowerAscii: lower-cases ASCII letters only. JavaScript's `toLowerCase` also folds other scripts, but no character outside ASCII lower-cases to one of the letters of "base", so the format choice comes out the same.
- Storage I/O is a single `persisted` field, and the dynamic import of the adapter in `checkStorage` is left out. `storageType` is recorded but does not select another store.
- Every `Date.now()` within one getLockKey call reads the same `now`.
- A `localIdentity` passed as `null` is the same as an omitted one. In the code the default does not apply to `null`, so the call skips the registry lookup (`src/ldl.js:150`). It then reaches the discoverable branch under the ID `null`, or with addNewPasskey registers an identity under the key "null" (`src/ldl.js:327-343`).
- Concurrent calls are left out: each operation runs to completion. In the code, a second getLockKey during an `await` replaces `abortToken`, and the first call's cleanup (`src/ldl.js:160-161`, `201-202`, `236-237`, `277-278`, `336-337`) then detaches and clears the second call's token.
- The registry and the cache are maps from strings. In the code they are plain objects, so `localID in lockKeyCache` (`src/ldl.js:93`, `107`) and `localIdentities[localID]` (`150`, `357`) also see inherited names such as "constructor".
- Numeric stored fields (`lastSeq`, `seq`, `algoCOSE`) are integers. The load test's `typeof ... == "number"` (`src/ldl.js:602`, `608`, `611`) also accepts NaN, fractions and Infinity, and `(lastSeq || 0) + 1` (`src/ldl.js:358`) turns a NaN `lastSeq` into 1.
- `username`, `displayName`, the relying-party options and the `allowCredentials` list are passed to ceremonies the model does not run, so they are left out.
- Registry.LoadLocalIdentities: a stored identity entry or passkey that is `null` or `undefined` cannot be represented, since each stored field is just "right type or not". In the code, reading `entry.lastSeq` (`src/ldl.js:602`) or `passkey.credentialID` (`src/ldl.js:606`) on one throws instead of filtering it out. The load then rejects and `localIdentities` stays null, so `checkStorage` (`src/ldl.js:697-704`) retries and throws on every later call. The model instead always drops just the bad identity and loads the others.
- `useLockKey` is a lock-key or nothing. The code imports a key only when `useLockKey && typeof useLockKey == "object"` (`src/ldl.js:196`, `331`), so a truthy non-object such as a string is treated as no key; the model has no such values.
- Manager.LockKeyManager.ListLocalIdentities: returns the IDs as a set. `Object.keys` (`src/ldl.js:86`) returns an array in insertion order, which the model does not keep.
- Manager.LockKeyManager.GetLockKey and Manager.LockKeyManager.GetLockKeyLoaded (which makes the choice): `Object.entries(...).find` picks the first matching identity in insertion order; the model picks some identity that holds the credential (the ghost `matching`). Credential IDs are meant to be unique across identities, and then the two agree.
- AbortController event dispatch is left out: an external signal firing later, the handler running, and `abortToken.signal` reaching the ceremony. The model records which token is current, each token's abort reason, and which tokens have a handler attached (`links`, the `externalSignalCache`).
- A numeric lifetime is an integer; fractions and `Infinity` are not modelled.
- LockKeyFlow.DiscoverableStep: caches the resolved key with a forced write, not the insert-if-absent of `src/ldl.js:314` and `src/ldl.js:416`. LockKeyFlow.DiscoverableStepAsWritten has the code's caching; see Findings.
- LockKeyFlow.FirstRegistrationStep: caches the new key with a forced write, not the insert-if-absent of `src/ldl.js:342`. LockKeyFlow.FirstRegistrationStepAsWritten has the code's caching; see Findings.
- LockKeyFlow.GetLockKeyStep: takes the discoverable and first-registration branches with the corrected caching, so its cache differs from the code's when an entry was already under the resolved or adopted ID.
- Manager.LockKeyManager.GetLockKey and Manager.LockKeyManager.GetLockKeyLoaded: leave the state GetLockKeyStep gives (GetLockKeyLoaded applies it), so they have the corrected caching too.

## Findings

| source | as written | input that shows it | evidently intended | confidence | as-written member | corrected member |
|---|---|---|---|---|---|---|
| src/ldl.js:342 (also 416) | the key a first registration resolves is cached with `cacheLockKey(localID, lockKey)`, which keeps any entry already under that ID; so is the key extractLockKey resolves | getLockKey({localIdentity: "x", verify: false}) authenticates with a passkey of seed A and matches no identity, so key A is cached under "x"; getLockKey({localIdentity: "x", addNewPasskey: true}) then registers seed B and returns key B, but the cache keeps A; a third call with localIdentity "x" returns key A | the key just returned becomes the cached key for that identity | not executed | LockKeyFlow.EarlierKeyShadowsRegistrationAsWritten (over LockKeyFlow.DiscoverableStepAsWritten and LockKeyFlow.FirstRegistrationStepAsWritten) | LockKeyFlow.FirstRegistrationStep and LockKeyFlow.DiscoverableStep, through ManagerTypes.CacheResolvedKey; LockKeyFlow.ReturnedKeyIsCached is the intended property |
| src/ldl.js:314 | a discoverable authentication that adopts a registered identity caches the key under it with `cacheLockKey(localID, lockKey)`, which keeps an expired entry (none are purged) | identity "m" has an entry cached more than the lifetime ago; getLockKey for an unregistered ID authenticates with one of m's passkeys and returns the extracted key under "m", but the cache still holds the expired entry, so the next call for "m" finds nothing cached and authenticates again | the key just returned becomes the cached key for that identity | not executed | LockKeyFlow.ExpiredEntryKeptAsWritten (over LockKeyFlow.DiscoverableStepAsWritten) | LockKeyFlow.DiscoverableStep, through ManagerTypes.CacheResolvedKey; LockKeyFlow.ReturnedKeyIsCached is the intended property |
