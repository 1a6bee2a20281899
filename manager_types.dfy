/**
 * Values the lock-key manager exchanges with its callers and with the ceremonies it
 * drives, and the pure parts of its decisions.
 */
module ManagerTypes {
  import opened Wrappers
  import opened Foreign
  import opened LockKeys
  import opened Registry
  import opened KeyCache

  /** An AbortController the manager created, by its creation number. */
  type Token = nat
  /** An external AbortSignal, by identity. */
  type SignalId = nat

  datatype ExternalSignal = ExternalSignal(id: SignalId, aborted: bool, reason: string)

  const ABANDONED_REASON: string := "Passkey operation abandoned."

  /** The storage adapters configureStorage accepts. */
  const STORAGE_TYPES: seq<string> := ["idb", "local-storage", "session-storage", "cookie", "opfs"]
  const DEFAULT_STORAGE_TYPE: string := "idb"

  /** How a WebAuthn ceremony settled: with a result, with null (dismissed), or by throwing. */
  datatype Ceremony<T> = Completed(result: T) | NoResult | Threw

  datatype RegResult = RegResult(credentialID: string, publicKey: PublicKey)
  datatype AuthResult = AuthResult(credentialID: string, userID: Option<Bytes>)

  /** The options of getLockKey that decide its course. `localIdentity` None: omitted. */
  datatype Request = Request(
    localIdentity: Option<string>,
    addNewPasskey: bool,
    resetLockKey: bool,
    useLockKey: Option<LockKey>,
    verify: bool,
    signal: Option<ExternalSignal>)

  /** getLockKey's options when none are given: a freshly generated local ID, no new
      passkey, no reset, no imported key, verification on, no signal. */
  const DEFAULT_REQUEST: Request := Request(None, false, false, None, true, None)

  /** What getLockKey learns from outside: the clock, the random local ID and seed it would
      generate, the ceremony outcomes, and whether the authentication response verifies
      against a given public key. */
  datatype World = World(
    now: int,
    generatedID: string,
    freshSeed: Seed,
    registration: Ceremony<RegResult>,
    authentication: Ceremony<AuthResult>,
    responseVerifies: PublicKey -> bool)

  /** What getLockKey settles with: a lock-key for a local identity, nothing, or an error. */
  datatype Outcome = Key(lockKey: LockKey, localIdentity: string) | NoKey | Failed(failure: Failure)

  /** The branch of getLockKey taken. */
  datatype Path =
    | ReturnCached | AddPasskey | ResetIdentity | RestrictedAuth | NotCachedForNewPasskey
    | DiscoverableAuth | FirstRegistration

  function ResolvedID(req: Request, w: World): string {
    req.localIdentity.GetOr(w.generatedID)
  }

  /** getLockKey's branch conditions, in the order the code tests them. */
  function Decide(known: bool, cached: bool, req: Request): (path: Path)
    ensures path == ReturnCached <==> known && cached && !req.resetLockKey && !req.addNewPasskey
    ensures path == AddPasskey <==> known && cached && !req.resetLockKey && req.addNewPasskey
    ensures path == ResetIdentity <==> known && req.resetLockKey
    ensures path == RestrictedAuth <==> known && !cached && !req.resetLockKey && !req.addNewPasskey
    ensures path == NotCachedForNewPasskey <==> known && !cached && !req.resetLockKey && req.addNewPasskey
    ensures path == DiscoverableAuth <==> !known && !req.addNewPasskey
    ensures path == FirstRegistration <==> !known && req.addNewPasskey
  {
    if known then
      if cached && !req.resetLockKey then (if req.addNewPasskey then AddPasskey else ReturnCached)
      else if req.resetLockKey then ResetIdentity
      else if !req.addNewPasskey then RestrictedAuth
      else NotCachedForNewPasskey
    else if !req.addNewPasskey then DiscoverableAuth
    else FirstRegistration
  }

  /** The lock-key a registration path uses: the imported one, checked, or one derived from a
      fresh seed. */
  function ImportedOrFresh(p: Primitives, req: Request, w: World): (r: Result<LockKey, Failure>)
    ensures r.Ok? ==> r.value.keyFormatVersion == Some(CURRENT_LOCK_KEY_FORMAT_VERSION)
    ensures req.useLockKey.None? ==> r.Ok? && r.value.iv == Some(w.freshSeed)
    ensures r.Err? <==> && req.useLockKey.Some?
                        && req.useLockKey.value.keyFormatVersion != Some(CURRENT_LOCK_KEY_FORMAT_VERSION)
                        && !(req.useLockKey.value.iv.Some? && |req.useLockKey.value.iv.value| == IV_BYTE_LENGTH)
    ensures r.Err? ==> r.error == UnrecognizedLockKey
  {
    if req.useLockKey.Some? then CheckLockKey(p, req.useLockKey.value) else Ok(DeriveLockKey(p, w.freshSeed))
  }

  /** `passkeys.find(passkey => passkey.credentialID == credentialID)`: the first match. */
  function FindPasskey(passkeys: seq<Passkey>, credentialID: string): (r: Option<Passkey>)
    ensures r.None? <==> forall i :: 0 <= i < |passkeys| ==> passkeys[i].credentialID != credentialID
    ensures r.Some? ==> exists i :: 0 <= i < |passkeys| && passkeys[i] == r.value
                                    && r.value.credentialID == credentialID
                                    && forall j :: 0 <= j < i ==> passkeys[j].credentialID != credentialID
  {
    if passkeys == [] then None
    else if passkeys[0].credentialID == credentialID then Some(passkeys[0])
    else
      var r := FindPasskey(passkeys[1..], credentialID);
      if r.Some? then
        ghost var i :| 0 <= i < |passkeys[1..]| && passkeys[1..][i] == r.value
                       && r.value.credentialID == credentialID
                       && forall j :: 0 <= j < i ==> passkeys[1..][j].credentialID != credentialID;
        assert passkeys[i + 1] == r.value;
        r
      else r
  }

  predicate HasCredential(identity: Identity, credentialID: string) {
    exists i :: 0 <= i < |identity.passkeys| && identity.passkeys[i].credentialID == credentialID
  }

  /** The verify step: a passkey with the returned credential ID exists, and the response
      verifies against its public key. */
  predicate AuthVerified(identity: Identity, credentialID: string, responseVerifies: PublicKey -> bool)
    ensures AuthVerified(identity, credentialID, responseVerifies) ==> HasCredential(identity, credentialID)
  {
    match FindPasskey(identity.passkeys, credentialID)
    case Some(passkey) => responseVerifies(passkey.publicKey)
    case None => false
  }

  lemma AuthVerifiedNeedsCredential(identity: Identity, credentialID: string, responseVerifies: PublicKey -> bool)
    ensures AuthVerified(identity, credentialID, responseVerifies) ==> HasCredential(identity, credentialID)
    ensures HasCredential(identity, credentialID) ==>
              (AuthVerified(identity, credentialID, responseVerifies)
               <==> responseVerifies(FindPasskey(identity.passkeys, credentialID).value.publicKey))
  {
  }

  /** registerLocalIdentity's sequence number: one past the identity's current `lastSeq`,
      or 1 for an identity not in the registry. */
  function NextSeq(identities: Identities, localID: string): int {
    (if localID in identities then identities[localID].lastSeq else 0) + 1
  }

  /** The user handle registerLocalIdentity passes to the registration ceremony. */
  function RegistrationUserHandle(identities: Identities, localID: string, lockKey: LockKey): (h: Bytes)
    requires lockKey.iv.Some?
    ensures var iv := lockKey.iv.value;
            && |h| == |iv| + 2 && h[..|iv|] == iv
            && BigEndian16(h[|iv|], h[|iv| + 1])
               == ((if localID in identities then identities[localID].lastSeq else 0) + 1) % SEQ_MODULUS
  {
    UserHandle(lockKey.iv.value, NextSeq(identities, localID))
  }

  /** The user handle registerLocalIdentity passes to the registration ceremony; none when
      the key has no `iv`, for then it throws before the ceremony starts. */
  function RegistrationHandle(identities: Identities, localID: string, lockKey: LockKey): Option<Bytes> {
    if lockKey.iv.Some? then Some(RegistrationUserHandle(identities, localID, lockKey)) else None
  }

  /** registerLocalIdentity: a one-passkey record, nothing (ceremony dismissed), or the
      wrapped error (a lock-key without an `iv`, or a ceremony that threw). */
  function Registration(p: Primitives, identities: Identities, localID: string, lockKey: LockKey,
                        reg: Ceremony<RegResult>): (r: Result<Option<Identity>, Failure>)
    ensures r.Err? <==> lockKey.iv.None? || reg.Threw?
    ensures r.Err? ==> r.error == RegistrationFailed
    ensures r == Ok(None) <==> lockKey.iv.Some? && reg.NoResult?
    ensures r.Ok? && r.value.Some? ==>
              && reg.Completed?
              && r.value.value.lastSeq == NextSeq(identities, localID)
              && r.value.value.passkeys
                 == [BuildPasskeyEntry(p, NextSeq(identities, localID), reg.result.credentialID, reg.result.publicKey)]
  {
    if lockKey.iv.None? then Err(RegistrationFailed)
    else
      var lastSeq := NextSeq(identities, localID);
      match reg
      case Threw => Err(RegistrationFailed)
      case NoResult => Ok(None)
      case Completed(rr) => Ok(Some(Identity(lastSeq, [BuildPasskeyEntry(p, lastSeq, rr.credentialID, rr.publicKey)])))
  }

  /** A registered record, once stored, passes the load-time checks. */
  lemma RegisteredRecordSound(p: Primitives, identities: Identities, localID: string, lockKey: LockKey,
                              reg: Ceremony<RegResult>)
    requires p.Valid()
    requires Registration(p, identities, localID, lockKey, reg).Ok?
    requires Registration(p, identities, localID, lockKey, reg).value.Some?
    requires reg.result.credentialID != ""
    requires p.pack(reg.result.publicKey).raw != "" && p.pack(reg.result.publicKey).spki != ""
    ensures IdentitySound(p, Registration(p, identities, localID, lockKey, reg).value.value)
  {
    BuiltPasskeyEntryAccepted(p, NextSeq(identities, localID), reg.result.credentialID, reg.result.publicKey);
  }

  /** Authenticating later with the passkey registered for a derived lock-key recovers that key. */
  lemma RegisteredKeyRecoveredByAuth(p: Primitives, identities: Identities, localID: string, iv: Bytes)
    requires |iv| == IV_BYTE_LENGTH
    ensures ExtractedLockKey(p, Some(RegistrationUserHandle(identities, localID, DeriveLockKey(p, iv))))
            == Ok(DeriveLockKey(p, iv))
  {
    RegisteredLockKeyRecovered(p, iv, NextSeq(identities, localID));
  }

  /** configureStorage's whitelist. */
  function CheckStorageType(storageType: string): (r: Result<string, Failure>)
    ensures r.Ok? <==> storageType in STORAGE_TYPES
    ensures r.Ok? ==> r.value == storageType
    ensures r.Err? ==> r.error == UnrecognizedStorageType
  {
    if storageType in STORAGE_TYPES then Ok(storageType) else Err(UnrecognizedStorageType)
  }

  // ---------------------------------------------------------------- abort-token bookkeeping

  /** The abort reasons after resetAbortToken: a still-pending previous token is abandoned,
      the new token takes an already-aborted external signal's reason. */
  function ReasonsAfterReset(previous: Option<Token>, reasons: map<Token, string>, newToken: Token,
                             signal: Option<ExternalSignal>): map<Token, string>
  {
    var afterPrevious :=
      if previous.Some? && previous.value !in reasons then reasons[previous.value := ABANDONED_REASON]
      else reasons;
    if signal.Some? && signal.value.aborted then afterPrevious[newToken := signal.value.reason]
    else afterPrevious
  }

  /** The token-to-signal links after resetAbortToken: only the new token's, when it was
      given a signal that had not fired yet. */
  function LinksAfterReset(signal: Option<ExternalSignal>, newToken: Token): map<Token, SignalId> {
    if signal.Some? && !signal.value.aborted then map[newToken := signal.value.id] else map[]
  }

  /** resetAbortToken's promises: the previous token ends aborted, and keeps its reason if it
      had one; no other token's reason changes; the new one is aborted exactly when the
      external signal already was, with that signal's reason. */
  lemma ResetAbortsPrevious(previous: Option<Token>, reasons: map<Token, string>, newToken: Token,
                            signal: Option<ExternalSignal>)
    requires newToken !in reasons && (previous.Some? ==> previous.value != newToken)
    ensures var r := ReasonsAfterReset(previous, reasons, newToken, signal);
            && (previous.Some? ==> previous.value in r)
            && (previous.Some? && previous.value in reasons ==> r[previous.value] == reasons[previous.value])
            && (previous.Some? && previous.value !in reasons ==> r[previous.value] == ABANDONED_REASON)
            && (newToken in r <==> signal.Some? && signal.value.aborted)
            && (newToken in r ==> r[newToken] == signal.value.reason)
            && (forall t :: t in reasons ==> t in r && r[t] == reasons[t])
            && (forall t :: t in r ==> t in reasons || t == newToken || previous == Some(t))
  {
  }

  /** After a reset the only token with an attached handler is the new one: it has one, on the
      given signal, exactly when that signal had not fired yet. */
  lemma HandlerAfterReset(signal: Option<ExternalSignal>, newToken: Token)
    ensures var links := LinksAfterReset(signal, newToken);
            && (newToken in links <==> signal.Some? && !signal.value.aborted)
            && (forall t :: t in links ==> t == newToken && links[t] == signal.value.id)
  {
  }

  // ---------------------------------------------------------------- caching a resolved key

  /** Caching a resolved key as intended: replace whatever is under the local ID, so the
      returned key is what the cache then gives back. */
  function CacheResolvedKey(cache: Cache, localID: string, lockKey: LockKey, now: int): (r: Cache)
    ensures now >= 0 ==> forall maxLifetime: nat :: CachedLockKey(r, localID, now, maxLifetime) == Some(lockKey)
    ensures r.Keys == cache.Keys + {localID}
    ensures r[localID] == CacheEntry(lockKey, now)
    ensures forall other :: other in cache && other != localID ==> r[other] == cache[other]
  {
    CachePut(cache, localID, lockKey, now, true)
  }
}
