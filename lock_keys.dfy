/**
 * Lock-key derivation, validation of imported lock-keys, and the WebAuthn user handle
 * that carries a lock-key's seed (`iv`) through a passkey.
 */
module LockKeys {
  import opened Wrappers
  import opened Foreign

  const CURRENT_LOCK_KEY_FORMAT_VERSION: int := 1
  /** sodium.crypto_sign_SEEDBYTES */
  const IV_BYTE_LENGTH: nat := 32
  /** The user handle holds the sequence number in two bytes. */
  const SEQ_MODULUS: int := 65536

  /** A seed of the length generateLockKey draws from the random source. */
  type Seed = s: Bytes | |s| == IV_BYTE_LENGTH witness seq(IV_BYTE_LENGTH, i => 0)

  /**
   * A lock-key. The same shape describes an object a caller offers for import, whose
   * `keyFormatVersion` may be missing or not the number 1 (None) and whose `iv` may be
   * missing or not a byte array (None); the other fields are carried along unexamined.
   */
  datatype LockKey = LockKey(
    keyFormatVersion: Option<int>,
    iv: Option<Bytes>,
    publicKey: Bytes,
    privateKey: Bytes,
    encPK: Bytes,
    encSK: Bytes)

  /** deriveLockKey(iv): the signing keypair seeded by `iv` and its conversion to an
      encryption keypair. */
  function DeriveLockKey(p: Primitives, iv: Bytes): (k: LockKey)
    ensures k.keyFormatVersion == Some(CURRENT_LOCK_KEY_FORMAT_VERSION) && k.iv == Some(iv)
    ensures k.publicKey == p.seedKeypair(iv).publicKey && k.privateKey == p.seedKeypair(iv).privateKey
    ensures k.encPK == p.pkToCurve(k.publicKey) && k.encSK == p.skToCurve(k.privateKey)
  {
    var kp := p.seedKeypair(iv);
    LockKey(Some(CURRENT_LOCK_KEY_FORMAT_VERSION), Some(iv), kp.publicKey, kp.privateKey,
            p.pkToCurve(kp.publicKey), p.skToCurve(kp.privateKey))
  }

  /** checkLockKey: accept a current-format key as it is, re-derive from a usable `iv`,
      reject anything else. */
  function CheckLockKey(p: Primitives, candidate: LockKey): (r: Result<LockKey, Failure>)
    ensures candidate.keyFormatVersion == Some(CURRENT_LOCK_KEY_FORMAT_VERSION) ==> r == Ok(candidate)
    ensures candidate.keyFormatVersion != Some(CURRENT_LOCK_KEY_FORMAT_VERSION)
            && candidate.iv.Some? && |candidate.iv.value| == IV_BYTE_LENGTH
            ==> r == Ok(DeriveLockKey(p, candidate.iv.value))
    ensures r.Err? <==> candidate.keyFormatVersion != Some(CURRENT_LOCK_KEY_FORMAT_VERSION)
                        && !(candidate.iv.Some? && |candidate.iv.value| == IV_BYTE_LENGTH)
    ensures r.Err? ==> r.error == UnrecognizedLockKey
    ensures r.Ok? ==> r.value.keyFormatVersion == Some(CURRENT_LOCK_KEY_FORMAT_VERSION)
  {
    if candidate.keyFormatVersion == Some(CURRENT_LOCK_KEY_FORMAT_VERSION) then Ok(candidate)
    else if candidate.iv.Some? && |candidate.iv.value| == IV_BYTE_LENGTH then
      Ok(DeriveLockKey(p, candidate.iv.value))
    else Err(UnrecognizedLockKey)
  }

  /** A key accepted once is accepted again, unchanged. */
  lemma CheckLockKeyIdempotent(p: Primitives, candidate: LockKey)
    requires CheckLockKey(p, candidate).Ok?
    ensures CheckLockKey(p, CheckLockKey(p, candidate).value) == CheckLockKey(p, candidate)
  {
    var k := CheckLockKey(p, candidate).value;
    assert k.keyFormatVersion == Some(CURRENT_LOCK_KEY_FORMAT_VERSION);
  }

  /** The number two bytes encode, most significant first. */
  function BigEndian16(hi: byte, lo: byte): int {
    hi as int * 256 + lo as int
  }

  /** The two trailing user-handle bytes: DataView.setInt16(0, n, false) stores n modulo
      2^16, most significant byte first. */
  function SeqBytes(n: int): (b: Bytes)
    ensures |b| == 2 && BigEndian16(b[0], b[1]) == n % SEQ_MODULUS
  {
    var m := n % SEQ_MODULUS;
    [m / 256, m % 256]
  }

  /** The user handle registerLocalIdentity gives a new passkey: the seed, then the
      passkey's sequence number in two big-endian bytes. */
  function UserHandle(iv: Bytes, lastSeq: int): (h: Bytes)
    ensures |h| == |iv| + 2 && h[..|iv|] == iv
    ensures BigEndian16(h[|iv|], h[|iv| + 1]) == lastSeq % SEQ_MODULUS
  {
    iv + SeqBytes(lastSeq)
  }

  /** The seed extractLockKey takes from an authentication's user handle: its first
      IV_BYTE_LENGTH bytes, provided the handle is a byte array of exactly IV_BYTE_LENGTH + 2. */
  function SeedFromUserID(userID: Option<Bytes>): (seed: Option<Bytes>)
    ensures seed.Some? <==> userID.Some? && |userID.value| == IV_BYTE_LENGTH + 2
    ensures seed.Some? ==> |seed.value| == IV_BYTE_LENGTH && seed.value <= userID.value
  {
    if userID.Some? && |userID.value| == IV_BYTE_LENGTH + 2 then Some(userID.value[..IV_BYTE_LENGTH])
    else None
  }

  /** extractLockKey without its caching: derive the lock-key from the user handle's seed. */
  function ExtractedLockKey(p: Primitives, userID: Option<Bytes>): (r: Result<LockKey, Failure>)
    ensures r.Ok? <==> SeedFromUserID(userID).Some?
    ensures r.Ok? ==> r.value == DeriveLockKey(p, SeedFromUserID(userID).value)
    ensures r.Err? ==> r.error == InvalidPasskeyInfo
  {
    match SeedFromUserID(userID)
    case Some(seed) => Ok(DeriveLockKey(p, seed))
    case None => Err(InvalidPasskeyInfo)
  }

  /** Round trip: a handle made from a full-length seed gives that seed back. */
  lemma UserHandleRoundTrip(iv: Bytes, lastSeq: int)
    requires |iv| == IV_BYTE_LENGTH
    ensures SeedFromUserID(Some(UserHandle(iv, lastSeq))) == Some(iv)
  {
    var h := UserHandle(iv, lastSeq);
    assert h[..IV_BYTE_LENGTH] == iv;
  }

  /** Conversely, every user handle extractLockKey accepts is the handle of its own seed
      and of the sequence number in its last two bytes. */
  lemma AcceptedUserIDIsHandle(userID: Bytes)
    requires SeedFromUserID(Some(userID)).Some?
    ensures var seed := SeedFromUserID(Some(userID)).value;
            userID == UserHandle(seed, BigEndian16(userID[IV_BYTE_LENGTH], userID[IV_BYTE_LENGTH + 1]))
  {
    var seed := userID[..IV_BYTE_LENGTH];
    var n := BigEndian16(userID[IV_BYTE_LENGTH], userID[IV_BYTE_LENGTH + 1]);
    assert n % SEQ_MODULUS == n;
    assert SeqBytes(n) == userID[IV_BYTE_LENGTH..];
    assert userID == seed + userID[IV_BYTE_LENGTH..];
  }

  /** A lock-key registered through a passkey is recovered, whole, by authenticating with it. */
  lemma RegisteredLockKeyRecovered(p: Primitives, iv: Bytes, lastSeq: int)
    requires |iv| == IV_BYTE_LENGTH
    ensures ExtractedLockKey(p, Some(UserHandle(iv, lastSeq))) == Ok(DeriveLockKey(p, iv))
  {
    UserHandleRoundTrip(iv, lastSeq);
  }

  /** Handles of one seed share their prefix and differ exactly when the sequence numbers
      differ modulo 2^16: passkey 65537 of an identity gets the same handle as passkey 1. */
  lemma HandlesDifferOnlyInSequence(iv: Bytes, s1: int, s2: int)
    ensures UserHandle(iv, s1)[..|iv|] == UserHandle(iv, s2)[..|iv|]
    ensures UserHandle(iv, s1) == UserHandle(iv, s2) <==> s1 % SEQ_MODULUS == s2 % SEQ_MODULUS
  {
    var h1, h2 := UserHandle(iv, s1), UserHandle(iv, s2);
    if s1 % SEQ_MODULUS == s2 % SEQ_MODULUS {
      assert SeqBytes(s1) == SeqBytes(s2);
    }
    if h1 == h2 {
      assert h1[|iv|] == h2[|iv|] && h1[|iv| + 1] == h2[|iv| + 1];
    }
  }
}
