/**
 * The identity registry: the in-memory shape of local identities and their passkeys,
 * the shape they take in storage, the filter applied when they are loaded, the packing
 * applied when they are stored, and the per-passkey integrity hash.
 */
module Registry {
  import opened Wrappers
  import opened Foreign

  /** One registered passkey, public key unpacked. */
  datatype Passkey = Passkey(seqNo: int, credentialID: string, publicKey: PublicKey, hash: string)

  /** One local identity: the last passkey sequence number handed out, and its passkeys. */
  datatype Identity = Identity(lastSeq: int, passkeys: seq<Passkey>)

  type Identities = map<string, Identity>

  // What storage hands back under the "local-identities" key. A field is None when it is
  // missing or holds a value of the wrong JavaScript type (a `typeof` test fails).
  datatype StoredKey = StoredKey(algoCOSE: Option<int>, raw: Option<string>, spki: Option<string>)
  datatype StoredPasskey = StoredPasskey(
    seqNo: Option<int>, credentialID: Option<string>, publicKey: Option<StoredKey>, hash: Option<string>)
  datatype StoredIdentity = StoredIdentity(lastSeq: Option<int>, passkeys: Option<seq<StoredPasskey>>)

  type StoredIdentities = map<string, StoredIdentity>

  // ---------------------------------------------------------------- integrity hash

  /** computePasskeyEntryHash: the hash of every field but `hash`, public key packed. */
  function ComputePasskeyEntryHash(p: Primitives, entry: Passkey): (h: string)
    ensures p.Valid() ==> h != ""
  {
    p.digest(HashInput(entry.seqNo, entry.credentialID, p.pack(entry.publicKey)))
  }

  /** Packing and unpacking a public key are inverse both ways: a stored key unpacked and
      packed again is the stored key. Loading relies on this where it hashes a stored
      passkey whose key is already packed. */
  ghost predicate CodecStable(p: Primitives) {
    forall k: PackedKey :: p.pack(p.unpack(k)) == k
  }

  /** buildPasskeyEntry: the entry, stamped with its own hash. */
  function BuildPasskeyEntry(p: Primitives, seqNo: int, credentialID: string, publicKey: PublicKey): (e: Passkey)
    ensures e.seqNo == seqNo && e.credentialID == credentialID && e.publicKey == publicKey
    ensures e.hash == ComputePasskeyEntryHash(p, e)
  {
    var unhashed := Passkey(seqNo, credentialID, publicKey, "");
    unhashed.(hash := ComputePasskeyEntryHash(p, unhashed))
  }

  // ---------------------------------------------------------------- storing

  /** A passkey as stored: its public key packed, every other field as it is. */
  function PackPasskey(p: Primitives, entry: Passkey): StoredPasskey {
    var k := p.pack(entry.publicKey);
    StoredPasskey(Some(entry.seqNo), Some(entry.credentialID),
                  Some(StoredKey(Some(k.algoCOSE), Some(k.raw), Some(k.spki))), Some(entry.hash))
  }

  function PackPasskeys(p: Primitives, entries: seq<Passkey>): (r: seq<StoredPasskey>)
    ensures |r| == |entries|
    ensures forall i :: 0 <= i < |entries| ==> r[i] == PackPasskey(p, entries[i])
  {
    if entries == [] then [] else [PackPasskey(p, entries[0])] + PackPasskeys(p, entries[1..])
  }

  function PackIdentity(p: Primitives, identity: Identity): StoredIdentity {
    StoredIdentity(Some(identity.lastSeq), Some(PackPasskeys(p, identity.passkeys)))
  }

  /** storeLocalIdentities: the value left under the storage key; an empty registry
      removes the key (None) instead of storing an empty object. */
  function StoredRecord(p: Primitives, identities: Identities): (r: Option<StoredIdentities>)
    ensures r.None? <==> identities == map[]
    ensures r.Some? ==> r.value.Keys == identities.Keys
    ensures r.Some? ==> forall id :: id in identities ==> r.value[id] == PackIdentity(p, identities[id])
  {
    if identities != map[] then Some(map id | id in identities :: PackIdentity(p, identities[id]))
    else None
  }

  // ---------------------------------------------------------------- loading

  predicate StoredKeyWellFormed(k: Option<StoredKey>) {
    && k.Some?
    && k.value.algoCOSE.Some?
    && k.value.raw.Some? && k.value.raw.value != ""
    && k.value.spki.Some? && k.value.spki.value != ""
  }

  function StoredPackedKey(k: StoredKey): PackedKey
    requires StoredKeyWellFormed(Some(k))
  {
    PackedKey(k.algoCOSE.value, k.raw.value, k.spki.value)
  }

  /** The load-time test of one stored passkey: structure, then the recomputed hash. The
      stored key, already packed, is hashed as it is; where packing undoes unpacking, that
      is computePasskeyEntryHash of the entry as it is loaded. */
  predicate PasskeyAccepted(p: Primitives, sp: StoredPasskey)
    ensures CodecStable(p) ==>
              (PasskeyAccepted(p, sp) <==>
                 && sp.credentialID.Some? && sp.credentialID.value != ""
                 && sp.seqNo.Some?
                 && StoredKeyWellFormed(sp.publicKey)
                 && sp.hash.Some? && sp.hash.value != ""
                 && sp.hash.value == ComputePasskeyEntryHash(p, Passkey(sp.seqNo.value, sp.credentialID.value,
                                                                        p.unpack(StoredPackedKey(sp.publicKey.value)),
                                                                        sp.hash.value)))
  {
    && sp.credentialID.Some? && sp.credentialID.value != ""
    && sp.seqNo.Some?
    && StoredKeyWellFormed(sp.publicKey)
    && sp.hash.Some? && sp.hash.value != ""
    && sp.hash.value == p.digest(HashInput(sp.seqNo.value, sp.credentialID.value, StoredPackedKey(sp.publicKey.value)))
  }

  /** `passkeys.every(...)`. */
  predicate EveryPasskeyAccepted(p: Primitives, ps: seq<StoredPasskey>) {
    ps == [] || (PasskeyAccepted(p, ps[0]) && EveryPasskeyAccepted(p, ps[1..]))
  }

  /** The load-time test of one stored identity: a sequence number and a non-empty list of
      passkeys, every one of which passes. */
  predicate IdentityAccepted(p: Primitives, si: StoredIdentity)
    ensures IdentityAccepted(p, si) <==>
              && si.lastSeq.Some?
              && si.passkeys.Some? && |si.passkeys.value| > 0
              && forall i :: 0 <= i < |si.passkeys.value| ==> PasskeyAccepted(p, si.passkeys.value[i])
  {
    && si.lastSeq.Some?
    && si.passkeys.Some? && |si.passkeys.value| > 0
    && (EveryPasskeyAcceptedIff(p, si.passkeys.value); EveryPasskeyAccepted(p, si.passkeys.value))
  }

  function UnpackPasskey(p: Primitives, sp: StoredPasskey): Passkey
    requires PasskeyAccepted(p, sp)
  {
    Passkey(sp.seqNo.value, sp.credentialID.value, p.unpack(StoredPackedKey(sp.publicKey.value)), sp.hash.value)
  }

  function UnpackPasskeys(p: Primitives, ps: seq<StoredPasskey>): (r: seq<Passkey>)
    requires EveryPasskeyAccepted(p, ps)
    ensures |r| == |ps|
    ensures forall i :: 0 <= i < |ps| ==> PasskeyAccepted(p, ps[i]) && r[i] == UnpackPasskey(p, ps[i])
    ensures forall i :: 0 <= i < |ps| ==> r[i].credentialID != ""
  {
    if ps == [] then [] else [UnpackPasskey(p, ps[0])] + UnpackPasskeys(p, ps[1..])
  }

  function UnpackIdentity(p: Primitives, si: StoredIdentity): Identity
    requires IdentityAccepted(p, si)
  {
    Identity(si.lastSeq.value, UnpackPasskeys(p, si.passkeys.value))
  }

  /** loadLocalIdentities: keep the identities that pass the test, whole; unpack them. */
  function LoadLocalIdentities(p: Primitives, stored: Option<StoredIdentities>): (r: Identities)
    ensures stored.None? ==> r == map[]
    ensures stored.Some? ==> forall id :: id in r <==> id in stored.value && IdentityAccepted(p, stored.value[id])
    ensures stored.Some? ==> forall id :: id in r ==>
              id in stored.value && IdentityAccepted(p, stored.value[id]) && r[id] == UnpackIdentity(p, stored.value[id])
    ensures forall id :: id in r ==> |r[id].passkeys| > 0
    ensures forall id :: id in r ==> forall i :: 0 <= i < |r[id].passkeys| ==> r[id].passkeys[i].credentialID != ""
  {
    var s := stored.GetOr(map[]);
    map id | id in s && IdentityAccepted(p, s[id]) :: UnpackIdentity(p, s[id])
  }

  // ---------------------------------------------------------------- properties

  /** The passkey test is the same as "every passkey passes". */
  lemma {:induction false} EveryPasskeyAcceptedIff(p: Primitives, ps: seq<StoredPasskey>)
    ensures EveryPasskeyAccepted(p, ps) <==> forall i :: 0 <= i < |ps| ==> PasskeyAccepted(p, ps[i])
  {
    if ps != [] {
      EveryPasskeyAcceptedIff(p, ps[1..]);
      assert forall i :: 1 <= i < |ps| ==> ps[i] == ps[1..][i - 1];
    }
  }

  /** A single stored passkey that fails its test drops its whole identity on load. */
  lemma OneBadPasskeyDropsIdentity(p: Primitives, stored: StoredIdentities, id: string, i: nat)
    requires id in stored && stored[id].passkeys.Some? && i < |stored[id].passkeys.value|
    requires !PasskeyAccepted(p, stored[id].passkeys.value[i])
    ensures id !in LoadLocalIdentities(p, Some(stored))
  {
    EveryPasskeyAcceptedIff(p, stored[id].passkeys.value);
  }

  /** An in-memory passkey whose stored form will pass the load test. */
  predicate PasskeySound(p: Primitives, e: Passkey) {
    && e.credentialID != ""
    && p.pack(e.publicKey).raw != ""
    && p.pack(e.publicKey).spki != ""
    && e.hash == ComputePasskeyEntryHash(p, e)
  }

  predicate IdentitySound(p: Primitives, identity: Identity) {
    |identity.passkeys| > 0 && forall i :: 0 <= i < |identity.passkeys| ==> PasskeySound(p, identity.passkeys[i])
  }

  /** A passkey entry built by buildPasskeyEntry, with a packable key and a credential ID,
      is sound: once stored it passes the integrity check. */
  lemma BuiltPasskeyEntryAccepted(p: Primitives, seqNo: int, credentialID: string, publicKey: PublicKey)
    requires p.Valid()
    requires credentialID != "" && p.pack(publicKey).raw != "" && p.pack(publicKey).spki != ""
    ensures PasskeySound(p, BuildPasskeyEntry(p, seqNo, credentialID, publicKey))
    ensures PasskeyAccepted(p, PackPasskey(p, BuildPasskeyEntry(p, seqNo, credentialID, publicKey)))
  {
    var e := BuildPasskeyEntry(p, seqNo, credentialID, publicKey);
    assert p.digest(HashInput(seqNo, credentialID, p.pack(publicKey))) != "";
  }

  lemma PackedPasskeyRoundTrip(p: Primitives, e: Passkey)
    requires p.Valid() && PasskeySound(p, e)
    ensures PasskeyAccepted(p, PackPasskey(p, e)) && UnpackPasskey(p, PackPasskey(p, e)) == e
  {
    var k := p.pack(e.publicKey);
    assert p.digest(HashInput(e.seqNo, e.credentialID, k)) != "";
    assert StoredPackedKey(PackPasskey(p, e).publicKey.value) == k;
    assert p.unpack(k) == e.publicKey;
  }

  lemma {:induction false} PackedPasskeysRoundTrip(p: Primitives, entries: seq<Passkey>)
    requires p.Valid()
    requires forall i :: 0 <= i < |entries| ==> PasskeySound(p, entries[i])
    ensures EveryPasskeyAccepted(p, PackPasskeys(p, entries))
    ensures UnpackPasskeys(p, PackPasskeys(p, entries)) == entries
  {
    if entries != [] {
      PackedPasskeyRoundTrip(p, entries[0]);
      PackedPasskeysRoundTrip(p, entries[1..]);
      assert PackPasskeys(p, entries)[1..] == PackPasskeys(p, entries[1..]);
    }
  }

  /** Loading what storeLocalIdentities wrote gives back the registry it was given. */
  lemma LoadAfterStore(p: Primitives, identities: Identities)
    requires p.Valid()
    requires forall id :: id in identities ==> IdentitySound(p, identities[id])
    ensures LoadLocalIdentities(p, StoredRecord(p, identities)) == identities
  {
    var stored := StoredRecord(p, identities);
    if stored.Some? {
      forall id | id in identities
        ensures IdentityAccepted(p, stored.value[id]) && UnpackIdentity(p, stored.value[id]) == identities[id]
      {
        PackedPasskeysRoundTrip(p, identities[id].passkeys);
      }
    }
  }

  /** Every identity loaded, whatever storage held, would pass the load test again once
      stored, provided packing undoes unpacking. */
  lemma LoadedIdentitiesSound(p: Primitives, stored: Option<StoredIdentities>)
    requires p.Valid() && CodecStable(p)
    ensures var r := LoadLocalIdentities(p, stored);
            forall id :: id in r ==> IdentitySound(p, r[id])
  {
    var r := LoadLocalIdentities(p, stored);
    forall id, i | id in r && 0 <= i < |r[id].passkeys|
      ensures PasskeySound(p, r[id].passkeys[i])
    {
      var sp := stored.value[id].passkeys.value[i];
      var k := StoredPackedKey(sp.publicKey.value);
      assert r[id].passkeys[i] == UnpackPasskey(p, sp);
      assert p.pack(p.unpack(k)) == k;
    }
  }

  /** The hash must be collision-free on the entries it is asked to tell apart. */
  ghost predicate DigestInjective(p: Primitives) {
    forall a: HashInput, b: HashInput :: p.digest(a) == p.digest(b) ==> a == b
  }

  /** With a collision-free hash, two entries hash alike exactly when they agree on
      everything but the hash, their public keys compared packed. */
  lemma HashDeterminedByContent(p: Primitives, a: Passkey, b: Passkey)
    requires DigestInjective(p)
    ensures ComputePasskeyEntryHash(p, a) == ComputePasskeyEntryHash(p, b) <==>
              a.seqNo == b.seqNo && a.credentialID == b.credentialID && p.pack(a.publicKey) == p.pack(b.publicKey)
  {
  }

  /** Integrity guard: a stored passkey whose content (anything but `hash`) was changed
      after a sound entry was stored, the hash kept, fails the load test. */
  lemma TamperedPasskeyRejected(p: Primitives, e: Passkey, tampered: StoredPasskey)
    requires DigestInjective(p) && PasskeySound(p, e)
    requires tampered.hash == PackPasskey(p, e).hash
    requires tampered.seqNo != Some(e.seqNo) || tampered.credentialID != Some(e.credentialID)
             || (StoredKeyWellFormed(tampered.publicKey) && StoredPackedKey(tampered.publicKey.value) != p.pack(e.publicKey))
    ensures !PasskeyAccepted(p, tampered)
  {
  }
}
