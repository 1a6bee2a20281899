/**
 * The collaborators the lock-key manager calls but does not implement: the sodium
 * primitives, the public-key pack/unpack codec and the passkey-entry hash. They are
 * carried as function values, so the model knows nothing about them beyond
 * determinism and the few facts stated in `Primitives.Valid`.
 */
module Foreign {

  type byte = b: int | 0 <= b < 256
  type Bytes = seq<byte>

  /** A signing keypair as returned by crypto_sign_seed_keypair. */
  datatype KeyPair = KeyPair(publicKey: Bytes, privateKey: Bytes)

  /** A passkey public key in its in-memory (unpacked) form. */
  datatype PublicKey = PublicKey(algoCOSE: int, raw: Bytes, spki: Bytes)

  /** A passkey public key in its serializable (packed, base64 text) form. */
  datatype PackedKey = PackedKey(algoCOSE: int, raw: string, spki: string)

  /** The content of a passkey entry that its integrity hash covers: every field but `hash`,
      with the public key packed. */
  datatype HashInput = HashInput(seqNo: int, credentialID: string, publicKey: PackedKey)

  datatype Primitives = Primitives(
    seedKeypair: Bytes -> KeyPair,      // crypto_sign_seed_keypair
    pkToCurve: Bytes -> Bytes,          // crypto_sign_ed25519_pk_to_curve25519
    skToCurve: Bytes -> Bytes,          // crypto_sign_ed25519_sk_to_curve25519
    pack: PublicKey -> PackedKey,       // packPublicKeyJSON
    unpack: PackedKey -> PublicKey,     // unpackPublicKeyJSON
    digest: HashInput -> string,        // toBase64String(crypto_hash(JSON.stringify(...)))
    seal: (Bytes, Bytes) -> Bytes,      // crypto_box_seal(data, encPK)
    toBase64: Bytes -> string)          // toBase64String
  {
    /** What the model relies on: unpacking undoes packing, and a base64-encoded hash is
        never the empty string. */
    ghost predicate Valid() {
      && (forall k: PublicKey :: unpack(pack(k)) == k)
      && (forall h: HashInput :: digest(h) != "")
    }
  }
}
