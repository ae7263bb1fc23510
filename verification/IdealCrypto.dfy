/**
 * Ideal cryptography. A ciphertext or signature is the tuple of what went into
 * it, so it opens or verifies with exactly the matching key and data and with
 * nothing else. Nonces and key sizes carry no meaning here and are left out.
 */
module IdealCrypto {
  import opened Wrappers
  import opened Bytes

  // ── AES-GCM ────────────────────────────────────────────────────────────────

  datatype Sealed<K, A, P> = Sealed(key: K, aad: A, plain: P)

  function Open<K(==), A(==), P>(c: Sealed<K, A, P>, key: K, aad: A): (r: Option<P>) {
    if c.key == key && c.aad == aad then Some(c.plain) else None
  }

  // ── Ed25519 ────────────────────────────────────────────────────────────────

  /** A user's RSA private key (PKCS#8 bytes); the identity seed derives from it. */
  type PrivateKey = ByteString

  /** The Ed25519 public key whose seed is HKDF of the RSA private key. */
  datatype IdentityPublic = IdentityPublic(derivedFrom: PrivateKey)

  datatype Signature = Signature(key: IdentityPublic, message: ByteString)

  function Sign(message: ByteString, priv: PrivateKey): Signature {
    Signature(IdentityPublic(priv), message)
  }

  predicate Verifies(sig: Signature, message: ByteString, key: IdentityPublic) {
    sig.key == key && sig.message == message
  }

  // ── RSA-OAEP ───────────────────────────────────────────────────────────────

  /** A raw AES-256 key as RSA-OAEP carries it. */
  type OrgKey = s: ByteString | |s| == 32 witness seq(32, _ => 0)

  /** The SPKI bytes of the public key belonging to `priv`. */
  function SpkiOf(priv: PrivateKey): ByteString {
    [0x30] + priv
  }

  function OaepEncrypt(key: OrgKey, spki: ByteString): ByteString {
    key + spki
  }

  function OaepDecrypt(c: ByteString, priv: PrivateKey): (r: Option<OrgKey>) {
    if |c| >= 32 && c[32..] == SpkiOf(priv) then Some(c[..32]) else None
  }

  /** Only the private key behind the recipient's SPKI opens the ciphertext. */
  lemma OaepOpensOnlyForRecipient(key: OrgKey, recipient: PrivateKey, reader: PrivateKey)
    ensures OaepDecrypt(OaepEncrypt(key, SpkiOf(recipient)), reader) ==
            if reader == recipient then Some(key) else None
  {
    var c := OaepEncrypt(key, SpkiOf(recipient));
    assert c[..32] == key && c[32..] == SpkiOf(recipient);
    assert SpkiOf(recipient)[1..] == recipient && SpkiOf(reader)[1..] == reader;
  }
}
