/** backends/aes_gcm.py: nonce-prefix framing around an ideal AEAD. */
module AesGcm {
  import opened Results
  import opened Backends
  import opened Serialization

  const NONCE_LENGTH := 12
  const TAG_LENGTH := 16
  const KEY_LENGTH := 32
  const MIN_CIPHERTEXT_LENGTH := NONCE_LENGTH + TAG_LENGTH

  datatype Aead = Aead(
    seal: (bytes, bytes, bytes) -> bytes,          // key, nonce, plaintext
    open: (bytes, bytes, bytes) -> Option<bytes>)  // None is InvalidTag

  ghost predicate Ideal(lib: Aead) {
    forall k, nonce, p :: SealOpens(lib, k, nonce, p)
  }

  ghost predicate SealOpens(lib: Aead, k: bytes, nonce: bytes, p: bytes) {
    && |lib.seal(k, nonce, p)| == |p| + 16
    && lib.open(k, nonce, lib.seal(k, nonce, p)) == Some(p)
  }

  /** Under `k`, nothing sealed under `k'` verifies. */
  ghost predicate Apart(lib: Aead, k: bytes, k': bytes) {
    forall nonce, p :: lib.open(k, nonce, lib.seal(k', nonce, p)) == None
  }

  function SyncEncrypt(lib: Aead, key: bytes, p: bytes, r: Entropy): bytes {
    var nonce := Draw(r, 0, NONCE_LENGTH);
    nonce + lib.seal(key, nonce, p)
  }

  function SyncDecrypt(lib: Aead, key: bytes, ct: bytes): Result<bytes> {
    if |ct| < MIN_CIPHERTEXT_LENGTH then Raise(DecryptionError)
    else
      match lib.open(key, ct[..NONCE_LENGTH], ct[NONCE_LENGTH..])
      case None => Raise(DecryptionError)
      case Some(p) => Ok(p)
  }

  function Construct(lib: Aead, key: bytes): Result<Backend> {
    if |key| != KEY_LENGTH then Raise(ConfigurationError)
    else Ok(Backend(BACKEND_AES_GCM, (p, r) => Ok(SyncEncrypt(lib, key, p, r)), ct => SyncDecrypt(lib, key, ct)))
  }

  /** What is written: the twelve bytes drawn, then what the AEAD makes of the plaintext under them. */
  lemma Written(lib: Aead, key: bytes, nonce: bytes, p: bytes, r: Entropy)
    requires |nonce| == 12 && forall i :: 0 <= i < 12 ==> nonce[i] == r(i)
    ensures SyncEncrypt(lib, key, p, r) == nonce + lib.seal(key, nonce, p)
  {
    assert Draw(r, 0, NONCE_LENGTH) == nonce;
  }

  /** On arbitrary bytes: opened exactly if they are 12 bytes and a body of 16 or more that opens under them. */
  lemma OpensIff(lib: Aead, key: bytes, ct: bytes, p: bytes)
    ensures SyncDecrypt(lib, key, ct) == Ok(p) <==>
              exists nonce, body ::
                |nonce| == 12 && |body| >= 16 && ct == nonce + body && lib.open(key, nonce, body) == Some(p)
    ensures SyncDecrypt(lib, key, ct).Raise? ==> SyncDecrypt(lib, key, ct).exn == DecryptionError
  {
    if |ct| >= 28 {
      assert ct == ct[..12] + ct[12..];
    }
    forall nonce, body | |nonce| == 12 && ct == nonce + body
      ensures ct[..12] == nonce && ct[12..] == body
    {
    }
  }

  /** The framing splits where it was joined, and the length check refuses nothing that was written. */
  lemma Framing(lib: Aead, key: bytes, key': bytes, p: bytes, r: Entropy)
    requires Ideal(lib)
    ensures SyncDecrypt(lib, key, SyncEncrypt(lib, key, p, r)) == Ok(p)
    ensures |SyncEncrypt(lib, key, p, r)| >= 28
    ensures |SyncEncrypt(lib, key, p, r)| == 28 <==> p == []
    ensures Apart(lib, key', key) ==> SyncDecrypt(lib, key', SyncEncrypt(lib, key, p, r)) == Raise(DecryptionError)
  {
    var nonce, ct := Draw(r, 0, NONCE_LENGTH), SyncEncrypt(lib, key, p, r);
    assert SealOpens(lib, key, nonce, p);
    assert ct[..NONCE_LENGTH] == nonce && ct[NONCE_LENGTH..] == lib.seal(key, nonce, p);
  }

  /** Exactly 32 bytes are a key, and the backend carries id 2. */
  lemma ConstructAccepts(lib: Aead, key: bytes)
    ensures Construct(lib, key).Ok? <==> |key| == 32
    ensures Construct(lib, key).Raise? ==> Construct(lib, key).exn == ConfigurationError
    ensures Construct(lib, key).Ok? ==>
              Construct(lib, key).value.id == 2 &&
              (forall p, r :: Construct(lib, key).value.enc(p, r) == Ok(SyncEncrypt(lib, key, p, r))) &&
              (forall ct :: Construct(lib, key).value.dec(ct) == SyncDecrypt(lib, key, ct))
  {
  }

  lemma AesGcmIsSound(lib: Aead, key: bytes, key': bytes)
    requires Ideal(lib) && |key| == |key'| == 32
    ensures Sound(Construct(lib, key).value) && RaisesOnlyDecryptionErrors(Construct(lib, key).value)
    ensures Apart(lib, key', key) ==> Rejects(Construct(lib, key').value, Construct(lib, key).value)
  {
    var a, b := Construct(lib, key).value, Construct(lib, key').value;
    forall p, r
      ensures Opens(a, p, r)
      ensures Apart(lib, key', key) ==> Refuses(b, a, p, r)
    {
      Framing(lib, key, key', p, r);
    }
  }
}
