/**
 Concrete instances of the two sets of cryptographic laws, so that no theorem resting on them
 is vacuous. They protect nothing: the tag is the key.
 */
module ToyCrypto {
  import opened Results
  import opened Backends
  import Base64
  import Fernet
  import AesGcm
  import Lifecycle
  import opened Serialization

  /** `k` cut or filled up to `n` bytes. */
  function Fit(k: bytes, n: nat): (b: bytes)
    ensures |b| == n
  {
    seq(n, i requires 0 <= i < n => if i < |k| then k[i] else 0)
  }

  function ToyFernet(): Fernet.Primitives {
    Fernet.Primitives(
      (passphrase, iterations) => Fit(passphrase, 32),
      (master, salt) => Fit(master, 32),
      (k, iv, m) => m,
      (k, iv, m) => m,
      (k, m) => Fit(k, Fernet.TAG_LENGTH),
      s => match Base64.Decode(Base64.UrlSafe, s) case Ok(b) => Some(b) case Raise(_) => None)
  }

  function ToyAead(): AesGcm.Aead {
    AesGcm.Aead(
      (k, nonce, p) => p + Fit(k, AesGcm.TAG_LENGTH),
      (k, nonce, ct) =>
        if |ct| >= AesGcm.TAG_LENGTH && ct[|ct| - AesGcm.TAG_LENGTH..] == Fit(k, AesGcm.TAG_LENGTH)
        then Some(ct[..|ct| - AesGcm.TAG_LENGTH]) else None)
  }

  lemma ToyFernetIsIdeal()
    ensures Fernet.Ideal(ToyFernet())
  {
    forall b: bytes
      ensures ToyFernet().b64decode(Base64.Encode(Base64.UrlSafe, b)) == Some(b)
    {
      Base64.DecodeEncode(Base64.UrlSafe, b);
    }
    assert forall k, iv, m :: Fernet.CbcInverts(ToyFernet(), k, iv, m);
  }

  lemma ToyAeadIsIdeal()
    ensures AesGcm.Ideal(ToyAead())
  {
    forall k, nonce, p
      ensures AesGcm.SealOpens(ToyAead(), k, nonce, p)
    {
      var ct := ToyAead().seal(k, nonce, p);
      assert ct[|ct| - AesGcm.TAG_LENGTH..] == Fit(k, AesGcm.TAG_LENGTH);
      assert ct[..|ct| - AesGcm.TAG_LENGTH] == p;
    }
  }

  /** Keys that differ early have different tags. */
  lemma ToyKeysApart(k: Fernet.Key, k': Fernet.Key)
    requires |k.signing| > 0 && |k'.signing| > 0 && k.signing[0] != k'.signing[0]
    ensures Fernet.Apart(ToyFernet(), k, k')
  {
    forall m
      ensures ToyFernet().hmac(k.signing, m) != ToyFernet().hmac(k'.signing, m)
    {
      assert Fit(k.signing, Fernet.TAG_LENGTH)[0] != Fit(k'.signing, Fernet.TAG_LENGTH)[0];
    }
  }

  function Passphrase(x: byte): Fernet.FernetBackend {
    var raw := Fit([x], 32);
    Fernet.FernetBackend(Some(raw), Fernet.Key(raw[..16], raw[16..]), true)
  }

  function Toy(x: byte): Backend { Fernet.AsBackend(ToyFernet(), Passphrase(x)) }

  /** One byte is not a Fernet key, so it is a passphrase. */
  lemma ConstructToy(x: byte)
    ensures Fernet.Construct(ToyFernet(), [x]) == Ok(Passphrase(x))
  {
    var lib, raw := ToyFernet(), Fit([x], 32);
    ToyFernetIsIdeal();
    assert Fernet.NewKey(lib, [x]) == None;
    assert lib.pbkdf2([x], Fernet.PBKDF2_ITERATIONS) == raw;
    assert lib.pbkdf2([x], Fernet.PBKDF2_ITERATIONS_LEGACY) == raw;
    assert Fernet.FernetOf(lib, raw) == Some(Fernet.Key(raw[..16], raw[16..])) by {
      Fernet.DerivedKeys(lib, raw);
    }
  }

  lemma ToySalts(x: byte, y: byte, salt: bytes)
    requires x != y
    ensures Fernet.SaltApart(ToyFernet(), Passphrase(x), Passphrase(y), salt)
  {
    ToyFernetIsIdeal();
    Fernet.DerivedKeys(ToyFernet(), Fit(Fit([x], 32), 32));
    Fernet.DerivedKeys(ToyFernet(), Fit(Fit([y], 32), 32));
    var kx := Fernet.DerivePerOpKey(ToyFernet(), Passphrase(x), salt).value;
    var ky := Fernet.DerivePerOpKey(ToyFernet(), Passphrase(y), salt).value;
    ToyKeysApart(kx, ky);
  }

  /** Two passphrases: each backend sound and refusing what the other writes. */
  lemma TwoPassphrases(x: byte, y: byte)
    requires x != y
    ensures Sound(Toy(x)) && Rejects(Toy(x), Toy(y))
  {
    ToyFernetIsIdeal();
    ConstructToy(x);
    ConstructToy(y);
    Fernet.FernetIsSound(ToyFernet(), [x]);
    forall salt
      ensures Fernet.SaltApart(ToyFernet(), Passphrase(x), Passphrase(y), salt)
    {
      ToySalts(x, y, salt);
    }
    Fernet.FernetRejects(ToyFernet(), [x], [y]);
  }

  /** And two AES-256-GCM keys. */
  lemma TwoAesKeys()
    ensures var k1, k2 := Fit([1], 32), Fit([2], 32);
            && AesGcm.Construct(ToyAead(), k1).Ok? && AesGcm.Construct(ToyAead(), k2).Ok?
            && var a, b := AesGcm.Construct(ToyAead(), k1).value, AesGcm.Construct(ToyAead(), k2).value;
               && Sound(a) && Sound(b) && Rejects(a, b) && Rejects(b, a)
  {
    var k1, k2 := Fit([1], 32), Fit([2], 32);
    ToyAeadIsIdeal();
    forall nonce, p
      ensures ToyAead().open(k1, nonce, ToyAead().seal(k2, nonce, p)) == None
      ensures ToyAead().open(k2, nonce, ToyAead().seal(k1, nonce, p)) == None
    {
      var c1, c2 := p + Fit(k1, AesGcm.TAG_LENGTH), p + Fit(k2, AesGcm.TAG_LENGTH);
      assert c1[|p|] == 1 && c2[|p|] == 2;
      assert Fit(k1, AesGcm.TAG_LENGTH)[0] == 1 && Fit(k2, AesGcm.TAG_LENGTH)[0] == 2;
    }
    AesGcm.AesGcmIsSound(ToyAead(), k1, k2);
    AesGcm.AesGcmIsSound(ToyAead(), k2, k1);
  }

  /** All four together, with a lossless codec: what the results about whole runs assume of their keys. */
  lemma ToyRing()
    ensures exists ring :: |ring| == 4 && Lifecycle.GoodRing(ring)
    ensures Lossless(Json((d: bytes) => d, (p: bytes) => Some(p)))
  {
    TwoPassphrases(1, 2);
    TwoPassphrases(2, 1);
    TwoAesKeys();
    var g1, g2 := AesGcm.Construct(ToyAead(), Fit([1], 32)).value, AesGcm.Construct(ToyAead(), Fit([2], 32)).value;
    RingOfFour(Toy(1), Toy(2), g1, g2);
  }

  lemma RingOfFour(f1: Backend, f2: Backend, g1: Backend, g2: Backend)
    requires f1.id == f2.id == BACKEND_FERNET && g1.id == g2.id == BACKEND_AES_GCM
    requires Sound(f1) && Sound(f2) && Rejects(f1, f2) && Rejects(f2, f1)
    requires Sound(g1) && Sound(g2) && Rejects(g1, g2) && Rejects(g2, g1)
    ensures Lifecycle.GoodRing([f1, f2, g1, g2])
  {
  }
}
