/** The encryption-backend protocol: an id for the envelope header and a pair of callables. */
module Backends {
  import opened Results

  /** What one operation draws from outside: os.urandom bytes, and for Fernet the clock. */
  type Entropy = nat -> byte

  function Draw(r: Entropy, from: nat, n: nat): (b: bytes)
    ensures |b| == n && forall i :: 0 <= i < n ==> b[i] == r(from + i)
  {
    seq(n, i requires 0 <= i < n => r(from + i))
  }

  datatype Backend = Backend(
    id: byte,
    enc: (bytes, Entropy) -> Result<bytes>,
    dec: bytes -> Result<bytes>)

  /** Ideal authenticated encryption, half one: the same key inverts, whatever was drawn. */
  ghost predicate Sound(b: Backend) {
    forall p, r :: Opens(b, p, r)
  }

  ghost predicate Opens(b: Backend, p: bytes, r: Entropy) {
    && b.enc(p, r).Ok?
    && b.enc(p, r).value != []
    && b.dec(b.enc(p, r).value) == Ok(p)
  }

  /** Half two, for a pair of keys: `b` refuses everything `a` encrypts. */
  ghost predicate Rejects(b: Backend, a: Backend) {
    forall p, r :: Refuses(b, a, p, r)
  }

  ghost predicate Refuses(b: Backend, a: Backend, p: bytes, r: Entropy) {
    a.enc(p, r).Ok? ==> b.dec(a.enc(p, r).value) == Raise(DecryptionError)
  }

  /** The exceptions a decrypt callable of this package lets out. */
  ghost predicate RaisesOnlyDecryptionErrors(b: Backend) {
    forall ct :: b.dec(ct).Raise? ==> b.dec(ct).exn in {DecryptionError, InvalidToken}
  }
}
