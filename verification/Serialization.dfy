/** serialization.py: the self-describing envelope `[version][backend id][ciphertext]`. */
module Serialization {
  import opened Results
  import opened Backends

  const ENVELOPE_VERSION_1: byte := 0x01
  const BACKEND_FERNET: byte := 0x01
  const BACKEND_AES_GCM: byte := 0x02
  const BACKEND_REGISTRY: set<byte> := {BACKEND_FERNET, BACKEND_AES_GCM}
  const MIN_ENVELOPE_LENGTH := 3

  /** json.dumps / json.loads, opaque. */
  datatype Json<!D> = Json(dumps: D -> bytes, loads: bytes -> Option<D>)

  ghost predicate Lossless<D(!new)>(json: Json<D>) {
    forall d :: json.loads(json.dumps(d)) == Some(d)
  }

  datatype Envelope = Envelope(version: byte, id: byte, ciphertext: bytes)

  function BuildEnvelope(version: byte, id: byte, ciphertext: bytes): bytes {
    [version, id] + ciphertext
  }

  function ParseEnvelope(envelope: bytes): Result<Envelope> {
    if |envelope| < MIN_ENVELOPE_LENGTH then Raise(DecryptionError)
    else
      var version, id, ciphertext := envelope[0], envelope[1], envelope[2..];
      if version != ENVELOPE_VERSION_1 then Raise(DecryptionError)
      else if id !in BACKEND_REGISTRY then Raise(DecryptionError)
      else Ok(Envelope(version, id, ciphertext))
  }

  /** An envelope is one byte of version 1, one of a registered id, and a ciphertext that is not empty. */
  ghost predicate IsEnvelope(envelope: bytes, id: byte, ct: bytes) {
    envelope == [0x01, id] + ct && id in {0x01, 0x02} && ct != []
  }

  /** Parsing inverts building for exactly the version, ids and bodies it accepts. */
  lemma ParseBuild(version: byte, id: byte, ct: bytes)
    ensures BuildEnvelope(version, id, ct) == [version, id] + ct
    ensures ParseEnvelope(BuildEnvelope(version, id, ct)) ==
            if version == 1 && id in {1, 2} && ct != [] then Ok(Envelope(1, id, ct)) else Raise(DecryptionError)
  {
    assert BuildEnvelope(version, id, ct)[2..] == ct;
  }

  /** And building inverts parsing, so an envelope has one reading and a reading one envelope. */
  lemma BuildParse(envelope: bytes)
    ensures forall v, id, ct ::
              ParseEnvelope(envelope) == Ok(Envelope(v, id, ct)) <==> v == 1 && IsEnvelope(envelope, id, ct)
    ensures ParseEnvelope(envelope).Raise? ==> ParseEnvelope(envelope).exn == DecryptionError
  {
    if |envelope| >= 2 {
      assert envelope == [envelope[0], envelope[1]] + envelope[2..];
    }
    forall id, ct | IsEnvelope(envelope, id, ct)
      ensures envelope[2..] == ct
    {
    }
  }

  function EncryptSession<D>(json: Json<D>, data: D, b: Backend, id: byte, r: Entropy): Result<bytes> {
    var ct :- b.enc(json.dumps(data), r);
    Ok(BuildEnvelope(ENVELOPE_VERSION_1, id, ct))
  }

  function DecryptSession<D>(json: Json<D>, envelope: bytes, b: Backend): Result<D> {
    var e :- ParseEnvelope(envelope);
    var p :- b.dec(e.ciphertext);
    match json.loads(p)
    case None => Raise(SerializationError)
    case Some(d) => Ok(d)
  }

  /** encrypt_session writes version, the id it is given and the backend's ciphertext, or raises as the backend does. */
  lemma EncryptSessionWrites<D>(json: Json<D>, data: D, b: Backend, id: byte, r: Entropy)
    ensures forall ct :: b.enc(json.dumps(data), r) == Ok(ct) ==>
              EncryptSession(json, data, b, id, r) == Ok([0x01, id] + ct)
    ensures forall e :: b.enc(json.dumps(data), r) == Raise(e) ==> EncryptSession(json, data, b, id, r) == Raise(e)
  {
  }

  /** The backend opens what the envelope carries to `p`. */
  ghost predicate OpensEnvelope(b: Backend, envelope: bytes, p: bytes) {
    exists id, ct :: IsEnvelope(envelope, id, ct) && b.dec(ct) == Ok(p)
  }

  /** The backend refuses what the envelope carries, with `e`. */
  ghost predicate RefusesEnvelope(b: Backend, envelope: bytes, e: Exn) {
    exists id, ct :: IsEnvelope(envelope, id, ct) && b.dec(ct) == Raise(e)
  }

  /**
   decrypt_session never guesses: for any bytes and any backend it returns a value exactly if the
   backend opens the envelope's ciphertext to JSON of it. It raises what the backend raises,
   SerializationError for opened bytes that are not JSON, and DecryptionError for no envelope.
   */
  lemma DecryptSessionNeverGuesses<D(!new)>(json: Json<D>, envelope: bytes, b: Backend)
    ensures forall d :: DecryptSession(json, envelope, b) == Ok(d) <==>
              exists p :: OpensEnvelope(b, envelope, p) && json.loads(p) == Some(d)
    ensures forall e :: DecryptSession(json, envelope, b) == Raise(e) <==>
              || RefusesEnvelope(b, envelope, e)
              || (e == SerializationError && exists p :: OpensEnvelope(b, envelope, p) && json.loads(p) == None)
              || (e == DecryptionError && forall id, ct :: !IsEnvelope(envelope, id, ct))
  {
    BuildParse(envelope);
    if ParseEnvelope(envelope).Ok? {
      var env := ParseEnvelope(envelope).value;
      assert IsEnvelope(envelope, env.id, env.ciphertext);
      match b.dec(env.ciphertext)
      case Ok(p) => assert OpensEnvelope(b, envelope, p);
      case Raise(e) => assert RefusesEnvelope(b, envelope, e);
    }
    forall id, ct | IsEnvelope(envelope, id, ct)
      ensures ParseEnvelope(envelope) == Ok(Envelope(1, id, ct))
    {
    }
  }

  /** The id is a separate argument of encrypt_session; the round trip holds iff it is registered. */
  lemma SessionRoundTrip<D(!new)>(json: Json<D>, d: D, b: Backend, id: byte, r: Entropy)
    requires Lossless(json) && Sound(b)
    ensures EncryptSession(json, d, b, id, r).Ok?
    ensures DecryptSession(json, EncryptSession(json, d, b, id, r).value, b) ==
            if id in {0x01, 0x02} then Ok(d) else Raise(DecryptionError)
  {
    assert Opens(b, json.dumps(d), r);
    ParseBuild(ENVELOPE_VERSION_1, id, b.enc(json.dumps(d), r).value);
  }
}
