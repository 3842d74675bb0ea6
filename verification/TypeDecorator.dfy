/** services/type_decorator.py: the EncryptedJSON column, dict to stored text and back. */
module TypeDecorator {
  import opened Results
  import opened Backends
  import opened Serialization
  import Base64

  // ---- Stored text: base64 of an envelope ----

  /** The text written for a ciphertext of backend `id`. */
  function EncodeCell(id: byte, ct: bytes): string {
    Base64.ToText(BuildEnvelope(ENVELOPE_VERSION_1, id, ct))
  }

  function ParseCell(text: string): Result<Envelope> {
    var envelope :- Base64.FromText(text);
    ParseEnvelope(envelope)
  }

  /** Base64 of version 1, id and ciphertext: readable exactly if the id is registered and the ciphertext not empty. */
  lemma ParseEncodeCell(id: byte, ct: bytes)
    ensures Base64.FromText(EncodeCell(id, ct)) == Ok([0x01, id] + ct)
    ensures ParseCell(EncodeCell(id, ct)) ==
            if id in {0x01, 0x02} && ct != [] then Ok(Envelope(0x01, id, ct)) else Raise(DecryptionError)
  {
    ParseBuild(ENVELOPE_VERSION_1, id, ct);
  }

  /** Said of the text alone: which strings carry which envelope. */
  ghost predicate Carries(text: string, id: byte, ct: bytes) {
    Base64.FromText(text).Ok? && IsEnvelope(Base64.FromText(text).value, id, ct)
  }

  lemma ParseCellMeaning(text: string)
    ensures forall id, ct :: Carries(text, id, ct) <==> ParseCell(text) == Ok(Envelope(0x01, id, ct))
    ensures ParseCell(text).Ok? ==> ParseCell(text).value.version == 0x01
    ensures ParseCell(text).Raise? ==> ParseCell(text).exn in {DecryptionError, BinasciiError, UnicodeEncodeError}
  {
    Base64.FromTextAccepts(text);
    if Base64.FromText(text).Ok? {
      BuildParse(Base64.FromText(text).value);
    }
  }

  // ---- The column type ----

  type Decryptor = bytes -> Result<bytes>

  datatype EncryptedJSON = EncryptedJSON(
    encryptFn: (bytes, Entropy) -> Result<bytes>,
    backendId: byte,
    decryptDispatch: map<byte, Decryptor>)

  function ProcessBindParam<D>(col: EncryptedJSON, json: Json<D>, value: Option<D>, r: Entropy): Result<Option<string>> {
    match value
    case None => Ok(None)
    case Some(d) =>
      var ct :- col.encryptFn(json.dumps(d), r);
      Ok(Some(EncodeCell(col.backendId, ct)))
  }

  /** The try-block of the read path, before its except clauses. */
  function ReadCell<D>(col: EncryptedJSON, json: Json<D>, text: string): Result<D> {
    var e :- ParseCell(text);
    if e.id !in col.decryptDispatch then Raise(DecryptionError)
    else
      var p :- col.decryptDispatch[e.id](e.ciphertext);
      match json.loads(p)
      case None => Raise(JsonError)
      case Some(d) => Ok(d)
  }

  function ProcessResultValue<D>(col: EncryptedJSON, json: Json<D>, value: Option<string>): Result<Option<D>> {
    match value
    case None => Ok(None)
    case Some(text) =>
      match ReadCell(col, json, text)
      case Ok(d) => Ok(Some(d))
      case Raise(InvalidToken) => Raise(DecryptionError)
      case Raise(DecryptionError) => Raise(DecryptionError)
      case Raise(BinasciiError) => Raise(DecryptionError)
      case Raise(UnicodeEncodeError) => Raise(DecryptionError)
      case Raise(e) => Raise(e)
  }

  // ---- Properties ----

  /** A column built around one backend, as the service builds it, possibly with others to read. */
  ghost predicate WritesWith(col: EncryptedJSON, b: Backend) {
    && col.encryptFn == b.enc
    && col.backendId == b.id
    && b.id in col.decryptDispatch
    && col.decryptDispatch[b.id] == b.dec
  }

  /** What is stored: NULL for None, else the text of what the backend encrypts; its errors pass through. */
  lemma BindStores<D>(col: EncryptedJSON, json: Json<D>, value: Option<D>, r: Entropy)
    ensures value == None ==> ProcessBindParam(col, json, value, r) == Ok(None)
    ensures forall d, ct :: value == Some(d) && col.encryptFn(json.dumps(d), r) == Ok(ct) ==>
              ProcessBindParam(col, json, value, r) == Ok(Some(Base64.ToText([0x01, col.backendId] + ct)))
    ensures forall d, e :: value == Some(d) && col.encryptFn(json.dumps(d), r) == Raise(e) ==>
              ProcessBindParam(col, json, value, r) == Raise(e)
  {
  }

  /** What is bound is read back, exactly when the primary id is in the registry. */
  lemma ColumnRoundTrip<D(!new)>(col: EncryptedJSON, b: Backend, json: Json<D>, value: Option<D>, r: Entropy)
    requires WritesWith(col, b) && Sound(b) && Lossless(json)
    ensures ProcessBindParam(col, json, value, r).Ok?
    ensures ProcessResultValue(col, json, ProcessBindParam(col, json, value, r).value) ==
            if value.None? || b.id in {0x01, 0x02} then Ok(value) else Raise(DecryptionError)
  {
    if value.Some? {
      var p := json.dumps(value.value);
      assert Opens(b, p, r);
      ParseEncodeCell(b.id, b.enc(p, r).value);
    }
  }

  /** Base64 of an `encrypt_session` envelope reads the same through the column as through `decrypt_session`. */
  lemma ColumnReadsSessionEnvelopes<D(!new)>(col: EncryptedJSON, b: Backend, json: Json<D>, d: D, r: Entropy)
    requires WritesWith(col, b) && Sound(b) && Lossless(json) && b.id in BACKEND_REGISTRY
    ensures EncryptSession(json, d, b, b.id, r).Ok?
    ensures var envelope := EncryptSession(json, d, b, b.id, r).value;
            && ProcessResultValue(col, json, Some(Base64.ToText(envelope))) == Ok(Some(d))
            && DecryptSession(json, envelope, b) == Ok(d)
  {
    SessionRoundTrip(json, d, b, b.id, r);
    assert Opens(b, json.dumps(d), r);
    ParseEncodeCell(b.id, b.enc(json.dumps(d), r).value);
  }

  ghost predicate DispatchRaisesOnlyCaughtErrors(col: EncryptedJSON) {
    forall id, ct :: id in col.decryptDispatch && col.decryptDispatch[id](ct).Raise?
      ==> col.decryptDispatch[id](ct).exn in {DecryptionError, InvalidToken, BinasciiError, UnicodeEncodeError}
  }

  /** Some dispatched backend opens the envelope in `text` to `p`. */
  ghost predicate OpensUnder(col: EncryptedJSON, text: string, p: bytes) {
    exists id, ct :: Carries(text, id, ct) && id in col.decryptDispatch && col.decryptDispatch[id](ct) == Ok(p)
  }

  /**
   The read path never guesses: for any stored text it returns a value iff the text carries an
   envelope that a dispatched key opens to JSON of that value; it raises JsonError iff what
   was opened is not JSON; and everything else is a DecryptionError.
   */
  lemma ReadNeverGuesses<D(!new)>(col: EncryptedJSON, json: Json<D>, text: string)
    requires DispatchRaisesOnlyCaughtErrors(col)
    ensures forall d :: ProcessResultValue(col, json, Some(text)) == Ok(Some(d)) <==>
              exists p :: OpensUnder(col, text, p) && json.loads(p) == Some(d)
    ensures ProcessResultValue(col, json, Some(text)) == Raise(JsonError) <==>
              exists p :: OpensUnder(col, text, p) && json.loads(p) == None
    ensures ProcessResultValue(col, json, Some(text)) == Raise(DecryptionError) <==>
              forall p :: !OpensUnder(col, text, p)
    ensures ProcessResultValue(col, json, Some(text)) != Ok(None)
  {
    ParseCellMeaning(text);
    forall p
      ensures OpensUnder(col, text, p) <==>
        && ParseCell(text).Ok?
        && ParseCell(text).value.id in col.decryptDispatch
        && col.decryptDispatch[ParseCell(text).value.id](ParseCell(text).value.ciphertext) == Ok(p)
    {
      if ParseCell(text).Ok? {
        var e := ParseCell(text).value;
        assert Carries(text, e.id, e.ciphertext);
      }
    }
    if ParseCell(text).Ok? && ParseCell(text).value.id in col.decryptDispatch {
      var e := ParseCell(text).value;
      var got := col.decryptDispatch[e.id](e.ciphertext);
      if got.Ok? {
        assert OpensUnder(col, text, got.value);
      }
    }
  }

  /** ASCII, validly padded alphabet text of at least a header and one byte, version 1, known id. */
  ghost predicate WellFormedCell(text: string) {
    && Base64.IsAscii(text)
    && Base64.WellFormed(Base64.Standard, Base64.AsciiEncode(text).value)
    && Base64.FromText(text).Ok?
    && var envelope := Base64.FromText(text).value;
       && |envelope| >= 3
       && envelope[0] == 0x01
       && envelope[1] in {0x01, 0x02}
  }

  /** Every defect of the text or the header is refused, and nothing else is. */
  lemma MalformedTextNeverOpens(text: string)
    ensures ParseCell(text).Ok? <==> WellFormedCell(text)
    ensures !WellFormedCell(text) ==> forall col, p :: !OpensUnder(col, text, p)
  {
    Base64.FromTextAccepts(text);
    ParseCellMeaning(text);
  }
}
