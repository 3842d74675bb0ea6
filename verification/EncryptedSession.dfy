/** services/encrypted_session.py, the constructor: which backend lists are accepted, and the dispatch map they give. */
module EncryptedSession {
  import opened Results
  import opened Backends
  import opened Serialization
  import opened TypeDecorator

  predicate DistinctIds(bs: seq<Backend>) {
    forall i, j :: 0 <= i < j < |bs| ==> bs[i].id != bs[j].id
  }

  function Ids(bs: seq<Backend>): set<byte> {
    set i | 0 <= i < |bs| :: bs[i].id
  }

  /** The column a service over these backends uses, the first being the primary. */
  ghost predicate BuiltFrom(col: EncryptedJSON, bs: seq<Backend>) {
    && |bs| > 0
    && WritesWith(col, bs[0])
    && Binds(col.decryptDispatch, bs)
  }

  /** Exactly the listed ids are dispatched, each to its own backend. */
  ghost predicate Binds(dispatch: map<byte, Decryptor>, bs: seq<Backend>) {
    && dispatch.Keys == Ids(bs)
    && forall i :: 0 <= i < |bs| ==> bs[i].id in dispatch && dispatch[bs[i].id] == bs[i].dec
  }

  method FirstDuplicate(bs: seq<Backend>) returns (duplicate: Option<byte>)
    ensures duplicate.None? <==> DistinctIds(bs)
    ensures duplicate.Some? ==> exists i, j :: 0 <= i < j < |bs| && bs[i].id == bs[j].id == duplicate.value
  {
    var seenIds: set<byte> := {};
    for n := 0 to |bs|
      invariant DistinctIds(bs[..n])
      invariant forall id :: id in seenIds <==> exists i :: 0 <= i < n && bs[i].id == id
    {
      if bs[n].id in seenIds {
        return Some(bs[n].id);
      }
      seenIds := seenIds + {bs[n].id};
    }
    duplicate := None;
    assert bs[..|bs|] == bs;
  }

  method DecryptDispatch(bs: seq<Backend>) returns (dispatch: map<byte, Decryptor>)
    requires DistinctIds(bs)
    ensures Binds(dispatch, bs)
  {
    dispatch := map[];
    for n := 0 to |bs|
      invariant dispatch.Keys == set i | 0 <= i < n :: bs[i].id
      invariant forall i :: 0 <= i < n ==> bs[i].id in dispatch && dispatch[bs[i].id] == bs[i].dec
    {
      dispatch := dispatch[bs[n].id := bs[n].dec];
    }
  }

  /** EncryptedSessionService.__init__, for arguments that conform to the protocol. */
  method Construct(backend: Backend, additional: seq<Backend>) returns (r: Result<EncryptedJSON>)
    ensures r.Ok? <==> DistinctIds([backend] + additional)
    ensures r.Ok? ==> BuiltFrom(r.value, [backend] + additional)
    ensures r.Raise? ==> r.exn == ConfigurationError
  {
    var all := [backend] + additional;
    var duplicate := FirstDuplicate(all);
    if duplicate.Some? {
      return Raise(ConfigurationError);
    }
    var dispatch := DecryptDispatch(all);
    assert all[0] == backend;
    r := Ok(EncryptedJSON(backend.enc, backend.id, dispatch));
  }

  /**
   What a service reads in a cell some backend of the package wrote: the plaintext if that
   backend is one of its own, an error if its id is not registered, not dispatched, or
   dispatched to a backend that refuses the writer.
   */
  lemma ReadsOwnBackends<D(!new)>(col: EncryptedJSON, bs: seq<Backend>, writer: Backend, json: Json<D>, d: D,
      r: Entropy)
    requires BuiltFrom(col, bs) && Sound(writer) && Lossless(json)
    ensures writer.enc(json.dumps(d), r).Ok?
    ensures var cell := EncodeCell(writer.id, writer.enc(json.dumps(d), r).value);
            && (writer in bs && writer.id in BACKEND_REGISTRY ==> ReadCell(col, json, cell) == Ok(d))
            && (writer.id !in BACKEND_REGISTRY || writer.id !in Ids(bs) ==>
                  ReadCell(col, json, cell) == Raise(DecryptionError))
            && (forall b :: b in bs && b.id == writer.id && Rejects(b, writer) ==>
                  ReadCell(col, json, cell) == Raise(DecryptionError))
  {
    var p := json.dumps(d);
    assert Opens(writer, p, r);
    ParseEncodeCell(writer.id, writer.enc(p, r).value);
    forall b | b in bs && b.id == writer.id && Rejects(b, writer)
      ensures ReadCell(col, json, EncodeCell(writer.id, writer.enc(p, r).value)) == Raise(DecryptionError)
    {
      assert Refuses(b, writer, p, r);
    }
  }

  /** The backends' own contract is what the column's except clauses need. */
  lemma RaisesOnlyCaughtErrors(col: EncryptedJSON, bs: seq<Backend>)
    requires BuiltFrom(col, bs) && forall b :: b in bs ==> RaisesOnlyDecryptionErrors(b)
    ensures DispatchRaisesOnlyCaughtErrors(col)
  {
    forall id, ct | id in col.decryptDispatch && col.decryptDispatch[id](ct).Raise?
      ensures col.decryptDispatch[id](ct).exn in {DecryptionError, InvalidToken}
    {
      var i :| 0 <= i < |bs| && bs[i].id == id;
      assert bs[i] in bs && bs[i].dec(ct).Raise?;
    }
  }

  /** Some backend of the list opens the envelope that `text` carries to `p`. */
  ghost predicate OpenedByOne(bs: seq<Backend>, text: string, p: bytes) {
    exists b, ct :: b in bs && Carries(text, b.id, ct) && b.dec(ct) == Ok(p)
  }

  lemma DispatchOpens(col: EncryptedJSON, bs: seq<Backend>, text: string, p: bytes)
    requires BuiltFrom(col, bs)
    ensures OpensUnder(col, text, p) <==> OpenedByOne(bs, text, p)
  {
    if id, ct :| Carries(text, id, ct) && id in col.decryptDispatch && col.decryptDispatch[id](ct) == Ok(p) {
      var i :| 0 <= i < |bs| && bs[i].id == id;
      assert bs[i] in bs && Carries(text, bs[i].id, ct) && bs[i].dec(ct) == Ok(p);
    }
    if b, ct :| b in bs && Carries(text, b.id, ct) && b.dec(ct) == Ok(p) {
      var i :| 0 <= i < |bs| && bs[i] == b;
      assert Carries(text, bs[i].id, ct) && bs[i].id in col.decryptDispatch;
    }
  }

  /**
   A constructed service never guesses: for any stored text it returns a value exactly if one of
   its backends opens the text's envelope to JSON of it, a JSON error exactly if what one opened is
   not JSON, and a DecryptionError in every other case.
   */
  lemma ServiceNeverGuesses<D(!new)>(col: EncryptedJSON, bs: seq<Backend>, json: Json<D>, text: string)
    requires BuiltFrom(col, bs) && forall b :: b in bs ==> RaisesOnlyDecryptionErrors(b)
    ensures forall d :: ProcessResultValue(col, json, Some(text)) == Ok(Some(d)) <==>
              exists p :: OpenedByOne(bs, text, p) && json.loads(p) == Some(d)
    ensures ProcessResultValue(col, json, Some(text)) == Raise(JsonError) <==>
              exists p :: OpenedByOne(bs, text, p) && json.loads(p) == None
    ensures ProcessResultValue(col, json, Some(text)) == Raise(DecryptionError) <==>
              forall p :: !OpenedByOne(bs, text, p)
    ensures ProcessResultValue(col, json, Some(text)) != Ok(None)
  {
    RaisesOnlyCaughtErrors(col, bs);
    ReadNeverGuesses(col, json, text);
    forall p
      ensures OpensUnder(col, text, p) <==> OpenedByOne(bs, text, p)
    {
      DispatchOpens(col, bs, text, p);
    }
  }
}
