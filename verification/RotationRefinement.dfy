/**
 Rotation refines a database that holds plaintext: seen through decryption every rotation step
 is a stutter, so no interleaving loses or invents an update.
 */
module RotationRefinement {
  import opened Results
  import opened Backends
  import opened TypeDecorator
  import opened RevisionMarker
  import opened RotationModel
  import opened RotationSafety

  // ---- The plaintext database ----

  /** Text that neither key opens stands for itself. */
  datatype ClearCell = Null | Clear(plaintext: bytes) | Unopened(text: string)

  datatype ClearRow = ClearRow(cell: ClearCell, updateTime: DateTime, others: seq<string>)

  type ClearDb = map<Key, ClearRow>

  datatype ClearStep =
    | ClearInsert(key: Key, row: ClearRow)
    | ClearDelete(key: Key)
    | ClearRewrite(key: Key, cell: ClearCell, updateTime: DateTime)
    | ClearTouch(key: Key, updateTime: DateTime)

  function ApplyClear(db: ClearDb, w: ClearStep): ClearDb {
    match w
    case ClearInsert(k, row) => if k in db then db else db[k := row]
    case ClearDelete(k) => db - {k}
    case ClearRewrite(k, c, t) => if k in db then db[k := db[k].(cell := c, updateTime := t)] else db
    case ClearTouch(k, t) => if k in db then db[k := db[k].(updateTime := t)] else db
  }

  function ReplayClear(db: ClearDb, ws: seq<ClearStep>): ClearDb {
    if ws == [] then db else ApplyClear(ReplayClear(db, ws[..|ws| - 1]), ws[|ws| - 1])
  }

  // ---- The abstraction ----

  function Open(job: Job, c: Option<string>): ClearCell {
    match c
    case None => Null
    case Some(text) =>
      match ParseCell(text)
      case Raise(_) => Unopened(text)
      case Ok(e) =>
        if e.id == job.source.id && job.source.dec(e.ciphertext).Ok? then Clear(job.source.dec(e.ciphertext).value)
        else if e.id == job.target.id && job.target.dec(e.ciphertext).Ok? then Clear(job.target.dec(e.ciphertext).value)
        else Unopened(text)
  }

  function OpenRow(job: Job, row: Row): ClearRow {
    ClearRow(Open(job, row.cell), row.updateTime, row.others)
  }

  function OpenDb(job: Job, db: Db): ClearDb {
    map k | k in db :: OpenRow(job, db[k])
  }

  function OpenStep(job: Job, w: WriterStep): ClearStep {
    match w
    case Insert(k, row) => ClearInsert(k, OpenRow(job, row))
    case Delete(k) => ClearDelete(k)
    case Rewrite(k, c, t) => ClearRewrite(k, Open(job, c), t)
    case Touch(k, t) => ClearTouch(k, t)
  }

  function OpenTrace(job: Job, ws: seq<WriterStep>): seq<ClearStep> {
    seq(|ws|, i requires 0 <= i < |ws| => OpenStep(job, ws[i]))
  }

  /** With equal ids the old key must not open new ciphertexts to anything else. */
  ghost predicate NoConfusion(job: Job) {
    job.source.id == job.target.id ==> forall p, r :: Unconfused(job, p, r)
  }

  ghost predicate Unconfused(job: Job, p: bytes, r: Entropy) {
    job.target.enc(p, r).Ok? ==>
      var back := job.source.dec(job.target.enc(p, r).value);
      back.Raise? || back == Ok(p)
  }

  /** The two ways the condition holds: distinct keys, and a key rotated to itself. */
  lemma NoConfusionSources(job: Job)
    ensures Rejects(job.source, job.target) ==> NoConfusion(job)
    ensures job.source == job.target && Sound(job.target) ==> NoConfusion(job)
  {
    forall p, r
      ensures Rejects(job.source, job.target) ==> Unconfused(job, p, r)
      ensures job.source == job.target && Sound(job.target) ==> Unconfused(job, p, r)
    {
      assert Rejects(job.source, job.target) ==> Refuses(job.source, job.target, p, r);
      assert Sound(job.target) ==> Opens(job.target, p, r);
    }
  }

  ghost predicate IdealJob(job: Job) {
    Sound(job.target) && NoConfusion(job)
  }

  // ---- Stutter ----

  /** Seen through decryption a re-encryption is a stutter, if the new id can be read at all. */
  lemma ReencryptionStutters(job: Job, c: Option<string>, c': Option<string>)
    requires IdealJob(job) && Reencrypted(job, c, c')
    ensures Open(job, c') == Open(job, c) <==> Registered(job.target)
  {
    ReencryptedMeaning(job, c, c');
    var p, r :| MovesTo(job, c, c', p, r) && (OpensTo(job.target, c', p) <==> Registered(job.target));
    ParseEncodeCell(job.target.id, job.target.enc(p, r).value);
    assert Opens(job.target, p, r);
    if job.source.id == job.target.id {
      assert Unconfused(job, p, r);
    }
  }

  lemma OnlyReencryptsStutters(job: Job, shadow: Db, db: Db, from: nat, to: nat)
    requires IdealJob(job) && OnlyReencrypts(job, shadow, db, from, to)
    ensures OpenDb(job, db) == OpenDb(job, shadow) <==> Registered(job.target) || db == shadow
  {
    forall k | k in db
      ensures OpenRow(job, db[k]) == OpenRow(job, shadow[k]) <==> Registered(job.target) || db[k] == shadow[k]
    {
      assert SameOrReencrypted(job, shadow[k], db[k], from <= TableIndex(k.table) < to);
      if db[k] != shadow[k] {
        ReencryptionStutters(job, shadow[k].cell, db[k].cell);
      }
    }
    OpenDbPointwise(job, db, shadow);
  }

  lemma OpenDbPointwise(job: Job, a: Db, b: Db)
    requires a.Keys == b.Keys
    ensures OpenDb(job, a) == OpenDb(job, b) <==> forall k :: k in a ==> OpenRow(job, a[k]) == OpenRow(job, b[k])
  {
    if OpenDb(job, a) == OpenDb(job, b) {
      forall k | k in a
        ensures OpenRow(job, a[k]) == OpenRow(job, b[k])
      {
        assert OpenDb(job, a)[k] == OpenDb(job, b)[k];
      }
    }
  }

  lemma StepCommutesWithOpening(job: Job, db: Db, w: WriterStep)
    ensures OpenDb(job, Apply(db, w)) == ApplyClear(OpenDb(job, db), OpenStep(job, w))
  {
    var a, b := OpenDb(job, Apply(db, w)), ApplyClear(OpenDb(job, db), OpenStep(job, w));
    assert a.Keys == b.Keys;
    forall k | k in a
      ensures a[k] == b[k]
    {
      if k != w.key {
        assert k in db && Apply(db, w)[k] == db[k];
      }
    }
  }

  lemma {:induction false} WritersCommuteWithOpening(job: Job, db: Db, ws: seq<WriterStep>)
    ensures OpenDb(job, Replay(db, ws)) == ReplayClear(OpenDb(job, db), OpenTrace(job, ws))
  {
    if ws != [] {
      var front, w := ws[..|ws| - 1], ws[|ws| - 1];
      WritersCommuteWithOpening(job, db, front);
      assert OpenTrace(job, ws)[..|ws| - 1] == OpenTrace(job, front);
      StepCommutesWithOpening(job, Replay(db, front), w);
    }
  }

  // ---- The theorems ----

  /**
   At every point inside a pass, uncommitted writes included, readers of plaintext see the writers
   alone, exactly if the new id is registered or rotation has written nothing yet.
   */
  lemma EveryPointRefines(job: Job, snap: Db, env: Env, j: nat, i: nat)
    requires IdealJob(job) && j < |TABLES| && Selects(env.order, snap, TABLES[j]) && i <= |env.order|
    ensures var st := After(snap, env, Plan(job, snap, env), i);
            OpenDb(job, st.db) == ReplayClear(OpenDb(job, snap), OpenTrace(job, st.since)) <==>
              Registered(job.target) || st.undo == map[]
  {
    var plan := Plan(job, snap, env);
    PlanIsFaithful(job, snap, env);
    AfterKeepsInv(job, snap, env, plan, i);
    var st := After(snap, env, plan, i);
    PassInvStutters(job, snap, env, j, st, i);
    WritersCommuteWithOpening(job, snap, st.since);
  }

  lemma PassInvStutters(job: Job, snap: Db, env: Env, j: nat, st: Pass, i: nat)
    requires IdealJob(job) && j < |TABLES| && Selects(env.order, snap, TABLES[j]) && PassInv(job, snap, env, st, i)
    ensures OpenDb(job, st.db) == OpenDb(job, Replay(snap, st.since)) <==> Registered(job.target) || st.undo == map[]
  {
    PassInvRelates(job, snap, env, st, i, j);
    OnlyReencryptsStutters(job, Rollback(st), st.db, j, j + 1);
    if !Registered(job.target) && st.undo != map[] {
      assert st.undo.Keys != {};
      var k :| k in st.undo;
      ReencryptionStutters(job, st.undo[k].cell, st.db[k].cell);
      assert Rollback(st)[k] == st.undo[k];
    }
  }

  /** One transaction: exactly when its committed writes are invisible to readers of plaintext. */
  lemma PassRefinesIff(job: Job, db: Db, env: Env, j: nat)
    requires IdealJob(job) && j < |TABLES| && Selects(env.order, SelectPoint(db, env), TABLES[j])
    ensures var res := TablePass(job, db, env);
            OpenDb(job, res.db) == ReplayClear(OpenDb(job, db), OpenTrace(job, res.trace)) <==>
              Registered(job.target) || res.failed || res.rewritten == {}
  {
    var snap, st := SelectPoint(db, env), LastPoint(job, db, env);
    LastPointInv(job, db, env);
    PassInvStutters(job, snap, env, j, st, |env.order|);
    ReplayConcat(db, GapAt(env, 0), st.since);
    WritersCommuteWithOpening(job, db, TablePass(job, db, env).trace);
    assert st.undo.Keys == {} <==> st.undo == map[];
  }

  /**
   At the end of the call, returned or raised, in every interleaving with any writers: no update is
   lost or invented, exactly if the new id is registered or no re-encrypted cell is left.
   */
  lemma NoLostUpdate(job: Job, db: Db, envs: nat -> Env)
    requires IdealJob(job) && Complete(job, db, envs)
    ensures var run := Rotation(job, db, envs);
            OpenDb(job, run.db) == ReplayClear(OpenDb(job, db), OpenTrace(job, run.trace)) <==>
              Registered(job.target) || run.db == Replay(db, run.trace)
  {
    var run := Rotation(job, db, envs);
    RunOnlyReencrypts(job, db, envs, |TABLES|);
    OnlyReencryptsStutters(job, Replay(db, run.trace), run.db, 0, run.tables);
    WritersCommuteWithOpening(job, db, run.trace);
  }

  /** Same columns but for the encrypted one, and so the same revision marker. */
  ghost predicate SameBesidesCell(row: Row, row': Row) {
    && row' == row.(cell := row'.cell)
    && (Valid(row.updateTime) ==> UpdateMarker(row'.updateTime) == UpdateMarker(row.updateTime))
  }

  /** Rows, their other columns and their revision markers are the writers' own: rotation sets one column. */
  lemma MarkersUntouched(job: Job, db: Db, envs: nat -> Env)
    requires Complete(job, db, envs)
    ensures var run := Rotation(job, db, envs);
            && run.db.Keys == Replay(db, run.trace).Keys
            && forall k :: k in run.db ==> SameBesidesCell(Replay(db, run.trace)[k], run.db[k])
  {
    var run := Rotation(job, db, envs);
    RunOnlyReencrypts(job, db, envs, |TABLES|);
    RelationKeepsMarkers(job, Replay(db, run.trace), run.db, 0, run.tables);
  }

  lemma RelationKeepsMarkers(job: Job, shadow: Db, db: Db, from: nat, to: nat)
    requires OnlyReencrypts(job, shadow, db, from, to)
    ensures forall k :: k in db ==> SameBesidesCell(shadow[k], db[k])
  {
    forall k | k in db
      ensures SameBesidesCell(shadow[k], db[k])
    {
      assert SameOrReencrypted(job, shadow[k], db[k], from <= TableIndex(k.table) < to);
    }
  }
}
