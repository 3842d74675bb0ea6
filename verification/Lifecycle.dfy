/**
 The whole life of a database: writes of services deployed one after another or side by side, and
 rotations with any of them writing between its statements. What a service reads is the last value
 written, exactly while it is configured with the key the value is sealed under.
 */
module Lifecycle {
  import opened Results
  import opened Backends
  import opened Serialization
  import opened TypeDecorator
  import opened EncryptedSession
  import opened RotationModel
  import opened RotationSafety
  import opened RotationMigration
  import opened RotationQuiescent
  import opened RotationAccounting
  import RotationEngine

  // ---- Keys and sealed cells ----

  /** Every backend ever configured or rotated with: ideal, and apart where ids collide. */
  ghost predicate GoodRing(ring: seq<Backend>) {
    && (forall b :: b in ring ==> Sound(b))
    && (forall a, b :: a in ring && b in ring && a != b && a.id == b.id ==> Rejects(a, b))
  }

  ghost predicate Sealed<D>(json: Json<D>, key: Backend, d: D, cell: Option<string>) {
    exists r :: SealedWith(json, key, d, cell, r)
  }

  ghost predicate SealedWith<D>(json: Json<D>, key: Backend, d: D, cell: Option<string>, r: Entropy) {
    key.enc(json.dumps(d), r).Ok? && cell == Some(EncodeCell(key.id, key.enc(json.dumps(d), r).value))
  }

  /** The cell holds `doc`, sealed under `key` unless it is NULL. */
  ghost predicate Holds<D>(json: Json<D>, ring: seq<Backend>, cell: Option<string>, doc: Option<D>, key: Backend) {
    match doc
    case None => cell == None
    case Some(d) => key in ring && Sealed(json, key, d, cell)
  }

  lemma SealedMeans<D>(json: Json<D>, ring: seq<Backend>, key: Backend, d: D, c: Option<string>, r: Entropy)
    requires GoodRing(ring) && key in ring && SealedWith(json, key, d, c, r)
    ensures ParseCell(c.value) ==
            if Registered(key) then Ok(Envelope(ENVELOPE_VERSION_1, key.id, key.enc(json.dumps(d), r).value))
            else Raise(DecryptionError)
    ensures OpensTo(key, c, json.dumps(d)) <==> Registered(key)
  {
    assert Opens(key, json.dumps(d), r);
    ParseEncodeCell(key.id, key.enc(json.dumps(d), r).value);
  }

  lemma RingRefuses(ring: seq<Backend>, b: Backend, key: Backend, p: bytes, r: Entropy)
    requires GoodRing(ring) && b in ring && key in ring && b != key && b.id == key.id && key.enc(p, r).Ok?
    ensures b.dec(key.enc(p, r).value) == Raise(DecryptionError)
  {
    assert Rejects(b, key) && Refuses(b, key, p, r);
  }

  /** A key of the ring that opens a sealed cell is the one that sealed it. */
  lemma OpenedBySealer<D>(json: Json<D>, ring: seq<Backend>, b: Backend, c: Option<string>, d: D, key: Backend,
      p: bytes)
    requires GoodRing(ring) && b in ring && key in ring && Sealed(json, key, d, c) && OpensTo(b, c, p)
    ensures key == b && p == json.dumps(d)
  {
    var r :| SealedWith(json, key, d, c, r);
    SealedMeans(json, ring, key, d, c, r);
    if key != b {
      RingRefuses(ring, b, key, json.dumps(d), r);
    }
  }

  /** A cell that parses is not sealed under two keys. */
  lemma SealedOnce<D>(json: Json<D>, ring: seq<Backend>, cell: Option<string>, d: D, a: Backend, b: Backend)
    requires GoodRing(ring) && a in ring && b in ring && cell.Some? && ParseCell(cell.value).Ok?
    requires Sealed(json, a, d, cell) && Sealed(json, b, d, cell)
    ensures a == b
  {
    var r :| SealedWith(json, b, d, cell, r);
    SealedMeans(json, ring, b, d, cell, r);
    OpenedBySealer(json, ring, b, cell, d, a, json.dumps(d));
  }

  // ---- Services ----

  /** A running service: the backends its constructor was given, and the column it built. */
  datatype Service = Service(primary: Backend, additional: seq<Backend>, col: EncryptedJSON) {
    function Backends(): seq<Backend> { [primary] + additional }
  }

  /** The constructor accepted it, and its keys are from the ring. */
  ghost predicate Configured(ring: seq<Backend>, svc: Service) {
    BuiltFrom(svc.col, svc.Backends()) && forall b :: b in svc.Backends() ==> b in ring
  }

  /** What a writer step writes, and the service it comes from. */
  datatype Said<!D> = Said(doc: Option<D>, from: Service)

  /** The stored value is what the column binds for `doc`. */
  ghost predicate Bound<D>(json: Json<D>, col: EncryptedJSON, doc: Option<D>, cell: Option<string>) {
    exists r :: ProcessBindParam(col, json, doc, r) == Ok(cell)
  }

  ghost predicate FromService<D>(json: Json<D>, ring: seq<Backend>, step: WriterStep, said: Said<D>) {
    && Configured(ring, said.from)
    && match step
       case Insert(_, row) => Bound(json, said.from.col, said.doc, row.cell)
       case Rewrite(_, c, _) => Bound(json, said.from.col, said.doc, c)
       case Delete(_) => true
       case Touch(_, _) => true
  }

  lemma BoundIsHeld<D>(json: Json<D>, ring: seq<Backend>, svc: Service, doc: Option<D>, cell: Option<string>)
    requires Configured(ring, svc) && Bound(json, svc.col, doc, cell)
    ensures Holds(json, ring, cell, doc, svc.primary)
  {
    var r :| ProcessBindParam(svc.col, json, doc, r) == Ok(cell);
    assert svc.Backends()[0] == svc.primary && svc.primary in svc.Backends();
    if doc.Some? {
      assert SealedWith(json, svc.primary, doc.value, cell, r);
    }
  }

  // ---- The world ----

  /** The database with its history: each row's last value written, and the key its cell is under now. */
  datatype World<!D> = World(db: Db, last: map<Key, Option<D>>, key: map<Key, Backend>)

  ghost predicate WorldOk<D>(json: Json<D>, ring: seq<Backend>, w: World<D>) {
    && w.last.Keys == w.db.Keys && w.key.Keys == w.db.Keys
    && forall k :: k in w.db ==> RowOk(json, ring, w, k)
  }

  ghost predicate RowOk<D>(json: Json<D>, ring: seq<Backend>, w: World<D>, k: Key)
    requires k in w.db && k in w.last && k in w.key
  {
    Holds(json, ring, w.db[k].cell, w.last[k], w.key[k])
  }

  /** What a step does to a record kept beside the rows. */
  function Noted<V>(m: map<Key, V>, step: WriterStep, v: V): map<Key, V> {
    match step
    case Insert(k, _) => if k in m then m else m[k := v]
    case Delete(k) => m - {k}
    case Rewrite(k, _, _) => if k in m then m[k := v] else m
    case Touch(_, _) => m
  }

  function Hear<D>(w: World<D>, step: WriterStep, said: Said<D>): World<D> {
    World(Apply(w.db, step), Noted(w.last, step, said.doc), Noted(w.key, step, said.from.primary))
  }

  /** A sequence of writes; `said` tells what each of them writes, and from where. */
  function HearAll<D>(w: World<D>, steps: seq<WriterStep>, said: WriterStep -> Said<D>): (w': World<D>)
    ensures w'.db == Replay(w.db, steps)
  {
    if steps == [] then w
    else
      var step := steps[|steps| - 1];
      Hear(HearAll(w, steps[..|steps| - 1], said), step, said(step))
  }

  /** If the step stores a cell, it is one that holds what was said. */
  lemma StoredIsHeld<D>(json: Json<D>, ring: seq<Backend>, step: WriterStep, said: Said<D>)
    requires FromService(json, ring, step, said)
    ensures step.Insert? ==> Holds(json, ring, step.row.cell, said.doc, said.from.primary)
    ensures step.Rewrite? ==> Holds(json, ring, step.cell, said.doc, said.from.primary)
  {
    match step
    case Insert(_, row) => BoundIsHeld(json, ring, said.from, said.doc, row.cell);
    case Rewrite(_, c, _) => BoundIsHeld(json, ring, said.from, said.doc, c);
    case Delete(_) =>
    case Touch(_, _) =>
  }

  lemma HearKeepsWorld<D>(json: Json<D>, ring: seq<Backend>, w: World<D>, step: WriterStep, said: Said<D>)
    requires WorldOk(json, ring, w) && FromService(json, ring, step, said)
    ensures WorldOk(json, ring, Hear(w, step, said))
  {
    var w' := Hear(w, step, said);
    NotedKeys(w.db, w.last, step, said.doc);
    NotedKeys(w.db, w.key, step, said.from.primary);
    StoredIsHeld(json, ring, step, said);
    forall k | k in w'.db
      ensures RowOk(json, ring, w', k)
    {
      if k in w.db {
        assert RowOk(json, ring, w, k);
      }
      HearRow(json, ring, w, step, said, k);
    }
  }

  lemma NotedKeys<V>(db: Db, m: map<Key, V>, step: WriterStep, v: V)
    requires m.Keys == db.Keys
    ensures Noted(m, step, v).Keys == Apply(db, step).Keys
  {
  }

  lemma HearRow<D>(json: Json<D>, ring: seq<Backend>, w: World<D>, step: WriterStep, said: Said<D>, k: Key)
    requires w.last.Keys == w.db.Keys && w.key.Keys == w.db.Keys && k in Apply(w.db, step)
    requires k in w.db ==> RowOk(json, ring, w, k)
    requires step.Insert? ==> Holds(json, ring, step.row.cell, said.doc, said.from.primary)
    requires step.Rewrite? ==> Holds(json, ring, step.cell, said.doc, said.from.primary)
    ensures var w' := Hear(w, step, said);
            k in w'.last && k in w'.key && RowOk(json, ring, w', k)
  {
    if step.key != k {
      OtherRow(w, step, said, k);
    }
  }

  lemma OtherRow<D>(w: World<D>, step: WriterStep, said: Said<D>, k: Key)
    requires w.last.Keys == w.db.Keys && w.key.Keys == w.db.Keys && k in Apply(w.db, step) && step.key != k
    ensures k in w.db && Apply(w.db, step)[k] == w.db[k]
    ensures var w' := Hear(w, step, said);
            k in w'.last && k in w'.key && w'.last[k] == w.last[k] && w'.key[k] == w.key[k]
  {
  }

  lemma {:induction false} HearAllKeepsWorld<D>(json: Json<D>, ring: seq<Backend>, w: World<D>, steps: seq<WriterStep>,
      said: WriterStep -> Said<D>)
    requires WorldOk(json, ring, w)
    requires AllOk(steps, step => FromService(json, ring, step, said(step)))
    ensures WorldOk(json, ring, HearAll(w, steps, said))
  {
    if steps != [] {
      var step := steps[|steps| - 1];
      assert step in steps;
      HearAllKeepsWorld(json, ring, w, steps[..|steps| - 1], said);
      HearKeepsWorld(json, ring, HearAll(w, steps[..|steps| - 1], said), step, said(step));
    }
  }

  // ---- Rotation ----

  /** The database is now `db`; rows that changed are under the new key. */
  function Recrypted<D>(w: World<D>, job: Job, db: Db): World<D> {
    w.(db := db, key := map k | k in w.key :: if k in db && k in w.db && db[k] == w.db[k] then w.key[k] else job.target)
  }

  /** Rotation can only have opened a cell with the very key that sealed it. */
  lemma ReencryptedIsHeld<D>(json: Json<D>, ring: seq<Backend>, job: Job, c: Option<string>, c': Option<string>,
      doc: Option<D>, key: Backend)
    requires GoodRing(ring) && job.source in ring && job.target in ring
    requires Holds(json, ring, c, doc, key) && Reencrypted(job, c, c')
    ensures doc.Some? && key == job.source && Holds(json, ring, c', doc, job.target)
  {
    ReencryptedMeaning(job, c, c');
    var p, r :| MovesTo(job, c, c', p, r) && (OpensTo(job.target, c', p) <==> Registered(job.target));
    OpenedBySealer(json, ring, job.source, c, doc.value, key, p);
    assert SealedWith(json, job.target, doc.value, c', r);
  }

  lemma RecryptedKeepsWorld<D>(json: Json<D>, ring: seq<Backend>, w: World<D>, job: Job, db: Db, n: nat)
    requires GoodRing(ring) && job.source in ring && job.target in ring
    requires WorldOk(json, ring, w) && OnlyReencrypts(job, w.db, db, 0, n)
    ensures WorldOk(json, ring, Recrypted(w, job, db))
  {
    var w' := Recrypted(w, job, db);
    forall k | k in db
      ensures RowOk(json, ring, w', k)
    {
      assert RowOk(json, ring, w, k);
      assert SameOrReencrypted(job, w.db[k], db[k], 0 <= TableIndex(k.table) < n);
      if db[k] != w.db[k] {
        ReencryptedIsHeld(json, ring, job, w.db[k].cell, db[k].cell, w.last[k], w.key[k]);
      }
    }
  }

  // ---- Whole runs ----

  datatype Event<!D> =
    | Serve(step: WriterStep, said: Said<D>)
    | Rotate(job: Job, envs: nat -> Env, heard: WriterStep -> Said<D>)

  /**
   Every write is bound by the column of some accepted service, also those between a rotation's
   statements. Which services run when is left open: a redeployment, at any moment, is a change of
   the service the writes name, and several may run side by side.
   */
  ghost predicate Legal<D>(json: Json<D>, ring: seq<Backend>, w: World<D>, e: Event<D>) {
    match e
    case Serve(step, said) => FromService(json, ring, step, said)
    case Rotate(job, envs, heard) =>
      && job.source in ring && job.target in ring
      && Complete(job, w.db, envs)
      && AllGaps(envs, step => FromService(json, ring, step, heard(step)))
  }

  function Next<D>(w: World<D>, e: Event<D>): World<D> {
    match e
    case Serve(step, said) => Hear(w, step, said)
    case Rotate(job, envs, heard) =>
      var run := Rotation(job, w.db, envs);
      Recrypted(HearAll(w, run.trace, heard), job, run.db)
  }

  lemma NextKeepsWorld<D>(json: Json<D>, ring: seq<Backend>, w: World<D>, e: Event<D>)
    requires GoodRing(ring) && WorldOk(json, ring, w) && Legal(json, ring, w, e)
    ensures WorldOk(json, ring, Next(w, e))
  {
    match e
    case Serve(step, said) => HearKeepsWorld(json, ring, w, step, said);
    case Rotate(job, envs, heard) => RotateKeepsWorld(json, ring, w, job, envs, heard);
  }

  lemma RotateKeepsWorld<D>(json: Json<D>, ring: seq<Backend>, w: World<D>, job: Job, envs: nat -> Env,
      heard: WriterStep -> Said<D>)
    requires GoodRing(ring) && WorldOk(json, ring, w) && Legal(json, ring, w, Rotate(job, envs, heard))
    ensures WorldOk(json, ring, Next(w, Rotate(job, envs, heard)))
  {
    var run := Rotation(job, w.db, envs);
    RunTrace(job, w.db, envs, step => FromService(json, ring, step, heard(step)));
    HearAllKeepsWorld(json, ring, w, run.trace, heard);
    RunOnlyReencrypts(job, w.db, envs, |TABLES|);
    RecryptedKeepsWorld(json, ring, HearAll(w, run.trace, heard), job, run.db, run.tables);
  }

  /** `events` may happen in this order from `w` on, and lead to `w'`. */
  ghost predicate Leads<D>(json: Json<D>, ring: seq<Backend>, w: World<D>, events: seq<Event<D>>, w': World<D>)
    decreases |events|
  {
    if events == [] then w' == w
    else Legal(json, ring, w, events[0]) && Leads(json, ring, Next(w, events[0]), events[1..], w')
  }

  lemma {:induction false} LifeKeepsWorld<D>(json: Json<D>, ring: seq<Backend>, w: World<D>, events: seq<Event<D>>,
      w': World<D>)
    requires GoodRing(ring) && WorldOk(json, ring, w) && Leads(json, ring, w, events, w')
    ensures WorldOk(json, ring, w')
    decreases |events|
  {
    if events != [] {
      NextKeepsWorld(json, ring, w, events[0]);
      LifeKeepsWorld(json, ring, Next(w, events[0]), events[1..], w');
    }
  }

  /** What the service reads in row `k`. */
  ghost predicate ReadsLast<D>(json: Json<D>, svc: Service, w: World<D>, k: Key)
    requires k in w.db && k in w.last && k in w.key
  {
    ProcessResultValue(svc.col, json, w.db[k].cell) ==
      if w.last[k].None? || (w.key[k] in svc.Backends() && Registered(w.key[k])) then Ok(w.last[k])
      else Raise(DecryptionError)
  }

  lemma HeldReads<D(!new)>(json: Json<D>, ring: seq<Backend>, svc: Service, w: World<D>, k: Key)
    requires GoodRing(ring) && Lossless(json) && Configured(ring, svc) && WorldOk(json, ring, w) && k in w.db
    ensures ReadsLast(json, svc, w, k)
  {
    assert RowOk(json, ring, w, k);
    var key, doc, bs := w.key[k], w.last[k], svc.Backends();
    if doc.Some? {
      var r :| SealedWith(json, key, doc.value, w.db[k].cell, r);
      ReadsOwnBackends(svc.col, bs, key, json, doc.value, r);
      if key.id in Ids(bs) && key !in bs {
        var i :| 0 <= i < |bs| && bs[i].id == key.id;
        assert bs[i] in bs && Rejects(bs[i], key);
      }
    }
  }

  /**
   After any run of writes and rotations, failed and interleaved ones included, whatever services
   wrote and whenever they were deployed, the rows are those written and not deleted; and any
   service that reads one gets exactly the last value written if it is configured with the key the
   value is sealed under and that key's id is registered, and a DecryptionError if not.
   */
  lemma WholeLife<D(!new)>(json: Json<D>, ring: seq<Backend>, events: seq<Event<D>>, w: World<D>)
    requires GoodRing(ring) && Lossless(json) && Leads(json, ring, World(map[], map[], map[]), events, w)
    ensures w.db.Keys == w.last.Keys == w.key.Keys
    ensures forall svc, k :: Configured(ring, svc) && k in w.db ==> ReadsLast(json, svc, w, k)
  {
    LifeKeepsWorld(json, ring, World(map[], map[], map[]), events, w);
    forall svc, k | Configured(ring, svc) && k in w.db
      ensures ReadsLast(json, svc, w, k)
    {
      HeldReads(json, ring, svc, w, k);
    }
  }

  // ---- Retiring a key ----

  function NothingDrawn(i: nat): Entropy { _ => 0 }

  function NobodyElse(j: nat): Env { Env([], NothingDrawn, []) }

  lemma GaplessIsQuiet(env: Env, id: byte)
    requires env.gaps == []
    ensures Quiet(env) && NewTraffic(env, id)
  {
  }

  lemma MigrationOf(job: Job, db: Db) returns (envs: nat -> Env)
    requires CrossBackend(job) && !AnyBad(job, db)
    ensures QuietCall(job, db, envs) && Migration(job, db, envs)
  {
    var orders := RotationEngine.CompleteCall(job, db, NobodyElse);
    envs := RotationEngine.WithOrders(NobodyElse, orders);
    forall i: nat
      ensures Quiet(envs(i)) && NewTraffic(envs(i), job.source.id)
    {
      RotationEngine.OrdersKeepGaps(NobodyElse, orders, i);
      assert NobodyElse(i).gaps == [];
      GaplessIsQuiet(envs(i), job.source.id);
    }
    QuietRotation(job, db, envs);
  }

  /** A database without bad values can always be migrated, so the results about such calls have instances. */
  lemma MigrationsExist(job: Job, db: Db)
    requires CrossBackend(job) && !AnyBad(job, db)
    ensures exists envs :: QuietCall(job, db, envs) && Migration(job, db, envs)
  {
    var envs := MigrationOf(job, db);
  }

  /** Every stored ciphertext is under one of these keys. */
  ghost predicate Covered<D>(w: World<D>, keys: seq<Backend>) {
    forall k :: k in w.last && k in w.key && w.last[k].Some? ==> w.key[k] in keys
  }

  /** No stored ciphertext is under `b`. */
  ghost predicate Retired<D>(w: World<D>, b: Backend) {
    forall k :: k in w.last && k in w.key && w.last[k].Some? ==> w.key[k] != b
  }

  lemma SealedHasId<D>(json: Json<D>, ring: seq<Backend>, w: World<D>, k: Key)
    requires GoodRing(ring) && WorldOk(json, ring, w) && k in w.db && w.last[k].Some?
    ensures w.db[k].cell.Some?
    ensures if Registered(w.key[k]) then HasId(w.db[k].cell, w.key[k].id) else ParseCell(w.db[k].cell.value).Raise?
  {
    assert RowOk(json, ring, w, k);
    var key, d := w.key[k], w.last[k].value;
    var r :| SealedWith(json, key, d, w.db[k].cell, r);
    SealedMeans(json, ring, key, d, w.db[k].cell, r);
  }

  /** A cross-backend rotation under live traffic that skipped nothing retires the old key. */
  lemma MigrationRetires<D>(json: Json<D>, ring: seq<Backend>, w: World<D>, job: Job, envs: nat -> Env,
      heard: WriterStep -> Said<D>)
    requires GoodRing(ring) && WorldOk(json, ring, w) && Legal(json, ring, w, Rotate(job, envs, heard))
    requires Registered(job.source) && Migration(job, w.db, envs) && Rotation(job, w.db, envs).skipped == 0
    ensures Retired(Next(w, Rotate(job, envs, heard)), job.source)
  {
    var w' := Next(w, Rotate(job, envs, heard));
    RotateKeepsWorld(json, ring, w, job, envs, heard);
    MigrationCompleteness(job, w.db, envs);
    forall k | k in w'.last && k in w'.key && w'.last[k].Some?
      ensures w'.key[k] != job.source
    {
      SealedHasId(json, ring, w', k);
      assert k !in RowsWithId(w'.db, job.source.id);
    }
  }

  /** So does a rotation between two keys, of one backend or two, with the service stopped. */
  lemma StoppedRotationRetires<D>(json: Json<D>, ring: seq<Backend>, w: World<D>, job: Job, envs: nat -> Env,
      heard: WriterStep -> Said<D>)
    requires GoodRing(ring) && WorldOk(json, ring, w) && Legal(json, ring, w, Rotate(job, envs, heard))
    requires job.source != job.target && QuietCall(job, w.db, envs) && !Rotation(job, w.db, envs).failed
    ensures Retired(Next(w, Rotate(job, envs, heard)), job.source)
  {
    var w', run := Next(w, Rotate(job, envs, heard)), Rotation(job, w.db, envs);
    RotateKeepsWorld(json, ring, w, job, envs, heard);
    QuietRotation(job, w.db, envs);
    forall k | k in w'.last && k in w'.key && w'.last[k].Some?
      ensures w'.key[k] != job.source
    {
      assert RowRotated(job, w.db[k], run.db[k], 0 <= TableIndex(k.table) < |TABLES|);
      assert !Bad(job, w.db[k].cell);
      RotatedRowMoved(json, ring, w, job, run.db, k);
    }
  }

  lemma RotatedRowMoved<D>(json: Json<D>, ring: seq<Backend>, w: World<D>, job: Job, db: Db, k: Key)
    requires GoodRing(ring) && WorldOk(json, ring, w)
    requires job.source in ring && job.target in ring && job.source != job.target
    requires k in w.db && k in db && RowRotated(job, w.db[k], db[k], true) && !Bad(job, w.db[k].cell)
    ensures w.last[k].Some? ==> Recrypted(w, job, db).key[k] != job.source
  {
    if w.last[k].Some? {
      SealedHasId(json, ring, w, k);
      assert RowOk(json, ring, w, k);
      if HasId(w.db[k].cell, job.source.id) {
        ReencryptedIsHeld(json, ring, job, w.db[k].cell, db[k].cell, w.last[k], w.key[k]);
        if db[k] == w.db[k] {
          SealedOnce(json, ring, w.db[k].cell, w.last[k].value, job.source, job.target);
        }
      }
    }
  }

  lemma {:induction false} HearAllKeepsCovered<D>(w: World<D>, steps: seq<WriterStep>, heard: WriterStep -> Said<D>,
      keys: seq<Backend>)
    requires Covered(w, keys) && w.last.Keys == w.key.Keys
    requires AllOk(steps, step => heard(step).from.primary in keys)
    ensures Covered(HearAll(w, steps, heard), keys)
    ensures HearAll(w, steps, heard).last.Keys == HearAll(w, steps, heard).key.Keys
  {
    if steps != [] {
      assert steps[|steps| - 1] in steps;
      HearAllKeepsCovered(w, steps[..|steps| - 1], heard, keys);
    }
  }

  /**
   The documented procedure ends well: if the stored values and the writes during the call are
   under `keys`, the call retired the old one of them, and a service has the new key and every
   other one, all registered, then it reads every row as the last value written.
   */
  lemma RetireAndRedeploy<D(!new)>(json: Json<D>, ring: seq<Backend>, w: World<D>, job: Job, envs: nat -> Env,
      heard: WriterStep -> Said<D>, keys: seq<Backend>, svc: Service)
    requires GoodRing(ring) && Lossless(json) && WorldOk(json, ring, w) && Covered(w, keys)
    requires Legal(json, ring, w, Rotate(job, envs, heard))
    requires AllGaps(envs, step => heard(step).from.primary in keys)
    requires Retired(Next(w, Rotate(job, envs, heard)), job.source)
    requires Configured(ring, svc) && forall b :: b in svc.Backends() ==> Registered(b)
    requires job.target in svc.Backends() && forall b :: b in keys && b != job.source ==> b in svc.Backends()
    ensures var w' := Next(w, Rotate(job, envs, heard));
            forall k :: k in w'.db ==>
              k in w'.last && ProcessResultValue(svc.col, json, w'.db[k].cell) == Ok(w'.last[k])
  {
    var w', run := Next(w, Rotate(job, envs, heard)), Rotation(job, w.db, envs);
    RotateKeepsWorld(json, ring, w, job, envs, heard);
    RunTrace(job, w.db, envs, step => heard(step).from.primary in keys);
    HearAllKeepsCovered(w, run.trace, heard, keys);
    forall k | k in w'.db
      ensures k in w'.last && ProcessResultValue(svc.col, json, w'.db[k].cell) == Ok(w'.last[k])
    {
      HeldReads(json, ring, svc, w', k);
      assert w'.key[k] == HearAll(w, run.trace, heard).key[k] || w'.key[k] == job.target;
    }
  }
}
