/** What every interleaving keeps: no lost update, atomic tables, nothing but ciphertexts touched. */
module RotationSafety {
  import opened Results
  import opened Backends
  import opened Serialization
  import opened TypeDecorator
  import opened RotationModel

  // ---- Writer traces ----

  ghost predicate Touched(ws: seq<WriterStep>, k: Key) {
    exists w :: w in ws && w.key == k
  }

  lemma {:induction false} ReplayConcat(db: Db, a: seq<WriterStep>, b: seq<WriterStep>)
    ensures Replay(db, a + b) == Replay(Replay(db, a), b)
  {
    if b == [] {
      assert a + b == a;
    } else {
      ReplayConcat(db, a, b[..|b| - 1]);
      assert (a + b)[..|a + b| - 1] == a + b[..|b| - 1];
    }
  }

  lemma {:induction false} ReplayFrame(db: Db, ws: seq<WriterStep>, k: Key)
    requires !Touched(ws, k)
    ensures k in Replay(db, ws) <==> k in db
    ensures k in db ==> Replay(db, ws)[k] == db[k]
  {
    if ws != [] {
      assert ws[|ws| - 1] in ws;
      ReplayFrame(db, ws[..|ws| - 1], k);
    }
  }

  lemma {:induction false} UnblockedSteps(ws: seq<WriterStep>, locks: set<Key>)
    ensures forall w :: w in Unblocked(ws, locks) <==> w in ws && w.key !in locks
  {
    if ws != [] {
      UnblockedSteps(ws[..|ws| - 1], locks);
      assert ws == ws[..|ws| - 1] + [ws[|ws| - 1]];
    }
  }

  lemma ApplyUnderUndo(db: Db, undo: Db, w: WriterStep)
    requires w.key !in undo
    ensures Apply(db, w) + undo == Apply(db + undo, w)
  {
  }

  /** Writers that keep off the locked rows do not see whether rotation's writes are there. */
  lemma {:induction false} ReplayUnderUndo(db: Db, undo: Db, ws: seq<WriterStep>)
    requires forall w :: w in ws ==> w.key !in undo
    ensures Replay(db, ws) + undo == Replay(db + undo, ws)
  {
    if ws != [] {
      assert ws[|ws| - 1] in ws;
      ReplayUnderUndo(db, undo, ws[..|ws| - 1]);
      ApplyUnderUndo(Replay(db, ws[..|ws| - 1]), undo, ws[|ws| - 1]);
    }
  }

  // ---- One re-encryption ----

  /** `c'` is what the loop body writes for `c`, for some drawn entropy. */
  ghost predicate Reencrypted(job: Job, c: Option<string>, c': Option<string>) {
    exists r :: ReencryptedWith(job, c, c', r)
  }

  ghost predicate ReencryptedWith(job: Job, c: Option<string>, c': Option<string>, r: Entropy) {
    PlanRow(job, c, r).Replace? && c' == Some(PlanRow(job, c, r).text)
  }

  /** `c` is a cell of backend `b` that its key opens to `p`. */
  ghost predicate OpensTo(b: Backend, c: Option<string>, p: bytes) {
    && c.Some?
    && ParseCell(c.value).Ok?
    && ParseCell(c.value).value.id == b.id
    && b.dec(ParseCell(c.value).value.ciphertext) == Ok(p)
  }

  predicate HasId(c: Option<string>, id: byte) {
    c.Some? && ParseCell(c.value).Ok? && ParseCell(c.value).value.id == id
  }

  /** What the old key opened in `c` is what the new one encrypted into `c'`. */
  ghost predicate MovesTo(job: Job, c: Option<string>, c': Option<string>, p: bytes, r: Entropy) {
    && OpensTo(job.source, c, p)
    && job.target.enc(p, r).Ok?
    && c' == Some(EncodeCell(job.target.id, job.target.enc(p, r).value))
  }

  predicate Registered(b: Backend) { b.id in BACKEND_REGISTRY }

  /**
   Re-encryption moves a cell from the old key to the new one and keeps its plaintext. Whether
   the result can be read at all depends on the new id being registered, which rotation does not check.
   */
  lemma ReencryptedMeaning(job: Job, c: Option<string>, c': Option<string>)
    requires Reencrypted(job, c, c') && Sound(job.target)
    ensures exists p, r :: MovesTo(job, c, c', p, r) && (OpensTo(job.target, c', p) <==> Registered(job.target))
    ensures c'.Some? && (ParseCell(c'.value).Ok? <==> Registered(job.target))
    ensures HasId(c, job.source.id) && Registered(job.source)
    ensures HasId(c', job.target.id) <==> Registered(job.target)
  {
    var r :| ReencryptedWith(job, c, c', r);
    var p := job.source.dec(ParseCell(c.value).value.ciphertext).value;
    assert Opens(job.target, p, r);
    ParseEncodeCell(job.target.id, job.target.enc(p, r).value);
    assert MovesTo(job, c, c', p, r);
    ParseCellMeaning(c.value);
    assert Carries(c.value, job.source.id, ParseCell(c.value).value.ciphertext);
  }

  // ---- What ran during a call ----

  ghost predicate AllOk(steps: seq<WriterStep>, ok: WriterStep -> bool) {
    forall step :: step in steps ==> ok(step)
  }

  ghost predicate AllInGaps(env: Env, ok: WriterStep -> bool) {
    forall i: nat :: AllOk(GapAt(env, i), ok)
  }

  /** The steps that ran between the SELECT and the end of the transaction. */
  function During(job: Job, db: Db, env: Env): seq<WriterStep> {
    LastPoint(job, db, env).since
  }

  lemma GapTrace(st: Pass, ws: seq<WriterStep>, ok: WriterStep -> bool)
    requires AllOk(st.since, ok) && AllOk(ws, ok)
    ensures AllOk(Gap(st, ws).since, ok)
  {
    UnblockedSteps(ws, st.undo.Keys);
  }

  /** The steps that ran during a pass all come from its gaps. */
  lemma PassTrace(job: Job, db: Db, env: Env, ok: WriterStep -> bool)
    requires AllInGaps(env, ok)
    ensures AllOk(During(job, db, env), ok) && AllOk(TablePass(job, db, env).trace, ok)
  {
    var snap := SelectPoint(db, env);
    var plan, n := Plan(job, snap, env), |env.order|;
    var inv := (st: Pass, i: nat) => AllOk(st.since, ok);
    forall st, i: nat | i < n && inv(st, i)
      ensures inv(Step(snap, env, plan[i], st, i), i + 1)
    {
      assert AllOk(GapAt(env, i + 1), ok);
      GapTrace(st, GapAt(env, i + 1), ok);
    }
    PassInduction(snap, env, plan, inv, n);
    assert inv(After(snap, env, plan, n), n);
    assert AllOk(GapAt(env, n + 1), ok) && AllOk(GapAt(env, 0), ok);
    GapTrace(After(snap, env, plan, n), GapAt(env, n + 1), ok);
  }

  ghost predicate AllGaps(envs: nat -> Env, ok: WriterStep -> bool) {
    forall j: nat :: AllInGaps(envs(j), ok)
  }

  lemma RunTrace(job: Job, db: Db, envs: nat -> Env, ok: WriterStep -> bool)
    requires Complete(job, db, envs) && AllGaps(envs, ok)
    ensures AllOk(Rotation(job, db, envs).trace, ok)
  {
    var inv := (p: Run, j: nat) => AllOk(p.trace, ok);
    forall p, j: nat | j < |TABLES| && inv(p, j) && StepSelects(envs(j), p, j)
      ensures inv(RunStep(job, envs(j), p), j + 1)
    {
      assert AllInGaps(envs(j), ok);
      PassTrace(job, p.db, envs(j), ok);
    }
    RunInduction(job, db, envs, inv, |TABLES|);
    assert inv(RunAfter(job, db, envs, |TABLES|), |TABLES|);
  }

  // ---- The invariant of a pass ----

  /**
   `shadow` is the table as the writers alone would have it. Putting rotation's writes back
   gives exactly the shadow, and every row it wrote is a re-encryption of the row it locked.
   */
  ghost predicate PassInv(job: Job, snap: Db, env: Env, st: Pass, i: nat) {
    && Rollback(st) == Replay(snap, st.since)
    && (forall k :: k in st.undo ==> k in env.order)
    && (forall j :: i <= j < |env.order| ==> env.order[j] !in st.undo)
    && Locked(job, st.db, st.undo)
  }

  ghost predicate Locked(job: Job, db: Db, undo: Db) {
    forall k :: k in undo ==> k in db && RowReencrypted(job, undo[k], db[k])
  }

  ghost predicate RowReencrypted(job: Job, row: Row, row': Row) {
    row' == row.(cell := row'.cell) && Reencrypted(job, row.cell, row'.cell)
  }

  ghost predicate Distinct(order: seq<Key>) {
    forall i, j :: 0 <= i < j < |order| ==> order[i] != order[j]
  }

  lemma GapKeepsInv(job: Job, snap: Db, env: Env, st: Pass, i: nat, ws: seq<WriterStep>)
    requires PassInv(job, snap, env, st, i)
    ensures PassInv(job, snap, env, Gap(st, ws), i)
  {
    var run := Unblocked(ws, st.undo.Keys);
    UnblockedSteps(ws, st.undo.Keys);
    ReplayUnderUndo(st.db, st.undo, run);
    ReplayConcat(snap, st.since, run);
    forall k | k in st.undo
      ensures k in Replay(st.db, run) && Replay(st.db, run)[k] == st.db[k]
    {
      ReplayFrame(st.db, run, k);
    }
  }

  /** A successful UPDATE locks the row with its old contents, so rollback still gives the shadow. */
  lemma WriteKeepsRollback(db: Db, undo: Db, k: Key, text: string)
    requires k in db && k !in undo
    ensures UpdateCell(db, k, text) + Lock(undo, k, db[k]) == db + undo
  {
    var a, b := UpdateCell(db, k, text) + Lock(undo, k, db[k]), db + undo;
    assert a.Keys == b.Keys;
    forall k' | k' in a
      ensures a[k'] == b[k']
    {
      if k' == k || k' in undo {
        assert k' in Lock(undo, k, db[k]);
      }
    }
  }

  lemma WriteKeepsLocked(job: Job, db: Db, undo: Db, k: Key, text: string)
    requires k in db && k !in undo && Locked(job, db, undo) && Reencrypted(job, db[k].cell, Some(text))
    ensures Locked(job, UpdateCell(db, k, text), Lock(undo, k, db[k]))
  {
    assert RowReencrypted(job, db[k], UpdateCell(db, k, text)[k]);
  }

  lemma RowKeepsInv(job: Job, snap: Db, env: Env, st: Pass, i: nat, seen: Row, action: Action)
    requires i < |env.order| && Distinct(env.order)
    requires PassInv(job, snap, env, st, i)
    requires action.Replace? ==> Reencrypted(job, seen.cell, Some(action.text))
    ensures PassInv(job, snap, env, Act(st, env.order[i], seen, action), i + 1)
  {
    var k := env.order[i];
    var st' := Act(st, k, seen, action);
    if action.Replace? && GuardHolds(st.db, k, seen) {
      HitKeepsInv(job, snap, env, st, st', i, action.text);
    } else {
      IdleKeepsInv(job, snap, env, st, st', i);
    }
  }

  lemma IdleKeepsInv(job: Job, snap: Db, env: Env, st: Pass, st': Pass, i: nat)
    requires PassInv(job, snap, env, st, i) && st'.db == st.db && st'.undo == st.undo && st'.since == st.since
    ensures PassInv(job, snap, env, st', i + 1)
  {
  }

  lemma HitKeepsInv(job: Job, snap: Db, env: Env, st: Pass, st': Pass, i: nat, text: string)
    requires i < |env.order| && Distinct(env.order) && PassInv(job, snap, env, st, i)
    requires env.order[i] in st.db && Reencrypted(job, st.db[env.order[i]].cell, Some(text))
    requires st'.db == UpdateCell(st.db, env.order[i], text) && st'.since == st.since
    requires st'.undo == Lock(st.undo, env.order[i], st.db[env.order[i]])
    ensures PassInv(job, snap, env, st', i + 1)
  {
    WriteKeepsRollback(st.db, st.undo, env.order[i], text);
    WriteKeepsLocked(job, st.db, st.undo, env.order[i], text);
  }

  /** What the invariant needs to know of the decisions. */
  ghost predicate Faithful(job: Job, snap: Db, env: Env, plan: seq<Action>) {
    && |plan| == |env.order|
    && forall j :: 0 <= j < |plan| && plan[j].Replace? ==>
         Reencrypted(job, Fetched(snap, env.order[j]).cell, Some(plan[j].text))
  }

  lemma PlanIsFaithful(job: Job, snap: Db, env: Env)
    ensures Faithful(job, snap, env, Plan(job, snap, env))
  {
    var plan := Plan(job, snap, env);
    forall j | 0 <= j < |plan| && plan[j].Replace?
      ensures Reencrypted(job, Fetched(snap, env.order[j]).cell, Some(plan[j].text))
    {
      assert ReencryptedWith(job, Fetched(snap, env.order[j]).cell, Some(plan[j].text), env.draws(j));
    }
  }

  lemma StepKeepsInv(job: Job, snap: Db, env: Env, st: Pass, i: nat, action: Action)
    requires i < |env.order| && Distinct(env.order)
    requires action.Replace? ==> Reencrypted(job, Fetched(snap, env.order[i]).cell, Some(action.text))
    requires PassInv(job, snap, env, st, i)
    ensures PassInv(job, snap, env, Step(snap, env, action, st, i), i + 1)
  {
    if !st.failed {
      GapKeepsInv(job, snap, env, st, i, GapAt(env, i + 1));
      RowKeepsInv(job, snap, env, Gap(st, GapAt(env, i + 1)), i, Fetched(snap, env.order[i]), action);
    }
  }

  lemma BeginKeepsInv(job: Job, snap: Db, env: Env)
    ensures PassInv(job, snap, env, Begin(snap), 0)
  {
    assert snap + map[] == snap;
  }

  lemma AfterKeepsInv(job: Job, snap: Db, env: Env, plan: seq<Action>, i: nat)
    requires Faithful(job, snap, env, plan) && Distinct(env.order) && i <= |plan|
    ensures PassInv(job, snap, env, After(snap, env, plan, i), i)
  {
    var inv := (st, j: nat) => PassInv(job, snap, env, st, j);
    BeginKeepsInv(job, snap, env);
    forall st, j: nat | j < |plan| && inv(st, j)
      ensures inv(Step(snap, env, plan[j], st, j), j + 1)
    {
      StepKeepsInv(job, snap, env, st, j, plan[j]);
    }
    PassInduction(snap, env, plan, inv, i);
    assert inv(After(snap, env, plan, i), i);
  }

  lemma LastPointInv(job: Job, db: Db, env: Env)
    requires Distinct(env.order)
    ensures PassInv(job, SelectPoint(db, env), env, LastPoint(job, db, env), |env.order|)
    ensures Rollback(LastPoint(job, db, env)) == Replay(db, TablePass(job, db, env).trace)
  {
    var snap := SelectPoint(db, env);
    var plan := Plan(job, snap, env);
    PlanIsFaithful(job, snap, env);
    AfterKeepsInv(job, snap, env, plan, |env.order|);
    GapKeepsInv(job, snap, env, After(snap, env, plan, |env.order|), |env.order|, GapAt(env, |env.order| + 1));
    ReplayConcat(db, GapAt(env, 0), LastPoint(job, db, env).since);
  }

  // ---- A pass against the writers alone ----

  /** `db` differs from `shadow` at most in re-encrypted cells of the tables numbered from..to. */
  ghost predicate OnlyReencrypts(job: Job, shadow: Db, db: Db, from: nat, to: nat) {
    && db.Keys == shadow.Keys
    && forall k :: k in db ==> SameOrReencrypted(job, shadow[k], db[k], from <= TableIndex(k.table) < to)
  }

  ghost predicate SameOrReencrypted(job: Job, row: Row, row': Row, allowed: bool) {
    row' == row || (allowed && RowReencrypted(job, row, row'))
  }

  /** One table: a failed pass leaves what the writers alone would; a committed one only re-encrypts. */
  lemma TablePassSafe(job: Job, db: Db, env: Env, j: nat)
    requires j < |TABLES| && Selects(env.order, SelectPoint(db, env), TABLES[j])
    ensures var res := TablePass(job, db, env);
            && OnlyReencrypts(job, Replay(db, res.trace), res.db, j, j + 1)
            && (res.failed ==> res.db == Replay(db, res.trace))
  {
    LastPointInv(job, db, env);
    var st := LastPoint(job, db, env);
    PassInvRelates(job, SelectPoint(db, env), env, st, |env.order|, j);
  }

  lemma PassInvRelates(job: Job, snap: Db, env: Env, st: Pass, i: nat, j: nat)
    requires PassInv(job, snap, env, st, i) && j < |TABLES| && Selects(env.order, snap, TABLES[j])
    ensures OnlyReencrypts(job, Rollback(st), st.db, j, j + 1)
    ensures OnlyReencrypts(job, Rollback(st), Rollback(st), j, j + 1)
  {
    forall k | k in st.db
      ensures SameOrReencrypted(job, Rollback(st)[k], st.db[k], j <= TableIndex(k.table) < j + 1)
    {
      if k in st.undo {
        assert k in env.order;
      }
    }
  }

  lemma ApplyKeepsRelation(job: Job, a: Db, b: Db, from: nat, to: nat, w: WriterStep)
    requires OnlyReencrypts(job, a, b, from, to)
    ensures OnlyReencrypts(job, Apply(a, w), Apply(b, w), from, to)
  {
    var a', b' := Apply(a, w), Apply(b, w);
    assert a'.Keys == b'.Keys;
    forall k | k in b'
      ensures SameOrReencrypted(job, a'[k], b'[k], from <= TableIndex(k.table) < to)
    {
      if k != w.key || k in b {
        assert SameOrReencrypted(job, a[k], b[k], from <= TableIndex(k.table) < to);
      }
    }
  }

  lemma {:induction false} ReplayKeepsRelation(job: Job, a: Db, b: Db, from: nat, to: nat, ws: seq<WriterStep>)
    requires OnlyReencrypts(job, a, b, from, to)
    ensures OnlyReencrypts(job, Replay(a, ws), Replay(b, ws), from, to)
  {
    if ws != [] {
      var front := ws[..|ws| - 1];
      ReplayKeepsRelation(job, a, b, from, to, front);
      ApplyKeepsRelation(job, Replay(a, front), Replay(b, front), from, to, ws[|ws| - 1]);
    }
  }

  lemma RelationComposes(job: Job, a: Db, b: Db, c: Db, from: nat, mid: nat, to: nat)
    requires OnlyReencrypts(job, a, b, from, mid) && OnlyReencrypts(job, b, c, mid, to) && from <= mid <= to
    ensures OnlyReencrypts(job, a, c, from, to)
  {
    forall k | k in c
      ensures SameOrReencrypted(job, a[k], c[k], from <= TableIndex(k.table) < to)
    {
      assert SameOrReencrypted(job, a[k], b[k], from <= TableIndex(k.table) < mid);
      assert SameOrReencrypted(job, b[k], c[k], mid <= TableIndex(k.table) < to);
    }
  }

  /** `n` tables have been through the loop and either all of them committed or it has raised. */
  ghost predicate RunSafe(job: Job, db: Db, run: Run, n: nat) {
    && OnlyReencrypts(job, Replay(db, run.trace), run.db, 0, run.tables)
    && run.tables <= n
    && (!run.failed ==> run.tables == n)
  }

  lemma RunStepSafe(job: Job, db: Db, env: Env, p: Run, j: nat)
    requires j < |TABLES| && StepSelects(env, p, j) && RunSafe(job, db, p, j)
    ensures RunSafe(job, db, RunStep(job, env, p), j + 1)
  {
    if !p.failed {
      var res := TablePass(job, p.db, env);
      TablePassSafe(job, p.db, env, j);
      ReplayKeepsRelation(job, Replay(db, p.trace), p.db, 0, j, res.trace);
      ReplayConcat(db, p.trace, res.trace);
      if !res.failed {
        RelationComposes(job, Replay(db, p.trace + res.trace), Replay(p.db, res.trace), res.db, 0, j, j + 1);
      }
    }
  }

  /**
   The whole call, in every interleaving and whether it returns or raises: the database is the
   one the writers alone would have produced, except that cells of the committed tables may be
   re-encrypted.
   */
  lemma RunOnlyReencrypts(job: Job, db: Db, envs: nat -> Env, j: nat)
    requires Complete(job, db, envs) && j <= |TABLES|
    ensures RunSafe(job, db, RunAfter(job, db, envs, j), j)
  {
    var inv := (p, n: nat) => RunSafe(job, db, p, n);
    assert inv(Idle(db), 0);
    forall p, i: nat | i < |TABLES| && inv(p, i) && StepSelects(envs(i), p, i)
      ensures inv(RunStep(job, envs(i), p), i + 1)
    {
      RunStepSafe(job, db, envs(i), p, i);
    }
    RunInduction(job, db, envs, inv, j);
    assert inv(RunAfter(job, db, envs, j), j);
  }
}
