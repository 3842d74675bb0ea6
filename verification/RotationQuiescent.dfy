/**
 Rotation with no other writer: the loop is a pointwise map of the database, it raises exactly
 on a bad value, and repeated or chained rotations compose as their documentation says.
 */
module RotationQuiescent {
  import opened Results
  import opened Backends
  import opened TypeDecorator
  import opened RotationModel
  import opened RotationSafety
  import opened RotationAccounting
  import opened RotationMigration
  import opened RotationRefinement

  ghost predicate Quiet(env: Env) {
    forall i: nat :: GapAt(env, i) == []
  }

  // ---- One pass ----

  function Outcome(row: Row, action: Action): Row {
    if action.Replace? then row.(cell := Some(action.text)) else row
  }

  /** The first `i` rows are done, the rest are as fetched, and no guard has missed. */
  ghost predicate QuietInv(snap: Db, env: Env, plan: seq<Action>, st: Pass, i: nat) {
    && |plan| == |env.order|
    && st.since == [] && st.missed == {} && st.skipped == 0
    && st.db.Keys == snap.Keys
    && (forall j :: 0 <= j < |plan| ==> env.order[j] in snap)
    && (forall j :: 0 <= j < |plan| ==>
          (st.db[env.order[j]] == if j < i then Outcome(snap[env.order[j]], plan[j]) else snap[env.order[j]]))
    && (forall k :: k in snap && k !in env.order ==> st.db[k] == snap[k])
  }

  lemma QuietGap(env: Env, st: Pass, i: nat)
    requires Quiet(env)
    ensures Gap(st, GapAt(env, i)) == st
  {
    assert GapAt(env, i) == [];
  }

  lemma ActQuietly(snap: Db, env: Env, plan: seq<Action>, st: Pass, i: nat)
    requires i < |plan| && Distinct(env.order) && QuietInv(snap, env, plan, st, i)
    ensures QuietInv(snap, env, plan, Act(st, env.order[i], snap[env.order[i]], plan[i]), i + 1)
  {
    var k := env.order[i];
    assert st.db[env.order[i]] == snap[k];
    assert GuardHolds(st.db, k, snap[k]);
    if plan[i].Replace? {
      HitQuietly(snap, env, plan, st, i, plan[i].text);
    }
  }

  lemma HitQuietly(snap: Db, env: Env, plan: seq<Action>, st: Pass, i: nat, text: string)
    requires i < |plan| && Distinct(env.order) && QuietInv(snap, env, plan, st, i) && plan[i] == Replace(text)
    ensures var db := UpdateCell(st.db, env.order[i], text);
            && db.Keys == snap.Keys
            && (forall j :: 0 <= j < |plan| ==>
                  (db[env.order[j]] == if j < i + 1 then Outcome(snap[env.order[j]], plan[j]) else snap[env.order[j]]))
            && (forall k :: k in snap && k !in env.order ==> db[k] == snap[k])
  {
  }

  lemma StepQuietly(snap: Db, env: Env, plan: seq<Action>, st: Pass, i: nat)
    requires i < |plan| == |env.order| && Distinct(env.order) && Quiet(env)
    requires st.failed || QuietInv(snap, env, plan, st, i)
    ensures var st' := Step(snap, env, plan[i], st, i);
            st'.failed || QuietInv(snap, env, plan, st', i + 1)
  {
    if !st.failed {
      QuietGap(env, st, i + 1);
      ActQuietly(snap, env, plan, st, i);
    }
  }

  lemma QuietBegin(snap: Db, env: Env, plan: seq<Action>)
    requires |plan| == |env.order| && forall k :: k in env.order ==> k in snap
    ensures QuietInv(snap, env, plan, Begin(snap), 0)
  {
  }

  lemma AfterQuietly(snap: Db, env: Env, plan: seq<Action>, t: Table)
    requires |plan| == |env.order| && Selects(env.order, snap, t) && Quiet(env)
    requires !After(snap, env, plan, |plan|).failed
    ensures QuietInv(snap, env, plan, After(snap, env, plan, |plan|), |plan|)
  {
    var inv := (st: Pass, n: nat) => st.failed || QuietInv(snap, env, plan, st, n);
    QuietBegin(snap, env, plan);
    forall st, j: nat | j < |plan| && inv(st, j)
      ensures inv(Step(snap, env, plan[j], st, j), j + 1)
    {
      StepQuietly(snap, env, plan, st, j);
    }
    PassInduction(snap, env, plan, inv, |plan|);
    assert inv(After(snap, env, plan, |plan|), |plan|);
  }

  lemma StepIsAlone(snap: Db, env: Env, action: Action, st: Pass, i: nat)
    requires Quiet(env) && st.since == []
    ensures Step(snap, env, action, st, i).since == []
  {
    QuietGap(env, st, i + 1);
  }

  lemma AfterIsAlone(snap: Db, env: Env, plan: seq<Action>, i: nat)
    requires i <= |plan| == |env.order| && Quiet(env)
    ensures After(snap, env, plan, i).since == []
  {
    var inv := (st: Pass, n: nat) => st.since == [];
    forall st, j: nat | j < |plan| && inv(st, j)
      ensures inv(Step(snap, env, plan[j], st, j), j + 1)
    {
      StepIsAlone(snap, env, plan[j], st, j);
    }
    PassInduction(snap, env, plan, inv, i);
    assert inv(After(snap, env, plan, i), i);
  }

  /** Row `order[j]` has its j-th planned outcome, every other row and every other column is as before. */
  ghost predicate MappedByPlan(db: Db, env: Env, plan: seq<Action>, db': Db) {
    && |plan| == |env.order|
    && db'.Keys == db.Keys
    && (forall j :: 0 <= j < |plan| ==> env.order[j] in db)
    && (forall j :: 0 <= j < |plan| ==> db'[env.order[j]] == Outcome(db[env.order[j]], plan[j]))
    && (forall k :: k in db && k !in env.order ==> db'[k] == db[k])
  }

  /** The committed pass is a pointwise map under its draws and skips nothing; a failed one changes nothing. */
  lemma QuietPass(job: Job, db: Db, env: Env, t: Table)
    requires Selects(env.order, db, t) && Quiet(env)
    ensures SelectPoint(db, env) == db
    ensures var res := TablePass(job, db, env);
            && res.trace == []
            && (res.failed ==> res.db == db)
            && (!res.failed ==>
                 res.skipped == 0 && res.missed == {} && MappedByPlan(db, env, Plan(job, db, env), res.db))
    ensures !TablePass(job, db, env).failed ==>
              forall j, p :: 0 <= j < |env.order| ==> RowDrawn(job, db, env, TablePass(job, db, env).db, j, p)
  {
    var plan, n := Plan(job, db, env), |env.order|;
    assert SelectPoint(db, env) == db by { QuietGap(env, Begin(db), 0); }
    AfterIsAlone(db, env, plan, n);
    QuietGap(env, After(db, env, plan, n), n + 1);
    LastPointInv(job, db, env);
    if !After(db, env, plan, n).failed {
      AfterQuietly(db, env, plan, t);
      forall j, p | 0 <= j < |env.order|
        ensures RowDrawn(job, db, env, TablePass(job, db, env).db, j, p)
      {
        PassDraws(job, db, env, t, j, p);
      }
    }
  }

  /** If the old key opens row `j` to `p`, the row now holds `p` encrypted by the new backend with its own draw. */
  ghost predicate RowDrawn(job: Job, db: Db, env: Env, db': Db, j: nat, p: bytes)
    requires j < |env.order|
  {
    var k := env.order[j];
    k in db && k in db' && OpensTo(job.source, db[k].cell, p) ==>
      && job.target.enc(p, env.draws(j)).Ok?
      && db'[k] == db[k].(cell := Some(EncodeCell(job.target.id, job.target.enc(p, env.draws(j)).value)))
  }

  lemma PassDraws(job: Job, db: Db, env: Env, t: Table, j: nat, p: bytes)
    requires Selects(env.order, db, t) && j < |env.order| && !TablePass(job, db, env).failed
    requires SelectPoint(db, env) == db && MappedByPlan(db, env, Plan(job, db, env), TablePass(job, db, env).db)
    ensures RowDrawn(job, db, env, TablePass(job, db, env).db, j, p)
  {
    var plan := Plan(job, db, env);
    assert env.order[j] in env.order;
    NotAborted(db, env, plan, j);
    assert plan[j] == PlanRow(job, db[env.order[j]].cell, env.draws(j));
  }

  lemma NotAborted(db: Db, env: Env, plan: seq<Action>, j: nat)
    requires j < |plan| == |env.order| && !After(db, env, plan, |plan|).failed
    ensures !plan[j].Abort?
  {
    AfterFailsIff(db, env, plan, |plan|);
    if plan[j].Abort? {
      assert Aborts(plan, |plan|);
    }
  }

  // ---- The whole call ----

  /** Exactly the rows of the old id in tables numbered from..to are re-encrypted; all else is equal. */
  ghost predicate PointwiseRotated(job: Job, db: Db, db': Db, from: nat, to: nat) {
    && db'.Keys == db.Keys
    && forall k :: k in db ==> RowRotated(job, db[k], db'[k], from <= TableIndex(k.table) < to)
  }

  ghost predicate RowRotated(job: Job, row: Row, row': Row, inRange: bool) {
    if inRange && HasId(row.cell, job.source.id) then RowReencrypted(job, row, row') else row' == row
  }

  ghost predicate BadIn(job: Job, db: Db, j: nat) {
    exists k :: k in db && TableIndex(k.table) == j && Bad(job, db[k].cell)
  }

  function RowsBefore(db: Db, id: byte, n: nat): set<Key> {
    set k | k in db && HasId(db[k].cell, id) && TableIndex(k.table) < n
  }

  lemma PlanRotates(job: Job, db: Db, env: Env, plan: seq<Action>, db': Db, j: nat)
    requires j < |TABLES| && Selects(env.order, db, TABLES[j]) && MappedByPlan(db, env, plan, db')
    requires Classifies(job, db, env, plan) && Faithful(job, db, env, plan) && !BadIn(job, db, j)
    ensures PointwiseRotated(job, db, db', j, j + 1)
  {
    forall k | k in db
      ensures RowRotated(job, db[k], db'[k], j <= TableIndex(k.table) < j + 1)
    {
      if k.table == TABLES[j] {
        assert k in env.order;
        var i :| 0 <= i < |env.order| && env.order[i] == k;
        assert ClassifiesRow(job, Fetched(db, env.order[i]).cell, plan[i]);
      }
    }
  }

  lemma RewrittenRows(job: Job, db: Db, res: TableResult, j: nat)
    requires j < |TABLES| && FullyAccounted(job, db, TABLES[j], res) && res.missed == {}
    ensures res.rewritten == RowsBefore(db, job.source.id, j + 1) - RowsBefore(db, job.source.id, j)
  {
    forall k
      ensures k in res.rewritten <==> k in db && HasId(db[k].cell, job.source.id) && TableIndex(k.table) == j
    {
      RewrittenRow(job, db, res, j, k);
    }
    RowsOfTable(db, job.source.id, j, res.rewritten);
  }

  lemma RowsOfTable(db: Db, id: byte, j: nat, rows: set<Key>)
    requires forall k :: k in rows <==> k in db && HasId(db[k].cell, id) && TableIndex(k.table) == j
    ensures rows == RowsBefore(db, id, j + 1) - RowsBefore(db, id, j)
  {
  }

  lemma RewrittenRow(job: Job, db: Db, res: TableResult, j: nat, k: Key)
    requires j < |TABLES| && FullyAccounted(job, db, TABLES[j], res) && res.missed == {}
    ensures k in res.rewritten <==> k in db && HasId(db[k].cell, job.source.id) && TableIndex(k.table) == j
  {
    assert k in RowsOf(db, TABLES[j]) <==> k in db && k.table == TABLES[j];
    assert k in res.rewritten ==> k in RowsOf(db, TABLES[j]);
  }

  ghost predicate QuietTable(job: Job, db: Db, res: TableResult, j: nat) {
    && res.trace == []
    && (res.failed <==> BadIn(job, db, j))
    && (res.failed ==> res.db == db)
    && (!res.failed ==>
         && PointwiseRotated(job, db, res.db, j, j + 1)
         && res.skipped == 0
         && res.rotated == |RowsBefore(db, job.source.id, j + 1) - RowsBefore(db, job.source.id, j)|)
  }

  lemma QuietPassRotates(job: Job, db: Db, env: Env, j: nat)
    requires Sound(job.target) && j < |TABLES| && Selects(env.order, db, TABLES[j]) && Quiet(env)
    ensures QuietTable(job, db, TablePass(job, db, env), j)
  {
    var t, res := TABLES[j], TablePass(job, db, env);
    QuietPass(job, db, env, t);
    PassFailsIff(job, db, env, t);
    BadInTable(job, db, t);
    if !res.failed {
      PassAccounting(job, db, env, t);
      PlanIsFaithful(job, db, env);
      PlanClassifies(job, db, env);
      PlanRotates(job, db, env, Plan(job, db, env), res.db, j);
      RewrittenRows(job, db, res, j);
    }
  }

  lemma BadInTable(job: Job, db: Db, t: Table)
    ensures BadIn(job, db, TableIndex(t)) <==> exists k :: k in db && k.table == t && Bad(job, db[k].cell)
  {
    if k :| k in db && k.table == t && Bad(job, db[k].cell) {
      assert TableIndex(k.table) == TableIndex(t);
    }
    if k :| k in db && TableIndex(k.table) == TableIndex(t) && Bad(job, db[k].cell) {
      assert k.table == t;
    }
  }

  lemma RotatedComposes(job: Job, a: Db, b: Db, c: Db, mid: nat, to: nat)
    requires PointwiseRotated(job, a, b, 0, mid) && PointwiseRotated(job, b, c, mid, to) && mid <= to
    ensures PointwiseRotated(job, a, c, 0, to)
  {
    forall k | k in a
      ensures RowRotated(job, a[k], c[k], 0 <= TableIndex(k.table) < to)
    {
      assert RowRotated(job, a[k], b[k], 0 <= TableIndex(k.table) < mid);
      assert RowRotated(job, b[k], c[k], mid <= TableIndex(k.table) < to);
    }
  }

  ghost predicate QuietRun(job: Job, db: Db, run: Run, n: nat) {
    && run.trace == []
    && run.tables <= n
    && PointwiseRotated(job, db, run.db, 0, run.tables)
    && (forall j :: 0 <= j < run.tables ==> !BadIn(job, db, j))
    && (run.failed ==> run.tables < n && BadIn(job, db, run.tables))
    && (!run.failed ==> run.tables == n && run.skipped == 0 && run.rotated == |RowsBefore(db, job.source.id, n)|)
  }

  /** Tables not yet reached are as they were. */
  lemma LaterTablesSame(job: Job, db: Db, db': Db, n: nat)
    requires PointwiseRotated(job, db, db', 0, n)
    ensures BadIn(job, db', n) <==> BadIn(job, db, n)
    ensures forall k :: k in db && TableIndex(k.table) >= n ==> db'[k] == db[k]
    ensures RowsBefore(db', job.source.id, n + 1) - RowsBefore(db', job.source.id, n)
         == RowsBefore(db, job.source.id, n + 1) - RowsBefore(db, job.source.id, n)
  {
    forall k | k in db && TableIndex(k.table) >= n
      ensures db'[k] == db[k]
    {
      assert RowRotated(job, db[k], db'[k], 0 <= TableIndex(k.table) < n);
    }
  }

  lemma RowsAdd(db: Db, id: byte, n: nat)
    ensures |RowsBefore(db, id, n + 1)| == |RowsBefore(db, id, n)| + |RowsBefore(db, id, n + 1) - RowsBefore(db, id, n)|
  {
    var a, b := RowsBefore(db, id, n), RowsBefore(db, id, n + 1);
    assert b == a + (b - a);
  }

  lemma AbsorbQuietly(job: Job, db: Db, p: Run, res: TableResult, j: nat)
    requires QuietRun(job, db, p, j) && !p.failed && QuietTable(job, p.db, res, j)
    ensures QuietRun(job, db, Absorb(p, res), j + 1)
  {
    LaterTablesSame(job, db, p.db, j);
    if !res.failed {
      AbsorbCommitted(job, db, p, res, j);
    }
  }

  lemma AbsorbCommitted(job: Job, db: Db, p: Run, res: TableResult, j: nat)
    requires QuietRun(job, db, p, j) && !p.failed && QuietTable(job, p.db, res, j) && !res.failed
    ensures PointwiseRotated(job, db, res.db, 0, j + 1)
    ensures p.rotated + res.rotated == |RowsBefore(db, job.source.id, j + 1)|
    ensures !BadIn(job, db, j)
  {
    LaterTablesSame(job, db, p.db, j);
    RowsAdd(db, job.source.id, j);
    RotatedComposes(job, db, p.db, res.db, j, j + 1);
  }

  lemma RunStepQuietly(job: Job, db: Db, env: Env, p: Run, j: nat)
    requires Sound(job.target) && Quiet(env) && j < |TABLES| && StepSelects(env, p, j)
    requires QuietRun(job, db, p, j)
    ensures QuietRun(job, db, RunStep(job, env, p), j + 1)
  {
    if !p.failed {
      assert SelectPoint(p.db, env) == p.db by { QuietGap(env, Begin(p.db), 0); }
      QuietPassRotates(job, p.db, env, j);
      AbsorbQuietly(job, db, p, TablePass(job, p.db, env), j);
    }
  }

  ghost predicate QuietCall(job: Job, db: Db, envs: nat -> Env) {
    Sound(job.target) && Complete(job, db, envs) && forall i: nat :: Quiet(envs(i))
  }

  ghost predicate RotatedAll(job: Job, db: Db, run: Run) {
    && PointwiseRotated(job, db, run.db, 0, |TABLES|)
    && run.skipped == 0
    && run.rotated == |RowsWithId(db, job.source.id)|
  }

  ghost predicate AnyBad(job: Job, db: Db) {
    exists k :: k in db && Bad(job, db[k].cell)
  }

  lemma AllTables(db: Db, id: byte)
    ensures RowsBefore(db, id, |TABLES|) == RowsWithId(db, id)
  {
  }

  lemma QuietRunMeaning(job: Job, db: Db, run: Run)
    requires QuietRun(job, db, run, |TABLES|)
    ensures run.failed <==> AnyBad(job, db)
    ensures !run.failed ==> RotatedAll(job, db, run)
  {
    AllTables(db, job.source.id);
    if k :| k in db && Bad(job, db[k].cell) && !run.failed {
      assert BadIn(job, db, TableIndex(k.table));
    }
  }

  /**
   The call raises iff some stored value is bad, and then in the first table that holds one, with
   the earlier tables rotated. Otherwise it re-encrypts every row of the old id, over all four
   tables, touches nothing else, skips nothing, and counts exactly those rows.
   */
  lemma QuietRotation(job: Job, db: Db, envs: nat -> Env)
    requires QuietCall(job, db, envs)
    ensures QuietRun(job, db, Rotation(job, db, envs), |TABLES|)
    ensures Rotation(job, db, envs).failed <==> AnyBad(job, db)
    ensures !Rotation(job, db, envs).failed ==> RotatedAll(job, db, Rotation(job, db, envs))
  {
    var inv := (p, n: nat) => QuietRun(job, db, p, n);
    assert inv(Idle(db), 0) by { assert RowsBefore(db, job.source.id, 0) == {}; }
    forall p, i: nat | i < |TABLES| && inv(p, i) && StepSelects(envs(i), p, i)
      ensures inv(RunStep(job, envs(i), p), i + 1)
    {
      assert Quiet(envs(i));
      RunStepQuietly(job, db, envs(i), p, i);
    }
    RunInduction(job, db, envs, inv, |TABLES|);
    assert inv(RunAfter(job, db, envs, |TABLES|), |TABLES|);
    QuietRunMeaning(job, db, Rotation(job, db, envs));
  }

  // ---- Running again ----

  lemma NothingToRotate(job: Job, db: Db, db': Db, n: nat)
    requires PointwiseRotated(job, db, db', 0, n) && RowsBefore(db, job.source.id, n) == {}
    ensures db' == db
  {
    forall k | k in db
      ensures db'[k] == db[k]
    {
      assert RowRotated(job, db[k], db'[k], 0 <= TableIndex(k.table) < n);
      assert k !in RowsBefore(db, job.source.id, n);
    }
  }

  /** A re-encrypted cell is of another id, and bad exactly if that id is not registered. */
  lemma CrossRotatedRow(job: Job, row: Row, row': Row)
    requires CrossBackend(job) && RowRotated(job, row, row', true) && !Bad(job, row.cell)
    ensures !HasId(row'.cell, job.source.id)
    ensures Bad(job, row'.cell) <==> !Registered(job.target) && HasId(row.cell, job.source.id)
  {
    if HasId(row.cell, job.source.id) {
      ReencryptedMeaning(job, row.cell, row'.cell);
    }
  }

  /** After a cross-backend rotation no row is of the old id, and bad ones are those left unreadable. */
  lemma CrossRotatedRows(job: Job, db: Db, mid: Db)
    requires CrossBackend(job) && PointwiseRotated(job, db, mid, 0, |TABLES|) && !AnyBad(job, db)
    ensures RowsWithId(mid, job.source.id) == {}
    ensures AnyBad(job, mid) <==> !Registered(job.target) && RowsWithId(db, job.source.id) != {}
  {
    forall k | k in mid
      ensures !HasId(mid[k].cell, job.source.id)
      ensures Bad(job, mid[k].cell) <==> !Registered(job.target) && k in RowsWithId(db, job.source.id)
    {
      assert RowRotated(job, db[k], mid[k], 0 <= TableIndex(k.table) < |TABLES|);
      CrossRotatedRow(job, db[k], mid[k]);
    }
    if !Registered(job.target) && RowsWithId(db, job.source.id) != {} {
      var k :| k in RowsWithId(db, job.source.id);
      assert k in mid && Bad(job, mid[k].cell);
    }
  }

  /**
   Cross-backend: a second call never changes anything. It returns (0, 0), unless the first one
   wrote rows under an id that is not registered: then it raises on them.
   */
  lemma CrossBackendRerunIsIdle(job: Job, db: Db, envs: nat -> Env, again: nat -> Env)
    requires CrossBackend(job) && QuietCall(job, db, envs) && !Rotation(job, db, envs).failed
    requires QuietCall(job, Rotation(job, db, envs).db, again)
    ensures var first := Rotation(job, db, envs);
            var second := Rotation(job, first.db, again);
            && second.db == first.db
            && (second.failed <==> !Registered(job.target) && first.rotated > 0)
            && (!second.failed ==> second.rotated == 0 && second.skipped == 0)
  {
    var first := Rotation(job, db, envs);
    var second := Rotation(job, first.db, again);
    QuietRotation(job, db, envs);
    QuietRotation(job, first.db, again);
    CrossRotatedRows(job, db, first.db);
    assert RowsBefore(first.db, job.source.id, second.tables) <= RowsWithId(first.db, job.source.id);
    NothingToRotate(job, first.db, second.db, second.tables);
  }

  ghost predicate SameBackend(job: Job) {
    && Sound(job.target)
    && job.source.id == job.target.id && Rejects(job.source, job.target)
  }

  /** After a same-backend rotation every row of the id is refused by the old key. */
  lemma RotatedRowsAreBad(job: Job, row: Row, row': Row)
    requires SameBackend(job) && RowRotated(job, row, row', true) && !Bad(job, row.cell)
    ensures Bad(job, row'.cell) <==> HasId(row.cell, job.source.id)
    ensures HasId(row'.cell, job.source.id) <==> HasId(row.cell, job.source.id)
  {
    if HasId(row.cell, job.source.id) {
      ReencryptedMeaning(job, row.cell, row'.cell);
      var p, r :|
        MovesTo(job, row.cell, row'.cell, p, r) && (OpensTo(job.target, row'.cell, p) <==> Registered(job.target));
      assert Refuses(job.source, job.target, p, r) && Opens(job.target, p, r);
      ParseEncodeCell(job.target.id, job.target.enc(p, r).value);
    }
  }

  /** In `mid`, the rotated `db`, the bad rows are exactly those of the id. */
  ghost predicate BadAreTheIds(job: Job, db: Db, mid: Db) {
    && mid.Keys == db.Keys
    && forall k :: k in mid ==>
         && (Bad(job, mid[k].cell) <==> HasId(mid[k].cell, job.source.id))
         && (HasId(mid[k].cell, job.source.id) <==> HasId(db[k].cell, job.source.id))
  }

  lemma SameRotatedIsBad(job: Job, db: Db, mid: Db)
    requires SameBackend(job) && PointwiseRotated(job, db, mid, 0, |TABLES|) && !AnyBad(job, db)
    ensures BadAreTheIds(job, db, mid)
  {
    forall k | k in mid
      ensures Bad(job, mid[k].cell) <==> HasId(mid[k].cell, job.source.id)
      ensures HasId(mid[k].cell, job.source.id) <==> HasId(db[k].cell, job.source.id)
    {
      assert RowRotated(job, db[k], mid[k], 0 <= TableIndex(k.table) < |TABLES|);
      RotatedRowsAreBad(job, db[k], mid[k]);
    }
  }

  lemma BadIffAnyOfId(job: Job, db: Db, mid: Db)
    requires BadAreTheIds(job, db, mid)
    ensures RowsWithId(mid, job.source.id) == RowsWithId(db, job.source.id)
    ensures AnyBad(job, mid) <==> RowsWithId(db, job.source.id) != {}
  {
    if k :| k in mid && Bad(job, mid[k].cell) {
      assert k in RowsWithId(db, job.source.id);
    }
    if k :| k in RowsWithId(db, job.source.id) {
      assert k in mid && Bad(job, mid[k].cell);
    }
  }

  lemma RerunChangesNothing(job: Job, db: Db, mid: Db, second: Run)
    requires BadAreTheIds(job, db, mid) && QuietRun(job, mid, second, |TABLES|)
    ensures second.db == mid
  {
    forall k | k in mid && HasId(mid[k].cell, job.source.id)
      ensures TableIndex(k.table) >= second.tables
    {
      assert Bad(job, mid[k].cell);
      assert BadIn(job, mid, TableIndex(k.table));
    }
    assert RowsBefore(mid, job.source.id, second.tables) == {};
    NothingToRotate(job, mid, second.db, second.tables);
  }

  /**
   Same backend: running a completed rotation again with the original old key never changes the
   database, and raises exactly when some non-NULL row carries that id.
   */
  lemma SameBackendRerunRaises(job: Job, db: Db, envs: nat -> Env, again: nat -> Env)
    requires SameBackend(job) && QuietCall(job, db, envs) && !Rotation(job, db, envs).failed
    requires QuietCall(job, Rotation(job, db, envs).db, again)
    ensures var second := Rotation(job, Rotation(job, db, envs).db, again);
            && second.db == Rotation(job, db, envs).db
            && (second.failed <==> RowsWithId(db, job.source.id) != {})
            && (!second.failed ==> second.rotated == 0 && second.skipped == 0)
  {
    var first := Rotation(job, db, envs);
    QuietRotation(job, db, envs);
    QuietRotation(job, first.db, again);
    SameRotatedIsBad(job, db, first.db);
    BadIffAnyOfId(job, db, first.db);
    RerunChangesNothing(job, db, first.db, Rotation(job, first.db, again));
  }

  /**
   A to B, then B to C: what A opened C opens, to the same plaintext, exactly if the last id is
   registered. With C = A this is rotating back.
   */
  lemma RotationsChain(first: Job, second: Job, db: Db, envs: nat -> Env, envs': nat -> Env, k: Key, p: bytes)
    requires first.target == second.source
    requires QuietCall(first, db, envs) && !Rotation(first, db, envs).failed
    requires QuietCall(second, Rotation(first, db, envs).db, envs')
    requires !Rotation(second, Rotation(first, db, envs).db, envs').failed
    requires k in db && OpensTo(first.source, db[k].cell, p)
    ensures var end := Rotation(second, Rotation(first, db, envs).db, envs').db;
            k in end && (OpensTo(second.target, end[k].cell, p) <==> Registered(second.target))
  {
    var mid := Rotation(first, db, envs).db;
    QuietRotation(first, db, envs);
    QuietRotation(second, mid, envs');
    assert RowRotated(first, db[k], mid[k], 0 <= TableIndex(k.table) < |TABLES|);
    ReencryptedMeaning(first, db[k].cell, mid[k].cell);
    assert !Bad(second, mid[k].cell);
    var end := Rotation(second, mid, envs').db;
    assert RowRotated(second, mid[k], end[k], 0 <= TableIndex(k.table) < |TABLES|);
    ReencryptedMeaning(second, mid[k].cell, end[k].cell);
  }

  // ---- What readers of plaintext see ----

  lemma RotatedDiffers(job: Job, db: Db, db': Db, n: nat)
    requires IdealJob(job) && PointwiseRotated(job, db, db', 0, n)
    ensures OpenDb(job, db') == OpenDb(job, db) <==> Registered(job.target) || RowsBefore(db, job.source.id, n) == {}
  {
    forall k | k in db
      ensures OpenRow(job, db'[k]) == OpenRow(job, db[k]) <==>
              Registered(job.target) || k !in RowsBefore(db, job.source.id, n)
    {
      assert RowRotated(job, db[k], db'[k], 0 <= TableIndex(k.table) < n);
      if k in RowsBefore(db, job.source.id, n) {
        ReencryptionStutters(job, db[k].cell, db'[k].cell);
      }
    }
    OpenDbPointwise(job, db', db);
  }

  lemma RefinesAsCounted(job: Job, db: Db, run: Run)
    requires IdealJob(job) && RotatedAll(job, db, run)
    ensures OpenDb(job, run.db) == OpenDb(job, db) <==> Registered(job.target) || RowsWithId(db, job.source.id) == {}
    ensures run.rotated == 0 <==> RowsWithId(db, job.source.id) == {}
  {
    RotatedDiffers(job, db, run.db, |TABLES|);
    AllTables(db, job.source.id);
  }

  /**
   Without other writers a call that returns keeps every plaintext exactly if the new id is
   registered or no row carries the old one; the latter is what `rotated == 0` reports.
   */
  lemma QuietRefinesIff(job: Job, db: Db, envs: nat -> Env)
    requires IdealJob(job) && QuietCall(job, db, envs) && !Rotation(job, db, envs).failed
    ensures OpenDb(job, Rotation(job, db, envs).db) == OpenDb(job, db) <==>
              Registered(job.target) || RowsWithId(db, job.source.id) == {}
    ensures Rotation(job, db, envs).rotated == 0 <==> RowsWithId(db, job.source.id) == {}
  {
    QuietRotation(job, db, envs);
    var run := Rotation(job, db, envs);
    assert RotatedAll(job, db, run);
    RefinesAsCounted(job, db, run);
  }

  /** The failing input: one row, an unregistered new id. The call succeeds and the text no longer parses. */
  lemma UnregisteredTargetStrands(job: Job, k: Key, row: Row, p: bytes, envs: nat -> Env)
    requires QuietCall(job, map[k := row], envs) && !Registered(job.target) && OpensTo(job.source, row.cell, p)
    ensures var run := Rotation(job, map[k := row], envs);
            && !run.failed && run.rotated == 1 && run.skipped == 0
            && k in run.db && run.db[k].cell.Some? && ParseCell(run.db[k].cell.value).Raise?
  {
    var run := Rotation(job, map[k := row], envs);
    QuietRotation(job, map[k := row], envs);
    assert !AnyBad(job, map[k := row]);
    assert RotatedAll(job, map[k := row], run);
    StrandedRow(job, k, row, run);
  }

  lemma StrandedRow(job: Job, k: Key, row: Row, run: Run)
    requires Sound(job.target) && !Registered(job.target) && HasId(row.cell, job.source.id)
    requires RotatedAll(job, map[k := row], run)
    ensures run.rotated == 1 && run.skipped == 0
    ensures k in run.db && run.db[k].cell.Some? && ParseCell(run.db[k].cell.value).Raise?
  {
    assert RowsWithId(map[k := row], job.source.id) == {k};
    assert RowRotated(job, row, run.db[k], 0 <= TableIndex(k.table) < |TABLES|);
    ReencryptedMeaning(job, row.cell, run.db[k].cell);
  }
}
