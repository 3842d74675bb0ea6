/**
 Cross-backend rotation under live traffic: if the other writers encrypt only with the new
 backend, what a call leaves behind is at most what it reports as skipped, and repeating it
 until nothing is skipped comes to an end.
 */
module RotationMigration {
  import opened Results
  import opened Backends
  import opened RotationModel
  import opened RotationSafety
  import opened RotationAccounting

  /** Rows whose envelope carries id `id`. */
  function RowsWithId(db: Db, id: byte): set<Key> {
    set k | k in db && HasId(db[k].cell, id)
  }

  /** The step stores no cell of id `id`: it deletes, touches, or writes with another backend. */
  predicate StoresNo(w: WriterStep, id: byte) {
    match w
    case Insert(_, row) => !HasId(row.cell, id)
    case Rewrite(_, c, _) => !HasId(c, id)
    case Delete(_) => true
    case Touch(_, _) => true
  }

  ghost predicate AllStoreNo(ws: seq<WriterStep>, id: byte) {
    forall w :: w in ws ==> StoresNo(w, id)
  }

  /** The row's cell is the one `db` has, or it is not of id `id`. */
  ghost predicate KeptOrNew(db: Db, db': Db, k: Key, id: byte) {
    k in db' && HasId(db'[k].cell, id) ==> k in db && db[k].cell == db'[k].cell
  }

  lemma {:induction false} WritersAddNone(db: Db, ws: seq<WriterStep>, id: byte, k: Key)
    requires AllStoreNo(ws, id)
    ensures KeptOrNew(db, Replay(db, ws), k, id)
  {
    if ws != [] {
      assert ws[|ws| - 1] in ws;
      WritersAddNone(db, ws[..|ws| - 1], id, k);
    }
  }

  lemma UnblockedStoreNo(ws: seq<WriterStep>, locks: set<Key>, id: byte)
    requires AllStoreNo(ws, id)
    ensures AllStoreNo(Unblocked(ws, locks), id)
  {
    UnblockedSteps(ws, locks);
  }

  /** Which live traffic the results are about: every gap of every pass, past the last named one too. */
  ghost predicate NewTraffic(env: Env, id: byte) {
    forall i: nat :: AllStoreNo(GapAt(env, i), id)
  }

  // ---- Inside one pass ----

  /**
   No cell of the old id appears that the SELECT did not see; and of the first `i` rows only
   missed ones still carry it, and no event row.
   */
  ghost predicate Migrating(snap: Db, env: Env, st: Pass, id: byte, i: nat) {
    && (forall k :: KeptOrNew(snap, st.db, k, id))
    && (forall j :: 0 <= j < i && j < |env.order| && StillOld(st.db, env.order[j], id) ==>
         env.order[j] in st.missed && env.order[j].table != Events)
    && (forall k :: k in st.undo ==> !StillOld(st.db, k, id) && k in snap && HasId(snap[k].cell, id))
  }

  predicate StillOld(db: Db, k: Key, id: byte) {
    k in db && HasId(db[k].cell, id)
  }

  lemma GapKeepsMigrating(snap: Db, env: Env, st: Pass, id: byte, i: nat, ws: seq<WriterStep>)
    requires Migrating(snap, env, st, id, i) && AllStoreNo(ws, id)
    ensures Migrating(snap, env, Gap(st, ws), id, i)
  {
    UnblockedStoreNo(ws, st.undo.Keys, id);
    var db' := Gap(st, ws).db;
    forall k
      ensures KeptOrNew(snap, db', k, id) && (StillOld(db', k, id) ==> StillOld(st.db, k, id))
    {
      WritersAddNone(st.db, Unblocked(ws, st.undo.Keys), id, k);
      assert KeptOrNew(snap, st.db, k, id);
    }
  }

  /** What a decision must be for the row it is about. */
  ghost predicate Moves(c: Option<string>, action: Action, id: byte) {
    && (HasId(c, id) ==> action.Replace? || action.Abort?)
    && (action.Replace? ==> HasId(c, id) && !HasId(Some(action.text), id))
  }

  lemma ActKeepsMigrating(snap: Db, env: Env, st: Pass, id: byte, i: nat, action: Action)
    requires i < |env.order| && Distinct(env.order) && env.order[i] in snap
    requires Moves(snap[env.order[i]].cell, action, id)
    requires Migrating(snap, env, st, id, i)
    ensures var st' := Act(st, env.order[i], snap[env.order[i]], action);
            st'.failed || Migrating(snap, env, st', id, i + 1)
  {
    match action
    case Replace(text) =>
      if GuardHolds(st.db, env.order[i], snap[env.order[i]]) {
        HitKeepsMigrating(snap, env, st, id, i, text);
      } else {
        MissKeepsMigrating(snap, env, st, id, i, text);
      }
    case Abort =>
    case KeepNull => IdleKeepsMigrating(snap, env, st, id, i);
    case KeepOther => IdleKeepsMigrating(snap, env, st, id, i);
  }

  lemma IdleKeepsMigrating(snap: Db, env: Env, st: Pass, id: byte, i: nat)
    requires i < |env.order| && env.order[i] in snap && !HasId(snap[env.order[i]].cell, id)
    requires Migrating(snap, env, st, id, i)
    ensures Migrating(snap, env, st, id, i + 1)
  {
    assert KeptOrNew(snap, st.db, env.order[i], id);
  }

  /** A missed event row lost its cell to another writer; elsewhere a touched update_time is enough. */
  lemma MissedOldRowIsTimed(snap: Db, db: Db, k: Key, id: byte)
    requires k in snap && !GuardHolds(db, k, snap[k]) && KeptOrNew(snap, db, k, id)
    ensures StillOld(db, k, id) ==> k.table != Events
  {
  }

  lemma MissKeepsMigrating(snap: Db, env: Env, st: Pass, id: byte, i: nat, text: string)
    requires i < |env.order| && env.order[i] in snap
    requires !GuardHolds(st.db, env.order[i], snap[env.order[i]])
    requires Migrating(snap, env, st, id, i)
    ensures Migrating(snap, env, Act(st, env.order[i], snap[env.order[i]], Replace(text)), id, i + 1)
  {
    MissedOldRowIsTimed(snap, st.db, env.order[i], id);
    MissMoves(snap, env, st, Act(st, env.order[i], snap[env.order[i]], Replace(text)), id, i);
  }

  lemma MissMoves(snap: Db, env: Env, st: Pass, st': Pass, id: byte, i: nat)
    requires i < |env.order| && Migrating(snap, env, st, id, i)
    requires StillOld(st.db, env.order[i], id) ==> env.order[i].table != Events
    requires st'.db == st.db && st'.undo == st.undo && st'.missed == st.missed + {env.order[i]}
    ensures Migrating(snap, env, st', id, i + 1)
  {
  }

  lemma UpdateMovesOneRow(snap: Db, db: Db, k: Key, text: string, id: byte, k': Key)
    requires k in db && !HasId(Some(text), id) && KeptOrNew(snap, db, k', id)
    ensures KeptOrNew(snap, UpdateCell(db, k, text), k', id)
    ensures StillOld(UpdateCell(db, k, text), k', id) <==> StillOld(db, k', id) && k' != k
  {
  }

  lemma HitKeepsMigrating(snap: Db, env: Env, st: Pass, id: byte, i: nat, text: string)
    requires i < |env.order| && Distinct(env.order) && env.order[i] in snap
    requires GuardHolds(st.db, env.order[i], snap[env.order[i]])
    requires HasId(snap[env.order[i]].cell, id) && !HasId(Some(text), id)
    requires Migrating(snap, env, st, id, i)
    ensures Migrating(snap, env, Act(st, env.order[i], snap[env.order[i]], Replace(text)), id, i + 1)
  {
    HitMoves(snap, env, st, Act(st, env.order[i], snap[env.order[i]], Replace(text)), id, i, text);
  }

  lemma HitMoves(snap: Db, env: Env, st: Pass, st': Pass, id: byte, i: nat, text: string)
    requires i < |env.order| && Distinct(env.order) && env.order[i] in snap && env.order[i] in st.db
    requires HasId(snap[env.order[i]].cell, id) && !HasId(Some(text), id) && Migrating(snap, env, st, id, i)
    requires st'.db == UpdateCell(st.db, env.order[i], text) && st'.missed == st.missed
    requires st'.undo.Keys == st.undo.Keys + {env.order[i]}
    ensures Migrating(snap, env, st', id, i + 1)
  {
    forall k
      ensures KeptOrNew(snap, st'.db, k, id)
      ensures StillOld(st'.db, k, id) <==> StillOld(st.db, k, id) && k != env.order[i]
    {
      assert KeptOrNew(snap, st.db, k, id);
      UpdateMovesOneRow(snap, st.db, env.order[i], text, id, k);
    }
  }

  /** A pass that knows its decisions move every row of the old id. */
  ghost predicate AllMove(snap: Db, env: Env, plan: seq<Action>, id: byte) {
    && |plan| == |env.order|
    && forall j :: 0 <= j < |plan| ==> env.order[j] in snap && Moves(snap[env.order[j]].cell, plan[j], id)
  }

  lemma StepKeepsMigrating(snap: Db, env: Env, plan: seq<Action>, st: Pass, id: byte, i: nat)
    requires i < |plan| && AllMove(snap, env, plan, id) && Distinct(env.order) && NewTraffic(env, id)
    requires !st.failed && Migrating(snap, env, st, id, i)
    ensures var st' := Step(snap, env, plan[i], st, i);
            st'.failed || Migrating(snap, env, st', id, i + 1)
  {
    GapKeepsMigrating(snap, env, st, id, i, GapAt(env, i + 1));
    ActKeepsMigrating(snap, env, Gap(st, GapAt(env, i + 1)), id, i, plan[i]);
  }

  lemma AfterMigrates(snap: Db, env: Env, plan: seq<Action>, id: byte, i: nat)
    requires i <= |plan| && AllMove(snap, env, plan, id) && Distinct(env.order) && NewTraffic(env, id)
    requires !After(snap, env, plan, i).failed
    ensures Migrating(snap, env, After(snap, env, plan, i), id, i)
  {
    var inv := (st: Pass, n: nat) => st.failed || Migrating(snap, env, st, id, n);
    assert inv(Begin(snap), 0);
    forall st, j: nat | j < |plan| && inv(st, j)
      ensures inv(Step(snap, env, plan[j], st, j), j + 1)
    {
      if !st.failed {
        StepKeepsMigrating(snap, env, plan, st, id, j);
      }
    }
    PassInduction(snap, env, plan, inv, i);
    assert inv(After(snap, env, plan, i), i);
  }

  // ---- What a pass and a call leave behind ----

  ghost predicate CrossBackend(job: Job) {
    Sound(job.target) && job.source.id != job.target.id
  }

  lemma PlanMoves(job: Job, snap: Db, env: Env)
    requires CrossBackend(job) && forall k :: k in env.order ==> k in snap
    ensures AllMove(snap, env, Plan(job, snap, env), job.source.id)
  {
    PlanClassifies(job, snap, env);
    PlanIsFaithful(job, snap, env);
    var plan := Plan(job, snap, env);
    forall j | 0 <= j < |plan|
      ensures env.order[j] in snap && Moves(snap[env.order[j]].cell, plan[j], job.source.id)
    {
      assert env.order[j] in env.order;
      var c := Fetched(snap, env.order[j]).cell;
      assert ClassifiesRow(job, c, plan[j]);
      if plan[j].Replace? {
        ReencryptedMeaning(job, c, Some(plan[j].text));
      }
    }
  }

  /** Where rows of the old id can still be after a pass over `t`. */
  ghost predicate LeftBehind(before: Db, res: TableResult, id: byte, t: Table) {
    && RowsWithId(res.db, id) <= RowsWithId(before, id) - res.rewritten
    && res.rewritten <= RowsWithId(before, id)
    && forall k :: k in RowsWithId(res.db, id) && k.table == t ==> k in res.missed && t != Events
  }

  lemma PassLeavesBehind(job: Job, db: Db, env: Env, t: Table)
    requires CrossBackend(job) && NewTraffic(env, job.source.id)
    requires Selects(env.order, SelectPoint(db, env), t) && !TablePass(job, db, env).failed
    ensures LeftBehind(db, TablePass(job, db, env), job.source.id, t)
  {
    var id, snap := job.source.id, SelectPoint(db, env);
    var plan, n := Plan(job, snap, env), |env.order|;
    PlanMoves(job, snap, env);
    AfterMigrates(snap, env, plan, id, n);
    GapKeepsMigrating(snap, env, After(snap, env, plan, n), id, n, GapAt(env, n + 1));
    var st := LastPoint(job, db, env);
    forall k
      ensures KeptOrNew(db, snap, k, id)
    {
      WritersAddNone(db, GapAt(env, 0), id, k);
    }
    MigratingLeavesBehind(db, snap, env, st, id, t);
  }

  lemma MigratingLeavesBehind(db: Db, snap: Db, env: Env, st: Pass, id: byte, t: Table)
    requires forall k :: KeptOrNew(db, snap, k, id)
    requires Migrating(snap, env, st, id, |env.order|) && Selects(env.order, snap, t)
    ensures RowsWithId(st.db, id) <= RowsWithId(db, id) - st.undo.Keys
    ensures st.undo.Keys <= RowsWithId(db, id)
    ensures forall k :: k in RowsWithId(st.db, id) && k.table == t ==> k in st.missed && t != Events
  {
    forall k | k in RowsWithId(st.db, id) && k.table == t
      ensures k in st.missed && t != Events
    {
      assert KeptOrNew(snap, st.db, k, id);
      assert k in env.order;
      var j :| 0 <= j < |env.order| && env.order[j] == k;
      assert StillOld(st.db, env.order[j], id);
    }
    forall k | k in st.undo
      ensures k in RowsWithId(db, id) && k !in RowsWithId(st.db, id)
    {
      assert KeptOrNew(db, snap, k, id) && !StillOld(st.db, k, id);
    }
    forall k | k in RowsWithId(st.db, id)
      ensures k in RowsWithId(db, id)
    {
      assert KeptOrNew(db, snap, k, id) && KeptOrNew(snap, st.db, k, id);
    }
  }

  ghost predicate RunMigrates(db: Db, run: Run, id: byte, n: nat) {
    && RowsWithId(run.db, id) <= RowsWithId(db, id) - run.rewritten
    && run.rewritten <= RowsWithId(db, id)
    && forall k :: k in RowsWithId(run.db, id) && TableIndex(k.table) < n ==> k in Timed(run.missed)
  }

  lemma RunStepMigrates(job: Job, db: Db, env: Env, p: Run, j: nat)
    requires CrossBackend(job) && NewTraffic(env, job.source.id)
    requires j < |TABLES| && StepSelects(env, p, j) && !p.failed && !TablePass(job, p.db, env).failed
    requires RunMigrates(db, p, job.source.id, j)
    ensures RunMigrates(db, RunStep(job, env, p), job.source.id, j + 1)
  {
    PassLeavesBehind(job, p.db, env, TABLES[j]);
  }

  lemma RunLeavesBehind(job: Job, db: Db, envs: nat -> Env, j: nat)
    requires CrossBackend(job) && Complete(job, db, envs) && j <= |TABLES|
    requires forall i: nat :: NewTraffic(envs(i), job.source.id)
    requires !RunAfter(job, db, envs, j).failed
    ensures RunMigrates(db, RunAfter(job, db, envs, j), job.source.id, j)
  {
    var inv := (p: Run, n: nat) => p.failed || RunMigrates(db, p, job.source.id, n);
    assert inv(Idle(db), 0);
    forall p, i: nat | i < |TABLES| && inv(p, i) && StepSelects(envs(i), p, i)
      ensures inv(RunStep(job, envs(i), p), i + 1)
    {
      if !p.failed && !TablePass(job, p.db, envs(i)).failed {
        assert NewTraffic(envs(i), job.source.id);
        RunStepMigrates(job, db, envs(i), p, i);
      }
    }
    RunInduction(job, db, envs, inv, j);
    assert inv(RunAfter(job, db, envs, j), j);
  }

  /** A successful call, and live traffic that stores nothing of the old backend. */
  ghost predicate Migration(job: Job, db: Db, envs: nat -> Env) {
    && CrossBackend(job)
    && Complete(job, db, envs)
    && (forall i: nat :: NewTraffic(envs(i), job.source.id))
    && !Rotation(job, db, envs).failed
  }

  /**
   Old-backend rows left in the whole database number at most `skipped`, and none is an event;
   so `skipped == 0` means there is none. They also fell by at least `rotated`.
   */
  lemma MigrationCompleteness(job: Job, db: Db, envs: nat -> Env)
    requires Migration(job, db, envs)
    ensures var run, id := Rotation(job, db, envs), job.source.id;
            && |RowsWithId(run.db, id)| <= run.skipped
            && (forall k :: k in RowsWithId(run.db, id) ==> k.table != Events)
            && (run.skipped == 0 ==> RowsWithId(run.db, id) == {})
            && |RowsWithId(run.db, id)| + run.rotated <= |RowsWithId(db, id)|
            && RowsWithId(run.db, id) <= RowsWithId(db, id)
  {
    var run, id := Rotation(job, db, envs), job.source.id;
    var left := RowsWithId(run.db, id);
    RunLeavesBehind(job, db, envs, |TABLES|);
    RunAccounting(job, db, envs, |TABLES|);
    assert left <= Timed(run.missed);
    SubsetSize(left, Timed(run.missed));
    SubsetSize(left + run.rewritten, RowsWithId(db, id));
    assert left !! run.rewritten;
  }

  // ---- Repeating the call ----

  /** One call of a series: where it started, how it went, and what writers did before the next. */
  datatype Round = Round(start: Db, envs: nat -> Env, run: Run, between: seq<WriterStep>)

  ghost predicate IsRound(job: Job, r: Round) {
    && Migration(job, r.start, r.envs)
    && r.run == Rotation(job, r.start, r.envs)
    && AllStoreNo(r.between, job.source.id)
  }

  ghost predicate IsSeries(job: Job, rounds: seq<Round>) {
    && (forall n :: 0 <= n < |rounds| ==> IsRound(job, rounds[n]))
    && (forall n :: 0 < n < |rounds| ==> Follows(rounds[n - 1], rounds[n]))
  }

  ghost predicate Follows(r: Round, next: Round) {
    next.start == Replay(r.run.db, r.between)
  }

  /** Writer steps that ran while some call of the series was in progress. */
  function Interference(rounds: seq<Round>): nat {
    if rounds == [] then 0 else Interference(rounds[..|rounds| - 1]) + |rounds[|rounds| - 1].run.trace|
  }

  lemma RoundFacts(job: Job, r: Round)
    requires IsRound(job, r)
    ensures r.run.skipped <= |r.run.trace|
    ensures r.run.skipped == 0 ==> RowsWithId(r.run.db, job.source.id) == {}
    ensures RowsWithId(r.run.db, job.source.id) <= RowsWithId(r.start, job.source.id)
    ensures RowsWithId(Replay(r.run.db, r.between), job.source.id) <= RowsWithId(r.run.db, job.source.id)
  {
    MigrationCompleteness(job, r.start, r.envs);
    SkipsNeedInterference(job, r.start, r.envs);
    var after := Replay(r.run.db, r.between);
    forall k | k in RowsWithId(after, job.source.id)
      ensures k in RowsWithId(r.run.db, job.source.id)
    {
      WritersAddNone(r.run.db, r.between, job.source.id, k);
    }
  }

  lemma {:induction false} SkipsSumToInterference(rounds: seq<Round>)
    requires forall n :: 0 <= n < |rounds| ==> 0 < rounds[n].run.skipped <= |rounds[n].run.trace|
    ensures |rounds| <= Interference(rounds)
  {
    if rounds != [] {
      SkipsSumToInterference(rounds[..|rounds| - 1]);
    }
  }

  /** The round left no row of the old backend. */
  ghost predicate Migrated(job: Job, r: Round) {
    RowsWithId(r.run.db, job.source.id) == {}
  }

  lemma StaysAcross(job: Job, rounds: seq<Round>, m: nat)
    requires IsSeries(job, rounds) && 0 < m < |rounds| && Migrated(job, rounds[m - 1])
    ensures Migrated(job, rounds[m])
  {
    assert Follows(rounds[m - 1], rounds[m]);
    RoundFacts(job, rounds[m - 1]);
    RoundFacts(job, rounds[m]);
  }

  lemma {:induction false} Propagates(job: Job, rounds: seq<Round>, i: nat, n: nat)
    requires i <= n < |rounds| && Migrated(job, rounds[i])
    requires forall m :: 0 < m < |rounds| && Migrated(job, rounds[m - 1]) ==> Migrated(job, rounds[m])
    ensures Migrated(job, rounds[n])
    decreases n
  {
    if i < n {
      Propagates(job, rounds, i, n - 1);
    }
  }

  /** A migrated round stays migrated through the rest of the series. */
  lemma MigrationStays(job: Job, rounds: seq<Round>, i: nat, n: nat)
    requires IsSeries(job, rounds) && i <= n < |rounds| && Migrated(job, rounds[i])
    ensures Migrated(job, rounds[n])
  {
    forall m | 0 < m < |rounds| && Migrated(job, rounds[m - 1])
      ensures Migrated(job, rounds[m])
    {
      StaysAcross(job, rounds, m);
    }
    Propagates(job, rounds, i, n);
  }

  /**
   "Run it again until nothing is skipped" ends: with less interference than there are rounds
   some round skips nothing, and from then on the old backend is gone.
   */
  lemma RerunsConverge(job: Job, rounds: seq<Round>)
    requires IsSeries(job, rounds) && Interference(rounds) < |rounds|
    ensures exists i :: 0 <= i < |rounds| && rounds[i].run.skipped == 0 &&
              forall n :: i <= n < |rounds| ==> Migrated(job, rounds[n])
  {
    if forall i :: 0 <= i < |rounds| ==> rounds[i].run.skipped > 0 {
      forall n | 0 <= n < |rounds|
        ensures 0 < rounds[n].run.skipped <= |rounds[n].run.trace|
      {
        RoundFacts(job, rounds[n]);
      }
      SkipsSumToInterference(rounds);
    } else {
      var i :| 0 <= i < |rounds| && rounds[i].run.skipped == 0;
      RoundFacts(job, rounds[i]);
      forall n | i <= n < |rounds|
        ensures Migrated(job, rounds[n])
      {
        MigrationStays(job, rounds, i, n);
      }
    }
  }
}
