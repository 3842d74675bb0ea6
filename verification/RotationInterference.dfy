/**
 What a guard miss says about its row. The documentation of RotationResult takes a skipped row to
 be still under the old key, and that of the call takes a missed event to be deleted; neither
 follows. What does follow, whatever the keys and the traffic, is that the row is the writers' own.
 */
module RotationInterference {
  import opened Results
  import opened Backends
  import opened TypeDecorator
  import opened RevisionMarker
  import opened RotationModel
  import opened RotationSafety
  import opened RotationAccounting
  import opened RotationMigration

  // ---- One row under the writers ----

  function RowAt(db: Db, k: Key): Option<Row> {
    if k in db then Some(db[k]) else None
  }

  function StepRow(row: Option<Row>, w: WriterStep): Option<Row> {
    match w
    case Insert(_, r) => if row.None? then Some(r) else row
    case Delete(_) => None
    case Rewrite(_, c, t) => if row.Some? then Some(row.value.(cell := c, updateTime := t)) else None
    case Touch(_, t) => if row.Some? then Some(row.value.(updateTime := t)) else None
  }

  /** What the writers' steps make of one row, the others set aside. */
  function RowAfter(row: Option<Row>, ws: seq<WriterStep>, k: Key): Option<Row> {
    if ws == [] then row
    else
      var before, w := RowAfter(row, ws[..|ws| - 1], k), ws[|ws| - 1];
      if w.key == k then StepRow(before, w) else before
  }

  lemma {:induction false} ReplayAt(db: Db, ws: seq<WriterStep>, k: Key)
    ensures RowAt(Replay(db, ws), k) == RowAfter(RowAt(db, k), ws, k)
  {
    if ws != [] {
      ReplayAt(db, ws[..|ws| - 1], k);
    }
  }

  /** The last insert or delete of the row is an insert; true of a row left alone. */
  predicate Present(ws: seq<WriterStep>, k: Key) {
    if ws == [] then true
    else
      var w := ws[|ws| - 1];
      if w.key == k && w.Insert? then true
      else if w.key == k && w.Delete? then false
      else Present(ws[..|ws| - 1], k)
  }

  lemma {:induction false} PresentMeaning(row: Option<Row>, ws: seq<WriterStep>, k: Key)
    requires row.Some?
    ensures RowAfter(row, ws, k).Some? <==> Present(ws, k)
  {
    if ws != [] {
      PresentMeaning(row, ws[..|ws| - 1], k);
    }
  }

  /** No step deleted or rewrote the row; inserts of its key did nothing, its update_time may have moved. */
  ghost predicate OnlyTouched(ws: seq<WriterStep>, k: Key) {
    forall w :: w in ws && w.key == k ==> w.Touch? || w.Insert?
  }

  lemma {:induction false} OnlyTouchedKeepsCell(row: Option<Row>, ws: seq<WriterStep>, k: Key)
    requires row.Some? && OnlyTouched(ws, k)
    ensures RowAfter(row, ws, k).Some? && RowAfter(row, ws, k).value.cell == row.value.cell
  {
    if ws != [] {
      assert ws[|ws| - 1] in ws;
      OnlyTouchedKeepsCell(row, ws[..|ws| - 1], k);
    }
  }

  // ---- What a miss leaves: one pass ----

  /** The row is there, of the old backend, or open to the old key, exactly if `row` is. */
  ghost predicate AsRow(job: Job, db: Db, k: Key, row: Option<Row>) {
    && RowAt(db, k) == row
    && (StillOld(db, k, job.source.id) <==> row.Some? && HasId(row.value.cell, job.source.id))
    && (forall p :: k in db && OpensTo(job.source, db[k].cell, p) <==>
          row.Some? && OpensTo(job.source, row.value.cell, p))
  }

  lemma MissedAreFetched(snap: Db, env: Env, plan: seq<Action>, i: nat)
    requires i <= |plan| == |env.order|
    ensures forall k :: k in After(snap, env, plan, i).missed ==> k in env.order
  {
    var inv := (st: Pass, n: nat) => forall k :: k in st.missed ==> k in env.order;
    PassInduction(snap, env, plan, inv, i);
    assert inv(After(snap, env, plan, i), i);
  }

  /** A missed row was fetched, and rotation has not written it. */
  lemma MissedIsUnwritten(job: Job, db: Db, env: Env, t: Table, k: Key)
    requires Selects(env.order, SelectPoint(db, env), t) && k in TablePass(job, db, env).missed
    ensures k in SelectPoint(db, env) && k.table == t
    ensures TablePass(job, db, env).failed || k !in TablePass(job, db, env).rewritten
  {
    var snap := SelectPoint(db, env);
    var plan := Plan(job, snap, env);
    MissedAreFetched(snap, env, plan, |plan|);
    assert k in env.order;
    if !TablePass(job, db, env).failed {
      AfterAccounts(snap, env, plan, t, |plan|);
    }
  }

  /** A row that carries no committed write of the pass is exactly the row the writers made. */
  lemma UnwrittenRowIsTheWriters(job: Job, db: Db, env: Env, k: Key)
    requires Distinct(env.order)
    requires TablePass(job, db, env).failed || k !in TablePass(job, db, env).rewritten
    ensures RowAt(TablePass(job, db, env).db, k) == RowAt(Replay(db, TablePass(job, db, env).trace), k)
    ensures RowAt(TablePass(job, db, env).db, k) == RowAfter(RowAt(SelectPoint(db, env), k), During(job, db, env), k)
  {
    var st := LastPoint(job, db, env);
    LastPointInv(job, db, env);
    ReplayAt(SelectPoint(db, env), st.since, k);
    assert k !in st.undo ==> RowAt(Rollback(st), k) == RowAt(st.db, k);
  }

  /**
   For any two keys and any traffic: a row whose guard missed is the writers' own, so it is gone
   exactly if the last insert or delete of it was a delete, and it is of the old backend, or opens
   under the old key, exactly if what the writers made of it does.
   */
  lemma MissedRowIsTheWriters(job: Job, db: Db, env: Env, t: Table, k: Key)
    requires Selects(env.order, SelectPoint(db, env), t) && k in TablePass(job, db, env).missed
    ensures k in SelectPoint(db, env)
    ensures k in TablePass(job, db, env).db <==> Present(During(job, db, env), k)
    ensures AsRow(job, TablePass(job, db, env).db, k,
                  RowAfter(RowAt(SelectPoint(db, env), k), During(job, db, env), k))
  {
    MissedIsUnwritten(job, db, env, t, k);
    UnwrittenRowIsTheWriters(job, db, env, k);
    PresentMeaning(RowAt(SelectPoint(db, env), k), During(job, db, env), k);
  }

  /** A step that reached the row after the SELECT explains each miss: without update_time, a delete or a rewrite. */
  lemma MissedWithoutTimeIsWritten(job: Job, db: Db, env: Env, t: Table, k: Key)
    requires Selects(env.order, SelectPoint(db, env), t) && k in TablePass(job, db, env).missed
    ensures OnlyTouched(During(job, db, env), k) ==> t != Events
  {
    var snap := SelectPoint(db, env);
    var plan, n := Plan(job, snap, env), |env.order|;
    MissedIsUnwritten(job, db, env, t, k);
    PlanIsFaithful(job, snap, env);
    MissesExplained(job, snap, env, plan, n);
    GapExplains(After(snap, env, plan, n), GapAt(env, n + 1));
  }

  ghost predicate Explained(st: Pass) {
    forall k :: k in st.missed && OnlyTouched(st.since, k) ==> k.table != Events
  }

  lemma GapExplains(st: Pass, ws: seq<WriterStep>)
    requires Explained(st)
    ensures Explained(Gap(st, ws))
  {
    var since := Gap(st, ws).since;
    forall k | OnlyTouched(since, k)
      ensures OnlyTouched(st.since, k)
    {
      assert forall w :: w in st.since ==> w in since;
    }
  }

  lemma StepExplains(job: Job, snap: Db, env: Env, st: Pass, i: nat, action: Action)
    requires PassInv(job, snap, env, st, i) && i < |env.order| && env.order[i] in snap && Explained(st)
    ensures Explained(Step(snap, env, action, st, i))
  {
    if !st.failed {
      var k, g := env.order[i], Gap(st, GapAt(env, i + 1));
      GapKeepsInv(job, snap, env, st, i, GapAt(env, i + 1));
      GapExplains(st, GapAt(env, i + 1));
      if OnlyTouched(g.since, k) {
        ReplayAt(snap, g.since, k);
        OnlyTouchedKeepsCell(RowAt(snap, k), g.since, k);
        assert RowAt(Rollback(g), k) == RowAt(g.db, k);
      }
    }
  }

  lemma MissesExplained(job: Job, snap: Db, env: Env, plan: seq<Action>, i: nat)
    requires Faithful(job, snap, env, plan) && Distinct(env.order) && i <= |plan|
    requires forall k :: k in env.order ==> k in snap
    ensures Explained(After(snap, env, plan, i))
  {
    var inv := (st: Pass, n: nat) => PassInv(job, snap, env, st, n) && Explained(st);
    BeginKeepsInv(job, snap, env);
    forall st, j: nat | j < |plan| && inv(st, j)
      ensures inv(Step(snap, env, plan[j], st, j), j + 1)
    {
      assert env.order[j] in env.order;
      StepKeepsInv(job, snap, env, st, j, plan[j]);
      StepExplains(job, snap, env, st, j, plan[j]);
    }
    PassInduction(snap, env, plan, inv, i);
    assert inv(After(snap, env, plan, i), i);
  }

  /**
   Which rows the guard lets through. A fetched row of the old backend is rewritten exactly if, by
   the writers' steps since the SELECT, it is still there with the text fetched and, unless it is an
   event, with the update_time fetched.
   */
  lemma GuardDecides(job: Job, snap: Db, env: Env, t: Table, j: nat)
    requires Selects(env.order, snap, t) && j < |env.order|
    requires HasId(snap[env.order[j]].cell, job.source.id)
    requires !After(snap, env, Plan(job, snap, env), j + 1).failed
    ensures var k, plan := env.order[j], Plan(job, snap, env);
            var since := Gap(After(snap, env, plan, j), GapAt(env, j + 1)).since;
            k in After(snap, env, plan, j + 1).undo <==> Unmoved(RowAfter(Some(snap[k]), since, k), snap[k], k.table)
  {
    var k, plan := env.order[j], Plan(job, snap, env);
    var before := After(snap, env, plan, j);
    var g := Gap(before, GapAt(env, j + 1));
    PlanIsFaithful(job, snap, env);
    AfterKeepsInv(job, snap, env, plan, j);
    GapKeepsInv(job, snap, env, before, j, GapAt(env, j + 1));
    StepIs(snap, env, plan, j);
    OldRowIsDecided(job, snap[k].cell, env.draws(j));
    assert k in env.order;
    ReplayAt(snap, g.since, k);
    assert RowAt(Rollback(g), k) == RowAt(g.db, k);
  }

  predicate Unmoved(now: Option<Row>, seen: Row, t: Table) {
    now.Some? && now.value.cell == seen.cell && (t == Events || now.value.updateTime == seen.updateTime)
  }

  lemma StepIs(snap: Db, env: Env, plan: seq<Action>, j: nat)
    requires j < |plan| == |env.order| && !After(snap, env, plan, j + 1).failed
    ensures !After(snap, env, plan, j).failed
    ensures After(snap, env, plan, j + 1) ==
            Act(Gap(After(snap, env, plan, j), GapAt(env, j + 1)), env.order[j], Fetched(snap, env.order[j]), plan[j])
  {
    assert After(snap, env, plan, j + 1) == PassBody(snap, env, plan)(After(snap, env, plan, j), j);
  }

  lemma OldRowIsDecided(job: Job, c: Option<string>, r: Entropy)
    requires HasId(c, job.source.id)
    ensures PlanRow(job, c, r).Replace? || PlanRow(job, c, r).Abort?
  {
  }

  // ---- Traffic that stores nothing of the old backend ----

  lemma {:induction false} OldUnderWriters(row: Option<Row>, ws: seq<WriterStep>, id: byte, k: Key)
    requires row.Some? && HasId(row.value.cell, id) && AllStoreNo(ws, id)
    ensures var row' := RowAfter(row, ws, k);
            row'.Some? && HasId(row'.value.cell, id) <==> OnlyTouched(ws, k)
  {
    if ws != [] {
      var front, w := ws[..|ws| - 1], ws[|ws| - 1];
      assert ws == front + [w] && w in ws;
      OldUnderWriters(row, front, id, k);
    }
  }

  /** With such traffic the row is still of the old backend exactly if all that reached it was touched timestamps. */
  lemma MissedRowIsOldIff(job: Job, db: Db, env: Env, t: Table, k: Key)
    requires NewTraffic(env, job.source.id)
    requires Selects(env.order, SelectPoint(db, env), t) && k in TablePass(job, db, env).missed
    ensures StillOld(TablePass(job, db, env).db, k, job.source.id) <==> OnlyTouched(During(job, db, env), k)
  {
    var snap := SelectPoint(db, env);
    MissedRowIsTheWriters(job, db, env, t, k);
    PassTrace(job, db, env, w => StoresNo(w, job.source.id));
    PlanIsFaithful(job, snap, env);
    MissedWasOld(job, snap, env, Plan(job, snap, env), |env.order|, k);
    OldUnderWriters(RowAt(snap, k), During(job, db, env), job.source.id, k);
  }

  /** Only rows of the old backend get as far as a guarded UPDATE. */
  lemma MissedWasOld(job: Job, snap: Db, env: Env, plan: seq<Action>, i: nat, k: Key)
    requires Faithful(job, snap, env, plan) && i <= |plan| && k in snap
    requires k in After(snap, env, plan, i).missed
    ensures HasId(snap[k].cell, job.source.id)
  {
    var inv := (st: Pass, n: nat) => k in st.missed ==> HasId(snap[k].cell, job.source.id);
    PassInduction(snap, env, plan, inv, i);
    assert inv(After(snap, env, plan, i), i);
  }

  // ---- What a miss leaves: the whole call ----

  /** Rows without a committed write are the writers'; missed ones are such, and of a table done. */
  ghost predicate RunLeaves(db: Db, run: Run, n: nat) {
    && (forall k :: k !in run.rewritten ==> RowAt(run.db, k) == RowAt(Replay(db, run.trace), k))
    && (forall k :: k in run.missed ==> k !in run.rewritten)
    && (forall k :: k in run.missed || k in run.rewritten ==> TableIndex(k.table) < n)
  }

  lemma WrittenAreFetched(job: Job, db: Db, env: Env, t: Table, k: Key)
    requires Selects(env.order, SelectPoint(db, env), t) && k in TablePass(job, db, env).rewritten
    ensures k.table == t
  {
    LastPointInv(job, db, env);
  }

  lemma RunStepLeaves(job: Job, db: Db, env: Env, p: Run, j: nat)
    requires j < |TABLES| && StepSelects(env, p, j) && RunLeaves(db, p, j)
    ensures RunLeaves(db, RunStep(job, env, p), j + 1)
  {
    if !p.failed {
      var res := TablePass(job, p.db, env);
      AbsorbLeaves(job, db, env, p, res, j);
    }
  }

  lemma AbsorbLeaves(job: Job, db: Db, env: Env, p: Run, res: TableResult, j: nat)
    requires j < |TABLES| && Selects(env.order, SelectPoint(p.db, env), TABLES[j]) && RunLeaves(db, p, j)
    requires res == TablePass(job, p.db, env)
    ensures RunLeaves(db, Absorb(p, res), j + 1)
  {
    forall k | k !in p.rewritten && (res.failed || k !in res.rewritten)
      ensures RowAt(res.db, k) == RowAt(Replay(db, p.trace + res.trace), k)
    {
      UnwrittenRowIsTheWriters(job, p.db, env, k);
      ReplayAt(p.db, res.trace, k);
      ReplayConcat(db, p.trace, res.trace);
      ReplayAt(Replay(db, p.trace), res.trace, k);
    }
    forall k | k in res.rewritten
      ensures k.table == TABLES[j]
    {
      WrittenAreFetched(job, p.db, env, TABLES[j], k);
    }
    forall k | k in res.missed
      ensures k.table == TABLES[j] && (res.failed || k !in res.rewritten)
    {
      MissedIsUnwritten(job, p.db, env, TABLES[j], k);
    }
  }

  lemma CallLeaves(job: Job, db: Db, envs: nat -> Env)
    requires Complete(job, db, envs)
    ensures RunLeaves(db, Rotation(job, db, envs), |TABLES|)
  {
    var inv := (p: Run, n: nat) => RunLeaves(db, p, n);
    assert inv(Idle(db), 0);
    forall p, i: nat | i < |TABLES| && inv(p, i) && StepSelects(envs(i), p, i)
      ensures inv(RunStep(job, envs(i), p), i + 1)
    {
      RunStepLeaves(job, db, envs(i), p, i);
    }
    RunInduction(job, db, envs, inv, |TABLES|);
    assert inv(RunAfter(job, db, envs, |TABLES|), |TABLES|);
  }

  /**
   The call's own report, for any two keys, any traffic, returned or raised: a missed row, skipped
   or an event, is the row the writers alone would have left; so it is there, of the old backend or
   open to the old key exactly if that row is.
   */
  lemma MissedRowsAreTheWriters(job: Job, db: Db, envs: nat -> Env, k: Key)
    requires Complete(job, db, envs) && k in Rotation(job, db, envs).missed
    ensures AsRow(job, Rotation(job, db, envs).db, k, RowAfter(RowAt(db, k), Rotation(job, db, envs).trace, k))
  {
    CallLeaves(job, db, envs);
    ReplayAt(db, Rotation(job, db, envs).trace, k);
  }

  // ---- Concrete misses ----

  /** A table of one row of the old backend, and one step between the SELECT and the UPDATE. */
  function OneRow(k: Key, w: WriterStep): Env {
    Env([[], [w]], _ => (_ => 0), [k])
  }

  ghost predicate OldRow(job: Job, row: Row, p: bytes) {
    OpensTo(job.source, row.cell, p)
  }

  lemma OneRowPlan(job: Job, k: Key, row: Row, p: bytes, w: WriterStep)
    requires Sound(job.target) && OldRow(job, row, p)
    ensures var plan := Plan(job, map[k := row], OneRow(k, w));
            |plan| == 1 && plan[0].Replace?
  {
    PlanClass(job, row.cell, OneRow(k, w).draws(0));
  }

  /** The pass changed nothing, missed the row, and reports it if it has an update_time. */
  predicate MissesOne(res: TableResult, db: Db, k: Key) {
    && !res.failed && res.db == db && res.missed == {k}
    && res.rotated == 0 && res.skipped == if k.table != Events then 1 else 0
  }

  lemma OneRowPass(job: Job, k: Key, row: Row, p: bytes, w: WriterStep)
    requires Sound(job.target) && OldRow(job, row, p) && w.key == k
    requires !GuardHolds(Apply(map[k := row], w), k, row)
    ensures var db, env := map[k := row], OneRow(k, w);
            && Selects(env.order, SelectPoint(db, env), k.table)
            && MissesOne(TablePass(job, db, env), Apply(db, w), k)
  {
    var db, env := map[k := row], OneRow(k, w);
    assert SelectPoint(db, env) == db;
    var plan := Plan(job, db, env);
    OneRowPlan(job, k, row, p, w);
    OneRowMisses(k, row, w, plan, plan[0].text);
    NoneAfter(job, db, env, Missed(k, row, w));
  }

  lemma NoneAfter(job: Job, db: Db, env: Env, st: Pass)
    requires SelectPoint(db, env) == db && GapAt(env, |env.order| + 1) == []
    requires After(db, env, Plan(job, db, env), |env.order|) == st
    ensures LastPoint(job, db, env) == st
  {
    assert st.since + [] == st.since;
  }

  /** The state after the row's guard has missed. */
  function Missed(k: Key, row: Row, w: WriterStep): Pass {
    Pass(Apply(map[k := row], w), map[], [w], 0, if k.table != Events then 1 else 0, {k}, false)
  }

  lemma OneRowMisses(k: Key, row: Row, w: WriterStep, plan: seq<Action>, text: string)
    requires w.key == k && !GuardHolds(Apply(map[k := row], w), k, row) && plan == [Replace(text)]
    ensures After(map[k := row], OneRow(k, w), plan, 1) == Missed(k, row, w)
  {
    var db, env := map[k := row], OneRow(k, w);
    GapOfOne(db, w);
    var st := Pass(Apply(db, w), map[], [w], 0, 0, {}, false);
    assert Act(st, k, row, Replace(text)) == Missed(k, row, w);
    assert Step(db, env, plan[0], Begin(db), 0) == Act(st, k, row, Replace(text));
    assert After(db, env, plan, 0) == Begin(db);
    assert After(db, env, plan, 1) == PassBody(db, env, plan)(Begin(db), 0);
  }

  lemma GapOfOne(db: Db, w: WriterStep)
    ensures Gap(Begin(db), [w]) == Pass(Apply(db, w), map[], [w], 0, 0, {}, false)
  {
    assert Begin(db).undo.Keys == {} && [] + [w] == [w];
    OneStep(db, w);
  }

  lemma OneStep(db: Db, w: WriterStep)
    ensures Unblocked([w], {}) == [w] && Replay(db, [w]) == Apply(db, w)
  {
    assert [w][..0] == [];
    assert Unblocked([], {}) + [w] == [w];
  }

  /** Skipped, yet not under the old key: the row was deleted, or another writer had put it under the new one. */
  lemma SkippedNeedNotBeOld(job: Job, k: Key, row: Row, p: bytes, r: Entropy)
    requires Sound(job.target) && OldRow(job, row, p) && k.table != Events
    ensures var gone := TablePass(job, map[k := row], OneRow(k, Delete(k)));
            gone.skipped == 1 && gone.db == map[]
    ensures job.target.enc(p, r).Ok?
    ensures var cell := Some(EncodeCell(job.target.id, job.target.enc(p, r).value));
            var res := TablePass(job, map[k := row], OneRow(k, Rewrite(k, cell, row.updateTime)));
            cell != row.cell ==> (
              && res.skipped == 1 && k in res.db
              && (OpensTo(job.target, res.db[k].cell, p) <==> Registered(job.target)))
  {
    OneRowPass(job, k, row, p, Delete(k));
    assert Opens(job.target, p, r);
    var cell := Some(EncodeCell(job.target.id, job.target.enc(p, r).value));
    ParseEncodeCell(job.target.id, job.target.enc(p, r).value);
    if cell != row.cell {
      OneRowPass(job, k, row, p, Rewrite(k, cell, row.updateTime));
    }
  }

  /** The documented case: a moved update_time alone makes the guard miss, and a later call can take the row. */
  lemma TouchedRowIsSkipped(job: Job, k: Key, row: Row, p: bytes, time: DateTime)
    requires Sound(job.target) && OldRow(job, row, p) && k.table != Events && time != row.updateTime
    ensures var res := TablePass(job, map[k := row], OneRow(k, Touch(k, time)));
            && res.skipped == 1 && res.rotated == 0
            && res.db == map[k := row.(updateTime := time)] && RowsWithId(res.db, job.source.id) == {k}
  {
    OneTouch(k, row, time);
    OneRowPass(job, k, row, p, Touch(k, time));
    OneOldRow(k, row.(updateTime := time), job.source.id);
  }

  /** But an event has no update_time to compare: whatever its column there says, it is rotated. */
  lemma TouchedEventIsRotated(job: Job, k: Key, row: Row, p: bytes, time: DateTime)
    requires Sound(job.target) && OldRow(job, row, p) && k.table == Events
    ensures var res := TablePass(job, map[k := row], OneRow(k, Touch(k, time)));
            !res.failed && res.rotated == 1 && res.skipped == 0 && res.rewritten == {k}
  {
    var db, env, w := map[k := row], OneRow(k, Touch(k, time)), Touch(k, time);
    assert SelectPoint(db, env) == db;
    OneRowPlan(job, k, row, p, w);
    var plan := Plan(job, db, env);
    OneRowHit(k, row, w, plan, plan[0].text);
    HitsEvent(k, row, time, plan[0].text);
    NoneAfter(job, db, env, Act(AfterOne(k, row, w), k, row, plan[0]));
  }

  /** The state when the row's UPDATE is about to run. */
  function AfterOne(k: Key, row: Row, w: WriterStep): Pass {
    Pass(Apply(map[k := row], w), map[], [w], 0, 0, {}, false)
  }

  lemma HitsEvent(k: Key, row: Row, time: DateTime, text: string)
    requires k.table == Events
    ensures var st := Act(AfterOne(k, row, Touch(k, time)), k, row, Replace(text));
            !st.failed && st.rotated == 1 && st.skipped == 0 && st.undo.Keys == {k}
  {
    OneTouch(k, row, time);
  }

  lemma OneRowHit(k: Key, row: Row, w: WriterStep, plan: seq<Action>, text: string)
    requires w.key == k && plan == [Replace(text)]
    ensures After(map[k := row], OneRow(k, w), plan, 1) ==
            Act(AfterOne(k, row, w), k, row, plan[0])
  {
    var db, env := map[k := row], OneRow(k, w);
    GapOfOne(db, w);
    assert After(db, env, plan, 0) == Begin(db);
    assert After(db, env, plan, 1) == PassBody(db, env, plan)(Begin(db), 0);
  }

  lemma OneTouch(k: Key, row: Row, time: DateTime)
    ensures Apply(map[k := row], Touch(k, time)) == map[k := row.(updateTime := time)]
  {
  }

  lemma OneOldRow(k: Key, row: Row, id: byte)
    requires HasId(row.cell, id)
    ensures RowsWithId(map[k := row], id) == {k}
  {
  }

  /** An event whose guard missed may be there still: NULLed or rewritten, and counted nowhere. */
  lemma MissedEventNeedNotBeGone(job: Job, k: Key, row: Row, p: bytes)
    requires Sound(job.target) && OldRow(job, row, p) && k.table == Events
    ensures var res := TablePass(job, map[k := row], OneRow(k, Rewrite(k, None, row.updateTime)));
            res.missed == {k} && res.rotated == res.skipped == 0 && k in res.db
  {
    OneRowPass(job, k, row, p, Rewrite(k, None, row.updateTime));
  }
}
