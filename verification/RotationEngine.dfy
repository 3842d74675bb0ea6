/**
 The statements of rotation.py on a mutable database: the two loops, the counters and the
 transaction, each method proved to compute the protocol of module RotationModel.
 */
module RotationEngine {
  import opened Results
  import opened RotationModel
  import opened Loops
  import opened RotationSafety

  datatype RotationResult = RotationResult(rotated: nat, skipped: nat)

  class Database {
    var rows: Db
    /** Rows written by the open transaction, as they were before it; they are locked. */
    var undo: Db
    /** Writer steps that ran since the open transaction began. */
    ghost var since: seq<WriterStep>

    constructor (rows: Db)
      ensures this.rows == rows && undo == map[] && since == []
    {
      this.rows := rows;
      undo := map[];
      since := [];
    }

    /** The fields of this object as a point of the protocol. */
    ghost predicate At(st: Pass)
      reads this
    {
      rows == st.db && undo == st.undo && since == st.since
    }

    /** Other writers run; a step on a locked row is held up. */
    method Interfere(ws: seq<WriterStep>)
      modifies this
      ensures rows == Replay(old(rows), Unblocked(ws, old(undo).Keys))
      ensures undo == old(undo) && since == old(since) + Unblocked(ws, old(undo).Keys)
    {
      ghost var locks := undo.Keys;
      for i := 0 to |ws|
        invariant undo == old(undo)
        invariant rows == Replay(old(rows), Unblocked(ws[..i], locks))
        invariant since == old(since) + Unblocked(ws[..i], locks)
      {
        UnblockedNext(old(rows), ws, i, locks);
        if ws[i].key !in undo {
          rows := Apply(rows, ws[i]);
          since := since + [ws[i]];
        }
      }
      assert ws[..|ws|] == ws;
    }

    /** SELECT all rows of a table, in an order the database chooses. */
    method Select(t: Table) returns (order: seq<Key>)
      ensures Selects(order, rows, t)
    {
      order := [];
      var left := set k | k in rows && k.table == t;
      while left != {}
        invariant forall k :: k in left || k in order <==> k in rows && k.table == t
        invariant forall k :: k in order ==> k !in left
        invariant Distinct(order)
      {
        var k :| k in left;
        left := left - {k};
        order := order + [k];
      }
    }

    /** UPDATE ... WHERE pk AND guard; the row it writes is locked until the transaction ends. */
    method GuardedUpdate(k: Key, seen: Row, text: string) returns (rowcount: nat)
      modifies this
      ensures since == old(since)
      ensures rowcount == if k in old(rows) && old(rows)[k].cell == seen.cell
                             && (k.table == Events || old(rows)[k].updateTime == seen.updateTime) then 1 else 0
      ensures rowcount == 0 ==> rows == old(rows) && undo == old(undo)
      ensures rowcount == 1 ==> rows == old(rows)[k := old(rows)[k].(cell := Some(text))]
      ensures rowcount == 1 ==> undo == if k in old(undo) then old(undo) else old(undo)[k := old(rows)[k]]
    {
      if GuardHolds(rows, k, seen) {
        undo := Lock(undo, k, rows[k]);
        rows := UpdateCell(rows, k, text);
        rowcount := 1;
      } else {
        rowcount := 0;
      }
    }

    /** End of `async with engine.begin()`. */
    method EndTransaction(raised: bool)
      modifies this
      ensures rows == (if raised then old(rows) + old(undo) else old(rows))
      ensures undo == map[] && since == old(since)
    {
      if raised {
        rows := rows + undo;
      }
      undo := map[];
    }

    /** The loop body once the value is decided on: writers, then the guarded UPDATE and its counter. */
    method RotateRow(ghost st: Pass, gap: seq<WriterStep>, k: Key, seen: Row, action: Action)
      returns (raised: bool, rotated: nat, skipped: nat)
      requires At(st) && !st.failed
      modifies this
      ensures var st' := Act(Gap(st, gap), k, seen, action);
              && At(st') && raised == st'.failed
              && st'.rotated == st.rotated + rotated && st'.skipped == st.skipped + skipped
    {
      raised, rotated, skipped := false, 0, 0;
      Interfere(gap);
      match action
      case KeepNull =>
      case KeepOther =>
      case Abort => raised := true;
      case Replace(text) =>
        var rowcount := GuardedUpdate(k, seen, text);
        if rowcount > 0 {
          rotated := 1;
        } else if HasUpdateTime(k.table) {
          skipped := 1;
        }
    }

    /** The loop body for row `i` of the fetched ones. */
    method RotateNext(job: Job, fetched: Db, here: Env, i: nat, ghost st: Pass)
      returns (raised: bool, rotated: nat, skipped: nat, ghost st': Pass)
      requires i < |here.order| && here.order[i] in fetched
      requires At(st) && !st.failed && ReachedRow(job, fetched, here, i, st)
      modifies this
      ensures At(st') && raised == st'.failed
      ensures ReachedRow(job, fetched, here, if raised then |here.order| else i + 1, st')
      ensures st'.rotated == st.rotated + rotated && st'.skipped == st.skipped + skipped
    {
      var k := here.order[i];
      var action := PlanRow(job, fetched[k].cell, here.draws(i));
      NextRow(job, fetched, here, i, st, action);
      raised, rotated, skipped := RotateRow(st, GapAt(here, i + 1), k, fetched[k], action);
      st' := Act(Gap(st, GapAt(here, i + 1)), k, fetched[k], action);
    }

    method RotateTable(job: Job, t: Table, env: Env) returns (r: Result<RotationResult>, order: seq<Key>)
      requires undo == map[] && since == []
      modifies this
      ensures Selects(order, old(rows), t)
      ensures Ended(EndOfPass(job, old(rows), env.(order := order)), r)
    {
      order := Select(t);
      r := RotateRows(job, rows, env.(order := order));
    }

    /** The loop over the fetched rows. */
    method RotateRows(job: Job, fetched: Db, here: Env) returns (r: Result<RotationResult>)
      requires rows == fetched && undo == map[] && since == []
      requires forall k :: k in here.order ==> k in fetched
      modifies this
      ensures Ended(EndOfPass(job, fetched, here), r)
    {
      var rotated: nat, skipped: nat := 0, 0;
      ghost var st := Begin(fetched);
      for i := 0 to |here.order|
        invariant ReachedRow(job, fetched, here, i, st) && Follows(st, rotated, skipped)
      {
        assert here.order[i] in here.order;
        var raised, r1, s1;
        raised, r1, s1, st := RotateNext(job, fetched, here, i, st);
        if raised {
          return Raise(DecryptionError);
        }
        rotated, skipped := rotated + r1, skipped + s1;
      }
      r := Ok(RotationResult(rotated, skipped));
    }

    /** The fields are at `st`, and `r` is what the loop returned or raised there. */
    ghost predicate Ended(st: Pass, r: Result<RotationResult>)
      reads this
    {
      && At(st)
      && r == if st.failed then Raise(DecryptionError) else Ok(RotationResult(st.rotated, st.skipped))
    }

    ghost predicate Follows(st: Pass, rotated: nat, skipped: nat)
      reads this
    {
      At(st) && !st.failed && rotated == st.rotated && skipped == st.skipped
    }

    /** `async with engine.begin() as conn`, with whatever writers do before its SELECT and its end. */
    method InTransaction(job: Job, t: Table, env: Env)
      returns (r: Result<RotationResult>, order: seq<Key>, ghost res: TableResult)
      requires undo == map[]
      modifies this
      ensures Selects(order, SelectPoint(old(rows), env.(order := order)), t)
      ensures res == TablePass(job, old(rows), env.(order := order))
      ensures rows == res.db && undo == map[]
      ensures r == if res.failed then Raise(DecryptionError) else Ok(RotationResult(res.rotated, res.skipped))
    {
      Interfere(GapAt(env, 0));
      NoLocksNoBlocking(GapAt(env, 0), undo.Keys);
      since := [];
      assert rows == SelectPoint(old(rows), env);
      r, order := RotateTable(job, t, env);
      Interfere(GapAt(env, |order| + 1));
      EndTransaction(r.Raise?);
      res := TablePass(job, old(rows), env.(order := order));
    }

    /** The next turn of the loop over `_TABLE_SPECS`, up to its counters. */
    method NextTable(job: Job, ghost db: Db, envs: nat -> Env, orders: seq<seq<Key>>, ghost run: Run)
      returns (one: Result<RotationResult>, order: seq<Key>, ghost run': Run)
      requires undo == map[] && rows == run.db && !run.failed
      requires |orders| < |TABLES| && Reached(job, db, envs, orders, run)
      modifies this
      ensures undo == map[] && rows == run'.db
      ensures Reached(job, db, envs, orders + [order], run')
      ensures run'.failed <==> one.Raise?
      ensures one.Ok? ==> run'.rotated == run.rotated + one.value.rotated
      ensures one.Ok? ==> run'.skipped == run.skipped + one.value.skipped
    {
      ghost var res;
      one, order, res := InTransaction(job, TABLES[|orders|], envs(|orders|));
      run' := Absorb(run, res);
      ReachNext(job, db, envs, orders, run, order, res);
    }

    /**
     rotate_encryption_keys. `envs` says what surrounds each table's pass; the row orders are the
     database's choice and come back in `orders`.
     */
    method RotateEncryptionKeys(job: Job, envs: nat -> Env) returns (r: Result<RotationResult>, orders: seq<seq<Key>>)
      requires undo == map[]
      modifies this
      ensures undo == map[] && Answers(job, old(rows), envs, orders, rows, r)
    {
      var rotated: nat, skipped: nat := 0, 0;
      orders := [];
      ghost var db, run := rows, Idle(rows);
      assert Reached(job, db, envs, [], run);
      for j := 0 to |TABLES|
        invariant undo == map[] && |orders| == j
        invariant Reached(job, db, envs, orders, run) && Committed(run, rotated, skipped)
      {
        var one, order, next := NextTable(job, db, envs, orders, run);
        orders, run := orders + [order], next;
        if one.Raise? {
          r := Raise(DecryptionError);
          ReachedEnd(job, db, envs, orders, run, rows, r);
          return;
        }
        rotated, skipped := rotated + one.value.rotated, skipped + one.value.skipped;
      }
      r := Ok(RotationResult(rotated, skipped));
      ReachedEnd(job, db, envs, orders, run, rows, r);
    }

    ghost predicate Committed(run: Run, rotated: nat, skipped: nat)
      reads this
    {
      rows == run.db && !run.failed && rotated == run.rotated && skipped == run.skipped
    }
  }

  // ---- Lemmas for the loops ----

  lemma UnblockedNext(db: Db, ws: seq<WriterStep>, i: nat, locks: set<Key>)
    requires i < |ws|
    ensures var run, run' := Unblocked(ws[..i], locks), Unblocked(ws[..i + 1], locks);
            if ws[i].key in locks then run' == run
            else run' == run + [ws[i]] && Replay(db, run') == Apply(Replay(db, run), ws[i])
  {
    assert ws[..i + 1][..i] == ws[..i];
    var run := Unblocked(ws[..i], locks);
    assert run + [] == run;
    assert (run + [ws[i]])[..|run|] == run;
  }

  /** The pass after its last row, before the transaction ends. */
  function EndOfPass(job: Job, snap: Db, env: Env): Pass {
    After(snap, env, Plan(job, snap, env), |env.order|)
  }

  ghost predicate ReachedRow(job: Job, snap: Db, env: Env, i: nat, st: Pass) {
    st == After(snap, env, Plan(job, snap, env), i)
  }

  /** The protocol's next row is what the loop body does; if that raises, it is also the pass's end. */
  lemma NextRow(job: Job, snap: Db, env: Env, i: nat, st: Pass, action: Action)
    requires i < |env.order| && env.order[i] in snap && !st.failed && ReachedRow(job, snap, env, i, st)
    requires action == PlanRow(job, snap[env.order[i]].cell, env.draws(i))
    ensures var st' := Act(Gap(st, GapAt(env, i + 1)), env.order[i], snap[env.order[i]], action);
            ReachedRow(job, snap, env, if st'.failed then |env.order| else i + 1, st')
  {
    var plan, st' := Plan(job, snap, env), Act(Gap(st, GapAt(env, i + 1)), env.order[i], snap[env.order[i]], action);
    assert plan[i] == action;
    assert After(snap, env, plan, i + 1) == PassBody(snap, env, plan)(st, i) == st';
    if st'.failed {
      FailureIsFinal(snap, env, plan, i + 1, |env.order|);
    }
  }

  lemma {:induction false} NoLocksNoBlocking(ws: seq<WriterStep>, locks: set<Key>)
    requires locks == {}
    ensures Unblocked(ws, locks) == ws
  {
    if ws != [] {
      NoLocksNoBlocking(ws[..|ws| - 1], locks);
      assert ws == ws[..|ws| - 1] + [ws[|ws| - 1]];
    }
  }

  lemma FailureIsFinal(snap: Db, env: Env, plan: seq<Action>, i: nat, n: nat)
    requires i <= n && After(snap, env, plan, i).failed
    ensures After(snap, env, plan, n) == After(snap, env, plan, i)
  {
    IterateStops(PassBody(snap, env, plan), Begin(snap), i, n);
  }

  function WithOrders(envs: nat -> Env, orders: seq<seq<Key>>): nat -> Env {
    (j: nat) => if j < |orders| then envs(j).(order := orders[j]) else envs(j)
  }

  ghost function SelectsAt(job: Job, db: Db, envs: nat -> Env): nat -> bool {
    (j: nat) => j < |TABLES| && StepSelects(envs(j), RunAfter(job, db, envs, j), j)
  }

  lemma RunAgrees(job: Job, db: Db, envs: nat -> Env, envs': nat -> Env, j: nat)
    requires forall i: nat :: i < j ==> envs(i) == envs'(i)
    ensures RunAfter(job, db, envs, j) == RunAfter(job, db, envs', j)
  {
    forall p, i: nat | i < j
      ensures RunBody(job, envs)(p, i) == RunBody(job, envs')(p, i)
    {
      assert envs(i) == envs'(i);
    }
    IterateAgrees(RunBody(job, envs), RunBody(job, envs'), Idle(db), j);
  }

  /** `run` is where the call stands once the first |orders| tables have been through it. */
  ghost predicate Reached(job: Job, db: Db, envs: nat -> Env, orders: seq<seq<Key>>, run: Run) {
    && |orders| <= |TABLES|
    && run == RunAfter(job, db, WithOrders(envs, orders), |orders|)
    && AllBelow(SelectsAt(job, db, WithOrders(envs, orders)), |orders|)
  }

  lemma SelectsAgree(job: Job, db: Db, envs: nat -> Env, envs': nat -> Env, n: nat)
    requires AllBelow(SelectsAt(job, db, envs), n)
    requires forall i: nat :: i < n ==> envs(i) == envs'(i)
    ensures AllBelow(SelectsAt(job, db, envs'), n)
  {
    forall i: nat | i < n && SelectsAt(job, db, envs)(i)
      ensures SelectsAt(job, db, envs')(i)
    {
      RunAgrees(job, db, envs, envs', i);
    }
    BelowAgrees(SelectsAt(job, db, envs), SelectsAt(job, db, envs'), n);
  }

  /** One more table's order changes nothing about the tables before it. */
  lemma ReachNext(job: Job, db: Db, envs: nat -> Env, orders: seq<seq<Key>>, run: Run, order: seq<Key>,
      res: TableResult)
    requires |orders| < |TABLES| && Reached(job, db, envs, orders, run) && !run.failed
    requires Selects(order, SelectPoint(run.db, envs(|orders|).(order := order)), TABLES[|orders|])
    requires res == TablePass(job, run.db, envs(|orders|).(order := order))
    ensures Reached(job, db, envs, orders + [order], Absorb(run, res))
  {
    var n, less, more := |orders|, WithOrders(envs, orders), WithOrders(envs, orders + [order]);
    RunAgrees(job, db, less, more, n);
    SelectsAgree(job, db, less, more, n);
    StepReaches(job, db, more, n, run, res);
    assert SelectsAt(job, db, more)(n);
  }

  lemma StepReaches(job: Job, db: Db, envs: nat -> Env, n: nat, run: Run, res: TableResult)
    requires run == RunAfter(job, db, envs, n) && !run.failed && res == TablePass(job, run.db, envs(n))
    ensures RunAfter(job, db, envs, n + 1) == Absorb(run, res)
  {
    RunUnfolds(job, db, envs, n);
  }

  lemma {:induction false} Enumerate(ks: set<Key>) returns (order: seq<Key>)
    ensures Distinct(order) && forall k :: k in order <==> k in ks
  {
    if ks == {} {
      order := [];
    } else {
      var k :| k in ks;
      var rest := Enumerate(ks - {k});
      order := [k] + rest;
    }
  }

  lemma {:induction false} CallReaches(job: Job, db: Db, envs: nat -> Env, j: nat)
    returns (orders: seq<seq<Key>>, run: Run)
    requires j <= |TABLES|
    ensures Reached(job, db, envs, orders, run) && (run.failed || |orders| == j)
  {
    if j == 0 {
      orders, run := [], Idle(db);
    } else {
      orders, run := CallReaches(job, db, envs, j - 1);
      if !run.failed {
        orders, run := CallExtends(job, db, envs, orders, run);
      }
    }
  }

  lemma CallExtends(job: Job, db: Db, envs: nat -> Env, orders: seq<seq<Key>>, run: Run)
    returns (orders': seq<seq<Key>>, run': Run)
    requires |orders| < |TABLES| && Reached(job, db, envs, orders, run) && !run.failed
    ensures Reached(job, db, envs, orders', run') && |orders'| == |orders| + 1
  {
    var j := |orders|;
    var snap := SelectPoint(run.db, envs(j));
    var order := Enumerate(set k | k in snap && k.table == TABLES[j]);
    var res := TablePass(job, run.db, envs(j).(order := order));
    ReachNext(job, db, envs, orders, run, order, res);
    orders', run' := orders + [order], Absorb(run, res);
  }

  lemma CompleteCall(job: Job, db: Db, envs: nat -> Env) returns (orders: seq<seq<Key>>)
    ensures Complete(job, db, WithOrders(envs, orders))
  {
    var run;
    orders, run := CallReaches(job, db, envs, |TABLES|);
    var r := if run.failed then Raise(DecryptionError) else Ok(RotationResult(run.rotated, run.skipped));
    ReachedEnd(job, db, envs, orders, run, run.db, r);
  }

  lemma OrdersKeepGaps(envs: nat -> Env, orders: seq<seq<Key>>, j: nat)
    ensures WithOrders(envs, orders)(j).gaps == envs(j).gaps
  {
  }

  /** Whatever keys, database and other writers, there is such a call: `Complete` is never an empty condition. */
  lemma CompleteCallsExist(job: Job, db: Db, envs: nat -> Env)
    ensures exists orders :: Complete(job, db, WithOrders(envs, orders))
  {
    var orders := CompleteCall(job, db, envs);
  }

  /** The call over `db` with these row orders leaves `db'` and returns or raises `r`. */
  ghost predicate Answers(job: Job, db: Db, envs: nat -> Env, orders: seq<seq<Key>>, db': Db,
      r: Result<RotationResult>)
  {
    && Complete(job, db, WithOrders(envs, orders))
    && Yields(Rotation(job, db, WithOrders(envs, orders)), db', r)
  }

  predicate Yields(run: Run, db': Db, r: Result<RotationResult>) {
    && db' == run.db
    && r == if run.failed then Raise(DecryptionError) else Ok(RotationResult(run.rotated, run.skipped))
  }

  lemma ReachedEnd(job: Job, db: Db, envs: nat -> Env, orders: seq<seq<Key>>, run: Run, db': Db,
      r: Result<RotationResult>)
    requires Reached(job, db, envs, orders, run) && (run.failed || |orders| == |TABLES|)
    requires Yields(run, db', r)
    ensures Answers(job, db, envs, orders, db', r)
  {
    var full := WithOrders(envs, orders);
    if run.failed {
      FailedRunIsFinal(job, db, full, |orders|, |TABLES|);
      FailedRunIsComplete(job, db, full, |orders|);
    } else {
      forall j | 0 <= j < |TABLES|
        ensures StepSelects(full(j), RunAfter(job, db, full, j), j)
      {
        Below(SelectsAt(job, db, full), |TABLES|, j);
      }
    }
  }

  lemma FailedRunIsFinal(job: Job, db: Db, envs: nat -> Env, j: nat, n: nat)
    requires j <= n && RunAfter(job, db, envs, j).failed
    ensures RunAfter(job, db, envs, n) == RunAfter(job, db, envs, j)
  {
    var stopped := RunAfter(job, db, envs, j);
    forall i: nat | j <= i < n
      ensures RunBody(job, envs)(stopped, i) == stopped
    {
      assert RunStep(job, envs(i), stopped) == stopped;
    }
    IterateStops(RunBody(job, envs), Idle(db), j, n);
  }

  lemma FailedRunIsComplete(job: Job, db: Db, envs: nat -> Env, j: nat)
    requires j <= |TABLES| && AllBelow(SelectsAt(job, db, envs), j) && RunAfter(job, db, envs, j).failed
    ensures Complete(job, db, envs)
  {
    forall n | 0 <= n < |TABLES|
      ensures StepSelects(envs(n), RunAfter(job, db, envs, n), n)
    {
      if n < j {
        Below(SelectsAt(job, db, envs), j, n);
      } else {
        FailedRunIsFinal(job, db, envs, j, n);
      }
    }
  }
}
