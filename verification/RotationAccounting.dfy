/** What the counts mean: every fetched row is in one class, every miss is charged to a writer. */
module RotationAccounting {
  import opened Results
  import opened Backends
  import opened TypeDecorator
  import opened RotationModel
  import opened RotationSafety

  // ---- Classes of fetched rows ----

  /** A stored value that makes the pass raise when its turn comes. */
  predicate Bad(job: Job, c: Option<string>) {
    && c.Some?
    && (ParseCell(c.value).Raise? ||
        (HasId(c, job.source.id) && job.source.dec(ParseCell(c.value).value.ciphertext).Raise?))
  }

  predicate Other(job: Job, c: Option<string>) {
    c.Some? && ParseCell(c.value).Ok? && !HasId(c, job.source.id)
  }

  /** The action depends on the stored value alone, given a backend that can encrypt. */
  lemma PlanClass(job: Job, c: Option<string>, r: Entropy)
    requires Sound(job.target)
    ensures PlanRow(job, c, r).KeepNull? <==> c.None?
    ensures PlanRow(job, c, r).KeepOther? <==> Other(job, c)
    ensures PlanRow(job, c, r).Abort? <==> Bad(job, c)
    ensures PlanRow(job, c, r).Replace? <==> HasId(c, job.source.id) && !Bad(job, c)
  {
    if HasId(c, job.source.id) {
      var got := job.source.dec(ParseCell(c.value).value.ciphertext);
      if got.Ok? {
        assert Opens(job.target, got.value, r);
      }
    }
  }

  /** `plan` decides each fetched row by the class of its stored value. */
  ghost predicate Classifies(job: Job, snap: Db, env: Env, plan: seq<Action>) {
    && |plan| == |env.order|
    && forall j :: 0 <= j < |plan| ==> ClassifiesRow(job, Fetched(snap, env.order[j]).cell, plan[j])
  }

  ghost predicate ClassifiesRow(job: Job, c: Option<string>, action: Action) {
    && (action.KeepNull? <==> c.None?)
    && (action.KeepOther? <==> Other(job, c))
    && (action.Abort? <==> Bad(job, c))
    && (action.Replace? <==> HasId(c, job.source.id) && !Bad(job, c))
  }

  lemma PlanClassifies(job: Job, snap: Db, env: Env)
    requires Sound(job.target)
    ensures Classifies(job, snap, env, Plan(job, snap, env))
  {
    forall j | 0 <= j < |env.order|
      ensures ClassifiesRow(job, Fetched(snap, env.order[j]).cell, Plan(job, snap, env)[j])
    {
      PlanClass(job, Fetched(snap, env.order[j]).cell, env.draws(j));
    }
  }

  // ---- When a pass raises ----

  ghost predicate Aborts(plan: seq<Action>, i: nat)
    requires i <= |plan|
  {
    exists j :: 0 <= j < i && plan[j].Abort?
  }

  lemma AfterFailsIff(snap: Db, env: Env, plan: seq<Action>, i: nat)
    requires i <= |plan| == |env.order|
    ensures After(snap, env, plan, i).failed <==> Aborts(plan, i)
  {
    var inv := (st: Pass, n: nat) => n <= |plan| && (st.failed <==> Aborts(plan, n));
    assert inv(Begin(snap), 0);
    forall st, j: nat | j < |plan| && inv(st, j)
      ensures inv(Step(snap, env, plan[j], st, j), j + 1)
    {
      StepFails(snap, env, plan[j], st, j);
      assert Aborts(plan, j + 1) <==> Aborts(plan, j) || plan[j].Abort?;
    }
    PassInduction(snap, env, plan, inv, i);
    assert inv(After(snap, env, plan, i), i);
  }

  lemma StepFails(snap: Db, env: Env, action: Action, st: Pass, i: nat)
    requires i < |env.order|
    ensures Step(snap, env, action, st, i).failed <==> st.failed || action.Abort?
  {
  }

  /** Wherever it sits in the table, one bad value among the fetched ones fails the pass, and only that does. */
  lemma PassFailsIff(job: Job, db: Db, env: Env, t: Table)
    requires Sound(job.target) && Selects(env.order, SelectPoint(db, env), t)
    ensures var snap := SelectPoint(db, env);
            TablePass(job, db, env).failed <==> exists k :: k in snap && k.table == t && Bad(job, snap[k].cell)
  {
    var snap := SelectPoint(db, env);
    var plan := Plan(job, snap, env);
    AfterFailsIff(snap, env, plan, |env.order|);
    PlanClassifies(job, snap, env);
    BadRowAborts(job, snap, env, plan, t);
  }

  lemma BadRowAborts(job: Job, snap: Db, env: Env, plan: seq<Action>, t: Table)
    requires Classifies(job, snap, env, plan) && Selects(env.order, snap, t)
    ensures Aborts(plan, |plan|) <==> exists k :: k in snap && k.table == t && Bad(job, snap[k].cell)
  {
    if j :| 0 <= j < |plan| && plan[j].Abort? {
      assert env.order[j] in env.order;
      assert ClassifiesRow(job, Fetched(snap, env.order[j]).cell, plan[j]);
    }
    if k :| k in snap && k.table == t && Bad(job, snap[k].cell) {
      assert k in env.order;
      var j :| 0 <= j < |env.order| && env.order[j] == k;
      assert ClassifiesRow(job, Fetched(snap, env.order[j]).cell, plan[j]);
    }
  }

  /** A write of rotation in table `t`, when `n` tables have committed: sessions come first and events last. */
  predicate CommittedIn(t: Table, n: nat) {
    match t
    case Sessions => n >= 1
    case AppStates => n >= 2
    case UserStates => n >= 3
    case Events => n >= 4
  }

  /**
   A call that raises at table k has committed the first k passes in full; after the last of them
   only other writers acted on the database, so table k and the later ones carry no write of it.
   */
  lemma FailureAtomicity(job: Job, db: Db, envs: nat -> Env)
    requires Complete(job, db, envs) && Rotation(job, db, envs).failed
    ensures var run := Rotation(job, db, envs);
            && run.tables < 4
            && StoppedAt(job, envs, RunAfter(job, db, envs, run.tables), run)
            && Selects(envs(run.tables).order, SelectPoint(RunAfter(job, db, envs, run.tables).db, envs(run.tables)),
                       [Sessions, AppStates, UserStates, Events][run.tables])
    ensures var run := Rotation(job, db, envs);
            forall k :: k in run.db && !CommittedIn(k.table, run.tables) ==>
              k in Replay(db, run.trace) && run.db[k] == Replay(db, run.trace)[k]
  {
    var run := Rotation(job, db, envs);
    RunOnlyReencrypts(job, db, envs, |TABLES|);
    UncommittedUntouched(job, Replay(db, run.trace), run.db, run.tables);
    FailureLocated(job, db, envs, |TABLES|);
    assert StepSelects(envs(run.tables), RunAfter(job, db, envs, run.tables), run.tables);
  }

  lemma UncommittedUntouched(job: Job, shadow: Db, db: Db, n: nat)
    requires OnlyReencrypts(job, shadow, db, 0, n)
    ensures forall k :: k in db && !CommittedIn(k.table, n) ==> k in shadow && db[k] == shadow[k]
  {
    forall k | k in db && !CommittedIn(k.table, n)
      ensures k in shadow && db[k] == shadow[k]
    {
      assert SameOrReencrypted(job, shadow[k], db[k], 0 <= TableIndex(k.table) < n);
    }
  }

  /** `run` raised in the pass after `p`, which it left rolled back to the writers' own steps. */
  ghost predicate StoppedAt(job: Job, envs: nat -> Env, p: Run, run: Run) {
    && !p.failed && p.tables == run.tables
    && run.rotated == p.rotated && run.skipped == p.skipped
    && var t := TablePass(job, p.db, envs(p.tables));
       t.failed && run.trace == p.trace + t.trace && run.db == Replay(p.db, t.trace)
  }

  lemma StopsHere(job: Job, envs: nat -> Env, p: Run, j: nat)
    requires j < |TABLES| && StepSelects(envs(j), p, j) && !p.failed && p.tables == j
    ensures RunStep(job, envs(j), p).failed ==>
              RunStep(job, envs(j), p).tables == j && StoppedAt(job, envs, p, RunStep(job, envs(j), p))
  {
    TablePassSafe(job, p.db, envs(j), j);
  }

  /** `p` is after `n` tables; if it has raised, at the table it says. */
  ghost predicate Located(job: Job, db: Db, envs: nat -> Env, p: Run, n: nat) {
    if p.failed then p.tables < n && StoppedAt(job, envs, RunAfter(job, db, envs, p.tables), p)
    else p.tables == n && p == RunAfter(job, db, envs, n)
  }

  lemma LocatedNext(job: Job, db: Db, envs: nat -> Env, p: Run, i: nat)
    requires i < |TABLES| && StepSelects(envs(i), p, i) && Located(job, db, envs, p, i)
    ensures Located(job, db, envs, RunStep(job, envs(i), p), i + 1)
  {
    if !p.failed {
      StopsHere(job, envs, p, i);
      assert RunBody(job, envs)(p, i) == RunStep(job, envs(i), p);
    }
  }

  lemma FailureLocated(job: Job, db: Db, envs: nat -> Env, j: nat)
    requires Complete(job, db, envs) && j <= |TABLES| && RunAfter(job, db, envs, j).failed
    ensures var run := RunAfter(job, db, envs, j);
            run.tables < j && StoppedAt(job, envs, RunAfter(job, db, envs, run.tables), run)
  {
    var inv := (p: Run, n: nat) => Located(job, db, envs, p, n);
    assert inv(Idle(db), 0);
    forall p, i: nat | i < |TABLES| && inv(p, i) && StepSelects(envs(i), p, i)
      ensures inv(RunStep(job, envs(i), p), i + 1)
    {
      LocatedNext(job, db, envs, p, i);
    }
    RunInduction(job, db, envs, inv, j);
    assert inv(RunAfter(job, db, envs, j), j);
  }

  // ---- Accounting of a pass ----

  /** Which of the two sets of keys each of the first `i` rows went to, if any. */
  ghost predicate Sorted(env: Env, plan: seq<Action>, hits: set<Key>, misses: set<Key>, i: nat) {
    && |plan| == |env.order|
    && (forall j :: 0 <= j < i && j < |plan| ==> (plan[j].Replace? <==> env.order[j] in hits || env.order[j] in misses))
    && (forall j :: i <= j < |env.order| ==> env.order[j] !in hits && env.order[j] !in misses)
    && (forall k :: k in hits || k in misses ==> k in env.order)
    && hits !! misses
  }

  ghost predicate Counted(st: Pass, t: Table) {
    && st.rotated == |st.undo.Keys|
    && st.skipped == (if t != Events then |st.missed| else 0)
  }

  ghost predicate Accounted(env: Env, plan: seq<Action>, st: Pass, t: Table, i: nat) {
    Sorted(env, plan, st.undo.Keys, st.missed, i) && Counted(st, t)
  }

  lemma ActSorts(env: Env, plan: seq<Action>, st: Pass, i: nat, seen: Row)
    requires i < |plan| && Sorted(env, plan, st.undo.Keys, st.missed, i) && Distinct(env.order)
    ensures var st' := Act(st, env.order[i], seen, plan[i]);
            Sorted(env, plan, st'.undo.Keys, st'.missed, i + 1)
  {
    SortNext(env, plan, st.undo.Keys, st.missed, i);
  }

  lemma SortNext(env: Env, plan: seq<Action>, hits: set<Key>, misses: set<Key>, i: nat)
    requires i < |plan| && Sorted(env, plan, hits, misses, i) && Distinct(env.order)
    ensures !plan[i].Replace? ==> Sorted(env, plan, hits, misses, i + 1)
    ensures plan[i].Replace? ==> Sorted(env, plan, hits + {env.order[i]}, misses, i + 1)
    ensures plan[i].Replace? ==> Sorted(env, plan, hits, misses + {env.order[i]}, i + 1)
  {
  }

  lemma ActCounts(st: Pass, t: Table, k: Key, seen: Row, action: Action)
    requires Counted(st, t) && k.table == t && k !in st.undo.Keys && k !in st.missed
    ensures Counted(Act(st, k, seen, action), t)
  {
    assert |st.undo.Keys + {k}| == |st.undo.Keys| + 1;
    assert |st.missed + {k}| == |st.missed| + 1;
  }

  lemma StepAccounts(snap: Db, env: Env, plan: seq<Action>, st: Pass, t: Table, i: nat)
    requires i < |plan| == |env.order| && Distinct(env.order) && env.order[i].table == t
    requires st.failed || Accounted(env, plan, st, t, i)
    ensures var st' := Step(snap, env, plan[i], st, i);
            st'.failed || Accounted(env, plan, st', t, i + 1)
  {
    if !st.failed {
      var g, seen := Gap(st, GapAt(env, i + 1)), Fetched(snap, env.order[i]);
      ActSorts(env, plan, g, i, seen);
      ActCounts(g, t, env.order[i], seen, plan[i]);
    }
  }

  lemma BeginAccounted(snap: Db, env: Env, plan: seq<Action>, t: Table)
    requires |plan| == |env.order|
    ensures Accounted(env, plan, Begin(snap), t, 0)
  {
  }

  lemma AfterAccounts(snap: Db, env: Env, plan: seq<Action>, t: Table, i: nat)
    requires i <= |plan| == |env.order| && Selects(env.order, snap, t)
    requires !After(snap, env, plan, i).failed
    ensures Accounted(env, plan, After(snap, env, plan, i), t, i)
  {
    var inv := (st: Pass, n: nat) => st.failed || Accounted(env, plan, st, t, n);
    BeginAccounted(snap, env, plan, t);
    forall st, j: nat | j < |plan| && inv(st, j)
      ensures inv(Step(snap, env, plan[j], st, j), j + 1)
    {
      assert env.order[j] in env.order;
      StepAccounts(snap, env, plan, st, t, j);
    }
    PassInduction(snap, env, plan, inv, i);
    assert inv(After(snap, env, plan, i), i);
  }

  function RowsOf(snap: Db, t: Table): set<Key> {
    set k | k in snap && k.table == t
  }

  function NullRows(snap: Db, t: Table): set<Key> {
    set k | k in snap && k.table == t && snap[k].cell.None?
  }

  function OtherRows(job: Job, snap: Db, t: Table): set<Key> {
    set k | k in snap && k.table == t && Other(job, snap[k].cell)
  }

  /**
   The classes of a pass that commits: rewritten, guard missed, NULL, other backend. They are
   disjoint, cover what the SELECT fetched, and their sizes are the counts returned; a missed
   event row is counted nowhere.
   */
  ghost predicate FullyAccounted(job: Job, snap: Db, t: Table, res: TableResult) {
    && RowsOf(snap, t) == res.rewritten + res.missed + NullRows(snap, t) + OtherRows(job, snap, t)
    && res.rewritten !! res.missed !! NullRows(snap, t) !! OtherRows(job, snap, t)
    && res.rotated == |res.rewritten|
    && res.skipped == (if t != Events then |res.missed| else 0)
    && |RowsOf(snap, t)| == res.rotated + |res.missed| + |NullRows(snap, t)| + |OtherRows(job, snap, t)|
    && (forall k :: k in res.rewritten || k in res.missed ==> k in snap && HasId(snap[k].cell, job.source.id))
  }

  lemma PassAccounting(job: Job, db: Db, env: Env, t: Table)
    requires Sound(job.target) && Selects(env.order, SelectPoint(db, env), t)
    requires !TablePass(job, db, env).failed
    ensures FullyAccounted(job, SelectPoint(db, env), t, TablePass(job, db, env))
  {
    var snap := SelectPoint(db, env);
    var plan := Plan(job, snap, env);
    var st := After(snap, env, plan, |plan|);
    AfterAccounts(snap, env, plan, t, |plan|);
    AfterFailsIff(snap, env, plan, |plan|);
    PlanClassifies(job, snap, env);
    ReplacedRows(job, snap, env, plan, st, t);
    ClassesCover(job, snap, t, st.undo.Keys, st.missed);
  }

  lemma ReplacedRows(job: Job, snap: Db, env: Env, plan: seq<Action>, st: Pass, t: Table)
    requires Classifies(job, snap, env, plan) && Selects(env.order, snap, t)
    requires Accounted(env, plan, st, t, |plan|) && !Aborts(plan, |plan|)
    ensures forall k :: k in RowsOf(snap, t) ==>
              && (k in st.undo.Keys || k in st.missed <==> HasId(snap[k].cell, job.source.id))
              && !Bad(job, snap[k].cell)
    ensures st.undo.Keys <= RowsOf(snap, t) && st.missed <= RowsOf(snap, t)
  {
    forall k | k in RowsOf(snap, t)
      ensures k in st.undo.Keys || k in st.missed <==> HasId(snap[k].cell, job.source.id)
      ensures !Bad(job, snap[k].cell)
    {
      assert k in env.order;
      var j :| 0 <= j < |plan| && env.order[j] == k;
      assert ClassifiesRow(job, Fetched(snap, env.order[j]).cell, plan[j]);
    }
  }

  lemma ClassesCover(job: Job, snap: Db, t: Table, a: set<Key>, b: set<Key>)
    requires a !! b && a <= RowsOf(snap, t) && b <= RowsOf(snap, t)
    requires forall k :: k in RowsOf(snap, t) ==>
               (k in a || k in b <==> HasId(snap[k].cell, job.source.id)) && !Bad(job, snap[k].cell)
    ensures RowsOf(snap, t) == a + b + NullRows(snap, t) + OtherRows(job, snap, t)
    ensures a !! b !! NullRows(snap, t) !! OtherRows(job, snap, t)
    ensures |RowsOf(snap, t)| == |a| + |b| + |NullRows(snap, t)| + |OtherRows(job, snap, t)|
  {
    forall k | k in RowsOf(snap, t)
      ensures k in a || k in b || k in NullRows(snap, t) || k in OtherRows(job, snap, t)
      ensures k in NullRows(snap, t) ==> k !in a && k !in b && k !in OtherRows(job, snap, t)
      ensures k in OtherRows(job, snap, t) ==> k !in a && k !in b
    {
    }
    FourDisjoint(RowsOf(snap, t), a, b, NullRows(snap, t), OtherRows(job, snap, t));
  }

  lemma FourDisjoint(all: set<Key>, a: set<Key>, b: set<Key>, c: set<Key>, d: set<Key>)
    requires a <= all && b <= all && c <= all && d <= all
    requires forall k :: k in all ==> k in a || k in b || k in c || k in d
    requires a !! b
    requires forall k :: k in all ==> (k in c ==> k !in a && k !in b && k !in d) && (k in d ==> k !in a && k !in b)
    ensures all == a + b + c + d && a !! b !! c !! d
    ensures |all| == |a| + |b| + |c| + |d|
  {
    assert all == a + b + c + d;
    assert (a + b) !! c && (a + b + c) !! d;
  }

  // ---- Interference ----

  function TouchedKeys(ws: seq<WriterStep>): set<Key> {
    set w | w in ws :: w.key
  }

  lemma TouchedPrefix(a: seq<WriterStep>, b: seq<WriterStep>)
    ensures TouchedKeys(a + b) == TouchedKeys(a) + TouchedKeys(b)
  {
  }

  lemma {:induction false} FewTouchedKeys(ws: seq<WriterStep>)
    ensures |TouchedKeys(ws)| <= |ws|
  {
    if ws != [] {
      var front, w := ws[..|ws| - 1], ws[|ws| - 1];
      FewTouchedKeys(front);
      assert ws == front + [w];
      assert TouchedKeys(ws) == TouchedKeys(front) + {w.key};
    }
  }

  /** A fetched row nobody has touched since the SELECT still passes its guard. */
  lemma UntouchedPassesGuard(job: Job, snap: Db, env: Env, st: Pass, i: nat, k: Key)
    requires PassInv(job, snap, env, st, i) && k in snap && k !in st.undo && k !in TouchedKeys(st.since)
    ensures GuardHolds(st.db, k, snap[k])
  {
    assert !Touched(st.since, k);
    ReplayFrame(snap, st.since, k);
    assert k in Rollback(st);
  }

  lemma StepCharges(job: Job, snap: Db, env: Env, st: Pass, i: nat, action: Action)
    requires PassInv(job, snap, env, st, i) && i < |env.order| && env.order[i] in snap
    requires st.missed <= TouchedKeys(st.since)
    ensures var st' := Step(snap, env, action, st, i);
            st'.missed <= TouchedKeys(st'.since)
  {
    var k, g := env.order[i], Gap(st, GapAt(env, i + 1));
    GapKeepsInv(job, snap, env, st, i, GapAt(env, i + 1));
    TouchedPrefix(st.since, Unblocked(GapAt(env, i + 1), st.undo.Keys));
    if k !in TouchedKeys(g.since) {
      UntouchedPassesGuard(job, snap, env, g, i, k);
    }
  }

  lemma MissesAreCharged(job: Job, snap: Db, env: Env, plan: seq<Action>, t: Table, i: nat)
    requires Faithful(job, snap, env, plan) && Selects(env.order, snap, t) && i <= |plan|
    ensures After(snap, env, plan, i).missed <= TouchedKeys(After(snap, env, plan, i).since)
  {
    var inv := (st: Pass, n: nat) => PassInv(job, snap, env, st, n) && st.missed <= TouchedKeys(st.since);
    BeginKeepsInv(job, snap, env);
    forall st, j: nat | j < |plan| && inv(st, j)
      ensures inv(Step(snap, env, plan[j], st, j), j + 1)
    {
      assert env.order[j] in env.order;
      StepKeepsInv(job, snap, env, st, j, plan[j]);
      StepCharges(job, snap, env, st, j, plan[j]);
    }
    PassInduction(snap, env, plan, inv, i);
    assert inv(After(snap, env, plan, i), i);
  }

  /** Every row of a pass whose guard missed was touched by a writer step that ran after the SELECT. */
  lemma MissesNeedInterference(job: Job, db: Db, env: Env, t: Table)
    requires Selects(env.order, SelectPoint(db, env), t)
    ensures var res, since := TablePass(job, db, env), LastPoint(job, db, env).since;
            && res.missed <= TouchedKeys(since)
            && |res.missed| <= |since|
            && res.trace == GapAt(env, 0) + since
  {
    var snap := SelectPoint(db, env);
    var plan := Plan(job, snap, env);
    PlanIsFaithful(job, snap, env);
    MissesAreCharged(job, snap, env, plan, t, |plan|);
    var st := After(snap, env, plan, |plan|);
    var since := LastPoint(job, db, env).since;
    assert TouchedKeys(st.since) <= TouchedKeys(since);
    FewTouchedKeys(since);
    SubsetSize(st.missed, TouchedKeys(since));
  }

  lemma {:induction false} SubsetSize<T>(a: set<T>, b: set<T>)
    requires a <= b
    ensures |a| <= |b|
  {
    if a != {} {
      var x :| x in a;
      SubsetSize(a - {x}, b - {x});
    }
  }

  // ---- The counts of a call ----

  function Timed(ks: set<Key>): set<Key> {
    set k | k in ks && k.table != Events
  }

  lemma TimedUnion(a: set<Key>, b: set<Key>, t: Table)
    requires forall k :: k in a ==> k.table != t
    requires forall k :: k in b ==> k.table == t
    ensures Timed(a + b) == Timed(a) + Timed(b)
    ensures |Timed(a + b)| == |Timed(a)| + (if t != Events then |b| else 0)
    ensures |a + b| == |a| + |b|
  {
    assert a !! b && Timed(a) !! Timed(b);
    assert Timed(b) == if t != Events then b else {};
  }

  ghost predicate PassCounted(res: TableResult, t: Table) {
    && res.rotated == |res.rewritten|
    && res.skipped == (if t != Events then |res.missed| else 0)
    && (forall k :: k in res.rewritten || k in res.missed ==> k.table == t)
    && res.missed <= TouchedKeys(res.trace)
  }

  lemma PassCounts(job: Job, db: Db, env: Env, t: Table)
    requires Sound(job.target) && Selects(env.order, SelectPoint(db, env), t)
    requires !TablePass(job, db, env).failed
    ensures PassCounted(TablePass(job, db, env), t)
  {
    PassAccounting(job, db, env, t);
    MissesNeedInterference(job, db, env, t);
    TouchedPrefix(GapAt(env, 0), LastPoint(job, db, env).since);
    var res := TablePass(job, db, env);
    assert res.rewritten <= RowsOf(SelectPoint(db, env), t) && res.missed <= RowsOf(SelectPoint(db, env), t);
  }

  ghost predicate RunAccounted(run: Run, j: nat) {
    && run.rotated == |run.rewritten|
    && run.skipped == |Timed(run.missed)|
    && (forall k :: k in run.rewritten || k in run.missed ==> TableIndex(k.table) < j)
    && run.missed <= TouchedKeys(run.trace)
  }

  lemma RunStepAccounts(job: Job, env: Env, p: Run, j: nat)
    requires Sound(job.target) && j < |TABLES| && StepSelects(env, p, j) && !p.failed
    requires RunAccounted(p, j) && !TablePass(job, p.db, env).failed
    ensures RunAccounted(RunStep(job, env, p), j + 1)
  {
    PassCounts(job, p.db, env, TABLES[j]);
    CountsAdd(p, TablePass(job, p.db, env), j);
  }

  lemma CountsAdd(p: Run, res: TableResult, j: nat)
    requires j < |TABLES| && RunAccounted(p, j) && PassCounted(res, TABLES[j])
    ensures |p.rewritten + res.rewritten| == p.rotated + res.rotated
    ensures |Timed(p.missed + res.missed)| == p.skipped + res.skipped
    ensures p.missed + res.missed <= TouchedKeys(p.trace + res.trace)
    ensures forall k :: k in p.rewritten + res.rewritten || k in p.missed + res.missed ==> TableIndex(k.table) < j + 1
  {
    TimedUnion(p.missed, res.missed, TABLES[j]);
    TimedUnion(p.rewritten, res.rewritten, TABLES[j]);
    TouchedPrefix(p.trace, res.trace);
  }

  lemma AccountedNext(job: Job, env: Env, p: Run, j: nat)
    requires Sound(job.target) && j < |TABLES| && StepSelects(env, p, j) && (p.failed || RunAccounted(p, j))
    ensures RunStep(job, env, p).failed || RunAccounted(RunStep(job, env, p), j + 1)
  {
    if !p.failed && !TablePass(job, p.db, env).failed {
      RunStepAccounts(job, env, p, j);
    }
  }

  /** The totals returned are numbers of rows: rewritten ones, and missed ones outside `events`. */
  lemma RunAccounting(job: Job, db: Db, envs: nat -> Env, j: nat)
    requires Sound(job.target) && Complete(job, db, envs) && j <= |TABLES| && !RunAfter(job, db, envs, j).failed
    ensures RunAccounted(RunAfter(job, db, envs, j), j)
  {
    var inv := (p: Run, n: nat) => p.failed || RunAccounted(p, n);
    assert inv(Idle(db), 0) by {
      assert Timed({}) == {};
    }
    forall p, i: nat | i < |TABLES| && inv(p, i) && StepSelects(envs(i), p, i)
      ensures inv(RunStep(job, envs(i), p), i + 1)
    {
      AccountedNext(job, envs(i), p, i);
    }
    RunInduction(job, db, envs, inv, j);
    assert inv(RunAfter(job, db, envs, j), j);
  }

  /** No more rows are skipped in a call than writer steps ran during it. */
  lemma SkipsNeedInterference(job: Job, db: Db, envs: nat -> Env)
    requires Sound(job.target) && Complete(job, db, envs) && !Rotation(job, db, envs).failed
    ensures Rotation(job, db, envs).skipped <= |Rotation(job, db, envs).trace|
  {
    var run := Rotation(job, db, envs);
    RunAccounting(job, db, envs, |TABLES|);
    SubsetSize(Timed(run.missed), TouchedKeys(run.trace));
    FewTouchedKeys(run.trace);
  }
}
