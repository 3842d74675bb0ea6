/**
 rotation.py as a protocol on shared state: what each statement sent to the database does, what
 other writers may do between two of them, and what a transaction's rollback undoes.
 One table's transaction is `TablePass`, the whole call is `RunAfter(.., 4)`.
 */
module RotationModel {
  import opened Results
  import opened Backends
  import opened TypeDecorator
  import opened RevisionMarker
  import opened Loops

  // ---- The database ----

  datatype Table = Sessions | AppStates | UserStates | Events

  /** The order in which `_TABLE_SPECS` lists them. */
  const TABLES: seq<Table> := [Sessions, AppStates, UserStates, Events]

  function TableIndex(t: Table): (i: nat)
    ensures i < |TABLES| && TABLES[i] == t
    ensures forall j :: 0 <= j < |TABLES| && TABLES[j] == t ==> j == i
  {
    match t
    case Sessions => 0
    case AppStates => 1
    case UserStates => 2
    case Events => 3
  }

  predicate HasUpdateTime(t: Table) { t != Events }

  /** A row's table and the values of its primary-key columns. */
  datatype Key = Key(table: Table, pk: seq<string>)

  /** The encrypted column, update_time, and every column rotation never names. */
  datatype Row = Row(cell: Option<string>, updateTime: DateTime, others: seq<string>)

  type Db = map<Key, Row>

  // ---- Other writers ----

  datatype WriterStep =
    | Insert(key: Key, row: Row)
    | Delete(key: Key)
    | Rewrite(key: Key, cell: Option<string>, updateTime: DateTime)
    | Touch(key: Key, updateTime: DateTime)

  function Apply(db: Db, w: WriterStep): Db {
    match w
    case Insert(k, row) => if k in db then db else db[k := row]
    case Delete(k) => db - {k}
    case Rewrite(k, c, t) => if k in db then db[k := db[k].(cell := c, updateTime := t)] else db
    case Touch(k, t) => if k in db then db[k := db[k].(updateTime := t)] else db
  }

  function Replay(db: Db, ws: seq<WriterStep>): Db {
    if ws == [] then db else Apply(Replay(db, ws[..|ws| - 1]), ws[|ws| - 1])
  }

  /** The steps that are not held up by a row lock; a held-up step runs in some later gap instead. */
  function Unblocked(ws: seq<WriterStep>, locks: set<Key>): seq<WriterStep> {
    if ws == [] then [] else
      Unblocked(ws[..|ws| - 1], locks) + if ws[|ws| - 1].key in locks then [] else [ws[|ws| - 1]]
  }

  // ---- One row ----

  datatype Job = Job(source: Backend, target: Backend)

  datatype Action = KeepNull | KeepOther | Abort | Replace(text: string)

  function SyncReencrypt(ct: bytes, job: Job, r: Entropy): Result<bytes> {
    var p :- job.source.dec(ct);
    job.target.enc(p, r)
  }

  /** What the loop body decides from the fetched value, before it touches the database. */
  function PlanRow(job: Job, cell: Option<string>, r: Entropy): Action {
    match cell
    case None => KeepNull
    case Some(text) =>
      match ParseCell(text)
      case Raise(_) => Abort
      case Ok(e) =>
        if e.id != job.source.id then KeepOther
        else
          match SyncReencrypt(e.ciphertext, job, r)
          case Raise(_) => Abort
          case Ok(ct) => Replace(EncodeCell(job.target.id, ct))
  }

  // ---- One table's transaction, from its SELECT on ----

  /**
   `undo` holds the rows rotation has written and not committed, as they were: exactly the
   locked rows. `since` are the writer steps that ran since the SELECT, `missed` the rows whose
   guarded UPDATE matched nothing.
   */
  datatype Pass = Pass(
    db: Db, undo: Db, since: seq<WriterStep>,
    rotated: nat, skipped: nat, missed: set<Key>, failed: bool)

  /** What surrounds one pass: writers in the gap before each statement, entropy per row, row order. */
  datatype Env = Env(gaps: seq<seq<WriterStep>>, draws: nat -> Entropy, order: seq<Key>)

  /** The steps of gap `i`; a schedule that names no more gaps has no more writers. */
  function GapAt(env: Env, i: nat): seq<WriterStep> {
    if i < |env.gaps| then env.gaps[i] else []
  }

  function Gap(st: Pass, ws: seq<WriterStep>): Pass {
    var run := Unblocked(ws, st.undo.Keys);
    st.(db := Replay(st.db, run), since := st.since + run)
  }

  predicate GuardHolds(db: Db, k: Key, seen: Row) {
    && k in db
    && db[k].cell == seen.cell
    && (HasUpdateTime(k.table) ==> db[k].updateTime == seen.updateTime)
  }

  function UpdateCell(db: Db, k: Key, text: string): Db
    requires k in db
  {
    db[k := db[k].(cell := Some(text))]
  }

  /** The undo log keeps what a row was before the transaction's first write to it. */
  function Lock(undo: Db, k: Key, row: Row): (undo': Db)
    ensures undo'.Keys == undo.Keys + {k}
  {
    if k in undo then undo else undo[k := row]
  }

  /** The rest of the loop body: the guarded UPDATE and the counters. */
  function Act(st: Pass, k: Key, seen: Row, action: Action): Pass {
    match action
    case KeepNull => st
    case KeepOther => st
    case Abort => st.(failed := true)
    case Replace(text) =>
      if GuardHolds(st.db, k, seen) then
        st.(db := UpdateCell(st.db, k, text), undo := Lock(st.undo, k, st.db[k]), rotated := st.rotated + 1)
      else
        st.(skipped := st.skipped + (if HasUpdateTime(k.table) then 1 else 0), missed := st.missed + {k})
  }

  function Fetched(snap: Db, k: Key): Row {
    if k in snap then snap[k] else Row(None, DateTime(1, 1, 1, 0, 0, 0, 0, None), [])
  }

  /** The decisions for all fetched rows; none of them depends on the database any more. */
  function Plan(job: Job, snap: Db, env: Env): (plan: seq<Action>)
    ensures |plan| == |env.order|
  {
    seq(|env.order|, j requires 0 <= j < |env.order| =>
      PlanRow(job, Fetched(snap, env.order[j]).cell, env.draws(j)))
  }

  /** One turn of the loop: whatever writers do before row `i`, then its guarded UPDATE; nothing once it has raised. */
  function Step(snap: Db, env: Env, action: Action, st: Pass, i: nat): Pass {
    if st.failed || i >= |env.order| then st
    else Act(Gap(st, GapAt(env, i + 1)), env.order[i], Fetched(snap, env.order[i]), action)
  }

  /** Right after the SELECT. */
  function Begin(snap: Db): Pass {
    Pass(snap, map[], [], 0, 0, {}, false)
  }

  function PassBody(snap: Db, env: Env, plan: seq<Action>): (Pass, nat) -> Pass {
    (st: Pass, i: nat) => if i < |plan| then Step(snap, env, plan[i], st, i) else st
  }

  /** After the first `i` fetched rows. */
  function After(snap: Db, env: Env, plan: seq<Action>, i: nat): Pass {
    Iterate(PassBody(snap, env, plan), Begin(snap), i)
  }

  function Rollback(st: Pass): Db { st.db + st.undo }

  /** What the SELECT of a pass over `db` sees: writers may still run before it. */
  function SelectPoint(db: Db, env: Env): Db { Replay(db, GapAt(env, 0)) }

  function LastPoint(job: Job, db: Db, env: Env): Pass {
    var snap := SelectPoint(db, env);
    Gap(After(snap, env, Plan(job, snap, env), |env.order|), GapAt(env, |env.order| + 1))
  }

  datatype TableResult = TableResult(
    db: Db, trace: seq<WriterStep>, rotated: nat, skipped: nat,
    rewritten: set<Key>, missed: set<Key>, failed: bool)

  /** `async with engine.begin()`: commit, or roll back if the body raised. */
  function TablePass(job: Job, db: Db, env: Env): TableResult {
    var st := LastPoint(job, db, env);
    TableResult(
      if st.failed then Rollback(st) else st.db,
      GapAt(env, 0) + st.since, st.rotated, st.skipped, st.undo.Keys, st.missed, st.failed)
  }

  /** The SELECT returns every row of its table once, in any order. */
  ghost predicate Selects(order: seq<Key>, snap: Db, t: Table) {
    && (forall i, j :: 0 <= i < j < |order| ==> order[i] != order[j])
    && (forall k :: k in order <==> k in snap && k.table == t)
  }

  // ---- The whole call ----

  /** `tables` transactions have committed; `rewritten` and `missed` collect the rows behind the counts. */
  datatype Run = Run(
    db: Db, trace: seq<WriterStep>, rotated: nat, skipped: nat,
    rewritten: set<Key>, missed: set<Key>, failed: bool, tables: nat)

  /** The totals after one more transaction, or where the call stops if that raised. */
  function Absorb(p: Run, t: TableResult): Run {
    if t.failed then p.(db := t.db, trace := p.trace + t.trace, failed := true)
    else Run(t.db, p.trace + t.trace, p.rotated + t.rotated, p.skipped + t.skipped,
             p.rewritten + t.rewritten, p.missed + t.missed, false, p.tables + 1)
  }

  /** One turn of the loop over `_TABLE_SPECS`. */
  function RunStep(job: Job, env: Env, p: Run): Run {
    if p.failed then p else Absorb(p, TablePass(job, p.db, env))
  }

  function Idle(db: Db): Run { Run(db, [], 0, 0, {}, {}, false, 0) }

  function RunBody(job: Job, envs: nat -> Env): (Run, nat) -> Run {
    (p: Run, j: nat) => RunStep(job, envs(j), p)
  }

  function RunAfter(job: Job, db: Db, envs: nat -> Env, j: nat): Run {
    Iterate(RunBody(job, envs), Idle(db), j)
  }

  /** rotate_encryption_keys: its result is the last state's `rotated` and `skipped`, or an error. */
  function Rotation(job: Job, db: Db, envs: nat -> Env): Run {
    RunAfter(job, db, envs, |TABLES|)
  }

  /** Every SELECT of the call that happens is a complete one. */
  ghost predicate Complete(job: Job, db: Db, envs: nat -> Env) {
    forall j :: 0 <= j < |TABLES| ==> StepSelects(envs(j), RunAfter(job, db, envs, j), j)
  }

  ghost predicate StepSelects(env: Env, p: Run, j: nat)
    requires j < |TABLES|
  {
    !p.failed ==> Selects(env.order, SelectPoint(p.db, env), TABLES[j])
  }

  // ---- Induction over the two loops ----

  lemma PassInduction(snap: Db, env: Env, plan: seq<Action>, inv: (Pass, nat) -> bool, i: nat)
    requires i <= |plan| == |env.order|
    requires inv(Begin(snap), 0)
    requires forall st, j: nat {:trigger Step(snap, env, plan[j], st, j)} ::
               j < |plan| && inv(st, j) ==> inv(Step(snap, env, plan[j], st, j), j + 1)
    ensures inv(After(snap, env, plan, i), i)
  {
    InvariantHolds(PassBody(snap, env, plan), Begin(snap), inv, i);
  }

  ghost predicate RunKeeps(job: Job, envs: nat -> Env, inv: (Run, nat) -> bool) {
    forall p, i: nat {:trigger RunStep(job, envs(i), p)} ::
      i < |TABLES| && inv(p, i) && StepSelects(envs(i), p, i) ==> inv(RunStep(job, envs(i), p), i + 1)
  }

  /** The invariant must hold at every table and not only at the one reached, since `Complete` speaks of each. */
  lemma RunInduction(job: Job, db: Db, envs: nat -> Env, inv: (Run, nat) -> bool, j: nat)
    requires Complete(job, db, envs) && j <= |TABLES|
    requires inv(Idle(db), 0) && RunKeeps(job, envs, inv)
    ensures inv(RunAfter(job, db, envs, j), j)
  {
    var state := (i: nat) => RunAfter(job, db, envs, i);
    forall i: nat | i < j && inv(state(i), i)
      ensures inv(state(i + 1), i + 1)
    {
      KeepsNext(job, db, envs, inv, i);
    }
    StatesKeep(state, inv, j);
  }

  lemma KeepsNext(job: Job, db: Db, envs: nat -> Env, inv: (Run, nat) -> bool, j: nat)
    requires Complete(job, db, envs) && j < |TABLES|
    requires RunKeeps(job, envs, inv) && inv(RunAfter(job, db, envs, j), j)
    ensures inv(RunAfter(job, db, envs, j + 1), j + 1)
  {
    var p := RunAfter(job, db, envs, j);
    assert StepSelects(envs(j), p, j);
    assert inv(RunStep(job, envs(j), p), j + 1);
    RunUnfolds(job, db, envs, j);
  }

  lemma RunUnfolds(job: Job, db: Db, envs: nat -> Env, j: nat)
    ensures RunAfter(job, db, envs, j + 1) == RunStep(job, envs(j), RunAfter(job, db, envs, j))
  {
    assert RunAfter(job, db, envs, j + 1) == RunBody(job, envs)(RunAfter(job, db, envs, j), j);
  }
}
