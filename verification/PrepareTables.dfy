/**
 services/encrypted_session.py, prepare_tables: any number of concurrent callers of one service
 as a step system. A caller's turn runs it up to its next shared read, write or await; a turn
 that cannot proceed changes nothing.
 */
module PrepareTables {
  import opened Results
  import opened Loops

  datatype Pc =
    | Start              // before the unlocked check of _tables_created
    | Waiting            // at `async with self._table_creation_lock`
    | Holding            // lock taken, before the second check
    | Creating           // inside `async with self.db_engine.begin()`
    | Marking            // create_all committed, before the flag is set
    | Releasing(ok: bool)
    | Returned
    | Raised

  /** How an await ends: as hoped, with an error, or with an error after the database has committed. */
  datatype Fate = Succeeds | Fails | FailsLate

  datatype State = State(
    created: bool,        // self._tables_created
    holder: Option<nat>,  // of self._table_creation_lock
    tables: bool,         // the tables exist
    successes: nat,       // create_all blocks left without an error
    callers: seq<Pc>)

  function Turn(s: State, i: nat, fate: Fate): (s': State)
    requires i < |s.callers|
    ensures |s'.callers| == |s.callers|
  {
    match s.callers[i]
    case Start => To(s, i, if s.created then Returned else Waiting)
    case Waiting =>
      if !fate.Succeeds? then To(s, i, Raised)
      else if s.holder.Some? then s
      else To(s.(holder := Some(i)), i, Holding)
    case Holding => To(s, i, if s.created then Releasing(true) else Creating)
    case Creating =>
      (match fate
       case Succeeds => To(s.(tables := true, successes := s.successes + 1), i, Marking)
       case Fails => To(s, i, Releasing(false))
       case FailsLate => To(s.(tables := true), i, Releasing(false)))
    case Marking => To(s.(created := true), i, Releasing(true))
    case Releasing(ok) => To(s.(holder := None), i, if ok then Returned else Raised)
    case Returned => s
    case Raised => s
  }

  function To(s: State, i: nat, pc: Pc): State
    requires i < |s.callers|
  {
    s.(callers := s.callers[i := pc])
  }

  /** A fresh service; its database may already hold the tables. */
  function Fresh(n: nat, tables: bool): State {
    State(false, None, tables, 0, seq(n, _ => Start))
  }

  /** An interleaving: who moves at each step, and how that step's await ends. */
  type Schedule = nat -> (nat, Fate)

  function Body(sched: Schedule): (State, nat) -> State {
    (s: State, t: nat) => if sched(t).0 < |s.callers| then Turn(s, sched(t).0, sched(t).1) else s
  }

  function RunOf(n: nat, tables: bool, sched: Schedule, t: nat): State {
    Iterate(Body(sched), Fresh(n, tables), t)
  }

  // ---- Safety, in every interleaving ----

  predicate Inside(pc: Pc) { pc in {Holding, Creating, Marking} || pc.Releasing? }

  predicate Finished(pc: Pc) { pc == Returned || pc == Raised }

  /** What is true of caller `i` given the shared fields. */
  predicate CallerOk(s: State, i: nat)
    requires i < |s.callers|
  {
    var pc := s.callers[i];
    && (Inside(pc) <==> s.holder == Some(i))
    && (pc in {Creating, Marking} ==> !s.created)
    && (pc == Releasing(false) ==> !s.created)
    && (pc in {Marking, Returned} || pc == Releasing(true) ==> s.tables)
    && (pc == Returned || pc == Releasing(true) ==> s.created)
  }

  predicate HolderMarks(s: State) {
    s.holder.Some? && s.holder.value < |s.callers| && s.callers[s.holder.value] == Marking
  }

  ghost predicate Inv(s: State) {
    && (forall i :: 0 <= i < |s.callers| ==> CallerOk(s, i))
    && (s.holder.Some? ==> s.holder.value < |s.callers|)
    && (s.created ==> s.tables)
    && s.successes == if s.created || HolderMarks(s) then 1 else 0
  }

  lemma TurnKeepsInv(s: State, i: nat, fate: Fate)
    requires Inv(s) && i < |s.callers|
    ensures Inv(Turn(s, i, fate))
  {
    assert CallerOk(s, i);
    var s' := Turn(s, i, fate);
    forall j | 0 <= j < |s.callers|
      ensures CallerOk(s', j)
    {
      assert CallerOk(s, j);
    }
  }

  lemma RunKeepsInv(n: nat, tables: bool, sched: Schedule, t: nat)
    ensures Inv(RunOf(n, tables, sched, t)) && |RunOf(n, tables, sched, t).callers| == n
  {
    var inv := (s: State, t: nat) => Inv(s) && |s.callers| == n;
    forall s, u: nat | inv(s, u)
      ensures inv(Body(sched)(s, u), u + 1)
    {
      if sched(u).0 < |s.callers| {
        TurnKeepsInv(s, sched(u).0, sched(u).1);
      }
    }
    InvariantHolds(Body(sched), Fresh(n, tables), inv, t);
  }

  /** At most one caller is in the DDL block, it succeeds at most once, and a normal return means tables. */
  lemma DoubleCheckedLocking(n: nat, tables: bool, sched: Schedule, t: nat)
    ensures var s := RunOf(n, tables, sched, t);
            && (forall i, j :: 0 <= i < j < |s.callers| ==> !(Inside(s.callers[i]) && Inside(s.callers[j])))
            && s.successes <= 1
            && (s.created ==> s.successes == 1)
            && (forall i :: 0 <= i < |s.callers| && s.callers[i] == Returned ==> s.tables && s.created)
  {
    RunKeepsInv(n, tables, sched, t);
    var s := RunOf(n, tables, sched, t);
    forall i | 0 <= i < |s.callers|
      ensures Inside(s.callers[i]) ==> s.holder == Some(i)
      ensures s.callers[i] == Returned ==> s.tables && s.created
    {
      assert CallerOk(s, i);
    }
  }

  /** Only caller `i` differs between the states, and it is at `pc`. */
  ghost predicate OnlyMoved(s: State, s': State, i: nat, pc: Pc)
    requires i < |s.callers|
  {
    s' == s.(callers := s.callers[i := pc])
  }

  /** With the flag set a call returns on its first turn: no lock taken, no DDL, whoever holds the lock. */
  lemma FastPath(s: State, i: nat, fate: Fate)
    requires i < |s.callers| && s.callers[i] == Start && s.created
    ensures OnlyMoved(s, Turn(s, i, fate), i, Returned)
  {
  }

  /** A caller that waited out another's creation returns without one of its own: lock, second check, release. */
  lemma SecondCheck(s: State, i: nat, fate: Fate, fate': Fate)
    requires i < |s.callers| && s.callers[i] == Waiting && s.created && s.holder.None?
    ensures OnlyMoved(s, Turn(Turn(Turn(s, i, Succeeds), i, fate), i, fate'), i, Returned)
  {
    var s1 := Turn(s, i, Succeeds);
    var s2 := Turn(s1, i, fate);
    assert s2.callers == s.callers[i := Releasing(true)];
  }

  /** A first caller alone: it creates the tables, sets the flag, and leaves the lock free. */
  lemma FirstCall(s: State, i: nat)
    requires i < |s.callers| && s.callers[i] == Start && !s.created && s.holder.None?
    ensures Alone(s, i, 6) ==
            State(true, None, true, s.successes + 1, s.callers[i := Returned])
  {
    var s1 := s.(callers := s.callers[i := Waiting]);
    var s2 := s.(holder := Some(i), callers := s.callers[i := Holding]);
    var s3 := s2.(callers := s.callers[i := Creating]);
    var s4 := s3.(tables := true, successes := s.successes + 1, callers := s.callers[i := Marking]);
    var s5 := s4.(created := true, callers := s.callers[i := Releasing(true)]);
    assert Alone(s, i, 0) == s;
    assert Alone(s, i, 1) == Turn(s, i, Succeeds) == s1;
    assert Alone(s, i, 2) == Turn(s1, i, Succeeds) == s2;
    assert Alone(s, i, 3) == Turn(s2, i, Succeeds) == s3;
    assert Alone(s, i, 4) == Turn(s3, i, Succeeds) == s4;
    assert Alone(s, i, 5) == Turn(s4, i, Succeeds) == s5;
  }

  // ---- Failure and progress ----

  ghost predicate Reachable(s: State) {
    exists n, tables, sched, t :: s == RunOf(n, tables, sched, t)
  }

  lemma ReachableInv(s: State)
    requires Reachable(s)
    ensures Inv(s)
  {
    var n, tables, sched, t :| s == RunOf(n, tables, sched, t);
    RunKeepsInv(n, tables, sched, t);
  }

  /** A failed attempt leaves the flag false and, one turn later, the lock free. */
  lemma FailureReleases(s: State, i: nat, fate: Fate, fate': Fate)
    requires Reachable(s) && i < |s.callers| && s.callers[i] == Creating && !fate.Succeeds?
    ensures var s' := Turn(Turn(s, i, fate), i, fate');
            && s'.callers == s.callers[i := Raised] && !s'.created && s'.holder == None
            && s'.successes == s.successes == 0
  {
    ReachableInv(s);
    assert CallerOk(s, i);
  }

  /** `count` turns of one caller, all succeeding. */
  function Alone(s: State, i: nat, count: nat): (s': State)
    requires i < |s.callers|
    ensures |s'.callers| == |s.callers|
  {
    if count == 0 then s else Turn(Alone(s, i, count - 1), i, Succeeds)
  }

  lemma {:induction false} AloneKeepsInv(s: State, i: nat, count: nat)
    requires Inv(s) && i < |s.callers|
    ensures Inv(Alone(s, i, count))
    ensures forall j :: 0 <= j < |s.callers| && j != i ==> Alone(s, i, count).callers[j] == s.callers[j]
  {
    if count > 0 {
      AloneKeepsInv(s, i, count - 1);
      TurnKeepsInv(Alone(s, i, count - 1), i, Succeeds);
    }
  }

  /** How many turns a caller that is never refused still takes. */
  function Remaining(pc: Pc): nat {
    match pc
    case Start => 6
    case Waiting => 5
    case Holding => 4
    case Creating => 3
    case Marking => 2
    case Releasing(_) => 1
    case Returned => 0
    case Raised => 0
  }

  /** With the lock free or its own, a caller left alone finishes and frees the lock. */
  lemma {:induction false} AloneFinishes(s: State, i: nat, count: nat)
    requires Inv(s) && i < |s.callers| && (s.holder.None? || s.holder == Some(i))
    requires Remaining(s.callers[i]) <= count
    ensures var s' := Alone(s, i, count);
            && Finished(s'.callers[i]) && s'.holder == None
            && (s'.callers[i] == Raised <==> s.callers[i] in {Raised, Releasing(false)})
    decreases count
  {
    assert CallerOk(s, i);
    if count > 0 {
      var s1 := Turn(s, i, Succeeds);
      TurnKeepsInv(s, i, Succeeds);
      AloneFinishes(s1, i, count - 1);
      AloneShift(s, i, count);
    }
  }

  lemma {:induction false} AloneShift(s: State, i: nat, count: nat)
    requires i < |s.callers| && count > 0
    ensures Alone(s, i, count) == Alone(Turn(s, i, Succeeds), i, count - 1)
    decreases count
  {
    if count > 1 {
      AloneShift(s, i, count - 1);
    }
  }

  /**
   From every reachable state, whatever failed before, a caller that has not finished can still
   return normally: let the lock's holder finish, then run the caller.
   */
  lemma LaterCallerSucceeds(s: State, i: nat)
    requires Reachable(s) && i < |s.callers|
    requires s.callers[i] in {Start, Waiting, Holding, Creating, Marking}
    ensures var s1 := HolderFinishes(s);
            && |s1.callers| == |s.callers|
            && var s2 := Alone(s1, i, 6);
               s2.callers[i] == Returned && s2.tables && s2.created && s2.holder == None
  {
    ReachableInv(s);
    var s1 := HolderFinishes(s);
    if s.holder.Some? {
      AloneFinishes(s, s.holder.value, 6);
      AloneKeepsInv(s, s.holder.value, 6);
    }
    assert CallerOk(s1, i);
    AloneFinishes(s1, i, 6);
    AloneKeepsInv(s1, i, 6);
    assert CallerOk(Alone(s1, i, 6), i);
  }

  function HolderFinishes(s: State): State {
    if s.holder.Some? && s.holder.value < |s.callers| then Alone(s, s.holder.value, 6) else s
  }

  function TotalRemaining(pcs: seq<Pc>): nat {
    if pcs == [] then 0 else TotalRemaining(pcs[..|pcs| - 1]) + Remaining(pcs[|pcs| - 1])
  }

  lemma {:induction false} TotalUpdate(pcs: seq<Pc>, i: nat, pc: Pc)
    requires i < |pcs|
    ensures TotalRemaining(pcs[i := pc]) == TotalRemaining(pcs) - Remaining(pcs[i]) + Remaining(pc)
    decreases |pcs|
  {
    var m := |pcs| - 1;
    if i == m {
      assert pcs[i := pc][..m] == pcs[..m];
    } else {
      assert pcs[i := pc][..m] == pcs[..m][i := pc];
      TotalUpdate(pcs[..m], i, pc);
    }
  }

  predicate Refused(s: State, i: nat, fate: Fate)
    requires i < |s.callers|
  {
    Finished(s.callers[i]) || (s.callers[i] == Waiting && s.holder.Some? && fate.Succeeds?)
  }

  /** Every turn either is refused or brings the whole system closer to the end: no livelock. */
  lemma TurnsProgress(s: State, i: nat, fate: Fate)
    requires i < |s.callers|
    ensures if Refused(s, i, fate) then Turn(s, i, fate) == s
            else TotalRemaining(Turn(s, i, fate).callers) < TotalRemaining(s.callers)
  {
    if !Refused(s, i, fate) {
      TurnLowers(s, i, fate);
      TotalUpdate(s.callers, i, Turn(s, i, fate).callers[i]);
    }
  }

  lemma TurnLowers(s: State, i: nat, fate: Fate)
    requires i < |s.callers| && !Refused(s, i, fate)
    ensures var pc := Turn(s, i, fate).callers[i];
            Remaining(pc) < Remaining(s.callers[i]) && Turn(s, i, fate).callers == s.callers[i := pc]
  {
  }

  /** And while someone is unfinished, someone's turn is not refused: no deadlock. */
  lemma NeverStuck(s: State)
    requires Reachable(s) && exists i :: 0 <= i < |s.callers| && !Finished(s.callers[i])
    ensures exists i: nat :: i < |s.callers| && !Refused(s, i, Succeeds)
  {
    ReachableInv(s);
    var i :| 0 <= i < |s.callers| && !Finished(s.callers[i]);
    var mover: nat := if s.holder.Some? then s.holder.value else i;
    assert CallerOk(s, mover);
    assert !Refused(s, mover, Succeeds);
  }

  // ---- The service object ----

  /** The fields prepare_tables shares between callers, with each caller's place in it. */
  class Service {
    var created: bool
    var holder: Option<nat>
    var tables: bool
    var successes: nat
    var callers: seq<Pc>

    ghost function Now(): State
      reads this
    {
      State(created, holder, tables, successes, callers)
    }

    constructor (n: nat, tables: bool)
      ensures Now() == Fresh(n, tables)
    {
      created, holder, successes := false, None, 0;
      this.tables := tables;
      callers := seq(n, _ => Start);
    }

    /** `if self._tables_created: return`, outside the lock and again inside it. */
    method CheckCreated(i: nat, done: Pc, next: Pc)
      requires i < |callers|
      modifies this`callers
      ensures Now() == To(old(Now()), i, if created then done else next)
    {
      callers := callers[i := if created then done else next];
    }

    method AcquireLock(i: nat)
      requires i < |callers| && holder.None?
      modifies this`holder, this`callers
      ensures Now() == To(old(Now()).(holder := Some(i)), i, Holding)
    {
      holder := Some(i);
      callers := callers[i := Holding];
    }

    /** create_all inside `async with self.db_engine.begin()`. */
    method CreateAll(i: nat, fate: Fate)
      requires i < |callers| && callers[i] == Creating
      modifies this`tables, this`successes, this`callers
      ensures Now() == Turn(old(Now()), i, fate)
    {
      if fate.Succeeds? {
        successes := successes + 1;
      }
      if !fate.Fails? {
        tables := true;
      }
      callers := callers[i := if fate.Succeeds? then Marking else Releasing(false)];
    }

    method ReleaseLock(i: nat, ok: bool)
      requires i < |callers|
      modifies this`holder, this`callers
      ensures Now() == To(old(Now()).(holder := None), i, if ok then Returned else Raised)
    {
      holder := None;
      callers := callers[i := if ok then Returned else Raised];
    }

    /** One caller runs up to its next await. */
    method Advance(i: nat, fate: Fate)
      requires i < |callers|
      modifies this
      ensures Now() == Turn(old(Now()), i, fate)
    {
      match callers[i]
      case Start => CheckCreated(i, Returned, Waiting);
      case Waiting =>
        if !fate.Succeeds? {
          callers := callers[i := Raised];
        } else if holder.None? {
          AcquireLock(i);
        }
      case Holding => CheckCreated(i, Releasing(true), Creating);
      case Creating => CreateAll(i, fate);
      case Marking =>
        created := true;
        callers := callers[i := Releasing(true)];
      case Releasing(ok) => ReleaseLock(i, ok);
      case Returned =>
      case Raised =>
    }

    /** All callers of a new service, in the order and with the fates of `sched`. */
    method Interleave(sched: Schedule, steps: nat, ghost n: nat, ghost present: bool)
      requires Now() == Fresh(n, present)
      modifies this
      ensures Now() == RunOf(n, present, sched, steps) && Inv(Now())
    {
      for t := 0 to steps
        invariant Now() == RunOf(n, present, sched, t)
      {
        var (i, fate) := sched(t);
        if i < |callers| {
          Advance(i, fate);
        }
      }
      RunKeepsInv(n, present, sched, steps);
    }
  }
}
