/** A loop as repeated application of its body, and how to reason about one without unfolding it. */
module Loops {

  function Iterate<S>(body: (S, nat) -> S, start: S, n: nat): S {
    if n == 0 then start else body(Iterate(body, start, n - 1), n - 1)
  }

  lemma {:induction false} InvariantHolds<S(!new)>(body: (S, nat) -> S, start: S, inv: (S, nat) -> bool, n: nat)
    requires inv(start, 0)
    requires forall s, i: nat :: i < n && inv(s, i) ==> inv(body(s, i), i + 1)
    ensures inv(Iterate(body, start, n), n)
    decreases n
  {
    if n > 0 {
      InvariantHolds(body, start, inv, n - 1);
    }
  }

  lemma {:induction false} IterateAgrees<S(!new)>(body: (S, nat) -> S, body': (S, nat) -> S, start: S, n: nat)
    requires forall s, i: nat :: i < n ==> body(s, i) == body'(s, i)
    ensures Iterate(body, start, n) == Iterate(body', start, n)
    decreases n
  {
    if n > 0 {
      IterateAgrees(body, body', start, n - 1);
    }
  }

  /** Once the body leaves a state alone, so does the rest of the loop. */
  lemma {:induction false} IterateStops<S(!new)>(body: (S, nat) -> S, start: S, m: nat, n: nat)
    requires m <= n
    requires forall i: nat :: m <= i < n ==> body(Iterate(body, start, m), i) == Iterate(body, start, m)
    ensures Iterate(body, start, n) == Iterate(body, start, m)
    decreases n
  {
    if m < n {
      IterateStops(body, start, m, n - 1);
    }
  }

  /** Induction over a run given as its sequence of states. */
  lemma {:induction false} StatesKeep<S(!new)>(state: nat -> S, inv: (S, nat) -> bool, n: nat)
    requires inv(state(0), 0)
    requires forall i: nat :: i < n && inv(state(i), i) ==> inv(state(i + 1), i + 1)
    ensures inv(state(n), n)
    decreases n
  {
    if n > 0 {
      StatesKeep(state, inv, n - 1);
      assert n == (n - 1) + 1;
    }
  }

  /** Everything below `n`, said one step at a time. */
  ghost predicate AllBelow(ok: nat -> bool, n: nat) {
    n == 0 || (AllBelow(ok, n - 1) && ok(n - 1))
  }

  lemma {:induction false} Below(ok: nat -> bool, n: nat, j: nat)
    requires j < n && AllBelow(ok, n)
    ensures ok(j)
    decreases n
  {
    if j < n - 1 {
      Below(ok, n - 1, j);
    }
  }

  lemma {:induction false} BelowAgrees(ok: nat -> bool, ok': nat -> bool, n: nat)
    requires AllBelow(ok, n) && forall i: nat :: i < n && ok(i) ==> ok'(i)
    ensures AllBelow(ok', n)
    decreases n
  {
    if n > 0 {
      BelowAgrees(ok, ok', n - 1);
    }
  }
}
