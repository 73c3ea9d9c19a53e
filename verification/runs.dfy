/**
 Runs of any machine that repeats "test, then take a turn" until the test refuses or a turn fails.
 The first turn of a fresh run differs from all later ones, which the flag `first` tells it.
 */
module Runs {
  import opened Options
  import opened Encounters

  datatype Outcome<S> = Running(state: S) | Failed(state: S, error: string)

  datatype Machine<!S> = Machine(go: S -> bool, turn: (S, bool) -> Outcome<S>)

  /** How a run stops: at a state the test refuses, or in the middle of a failing turn. */
  datatype End<S> = Finished(state: S) | Crashed(state: S, error: string)

  /** The state `n` turns after `s`, if none of them fails and the test allows each of them. */
  function After<S>(m: Machine<S>, s: S, first: bool, n: nat): Option<S>
  {
    if n == 0 then Some(s)
    else if !m.go(s) then None
    else
      match m.turn(s, first)
      case Failed(_, _) => None
      case Running(s') => After(m, s', false, n - 1)
  }

  /** The run from `s` stops in exactly this way, having begun exactly `n` turns. */
  ghost predicate EndsAfter<S>(m: Machine<S>, s: S, first: bool, n: nat, end: End<S>)
  {
    if n == 0 then
      !m.go(s) && end == Finished(s)
    else
      && m.go(s)
      && match m.turn(s, first)
         case Failed(s', error) => n == 1 && end == Crashed(s', error)
         case Running(s') => EndsAfter(m, s', false, n - 1, end)
  }

  ghost predicate Halts<S(!new)>(m: Machine<S>, s: S, first: bool)
  {
    exists n, end :: EndsAfter(m, s, first, n, end)
  }

  /** A run of `i + j` turns is a run of `i` turns followed by one of `j`. */
  lemma {:induction false} AfterSplits<S>(m: Machine<S>, s: S, first: bool, i: nat, j: nat)
    ensures After(m, s, first, i).None? ==> After(m, s, first, i + j).None?
    ensures After(m, s, first, i).Some? ==>
              After(m, s, first, i + j) == After(m, After(m, s, first, i).value, first && i == 0, j)
  {
    if i > 0 && m.go(s) && m.turn(s, first).Running? {
      AfterSplits(m, m.turn(s, first).state, false, i - 1, j);
    }
  }

  /** Stopping after `i + j` turns is stopping `j` turns after the state that `i` turns lead to. */
  lemma {:induction false} EndSplits<S>(m: Machine<S>, s: S, first: bool, i: nat, j: nat, end: End<S>)
    requires After(m, s, first, i).Some?
    ensures EndsAfter(m, s, first, i + j, end) <==>
            EndsAfter(m, After(m, s, first, i).value, first && i == 0, j, end)
  {
    if i == 0 {
    } else {
      EndSplits(m, m.turn(s, first).state, false, i - 1, j, end);
    }
  }

  /** A run stops in at most one way. */
  lemma {:induction false} EndIsUnique<S>(m: Machine<S>, s: S, first: bool, n1: nat, end1: End<S>, n2: nat,
      end2: End<S>)
    requires EndsAfter(m, s, first, n1, end1) && EndsAfter(m, s, first, n2, end2)
    ensures n1 == n2 && end1 == end2
  {
    if n1 > 0 && m.turn(s, first).Running? {
      EndIsUnique(m, m.turn(s, first).state, false, n1 - 1, end1, n2 - 1, end2);
    }
  }

  /** The states before the stop are passed through, and nothing after it. */
  lemma {:induction false} EndPassesThrough<S>(m: Machine<S>, s: S, first: bool, n: nat, end: End<S>, j: nat)
    requires EndsAfter(m, s, first, n, end)
    ensures j < n ==> After(m, s, first, j).Some?
    ensures end.Finished? ==> After(m, s, first, n) == Some(end.state)
    ensures j > n || (j == n && end.Crashed?) ==> After(m, s, first, j).None?
  {
    if n > 0 && m.turn(s, first).Running? {
      EndPassesThrough(m, m.turn(s, first).state, false, n - 1, end, if j == 0 then 0 else j - 1);
    }
  }

  /** What the state after `n` turns says about the turn after them. */
  lemma NextTurn<S>(m: Machine<S>, s: S, first: bool, n: nat, t: S)
    requires After(m, s, first, n) == Some(t)
    ensures !m.go(t) ==> EndsAfter(m, s, first, n, Finished(t))
    ensures m.go(t) ==>
              match m.turn(t, first && n == 0)
              case Running(u) => After(m, s, first, n + 1) == Some(u)
              case Failed(u, error) => EndsAfter(m, s, first, n + 1, Crashed(u, error))
  {
    EndSplits(m, s, first, n, 0, Finished(t));
    AfterSplits(m, s, first, n, 1);
    if m.turn(t, first && n == 0).Failed? {
      var o := m.turn(t, first && n == 0);
      EndSplits(m, s, first, n, 1, Crashed(o.state, o.error));
    }
  }

  lemma NotOverYet<S>(m: Machine<S>, s: S, first: bool, n: nat, t: S, total: nat, end: End<S>)
    requires After(m, s, first, n) == Some(t) && m.go(t)
    requires EndsAfter(m, s, first, total, end) && n <= total
    ensures n < total
  {
    EndSplits(m, s, first, n, total - n, end);
  }

  function MapState<S, T>(o: Option<S>, x: S -> T): Option<T>
  {
    if o.Some? then Some(x(o.value)) else None
  }

  function MapOutcome<S, T>(o: Outcome<S>, x: S -> T): Outcome<T>
  {
    match o
    case Running(s) => Running(x(s))
    case Failed(s, e) => Failed(x(s), e)
  }

  /** Machine `m2`, seen through `x`, takes the same turns as `m1` from every state that `inv` holds of. */
  ghost predicate Lockstep<S(!new), T>(m1: Machine<S>, m2: Machine<T>, x: S -> T, inv: S -> bool)
  {
    forall s: S :: inv(s) ==>
      && m2.go(x(s)) == m1.go(s)
      && (forall first: bool :: m2.turn(x(s), first) == MapOutcome(m1.turn(s, first), x))
  }

  /**
   Machines in lockstep pass through the same states. It is enough that a turn from a state with `inv`
   leads to one with `weak`, and that each state with `weak` on the way still has `inv`.
   */
  lemma {:induction false} LockstepRuns<S(!new), T>(m1: Machine<S>, m2: Machine<T>, x: S -> T, inv: S -> bool,
      weak: S -> bool, s: S, first: bool, n: nat)
    requires Lockstep(m1, m2, x, inv)
    requires forall s: S, first: bool :: inv(s) && m1.turn(s, first).Running? ==> weak(m1.turn(s, first).state)
    requires weak(s)
    requires forall j: nat :: j < n && After(m1, s, first, j).Some? && weak(After(m1, s, first, j).value) ==> inv(After(m1, s, first, j).value)
    ensures After(m2, x(s), first, n) == MapState(After(m1, s, first, n), x)
    ensures After(m1, s, first, n).Some? ==> weak(After(m1, s, first, n).value)
  {
    if n == 0 {
    } else {
      assert inv(s) by { assert After(m1, s, first, 0) == Some(s); }
      if m1.go(s) && m1.turn(s, first).Running? {
        var s' := m1.turn(s, first).state;
        forall j: nat | j < n - 1 && After(m1, s', false, j).Some? && weak(After(m1, s', false, j).value)
          ensures inv(After(m1, s', false, j).value)
        {
          assert After(m1, s, first, j + 1) == After(m1, s', false, j);
        }
        LockstepRuns(m1, m2, x, inv, weak, s', false, n - 1);
      }
    }
  }

  lemma {:induction false} EndIsRefused<S>(m: Machine<S>, s: S, first: bool, n: nat, end: End<S>)
    requires EndsAfter(m, s, first, n, end)
    ensures end.Finished? ==> !m.go(end.state)
  {
    if n > 0 && m.turn(s, first).Running? {
      EndIsRefused(m, m.turn(s, first).state, false, n - 1, end);
    }
  }

  /** What every turn keeps, every state of a run has. */
  lemma {:induction false} InvariantHolds<S(!new)>(m: Machine<S>, inv: S -> bool, s: S, first: bool, n: nat)
    requires inv(s)
    requires forall s: S, first: bool :: inv(s) && m.turn(s, first).Running? ==> inv(m.turn(s, first).state)
    ensures After(m, s, first, n).Some? ==> inv(After(m, s, first, n).value)
  {
    if n > 0 && m.go(s) && m.turn(s, first).Running? {
      InvariantHolds(m, inv, m.turn(s, first).state, false, n - 1);
    }
  }

  // ---------- Clocks ----------

  /** Every turn moves the 32-bit clock by one, except the first turn of a fresh run, and keeps `inv`. */
  ghost predicate Clocked<S(!new)>(m: Machine<S>, clock: S -> nat, inv: S -> bool)
  {
    forall s: S, first: bool :: inv(s) ==>
      && inv(m.turn(s, first).state)
      && clock(m.turn(s, first).state) == if first then clock(s) else (clock(s) + 1) % TICK_WRAP
  }

  /** The clock value that the `j`-th turn works at, if the run starts at clock value `tick`. */
  function TickOfTurn(tick: nat, first: bool, j: nat): nat
  {
    (tick + j + if first then 0 else 1) % TICK_WRAP
  }

  lemma {:induction false} ClockOfRun<S(!new)>(m: Machine<S>, clock: S -> nat, inv: S -> bool, s: S, first: bool,
      j: nat)
    requires Clocked(m, clock, inv) && inv(s) && clock(s) < TICK_WRAP
    requires After(m, s, first, j + 1).Some?
    ensures clock(After(m, s, first, j + 1).value) == TickOfTurn(clock(s), first, j)
    decreases j
  {
    var s' := m.turn(s, first).state;
    assert After(m, s, first, j + 1) == After(m, s', false, j);
    if j == 0 {
    } else {
      ClockOfRun(m, clock, inv, s', false, j - 1);
    }
  }

  /**
   Interrupting a fresh run after `i > 0` turns and resuming it from the state reached executes
   exactly the clock values of the uninterrupted run: no gap and no repeat.
   */
  lemma ResumedClockContinues<S(!new)>(m: Machine<S>, clock: S -> nat, inv: S -> bool, s: S, i: nat, j: nat)
    requires Clocked(m, clock, inv) && inv(s) && clock(s) == 0
    requires i > 0 && After(m, s, true, i).Some?
    ensures TickOfTurn(clock(After(m, s, true, i).value), false, j) == TickOfTurn(0, true, i + j)
  {
    ClockOfRun(m, clock, inv, s, true, i - 1);
  }

  /** A test that refuses clock values from `limit` on stops a run in time. */
  lemma {:induction false} LimitStops<S(!new)>(m: Machine<S>, clock: S -> nat, inv: S -> bool, limit: nat, s: S,
      first: bool)
      returns (n: nat, end: End<S>)
    requires Clocked(m, clock, inv) && inv(s) && clock(s) < TICK_WRAP && limit < TICK_WRAP
    requires forall t: S :: clock(t) >= limit ==> !m.go(t)
    ensures EndsAfter(m, s, first, n, end)
    ensures n <= (if limit > clock(s) then limit - clock(s) else 0) + if first then 1 else 0
    ensures clock(s) >= limit ==> n == 0
    decreases limit - clock(s), first
  {
    if !m.go(s) {
      n, end := 0, Finished(s);
    } else {
      match m.turn(s, first) {
        case Failed(s', error) =>
          n, end := 1, Crashed(s', error);
        case Running(s') =>
          n, end := LimitStops(m, clock, inv, limit, s', false);
          n := n + 1;
      }
    }
  }
}
