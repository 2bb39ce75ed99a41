/** State machines, their runs, and what holds of every reachable state. */
module Runs {

  datatype Machine<!S(!new), !T(!new)> = Machine(initial: S -> bool, next: (S, T, S) -> bool)

  /** A path is given by its states and the steps between them; a run is a path from an initial state. */
  ghost predicate Path<S(!new), T(!new)>(m: Machine<S, T>, states: seq<S>, steps: seq<T>) {
    |states| == |steps| + 1 && forall i :: 0 <= i < |steps| ==> m.next(states[i], steps[i], states[i + 1])
  }

  ghost predicate Run<S(!new), T(!new)>(m: Machine<S, T>, states: seq<S>, steps: seq<T>) {
    Path(m, states, steps) && m.initial(states[0])
  }

  ghost predicate Invariant<S(!new), T(!new)>(m: Machine<S, T>, inv: S -> bool) {
    && (forall s :: m.initial(s) ==> inv(s))
    && (forall s, step, s' :: inv(s) && m.next(s, step, s') ==> inv(s'))
  }

  lemma HoldsAlways<S(!new), T(!new)>(m: Machine<S, T>, inv: S -> bool, states: seq<S>, steps: seq<T>, i: nat)
    requires Invariant(m, inv) && Run(m, states, steps) && i < |states|
    ensures inv(states[i])
  {
    HoldsAlong(m, inv, states, steps, i);
  }

  /** A relation between earlier and later states that every step from an invariant state satisfies. */
  ghost predicate Progress<S(!new), T(!new)>(m: Machine<S, T>, inv: S -> bool, later: (S, S) -> bool) {
    && (forall s :: later(s, s))
    && (forall s, t, step, t' :: later(s, t) && inv(t) && m.next(t, step, t') ==> later(s, t'))
  }

  lemma {:induction false} HoldsBetween<S(!new), T(!new)>(m: Machine<S, T>, inv: S -> bool, later: (S, S) -> bool,
                                                          states: seq<S>, steps: seq<T>, i: nat, j: nat)
    requires Invariant(m, inv) && Progress(m, inv, later) && Run(m, states, steps) && i <= j < |states|
    ensures later(states[i], states[j])
    decreases j
  {
    if i < j {
      HoldsBetween(m, inv, later, states, steps, i, j - 1);
      HoldsAlways(m, inv, states, steps, j - 1);
      assert m.next(states[j - 1], steps[j - 1], states[j - 1 + 1]);
    }
  }

  // ---------- What a state can lead to ----------

  ghost predicate Leads<S(!new), T(!new)>(m: Machine<S, T>, s: S, s': S) {
    exists states, steps :: Path(m, states, steps) && states[0] == s && states[|steps|] == s'
  }

  lemma LeadsToItself<S(!new), T(!new)>(m: Machine<S, T>, s: S)
    ensures Leads(m, s, s)
  {
    var steps: seq<T> := [];
    assert Path(m, [s], steps);
  }

  lemma LeadsOn<S(!new), T(!new)>(m: Machine<S, T>, s: S, t: S, step: T, t': S)
    requires Leads(m, s, t) && m.next(t, step, t')
    ensures Leads(m, s, t')
  {
    var states, steps :| Path(m, states, steps) && states[0] == s && states[|steps|] == t;
    var states', steps' := states + [t'], steps + [step];
    forall i | 0 <= i < |steps'| ensures m.next(states'[i], steps'[i], states'[i + 1]) {
      assert i < |steps| ==> m.next(states[i], steps[i], states[i + 1]);
    }
    assert Path(m, states', steps') && states'[|steps'|] == t';
  }

  /** An invariant of the steps holds of everything that a state with the invariant leads to. */
  lemma HoldsOnward<S(!new), T(!new)>(m: Machine<S, T>, inv: S -> bool, s: S, s': S)
    requires inv(s) && Leads(m, s, s')
    requires forall s, step, s' :: inv(s) && m.next(s, step, s') ==> inv(s')
    ensures inv(s')
  {
    var states, steps :| Path(m, states, steps) && states[0] == s && states[|steps|] == s';
    HoldsAlong(m, inv, states, steps, |steps|);
  }

  lemma {:induction false} HoldsAlong<S(!new), T(!new)>(m: Machine<S, T>, inv: S -> bool, states: seq<S>,
                                        steps: seq<T>, i: nat)
    requires Path(m, states, steps) && i < |states| && inv(states[0])
    requires forall s, step, s' :: inv(s) && m.next(s, step, s') ==> inv(s')
    ensures inv(states[i])
    decreases i
  {
    if i > 0 {
      HoldsAlong(m, inv, states, steps, i - 1);
      assert m.next(states[i - 1], steps[i - 1], states[i - 1 + 1]);
    }
  }
}
