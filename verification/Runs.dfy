/** Runs of a state machine given by a step function, and the states they reach. */
module Runs {

  /** The state after the actions, one after the other. */
  ghost function Fold<S, A>(step: (S, A) -> S, s: S, actions: seq<A>): S
  {
    if actions == [] then s else step(Fold(step, s, actions[..|actions| - 1]), actions[|actions| - 1])
  }

  ghost predicate Closed<S(!new), A(!new)>(step: (S, A) -> S, states: iset<S>, start: S)
  {
    start in states && forall s, a | s in states :: step(s, a) in states
  }

  /** In every set of states that contains the start and is closed under steps. */
  ghost predicate Reachable<S(!new), A(!new)>(step: (S, A) -> S, start: S, s: S)
  {
    forall states: iset<S> | Closed(step, states, start) :: s in states
  }

  ghost predicate EndsRun<S, A(!new)>(step: (S, A) -> S, start: S, s: S)
  {
    exists actions: seq<A> :: s == Fold(step, start, actions)
  }

  lemma {:induction false} FoldIn<S(!new), A(!new)>(step: (S, A) -> S, states: iset<S>, start: S, actions: seq<A>)
    requires Closed(step, states, start)
    ensures Fold(step, start, actions) in states
  {
    if actions != [] { FoldIn(step, states, start, actions[..|actions| - 1]); }
  }

  lemma FoldMore<S, A>(step: (S, A) -> S, s: S, actions: seq<A>, a: A)
    ensures Fold(step, s, actions + [a]) == step(Fold(step, s, actions), a)
  {
    assert (actions + [a])[..|actions|] == actions;
  }

  /** The reachable states are those at the end of some run. */
  lemma ReachableIffRun<S(!new), A(!new)>(step: (S, A) -> S, start: S, s: S)
    ensures Reachable(step, start, s) <==> EndsRun(step, start, s)
  {
    if actions: seq<A> :| s == Fold(step, start, actions) {
      forall states: iset<S> | Closed(step, states, start) ensures s in states {
        FoldIn(step, states, start, actions);
      }
    }
    var runs := iset t: S | EndsRun(step, start, t);
    forall t, a | t in runs ensures step(t, a) in runs {
      var actions: seq<A> :| t == Fold(step, start, actions);
      FoldMore(step, start, actions, a);
    }
    var none: seq<A> := [];
    assert start == Fold(step, start, none);
    assert Closed(step, runs, start);
  }

  /** What holds at the start and is kept by every step holds of every reachable state. */
  lemma Invariant<S(!new), A(!new)>(step: (S, A) -> S, start: S, s: S, inv: S -> bool)
    requires Reachable(step, start, s) && inv(start)
    requires forall t, a | inv(t) :: inv(step(t, a))
    ensures inv(s)
  {
    var good := iset t: S | inv(t);
    assert Closed(step, good, start);
  }
}
