/** Runs of a transition system, shared by every protocol model of this project.

A protocol is given by a predicate on initial states and a step relation. A state is reachable
when some finite run leads to it; the lemmas here are the induction principles over such runs.
*/
module Traces {

  /** `run` is a non-empty sequence of states in which each state steps to the next. */
  ghost predicate IsRun<S(!new)>(step: (S, S) -> bool, run: seq<S>) {
    |run| > 0 && forall i :: 0 <= i < |run| - 1 ==> step(run[i], run[i + 1])
  }

  ghost predicate Connects<S(!new)>(step: (S, S) -> bool, run: seq<S>, s: S, t: S) {
    IsRun(step, run) && run[0] == s && run[|run| - 1] == t
  }

  /** Some run, possibly of no steps, leads from `s` to `t`. */
  ghost predicate Reaches<S(!new)>(step: (S, S) -> bool, s: S, t: S) {
    exists run :: Connects(step, run, s, t)
  }

  ghost predicate Reachable<S(!new)>(init: S -> bool, step: (S, S) -> bool, t: S) {
    exists s :: init(s) && Reaches(step, s, t)
  }

  ghost predicate Preserves<S(!new)>(step: (S, S) -> bool, inv: S -> bool) {
    forall s, t :: inv(s) && step(s, t) ==> inv(t)
  }

  /** `rel` is a preorder that contains every step taken from a state satisfying `inv`. */
  ghost predicate Bounds<S(!new)>(step: (S, S) -> bool, inv: S -> bool, rel: (S, S) -> bool) {
    && (forall s :: rel(s, s))
    && (forall s, t, u :: rel(s, t) && rel(t, u) ==> rel(s, u))
    && (forall s, t :: inv(s) && step(s, t) ==> rel(s, t))
  }

  lemma ReachesRefl<S(!new)>(step: (S, S) -> bool, s: S)
    ensures Reaches(step, s, s)
  {
    assert Connects(step, [s], s, s);
  }

  lemma ReachesStep<S(!new)>(step: (S, S) -> bool, s: S, t: S, u: S)
    requires Reaches(step, s, t) && step(t, u)
    ensures Reaches(step, s, u)
  {
    var run :| Connects(step, run, s, t);
    assert Connects(step, run + [u], s, u);
  }

  lemma ReachableStep<S(!new)>(init: S -> bool, step: (S, S) -> bool, t: S, u: S)
    requires Reachable(init, step, t) && step(t, u)
    ensures Reachable(init, step, u)
  {
    var s :| init(s) && Reaches(step, s, t);
    ReachesStep(step, s, t, u);
  }

  lemma ReachesTrans<S(!new)>(step: (S, S) -> bool, s: S, t: S, u: S)
    requires Reaches(step, s, t) && Reaches(step, t, u)
    ensures Reaches(step, s, u)
  {
    var run :| Connects(step, run, s, t);
    var more :| Connects(step, more, t, u);
    var whole := run + more[1..];
    forall i | 0 <= i < |whole| - 1 ensures step(whole[i], whole[i + 1]) {
      if i >= |run| - 1 {
        assert whole[i] == more[i - (|run| - 1)];
      }
    }
    assert Connects(step, whole, s, u);
  }

  /** An invariant that every step preserves holds all along a run. */
  lemma {:induction false} RunInvariant<S(!new)>(step: (S, S) -> bool, inv: S -> bool, run: seq<S>)
    requires IsRun(step, run) && inv(run[0]) && Preserves(step, inv)
    ensures forall i :: 0 <= i < |run| ==> inv(run[i])
  {
    if |run| > 1 {
      var front := run[..|run| - 1];
      RunInvariant(step, inv, front);
      assert step(run[|run| - 2], run[|run| - 1]);
      assert inv(front[|run| - 2]);
      forall i | 0 <= i < |run| ensures inv(run[i]) {
        if i < |run| - 1 {
          assert run[i] == front[i];
        }
      }
    }
  }

  lemma Invariance<S(!new)>(step: (S, S) -> bool, inv: S -> bool, s: S, t: S)
    requires Reaches(step, s, t) && inv(s) && Preserves(step, inv)
    ensures inv(t)
  {
    var run :| Connects(step, run, s, t);
    RunInvariant(step, inv, run);
  }

  lemma ReachableInvariant<S(!new)>(init: S -> bool, step: (S, S) -> bool, inv: S -> bool, t: S)
    requires Reachable(init, step, t) && Preserves(step, inv)
    requires forall s :: init(s) ==> inv(s)
    ensures inv(t)
  {
    var s :| init(s) && Reaches(step, s, t);
    Invariance(step, inv, s, t);
  }

  /** A preorder that contains every step relates the two ends of every run. */
  lemma {:induction false} RunBound<S(!new)>(
    step: (S, S) -> bool, inv: S -> bool, rel: (S, S) -> bool, run: seq<S>)
    requires IsRun(step, run) && inv(run[0]) && Preserves(step, inv) && Bounds(step, inv, rel)
    ensures rel(run[0], run[|run| - 1])
  {
    if |run| > 1 {
      var front := run[..|run| - 1];
      RunBound(step, inv, rel, front);
      RunInvariant(step, inv, run);
      var k := |run| - 2;
      assert inv(run[k]) && step(run[k], run[k + 1]);
      assert rel(run[0], run[k]) && rel(run[k], run[k + 1]);
    }
  }

  lemma ReachesBound<S(!new)>(step: (S, S) -> bool, inv: S -> bool, rel: (S, S) -> bool, s: S, t: S)
    requires Reaches(step, s, t) && inv(s) && Preserves(step, inv) && Bounds(step, inv, rel)
    ensures rel(s, t)
  {
    var run :| Connects(step, run, s, t);
    RunBound(step, inv, rel, run);
  }
}
