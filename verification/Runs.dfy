/** Runs of a transition system: `next` gives the state after a step, or None where the step is not
    enabled. */
module Runs {
  import opened Maybe

  function Run<S, L>(next: (S, L) -> Option<S>, s: S, steps: seq<L>): Option<S>
    decreases |steps|
  {
    if steps == [] then Some(s)
    else match next(s, steps[0]) case None => None case Some(t) => Run(next, t, steps[1..])
  }

  /** A run cut in two. */
  lemma {:induction false} RunThen<S, L>(next: (S, L) -> Option<S>, s: S, first: seq<L>, more: seq<L>)
    requires Run(next, s, first).Some?
    ensures Run(next, s, first + more) == Run(next, Run(next, s, first).value, more)
    decreases |first|
  {
    if first == [] {
      assert first + more == more;
    } else {
      assert (first + more)[1..] == first[1..] + more;
      RunThen(next, next(s, first[0]).value, first[1..], more);
    }
  }

  lemma RunOne<S, L>(next: (S, L) -> Option<S>, s: S, step: L)
    ensures Run(next, s, [step]) == next(s, step)
  {
    assert [step][1..] == [];
  }

  ghost predicate Preserves<S(!new), L(!new)>(next: (S, L) -> Option<S>, inv: S -> bool) {
    forall s, step :: inv(s) && next(s, step).Some? ==> inv(next(s, step).value)
  }

  /** What every step keeps, every run keeps. */
  lemma {:induction false} RunKeeps<S(!new), L(!new)>(next: (S, L) -> Option<S>, inv: S -> bool, s: S, steps: seq<L>)
    requires Preserves(next, inv) && inv(s) && Run(next, s, steps).Some?
    ensures inv(Run(next, s, steps).value)
    decreases |steps|
  {
    if steps == [] {
    } else {
      RunKeeps(next, inv, next(s, steps[0]).value, steps[1..]);
    }
  }

  ghost predicate Reachable<S, L(!new)>(next: (S, L) -> Option<S>, init: S, s: S) {
    exists steps :: Run(next, init, steps) == Some(s)
  }

  lemma ReachableKeeps<S(!new), L(!new)>(next: (S, L) -> Option<S>, inv: S -> bool, init: S, s: S)
    requires Preserves(next, inv) && inv(init) && Reachable(next, init, s)
    ensures inv(s)
  {
    var steps :| Run(next, init, steps) == Some(s);
    RunKeeps(next, inv, init, steps);
  }

  /** One step on from a reachable state. */
  lemma Go<S, L(!new)>(next: (S, L) -> Option<S>, init: S, s: S, step: L) returns (t: S)
    requires Reachable(next, init, s) && next(s, step).Some?
    ensures Reachable(next, init, t) && next(s, step) == Some(t)
  {
    var steps :| Run(next, init, steps) == Some(s);
    t := next(s, step).value;
    RunThen(next, init, steps, [step]);
    RunOne(next, s, step);
    assert Run(next, init, steps + [step]) == Some(t);
  }
}
