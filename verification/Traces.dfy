/**
 Runs of a transition system: what every step keeps every run keeps, and a measure that every step
 lowers bounds every run and leads to any goal short of which some step is always enabled.
 */
module Traces {

  // A run takes enabled steps only.
  ghost predicate Runs<S, E>(enabled: (S, E) -> bool, apply: (S, E) --> S, s: S, steps: seq<E>)
    decreases |steps|
  {
    steps == [] ||
    (enabled(s, steps[0]) && apply.requires(s, steps[0]) && Runs(enabled, apply, apply(s, steps[0]), steps[1..]))
  }

  ghost function After<S, E>(enabled: (S, E) -> bool, apply: (S, E) --> S, s: S, steps: seq<E>): S
    requires Runs(enabled, apply, s, steps)
    decreases |steps|
  {
    if steps == [] then s else After(enabled, apply, apply(s, steps[0]), steps[1..])
  }

  lemma {:induction false} RunAppended<S, E>(enabled: (S, E) -> bool, apply: (S, E) --> S, s: S, steps: seq<E>, e: E)
    requires Runs(enabled, apply, s, steps)
    requires enabled(After(enabled, apply, s, steps), e) && apply.requires(After(enabled, apply, s, steps), e)
    ensures Runs(enabled, apply, s, steps + [e])
    ensures After(enabled, apply, s, steps + [e]) == apply(After(enabled, apply, s, steps), e)
    decreases |steps|
  {
    if steps == [] {
      assert [e][1..] == [];
    } else {
      RunAppended(enabled, apply, apply(s, steps[0]), steps[1..], e);
      assert (steps + [e])[1..] == steps[1..] + [e];
    }
  }

  lemma {:induction false} RunsJoined<S, E>(enabled: (S, E) -> bool, apply: (S, E) --> S, s: S,
                                            steps: seq<E>, more: seq<E>)
    requires Runs(enabled, apply, s, steps) && Runs(enabled, apply, After(enabled, apply, s, steps), more)
    ensures Runs(enabled, apply, s, steps + more)
    ensures After(enabled, apply, s, steps + more) == After(enabled, apply, After(enabled, apply, s, steps), more)
    decreases |steps|
  {
    if steps == [] {
      assert steps + more == more;
    } else {
      RunsJoined(enabled, apply, apply(s, steps[0]), steps[1..], more);
      assert (steps + more)[1..] == steps[1..] + more;
    }
  }

  ghost predicate Kept<S(!new), E(!new)>(enabled: (S, E) -> bool, apply: (S, E) --> S, inv: S -> bool) {
    forall s: S, e: E :: inv(s) && enabled(s, e) ==> apply.requires(s, e) && inv(apply(s, e))
  }

  ghost predicate Descends<S(!new), E(!new)>(enabled: (S, E) -> bool, apply: (S, E) --> S, inv: S -> bool,
                                             measure: S -> nat)
  {
    forall s: S, e: E :: inv(s) && enabled(s, e) ==> apply.requires(s, e) && measure(apply(s, e)) < measure(s)
  }

  ghost predicate Progresses<S(!new), E(!new)>(enabled: (S, E) -> bool, inv: S -> bool, goal: S -> bool) {
    forall s: S :: inv(s) && !goal(s) ==> exists e: E :: enabled(s, e)
  }

  lemma {:induction false} RunKeeps<S(!new), E(!new)>(enabled: (S, E) -> bool, apply: (S, E) --> S, inv: S -> bool,
                                                      s: S, steps: seq<E>)
    requires Kept(enabled, apply, inv) && inv(s) && Runs(enabled, apply, s, steps)
    ensures inv(After(enabled, apply, s, steps))
    decreases |steps|
  {
    if steps != [] {
      RunKeeps(enabled, apply, inv, apply(s, steps[0]), steps[1..]);
    }
  }

  lemma {:induction false} RunDescends<S(!new), E(!new)>(enabled: (S, E) -> bool, apply: (S, E) --> S, inv: S -> bool,
                                                         measure: S -> nat, s: S, steps: seq<E>)
    requires Kept(enabled, apply, inv) && Descends(enabled, apply, inv, measure)
    requires inv(s) && Runs(enabled, apply, s, steps)
    ensures |steps| + measure(After(enabled, apply, s, steps)) <= measure(s)
    decreases |steps|
  {
    if steps != [] {
      RunDescends(enabled, apply, inv, measure, apply(s, steps[0]), steps[1..]);
    }
  }

  lemma {:induction false} SomeRunReaches<S(!new), E(!new)>(enabled: (S, E) -> bool, apply: (S, E) --> S,
                                                            inv: S -> bool, measure: S -> nat, goal: S -> bool, s: S)
    returns (steps: seq<E>)
    requires Kept(enabled, apply, inv) && Descends(enabled, apply, inv, measure)
    requires Progresses(enabled, inv, goal) && inv(s)
    ensures Runs(enabled, apply, s, steps) && goal(After(enabled, apply, s, steps))
    decreases measure(s)
  {
    if goal(s) {
      steps := [];
    } else {
      var e :| enabled(s, e);
      var rest := SomeRunReaches(enabled, apply, inv, measure, goal, apply(s, e));
      steps := [e] + rest;
      assert steps[1..] == rest;
    }
  }
}
