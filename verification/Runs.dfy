/** Runs of a transition system: finite sequences of enabled steps, each taken where the one before ended. */
module Runs {
  import opened Options

  /** `next` gives the state after a step, or None where the step is not enabled. */
  ghost predicate Reaches<S(!new), A(!new)>(next: (S, A) -> Option<S>, s: S, run: seq<A>, s': S)
    decreases |run|
  {
    if run == [] then s' == s
    else next(s, run[0]).Some? && Reaches(next, next(s, run[0]).value, run[1..], s')
  }

  ghost predicate Keeps<S(!new), A(!new)>(next: (S, A) -> Option<S>, inv: S -> bool) {
    forall s, a :: inv(s) && next(s, a).Some? ==> inv(next(s, a).value)
  }

  /** What every step keeps, every run keeps. */
  lemma {:induction false} RunKeeps<S(!new), A(!new)>(next: (S, A) -> Option<S>, inv: S -> bool, s: S, run: seq<A>, s': S)
    requires Keeps(next, inv) && inv(s) && Reaches(next, s, run, s')
    ensures inv(s')
    decreases |run|
  {
    if run != [] {
      RunKeeps(next, inv, next(s, run[0]).value, run[1..], s');
    }
  }

  lemma {:induction false} Extend<S(!new), A(!new)>(next: (S, A) -> Option<S>, s: S, run: seq<A>, s1: S, step: A)
    requires Reaches(next, s, run, s1) && next(s1, step).Some?
    ensures Reaches(next, s, run + [step], next(s1, step).value)
    decreases |run|
  {
    if run == [] {
      assert [step][1..] == [];
      assert run + [step] == [step];
    } else {
      assert (run + [step])[1..] == run[1..] + [step];
      Extend(next, next(s, run[0]).value, run[1..], s1, step);
    }
  }

  /** Takes one more step at the end of a run. */
  lemma Then<S(!new), A(!new)>(next: (S, A) -> Option<S>, s: S, run: seq<A>, s1: S, step: A) returns (longer: seq<A>, s2: S)
    requires Reaches(next, s, run, s1) && next(s1, step).Some?
    ensures Reaches(next, s, longer, s2) && s2 == next(s1, step).value
  {
    Extend(next, s, run, s1, step);
    longer, s2 := run + [step], next(s1, step).value;
  }

  /** A run without its last step is a run, to the state in which that step was taken. */
  lemma {:induction false} WithoutLast<S(!new), A(!new)>(next: (S, A) -> Option<S>, s: S, run: seq<A>, s': S) returns (s1: S)
    requires Reaches(next, s, run, s') && run != []
    ensures Reaches(next, s, run[..|run| - 1], s1) && next(s1, run[|run| - 1]) == Some(s')
    decreases |run|
  {
    if |run| == 1 {
      s1 := s;
    } else {
      s1 := WithoutLast(next, next(s, run[0]).value, run[1..], s');
      assert run[..|run| - 1][1..] == run[1..][..|run| - 2];
    }
  }

  lemma {:induction false} OneEnd<S(!new), A(!new)>(next: (S, A) -> Option<S>, s: S, run: seq<A>, s1: S, s2: S)
    requires Reaches(next, s, run, s1) && Reaches(next, s, run, s2)
    ensures s1 == s2
    decreases |run|
  {
    if run != [] {
      OneEnd(next, next(s, run[0]).value, run[1..], s1, s2);
    }
  }
}
