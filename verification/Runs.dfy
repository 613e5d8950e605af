/** Runs of a machine: the states before and after each request. */
module Runs {

  /** Every state is good, and each is what the next request makes of the one before. */
  ghost predicate Run<S(!new), R(!new)>(states: seq<S>, requests: seq<R>, good: S -> bool, makes: (S, R, S) -> bool) {
    && |states| == |requests| + 1
    && (forall i | 0 <= i < |states| :: good(states[i]))
    && (forall i | 0 <= i < |requests| :: makes(states[i], requests[i], states[i + 1]))
  }

  /** What a condition that is to lead to one reset counts, as long as it is pending. */
  function Owed(pending: bool): nat { if pending then 1 else 0 }

  /** One more request. */
  lemma RunOn<S(!new), R(!new)>(states: seq<S>, requests: seq<R>, good: S -> bool,
                                   makes: (S, R, S) -> bool, n: nat, b: S)
    requires n < |requests| && Run(states, requests[..n], good, makes)
    requires good(b) && makes(states[n], requests[n], b)
    ensures Run(states + [b], requests[..n + 1], good, makes)
  {
    forall i | 0 <= i < n + 1
      ensures makes((states + [b])[i], requests[..n + 1][i], (states + [b])[i + 1])
    {
      assert i < n ==> requests[..n + 1][i] == requests[..n][i];
    }
  }

  /** A relation that every request keeps, that is transitive and reflexive, holds across a run. */
  lemma {:induction false} RunKeeps<S(!new), R(!new)>(states: seq<S>, requests: seq<R>, good: S -> bool,
                                                      makes: (S, R, S) -> bool, keeps: (S, S) -> bool,
                                                      i: nat, j: nat)
    requires Run(states, requests, good, makes) && i <= j < |states|
    requires forall s :: keeps(s, s)
    requires forall a, r, b | makes(a, r, b) :: keeps(a, b)
    requires forall a, b, c | keeps(a, b) && keeps(b, c) :: keeps(a, c)
    ensures keeps(states[i], states[j])
    decreases j - i
  {
    if i < j {
      RunKeeps(states, requests, good, makes, keeps, i + 1, j);
      assert makes(states[i], requests[i], states[i + 1]);
    }
  }
}
