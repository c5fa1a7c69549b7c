/** Schedules of a transition system whose steps are a total function: an action that is not
    enabled leaves the state alone, so every sequence of actions is a schedule. */
module Runs {

  /** The state after the actions of `schedule`, taken one after the other from `s`. */
  function Run<S, A>(next: (S, A) -> S, s: S, schedule: seq<A>): S {
    if |schedule| == 0 then s
    else next(Run(next, s, schedule[..|schedule| - 1]), schedule[|schedule| - 1])
  }

  /** Running two schedules in turn is running their concatenation. */
  lemma {:induction false} Append<S, A>(next: (S, A) -> S, s: S, first: seq<A>, second: seq<A>)
    ensures Run(next, s, first + second) == Run(next, Run(next, s, first), second)
  {
    if |second| == 0 {
      assert first + second == first;
    } else {
      var n := |second| - 1;
      assert (first + second)[..|first| + n] == first + second[..n];
      Append(next, s, first, second[..n]);
    }
  }

  /** One more action. */
  lemma Snoc<S, A>(next: (S, A) -> S, s: S, schedule: seq<A>, a: A)
    ensures Run(next, s, schedule + [a]) == next(Run(next, s, schedule), a)
  {
    assert (schedule + [a])[..|schedule|] == schedule;
  }

  /** A schedule on its way, and the state it has led to: one more action to both. */
  lemma Go<S, A>(next: (S, A) -> S, s: S, schedule: seq<A>, t: S, a: A) returns (schedule': seq<A>, t': S)
    requires t == Run(next, s, schedule)
    ensures schedule' == schedule + [a] && t' == next(t, a) == Run(next, s, schedule')
  {
    Snoc(next, s, schedule, a);
    schedule', t' := schedule + [a], next(t, a);
  }
}
