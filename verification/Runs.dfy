/** Runs of a transition system: any finite sequence of events, applied one after the other.

    A protocol is a step function. An event names the process that moves and what the outside world answers;
    an event that is not enabled leaves the state alone. Every interleaving is therefore some sequence of events. */
module Runs {

  function After<S, E>(step: (S, E) -> S, s: S, events: seq<E>): S {
    if events == [] then s
    else step(After(step, s, events[..|events| - 1]), events[|events| - 1])
  }

  ghost predicate Preserves<S(!new), E(!new)>(step: (S, E) -> S, inv: S -> bool) {
    forall s, e :: inv(s) ==> inv(step(s, e))
  }

  /** What every step keeps holds after every run. */
  lemma {:induction false} InvariantHolds<S(!new), E(!new)>(step: (S, E) -> S, inv: S -> bool, s: S, events: seq<E>)
    requires inv(s) && Preserves(step, inv)
    ensures inv(After(step, s, events))
  {
    if events != [] {
      InvariantHolds(step, inv, s, events[..|events| - 1]);
    }
  }

  /** A run splits at any point. */
  lemma {:induction false} AfterConcat<S, E>(step: (S, E) -> S, s: S, first: seq<E>, rest: seq<E>)
    ensures After(step, s, first + rest) == After(step, After(step, s, first), rest)
  {
    if rest == [] {
      assert first + rest == first;
    } else {
      AfterConcat(step, s, first, rest[..|rest| - 1]);
      assert (first + rest)[..|first + rest| - 1] == first + rest[..|rest| - 1];
    }
  }

  /** A run can be taken apart at its first event. */
  lemma AfterFirst<S, E>(step: (S, E) -> S, s: S, e: E, rest: seq<E>)
    ensures After(step, s, [e] + rest) == After(step, step(s, e), rest)
  {
    AfterConcat(step, s, [e], rest);
    assert [e][..0] == [];
  }

  lemma AfterFour<S, E>(step: (S, E) -> S, s: S, a: E, b: E, c: E, d: E)
    ensures After(step, s, [a, b, c, d]) == step(step(step(step(s, a), b), c), d)
  {
    AfterThreeFirst(step, s, a, b, c, [d]);
    AfterFirst(step, step(step(step(s, a), b), c), d, []);
    assert [a, b, c] + [d] == [a, b, c, d] && [d] + [] == [d];
  }

  lemma AfterFive<S, E>(step: (S, E) -> S, s: S, a: E, b: E, c: E, d: E, e: E)
    ensures After(step, s, [a, b, c, d, e]) == step(step(step(step(step(s, a), b), c), d), e)
  {
    assert [a] + [b, c, d, e] == [a, b, c, d, e];
    AfterFirst(step, s, a, [b, c, d, e]);
    AfterFirst(step, step(s, a), b, [c, d, e]);
    AfterFirst(step, step(step(s, a), b), c, [d, e]);
    AfterFirst(step, step(step(step(s, a), b), c), d, [e]);
    AfterFirst(step, step(step(step(step(s, a), b), c), d), e, []);
    assert [b] + [c, d, e] == [b, c, d, e] && [c] + [d, e] == [c, d, e] && [d] + [e] == [d, e] && [e] + [] == [e];
  }

  lemma AfterThreeFirst<S, E>(step: (S, E) -> S, s: S, a: E, b: E, c: E, rest: seq<E>)
    ensures After(step, s, [a, b, c] + rest) == After(step, step(step(step(s, a), b), c), rest)
  {
    AfterFirst(step, s, a, [b, c] + rest);
    AfterFirst(step, step(s, a), b, [c] + rest);
    AfterFirst(step, step(step(s, a), b), c, rest);
    assert [a, b, c] + rest == [a] + ([b, c] + rest) && [b, c] + rest == [b] + ([c] + rest);
  }
}
