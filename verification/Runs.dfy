/** Runs of a state machine: a start state and a sequence of steps, each applied by `next`. */
module Runs {

  function Iterate<S, A>(s: S, steps: seq<A>, next: (S, A) -> S): S {
    if steps == [] then s else next(Iterate(s, steps[..|steps| - 1], next), steps[|steps| - 1])
  }

  lemma IterateSnoc<S, A>(s: S, steps: seq<A>, a: A, next: (S, A) -> S)
    ensures Iterate(s, steps + [a], next) == next(Iterate(s, steps, next), a)
  {
    assert (steps + [a])[..|steps|] == steps;
  }

  lemma IterateAt<S, A>(s: S, steps: seq<A>, n: nat, next: (S, A) -> S)
    requires n < |steps|
    ensures Iterate(s, steps[..n + 1], next) == next(Iterate(s, steps[..n], next), steps[n])
  {
    assert steps[..n + 1][..n] == steps[..n];
  }

  lemma {:induction false} IterateInTwo<S, A>(s: S, a: seq<A>, b: seq<A>, next: (S, A) -> S)
    ensures Iterate(s, a + b, next) == Iterate(Iterate(s, a, next), b, next)
  {
    if b == [] {
      assert a + b == a;
    } else {
      IterateInTwo(s, a, b[..|b| - 1], next);
      assert (a + b)[..|a + b| - 1] == a + b[..|b| - 1];
    }
  }

  lemma IterateSplit<S, A>(s: S, steps: seq<A>, n: nat, next: (S, A) -> S)
    requires n <= |steps|
    ensures Iterate(s, steps, next) == Iterate(Iterate(s, steps[..n], next), steps[n..], next)
  {
    IterateInTwo(s, steps[..n], steps[n..], next);
    assert steps[..n] + steps[n..] == steps;
  }

  lemma SliceInTwo<A>(steps: seq<A>, m: nat, n: nat)
    requires m + n <= |steps|
    ensures steps[..m + n] == steps[..m] + steps[m..][..n]
  {
    assert steps[m..][..n] == steps[m..m + n];
    assert steps[..m + n] == steps[..m] + steps[m..m + n];
  }

  lemma IterateSlice<S, A>(s: S, steps: seq<A>, m: nat, n: nat, next: (S, A) -> S)
    requires m + n <= |steps|
    ensures Iterate(s, steps[..m + n], next) == Iterate(Iterate(s, steps[..m], next), steps[m..][..n], next)
  {
    IterateInTwo(s, steps[..m], steps[m..][..n], next);
    SliceInTwo(steps, m, n);
  }
}
