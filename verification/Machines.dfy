/** Runs of a deterministic machine that answers every input with some outputs. */
module Machines {
  function After<S, I, O>(step: (S, I) -> (S, seq<O>), s: S, inputs: seq<I>): S {
    if inputs == [] then s
    else step(After(step, s, inputs[..|inputs| - 1]), inputs[|inputs| - 1]).0
  }

  function Emitted<S, I, O>(step: (S, I) -> (S, seq<O>), s: S, inputs: seq<I>): seq<O> {
    if inputs == [] then []
    else
      var init := inputs[..|inputs| - 1];
      Emitted(step, s, init) + step(After(step, s, init), inputs[|inputs| - 1]).1
  }

  lemma Snoc<S, I, O>(step: (S, I) -> (S, seq<O>), s: S, inputs: seq<I>, i: I)
    ensures After(step, s, inputs + [i]) == step(After(step, s, inputs), i).0
    ensures Emitted(step, s, inputs + [i]) == Emitted(step, s, inputs) + step(After(step, s, inputs), i).1
  {
  }

  /** Running on a ++ b is running on a, then on b. */
  lemma {:induction false} Append<S, I, O>(step: (S, I) -> (S, seq<O>), s: S, a: seq<I>, b: seq<I>)
    ensures After(step, s, a + b) == After(step, After(step, s, a), b)
    ensures Emitted(step, s, a + b) == Emitted(step, s, a) + Emitted(step, After(step, s, a), b)
  {
    if b == [] {
      assert a + b == a;
    } else {
      Append(step, s, a, b[..|b| - 1]);
      assert (a + b)[..|a + b| - 1] == a + b[..|b| - 1];
    }
  }
}
