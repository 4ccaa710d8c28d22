/** Shared datatypes, and runs of a transition function. */
module Prelude {
  datatype Option<+T> = None | Some(value: T)

  /** The state after a sequence of steps, the last step taken last. */
  function Fold<S, T>(next: (S, T) -> S, s: S, steps: seq<T>): S {
    if steps == [] then s else next(Fold(next, s, steps[..|steps| - 1]), steps[|steps| - 1])
  }

  lemma FoldSnoc<S, T>(next: (S, T) -> S, s: S, steps: seq<T>, step: T)
    ensures Fold(next, s, steps + [step]) == next(Fold(next, s, steps), step)
  {
    assert (steps + [step])[..|steps|] == steps;
  }

  /** A run can be cut anywhere. */
  lemma {:induction false} FoldAppend<S, T>(next: (S, T) -> S, s: S, first: seq<T>, second: seq<T>)
    ensures Fold(next, s, first + second) == Fold(next, Fold(next, s, first), second)
  {
    if second == [] {
      assert first + second == first;
    } else {
      var init, last := second[..|second| - 1], second[|second| - 1];
      FoldAppend(next, s, first, init);
      assert first + second == (first + init) + [last];
      FoldSnoc(next, s, first + init, last);
    }
  }
}
