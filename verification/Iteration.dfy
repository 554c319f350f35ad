/** A step taken n times.  The recursion passes through three functions, so that a run unfolds where
    `IterateStep` is called and nowhere else: facts about one cycle are not buried under the whole machine. */
module Iteration {
  function Iterate<T>(step: T -> T, s: T, n: nat): T
    decreases [s], n, 0
  {
    if n == 0 then s else Next(step, s, n - 1)
  }

  function Next<T>(step: T -> T, s: T, n: nat): T
    decreases [s], n, 2
  {
    Once(step, s, n)
  }

  function Once<T>(step: T -> T, s: T, n: nat): T
    decreases [s], n, 1
  {
    step(Iterate(step, s, n))
  }

  lemma IterateStep<T>(step: T -> T, s: T, n: nat)
    ensures Iterate(step, s, 0) == s && Iterate(step, s, n + 1) == step(Iterate(step, s, n))
  {
    assert Next(step, s, n) == Once(step, s, n);
  }
}
