/**
 * Positions in a ring of `cap` slots, as src/pointer.cpp computes them: an index
 * that is reduced modulo the capacity, and a wrap counter that is bumped by a
 * second, separate store.
 */
module Positions {

  /** Index arithmetic of `inc`, `incBy` and the peek range: `(a + n) % max_cap`. */
  function Wrap(x: nat, cap: nat): (r: nat)
    requires 0 < cap
    ensures r < cap
    ensures x < cap ==> r == x
    ensures cap <= x < 2 * cap ==> r == x - cap
  {
    if cap <= x < 2 * cap then
      assert x % cap == x - cap by { WrapOnce(x, cap); }
      x % cap
    else
      x % cap
  }

  lemma WrapOnce(x: nat, cap: nat)
    requires 0 < cap <= x < 2 * cap
    ensures x % cap == x - cap
  {
    assert x == 1 * cap + (x - cap);
  }

  /** The `i`-th slot of the ring, counted from slot `a`. */
  function At(a: nat, i: nat, cap: nat): (r: nat)
    requires a < cap && i <= cap
    ensures r < cap
    ensures r == if a + i < cap then a + i else a + i - cap
  {
    Wrap(a + i, cap)
  }

  lemma AtInjective(a: nat, i: nat, j: nat, cap: nat)
    requires a < cap && i < cap && j < cap && i != j
    ensures At(a, i, cap) != At(a, j, cap)
  {
  }

  lemma AtAt(a: nat, i: nat, j: nat, cap: nat)
    requires a < cap && i + j <= cap
    ensures At(At(a, i, cap), j, cap) == At(a, i + j, cap)
  {
  }

  /** What `size()` concludes from its four loads; `Retry` is the jump back to `TOP`. */
  datatype SizeOutcome = Size(n: int) | Retry

  function Measure(wrapWrite: nat, wrapRead: nat, wpt: nat, rpt: nat, cap: nat): (r: SizeOutcome)
    ensures wpt < cap && rpt < cap && r.Size? ==> 0 <= r.n <= cap
  {
    if wpt == rpt then
      if wrapRead < wrapWrite then Size(cap)
      else if wrapRead > wrapWrite then Retry
      else Size(0)
    else if rpt < wpt then Size(wpt - rpt)
    else Size(cap - rpt + wpt)
  }
}
