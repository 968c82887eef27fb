/** The read and write pointers of a ring buffer (src/pointer.cpp, raftinc/pointer.hpp). */
module Pointers {
  import opened Positions

  /** An index and the number of times it has wrapped. */
  datatype Pos = Pos(a: nat, wrap: nat)

  /** What `inc` makes of a position. */
  function IncPos(p: Pos, cap: nat): Pos
    requires 0 < cap
  {
    var a := Wrap(p.a + 1, cap);
    Pos(a, if a == 0 then p.wrap + 1 else p.wrap)
  }

  /** What `incBy` makes of it: at most one wrap is ever counted. */
  function IncByPos(p: Pos, n: nat, cap: nat): Pos
    requires 0 < cap
  {
    var a := Wrap(p.a + n, cap);
    Pos(a, if a < n then p.wrap + 1 else p.wrap)
  }

  /** `n` calls of `inc`. */
  function IncTimes(p: Pos, n: nat, cap: nat): Pos
    requires 0 < cap
    decreases n
  {
    if n == 0 then p else IncTimes(IncPos(p, cap), n - 1, cap)
  }

  /** The number of elements that have passed a position. */
  function Passed(p: Pos, cap: nat): nat {
    p.wrap * cap + p.a
  }

  lemma {:induction false} IncTimesPasses(p: Pos, n: nat, cap: nat)
    requires p.a < cap
    ensures IncTimes(p, n, cap).a < cap
    ensures Passed(IncTimes(p, n, cap), cap) == Passed(p, cap) + n
    decreases n
  {
    if n > 0 {
      var q := IncPos(p, cap);
      assert Passed(q, cap) == Passed(p, cap) + 1 by {
        if p.a + 1 == cap {
          assert (p.wrap + 1) * cap == p.wrap * cap + cap;
        }
      }
      IncTimesPasses(q, n - 1, cap);
    }
  }

  lemma {:induction false} LapsApart(x: nat, y: nat, cap: nat)
    requires x < y
    ensures x * cap + cap <= y * cap
    decreases y
  {
    assert y * cap == (y - 1) * cap + cap;
    if x < y - 1 {
      LapsApart(x, y - 1, cap);
    }
  }

  /** A position is determined by the number of elements that have passed it. */
  lemma PassedInjective(p: Pos, q: Pos, cap: nat)
    requires p.a < cap && q.a < cap && Passed(p, cap) == Passed(q, cap)
    ensures p == q
  {
    if p.wrap < q.wrap {
      LapsApart(p.wrap, q.wrap, cap);
    } else if q.wrap < p.wrap {
      LapsApart(q.wrap, p.wrap, cap);
    }
  }

  /**
   * `incBy(n)` is `n` calls of `inc`, index and wrap counter alike, exactly as long as the
   * range does not run past the end of the buffer twice; so always for `n <= max_cap`.
   */
  lemma IncByIsIncs(p: Pos, n: nat, cap: nat)
    requires p.a < cap
    ensures IncByPos(p, n, cap) == IncTimes(p, n, cap) <==> p.a + n < 2 * cap
    ensures n <= cap ==> IncByPos(p, n, cap) == IncTimes(p, n, cap)
  {
    IncTimesPasses(p, n, cap);
    var q := IncByPos(p, n, cap);
    if p.a + n < 2 * cap {
      assert Passed(q, cap) == Passed(p, cap) + n by {
        if p.a + n >= cap {
          assert (p.wrap + 1) * cap == p.wrap * cap + cap;
        }
      }
      PassedInjective(q, IncTimes(p, n, cap), cap);
    } else {
      assert q.wrap * cap <= (p.wrap + 1) * cap == p.wrap * cap + cap;
      assert Passed(q, cap) < Passed(p, cap) + n;
    }
  }

  class Pointer {
    var a: nat
    var wrapA: nat
    const maxCap: nat

    ghost predicate Valid()
      reads this
    {
      a < maxCap
    }

    ghost function Position(): Pos
      reads this
    {
      Pos(a, wrapA)
    }

    constructor (cap: nat)
      ensures maxCap == cap && Position() == Pos(0, 0)
    {
      maxCap := cap;
      a := 0;
      wrapA := 0;
    }

    /** A write pointer one wrap ahead: the buffer behind it starts full. */
    constructor Wrapped(cap: nat, wrapSet: nat)
      ensures maxCap == cap && Position() == Pos(0, wrapSet)
    {
      maxCap := cap;
      a := 0;
      wrapA := wrapSet;
    }

    /** The index of another pointer under a new capacity; the wrap counter starts again. */
    constructor CopyOf(other: Pointer, newCap: nat)
      ensures maxCap == newCap && Position() == Pos(other.a, 0)
    {
      maxCap := newCap;
      a := other.a;
      wrapA := 0;
    }

    static method Inc(ptr: Pointer)
      requires ptr.Valid()
      modifies ptr
      ensures ptr.Valid() && ptr.Position() == IncTimes(old(ptr.Position()), 1, ptr.maxCap)
    {
      ptr.a := Wrap(ptr.a + 1, ptr.maxCap);
      if ptr.a == 0 {
        ptr.wrapA := ptr.wrapA + 1;
      }
      assert IncTimes(old(ptr.Position()), 1, ptr.maxCap) == IncTimes(IncPos(old(ptr.Position()), ptr.maxCap), 0, ptr.maxCap);
    }

    static method IncBy(ptr: Pointer, n: nat)
      requires ptr.Valid()
      modifies ptr
      ensures ptr.Valid()
      ensures ptr.Position() == IncTimes(old(ptr.Position()), n, ptr.maxCap) <==> old(ptr.a) + n < 2 * ptr.maxCap
      ensures ptr.Position() == IncByPos(old(ptr.Position()), n, ptr.maxCap)
    {
      IncByIsIncs(ptr.Position(), n, ptr.maxCap);
      ptr.a := Wrap(ptr.a + n, ptr.maxCap);
      if ptr.a < n {
        ptr.wrapA := ptr.wrapA + 1;
      }
    }

    static method Val(ptr: Pointer) returns (r: nat)
      ensures r == ptr.a
    {
      r := ptr.a;
    }

    static method WrapIndicator(ptr: Pointer) returns (r: nat)
      ensures r == ptr.wrapA
    {
      r := ptr.wrapA;
    }
  }
}
