/**
 * A run in which a resize makes an invalidation disappear: the producer has loaded the
 * buffer pointer, the resizer copies and swaps, the producer then stores into the old buffer.
 */
module LostInvalidation {
  import opened Wrappers
  import opened Positions
  import opened SharedFifo
  import opened SharedFifoInvariant
  import opened SharedFifoTheorems
  import opened FifoRuns

  /** One item in a queue of two slots, and a doubling resize about to copy. */
  lemma CopyPending(x: Item)
    ensures Calm(Fresh(x, 2))
    ensures Reachable(Pushed(Fresh(x, 2), x, NONE).(p := PInvalidating(0), m := MSwap(4), resizing := true))
  {
    FreshReachable(x, 2);
    PushCompletes(Fresh(x, 2), x, NONE);
    var s := Pushed(Fresh(x, 2), x, NONE);
    Follow(s, ProdInvalidate, s.(p := PInvalidating(0)));
    ResizerReachesCopy(s.(p := PInvalidating(0)), 4);
  }

  /** The same queue after the copy, with the invalidation stored into the old buffer. */
  lemma StoppedOpen(x: Item) returns (s: State)
    ensures Reachable(s) && s.p.PStopped? && s.buf.valid && s.closings == [Closing(0, 1)]
  {
    CopyPending(x);
    hide NextSize, Measure, ConsNext, Reachable;
    var pending := Pushed(Fresh(x, 2), x, NONE).(p := PInvalidating(0), m := MSwap(4), resizing := true);
    var copy := ResizeSwap([x, x], [NONE, NONE, NONE, NONE]);
    var t := Next(pending, copy);
    ReachableNext(pending, copy);
    ReachableNext(t, ProdStep);
    s := Next(t, ProdStep);
  }

  /** A run in which a doubling resize swallows the invalidation. */
  lemma InvalidationCanBeLost(x: Item)
    ensures exists s: State :: Reachable(s) && s.p.PStopped? && s.buf.valid
  {
    var s := StoppedOpen(x);
  }

  /** A second invalidation, as kernelRun makes when the kernel's inputs are drained, closes that port. */
  lemma SecondInvalidationCloses(x: Item)
    ensures exists s: State, t: State ::
              Reachable(s) && s.p.PStopped? && s.buf.valid && Run(s, [ProdReinvalidate, ProdStep], t) && !t.buf.valid
  {
    var s := StoppedOpen(x);
    ReachableInv(s);
    hide Inv, Reachable, NextSize, Measure, ConsNext;
    var r := s.(p := PReinvalidating(s.epoch));
    var t := Invalidated(r, s.epoch);
    assert Enabled(s, ProdReinvalidate) && Next(s, ProdReinvalidate) == r && Next(r, ProdStep) == t by {
      RingShape(s);
    }
    assert [ProdReinvalidate, ProdStep][1..] == [ProdStep] && [ProdStep][1..] == [];
    assert Run(r, [ProdStep], t);
    assert Run(s, [ProdReinvalidate, ProdStep], t);
  }

  lemma RingShape(s: State)
    requires Reachable(s)
    ensures s.buf.wa < s.buf.cap == |s.buf.store| == |s.buf.signal|
  {
    ReachableInv(s);
  }
}
