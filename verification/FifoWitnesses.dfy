/**
 * Reachable states that show what the theorems about the shared FIFO do not rule out: an
 * observer that retries although the producer rests, the signal of an unread item
 * overwritten, and a range that is sent only in part.
 */
module FifoWitnesses {
  import opened Wrappers
  import opened Positions
  import opened SharedFifo
  import opened SharedFifoInvariant
  import opened SharedFifoTheorems
  import opened FifoRuns

  // ---------------------------------------------------------------- an observer that retries

  lemma ObserverStep(s: State, sz: SizePc, sz': SizePc)
    requires Reachable(s) && s.obs == map[0 := sz] && SizeRaised(sz) && SizeRaised(sz') && !s.resizing
    requires sz' == NextSize(s.buf, false, ProdMid(s), sz)
    ensures Reachable(s.(obs := map[0 := sz']))
  {
    hide NextSize, Reachable;
    assert s.obs[0 := sz'] == map[0 := sz'];
    Follow(s, ObsStep(0), s.(obs := map[0 := sz']));
  }

  /** An observer loads the write wrap of an empty queue of one slot. */
  function Watched(x: Item): State {
    Fresh(x, 1).(obs := map[0 := SWrapW(0, false)], checking := 1)
  }

  lemma WatchedReachable(x: Item)
    ensures Reachable(Watched(x))
  {
    FreshReachable(x, 1);
    hide Reachable;
    var s := Fresh(x, 1);
    var t := s.(checking := 1);
    assert map[][0 := SGate] == map[0 := SGate];
    Follow(s, ObsCall(0), t.(obs := map[0 := SGate]));
    ObserverStep(t.(obs := map[0 := SGate]), SGate, STop);
    ObserverStep(t.(obs := map[0 := STop]), STop, SWrapW(0, false));
  }

  /** Meanwhile one item passes through the queue. */
  lemma ItemPasses(x: Item)
    ensures Calm(Watched(x)) && Calm(Pushed(Watched(x), x, NONE))
    ensures Reachable(Popped(Pushed(Watched(x), x, NONE)))
  {
    WatchedReachable(x);
    PushCompletes(Watched(x), x, NONE);
    PopCompletes(Pushed(Watched(x), x, NONE));
  }

  /** The other loads are those of a queue on its second lap, and the observer goes round again. */
  lemma ObserverCanRetry(x: Item)
    ensures exists s: State :: Reachable(s) && s.p.PIdle? && 0 in s.obs && s.obs[0].SIdxR? && !s.obs[0].mid && Retries(s, s.obs[0])
  {
    ItemPasses(x);
    hide Reachable;
    var s := Popped(Pushed(Watched(x), x, NONE));
    ObserverStep(s, SWrapW(0, false), SWrapR(0, 1, false));
    ObserverStep(s.(obs := map[0 := SWrapR(0, 1, false)]), SWrapR(0, 1, false), SIdxW(0, 1, 0, false));
    ObserverStep(s.(obs := map[0 := SIdxW(0, 1, 0, false)]), SIdxW(0, 1, 0, false), SIdxR(0, 1, 0, 0, false));
    var t := s.(obs := map[0 := SIdxR(0, 1, 0, 0, false)]);
    assert t.p.PIdle? && 0 in t.obs && !t.obs[0].mid && Retries(t, t.obs[0]);
  }

  // ---------------------------------------------------------------- an empty range on a full queue

  /** The signal of the only item in a full queue is about to be overwritten. */
  lemma EmptyRangeOverwrites(x: Item, sig: Signal)
    ensures exists s: State ::
              && Reachable(s) && s.p == PSendSig(AllocateRange(0), sig) && s.buf.cap == 1 && s.buf.ra == s.buf.wa == 0
              && |s.pushed| == 1 && s.popped == [] && 0 in SignalTargets(s) && Unread(s, 0)
  {
    FreshReachable(x, 1);
    PushCompletes(Fresh(x, 1), x, NONE);
    var s := Pushed(Fresh(x, 1), x, NONE);
    RangeHeld(s, 0);
    var held := s.(p := PHeld(AllocateRange(0)), buf := s.buf.(prodFlags := {KAllocateRange}));
    var t := held.(p := PSendSig(AllocateRange(0), sig));
    Follow(held, ProdSend(sig), t);
    hide Reachable;
    assert At(t.buf.ra, 0, t.buf.cap) == t.buf.wa;
  }

  // ---------------------------------------------------------------- a range of 2^32 slots

  const WIDE: nat := 0x1_0000_0000

  /** The whole of a queue of 2^32 slots is reserved, written and sent, and nothing is published. */
  lemma WideRangeSendsNothing(x: Item, sig: Signal)
    ensures exists s: State ::
              Reachable(s) && ProdCanStep(s) && s.p == PIncA(AllocateRange(WIDE), []) && ProdNext(s).pushed == [] == s.pushed
  {
    FreshReachable(x, WIDE);
    RangeHeld(Fresh(x, WIDE), WIDE);
    hide Reachable;
    var s := Fresh(x, WIDE);
    var held := s.(p := PHeld(AllocateRange(WIDE)), buf := s.buf.(prodFlags := {KAllocateRange}));
    var sending := held.(p := PSendSig(AllocateRange(WIDE), sig));
    Follow(held, ProdSend(sig), sending);
    var t := ProdNext(sending);
    Follow(sending, ProdStep, t);
    assert t.p == PIncA(AllocateRange(WIDE), []);
  }
}
