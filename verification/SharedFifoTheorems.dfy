/**
 * What holds in every run of the shared FIFO, whatever the interleaving of producer,
 * consumer, resizer and observers.
 */
module SharedFifoTheorems {
  import opened Wrappers
  import opened Positions
  import opened SharedFifo
  import opened SharedFifoInvariant

  // ---------------------------------------------------------------- runs

  lemma {:induction false} RunKeeps(s: State, acts: seq<Action>, s': State)
    requires Inv(s) && Run(s, acts, s')
    ensures Inv(s')
    decreases |acts|
  {
    hide Inv;
    if acts != [] {
      StepKeeps(s, acts[0]);
      RunKeeps(Next(s, acts[0]), acts[1..], s');
    }
  }

  lemma ReachableInv(s: State)
    requires Reachable(s)
    ensures Inv(s)
  {
    hide Inv;
    var s0: State, acts: seq<Action> :| Init(s0) && Run(s0, acts, s);
    InitInv(s0);
    RunKeeps(s0, acts, s);
  }

  lemma {:induction false} RunSnoc(s: State, acts: seq<Action>, s': State, a: Action)
    requires Run(s, acts, s') && Enabled(s', a)
    ensures Run(s, acts + [a], Next(s', a))
    decreases |acts|
  {
    if acts == [] {
      assert Run(Next(s, a), [], Next(s', a));
    } else {
      RunSnoc(Next(s, acts[0]), acts[1..], s', a);
      assert (acts + [a])[1..] == acts[1..] + [a];
    }
  }

  lemma ReachableNext(s: State, a: Action)
    requires Reachable(s) && Enabled(s, a)
    ensures Reachable(Next(s, a))
  {
    var s0: State, acts: seq<Action> :| Init(s0) && Run(s0, acts, s);
    RunSnoc(s0, acts, s, a);
  }

  lemma {:induction false} ReachableRun(s: State, acts: seq<Action>, s': State)
    requires Reachable(s) && Run(s, acts, s')
    ensures Reachable(s')
    decreases |acts|
  {
    if acts != [] {
      ReachableNext(s, acts[0]);
      ReachableRun(Next(s, acts[0]), acts[1..], s');
    }
  }

  // Which thread writes what.

  predicate IsProd(a: Action) {
    a.ProdCall? || a.ProdStep? || a.ProdWrite? || a.ProdSend? || a.ProdDeallocate? || a.ProdAskSize? || a.ProdInvalidate?
    || a.ProdReinvalidate?
  }

  predicate IsCons(a: Action) {
    a.ConsCall? || a.ConsStep? || a.ConsUnpeek? || a.ConsAskSize?
  }

  predicate ConsSizingPc(c: ConsPc) {
    (c.CFirst? || c.CSecond? || c.CThird? || c.CSizing?) && !c.sz.SRet?
  }

  lemma ConsOnlyLocal(s: State)
    requires ConsCanStep(s) && ConsLocal(s.c)
    ensures var t := ConsNext(s);
            && t.p == s.p && t.m == s.m && t.pushed == s.pushed && t.blurred == s.blurred && t.epoch == s.epoch
            && t.closings == s.closings
            && t.buf.valid == s.buf.valid && t.buf.wa == s.buf.wa && t.buf.ww == s.buf.ww && t.buf.cap == s.buf.cap
  {
    hide NextSize, Measure, CheckingDelta, ConsSizeStep, ConsNextSize;
  }

  lemma ConsOnlyMoves(s: State)
    requires ConsCanStep(s) && !ConsLocal(s.c) && !ConsSizingPc(s.c)
    ensures var t := ConsNext(s);
            && t.p == s.p && t.m == s.m && t.pushed == s.pushed && t.blurred == s.blurred && t.epoch == s.epoch
            && t.closings == s.closings
            && t.buf.valid == s.buf.valid && t.buf.wa == s.buf.wa && t.buf.ww == s.buf.ww && t.buf.cap == s.buf.cap
  {
    hide NextSize, Measure, CheckingDelta, ConsSizeStep, ConsNextSize;
  }

  lemma ConsOnly(s: State)
    requires ConsCanStep(s)
    ensures var t := ConsNext(s);
            && t.p == s.p && t.m == s.m && t.pushed == s.pushed && t.blurred == s.blurred && t.epoch == s.epoch
            && t.closings == s.closings
            && t.buf.valid == s.buf.valid && t.buf.wa == s.buf.wa && t.buf.ww == s.buf.ww && t.buf.cap == s.buf.cap
  {
    hide ConsNext, ConsLocal, Quiet, NextSize;
    if ConsSizingPc(s.c) {
      ConsSizingShape(s);
    } else if ConsLocal(s.c) {
      ConsOnlyLocal(s);
    } else {
      ConsOnlyMoves(s);
    }
  }

  lemma ProdMovesFrame(s: State)
    requires ProdCanStep(s) && !s.p.PRoom? && !s.p.PSizing?
    ensures var t := ProdNext(s);
            && t.c == s.c && t.m == s.m && t.popped == s.popped && t.epoch == s.epoch
            && t.buf.ra == s.buf.ra && t.buf.rw == s.buf.rw && t.buf.cap == s.buf.cap
  {
    hide NextSize, Measure, ProdSizeStep;
  }

  lemma ProdMovesHistory(s: State)
    requires ProdCanStep(s) && !s.p.PRoom? && !s.p.PSizing?
    ensures var t := ProdNext(s);
            && (t.pushed != s.pushed ==> s.p.PIncA?)
            && (t.blurred != s.blurred ==> s.p.PSendSig? && |s.pushed| - |s.popped| == s.buf.cap)
            && (t.buf.valid != s.buf.valid ==>
                  (s.p.PInvalidating? || s.p.PReinvalidating?) && s.p.target == s.epoch && !t.buf.valid)
  {
    hide NextSize, Measure, ProdSizeStep;
  }

  lemma ProdOnly(s: State)
    requires ProdCanStep(s)
    ensures var t := ProdNext(s);
            && t.c == s.c && t.m == s.m && t.popped == s.popped && t.epoch == s.epoch
            && t.buf.ra == s.buf.ra && t.buf.rw == s.buf.rw && t.buf.cap == s.buf.cap
            && (t.pushed != s.pushed ==> s.p.PIncA?)
            && (t.blurred != s.blurred ==> s.p.PSendSig? && |s.pushed| - |s.popped| == s.buf.cap)
            && (t.buf.valid != s.buf.valid ==>
                  (s.p.PInvalidating? || s.p.PReinvalidating?) && s.p.target == s.epoch && !t.buf.valid)
  {
    hide ProdNext, Quiet, SizeRaised, SizeInside;
    if s.p.PRoom? || s.p.PSizing? {
      ProdSizingShape(s);
    } else {
      ProdMovesFrame(s);
      ProdMovesHistory(s);
    }
  }

  lemma OnlyProdPublishes(s: State, a: Action)
    requires Enabled(s, a) && !IsProd(a)
    ensures var t := Next(s, a);
            && t.p == s.p && t.pushed == s.pushed && t.buf.valid == s.buf.valid && t.closings == s.closings
            && (!a.ResizeSwap? ==> t.buf.wa == s.buf.wa && t.buf.ww == s.buf.ww && t.buf.cap == s.buf.cap
                                   && t.blurred == s.blurred)
            && t.epoch == s.epoch + (if a.ResizeSwap? then 1 else 0)
  {
    hide ConsNext, NextSize;
    if a.ConsStep? {
      ConsOnly(s);
    }
  }

  lemma OnlyConsRemoves(s: State, a: Action)
    requires Enabled(s, a) && !IsCons(a)
    ensures var t := Next(s, a);
            && t.c == s.c && t.popped == s.popped
            && (!a.ResizeSwap? ==> t.buf.ra == s.buf.ra && t.buf.rw == s.buf.rw && t.buf.cap == s.buf.cap)
  {
    hide ProdNext, NextSize;
    if a.ProdStep? {
      ProdOnly(s);
    }
  }

  /** Only the consumer's own steps remove items. */
  lemma {:induction false} OnlyConsumerRemoves(s: State, acts: seq<Action>, s': State)
    requires Run(s, acts, s') && ConsStep !in acts
    ensures s'.popped == s.popped
    decreases |acts|
  {
    if acts != [] {
      if !IsCons(acts[0]) {
        OnlyConsRemoves(s, acts[0]);
      }
      hide Next;
      OnlyConsumerRemoves(Next(s, acts[0]), acts[1..], s');
    }
  }

  // ---------------------------------------------------------------- one FIFO of items

  function Items(cells: seq<Cell>): seq<Item> {
    seq(|cells|, i requires 0 <= i < |cells| => cells[i].item)
  }

  /**
   * The consumer removes items in the order in which the producer published them, none
   * lost, duplicated or invented, however pushes, pops, peeks and resizes interleave.
   * The signal travels with its item unless the item was in the queue during a resize,
   * or was the oldest one of a full queue when an empty range was sent.
   */
  lemma FifoOrder(s: State)
    requires Reachable(s)
    ensures Items(s.popped) <= Items(s.pushed)
    ensures forall i :: 0 <= i < |s.popped| && i !in s.blurred ==> s.popped[i] == s.pushed[i]
    ensures |s.pushed| - |s.popped| <= s.buf.cap
  {
    ReachableInv(s);
  }

  /** An action that can overwrite the signal of an unread item, or begins a call that can. */
  predicate Blurs(a: Action) {
    a.ResizeSwap? || (a.ProdCall? && a.pop == AllocateRange(0))
  }

  /** The producer is not in a call that reserves no slot. */
  predicate NoEmptyRange(p: ProdPc) {
    match p
    case PIdle | PStopped | PSizing(_) | PInvalidating(_) | PReinvalidating(_) => true
    case _ => p.op != AllocateRange(0)
  }

  lemma NotBlurredProd(s: State)
    requires Inv(s) && ProdCanStep(s) && NoEmptyRange(s.p)
    ensures ProdNext(s).blurred == s.blurred && NoEmptyRange(ProdNext(s).p)
  {
    hide ContentInv, HistoryInv, ConsInv, PeekInv, ObsInv, CountInv, ResizeInv, NextSize, Measure;
    if s.p.PSendSig? {
      hide ProdNext;
      ProdOnly(s);
      SendStays(s);
    } else {
      hide Inv;
    }
  }

  lemma SendStays(s: State)
    requires ProdCanStep(s) && s.p.PSendSig?
    ensures ProdNext(s).p.PIncA? && ProdNext(s).p.op == s.p.op
  {
  }

  lemma NotBlurredStep(s: State, a: Action)
    requires Inv(s) && Enabled(s, a) && !Blurs(a) && NoEmptyRange(s.p)
    ensures Next(s, a).blurred == s.blurred && NoEmptyRange(Next(s, a).p)
  {
    if !IsProd(a) {
      hide Inv, Next;
      OnlyProdPublishes(s, a);
    } else if a.ProdStep? {
      NotBlurredProd(s);
    } else {
      hide Inv, ProdNext, ConsNext;
    }
  }

  lemma {:induction false} NothingBlurred(s: State, acts: seq<Action>, s': State)
    requires Inv(s) && Run(s, acts, s')
    requires forall i :: 0 <= i < |acts| ==> !Blurs(acts[i])
    requires s.blurred == {} && NoEmptyRange(s.p)
    ensures s'.blurred == {}
    decreases |acts|
  {
    hide Inv, Next;
    if acts != [] {
      StepKeeps(s, acts[0]);
      NotBlurredStep(s, acts[0]);
      NothingBlurred(Next(s, acts[0]), acts[1..], s');
    }
  }

  /** Without resizes and empty ranges, the removed (item, signal) pairs are a prefix of the published ones. */
  lemma FifoOrderWithSignals(s0: State, acts: seq<Action>, s: State)
    requires Init(s0) && Run(s0, acts, s)
    requires forall i :: 0 <= i < |acts| ==> !Blurs(acts[i])
    ensures s.popped <= s.pushed
  {
    InitInv(s0);
    NothingBlurred(s0, acts, s);
    FifoOrder(s);
  }

  // ---------------------------------------------------------------- slots

  /** The slots of the unread items. */
  ghost predicate Unread(s: State, slot: nat)
    requires s.buf.ra < s.buf.cap && |s.pushed| - |s.popped| <= s.buf.cap
  {
    exists i :: 0 <= i < |s.pushed| - |s.popped| && At(s.buf.ra, i, s.buf.cap) == slot
  }

  /** The slot whose item the producer's next action may overwrite. */
  function ItemTargets(s: State): set<nat>
    requires s.buf.wa < s.buf.cap
  {
    if s.p.PItem? then {s.buf.wa}
    else if s.p.PHeld? then set j | 0 <= j < Need(s.p.op) && j < s.buf.cap :: At(s.buf.wa, j, s.buf.cap)
    else {}
  }

  /** The slot whose signal it may overwrite. */
  function SignalTargets(s: State): set<nat>
    requires s.buf.wa < s.buf.cap
  {
    if s.p.PSig? || s.p.PSendSig? then {s.buf.wa} else if s.p.PClear? then {s.p.wi} else {}
  }

  /** The producer never stores an item into a slot that still holds an unread one. */
  lemma ProducerStoresIntoFreeSlots(s: State, slot: nat)
    requires Reachable(s)
    ensures s.buf.wa < s.buf.cap && s.buf.ra < s.buf.cap && |s.pushed| - |s.popped| <= s.buf.cap
    ensures slot in ItemTargets(s) ==> !Unread(s, slot)
  {
    ReachableInv(s);
    if slot in ItemTargets(s) {
      assert Room(s, Need(s.p.op));
      var j :| 0 <= j < Need(s.p.op) && slot == At(s.buf.wa, j, s.buf.cap);
      FreeSlots(s, j);
    }
  }

  /**
   * It overwrites the signal of an unread item exactly when it sends an empty range on a
   * full queue; allocating no slots reserves none, and send_range still stores its signal.
   */
  lemma SignalOverwrittenIff(s: State, slot: nat)
    requires Reachable(s) && s.buf.wa < s.buf.cap && slot in SignalTargets(s)
    ensures s.buf.ra < s.buf.cap && |s.pushed| - |s.popped| <= s.buf.cap
    ensures Unread(s, slot) <==>
              s.p.PSendSig? && s.p.op == AllocateRange(0) && |s.pushed| - |s.popped| == s.buf.cap
  {
    ReachableInv(s);
    if |s.pushed| - |s.popped| < s.buf.cap {
      FreeSlots(s, if s.p.PClear? then s.p.j else 0);
      if s.p.PClear? {
        assert !Unread(s, slot);
      }
    } else {
      assert At(s.buf.ra, 0, s.buf.cap) == s.buf.wa;
    }
  }

  /** What the consumer reads is published, and is the oldest unread item. */
  lemma ConsumerReadsPublished(s: State)
    requires Reachable(s) && (s.c.CSig? || s.c.CItem?)
    ensures |s.popped| < |s.pushed| && s.buf.ra < |s.buf.store| == |s.buf.signal|
    ensures s.buf.store[s.buf.ra] == s.pushed[|s.popped|].item
    ensures |s.popped| !in s.blurred ==> s.buf.signal[s.buf.ra] == s.pushed[|s.popped|].sig
  {
    ReachableInv(s);
    assert At(s.buf.ra, 0, s.buf.cap) == s.buf.ra;
  }

  /**
   * A push publishes its own argument.  A sent range publishes, in order, the items its
   * reserved slots hold, with no signal after the first element; all of them iff there are
   * fewer than 2^32.
   */
  lemma PushPublishesItsArgument(s: State)
    requires Reachable(s) && ProdCanStep(s) && s.p.PIncA?
    ensures s.p.op.Push? && s.p.op.item.Some? ==>
              ProdNext(s).pushed == s.pushed + [Cell(s.p.op.item.value, s.p.op.sig)]
    ensures ProdNext(s).pushed == s.pushed + s.p.cells && |s.p.cells| == Sent(s.p.op)
    ensures s.p.op.AllocateRange? ==> (Sent(s.p.op) == s.p.op.n <==> s.p.op.n < 0x1_0000_0000)
    ensures s.buf.wa < s.buf.cap == |s.buf.store| && |s.p.cells| <= s.buf.cap
    ensures forall i :: 0 <= i < |s.p.cells| ==> s.p.cells[i].item == s.buf.store[At(s.buf.wa, i, s.buf.cap)]
    ensures !s.p.op.Push? ==> forall i :: 1 <= i < |s.p.cells| ==> s.p.cells[i].sig == NONE
  {
    ReachableInv(s);
    hide ContentInv, HistoryInv, ConsInv, PeekInv, ObsInv, CountInv, ResizeInv, ProdSizeInv, Measure;
  }

  /** The first element of what send and send_range are about to publish carries their signal. */
  lemma SendSignalsItsFirst(s: State)
    requires Reachable(s) && ProdCanStep(s) && s.p.PSendSig?
    ensures var t := ProdNext(s);
            t.p.PIncA? && t.p.op == s.p.op && (0 < |t.p.cells| ==> t.p.cells[0].sig == s.p.sig)
  {
  }

  /** The reference handed out by peek or peek_range. */
  lemma PeekedItemsStay(s: State, i: nat)
    requires Reachable(s) && s.peeked.Some? && i < s.peeked.value.n
    requires |s.popped| <= s.peeked.value.from + i
    ensures var r := s.peeked.value;
            && r.base < s.buf.cap == |s.buf.store| && r.from + i < |s.pushed|
            && s.buf.store[Wrap(i + r.base, s.buf.cap)] == s.pushed[r.from + i].item
    ensures !s.m.MSwap?
  {
    ReachableInv(s);
    var r := s.peeked.value;
    var k := r.from + i - |s.popped|;
    assert At(s.buf.ra, k, s.buf.cap) == At(r.base, i, s.buf.cap);
  }

  // ---------------------------------------------------------------- size()

  /** A size() call of the producer never returns less than the queue holds. */
  lemma ProducerSizeIsUpperBound(s: State, n: int)
    requires Reachable(s) && (s.p == PSizing(SRet(n)) || (s.p.PRoom? && s.p.sz == SRet(n)))
    ensures |s.pushed| - |s.popped| <= n <= s.buf.cap
  {
    ReachableInv(s);
  }

  /** A size() call of the consumer never returns more. */
  lemma ConsumerSizeIsLowerBound(s: State, n: int)
    requires Reachable(s)
    requires s.c == CSizing(SRet(n)) || ((s.c.CFirst? || s.c.CSecond? || s.c.CThird?) && s.c.sz == SRet(n))
    ensures 0 <= n <= |s.pushed| - |s.popped| <= s.buf.cap
  {
    ReachableInv(s);
  }

  /** Any other thread gets a value between zero and the capacity. */
  lemma ObserverSizeInRange(s: State, id: nat)
    requires Reachable(s) && id in s.obs && s.obs[id].SIdxR?
    ensures var r := Measure(s.obs[id].ww, s.obs[id].rw, s.obs[id].wpt, s.obs[id].rpt, s.buf.cap);
            r.Size? ==> 0 <= r.n <= s.buf.cap
  {
    ReachableInv(s);
  }

  /** With neither side between its two stores, the four loads give the exact size. */
  lemma SizeExactAtRest(s: State)
    requires Reachable(s) && !ProdMid(s) && !ConsMid(s)
    ensures Measure(s.buf.ww, s.buf.rw, s.buf.wa, s.buf.ra, s.buf.cap) == Size(|s.pushed| - |s.popped|)
  {
    ReachableInv(s);
  }

  /**
   * The jump back to TOP never happens to the producer.  It happens to the consumer only if
   * the producer was between its index store and its wrap store at the first load; to any
   * other thread only if the writer is by now on a later lap than it was then, by a wrap
   * store or an index store that awaits one.
   */
  lemma RetryOnlyBehindALap(s: State)
    requires Reachable(s)
    ensures ProdSize(s.p).SIdxR? ==> !Retries(s, ProdSize(s.p))
    ensures ConsSize(s.c).SIdxR? && Retries(s, ConsSize(s.c)) ==> s.c.sz.mid
    ensures forall id :: id in s.obs && s.obs[id].SIdxR? && Retries(s, s.obs[id]) ==>
              s.obs[id].ww < s.obs[id].rw <= ReadLap(s) <= WriteLap(s)
  {
    ReachableInv(s);
    hide ProdInv, ConsInv, ContentInv, HistoryInv, PeekInv, ResizeInv;
    if ProdSize(s.p).SIdxR? {
      ProdNeverRetries(s);
    }
    if ConsSize(s.c).SIdxR? && Retries(s, ConsSize(s.c)) {
      ConsRetriesOnlyMid(s);
    }
  }

  predicate Retries(s: State, sz: SizePc)
    requires sz.SIdxR?
  {
    Measure(sz.ww, sz.rw, sz.wpt, sz.rpt, s.buf.cap).Retry?
  }

  lemma ProdNeverRetries(s: State)
    requires PositionInv(s) && ProdInv(s) && ProdSize(s.p).SIdxR?
    ensures !Retries(s, ProdSize(s.p))
  {
    hide Measure;
  }

  lemma ConsRetriesOnlyMid(s: State)
    requires PositionInv(s) && ConsInv(s) && ConsSize(s.c).SIdxR? && Retries(s, ConsSize(s.c))
    ensures s.c.sz.mid
  {
  }

  // A size() call is exact once the other side is idle.

  /** All that a size() call has loaded is still current. */
  predicate Current(s: State, sz: SizePc) {
    match sz
    case SWrapW(ww, _) => ww == s.buf.ww
    case SWrapR(ww, rw, _) => ww == s.buf.ww && rw == s.buf.rw
    case SIdxW(ww, rw, wpt, _) => ww == s.buf.ww && rw == s.buf.rw && wpt == s.buf.wa
    case SIdxR(ww, rw, wpt, rpt, _) => ww == s.buf.ww && rw == s.buf.rw && wpt == s.buf.wa && rpt == s.buf.ra
    case SRet(n) => n == |s.pushed| - |s.popped|
    case _ => true
  }

  lemma CurrentStep(s: State, sz: SizePc)
    requires Inv(s) && !ProdMid(s) && !ConsMid(s) && Current(s, sz)
    ensures Current(s, NextSize(s.buf, s.resizing, ProdMid(s), sz))
  {
  }

  /** A step of a thread leaves it outside size(), or was a step of size(). */
  lemma ConsSizingStep(s: State)
    requires ConsCanStep(s)
    ensures var t := ConsNext(s);
            || ConsSize(t.c) == SEnter
            || (&& ConsSize(t.c) == NextSize(s.buf, s.resizing, ProdMid(s), ConsSize(s.c)) && !t.c.CIncWrap?
                && t.buf == s.buf && t.pushed == s.pushed && t.popped == s.popped)
  {
    if ConsSizingPc(s.c) {
      hide ConsNext, NextSize, Quiet;
      ConsSizingShape(s);
    } else {
      hide NextSize, Measure, ConsSizeStep, ConsNextSize;
    }
  }

  lemma ProdSizingStep(s: State)
    requires ProdCanStep(s)
    ensures var t := ProdNext(s);
            || ProdSize(t.p) == SEnter
            || (&& ProdSize(t.p) == NextSize(s.buf, s.resizing, ProdMid(s), ProdSize(s.p)) && !t.p.PIncWrap?
                && t.buf == s.buf && t.pushed == s.pushed && t.popped == s.popped)
  {
    if s.p.PRoom? || s.p.PSizing? {
      hide NextSize, Measure, CheckingDelta;
    } else {
      LeavesSize(s);
      hide ProdNext;
    }
  }

  lemma LeavesSize(s: State)
    requires ProdCanStep(s) && !s.p.PRoom? && !s.p.PSizing?
    ensures ProdSize(ProdNext(s).p) == SEnter
  {
    hide NextSize, Measure, ProdSizeStep;
  }

  lemma CurrentFrame(s: State, t: State, sz: SizePc)
    requires Current(s, sz) && t.buf == s.buf && t.pushed == s.pushed && t.popped == s.popped
    ensures Current(t, sz)
  {
  }

  /** What an action that is no thread's next instruction leaves alone. */
  lemma CallFrame(s: State, a: Action)
    requires Enabled(s, a) && a != ProdStep && a != ConsStep && !a.ResizeSwap?
    ensures var t := Next(s, a);
            && t.buf.ra == s.buf.ra && t.buf.rw == s.buf.rw && t.buf.wa == s.buf.wa && t.buf.ww == s.buf.ww
            && t.pushed == s.pushed && t.popped == s.popped
            && (t.p == s.p || (!t.p.PIncWrap? && ProdSize(t.p) == SEnter))
            && (t.c == s.c || (!t.c.CIncWrap? && ConsSize(t.c) == SEnter))
  {
    hide ProdNext, ConsNext, NextSize;
  }

  /** At a swap every size() call is outside, and outside it has loaded nothing. */
  lemma SwapStaysCurrent(s: State, a: Action)
    requires ResizeInv(s) && a.ResizeSwap? && Enabled(s, a)
    ensures var t := Next(s, a);
            && t.p == s.p && t.c == s.c
            && (!ProdMid(s) ==> !ProdMid(t)) && (!ConsMid(s) ==> !ConsMid(t))
            && (Current(s, ProdSize(s.p)) ==> Current(t, ProdSize(t.p)))
            && (Current(s, ConsSize(s.c)) ==> Current(t, ConsSize(t.c)))
  {
    hide ProdNext, ConsNext, NextSize;
  }

  lemma ProducerSizeStaysCurrent(s: State, a: Action)
    requires Inv(s) && Enabled(s, a) && a != ConsStep && !ConsMid(s) && Current(s, ProdSize(s.p))
    ensures var t := Next(s, a); !ConsMid(t) && Current(t, ProdSize(t.p))
  {
    var t := Next(s, a);
    if a.ProdStep? {
      ProducerStepStaysCurrent(s);
    } else if a.ResizeSwap? {
      hide Next, Enabled, PositionInv, ContentInv, HistoryInv, ProdInv, ConsInv, PeekInv, ObsInv, CountInv, ResizeInv;
      SwapStaysCurrent(s, a);
    } else {
      hide Next, Enabled, Inv, ProdSize;
      CallFrame(s, a);
    }
  }

  lemma ProducerStepStaysCurrent(s: State)
    requires Inv(s) && ProdCanStep(s) && !ConsMid(s) && Current(s, ProdSize(s.p))
    ensures var t := ProdNext(s); !ConsMid(t) && Current(t, ProdSize(t.p))
  {
    hide Inv, ProdNext, NextSize;
    ProdOnly(s);
    ProdSizingStep(s);
    if ProdSize(ProdNext(s).p) != SEnter {
      NotMidInSize(s);
      CurrentStep(s, ProdSize(s.p));
      CurrentFrame(s, ProdNext(s), ProdSize(ProdNext(s).p));
    }
  }

  /** A step that stays or arrives in size() does not start between the two stores. */
  lemma NotMidInSize(s: State)
    ensures ProdCanStep(s) && ProdSize(ProdNext(s).p) != SEnter ==> !ProdMid(s)
    ensures ConsCanStep(s) && ConsSize(ConsNext(s).c) != SEnter ==> !ConsMid(s)
  {
    hide NextSize, Measure, ConsSizeStep, ConsNextSize;
  }

  /**
   * A size() call of the producer, its own or one inside push or allocate, during which the
   * consumer takes no step returns the exact number of items, even if resizes come in between.
   */
  lemma {:induction false} ProducerSizeExact(s: State, acts: seq<Action>, s': State, n: int)
    requires Reachable(s) && !ConsMid(s) && Current(s, ProdSize(s.p))
    requires Run(s, acts, s') && ConsStep !in acts
    requires ProdSize(s'.p) == SRet(n)
    ensures n == |s'.pushed| - |s'.popped|
    decreases |acts|
  {
    if acts != [] {
      ReachableInv(s);
      hide Inv, Next, Current, ProdSize;
      ProducerSizeStaysCurrent(s, acts[0]);
      ReachableNext(s, acts[0]);
      ProducerSizeExact(Next(s, acts[0]), acts[1..], s', n);
    }
  }

  lemma ConsumerSizeStaysCurrent(s: State, a: Action)
    requires Inv(s) && Enabled(s, a) && a != ProdStep && !ProdMid(s) && Current(s, ConsSize(s.c))
    ensures var t := Next(s, a); !ProdMid(t) && Current(t, ConsSize(t.c))
  {
    var t := Next(s, a);
    if a.ConsStep? {
      ConsumerStepStaysCurrent(s);
    } else if a.ResizeSwap? {
      hide Next, Enabled, PositionInv, ContentInv, HistoryInv, ProdInv, ConsInv, PeekInv, ObsInv, CountInv, ResizeInv;
      SwapStaysCurrent(s, a);
    } else {
      hide Next, Enabled, Inv, ConsSize;
      CallFrame(s, a);
    }
  }

  lemma ConsumerStepStaysCurrent(s: State)
    requires Inv(s) && ConsCanStep(s) && !ProdMid(s) && Current(s, ConsSize(s.c))
    ensures var t := ConsNext(s); !ProdMid(t) && Current(t, ConsSize(t.c))
  {
    hide Inv, ConsNext, NextSize;
    ConsOnly(s);
    ConsSizingStep(s);
    if ConsSize(ConsNext(s).c) != SEnter {
      NotMidInSize(s);
      CurrentStep(s, ConsSize(s.c));
      CurrentFrame(s, ConsNext(s), ConsSize(ConsNext(s).c));
    }
  }

  /** The same for the consumer, in size() or in any of its calls, while the producer takes no step. */
  lemma {:induction false} ConsumerSizeExact(s: State, acts: seq<Action>, s': State, n: int)
    requires Reachable(s) && !ProdMid(s) && Current(s, ConsSize(s.c))
    requires Run(s, acts, s') && ProdStep !in acts
    requires ConsSize(s'.c) == SRet(n)
    ensures n == |s'.pushed| - |s'.popped|
    decreases |acts|
  {
    if acts != [] {
      ReachableInv(s);
      hide Inv, Next, Current, ConsSize;
      ConsumerSizeStaysCurrent(s, acts[0]);
      ReachableNext(s, acts[0]);
      ConsumerSizeExact(Next(s, acts[0]), acts[1..], s', n);
    }
  }

  // ---------------------------------------------------------------- closed ports

  /** After its first invalidation the producer publishes nothing more, and a closed port stays closed. */
  lemma {:induction false} StoppedForever(s: State, acts: seq<Action>, s': State)
    requires Reachable(s) && Stopped(s.p) && Run(s, acts, s')
    ensures Stopped(s'.p) && s'.pushed == s.pushed && (s'.buf.valid ==> s.buf.valid)
    ensures s.p.PStopped? && ProdReinvalidate !in acts ==> s'.p.PStopped? && s'.buf.valid == s.buf.valid
    decreases |acts|
  {
    if acts != [] {
      var t := Next(s, acts[0]);
      StoppedStep(s, acts[0]);
      hide Next;
      ReachableNext(s, acts[0]);
      StoppedForever(t, acts[1..], s');
    }
  }

  lemma StoppedStep(s: State, a: Action)
    requires Enabled(s, a) && Stopped(s.p)
    ensures var t := Next(s, a); Stopped(t.p) && t.pushed == s.pushed && (t.buf.valid ==> s.buf.valid)
    ensures s.p.PStopped? && a != ProdReinvalidate ==> Next(s, a).p.PStopped? && Next(s, a).buf.valid == s.buf.valid
  {
    if !IsProd(a) {
      hide Next, Enabled;
      OnlyProdPublishes(s, a);
    } else {
      hide ConsNext, NextSize, Measure;
    }
  }

  /** The queue is open exactly as long as every invalidate has missed the current buffer. */
  ghost predicate ClosingInv(s: State) {
    && (s.buf.valid <==> forall i :: 0 <= i < |s.closings| ==> s.closings[i].loaded < s.closings[i].stored)
    && (forall i :: 0 <= i < |s.closings| ==> s.closings[i].loaded <= s.closings[i].stored)
    && (s.closings == [] <==> !Stopped(s.p))
    && (s.p.PInvalidating? || s.p.PReinvalidating? ==> s.p.target <= s.epoch)
  }

  lemma ClosingStep(s: State, a: Action)
    requires ClosingInv(s) && Enabled(s, a)
    ensures ClosingInv(Next(s, a))
  {
    if !IsProd(a) {
      hide Next, Enabled;
      OnlyProdPublishes(s, a);
    } else if a.ProdStep? {
      ClosingProd(s);
    } else {
      hide ConsNext, ProdNext;
    }
  }

  lemma ClosingProd(s: State)
    requires ClosingInv(s) && ProdCanStep(s)
    ensures ClosingInv(ProdNext(s))
  {
    if s.p.PInvalidating? || s.p.PReinvalidating? {
      var t, n := ProdNext(s), |s.closings|;
      assert t.closings[n] == Closing(s.p.target, s.epoch);
      assert forall i :: 0 <= i < n ==> t.closings[i] == s.closings[i];
    } else {
      ProdKeepsClosings(s);
      hide ProdNext;
      ProdOnly(s);
    }
  }

  lemma ProdKeepsClosings(s: State)
    requires ProdCanStep(s) && !s.p.PInvalidating? && !s.p.PReinvalidating?
    ensures var t := ProdNext(s); t.closings == s.closings && !Stopped(t.p) && !t.p.PInvalidating? && !t.p.PReinvalidating?
  {
    hide NextSize, Measure;
  }

  lemma {:induction false} RunClosings(s: State, acts: seq<Action>, s': State)
    requires ClosingInv(s) && Run(s, acts, s')
    ensures ClosingInv(s')
    decreases |acts|
  {
    hide ClosingInv, Next;
    if acts != [] {
      ClosingStep(s, acts[0]);
      RunClosings(Next(s, acts[0]), acts[1..], s');
    }
  }

  /**
   * When a port is open: exactly as long as every invalidate so far was overtaken by a
   * resize between its load of the buffer and its store.
   */
  lemma PortOpenIffAllLost(s: State)
    requires Reachable(s)
    ensures s.buf.valid <==> forall i :: 0 <= i < |s.closings| ==> s.closings[i].loaded < s.closings[i].stored
    ensures s.closings != [] <==> Stopped(s.p)
  {
    var s0: State, acts: seq<Action> :| Init(s0) && Run(s0, acts, s);
    RunClosings(s0, acts, s);
  }

  /**
   * pop, peek and peek_range report a closed port only if the queue is invalid and every
   * item ever pushed has been removed; recycle gives up silently under the same condition.
   * No later action can add an item.
   */
  lemma ClosedPortMeansDrained(s: State, acts: seq<Action>, s': State)
    requires Reachable(s) && Run(s, acts, s')
    requires s.c.CQuit? || (s.c.CThrown? && s.c.error == ClosedPortAccess)
    ensures !s.buf.valid && |s.popped| == |s.pushed| == |s'.pushed|
    ensures Items(s.popped) == Items(s.pushed)
  {
    ReachableInv(s);
    StoppedForever(s, acts, s');
  }

  /** peek_range(n) reports too few items only if fewer than n remain, for good. */
  lemma NoMoreDataMeansTooFew(s: State, acts: seq<Action>, s': State)
    requires Reachable(s) && Run(s, acts, s') && s.c.CThrown? && s.c.error == NoMoreData
    ensures s.c.op.PeekRange? && !s.buf.valid
    ensures |s'.pushed| == |s.pushed| && |s.pushed| - |s.popped| < s.c.op.n
  {
    ReachableInv(s);
    StoppedForever(s, acts, s');
  }

  // ---------------------------------------------------------------- resizing

  /**
   * Mutual exclusion.  From the moment the resizer has passed its three all-clear loads
   * until it clears `resizing`, no producer call, consumer call or size() is past its
   * notResizing check, and no peeked reference is outstanding.  The counter of size()
   * calls never goes below zero.
   */
  lemma ResizeExclusion(s: State)
    requires Reachable(s)
    ensures s.m.MCond? || s.m.MSwap? || (s.m.MDrop? && s.m.cleared) ==>
              && s.resizing && !ProdInside(s.p) && !ConsInside(s.c) && s.peeked.None?
              && !SizeInside(ProdSize(s.p)) && !SizeInside(ConsSize(s.c))
              && forall id :: id in s.obs ==> !SizeInside(s.obs[id])
    ensures 0 <= s.checking
  {
    ReachableInv(s);
  }

  /** The queue that the two positions of a buffer denote when both have settled. */
  ghost function Decode(b: Buf): seq<Item>
    requires 0 < b.cap == |b.store| && b.ra < b.cap && b.wa < b.cap
    requires Measure(b.ww, b.rw, b.wa, b.ra, b.cap).Size?
  {
    var n := Measure(b.ww, b.rw, b.wa, b.ra, b.cap).n;
    seq(n, i requires 0 <= i < n => b.store[At(b.ra, i, b.cap)])
  }

  ghost predicate Settled(b: Buf) {
    0 < b.cap == |b.store| && b.ra < b.cap && b.wa < b.cap && Measure(b.ww, b.rw, b.wa, b.ra, b.cap).Size?
  }

  /** At rest the buffer denotes exactly the items published and not yet removed. */
  lemma BufferDenotesQueue(s: State)
    requires Reachable(s) && !ProdMid(s) && !ConsMid(s)
    ensures Settled(s.buf) && |s.popped| <= |s.pushed|
    ensures Decode(s.buf) == Items(s.pushed[|s.popped|..])
  {
    ReachableInv(s);
    SizeExactAtRest(s);
    forall i | 0 <= i < |s.pushed| - |s.popped|
      ensures Decode(s.buf)[i] == Items(s.pushed[|s.popped|..])[i]
    {
      assert s.pushed[|s.popped|..][i] == s.pushed[|s.popped| + i];
    }
  }

  /** A resize changes neither the queue nor its length, and grants the new capacity. */
  lemma ResizeTransparent(s: State, tail: seq<Item>, signals: seq<Signal>)
    requires Reachable(s) && Enabled(s, ResizeSwap(tail, signals))
    ensures var t := Swap(s, tail, signals);
            && Settled(s.buf) && Settled(t.buf) && Decode(t.buf) == Decode(s.buf)
            && t.buf.cap == s.m.newCap >= s.buf.cap && t.buf.rw == t.buf.ww == 0
            && t.pushed == s.pushed && t.popped == s.popped && t.buf.valid == s.buf.valid
            && t.buf.prodFlags == s.buf.prodFlags && t.buf.consFlags == s.buf.consFlags
  {
    ReachableInv(s);
    var a := ResizeSwap(tail, signals);
    ReachableNext(s, a);
    BufferDenotesQueue(s);
    BufferDenotesQueue(Next(s, a));
  }

  // Losing an invalidation.

  function Swaps(acts: seq<Action>): nat {
    if acts == [] then 0 else (if acts[0].ResizeSwap? then 1 else 0) + Swaps(acts[1..])
  }

  /** Between its load and its store an invalidate counts the swaps it has missed. */
  lemma {:induction false} EpochCountsSwaps(s: State, acts: seq<Action>, s': State)
    requires Run(s, acts, s') && (s.p.PInvalidating? || s.p.PReinvalidating?) && ProdStep !in acts
    ensures s'.epoch == s.epoch + Swaps(acts) && s'.p == s.p && s'.buf.valid == s.buf.valid && s'.closings == s.closings
    decreases |acts|
  {
    if acts != [] {
      PendingStep(s, acts[0]);
      hide Next;
      EpochCountsSwaps(Next(s, acts[0]), acts[1..], s');
    }
  }

  lemma PendingStep(s: State, a: Action)
    requires Enabled(s, a) && (s.p.PInvalidating? || s.p.PReinvalidating?) && a != ProdStep
    ensures var t := Next(s, a);
            && t.p == s.p && t.buf.valid == s.buf.valid && t.closings == s.closings
            && t.epoch == s.epoch + (if a.ResizeSwap? then 1 else 0)
  {
    assert !IsProd(a);
    hide Next;
    OnlyProdPublishes(s, a);
  }

  /**
   * invalidate() is not protected by a flag: it loads the buffer pointer and then stores
   * into that buffer.  On an open port it takes effect exactly when no resize completes in
   * between; the history records both.
   */
  lemma InvalidateTakesEffectIff(s: State, call: Action, acts: seq<Action>, s': State)
    requires Reachable(s) && (call.ProdInvalidate? || call.ProdReinvalidate?) && Enabled(s, call)
    requires Run(Next(s, call), acts, s') && ProdStep !in acts && ProdCanStep(s')
    ensures !ProdNext(s').buf.valid <==> !s.buf.valid || Swaps(acts) == 0
    ensures ProdNext(s').closings == s.closings + [Closing(s.epoch, s.epoch + Swaps(acts))]
  {
    EpochCountsSwaps(Next(s, call), acts, s');
  }

  /** No call ever reports an open port closed. */
  lemma OpenPortNeverReported(s: State)
    requires Reachable(s) && s.buf.valid
    ensures !s.c.CThrown? && !s.c.CQuit?
  {
    ReachableInv(s);
  }

  /**
   * Where all invalidates so far were lost and the producer makes no other, the port stays
   * open for good, nothing more is published, and no call ever reports it closed.
   */
  lemma LostInvalidationHangs(s: State, acts: seq<Action>, s': State)
    requires Reachable(s) && s.p.PStopped? && Run(s, acts, s') && ProdReinvalidate !in acts
    requires forall i :: 0 <= i < |s.closings| ==> s.closings[i].loaded < s.closings[i].stored
    ensures s'.buf.valid && s'.pushed == s.pushed && !s'.c.CThrown? && !s'.c.CQuit?
  {
    PortOpenIffAllLost(s);
    StoppedForever(s, acts, s');
    ReachableRun(s, acts, s');
    OpenPortNeverReported(s');
  }
}
