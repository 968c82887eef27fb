/**
 * Whole calls of the shared FIFO while nobody else is inside: a push on a queue with room, a
 * pop on a queue with items, an allocate_range that fits, and the resizer's way to the copy.
 * Each leads from a reachable state to a reachable state; runs are composed of them.
 */
module FifoRuns {
  import opened Wrappers
  import opened Positions
  import opened SharedFifo
  import opened SharedFifoInvariant
  import opened SharedFifoTheorems

  lemma Follow(s: State, a: Action, t: State)
    requires Reachable(s) && Enabled(s, a) && t == Next(s, a)
    ensures Reachable(t)
  {
    ReachableNext(s, a);
  }

  /** The calling thread is alone: no resize is pending and the other side is not between its stores. */
  ghost predicate Calm(s: State) {
    !s.resizing && 0 < s.buf.cap == |s.buf.store| == |s.buf.signal| && s.buf.ra < s.buf.cap && s.buf.wa < s.buf.cap
  }

  lemma CalmIdle(s: State)
    requires Reachable(s) && s.p.PIdle? && !s.resizing && !ConsMid(s)
    ensures Calm(s) && s.buf.prodFlags == {} && 0 <= Occupancy(s)
    ensures Measure(s.buf.ww, s.buf.rw, s.buf.wa, s.buf.ra, s.buf.cap) == Size(Occupancy(s))
  {
    ReachableInv(s);
    SizeExactAtRest(s);
  }

  // ---------------------------------------------------------------- the producer

  lemma ProdSizeStep1(s: State, op: ProdOp, sz: SizePc, sz': SizePc)
    requires Reachable(s) && s.p == PRoom(op, sz) && Calm(s) && !sz.SRet?
    requires sz' == NextSize(s.buf, false, false, sz)
    ensures Reachable(s.(p := PRoom(op, sz'), checking := s.checking + CheckingDelta(sz, sz')))
  {
    hide NextSize, CheckingDelta, Reachable;
    Follow(s, ProdStep, s.(p := PRoom(op, sz'), checking := s.checking + CheckingDelta(sz, sz')));
  }

  /** size() inside a call of the producer. */
  lemma ProdAsksSize(s: State, op: ProdOp, n: int)
    requires Reachable(s) && s.p == PRoom(op, SEnter) && Calm(s)
    requires Measure(s.buf.ww, s.buf.rw, s.buf.wa, s.buf.ra, s.buf.cap) == Size(n)
    ensures Reachable(s.(p := PRoom(op, SRet(n))))
  {
    hide Reachable, Measure;
    var b, c := s.buf, s.checking;
    var inside := s.(checking := c + 1);
    ProdSizeStep1(s, op, SEnter, SGate);
    ProdSizeStep1(inside.(p := PRoom(op, SGate)), op, SGate, STop);
    ProdSizeStep1(inside.(p := PRoom(op, STop)), op, STop, SWrapW(b.ww, false));
    ProdSizeStep1(inside.(p := PRoom(op, SWrapW(b.ww, false))), op, SWrapW(b.ww, false), SWrapR(b.ww, b.rw, false));
    ProdSizeStep1(inside.(p := PRoom(op, SWrapR(b.ww, b.rw, false))), op, SWrapR(b.ww, b.rw, false), SIdxW(b.ww, b.rw, b.wa, false));
    var last := SIdxR(b.ww, b.rw, b.wa, b.ra, false);
    ProdSizeStep1(inside.(p := PRoom(op, SIdxW(b.ww, b.rw, b.wa, false))), op, SIdxW(b.ww, b.rw, b.wa, false), last);
    ProdSizeStep1(inside.(p := PRoom(op, last)), op, last, SRet(n));
  }

  /** From the call to the instruction after the check for room. */
  lemma ProdGranted(s: State, op: ProdOp)
    requires Reachable(s) && s.p.PIdle? && !s.resizing && !ConsMid(s) && Occupancy(s) + Need(op) <= s.buf.cap
    ensures Calm(s) && s.buf.prodFlags == {} && 0 <= Occupancy(s)
    ensures Reachable(s.(p := Granted(s.buf, op), buf := s.buf.(prodFlags := {ProdKey(op)})))
  {
    hide Inv, Reachable, Measure, ProdMid, ConsMid;
    CalmIdle(s);
    var up := s.(buf := s.buf.(prodFlags := {ProdKey(op)}));
    Follow(s, ProdCall(op), s.(p := PLoop(op)));
    Follow(s.(p := PLoop(op)), ProdStep, up.(p := PGate(op)));
    Follow(up.(p := PGate(op)), ProdStep, up.(p := PRoom(op, SEnter)));
    ProdAsksSize(up.(p := PRoom(op, SEnter)), op, Occupancy(s));
    Follow(up.(p := PRoom(op, SRet(Occupancy(s)))), ProdStep, up.(p := Granted(s.buf, op)));
  }

  /** The state after a whole push. */
  function Pushed(s: State, x: Item, sig: Signal): State
    requires Calm(s)
  {
    var b := s.buf;
    var wa := Wrap(b.wa + 1, b.cap);
    s.(buf := b.(store := b.store[b.wa := x], signal := b.signal[b.wa := sig], wa := wa, ww := if wa == 0 then b.ww + 1 else b.ww),
       pushed := s.pushed + [Cell(x, sig)])
  }

  lemma PushCompletes(s: State, x: Item, sig: Signal)
    requires Reachable(s) && s.p.PIdle? && !s.resizing && !ConsMid(s) && Occupancy(s) < s.buf.cap
    ensures Calm(s) && Reachable(Pushed(s, x, sig))
  {
    var op := Push(Some(x), sig);
    ProdGranted(s, op);
    hide Reachable, ProdMid, ConsMid;
    var up := s.(buf := s.buf.(prodFlags := {KPush}));
    var b := up.buf;
    var s1 := up.(p := PItem(op));
    var s2 := up.(p := PSig(op), buf := b.(store := b.store[b.wa := x]));
    Follow(s1, ProdStep, s2);
    PushPublishes(s, s2, x, sig);
  }

  lemma PushPublishes(s: State, s2: State, x: Item, sig: Signal)
    requires Calm(s) && s.p.PIdle? && s.buf.prodFlags == {} && Reachable(s2)
    requires s2 == s.(p := PSig(Push(Some(x), sig)), buf := s.buf.(prodFlags := {KPush}, store := s.buf.store[s.buf.wa := x]))
    ensures Reachable(Pushed(s, x, sig))
  {
    hide Reachable, ProdMid, ConsMid;
    var op := Push(Some(x), sig);
    var t := Pushed(s, x, sig);
    var b := t.buf.(prodFlags := {KPush});
    var s3 := s.(p := PIncA(op, [Cell(x, sig)]), buf := b.(wa := s.buf.wa, ww := s.buf.ww));
    var s4 := t.(p := PIncWrap(op), buf := b.(ww := s.buf.ww));
    Follow(s2, ProdStep, s3);
    Follow(s3, ProdStep, s4);
    Follow(s4, ProdStep, t.(p := PExit(op), buf := b));
    Follow(t.(p := PExit(op), buf := b), ProdStep, t);
  }

  // ---------------------------------------------------------------- the consumer

  /** The three places in which a call of the consumer asks for the size. */
  function Asking(place: nat, op: ConsOp, sz: SizePc): ConsPc {
    if place == 1 then CFirst(op, sz) else if place == 2 then CSecond(op, sz) else CThird(op, sz)
  }

  lemma ConsSizeStep1(s: State, place: nat, op: ConsOp, sz: SizePc, sz': SizePc)
    requires Reachable(s) && s.c == Asking(place, op, sz) && Calm(s) && !sz.SRet? && !ProdMid(s)
    requires sz' == NextSize(s.buf, false, false, sz)
    ensures Reachable(s.(c := Asking(place, op, sz'), checking := s.checking + CheckingDelta(sz, sz')))
  {
    hide NextSize, CheckingDelta, Reachable, Measure, Take;
    Follow(s, ConsStep, s.(c := Asking(place, op, sz'), checking := s.checking + CheckingDelta(sz, sz')));
  }

  /** size() inside a call of the consumer. */
  lemma ConsAsksSize(s: State, place: nat, op: ConsOp, n: int)
    requires Reachable(s) && s.c == Asking(place, op, SEnter) && Calm(s) && !s.p.PIncWrap?
    requires Measure(s.buf.ww, s.buf.rw, s.buf.wa, s.buf.ra, s.buf.cap) == Size(n)
    ensures Reachable(s.(c := Asking(place, op, SRet(n))))
  {
    hide Reachable, Measure, Asking;
    var b, c := s.buf, s.checking;
    var inside := s.(checking := c + 1);
    ConsSizeStep1(s, place, op, SEnter, SGate);
    ConsSizeStep1(inside.(c := Asking(place, op, SGate)), place, op, SGate, STop);
    ConsSizeStep1(inside.(c := Asking(place, op, STop)), place, op, STop, SWrapW(b.ww, false));
    var w := SWrapW(b.ww, false);
    ConsSizeStep1(inside.(c := Asking(place, op, w)), place, op, w, SWrapR(b.ww, b.rw, false));
    var r := SWrapR(b.ww, b.rw, false);
    ConsSizeStep1(inside.(c := Asking(place, op, r)), place, op, r, SIdxW(b.ww, b.rw, b.wa, false));
    var i := SIdxW(b.ww, b.rw, b.wa, false);
    var last := SIdxR(b.ww, b.rw, b.wa, b.ra, false);
    ConsSizeStep1(inside.(c := Asking(place, op, i)), place, op, i, last);
    ConsSizeStep1(inside.(c := Asking(place, op, last)), place, op, last, SRet(n));
  }

  /** The producer is not between its two stores, and no resize is pending. */
  ghost predicate Unhindered(s: State) {
    !s.p.PIncWrap? && !s.resizing
  }

  /** The consumer is between calls and unhindered. */
  ghost predicate ConsFree(s: State) {
    s.c.CIdle? && Unhindered(s)
  }

  /** The state of a call that has raised its flag, and what a peek called before it referred to. */
  function Inside(s: State, op: ConsOp): State {
    s.(buf := s.buf.(consFlags := s.buf.consFlags + {ConsKey(op)}),
       peeked := if op.Peek? || op.PeekRange? then None else s.peeked)
  }

  lemma FreeIsCalm(s: State)
    requires Reachable(s) && Unhindered(s)
    ensures Calm(s) && 0 <= Occupancy(s)
    ensures !ConsMid(s) ==> Measure(s.buf.ww, s.buf.rw, s.buf.wa, s.buf.ra, s.buf.cap) == Size(Occupancy(s))
  {
    ReachableInv(s);
    if !ConsMid(s) {
      SizeExactAtRest(s);
    }
  }

  /** From a round of a call's loop to the answer of its first size(). */
  lemma ConsRound(s: State, op: ConsOp)
    requires Reachable(s) && Unhindered(s) && s.c == CLoop(op) && s.peeked == Inside(s, op).peeked
    ensures Calm(s) && 0 <= Occupancy(s)
    ensures Reachable(Inside(s, op).(c := CFirst(op, SRet(Occupancy(s)))))
  {
    FreeIsCalm(s);
    hide Reachable, Measure, ProdMid;
    var up := Inside(s, op);
    Follow(s, ConsStep, up.(c := CGate(op)));
    Follow(up.(c := CGate(op)), ConsStep, up.(c := CFirst(op, SEnter)));
    ConsAsksSize(up.(c := CFirst(op, SEnter)), 1, op, Occupancy(s));
  }

  /** From the call to the answer of the first size(). */
  lemma ConsAsked(s: State, op: ConsOp)
    requires Reachable(s) && ConsFree(s) && (op.Recycle? ==> op.left > 0)
    ensures Calm(s) && 0 <= Occupancy(s)
    ensures Reachable(Inside(s, op).(c := CFirst(op, SRet(Occupancy(s)))))
  {
    hide Reachable;
    var called := s.(c := CLoop(op), peeked := Inside(s, op).peeked);
    Follow(s, ConsCall(op), called);
    ConsRound(called, op);
  }

  /** A consumer call that finds what it wants goes on to take it. */
  lemma ConsGranted(s: State, op: ConsOp)
    requires Reachable(s) && ConsFree(s) && (op.Recycle? ==> op.left > 0) && Want(op) <= Occupancy(s)
    ensures Calm(s) && Reachable(Take(Inside(s, op), op))
  {
    ConsAsked(s, op);
    hide Reachable, ProdMid, ConsMid;
    Follow(Inside(s, op).(c := CFirst(op, SRet(Occupancy(s)))), ConsStep, Take(Inside(s, op), op));
  }

  lemma PopGranted(s: State)
    requires Reachable(s) && s.c.CIdle? && s.p.PIdle? && !s.resizing && s.buf.consFlags == {} && 0 < Occupancy(s)
    ensures Calm(s)
    ensures Reachable(s.(c := CSig(Pop), buf := s.buf.(consFlags := {KPop})))
  {
    ConsGranted(s, Pop);
    hide Reachable;
    assert Inside(s, Pop).c == s.c;
    assert s.buf.consFlags + {KPop} == {KPop};
  }

  /** A peek_range of no more items than there are returns with a reference to them. */
  lemma PeekRangeCompletes(s: State, n: nat)
    requires Reachable(s) && ConsFree(s) && n <= |s.pushed| - |s.popped|
    ensures exists t: State :: Reachable(t) && t.c.CIdle? && t.peeked == Some(PeekRef(s.buf.ra, n, None, |s.popped|))
  {
    ConsGranted(s, PeekRange(n));
    var t := Take(Inside(s, PeekRange(n)), PeekRange(n));
    hide Reachable;
    assert t.c.CIdle?;
  }

  /** A peek of a queue with items returns with a reference to the first. */
  lemma PeekCompletes(s: State)
    requires Reachable(s) && ConsFree(s) && 0 < |s.pushed| - |s.popped|
    ensures s.buf.ra < |s.buf.signal|
    ensures exists t: State ::
              Reachable(t) && t.c.CIdle? && t.peeked == Some(PeekRef(s.buf.ra, 1, Some(s.buf.signal[s.buf.ra]), |s.popped|))
  {
    ConsGranted(s, Peek);
    hide Reachable;
    var up := Inside(s, Peek);
    var t := up.(c := CIdle, peeked := Some(PeekRef(s.buf.ra, 1, Some(s.buf.signal[s.buf.ra]), |s.popped|)));
    Follow(up.(c := CSig(Peek)), ConsStep, t);
    assert t.c.CIdle?;
  }

  /** One round of recycle: the head is removed. */
  function Recycled(s: State, left: nat): State
    requires Calm(s)
  {
    var b := s.buf;
    var ra := Wrap(b.ra + 1, b.cap);
    s.(c := if left > 1 then CLoop(Recycle(left - 1)) else CIdle,
       buf := b.(ra := ra, rw := if ra == 0 then b.rw + 1 else b.rw, consFlags := b.consFlags - {KRecycle}),
       popped := s.popped + [Cell(b.store[b.ra], b.signal[b.ra])])
  }

  lemma RecycleRound(s: State, left: nat)
    requires Reachable(s) && Unhindered(s) && s.c == CLoop(Recycle(left)) && 0 < left && 0 < Occupancy(s)
    ensures Calm(s) && Reachable(Recycled(s, left))
  {
    var op := Recycle(left);
    ConsRound(s, op);
    hide Reachable, ProdMid, ConsMid;
    var up, t := Inside(s, op), Recycled(s, left);
    var cell := Cell(s.buf.store[s.buf.ra], s.buf.signal[s.buf.ra]);
    Follow(up.(c := CFirst(op, SRet(Occupancy(s)))), ConsStep, up.(c := CIncA(op, cell)));
    var b := t.buf.(consFlags := up.buf.consFlags);
    Follow(up.(c := CIncA(op, cell)), ConsStep, t.(c := CIncWrap(op), buf := b.(rw := s.buf.rw)));
    RecycleLeaves(s, left);
  }

  lemma RecycleLeaves(s: State, left: nat)
    requires Calm(s) && s.c == CLoop(Recycle(left)) && 0 < left
    requires var up, t := Inside(s, Recycle(left)), Recycled(s, left);
             Reachable(t.(c := CIncWrap(Recycle(left)), buf := t.buf.(consFlags := up.buf.consFlags, rw := s.buf.rw)))
    ensures Reachable(Recycled(s, left))
  {
    hide Reachable, ProdMid, ConsMid;
    var op, t := Recycle(left), Recycled(s, left);
    var b := t.buf.(consFlags := s.buf.consFlags + {KRecycle});
    Follow(t.(c := CIncWrap(op), buf := b.(rw := s.buf.rw)), ConsStep, t.(c := CExit(op), buf := b));
    assert b.consFlags - {KRecycle} == t.buf.consFlags;
    Follow(t.(c := CExit(op), buf := b), ConsStep, t);
  }

  /** recycle(n) on at least n items removes n and returns. */
  lemma {:induction false} RecycleLoops(s: State, left: nat) returns (t: State)
    requires Reachable(s) && Unhindered(s) && s.c == CLoop(Recycle(left)) && 0 < left <= Occupancy(s)
    ensures Reachable(t) && t.c.CIdle? && s.popped <= t.popped && |t.popped| == |s.popped| + left && t.pushed == s.pushed
    decreases left
  {
    RecycleRound(s, left);
    t := Recycled(s, left);
    if left > 1 {
      t := RecycleLoops(t, left - 1);
    }
  }

  lemma RecycleCompletes(s: State, n: nat)
    requires Reachable(s) && ConsFree(s) && 0 < n <= |s.pushed| - |s.popped|
    ensures exists t: State :: Reachable(t) && t.c.CIdle? && |t.popped| == |s.popped| + n && t.pushed == s.pushed
  {
    Follow(s, ConsCall(Recycle(n)), s.(c := CLoop(Recycle(n))));
    var t := RecycleLoops(s.(c := CLoop(Recycle(n))), n);
  }

  lemma ConsFindsInvalid(s: State, op: ConsOp)
    requires Reachable(s.(c := CFirst(op, SRet(Occupancy(s))))) && Calm(s) && Occupancy(s) < Want(op) && !s.buf.valid
    ensures Reachable(s.(c := CSecond(op, SEnter)))
  {
    hide Reachable, NextSize;
    Follow(s.(c := CFirst(op, SRet(Occupancy(s)))), ConsStep, s.(c := CValid(op)));
    Follow(s.(c := CValid(op)), ConsStep, s.(c := CSecond(op, SEnter)));
  }

  /** The first size() was too small on an invalid queue: the second is asked. */
  lemma ConsAsksAgain(s: State, op: ConsOp)
    requires Reachable(s) && ConsFree(s) && (op.Recycle? ==> op.left > 0) && Occupancy(s) < Want(op) && !s.buf.valid
    ensures Calm(s) && 0 <= Occupancy(s)
    ensures Reachable(Inside(s, op).(c := CSecond(op, SRet(Occupancy(s)))))
  {
    hide Reachable, Measure, ProdMid;
    ConsAsked(s, op);
    FreeIsCalm(s);
    var up := Inside(s, op);
    ConsFindsInvalid(up, op);
    ConsAsksSize(up.(c := CSecond(op, SEnter)), 2, op, Occupancy(s));
  }

  /**
   * On a closed queue with nothing left, pop, peek and peek_range come to the report of a
   * closed port, and recycle returns.
   */
  lemma DrainedReports(s: State, op: ConsOp)
    requires Reachable(s) && ConsFree(s) && !s.buf.valid && |s.pushed| == |s.popped|
    requires if op.Recycle? then op.left > 0 else op.PeekRange? ==> op.n > 0
    ensures exists t: State ::
              && Reachable(t) && t.pushed == s.pushed && t.popped == s.popped
              && if op.Recycle? then t.c.CIdle? else t.c == CThrown(op, ClosedPortAccess)
  {
    hide Reachable, NextSize, Measure;
    ConsAsksAgain(s, op);
    var up := Inside(s, op);
    var t := up.(c := if op.Recycle? then CQuit(op) else CThrown(op, ClosedPortAccess));
    Follow(up.(c := CSecond(op, SRet(0))), ConsStep, t);
    if op.Recycle? {
      var u := t.(c := CIdle, buf := t.buf.(consFlags := t.buf.consFlags - {KRecycle}));
      Follow(t, ConsStep, u);
      assert Reachable(u) && u.pushed == s.pushed && u.popped == s.popped && u.c.CIdle?;
    } else {
      assert t.pushed == s.pushed && t.popped == s.popped && t.c == CThrown(op, ClosedPortAccess);
    }
  }

  /** On a closed queue with some items, but fewer than n, peek_range(n) comes to its report. */
  lemma TooFewReports(s: State, n: nat)
    requires Reachable(s) && ConsFree(s) && !s.buf.valid && 0 < |s.pushed| - |s.popped| < n
    ensures exists t: State :: Reachable(t) && t.popped == s.popped && t.c == CThrown(PeekRange(n), NoMoreData)
  {
    hide Reachable, Measure, ProdMid, NextSize;
    var op := PeekRange(n);
    ConsAsksAgain(s, op);
    FreeIsCalm(s);
    var up := Inside(s, op);
    var some := Occupancy(s);
    Follow(up.(c := CSecond(op, SRet(some))), ConsStep, up.(c := CValid2(op)));
    Follow(up.(c := CValid2(op)), ConsStep, up.(c := CThird(op, SEnter)));
    ConsAsksSize(up.(c := CThird(op, SEnter)), 3, op, some);
    Follow(up.(c := CThird(op, SRet(some))), ConsStep, up.(c := CThrown(op, NoMoreData)));
    assert up.(c := CThrown(op, NoMoreData)).popped == s.popped;
  }

  /** The state after a whole pop. */
  function Popped(s: State): State
    requires Calm(s)
  {
    var b := s.buf;
    var ra := Wrap(b.ra + 1, b.cap);
    s.(buf := b.(ra := ra, rw := if ra == 0 then b.rw + 1 else b.rw),
       popped := s.popped + [Cell(b.store[b.ra], b.signal[b.ra])])
  }

  lemma PopCompletes(s: State)
    requires Reachable(s) && s.c.CIdle? && s.p.PIdle? && !s.resizing && s.buf.consFlags == {} && 0 < Occupancy(s)
    ensures Calm(s) && Reachable(Popped(s))
  {
    PopGranted(s);
    hide Reachable, ProdMid, ConsMid;
    var b := s.buf.(consFlags := {KPop});
    var sig, t := b.signal[b.ra], Popped(s);
    var cell := Cell(b.store[b.ra], sig);
    var s1 := s.(c := CSig(Pop), buf := b);
    Follow(s1, ConsStep, s.(c := CItem(Pop, sig), buf := b));
    Follow(s.(c := CItem(Pop, sig), buf := b), ConsStep, s.(c := CIncA(Pop, cell), buf := b));
    Follow(s.(c := CIncA(Pop, cell), buf := b), ConsStep, t.(c := CIncWrap(Pop), buf := b.(ra := t.buf.ra)));
    PopLeaves(s, cell);
  }

  lemma PopLeaves(s: State, cell: Cell)
    requires Calm(s) && s.c.CIdle? && s.buf.consFlags == {}
    requires Reachable(Popped(s).(c := CIncWrap(Pop), buf := s.buf.(consFlags := {KPop}, ra := Popped(s).buf.ra)))
    ensures Reachable(Popped(s))
  {
    hide Reachable, ProdMid, ConsMid;
    var t := Popped(s);
    var b := t.buf.(consFlags := {KPop});
    Follow(t.(c := CIncWrap(Pop), buf := b.(rw := s.buf.rw)), ConsStep, t.(c := CExit(Pop), buf := b));
    Follow(t.(c := CExit(Pop), buf := b), ConsStep, t);
  }

  // ---------------------------------------------------------------- reserving a range

  /** The clearing loop, on slots that carry no signal. */
  lemma {:induction false} ClearsNothing(s: State, n: nat, j: nat)
    requires Reachable(s.(p := PClear(AllocateRange(n), 0, s.buf.wa))) && Calm(s) && j < n <= s.buf.cap
    requires s.buf.wa == 0 && forall i :: 0 <= i < s.buf.cap ==> s.buf.signal[i] == NONE
    ensures Reachable(s.(p := PClear(AllocateRange(n), j, j)))
  {
    if j > 0 {
      ClearsNothing(s, n, j - 1);
      hide Reachable;
      var op := AllocateRange(n);
      assert s.buf.signal[j - 1 := NONE] == s.buf.signal;
      Follow(s.(p := PClear(op, j - 1, j - 1)), ProdStep, s.(p := PClear(op, j, j)));
    }
  }

  lemma RangeHeld(s: State, n: nat)
    requires Reachable(s) && s.p.PIdle? && !s.resizing && !ConsMid(s) && Occupancy(s) + n <= s.buf.cap
    requires n == 0 || (s.buf.wa == 0 && forall i :: 0 <= i < |s.buf.signal| ==> s.buf.signal[i] == NONE)
    ensures Calm(s) && Reachable(s.(p := PHeld(AllocateRange(n)), buf := s.buf.(prodFlags := {KAllocateRange})))
  {
    var op := AllocateRange(n);
    ProdGranted(s, op);
    if n > 0 {
      assert Granted(s.buf, op) == PClear(op, 0, s.buf.wa);
      var up := s.(buf := s.buf.(prodFlags := {KAllocateRange}));
      ClearsNothing(up, n, n - 1);
      hide Reachable;
      assert up.buf.signal[n - 1 := NONE] == up.buf.signal;
      Follow(up.(p := PClear(op, n - 1, n - 1)), ProdStep, up.(p := PHeld(op)));
    }
  }

  /** allocate returns as soon as there is room. */
  lemma AllocateCompletes(s: State)
    requires Reachable(s) && s.p.PIdle? && !s.resizing && !ConsMid(s) && |s.pushed| - |s.popped| < s.buf.cap
    ensures exists t: State :: Reachable(t) && t.p == PHeld(Allocate) && t.pushed == s.pushed && t.popped == s.popped
  {
    ProdGranted(s, Allocate);
    hide Reachable, ConsMid;
    var t := s.(p := PHeld(Allocate), buf := s.buf.(prodFlags := {KAllocate}));
    assert t.p == PHeld(Allocate) && t.pushed == s.pushed && t.popped == s.popped;
  }

  // ---------------------------------------------------------------- the resizer

  lemma ResizerReachesCopy(s: State, newCap: nat)
    requires Reachable(s) && s.m.MIdle? && s.buf.valid && !s.resizing && s.buf.cap <= newCap && s.buf.ra < s.buf.wa
    requires s.buf.prodFlags == {} && s.buf.consFlags == {} && s.checking == 0
    ensures Reachable(s.(m := MSwap(newCap), resizing := true))
  {
    hide Reachable, ProdMid, ConsMid;
    var r := s.(resizing := true);
    Follow(s, ResizeCall(newCap), s.(m := MHead(newCap)));
    Follow(s.(m := MHead(newCap)), ResizeStep(false), s.(m := MRaise(newCap)));
    Follow(s.(m := MRaise(newCap)), ResizeStep(false), r.(m := MLoadP(newCap)));
    Follow(r.(m := MLoadP(newCap)), ResizeStep(false), r.(m := MLoadC(newCap)));
    Follow(r.(m := MLoadC(newCap)), ResizeStep(false), r.(m := MLoadS(newCap)));
    Follow(r.(m := MLoadS(newCap)), ResizeStep(false), r.(m := MCond(newCap)));
    Follow(r.(m := MCond(newCap)), ResizeStep(false), r.(m := MSwap(newCap)));
  }

  // ---------------------------------------------------------------- a fresh queue

  /** A fresh FIFO of `cap` slots that all hold `x` and no signal. */
  function Fresh(x: Item, cap: nat): State {
    State(Buf(cap, seq(cap, i => x), seq(cap, i => NONE), 0, 0, 0, 0, true, {}, {}), 0, false, 0,
          PIdle, CIdle, MIdle, None, map[], [], [], {}, [])
  }

  lemma FreshReachable(x: Item, cap: nat)
    requires 0 < cap
    ensures Reachable(Fresh(x, cap))
  {
    var s := Fresh(x, cap);
    assert Init(s) && Run(s, [], s);
  }
}
