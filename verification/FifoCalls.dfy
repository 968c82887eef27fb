/**
 * What whole calls of the shared FIFO do, however the other threads interleave: from the
 * state in which a call is made, or a reserved range is held, to the state in which it has
 * returned.
 */
module FifoCalls {
  import opened Wrappers
  import opened Positions
  import opened SharedFifo
  import opened SharedFifoInvariant
  import opened SharedFifoTheorems

  // ---------------------------------------------------------------- the producer publishes

  /** The producer begins something else. */
  predicate NewProdCall(a: Action) {
    a.ProdCall? || a.ProdAskSize? || a.ProdInvalidate?
  }

  /** What the j-th reference of a reservation points to. */
  function Slot(s: State, j: nat): Item
    requires s.buf.wa < s.buf.cap == |s.buf.store| && j <= s.buf.cap
  {
    s.buf.store[At(s.buf.wa, j, s.buf.cap)]
  }

  lemma ConsKeepsSlots(s: State)
    requires ConsCanStep(s)
    ensures ConsNext(s).buf.store == s.buf.store && ConsNext(s).buf.signal == s.buf.signal
  {
    if ConsSizingPc(s.c) {
      hide ConsNext, NextSize;
      ConsSizingShape(s);
    } else {
      hide NextSize, Measure, ConsSizeStep, ConsNextSize;
    }
  }

  /** While the producer is inside a call, the others leave it, its slots and the published items alone. */
  lemma ReservedStay(s: State, a: Action)
    requires Reachable(s) && Enabled(s, a) && !IsProd(a) && ProdInside(s.p)
    ensures var t := Next(s, a);
            && t.p == s.p && t.pushed == s.pushed && t.buf.wa == s.buf.wa && t.buf.cap == s.buf.cap
            && t.buf.store == s.buf.store && t.buf.signal == s.buf.signal
  {
    ReachableInv(s);
    assert !a.ResizeSwap?;
    hide Inv, Reachable, ConsNext, NextSize;
    OnlyProdPublishes(s, a);
    if a.ConsStep? {
      ConsKeepsSlots(s);
    }
  }

  /** A push that has not stored its signal yet. */
  predicate Pushing(p: ProdPc) {
    (p.PLoop? || p.PGate? || p.PRoom? || p.PAgain? || p.PItem? || p.PSig?) && p.op.Push?
  }

  /** A push has been called, or a reservation sent, and nothing else has begun. */
  predicate Committed(p: ProdPc) {
    p.PIdle? || p.PSendSig? || p.PIncA? || p.PIncWrap? || p.PExit? || Pushing(p)
  }

  /** The cells the call in progress has yet to publish. */
  ghost predicate Owes(s: State, cells: seq<Cell>) {
    if s.p.PSendSig? then
      && s.buf.wa < s.buf.cap == |s.buf.store| && |cells| == Sent(s.p.op) <= s.buf.cap
      && forall i :: 0 <= i < |cells| ==> cells[i] == Cell(Slot(s, i), if i == 0 then s.p.sig else NONE)
    else if s.p.PIncA? then cells == s.p.cells
    else if Pushing(s.p) then
      |cells| == 1 && cells[0].sig == s.p.op.sig && (s.p.op.item.Some? ==> cells[0].item == s.p.op.item.value)
    else cells == []
  }

  lemma OwesStep(s: State, owed: seq<Cell>) returns (cells: seq<Cell>)
    requires Reachable(s) && Committed(s.p) && ProdCanStep(s)
    requires Owes(ProdNext(s), owed)
    ensures Owes(s, cells) && s.pushed + cells == ProdNext(s).pushed + owed
  {
    cells := owed;
    if s.p.PIncA? {
      cells := s.p.cells;
      hide Reachable;
    } else if s.p.PSendSig? {
      HeldRoom(s);
      hide Reachable;
    } else {
      hide Reachable;
      ProdOnly(s);
      OwesElsewhere(s, owed);
    }
  }

  lemma HeldRoom(s: State)
    requires Reachable(s) && s.p.PSendSig?
    ensures s.buf.wa < s.buf.cap == |s.buf.store| && Sent(s.p.op) <= s.buf.cap
  {
    ReachableInv(s);
  }

  lemma OwesElsewhere(s: State, owed: seq<Cell>)
    requires Committed(s.p) && !s.p.PIncA? && !s.p.PSendSig? && ProdCanStep(s)
    requires Owes(ProdNext(s), owed)
    ensures Owes(s, owed)
  {
    hide NextSize, Measure, ProdSizeStep, Slot;
  }

  lemma OwesFrame(s: State, a: Action, owed: seq<Cell>)
    requires Reachable(s) && Committed(s.p) && Enabled(s, a) && !IsProd(a)
    requires Owes(Next(s, a), owed)
    ensures Next(s, a).p == s.p && Next(s, a).pushed == s.pushed && Owes(s, owed)
  {
    hide Reachable, Next, Enabled;
    OnlyProdPublishes(s, a);
    if s.p.PSendSig? {
      ReservedStay(s, a);
    }
  }

  /** Whatever the others do, the call publishes what it owes, once, and then returns. */
  lemma {:induction false} CallPublishes(s: State, acts: seq<Action>, s': State) returns (cells: seq<Cell>)
    requires Reachable(s) && Committed(s.p) && Run(s, acts, s') && s'.p.PIdle?
    requires forall a :: a in acts ==> !NewProdCall(a)
    ensures Owes(s, cells) && s'.pushed == s.pushed + cells
    decreases |acts|
  {
    if acts == [] {
      cells := [];
    } else {
      var a := acts[0];
      ReachableNext(s, a);
      var t := Next(s, a);
      if IsProd(a) {
        assert a == ProdStep && Committed(t.p) by { CommittedStays(s, a); }
        cells := CallPublishes(t, acts[1..], s');
        cells := OwesStep(s, cells);
      } else {
        OnlyProdPublishes(s, a);
        cells := CallPublishes(t, acts[1..], s');
        OwesFrame(s, a, cells);
      }
    }
  }

  lemma CommittedStays(s: State, a: Action)
    requires Reachable(s) && Committed(s.p) && Enabled(s, a) && IsProd(a) && !NewProdCall(a)
    ensures a == ProdStep && Committed(Next(s, a).p)
  {
    hide Reachable, NextSize, Measure;
  }

  /** A push returns only when it has published one element, its own. */
  lemma PushReturns(s: State, item: Option<Item>, sig: Signal, acts: seq<Action>, s': State)
    requires Reachable(s) && Enabled(s, ProdCall(Push(item, sig))) && Run(Next(s, ProdCall(Push(item, sig))), acts, s')
    requires (forall a :: a in acts ==> !NewProdCall(a)) && s'.p.PIdle?
    ensures |s'.pushed| == |s.pushed| + 1 && s'.pushed[..|s.pushed|] == s.pushed
    ensures s'.pushed[|s.pushed|].sig == sig && (item.Some? ==> s'.pushed[|s.pushed|].item == item.value)
  {
    var a := ProdCall(Push(item, sig));
    ReachableNext(s, a);
    var cells := CallPublishes(Next(s, a), acts, s');
  }

  // ---------------------------------------------------------------- reservations

  /** The item last written through reference `j`. */
  function LastWrite(acts: seq<Action>, j: nat): Option<Item> {
    if acts == [] then None
    else
      var later := LastWrite(acts[1..], j);
      if later.None? && acts[0].ProdWrite? && acts[0].j == j then Some(acts[0].item) else later
  }

  /** The signal given to the first send. */
  function SentSignal(acts: seq<Action>): Signal {
    if acts == [] then NONE else if acts[0].ProdSend? then acts[0].sig else SentSignal(acts[1..])
  }

  /** What the j-th reference points to in the end. */
  ghost function Written(s: State, acts: seq<Action>, j: nat): Item
    requires s.buf.wa < s.buf.cap == |s.buf.store| && j <= s.buf.cap
  {
    if LastWrite(acts, j).Some? then LastWrite(acts, j).value else Slot(s, j)
  }

  lemma HeldBounds(s: State)
    requires Reachable(s) && s.p.PHeld?
    ensures !s.p.op.Push? && s.buf.wa < s.buf.cap == |s.buf.store| && Sent(s.p.op) <= Need(s.p.op) <= s.buf.cap
  {
    ReachableInv(s);
  }

  /** Nothing is published, and nothing written, by an action of another thread or a write of the producer. */
  lemma HeldStep(s: State, a: Action, rest: seq<Action>, j: nat)
    requires Reachable(s) && s.p.PHeld? && Enabled(s, a) && !a.ProdSend? && !a.ProdDeallocate? && j < Need(s.p.op)
    ensures Next(s, a).p == s.p && Next(s, a).pushed == s.pushed
    ensures s.buf.wa < s.buf.cap == |s.buf.store| && j <= s.buf.cap
    ensures Next(s, a).buf.wa == s.buf.wa && Next(s, a).buf.cap == s.buf.cap == |Next(s, a).buf.store|
    ensures Written(Next(s, a), rest, j) == Written(s, [a] + rest, j)
  {
    HeldBounds(s);
    hide Reachable, Need;
    assert ([a] + rest)[1..] == rest;
    if !IsProd(a) {
      hide Next, Enabled;
      ReservedStay(s, a);
    } else {
      assert a.ProdWrite?;
      if a.j != j {
        AtInjective(s.buf.wa, a.j, j, s.buf.cap);
      }
    }
  }

  /** The elements of a reservation that is sent: in reference order, the signal on the first. */
  ghost predicate Delivers(s: State, acts: seq<Action>, s': State)
    requires s.p.PHeld? && s.buf.wa < s.buf.cap == |s.buf.store| && Sent(s.p.op) <= s.buf.cap
  {
    var n := Sent(s.p.op);
    && |s'.pushed| == |s.pushed| + n && s'.pushed[..|s.pushed|] == s.pushed
    && forall j :: 0 <= j < n ==>
         s'.pushed[|s.pushed| + j] == Cell(Written(s, acts, j), if j == 0 then SentSignal(acts) else NONE)
  }

  lemma SendDelivers(s: State, sig: Signal, rest: seq<Action>, s': State)
    requires Reachable(s) && s.p.PHeld? && Run(Next(s, ProdSend(sig)), rest, s') && s'.p.PIdle?
    requires forall a :: a in rest ==> !NewProdCall(a)
    ensures s.buf.wa < s.buf.cap == |s.buf.store| && Sent(s.p.op) <= s.buf.cap
    ensures Delivers(s, [ProdSend(sig)] + rest, s')
  {
    HeldBounds(s);
    var a := ProdSend(sig);
    ReachableNext(s, a);
    var cells := CallPublishes(Next(s, a), rest, s');
    NoWriteAfterSend(Next(s, a), rest, s');
    assert ([a] + rest)[1..] == rest;
    assert forall j: nat :: LastWrite([a] + rest, j).None?;
    hide Reachable, Run;
  }

  /** Once sent, nothing is written any more. */
  lemma {:induction false} NoWriteAfterSend(s: State, acts: seq<Action>, s': State)
    requires Reachable(s) && Committed(s.p) && Run(s, acts, s')
    requires forall a :: a in acts ==> !NewProdCall(a)
    ensures forall j: nat :: LastWrite(acts, j).None?
    decreases |acts|
  {
    if acts != [] {
      var a := acts[0];
      ReachableNext(s, a);
      if IsProd(a) {
        CommittedStays(s, a);
      } else {
        OnlyProdPublishes(s, a);
      }
      hide Next;
      NoWriteAfterSend(Next(s, a), acts[1..], s');
    }
  }

  /**
   * A producer that holds a reservation, writes through its references in any order and
   * sends publishes, as its j-th element, what it last wrote through reference j; the signal
   * is on the first element.  The others may do anything meanwhile.
   */
  lemma {:induction false} SentIsWritten(s: State, acts: seq<Action>, s': State)
    requires Reachable(s) && s.p.PHeld? && Run(s, acts, s') && s'.p.PIdle?
    requires forall a :: a in acts ==> !NewProdCall(a) && !a.ProdDeallocate?
    ensures s.buf.wa < s.buf.cap == |s.buf.store|
    ensures Sent(s.p.op) == (if s.p.op.AllocateRange? then s.p.op.n % 0x1_0000_0000 else 1) <= s.buf.cap
    ensures Delivers(s, acts, s')
    decreases |acts|
  {
    HeldBounds(s);
    var a, rest := acts[0], acts[1..];
    assert acts == [a] + rest;
    if a.ProdSend? {
      SendDelivers(s, a.sig, rest, s');
    } else {
      ReachableNext(s, a);
      var t := Next(s, a);
      forall j | 0 <= j < Need(s.p.op)
        ensures t.p == s.p && t.pushed == s.pushed && t.buf.wa == s.buf.wa && t.buf.cap == s.buf.cap == |t.buf.store|
        ensures Written(t, rest, j) == Written(s, acts, j)
      {
        HeldStep(s, a, rest, j);
      }
      HeldPublishesNothing(s, a);
      hide Next, Enabled, Reachable, Written, LastWrite, Slot;
      SentIsWritten(t, rest, s');
    }
  }

  lemma HeldPublishesNothing(s: State, a: Action)
    requires Reachable(s) && s.p.PHeld? && Enabled(s, a) && !a.ProdSend? && !a.ProdDeallocate?
    ensures Next(s, a).p == s.p && Next(s, a).pushed == s.pushed && SentSignal([a]) == NONE
  {
    hide Reachable;
    if !IsProd(a) {
      hide Next, Enabled;
      OnlyProdPublishes(s, a);
    }
  }

  /** An allocate that has been given back publishes nothing. */
  lemma DeallocatePublishesNothing(s: State, acts: seq<Action>, s': State)
    requires Reachable(s) && Enabled(s, ProdDeallocate) && Run(Next(s, ProdDeallocate), acts, s') && s'.p.PIdle?
    requires forall a :: a in acts ==> !NewProdCall(a)
    ensures s'.pushed == s.pushed
  {
    ReachableNext(s, ProdDeallocate);
    var cells := CallPublishes(Next(s, ProdDeallocate), acts, s');
  }

  /** allocate and allocate_range have been called, and have not yet been sent or given back. */
  predicate Reserving(p: ProdPc, op: ProdOp) {
    (p.PLoop? || p.PGate? || p.PRoom? || p.PAgain? || p.PClear? || p.PHeld?) && p.op == op
  }

  lemma ReservingStep(s: State, a: Action, op: ProdOp)
    requires Reachable(s) && Reserving(s.p, op) && !op.Push? && Enabled(s, a)
    requires !NewProdCall(a) && !a.ProdSend? && !a.ProdDeallocate?
    ensures Reserving(Next(s, a).p, op) && Next(s, a).pushed == s.pushed
  {
    hide Reachable;
    if !IsProd(a) {
      hide Next, Enabled;
      OnlyProdPublishes(s, a);
    } else {
      hide NextSize, Measure;
    }
  }

  lemma {:induction false} StaysReserving(s: State, op: ProdOp, acts: seq<Action>, s': State)
    requires Reachable(s) && Reserving(s.p, op) && !op.Push? && Run(s, acts, s')
    requires forall a :: a in acts ==> !NewProdCall(a) && !a.ProdSend? && !a.ProdDeallocate?
    ensures Reserving(s'.p, op) && s'.pushed == s.pushed && Reachable(s')
    decreases |acts|
  {
    if acts != [] {
      ReservingStep(s, acts[0], op);
      ReachableNext(s, acts[0]);
      hide Next, Reserving;
      StaysReserving(Next(s, acts[0]), op, acts[1..], s');
    }
  }

  /** allocate and allocate_range return only with room for all they were asked for, and publish nothing. */
  lemma ReservationReturns(s: State, op: ProdOp, acts: seq<Action>, s': State)
    requires Reachable(s) && Enabled(s, ProdCall(op)) && !op.Push? && Run(Next(s, ProdCall(op)), acts, s')
    requires forall a :: a in acts ==> !NewProdCall(a) && !a.ProdSend? && !a.ProdDeallocate?
    ensures !s'.p.PIdle? && s'.pushed == s.pushed
    ensures s'.p.PHeld? ==>
              s'.p.op == op && |s'.pushed| - |s'.popped| + (if op.AllocateRange? then op.n else 1) <= s'.buf.cap
  {
    ReachableNext(s, ProdCall(op));
    StaysReserving(Next(s, ProdCall(op)), op, acts, s');
    ReachableInv(s');
  }

  // ---------------------------------------------------------------- the consumer removes

  predicate NewConsCall(a: Action) {
    a.ConsCall? || a.ConsUnpeek? || a.ConsAskSize?
  }

  /** The items the call in progress has yet to remove. */
  function Due(c: ConsPc): int {
    if c.CIdle? || c.CSizing? then 0
    else
      var last := if c.CIncWrap? || c.CExit? then 1 else 0;
      match c.op
      case Pop => 1 - last
      case Recycle(left) => left - last
      case _ => 0
  }

  lemma DueStep(s: State)
    requires ConsCanStep(s) && !s.c.CQuit? && (s.c.CIncA? ==> s.c.op.Pop? || s.c.op.Recycle?)
    ensures s.popped <= ConsNext(s).popped
    ensures |ConsNext(s).popped| + Due(ConsNext(s).c) == |s.popped| + Due(s.c)
  {
    if ConsSizingPc(s.c) {
      DueSizing(s);
    } else {
      hide NextSize, Measure, ConsSizeStep, ConsNextSize;
    }
  }

  lemma DueSizing(s: State)
    requires ConsCanStep(s) && ConsSizingPc(s.c)
    ensures ConsNext(s).popped == s.popped && Due(ConsNext(s).c) == Due(s.c)
  {
    hide ConsNext, NextSize;
    ConsSizingShape(s);
  }

  lemma ConsKnows(s: State)
    requires Reachable(s)
    ensures s.c.CIncA? ==> s.c.op.Pop? || s.c.op.Recycle?
    ensures s.c.CQuit? ==> s.c.op.Recycle? && !s.buf.valid && |s.popped| == |s.pushed|
    ensures !s.buf.valid ==> Stopped(s.p)
  {
    ReachableInv(s);
    hide ContentInv, HistoryInv, PeekInv, ObsInv, CountInv, ResizeInv, ProdSizeInv, ConsSizeInv, ExactSizeInv;
  }

  /** Giving up on a closed, drained queue: nothing is removed any more, nor will there be anything to remove. */
  lemma QuitRemovesNothing(s: State, acts: seq<Action>, s': State)
    requires Reachable(s) && s.c.CQuit? && Run(s, acts, s')
    ensures s.popped <= s'.popped ==> |s'.popped| == |s'.pushed| == |s.popped|
    ensures !s'.buf.valid
  {
    ConsKnows(s);
    StoppedForever(s, acts, s');
    ReachableRun(s, acts, s');
    ReachableInv(s');
  }

  lemma {:induction false} RunKeepsPopped(s: State, acts: seq<Action>, s': State)
    requires Reachable(s) && Run(s, acts, s')
    ensures s.popped <= s'.popped
    decreases |acts|
  {
    if acts != [] {
      var a := acts[0];
      ReachableNext(s, a);
      PoppedStep(s, a);
      hide Next;
      RunKeepsPopped(Next(s, a), acts[1..], s');
    }
  }

  lemma PoppedStep(s: State, a: Action)
    requires Reachable(s) && Enabled(s, a)
    ensures s.popped <= Next(s, a).popped
  {
    ConsKnows(s);
    hide Reachable;
    if !IsCons(a) {
      hide Next, Enabled;
      OnlyConsRemoves(s, a);
    } else if a.ConsStep? && !s.c.CQuit? {
      DueStep(s);
      hide ConsNext;
    }
  }

  /**
   * Whatever the others do, a call of the consumer that returns has removed what it was due
   * to remove; only recycle may have given up, on a closed queue with nothing left in it.
   */
  lemma {:induction false} CallRemoves(s: State, acts: seq<Action>, s': State)
    requires Reachable(s) && Run(s, acts, s') && s'.c.CIdle?
    requires forall a :: a in acts ==> !NewConsCall(a)
    ensures |s'.popped| <= |s.popped| + Due(s.c)
    ensures |s'.popped| == |s.popped| + Due(s.c)
         || (!s.c.CIdle? && !s.c.CSizing? && s.c.op.Recycle? && !s'.buf.valid && |s'.popped| == |s'.pushed|)
    decreases |acts|
  {
    ConsKnows(s);
    if s.c.CQuit? {
      RunKeepsPopped(s, acts, s');
      QuitRemovesNothing(s, acts, s');
    } else if acts != [] {
      var a := acts[0];
      ReachableNext(s, a);
      CallRemoves(Next(s, a), acts[1..], s');
      hide Reachable, Run;
      if IsCons(a) {
        assert a in acts;
        assert a == ConsStep;
        DueStep(s);
        OpStays(s);
      } else {
        hide Next, Enabled;
        OnlyConsRemoves(s, a);
      }
    }
  }

  /** A step stays in a call of the same kind or leaves it. */
  lemma OpStays(s: State)
    requires ConsCanStep(s)
    ensures var c := ConsNext(s).c;
            !c.CIdle? && !c.CSizing? && c.op.Recycle? ==> !s.c.CIdle? && !s.c.CSizing? && s.c.op.Recycle?
  {
    hide NextSize, Measure, ConsSizeStep;
  }

  /** A pop returns only when it has removed one item, the oldest. */
  lemma PopReturns(s: State, acts: seq<Action>, s': State)
    requires Reachable(s) && Enabled(s, ConsCall(Pop)) && Run(Next(s, ConsCall(Pop)), acts, s')
    requires (forall a :: a in acts ==> !NewConsCall(a)) && s'.c.CIdle?
    ensures |s'.popped| == |s.popped| + 1 <= |s'.pushed| && s'.popped[..|s.popped|] == s.popped
    ensures s'.popped[|s.popped|].item == s'.pushed[|s.popped|].item
  {
    var t := Next(s, ConsCall(Pop));
    ReachableNext(s, ConsCall(Pop));
    CallRemoves(t, acts, s');
    RunKeepsPopped(t, acts, s');
    ReachableRun(t, acts, s');
    ReachableInv(s');
  }

  /** recycle(n) on an open queue returns only when it has removed n items; on a closed one it may find fewer. */
  lemma RecycleReturns(s: State, n: nat, acts: seq<Action>, s': State)
    requires Reachable(s) && Enabled(s, ConsCall(Recycle(n))) && Run(Next(s, ConsCall(Recycle(n))), acts, s')
    requires (forall a :: a in acts ==> !NewConsCall(a)) && s'.c.CIdle?
    ensures |s'.popped| == |s.popped| + n || (!s'.buf.valid && |s'.popped| == |s'.pushed|)
    ensures s.popped <= s'.popped && |s'.popped| <= |s.popped| + n && |s'.popped| <= |s'.pushed|
  {
    var t := Next(s, ConsCall(Recycle(n)));
    ReachableNext(s, ConsCall(Recycle(n)));
    CallRemoves(t, acts, s');
    RunKeepsPopped(t, acts, s');
    ReachableRun(t, acts, s');
    ReachableInv(s');
  }

  // ---------------------------------------------------------------- the consumer peeks

  /** Inside a call of peek or peek_range. */
  predicate Peeking(c: ConsPc) {
    !c.CIdle? && !c.CSizing? && (c.op.Peek? || c.op.PeekRange?)
  }

  /** Element `i` of the reference. */
  function Shown(s: State, i: nat): Item
    requires s.peeked.Some? && 0 < s.buf.cap == |s.buf.store|
  {
    s.buf.store[Wrap(i + s.peeked.value.base, s.buf.cap)]
  }

  /** A reference to exactly the first `n` unread items is out. */
  ghost predicate HandsOut(s: State, n: nat) {
    s.peeked.Some? &&
    var r := s.peeked.value;
    && r.n == n && r.from == |s.popped| && r.from + n <= |s.pushed| && 0 < s.buf.cap == |s.buf.store|
    && forall i :: 0 <= i < n ==> Shown(s, i) == s.pushed[r.from + i].item
  }

  /** It carries the signal of the first of them, unless that was overwritten. */
  ghost predicate CarriesHeadSignal(s: State) {
    s.peeked.Some? &&
    var r := s.peeked.value;
    r.from < |s.pushed| && r.sig.Some? && (r.from !in s.blurred ==> r.sig.value == s.pushed[r.from].sig)
  }

  lemma PeekRefShape(s: State)
    requires ConsCanStep(s) && Peeking(s.c) && !ConsSizingPc(s.c) && ConsNext(s).c.CIdle?
    requires !s.c.CQuit? && !s.c.CExit?
    ensures ConsNext(s).peeked.Some? && ConsNext(s).popped == s.popped
    ensures var r := ConsNext(s).peeked.value;
            r.n == (if s.c.op.Peek? then 1 else s.c.op.n) && r.from == |s.popped| && (s.c.op.Peek? ==> r.sig.Some?)
  {
    hide NextSize, Measure, ConsSizeStep;
  }

  lemma PeekPlaces(s: State)
    requires Reachable(s)
    ensures Peeking(s.c) ==> !s.c.CQuit? && !s.c.CExit?
    ensures s.peeked.Some? ==>
              s.peeked.value.from + s.peeked.value.n <= |s.pushed| && s.peeked.value.base < s.buf.cap == |s.buf.store|
    ensures s.peeked.Some? && s.peeked.value.sig.Some? ==> CarriesHeadSignal(s)
  {
    ReachableInv(s);
    hide ContentInv, HistoryInv, ProdInv, ObsInv, CountInv, ResizeInv, ConsSizeInv, ExactSizeInv;
  }

  lemma RefShows(s: State, n: nat)
    requires Reachable(s) && s.peeked.Some? && s.peeked.value.n == n && s.peeked.value.from == |s.popped|
    ensures HandsOut(s, n)
  {
    PeekPlaces(s);
    forall i | 0 <= i < n
      ensures Shown(s, i) == s.pushed[|s.popped| + i].item
    {
      PeekedItemsStay(s, i);
    }
  }

  /**
   * The step in which peek or peek_range(n) returns hands out a reference to exactly the
   * first unread item, with its signal, or the first n unread items.
   */
  lemma PeekHandsOut(s: State)
    requires Reachable(s) && ConsCanStep(s) && Peeking(s.c) && ConsNext(s).c.CIdle?
    ensures HandsOut(ConsNext(s), if s.c.op.Peek? then 1 else s.c.op.n) && ConsNext(s).popped == s.popped
    ensures s.c.op.Peek? ==> CarriesHeadSignal(ConsNext(s))
  {
    ReachableNext(s, ConsStep);
    var t := ConsNext(s);
    PeekPlaces(s);
    if ConsSizingPc(s.c) {
      hide ConsNext, NextSize;
      ConsSizingShape(s);
    } else {
      PeekRefShape(s);
      hide ConsNext;
      RefShows(t, if s.c.op.Peek? then 1 else s.c.op.n);
      PeekPlaces(t);
    }
  }

  /** No other thread moves the reference or the read position. */
  lemma ReferenceStays(s: State, a: Action)
    requires Enabled(s, a) && !IsCons(a)
    ensures Next(s, a).peeked == s.peeked && Next(s, a).popped == s.popped && Next(s, a).c == s.c
  {
    OnlyConsRemoves(s, a);
    if a.ProdStep? {
      ProdKeepsReference(s);
    }
    hide ProdNext, NextSize;
  }

  lemma ProdKeepsReference(s: State)
    requires ProdCanStep(s)
    ensures ProdNext(s).peeked == s.peeked
  {
    hide NextSize, Measure;
  }

  lemma {:induction false} ReferenceRemains(s: State, acts: seq<Action>, s': State)
    requires Run(s, acts, s') && s.c.CIdle?
    requires forall a :: a in acts ==> !NewConsCall(a)
    ensures s'.peeked == s.peeked && s'.popped == s.popped
    decreases |acts|
  {
    if acts != [] {
      var a := acts[0];
      assert a in acts;
      assert !IsCons(a);
      ReferenceStays(s, a);
      hide Next;
      ReferenceRemains(Next(s, a), acts[1..], s');
    }
  }

  lemma PeekingStep(s: State)
    requires ConsCanStep(s) && Peeking(s.c) && Reachable(s)
    ensures ConsNext(s).c.CIdle? || (Peeking(ConsNext(s).c) && ConsNext(s).c.op == s.c.op)
    ensures ConsNext(s).popped == s.popped
  {
    ConsKnows(s);
    PeekPlaces(s);
    hide Reachable;
    if ConsSizingPc(s.c) {
      SizingStaysInCall(s);
    } else {
      hide NextSize, Measure, ConsSizeStep, ConsNextSize;
    }
  }

  lemma SizingStaysInCall(s: State)
    requires ConsCanStep(s) && ConsSizingPc(s.c) && Peeking(s.c)
    ensures Peeking(ConsNext(s).c) && ConsNext(s).c.op == s.c.op && ConsNext(s).popped == s.popped
  {
    hide ConsNext, NextSize;
    ConsSizingShape(s);
  }

  /**
   * peek and peek_range(n) return only with a reference to exactly the first unread item, or
   * to the first n of them, in order; none is removed.  The others may do anything meanwhile,
   * also after the return.
   */
  lemma {:induction false} PeekReturns(s: State, acts: seq<Action>, s': State)
    requires Reachable(s) && Peeking(s.c) && Run(s, acts, s') && s'.c.CIdle?
    requires forall a :: a in acts ==> !NewConsCall(a)
    ensures HandsOut(s', if s.c.op.Peek? then 1 else s.c.op.n) && s'.popped == s.popped
    ensures s.c.op.Peek? ==> CarriesHeadSignal(s')
    decreases |acts|
  {
    var a := acts[0];
    var t := Next(s, a);
    assert a in acts;
    ReachableNext(s, a);
    if IsCons(a) {
      assert a == ConsStep;
      PeekingStep(s);
      if t.c.CIdle? {
        PeekHandsOut(s);
        ReachableRun(t, acts[1..], s');
        ReferenceRemains(t, acts[1..], s');
        hide Next, Enabled, ConsNext;
        RefShows(s', if s.c.op.Peek? then 1 else s.c.op.n);
        PeekPlaces(s');
      } else {
        hide ConsNext, Enabled, Next;
        PeekReturns(t, acts[1..], s');
      }
    } else {
      ReferenceStays(s, a);
      hide ConsNext, Enabled, Next;
      PeekReturns(t, acts[1..], s');
    }
  }

  // ---------------------------------------------------------------- flags

  /** Every flag of the consumer belongs to the call in progress or to the reference that is out. */
  ghost predicate FlagsAccounted(s: State) {
    forall key :: key in s.buf.consFlags ==>
      || (!s.c.CIdle? && !s.c.CSizing? && key == ConsKey(s.c.op))
      || (s.peeked.Some? && key == KPeek)
  }

  lemma ConsKeepsFlags(s: State)
    requires FlagsAccounted(s) && ConsCanStep(s)
    requires s.c.CSig? || s.c.CFirst? ==> s.peeked.Some? ==> ConsKey(s.c.op) != KPeek
    ensures FlagsAccounted(ConsNext(s))
  {
    if ConsSizingPc(s.c) {
      hide ConsNext, NextSize;
      ConsSizingShape(s);
      SizingKeepsKey(s);
    } else {
      hide NextSize, Measure, ConsSizeStep, ConsNextSize;
    }
  }

  lemma SizingKeepsKey(s: State)
    requires ConsCanStep(s) && ConsSizingPc(s.c)
    ensures ConsNext(s).c.CSizing? == s.c.CSizing? && !ConsNext(s).c.CIdle?
    ensures !s.c.CSizing? ==> ConsNext(s).c.op == s.c.op
  {
    hide ConsNext, NextSize;
    ConsSizingShape(s);
  }

  lemma FlagsStep(s: State, a: Action)
    requires FlagsAccounted(s) && Enabled(s, a) && Reachable(s)
    ensures FlagsAccounted(Next(s, a))
  {
    if a.ConsStep? {
      PeekApart(s);
      ConsKeepsFlags(s);
    } else if IsCons(a) {
      hide Reachable, ConsNext, ProdNext;
    } else {
      hide Reachable, ConsNext;
      OthersKeepFlags(s, a);
      hide Next;
    }
  }

  /** A peek in progress has no reference out. */
  lemma PeekApart(s: State)
    requires Reachable(s)
    ensures ConsFlagUp(s.c) && s.peeked.Some? ==> ConsKey(s.c.op) != KPeek
  {
    ReachableInv(s);
    hide ContentInv, HistoryInv, ProdInv, PeekInv, ObsInv, CountInv, ResizeInv, ConsSizeInv, ExactSizeInv;
  }

  lemma OthersKeepFlags(s: State, a: Action)
    requires Enabled(s, a) && !IsCons(a)
    ensures Next(s, a).buf.consFlags == s.buf.consFlags && Next(s, a).c == s.c && Next(s, a).peeked == s.peeked
  {
    ReferenceStays(s, a);
    if a.ProdStep? {
      ProdKeepsConsFlags(s);
    }
    hide ProdNext, NextSize;
  }

  lemma ProdKeepsConsFlags(s: State)
    requires ProdCanStep(s)
    ensures ProdNext(s).buf.consFlags == s.buf.consFlags
  {
    hide NextSize, Measure;
  }

  lemma {:induction false} FlagsRun(s: State, acts: seq<Action>, s': State)
    requires FlagsAccounted(s) && Reachable(s) && Run(s, acts, s')
    ensures FlagsAccounted(s')
    decreases |acts|
  {
    if acts != [] {
      FlagsStep(s, acts[0]);
      ReachableNext(s, acts[0]);
      hide Next, FlagsAccounted;
      FlagsRun(Next(s, acts[0]), acts[1..], s');
    }
  }

  /** Calls that have returned leave no flag up, save for a reference that is out; so they never hold up a resize. */
  lemma IdleFlagsDown(s: State)
    requires Reachable(s)
    ensures s.p.PIdle? || s.p.PStopped? ==> s.buf.prodFlags == {}
    ensures s.c.CIdle? ==> s.buf.consFlags == if s.peeked.Some? then {KPeek} else {}
  {
    ReachableInv(s);
    var s0: State, acts: seq<Action> :| Init(s0) && Run(s0, acts, s);
    InitReachable(s0);
    FlagsRun(s0, acts, s);
    hide ContentInv, HistoryInv, PeekInv, ObsInv, CountInv, ResizeInv, Reachable, Run, ConsSizeInv, ExactSizeInv, ProdSizeInv;
  }

  lemma InitReachable(s: State)
    requires Init(s)
    ensures Reachable(s)
  {
    assert Run(s, [], s);
  }

  // ---------------------------------------------------------------- the resizer

  /** A resize has been called and has not swapped the buffers. */
  predicate Pending(m: ResizePc) {
    !m.MIdle? && !(m.MDrop? && m.done)
  }

  lemma ResizerFrameStep(s: State, a: Action)
    requires Enabled(s, a) && !a.ResizeCall? && !a.ResizeStep? && !a.ResizeSwap?
    ensures Next(s, a).m == s.m && Next(s, a).epoch == s.epoch && Next(s, a).buf.cap == s.buf.cap
  {
    hide ProdNext, ConsNext, NextSize;
    if a.ProdStep? {
      ProdOnly(s);
    } else if a.ConsStep? {
      ConsOnly(s);
    }
  }

  /**
   * A resize that is not told to exit returns only after it has swapped in a buffer of the
   * size it was asked for, once, or with the queue invalidated.
   */
  lemma {:induction false} ResizeReturns(s: State, acts: seq<Action>, s': State)
    requires Reachable(s) && Run(s, acts, s') && s'.m.MIdle?
    requires forall a :: a in acts ==> !a.ResizeCall? && a != ResizeStep(true)
    ensures Pending(s.m) ==>
              || (s'.epoch == s.epoch + 1 && s'.buf.cap == s.m.newCap)
              || (s'.epoch == s.epoch && s'.buf.cap == s.buf.cap && !s'.buf.valid)
    ensures !Pending(s.m) ==> s'.epoch == s.epoch && s'.buf.cap == s.buf.cap
    decreases |acts|
  {
    if acts != [] {
      var a := acts[0];
      var t := Next(s, a);
      assert a in acts;
      ReachableNext(s, a);
      ResizeReturns(t, acts[1..], s');
      if Pending(s.m) && t.m.MIdle? {
        ResizerGivesUp(s, a);
        StoppedForever(t, acts[1..], s');
      } else {
        hide Run, Reachable;
        ResizerStep(s, a);
        hide Next, Enabled;
      }
    }
  }

  lemma ResizerGivesUp(s: State, a: Action)
    requires Reachable(s) && Enabled(s, a) && !a.ResizeCall? && a != ResizeStep(true)
    requires Pending(s.m) && Next(s, a).m.MIdle?
    ensures !Next(s, a).buf.valid && Stopped(Next(s, a).p)
    ensures Next(s, a).epoch == s.epoch && Next(s, a).buf.cap == s.buf.cap
  {
    ConsKnows(s);
    hide Reachable, ProdNext, ConsNext, NextSize;
    if !a.ResizeStep? && !a.ResizeSwap? {
      ResizerFrameStep(s, a);
    }
  }

  lemma ResizerStep(s: State, a: Action)
    requires Enabled(s, a) && !a.ResizeCall?
    requires !(Pending(s.m) && Next(s, a).m.MIdle?)
    ensures var t := Next(s, a);
            if Pending(s.m) then
              if Pending(t.m) then t.m.newCap == s.m.newCap && t.epoch == s.epoch && t.buf.cap == s.buf.cap
              else t.epoch == s.epoch + 1 && t.buf.cap == s.m.newCap
            else !Pending(t.m) && t.epoch == s.epoch && t.buf.cap == s.buf.cap
  {
    hide ProdNext, ConsNext, NextSize;
    if !a.ResizeStep? && !a.ResizeSwap? {
      ResizerFrameStep(s, a);
      hide Next;
    }
  }

  /** By its own steps alone the resizer can return. */
  ghost predicate CanReturn(s: State) {
    exists acts: seq<Action>, s': State ::
      && Run(s, acts, s') && s'.m.MIdle?
      && forall a :: a in acts ==> a.ResizeSwap? || a == ResizeStep(true)
  }

  lemma ReturnNext(s: State, a: Action)
    requires Enabled(s, a) && (a.ResizeSwap? || a == ResizeStep(true)) && CanReturn(Next(s, a))
    ensures CanReturn(s)
  {
    var t := Next(s, a);
    var acts: seq<Action>, s': State :|
      && Run(t, acts, s') && s'.m.MIdle?
      && forall a :: a in acts ==> a.ResizeSwap? || a == ResizeStep(true);
    assert ([a] + acts)[1..] == acts;
    hide Next, Enabled;
    assert Run(s, [a] + acts, s');
  }

  function ResizeRank(m: ResizePc): nat {
    match m
    case MIdle => 0
    case MHead(_) => 1
    case MDrop(_, _, _) => 2
    case MSwap(_) => 3
    case MCond(_) => 4
    case MLoadS(_) => 5
    case MLoadC(_) => 6
    case MLoadP(_) => 7
    case MRaise(_) => 8
  }

  lemma ResizersTurn(s: State) returns (a: Action)
    requires Reachable(s) && !s.m.MIdle?
    ensures Enabled(s, a) && (if s.m.MSwap? then a.ResizeSwap? else a == ResizeStep(true))
  {
    a := ResizeStep(true);
    if s.m.MSwap? {
      ReachableInv(s);
      hide ContentInv, HistoryInv, ProdInv, ConsInv, PeekInv, ObsInv, CountInv;
      a := ResizeSwap(seq(s.m.newCap - s.buf.cap, i => s.buf.store[0]), seq(s.m.newCap, i => NONE));
    }
  }

  /** A resizer that is told to exit returns, wherever it is and whatever flags are up. */
  lemma ResizerCanExit(s: State)
    requires Reachable(s)
    ensures CanReturn(s)
    decreases ResizeRank(s.m)
  {
    if s.m.MIdle? {
      assert Run(s, [], s);
    } else {
      var a := ResizersTurn(s);
      ReachableNext(s, a);
      hide Reachable, CanReturn;
      ResizerCanExit(Next(s, a));
      ReturnNext(s, a);
    }
  }
}
