/**
 * The heap FIFO of RaftLib as it runs: one producer thread, one consumer thread, a
 * monitor thread that resizes the buffer, and any number of threads that only ask
 * for the size.  Every load and store of shared memory that another thread can
 * notice is a step of its own, so a run is an arbitrary interleaving.
 *
 * Sources: raftinc/ringbufferheap.tcc (inline, non-class items),
 * raftinc/ringbufferheap_abstract.tcc, raftinc/datamanager.tcc, src/pointer.cpp,
 * raftinc/bufferdata.tcc.
 */
module SharedFifo {
  import opened Wrappers
  import opened Positions

  type Item(==, !new)
  type Signal = int

  /** raft::none */
  const NONE: Signal := 0

  /** One published element: the item and the signal that travels with it. */
  datatype Cell = Cell(item: Item, sig: Signal)

  /** dm::access_key without `size`, which is counted instead of flagged. */
  datatype Key = KAllocate | KAllocateRange | KPush | KRecycle | KPop | KPeek

  /** Buffer::Data: the storage, both pointers, and the access flags of each side. */
  datatype Buf = Buf(
    cap: nat,
    store: seq<Item>, signal: seq<Signal>,
    ra: nat, rw: nat,
    wa: nat, ww: nat,
    valid: bool,
    prodFlags: set<Key>, consFlags: set<Key>)

  /**
   * The program counter of one call of `size()`, with the values loaded so far.
   * `mid` is a history value: was the producer between its two stores when the
   * first load took place?
   */
  datatype SizePc =
    | SEnter
    | SGate
    | SAgain
    | STop
    | SWrapW(ww: nat, mid: bool)
    | SWrapR(ww: nat, rw: nat, mid: bool)
    | SIdxW(ww: nat, rw: nat, wpt: nat, mid: bool)
    | SIdxR(ww: nat, rw: nat, wpt: nat, rpt: nat, mid: bool)
    | SRet(n: int)

  datatype ProdOp =
    | Push(item: Option<Item>, sig: Signal)
    | Allocate
    | AllocateRange(n: nat)

  datatype ProdPc =
    | PIdle
    | PLoop(op: ProdOp)
    | PGate(op: ProdOp)
    | PRoom(op: ProdOp, sz: SizePc)
    | PAgain(op: ProdOp)
    | PItem(op: ProdOp)
    | PSig(op: ProdOp)
    | PClear(op: ProdOp, j: nat, wi: nat)
    | PHeld(op: ProdOp)
    | PSendSig(op: ProdOp, sig: Signal)
    | PIncA(op: ProdOp, cells: seq<Cell>)
    | PIncWrap(op: ProdOp)
    | PExit(op: ProdOp)
    | PSizing(sz: SizePc)
    | PInvalidating(target: nat)
    | PStopped
    | PReinvalidating(target: nat)

  datatype ConsOp = Pop | Peek | PeekRange(n: nat) | Recycle(left: nat)

  datatype PortException = ClosedPortAccess | NoMoreData

  datatype ConsPc =
    | CIdle
    | CLoop(op: ConsOp)
    | CGate(op: ConsOp)
    | CFirst(op: ConsOp, sz: SizePc)
    | CValid(op: ConsOp)
    | CSecond(op: ConsOp, sz: SizePc)
    | CValid2(op: ConsOp)
    | CThird(op: ConsOp, sz: SizePc)
    | CAgain(op: ConsOp)
    | CSig(op: ConsOp)
    | CItem(op: ConsOp, sig: Signal)
    | CIncA(op: ConsOp, cell: Cell)
    | CIncWrap(op: ConsOp)
    | CExit(op: ConsOp)
    | CQuit(op: ConsOp)
    | CSizing(sz: SizePc)
    | CThrown(op: ConsOp, error: PortException)

  /**
   * A reference handed out by `peek` or `peek_range`: the first slot and the count.
   * `from` is a history value, the number of items removed before the call.
   */
  datatype PeekRef = PeekRef(base: nat, n: nat, sig: Option<Signal>, from: nat)

  /** In `MDrop`, `cleared` is a history value: did all three all-clear loads succeed? */
  datatype ResizePc =
    | MIdle
    | MHead(newCap: nat)
    | MRaise(newCap: nat)
    | MLoadP(newCap: nat)
    | MLoadC(newCap: nat)
    | MLoadS(newCap: nat)
    | MCond(newCap: nat)
    | MSwap(newCap: nat)
    | MDrop(newCap: nat, cleared: bool, done: bool)

  /** A completed invalidate: the buffer objects current at its load and at its store. */
  datatype Closing = Closing(loaded: nat, stored: nat)

  /**
   * The shared state and every thread's program counter.  `epoch` names the current
   * buffer object.  `pushed`, `popped`, `blurred` and `closings` are history: the cells
   * published and removed so far, the numbers of the items whose signal may have been
   * lost, and the invalidates so far.
   */
  datatype State = State(
    buf: Buf, epoch: nat,
    resizing: bool, checking: int,
    p: ProdPc, c: ConsPc, m: ResizePc,
    peeked: Option<PeekRef>,
    obs: map<nat, SizePc>,
    pushed: seq<Cell>, popped: seq<Cell>, blurred: set<nat>, closings: seq<Closing>)

  // ---------------------------------------------------------------- operations

  function ProdKey(op: ProdOp): Key {
    match op
    case Push(_, _) => KPush
    case Allocate => KAllocate
    case AllocateRange(_) => KAllocateRange
  }

  function ConsKey(op: ConsOp): Key {
    match op
    case Pop => KPop
    case Peek => KPeek
    case PeekRange(_) => KPeek
    case Recycle(_) => KRecycle
  }

  /** Free slots a producer call waits for. */
  function Need(op: ProdOp): nat {
    match op
    case Push(_, _) => 1
    case Allocate => 1
    case AllocateRange(n) => n
  }

  /** Slots it publishes: `n_allocated` is an unsigned 32-bit field. */
  function Sent(op: ProdOp): (r: nat)
    ensures r <= Need(op)
  {
    match op
    case Push(_, _) => 1
    case Allocate => 1
    case AllocateRange(n) => n % 0x1_0000_0000
  }

  /** Items a consumer call waits for. */
  function Want(op: ConsOp): nat {
    match op
    case Pop => 1
    case Peek => 1
    case PeekRange(n) => n
    case Recycle(_) => 1
  }

  // ---------------------------------------------------------------- size()

  /** size() counts in `checking_size`. */
  predicate SizeRaised(sz: SizePc) {
    !sz.SEnter? && !sz.SRet?
  }

  /** size() is past its notResizing check and still counted. */
  predicate SizeInside(sz: SizePc) {
    SizeRaised(sz) && !sz.SGate? && !sz.SAgain?
  }

  /** One step of size(), given what it would load now. */
  function NextSize(b: Buf, resizing: bool, mid: bool, sz: SizePc): SizePc {
    match sz
    case SEnter => SGate
    case SGate => if resizing then SAgain else STop
    case SAgain => SEnter
    case STop => SWrapW(b.ww, mid)
    case SWrapW(ww, m) => SWrapR(ww, b.rw, m)
    case SWrapR(ww, rw, m) => SIdxW(ww, rw, b.wa, m)
    case SIdxW(ww, rw, wpt, m) => SIdxR(ww, rw, wpt, b.ra, m)
    case SIdxR(ww, rw, wpt, rpt, m) =>
      (match Measure(ww, rw, wpt, rpt, b.cap)
       case Size(n) => SRet(n)
       case Retry => STop)
    case SRet(n) => SRet(n)
  }

  /** Its effect on `checking_size`. */
  function CheckingDelta(sz: SizePc, sz': SizePc): int {
    (if SizeRaised(sz') then 1 else 0) - (if SizeRaised(sz) then 1 else 0)
  }

  /** The producer has stored its index and not yet its wrap counter, which is due. */
  predicate ProdMid(s: State) {
    s.p.PIncWrap? && s.buf.wa < Sent(s.p.op)
  }

  predicate ConsMid(s: State) {
    s.c.CIncWrap? && s.buf.ra == 0
  }

  // ---------------------------------------------------------------- producer

  predicate ProdCanStep(s: State) {
    && !s.p.PIdle? && !s.p.PHeld? && !s.p.PStopped?
    && (s.p.PItem? || s.p.PSig? ==> s.p.op.Push?)
    && s.buf.wa < s.buf.cap == |s.buf.store| == |s.buf.signal|
    && (s.p.PClear? ==> s.p.wi < s.buf.cap)
  }

  function Granted(b: Buf, op: ProdOp): ProdPc {
    match op
    case Push(_, _) => PItem(op)
    case Allocate => PHeld(op)
    case AllocateRange(n) => if n == 0 then PHeld(op) else PClear(op, 0, b.wa)
  }

  function ProdSizeStep(s: State, sz: SizePc): State {
    s.(checking := s.checking + CheckingDelta(sz, NextSize(s.buf, s.resizing, ProdMid(s), sz)))
  }

  /** The store of invalidate, into the buffer that was current at its load. */
  function Invalidated(s: State, target: nat): State {
    s.(p := PStopped, buf := if target == s.epoch then s.buf.(valid := false) else s.buf,
       closings := s.closings + [Closing(target, s.epoch)])
  }

  /** The next instruction of the producer thread inside a FIFO call. */
  function ProdNext(s: State): State
    requires ProdCanStep(s)
  {
    var b := s.buf;
    match s.p
    case PIdle => s
    case PHeld(_) => s
    case PStopped => s
    case PLoop(op) => s.(p := PGate(op), buf := b.(prodFlags := b.prodFlags + {ProdKey(op)}))
    case PGate(op) => s.(p := if s.resizing then PAgain(op) else PRoom(op, SEnter))
    case PRoom(op, sz) =>
      if sz.SRet? then
        s.(p := if b.cap - sz.n >= Need(op) then Granted(b, op) else PAgain(op))
      else
        ProdSizeStep(s, sz).(p := PRoom(op, NextSize(b, s.resizing, ProdMid(s), sz)))
    case PAgain(op) => s.(p := PLoop(op), buf := b.(prodFlags := b.prodFlags - {ProdKey(op)}))
    case PItem(op) =>
      s.(p := PSig(op),
         buf := if op.item.Some? then b.(store := b.store[b.wa := op.item.value]) else b)
    case PSig(op) =>
      var item := if op.item.Some? then op.item.value else b.store[b.wa];
      s.(p := PIncA(op, [Cell(item, op.sig)]), buf := b.(signal := b.signal[b.wa := op.sig]))
    case PClear(op, j, wi) =>
      s.(p := if j + 1 == Need(op) then PHeld(op) else PClear(op, j + 1, Wrap(wi + 1, b.cap)),
         buf := b.(signal := b.signal[wi := NONE]))
    case PSendSig(op, sig) =>
      s.(p := PIncA(op, seq(Sent(op), i requires i >= 0 =>
           Cell(b.store[Wrap(b.wa + i, b.cap)], if i == 0 then sig else NONE))),
         buf := b.(signal := b.signal[b.wa := sig]),
         blurred := if |s.pushed| - |s.popped| == b.cap then s.blurred + {|s.popped|} else s.blurred)
    case PIncA(op, cells) =>
      s.(p := PIncWrap(op), buf := b.(wa := Wrap(b.wa + Sent(op), b.cap)), pushed := s.pushed + cells)
    case PIncWrap(op) =>
      s.(p := PExit(op), buf := if b.wa < Sent(op) then b.(ww := b.ww + 1) else b)
    case PExit(op) => s.(p := PIdle, buf := b.(prodFlags := b.prodFlags - {ProdKey(op)}))
    case PSizing(sz) =>
      if sz.SRet? then s.(p := PIdle)
      else ProdSizeStep(s, sz).(p := PSizing(NextSize(b, s.resizing, ProdMid(s), sz)))
    case PInvalidating(target) => Invalidated(s, target)
    case PReinvalidating(target) => Invalidated(s, target)
  }

  // ---------------------------------------------------------------- consumer

  predicate ConsCanStep(s: State) {
    && !s.c.CIdle? && !s.c.CThrown?
    && (s.c.CItem? ==> s.c.op.Pop?)
    && (s.c.CSig? ==> s.c.op.Pop? || s.c.op.Peek?)
    && (s.c.CExit? && s.c.op.Recycle? ==> s.c.op.left > 0)
    && s.buf.ra < s.buf.cap == |s.buf.store| == |s.buf.signal|
  }

  /** Nothing to take yet: `pop` goes round with its flag up, the others lower theirs. */
  function Back(op: ConsOp): ConsPc {
    if op.Pop? then CLoop(op) else CAgain(op)
  }

  /** size() came back large enough. */
  function Take(s: State, op: ConsOp): State
    requires s.buf.ra < s.buf.cap == |s.buf.store| == |s.buf.signal|
  {
    match op
    case Pop => s.(c := CSig(op))
    case Peek => s.(c := CSig(op))
    case PeekRange(n) => s.(c := CIdle, peeked := Some(PeekRef(s.buf.ra, n, None, |s.popped|)))
    case Recycle(_) => s.(c := CIncA(op, Cell(s.buf.store[s.buf.ra], s.buf.signal[s.buf.ra])))
  }

  function ConsSizeStep(s: State, sz: SizePc): State {
    s.(checking := s.checking + CheckingDelta(sz, NextSize(s.buf, s.resizing, ProdMid(s), sz)))
  }

  function ConsNextSize(s: State, sz: SizePc): SizePc {
    NextSize(s.buf, s.resizing, ProdMid(s), sz)
  }

  /** The next instruction of the consumer thread inside a FIFO call. */
  function ConsNext(s: State): State
    requires ConsCanStep(s)
  {
    var b := s.buf;
    match s.c
    case CIdle => s
    case CThrown(_, _) => s
    case CLoop(op) => s.(c := CGate(op), buf := b.(consFlags := b.consFlags + {ConsKey(op)}))
    case CGate(op) => s.(c := if s.resizing then CAgain(op) else CFirst(op, SEnter))
    case CFirst(op, sz) =>
      if sz.SRet? then
        if sz.n >= Want(op) then Take(s, op) else s.(c := CValid(op))
      else ConsSizeStep(s, sz).(c := CFirst(op, ConsNextSize(s, sz)))
    case CValid(op) =>
      s.(c := if !b.valid then CSecond(op, SEnter) else if op.PeekRange? then CValid2(op) else Back(op))
    case CSecond(op, sz) =>
      if sz.SRet? then
        s.(c := if sz.n == 0 then (if op.Recycle? then CQuit(op) else CThrown(op, ClosedPortAccess))
                else if op.PeekRange? then CValid2(op) else Back(op))
      else ConsSizeStep(s, sz).(c := CSecond(op, ConsNextSize(s, sz)))
    case CValid2(op) => s.(c := if !b.valid then CThird(op, SEnter) else Back(op))
    case CThird(op, sz) =>
      if sz.SRet? then s.(c := if sz.n < Want(op) then CThrown(op, NoMoreData) else Back(op))
      else ConsSizeStep(s, sz).(c := CThird(op, ConsNextSize(s, sz)))
    case CAgain(op) => s.(c := CLoop(op), buf := b.(consFlags := b.consFlags - {ConsKey(op)}))
    case CSig(op) =>
      if op.Pop? then s.(c := CItem(op, b.signal[b.ra]))
      else s.(c := CIdle, peeked := Some(PeekRef(b.ra, 1, Some(b.signal[b.ra]), |s.popped|)))
    case CItem(op, sig) => s.(c := CIncA(op, Cell(b.store[b.ra], sig)))
    case CIncA(op, cell) =>
      s.(c := CIncWrap(op), buf := b.(ra := Wrap(b.ra + 1, b.cap)), popped := s.popped + [cell])
    case CIncWrap(op) => s.(c := CExit(op), buf := if b.ra == 0 then b.(rw := b.rw + 1) else b)
    case CExit(op) =>
      s.(c := if op.Recycle? && op.left > 1 then CLoop(Recycle(op.left - 1)) else CIdle,
         buf := b.(consFlags := b.consFlags - {ConsKey(op)}))
    case CQuit(op) => s.(c := CIdle, buf := b.(consFlags := b.consFlags - {ConsKey(op)}))
    case CSizing(sz) =>
      if sz.SRet? then s.(c := CIdle) else ConsSizeStep(s, sz).(c := CSizing(ConsNextSize(s, sz)))
  }

  // ---------------------------------------------------------------- resize

  /**
   * Data::copyFrom: indices are kept, wrap counters start again at zero, the items are
   * copied slot for slot.  `tail` is what the new storage held beyond them; `signals`
   * is whatever the signal copy left behind, since its length is computed from the size
   * of an item and not of a signal (raftinc/database.tcc:46).
   */
  function CopyFrom(other: Buf, newCap: nat, tail: seq<Item>, signals: seq<Signal>): Buf {
    Buf(newCap, other.store + tail, signals, other.ra, 0, other.wa, 0,
        other.valid, other.prodFlags, other.consFlags)
  }

  /** The next instruction of DataManager::resize, except the copy itself. */
  function ResizeNext(s: State, exit: bool): State
    requires !s.m.MIdle? && !s.m.MSwap?
  {
    match s.m
    case MIdle => s
    case MSwap(_) => s
    case MHead(n) => if exit || !s.buf.valid then s.(m := MIdle, resizing := false) else s.(m := MRaise(n))
    case MRaise(n) => s.(m := MLoadP(n), resizing := true)
    case MLoadP(n) => s.(m := if s.buf.prodFlags == {} then MLoadC(n) else MDrop(n, false, false))
    case MLoadC(n) => s.(m := if s.buf.consFlags == {} then MLoadS(n) else MDrop(n, false, false))
    case MLoadS(n) => s.(m := if s.checking == 0 then MCond(n) else MDrop(n, false, false))
    case MCond(n) => s.(m := if s.buf.ra < s.buf.wa then MSwap(n) else MDrop(n, true, false))
    case MDrop(n, _, done) => s.(m := if done then MIdle else MHead(n), resizing := false)
  }

  /** The numbers lo, lo + 1, ..., hi - 1. */
  function Numbers(lo: nat, hi: nat): (r: set<nat>)
    ensures forall i: nat :: i in r <==> lo <= i < hi
    decreases hi - lo
  {
    if lo < hi then {lo} + Numbers(lo + 1, hi) else {}
  }

  /** Everything entered: copy, swap the buffer object, go on to clear `resizing`. */
  function Swap(s: State, tail: seq<Item>, signals: seq<Signal>): State
    requires s.m.MSwap?
  {
    s.(m := MDrop(s.m.newCap, true, true),
       buf := CopyFrom(s.buf, s.m.newCap, tail, signals),
       epoch := s.epoch + 1,
       blurred := s.blurred + Numbers(|s.popped|, |s.pushed|))
  }

  // ---------------------------------------------------------------- observers

  /** One step of a size() call by a thread that is neither producer nor consumer. */
  function ObsNext(s: State, id: nat): State
    requires id in s.obs
  {
    var sz' := NextSize(s.buf, s.resizing, ProdMid(s), s.obs[id]);
    s.(obs := if SizeRaised(sz') then s.obs[id := sz'] else s.obs - {id},
       checking := s.checking + CheckingDelta(s.obs[id], sz'))
  }

  // ---------------------------------------------------------------- runs

  datatype Action =
    | ProdCall(pop: ProdOp)
    | ProdStep
    | ProdWrite(j: nat, item: Item)
    | ProdSend(sig: Signal)
    | ProdDeallocate
    | ProdAskSize
    | ProdInvalidate
    | ProdReinvalidate
    | ConsCall(cop: ConsOp)
    | ConsStep
    | ConsUnpeek
    | ConsAskSize
    | ResizeCall(newCap: nat)
    | ResizeStep(exit: bool)
    | ResizeSwap(tail: seq<Item>, signals: seq<Signal>)
    | ObsCall(id: nat)
    | ObsStep(oid: nat)

  ghost predicate Enabled(s: State, a: Action) {
    match a
    case ProdCall(_) => s.p.PIdle?
    case ProdStep => ProdCanStep(s)
    case ProdWrite(j, _) =>
      s.p.PHeld? && j < Need(s.p.op) && s.buf.wa < s.buf.cap == |s.buf.store| && j < s.buf.cap
    case ProdSend(_) => s.p.PHeld?
    case ProdDeallocate => s.p.PHeld? && s.p.op.Allocate?
    case ProdAskSize => s.p.PIdle?
    case ProdInvalidate => s.p.PIdle?
    case ProdReinvalidate => s.p.PStopped?
    case ConsCall(op) => s.c.CIdle? && (op.Recycle? ==> op.left > 0)
    case ConsStep => ConsCanStep(s)
    case ConsUnpeek => s.c.CIdle?
    case ConsAskSize => s.c.CIdle?
    case ResizeCall(newCap) => s.m.MIdle? && newCap >= s.buf.cap
    case ResizeStep(_) => !s.m.MIdle? && !s.m.MSwap?
    case ResizeSwap(tail, signals) =>
      s.m.MSwap? && |tail| == s.m.newCap - s.buf.cap && |signals| == s.m.newCap
    case ObsCall(id) => id !in s.obs
    case ObsStep(id) => id in s.obs
  }

  /**
   * The state after one action.  A producer that has stopped may invalidate again: kernelRun
   * does when the kernel that returned stop has drained its inputs.  A new `peek` or `peek_range` ends the guarantee for
   * the reference of the previous one, whose flag it shares.
   */
  ghost function Next(s: State, a: Action): State
    requires Enabled(s, a)
  {
    match a
    case ProdCall(op) => s.(p := PLoop(op))
    case ProdStep => ProdNext(s)
    case ProdWrite(j, item) => s.(buf := s.buf.(store := s.buf.store[At(s.buf.wa, j, s.buf.cap) := item]))
    case ProdSend(sig) => s.(p := PSendSig(s.p.op, sig))
    case ProdDeallocate => s.(p := PExit(s.p.op))
    case ProdAskSize => s.(p := PSizing(SEnter))
    case ProdInvalidate => s.(p := PInvalidating(s.epoch))
    case ProdReinvalidate => s.(p := PReinvalidating(s.epoch))
    case ConsCall(op) =>
      s.(c := CLoop(op), peeked := if op.Peek? || op.PeekRange? then None else s.peeked)
    case ConsStep => ConsNext(s)
    case ConsUnpeek => s.(buf := s.buf.(consFlags := s.buf.consFlags - {KPeek}), peeked := None)
    case ConsAskSize => s.(c := CSizing(SEnter))
    case ResizeCall(newCap) => s.(m := MHead(newCap))
    case ResizeStep(exit) => ResizeNext(s, exit)
    case ResizeSwap(tail, signals) => Swap(s, tail, signals)
    case ObsCall(id) => s.(obs := s.obs[id := SGate], checking := s.checking + 1)
    case ObsStep(id) => ObsNext(s, id)
  }

  /** A freshly constructed FIFO of `cap` slots; what malloc left in them is arbitrary. */
  ghost predicate Init(s: State) {
    && 0 < s.buf.cap == |s.buf.store| == |s.buf.signal|
    && s.buf.ra == 0 && s.buf.rw == 0 && s.buf.wa == 0 && s.buf.ww == 0
    && s.buf.valid && s.buf.prodFlags == {} && s.buf.consFlags == {}
    && s.epoch == 0 && !s.resizing && s.checking == 0
    && s.p == PIdle && s.c == CIdle && s.m == MIdle && s.peeked == None && s.obs == map[]
    && s.pushed == [] && s.popped == [] && s.blurred == {} && s.closings == []
  }

  /** `s'` is reached from `s` by the actions `acts`, each of them enabled in its turn. */
  ghost predicate Run(s: State, acts: seq<Action>, s': State)
    decreases |acts|
  {
    if acts == [] then s == s'
    else Enabled(s, acts[0]) && Run(Next(s, acts[0]), acts[1..], s')
  }

  ghost predicate Reachable(s: State) {
    exists s0: State, acts: seq<Action> :: Init(s0) && Run(s0, acts, s)
  }
}
