/**
 * The invariant of the shared FIFO and its preservation by every action.  Only the
 * consequences in SharedFifoTheorems are of interest to a reader of the model.
 */
module SharedFifoInvariant {
  import opened Wrappers
  import opened Positions
  import opened SharedFifo

  // ---------------------------------------------------------------- vocabulary

  /** Items published and not yet removed. */
  function Occupancy(s: State): int {
    |s.pushed| - |s.popped|
  }

  /** The lap of the write position, counting a wrap store that is still due. */
  function WriteLap(s: State): nat {
    s.buf.ww + if ProdMid(s) then 1 else 0
  }

  function ReadLap(s: State): nat {
    s.buf.rw + if ConsMid(s) then 1 else 0
  }

  /** The producer is past its notResizing check in a flag-protected call. */
  predicate ProdInside(p: ProdPc) {
    p.PRoom? || p.PItem? || p.PSig? || p.PClear? || p.PHeld? || p.PSendSig? || p.PIncA? || p.PIncWrap? || p.PExit?
  }

  predicate ProdFlagUp(p: ProdPc) {
    ProdInside(p) || p.PGate? || p.PAgain?
  }

  /** The producer has invalidated; it never pushes again. */
  predicate Stopped(p: ProdPc) {
    p.PStopped? || p.PReinvalidating?
  }

  predicate ConsInside(c: ConsPc) {
    c.CFirst? || c.CValid? || c.CSecond? || c.CValid2? || c.CThird? || c.CSig? || c.CItem? || c.CIncA?
    || c.CIncWrap? || c.CExit? || c.CQuit?
  }

  predicate ConsFlagUp(c: ConsPc) {
    ConsInside(c) || c.CGate? || c.CAgain?
  }

  /** The size() call a thread is in, if any. */
  function ProdSize(p: ProdPc): SizePc {
    if p.PRoom? then p.sz else if p.PSizing? then p.sz else SEnter
  }

  function ConsSize(c: ConsPc): SizePc {
    if c.CFirst? || c.CSecond? || c.CThird? then c.sz else if c.CSizing? then c.sz else SEnter
  }

  function Count(b: bool): int {
    if b then 1 else 0
  }

  // ---------------------------------------------------------------- invariant

  /** Both positions, their laps, and how many items lie between them. */
  ghost predicate PositionInv(s: State) {
    var b := s.buf;
    && 0 < b.cap == |b.store| == |b.signal|
    && b.ra < b.cap && b.wa < b.cap
    && 0 <= Occupancy(s) <= b.cap
    && (|| (WriteLap(s) == ReadLap(s) && b.wa == b.ra + Occupancy(s))
        || (WriteLap(s) == ReadLap(s) + 1 && b.wa + b.cap == b.ra + Occupancy(s)))
  }

  /** The slots from the read position on hold the unread items. */
  ghost predicate ContentInv(s: State)
    requires PositionInv(s)
  {
    forall i :: |s.popped| <= i < |s.pushed| ==>
      var slot := At(s.buf.ra, i - |s.popped|, s.buf.cap);
      && s.buf.store[slot] == s.pushed[i].item
      && (i !in s.blurred ==> s.buf.signal[slot] == s.pushed[i].sig)
  }

  ghost predicate HistoryInv(s: State) {
    && |s.popped| <= |s.pushed|
    && (forall i :: 0 <= i < |s.popped| ==>
          && s.popped[i].item == s.pushed[i].item
          && (i !in s.blurred ==> s.popped[i].sig == s.pushed[i].sig))
  }

  /** What a size() call of the producer knows: its own half exactly, the reader's from below. */
  ghost predicate ProdSizeInv(s: State, sz: SizePc) {
    match sz
    case SWrapW(ww, mid) => ww == s.buf.ww && !mid
    case SWrapR(ww, rw, mid) => ww == s.buf.ww && rw <= ReadLap(s) && !mid
    case SIdxW(ww, rw, wpt, mid) => ww == s.buf.ww && rw <= ReadLap(s) && wpt == s.buf.wa && !mid
    case SIdxR(ww, rw, wpt, rpt, mid) =>
      && !mid
      && var r := Measure(ww, rw, wpt, rpt, s.buf.cap); r.Size? && Occupancy(s) <= r.n <= s.buf.cap
    case SRet(n) => Occupancy(s) <= n <= s.buf.cap
    case _ => true
  }

  /** What a size() call of the consumer knows: its own half exactly, the writer's from below. */
  ghost predicate ConsSizeInv(s: State, sz: SizePc) {
    match sz
    case SWrapW(ww, mid) => ww <= WriteLap(s) && (ww < s.buf.rw ==> mid)
    case SWrapR(ww, rw, mid) => ww <= WriteLap(s) && rw == s.buf.rw && (ww < rw ==> mid)
    case SIdxW(ww, rw, wpt, mid) =>
      && rw == s.buf.rw && (ww < rw ==> mid) && wpt < s.buf.cap
      && var r := Measure(ww, rw, wpt, s.buf.ra, s.buf.cap); r.Size? ==> 0 <= r.n <= Occupancy(s)
    case SIdxR(ww, rw, wpt, rpt, mid) =>
      && rw == s.buf.rw && (ww < rw ==> mid) && wpt < s.buf.cap && rpt == s.buf.ra
      && var r := Measure(ww, rw, wpt, rpt, s.buf.cap); r.Size? ==> 0 <= r.n <= Occupancy(s)
    case SRet(n) => 0 <= n <= Occupancy(s)
    case _ => true
  }

  /** Once the producer has stopped, a size() call of the consumer is exact. */
  ghost predicate ExactSizeInv(s: State, sz: SizePc) {
    match sz
    case SWrapW(ww, _) => ww == s.buf.ww
    case SWrapR(ww, rw, _) => ww == s.buf.ww
    case SIdxW(ww, rw, wpt, _) => ww == s.buf.ww && wpt == s.buf.wa
    case SIdxR(ww, rw, wpt, rpt, _) => ww == s.buf.ww && wpt == s.buf.wa && rw == s.buf.rw && rpt == s.buf.ra
    case SRet(n) => n == Occupancy(s)
    case _ => true
  }

  ghost predicate ProdInv(s: State)
    requires PositionInv(s)
  {
    var b := s.buf;
    && b.prodFlags == (if ProdFlagUp(s.p) then {ProdKey(s.p.op)} else {})
    && (!b.valid ==> Stopped(s.p))
    && match s.p
       case PRoom(op, sz) => ProdSizeInv(s, sz)
       case PSizing(sz) => ProdSizeInv(s, sz)
       case PItem(op) => op.Push? && Room(s, 1)
       case PSig(op) => op.Push? && Room(s, 1) && (op.item.Some? ==> b.store[b.wa] == op.item.value)
       case PClear(op, j, wi) =>
         && op.AllocateRange? && Room(s, op.n) && j < op.n && wi == At(b.wa, j, b.cap)
         && (forall i :: 0 <= i < j ==> b.signal[At(b.wa, i, b.cap)] == NONE)
       case PHeld(op) => HeldInv(s, op)
       case PSendSig(op, _) => HeldInv(s, op)
       case PIncA(op, cells) =>
         && Room(s, Sent(op)) && |cells| == Sent(op)
         && (forall i :: 0 <= i < |cells| ==>
               && cells[i].item == b.store[At(b.wa, i, b.cap)]
               && cells[i].sig == b.signal[At(b.wa, i, b.cap)])
         && (op.Push? && op.item.Some? ==> cells == [Cell(op.item.value, op.sig)])
         && (!op.Push? ==> forall i :: 1 <= i < |cells| ==> cells[i].sig == NONE)
       case PIncWrap(op) => Sent(op) <= b.cap
       case _ => true
  }

  ghost predicate Room(s: State, n: nat) {
    Occupancy(s) + n <= s.buf.cap
  }

  ghost predicate HeldInv(s: State, op: ProdOp)
    requires PositionInv(s)
  {
    && !op.Push? && Room(s, Need(op))
    && (forall i :: 1 <= i < Need(op) ==> s.buf.signal[At(s.buf.wa, i, s.buf.cap)] == NONE)
  }

  /** The head of the queue as the consumer has read it. */
  ghost predicate HeadSig(s: State, sig: Signal)
    requires |s.popped| < |s.pushed|
  {
    |s.popped| !in s.blurred ==> sig == s.pushed[|s.popped|].sig
  }

  ghost predicate ConsInv(s: State)
    requires PositionInv(s)
  {
    && (ConsFlagUp(s.c) ==> ConsKey(s.c.op) in s.buf.consFlags)
    && (s.peeked.Some? ==> KPeek in s.buf.consFlags)
    && (s.peeked.Some? && (s.c.CLoop? || ConsFlagUp(s.c)) ==> ConsKey(s.c.op) != KPeek)
    && match s.c
       case CFirst(op, sz) => ConsSizeInv(s, sz)
       case CSecond(op, sz) => !s.buf.valid && ConsSizeInv(s, sz) && ExactSizeInv(s, sz)
       case CValid2(op) => op.PeekRange?
       case CThird(op, sz) => op.PeekRange? && !s.buf.valid && ConsSizeInv(s, sz) && ExactSizeInv(s, sz)
       case CSizing(sz) => ConsSizeInv(s, sz)
       case CSig(op) => (op.Pop? || op.Peek?) && 0 < Occupancy(s)
       case CItem(op, sig) => op.Pop? && 0 < Occupancy(s) && HeadSig(s, sig)
       case CIncA(op, cell) =>
         && !op.Peek? && !op.PeekRange?
         && 0 < Occupancy(s) && cell.item == s.pushed[|s.popped|].item && HeadSig(s, cell.sig)
       case CIncWrap(op) => !op.Peek? && !op.PeekRange?
       case CExit(op) => !op.Peek? && !op.PeekRange?
       case CQuit(op) => op.Recycle? && !s.buf.valid && Occupancy(s) == 0
       case CThrown(op, ClosedPortAccess) => !s.buf.valid && Occupancy(s) == 0
       case CThrown(op, NoMoreData) => op.PeekRange? && !s.buf.valid && Occupancy(s) < Want(op)
       case _ => true
  }

  /** A live reference still lines up with the read position. */
  ghost predicate PeekInv(s: State)
    requires PositionInv(s)
  {
    s.peeked.Some? ==>
      var r := s.peeked.value;
      var gone := |s.popped| - r.from;
      && 0 <= gone && r.n <= s.buf.cap && r.base < s.buf.cap && r.from + r.n <= |s.pushed|
      && (gone <= r.n ==> r.base + gone == s.buf.ra || r.base + gone == s.buf.ra + s.buf.cap)
      && (r.sig.Some? ==> 1 <= r.n && (r.from !in s.blurred ==> r.sig.value == s.pushed[r.from].sig))
  }

  ghost predicate ObsInv(s: State) {
    forall id :: id in s.obs ==> ObsSizeInv(s, s.obs[id])
  }

  ghost predicate ObsSizeInv(s: State, sz: SizePc) {
    && SizeRaised(sz)
    && (sz.SWrapR? || sz.SIdxW? || sz.SIdxR? ==> sz.rw <= ReadLap(s))
    && (sz.SIdxW? || sz.SIdxR? ==> sz.wpt < s.buf.cap)
    && (sz.SIdxR? ==> sz.rpt < s.buf.cap)
  }

  ghost predicate CountInv(s: State) {
    s.checking == |s.obs| + Count(SizeRaised(ProdSize(s.p))) + Count(SizeRaised(ConsSize(s.c)))
  }

  // How far the all-clear test has come.
  predicate PastProd(m: ResizePc) {
    m.MLoadC? || PastCons(m)
  }

  predicate PastCons(m: ResizePc) {
    m.MLoadS? || PastAll(m)
  }

  predicate PastAll(m: ResizePc) {
    m.MCond? || m.MSwap? || (m.MDrop? && m.cleared)
  }

  ghost predicate ResizeInv(s: State) {
    && (s.resizing <==> s.m.MLoadP? || PastProd(s.m) || s.m.MDrop?)
    && (PastProd(s.m) ==> !ProdInside(s.p))
    && (PastCons(s.m) ==> !ConsInside(s.c) && s.peeked.None?)
    && (PastAll(s.m) ==>
          && !SizeInside(ProdSize(s.p)) && !SizeInside(ConsSize(s.c))
          && (forall id :: id in s.obs ==> !SizeInside(s.obs[id])))
    && (s.m.MSwap? ==> s.buf.ra < s.buf.wa)
    && (!s.m.MIdle? && !(s.m.MDrop? && s.m.done) ==> s.buf.cap <= s.m.newCap)
  }

  ghost predicate Inv(s: State) {
    && PositionInv(s) && ContentInv(s) && HistoryInv(s)
    && ProdInv(s) && ConsInv(s) && PeekInv(s)
    && ObsInv(s) && CountInv(s) && ResizeInv(s)
  }

  // ---------------------------------------------------------------- preservation

  lemma InitInv(s: State)
    requires Init(s)
    ensures Inv(s)
  {
  }

  /** After a step of `sz` by the producer, its knowledge still holds. */
  lemma ProdSizeStepInv(s: State, sz: SizePc)
    requires PositionInv(s) && !ProdMid(s) && ProdSizeInv(s, sz)
    ensures ProdSizeInv(s, NextSize(s.buf, s.resizing, ProdMid(s), sz))
  {
  }

  lemma ConsSizeStepInv(s: State, sz: SizePc)
    requires PositionInv(s) && !ConsMid(s) && ConsSizeInv(s, sz)
    ensures ConsSizeInv(s, NextSize(s.buf, s.resizing, ProdMid(s), sz))
  {
  }

  lemma ExactSizeStepInv(s: State, sz: SizePc)
    requires PositionInv(s) && !ConsMid(s) && !ProdMid(s) && ConsSizeInv(s, sz) && ExactSizeInv(s, sz)
    ensures ExactSizeInv(s, NextSize(s.buf, s.resizing, ProdMid(s), sz))
  {
  }

  /** The slots a producer call reserved are not among the unread ones. */
  lemma FreeSlots(s: State, j: nat)
    requires PositionInv(s) && Occupancy(s) + j < s.buf.cap
    ensures At(s.buf.wa, j, s.buf.cap) == At(s.buf.ra, Occupancy(s) + j, s.buf.cap)
    ensures forall i :: 0 <= i < Occupancy(s) ==> At(s.buf.ra, i, s.buf.cap) != At(s.buf.wa, j, s.buf.cap)
  {
  }

  // Frames: what one thread's instruction leaves alone.

  /** No position moves and nothing is published or removed. */
  ghost predicate Quiet(s: State, s': State) {
    && s'.buf.cap == s.buf.cap && |s'.buf.store| == |s.buf.store| && |s'.buf.signal| == |s.buf.signal|
    && s'.buf.ra == s.buf.ra && s'.buf.rw == s.buf.rw && s'.buf.wa == s.buf.wa && s'.buf.ww == s.buf.ww
    && s'.pushed == s.pushed && s'.popped == s.popped && s.blurred <= s'.blurred
    && ProdMid(s') == ProdMid(s) && ConsMid(s') == ConsMid(s)
  }

  lemma QuietPosition(s: State, s': State)
    requires PositionInv(s) && HistoryInv(s) && Quiet(s, s')
    ensures PositionInv(s') && HistoryInv(s')
  {
  }

  lemma QuietContent(s: State, s': State)
    requires PositionInv(s) && ContentInv(s) && Quiet(s, s') && PositionInv(s')
    requires s'.buf.store == s.buf.store && s'.buf.signal == s.buf.signal
    ensures ContentInv(s')
  {
  }

  /** A size() call knows as much after an instruction that moves nothing. */
  lemma QuietSize(s: State, s': State, sz: SizePc)
    requires Quiet(s, s')
    ensures ConsSizeInv(s, sz) ==> ConsSizeInv(s', sz)
    ensures ExactSizeInv(s, sz) ==> ExactSizeInv(s', sz)
    ensures ProdSizeInv(s, sz) ==> ProdSizeInv(s', sz)
  {
    hide Measure;
  }

  lemma QuietPeek(s: State, s': State)
    requires PositionInv(s) && PeekInv(s) && Quiet(s, s') && PositionInv(s') && s'.peeked == s.peeked
    ensures PeekInv(s')
  {
  }

  lemma QuietCons(s: State, s': State)
    requires PositionInv(s) && ConsInv(s) && PeekInv(s) && Quiet(s, s') && PositionInv(s')
    requires s'.c == s.c && s'.peeked == s.peeked && s'.buf.consFlags == s.buf.consFlags
    requires s'.buf.valid == s.buf.valid
    ensures ConsInv(s') && PeekInv(s')
  {
    hide ConsSizeInv, ExactSizeInv, Measure, PeekInv, ConsMid, ProdMid;
    QuietPeek(s, s');
    QuietSize(s, s', ConsSize(s.c));
  }

  lemma QuietProd(s: State, s': State)
    requires PositionInv(s) && ProdInv(s) && Quiet(s, s') && PositionInv(s')
    requires s'.p == s.p && s'.buf.prodFlags == s.buf.prodFlags && s'.buf.valid == s.buf.valid
    requires s'.buf.store == s.buf.store && s'.buf.signal == s.buf.signal
    ensures ProdInv(s')
  {
    hide ProdSizeInv, Measure, At;
    QuietSize(s, s', ProdSize(s.p));
  }

  lemma QuietObs(s: State, s': State)
    requires ObsInv(s) && s'.obs == s.obs && s'.buf.cap == s.buf.cap && ReadLap(s) <= ReadLap(s')
    ensures ObsInv(s')
  {
  }

  /** Everything but the producer's own part, after an instruction that stores no item. */
  lemma ProdQuiet(s: State, s': State)
    requires PositionInv(s) && HistoryInv(s) && ContentInv(s) && ConsInv(s) && PeekInv(s) && ObsInv(s)
    requires Quiet(s, s') && s'.buf.store == s.buf.store && s'.buf.signal == s.buf.signal
    requires s'.c == s.c && s'.peeked == s.peeked && s'.buf.consFlags == s.buf.consFlags
    requires s'.buf.valid == s.buf.valid && s'.obs == s.obs
    ensures PositionInv(s') && HistoryInv(s') && ContentInv(s') && ConsInv(s') && PeekInv(s') && ObsInv(s')
  {
    QuietPosition(s, s');
    QuietContent(s, s');
    QuietCons(s, s');
    QuietObs(s, s');
  }

  /** The resize handshake survives a step of the producer that respects the gate. */
  lemma ProdResize(s: State, s': State)
    requires ResizeInv(s)
    requires s'.resizing == s.resizing && s'.m == s.m && s'.c == s.c && s'.peeked == s.peeked && s'.obs == s.obs
    requires s'.buf.cap == s.buf.cap && s'.buf.ra == s.buf.ra
    requires s'.buf.wa != s.buf.wa ==> ProdInside(s.p)
    requires ProdInside(s'.p) ==> ProdInside(s.p) || !s.resizing
    requires SizeInside(ProdSize(s'.p)) ==> SizeInside(ProdSize(s.p)) || !s.resizing
    ensures ResizeInv(s')
  {
  }

  // The producer's instructions, grouped by what they touch.

  lemma ProdControlProd(s: State)
    requires PositionInv(s) && ProdInv(s) && ProdCanStep(s)
    requires s.p.PLoop? || s.p.PGate? || s.p.PAgain? || s.p.PExit?
    requires PositionInv(ProdNext(s))
    ensures ProdInv(ProdNext(s))
  {
  }

  lemma ProdControlKeeps(s: State)
    requires Inv(s) && ProdCanStep(s)
    requires s.p.PLoop? || s.p.PGate? || s.p.PAgain? || s.p.PExit?
    ensures Inv(ProdNext(s))
  {
    hide PositionInv, ContentInv, HistoryInv, ProdInv, ConsInv, PeekInv, ObsInv, ResizeInv;
    var s' := ProdNext(s);
    ProdQuiet(s, s');
    ProdControlProd(s);
    ProdResize(s, s');
  }

  /** The queue was still valid, so the consumer had not yet concluded anything from that. */
  lemma StopCons(s: State, s': State)
    requires PositionInv(s) && ConsInv(s) && PeekInv(s) && Quiet(s, s') && PositionInv(s')
    requires s'.c == s.c && s'.peeked == s.peeked && s'.buf.consFlags == s.buf.consFlags
    requires s.buf.valid
    ensures ConsInv(s') && PeekInv(s')
  {
    hide ConsSizeInv, ExactSizeInv, Measure, PeekInv, ConsMid, ProdMid;
    QuietPeek(s, s');
    QuietSize(s, s', ConsSize(s.c));
  }

  lemma ProdStopKeeps(s: State)
    requires Inv(s) && ProdCanStep(s) && (s.p.PInvalidating? || s.p.PReinvalidating?)
    ensures Inv(ProdNext(s))
  {
    hide ContentInv, HistoryInv, ConsInv, PeekInv, ObsInv, ResizeInv;
    var s' := ProdNext(s);
    QuietPosition(s, s');
    QuietContent(s, s');
    if s.buf.valid {
      StopCons(s, s');
    } else {
      QuietCons(s, s');
    }
    QuietObs(s, s');
    ProdResize(s, s');
  }

  /** One step of the producer's size(): its program counter and the count of such calls. */
  lemma ProdSizingShape(s: State)
    requires ProdCanStep(s) && (s.p.PRoom? || s.p.PSizing?)
    ensures var s' := ProdNext(s);
            && s' == s.(p := s'.p, checking := s'.checking) && Quiet(s, s')
            && s'.checking == s.checking + Count(SizeRaised(ProdSize(s'.p))) - Count(SizeRaised(ProdSize(s.p)))
            && (SizeInside(ProdSize(s'.p)) ==> SizeInside(ProdSize(s.p)) || !s.resizing)
            && (ProdInside(s'.p) ==> ProdInside(s.p))
  {
    hide Measure;
  }

  lemma ProdSizingProd(s: State)
    requires PositionInv(s) && ProdInv(s) && ProdCanStep(s) && (s.p.PRoom? || s.p.PSizing?)
    requires PositionInv(ProdNext(s))
    ensures ProdInv(ProdNext(s))
  {
    ProdSizingShape(s);
    ProdSizeStepInv(s, s.p.sz);
    QuietSize(s, ProdNext(s), ProdSize(ProdNext(s).p));
    hide ProdSizeInv, NextSize, Measure, At;
  }

  lemma ProdSizingKeeps(s: State)
    requires Inv(s) && ProdCanStep(s) && (s.p.PRoom? || s.p.PSizing?)
    ensures Inv(ProdNext(s))
  {
    hide PositionInv, ContentInv, HistoryInv, ProdInv, ConsInv, PeekInv, ObsInv, ResizeInv, ProdNext, Quiet, SizeRaised;
    var s' := ProdNext(s);
    ProdSizingShape(s);
    ProdQuiet(s, s');
    ProdSizingProd(s);
    ProdResize(s, s');
  }

  /** A store into a free slot leaves the unread ones alone. */
  lemma FreeSlotContent(s: State, s': State, j: nat)
    requires PositionInv(s) && ContentInv(s) && Quiet(s, s') && PositionInv(s')
    requires Occupancy(s) + j < s.buf.cap
    requires forall k :: 0 <= k < s.buf.cap && k != At(s.buf.wa, j, s.buf.cap) ==>
               s'.buf.store[k] == s.buf.store[k] && s'.buf.signal[k] == s.buf.signal[k]
    ensures ContentInv(s')
  {
    FreeSlots(s, j);
  }

  lemma ProdItemKeeps(s: State)
    requires Inv(s) && ProdCanStep(s) && s.p.PItem?
    ensures Inv(ProdNext(s))
  {
    hide ContentInv, HistoryInv, ConsInv, PeekInv, ObsInv, ResizeInv;
    var s' := ProdNext(s);
    QuietPosition(s, s');
    FreeSlotContent(s, s', 0);
    QuietCons(s, s');
    QuietObs(s, s');
    ProdResize(s, s');
  }

  lemma ProdSigKeeps(s: State)
    requires Inv(s) && ProdCanStep(s) && s.p.PSig?
    ensures Inv(ProdNext(s))
  {
    hide ContentInv, HistoryInv, ConsInv, PeekInv, ObsInv, ResizeInv;
    var s' := ProdNext(s);
    QuietPosition(s, s');
    FreeSlotContent(s, s', 0);
    QuietCons(s, s');
    QuietObs(s, s');
    ProdResize(s, s');
  }

  lemma ProdClearKeeps(s: State)
    requires Inv(s) && ProdCanStep(s) && s.p.PClear?
    ensures Inv(ProdNext(s))
  {
    hide ContentInv, HistoryInv, ConsInv, PeekInv, ObsInv, ResizeInv;
    var s' := ProdNext(s);
    QuietPosition(s, s');
    FreeSlotContent(s, s', s.p.j);
    QuietCons(s, s');
    QuietObs(s, s');
    ProdResize(s, s');
  }

  /** On a full queue the signal store hits the oldest item, and no other. */
  lemma FullSigContent(s: State, s': State)
    requires PositionInv(s) && ContentInv(s) && PositionInv(s') && Occupancy(s) == s.buf.cap
    requires s'.pushed == s.pushed && s'.popped == s.popped && s'.blurred == s.blurred + {|s.popped|}
    requires s'.buf == s.buf.(signal := s'.buf.signal)
    requires forall k :: 0 <= k < s.buf.cap && k != s.buf.wa ==> s'.buf.signal[k] == s.buf.signal[k]
    ensures ContentInv(s')
  {
    assert At(s.buf.ra, 0, s.buf.cap) == s.buf.ra == s.buf.wa;
    forall j | 0 < j < Occupancy(s)
      ensures At(s.buf.ra, j, s.buf.cap) != s.buf.wa
    {
      AtInjective(s.buf.ra, j, 0, s.buf.cap);
    }
    hide At, ProdMid, ConsMid;
  }

  lemma ProdSendSigContent(s: State)
    requires PositionInv(s) && ContentInv(s) && ProdInv(s) && ProdCanStep(s) && s.p.PSendSig?
    requires PositionInv(ProdNext(s))
    ensures ContentInv(ProdNext(s))
  {
    hide ContentInv;
    var s' := ProdNext(s);
    if Occupancy(s) < s.buf.cap {
      FreeSlotContent(s, s', 0);
    } else {
      FullSigContent(s, s');
    }
  }

  lemma ProdSendSigProd(s: State)
    requires PositionInv(s) && ProdInv(s) && ProdCanStep(s) && s.p.PSendSig?
    requires PositionInv(ProdNext(s))
    ensures ProdInv(ProdNext(s))
  {
  }

  lemma ProdSendSigKeeps(s: State)
    requires Inv(s) && ProdCanStep(s) && s.p.PSendSig?
    ensures Inv(ProdNext(s))
  {
    hide PositionInv, ContentInv, HistoryInv, ProdInv, ConsInv, PeekInv, ObsInv, ResizeInv;
    var s' := ProdNext(s);
    QuietPosition(s, s');
    ProdSendSigContent(s);
    ProdSendSigProd(s);
    QuietCons(s, s');
    QuietObs(s, s');
    ProdResize(s, s');
  }

  lemma ProdPublishPosition(s: State)
    requires PositionInv(s) && HistoryInv(s) && ProdInv(s) && ProdCanStep(s) && s.p.PIncA?
    ensures PositionInv(ProdNext(s)) && HistoryInv(ProdNext(s))
  {
    assert ProdNext(s).buf.wa == At(s.buf.wa, Sent(s.p.op), s.buf.cap);
  }

  /** The `k`-th published slot is the next one after the unread ones. */
  lemma PublishedSlot(s: State, k: nat)
    requires PositionInv(s) && ProdInv(s) && s.p.PIncA? && k < Sent(s.p.op)
    ensures k < |s.p.cells| && Occupancy(s) + k < s.buf.cap
    ensures var slot := At(s.buf.ra, Occupancy(s) + k, s.buf.cap);
            s.buf.store[slot] == s.p.cells[k].item && s.buf.signal[slot] == s.p.cells[k].sig
  {
    FreeSlots(s, k);
  }

  lemma ProdPublishContent(s: State, s': State)
    requires PositionInv(s) && ContentInv(s) && ProdInv(s) && s.p.PIncA?
    requires PositionInv(s') && s'.pushed == s.pushed + s.p.cells && s'.popped == s.popped
    requires s'.buf == s.buf.(wa := s'.buf.wa) && s'.blurred == s.blurred
    ensures ContentInv(s')
  {
    forall i | |s.popped| <= i < |s'.pushed|
      ensures var slot := At(s.buf.ra, i - |s.popped|, s.buf.cap);
              && s.buf.store[slot] == s'.pushed[i].item
              && (i !in s.blurred ==> s.buf.signal[slot] == s'.pushed[i].sig)
    {
      if i >= |s.pushed| {
        PublishedSlot(s, i - |s.pushed|);
      } else {
        assert s'.pushed[i] == s.pushed[i];
      }
    }
  }

  /** More items never contradict what the consumer has concluded so far. */
  lemma PublishCons(s: State, s': State, cells: seq<Cell>)
    requires PositionInv(s) && ConsInv(s) && s.buf.valid && PositionInv(s')
    requires s' == s.(p := s'.p, buf := s.buf.(wa := s'.buf.wa), pushed := s.pushed + cells)
    requires WriteLap(s) <= WriteLap(s')
    ensures ConsInv(s')
  {
    assert |s.popped| < |s.pushed| ==> s'.pushed[|s.popped|] == s.pushed[|s.popped|];
  }

  lemma PublishPeek(s: State, s': State, cells: seq<Cell>)
    requires PositionInv(s) && PeekInv(s) && PositionInv(s')
    requires s' == s.(p := s'.p, buf := s.buf.(wa := s'.buf.wa), pushed := s.pushed + cells)
    ensures PeekInv(s')
  {
    assert s.peeked.Some? && s.peeked.value.sig.Some? ==>
        s'.pushed[s.peeked.value.from] == s.pushed[s.peeked.value.from];
  }

  lemma ProdPublishKeeps(s: State)
    requires Inv(s) && ProdCanStep(s) && s.p.PIncA?
    ensures Inv(ProdNext(s))
  {
    hide ContentInv, HistoryInv, ConsInv, PeekInv, ObsInv, ResizeInv;
    var s' := ProdNext(s);
    ProdPublishPosition(s);
    ProdPublishContent(s, s');
    PublishCons(s, s', s.p.cells);
    PublishPeek(s, s', s.p.cells);
    QuietObs(s, s');
    ProdResize(s, s');
  }

  lemma LapRing(s: State, s': State)
    requires PositionInv(s) && HistoryInv(s) && ContentInv(s) && ProdCanStep(s) && s.p.PIncWrap?
    requires s' == ProdNext(s)
    ensures s' == s.(p := PExit(s.p.op), buf := s.buf.(ww := s'.buf.ww)) && WriteLap(s') == WriteLap(s)
    ensures PositionInv(s') && HistoryInv(s') && ContentInv(s')
  {
    hide At;
  }

  lemma LapProd(s: State, s': State)
    requires PositionInv(s) && ProdInv(s) && PositionInv(s') && s.p.PIncWrap?
    requires s' == s.(p := PExit(s.p.op), buf := s.buf.(ww := s'.buf.ww))
    ensures ProdInv(s')
  {
  }

  /** Completing a lap tells a size() call of the consumer nothing wrong. */
  lemma LapSize(s: State, s': State, sz: SizePc)
    requires s' == s.(p := s'.p, buf := s.buf.(ww := s'.buf.ww)) && WriteLap(s) == WriteLap(s')
    ensures ConsSizeInv(s, sz) ==> ConsSizeInv(s', sz)
  {
    hide Measure;
  }

  lemma LapCons(s: State, s': State)
    requires PositionInv(s) && ConsInv(s) && PeekInv(s) && s.buf.valid && PositionInv(s')
    requires s' == s.(p := s'.p, buf := s.buf.(ww := s'.buf.ww))
    requires WriteLap(s) == WriteLap(s')
    ensures ConsInv(s') && PeekInv(s')
  {
    hide ConsSizeInv, Measure, ConsMid, ProdMid;
    LapSize(s, s', ConsSize(s.c));
  }

  lemma ProdLapKeeps(s: State)
    requires Inv(s) && ProdCanStep(s) && s.p.PIncWrap?
    ensures Inv(ProdNext(s))
  {
    hide PositionInv, ContentInv, HistoryInv, ConsInv, PeekInv, ObsInv, ResizeInv;
    var s' := ProdNext(s);
    LapRing(s, s');
    LapProd(s, s');
    LapCons(s, s');
    QuietObs(s, s');
    ProdResize(s, s');
  }

  lemma ProdStepKeeps(s: State)
    requires Inv(s) && ProdCanStep(s)
    ensures Inv(ProdNext(s))
  {
    hide Inv, ProdNext;
    match s.p {
      case PLoop(_) => ProdControlKeeps(s);
      case PGate(_) => ProdControlKeeps(s);
      case PAgain(_) => ProdControlKeeps(s);
      case PExit(_) => ProdControlKeeps(s);
      case PInvalidating(_) => ProdStopKeeps(s);
      case PReinvalidating(_) => ProdStopKeeps(s);
      case PRoom(_, _) => ProdSizingKeeps(s);
      case PSizing(_) => ProdSizingKeeps(s);
      case PItem(_) => ProdItemKeeps(s);
      case PSig(_) => ProdSigKeeps(s);
      case PClear(_, _, _) => ProdClearKeeps(s);
      case PSendSig(_, _) => ProdSendSigKeeps(s);
      case PIncA(_, _) => ProdPublishKeeps(s);
      case PIncWrap(_) => ProdLapKeeps(s);
    }
  }

  lemma ProdWriteKeeps(s: State, j: nat, item: Item)
    requires Inv(s) && Enabled(s, ProdWrite(j, item))
    ensures Inv(Next(s, ProdWrite(j, item)))
  {
    hide ContentInv, HistoryInv, ConsInv, PeekInv, ObsInv, ResizeInv;
    var s' := Next(s, ProdWrite(j, item));
    QuietPosition(s, s');
    FreeSlotContent(s, s', j);
    QuietCons(s, s');
    QuietObs(s, s');
    ProdResize(s, s');
  }

  /** Calls, send and deallocate: only the program counter of the producer moves. */
  lemma ProdMoveKeeps(s: State, s': State)
    requires Inv(s)
    requires s' == s.(p := s'.p)
    requires ProdFlagUp(s'.p) == ProdFlagUp(s.p) && (ProdFlagUp(s.p) ==> s'.p.op == s.p.op)
    requires Stopped(s'.p) == Stopped(s.p) && ProdMid(s') == ProdMid(s)
    requires ProdInside(s'.p) ==> ProdInside(s.p)
    requires SizeRaised(ProdSize(s'.p)) == SizeRaised(ProdSize(s.p)) == false
    requires s'.p.PLoop? || s'.p.PExit? || s'.p.PInvalidating? || s'.p.PReinvalidating? || s'.p == PSizing(SEnter)
          || (s'.p.PSendSig? && s.p.PHeld?)
    ensures Inv(s')
  {
    hide ContentInv, HistoryInv, ConsInv, PeekInv, ObsInv, ResizeInv;
    ProdQuiet(s, s');
    ProdResize(s, s');
  }

  lemma ProdActionKeeps(s: State, a: Action)
    requires Inv(s) && Enabled(s, a)
    requires a.ProdCall? || a.ProdStep? || a.ProdWrite? || a.ProdSend? || a.ProdDeallocate? || a.ProdAskSize?
          || a.ProdInvalidate? || a.ProdReinvalidate?
    ensures Inv(Next(s, a))
  {
    if a.ProdStep? {
      ProdStepKeeps(s);
    } else if a.ProdWrite? {
      ProdWriteKeeps(s, a.j, a.item);
    } else {
      ProdMoveKeeps(s, Next(s, a));
    }
  }

  // The consumer's instructions.

  /** Everything but the consumer's own part, after an instruction that moves no position. */
  lemma ConsQuiet(s: State, s': State)
    requires PositionInv(s) && HistoryInv(s) && ContentInv(s) && ProdInv(s) && ObsInv(s)
    requires Quiet(s, s') && s'.buf.store == s.buf.store && s'.buf.signal == s.buf.signal
    requires s'.p == s.p && s'.buf.prodFlags == s.buf.prodFlags
    requires s'.buf.valid == s.buf.valid && s'.obs == s.obs
    ensures PositionInv(s') && HistoryInv(s') && ContentInv(s') && ProdInv(s') && ObsInv(s')
  {
    hide PositionInv, ContentInv, HistoryInv, ProdInv, ObsInv;
    QuietPosition(s, s');
    QuietContent(s, s');
    QuietProd(s, s');
    QuietObs(s, s');
  }

  /** The resize handshake survives a step of the consumer that respects the gate. */
  lemma ConsResize(s: State, s': State)
    requires ResizeInv(s)
    requires s'.resizing == s.resizing && s'.m == s.m && s'.p == s.p && s'.obs == s.obs
    requires s'.buf.cap == s.buf.cap && s'.buf.wa == s.buf.wa
    requires s'.buf.ra != s.buf.ra ==> ConsInside(s.c)
    requires ConsInside(s'.c) ==> ConsInside(s.c) || !s.resizing
    requires s'.peeked.Some? ==> s.peeked.Some? || ConsInside(s.c)
    requires SizeInside(ConsSize(s'.c)) ==> SizeInside(ConsSize(s.c)) || !s.resizing
    ensures ResizeInv(s')
  {
  }

  /** One step of the consumer's size(). */
  lemma ConsSizingShape(s: State)
    requires ConsCanStep(s)
    requires (s.c.CFirst? || s.c.CSecond? || s.c.CThird? || s.c.CSizing?) && !s.c.sz.SRet?
    ensures var s' := ConsNext(s);
            && s' == s.(c := s'.c, checking := s'.checking) && Quiet(s, s')
            && ConsSize(s'.c) == NextSize(s.buf, s.resizing, ProdMid(s), s.c.sz)
            && (match s.c
                case CFirst(op, _) => s'.c == CFirst(op, ConsSize(s'.c))
                case CSecond(op, _) => s'.c == CSecond(op, ConsSize(s'.c))
                case CThird(op, _) => s'.c == CThird(op, ConsSize(s'.c))
                case _ => s'.c == CSizing(ConsSize(s'.c)))
            && s'.checking == s.checking + Count(SizeRaised(ConsSize(s'.c))) - Count(SizeRaised(ConsSize(s.c)))
            && (SizeInside(ConsSize(s'.c)) ==> SizeInside(ConsSize(s.c)) || !s.resizing)
  {
    hide Measure;
  }

  lemma ConsSizingCons(s: State)
    requires PositionInv(s) && ProdInv(s) && ConsInv(s) && PeekInv(s) && ConsCanStep(s)
    requires (s.c.CFirst? || s.c.CSecond? || s.c.CThird? || s.c.CSizing?) && !s.c.sz.SRet?
    requires PositionInv(ConsNext(s))
    ensures ConsInv(ConsNext(s)) && PeekInv(ConsNext(s))
  {
    hide ConsNext, ConsSizeInv, ExactSizeInv, ProdSizeInv, NextSize, Measure, PeekInv, Quiet;
    var s' := ConsNext(s);
    ConsSizingShape(s);
    QuietPeek(s, s');
    ConsSizeStepInv(s, s.c.sz);
    if s.c.CSecond? || s.c.CThird? {
      ExactSizeStepInv(s, s.c.sz);
    }
    QuietSize(s, s', ConsSize(s'.c));
  }

  lemma ConsSizingKeeps(s: State)
    requires Inv(s) && ConsCanStep(s)
    requires (s.c.CFirst? || s.c.CSecond? || s.c.CThird? || s.c.CSizing?) && !s.c.sz.SRet?
    ensures Inv(ConsNext(s))
  {
    hide PositionInv, ContentInv, HistoryInv, ProdInv, ConsInv, PeekInv, ObsInv, ResizeInv, ConsNext, NextSize, SizeRaised, Quiet;
    var s' := ConsNext(s);
    ConsSizingShape(s);
    ConsQuiet(s, s');
    ConsSizingCons(s);
    assert s'.buf == s.buf;
    ConsResize(s, s');
  }

  /** Instructions that only branch, raise or lower a flag, or copy out of the head slot. */
  predicate ConsLocal(c: ConsPc) {
    c.CLoop? || c.CGate? || c.CValid? || c.CValid2? || c.CAgain? || c.CSig? || c.CItem? || c.CExit? || c.CQuit?
    || ((c.CFirst? || c.CSecond? || c.CThird? || c.CSizing?) && c.sz.SRet?)
  }

  /** The fields such an instruction leaves alone, and what it may not do while a resize is pending. */
  lemma ConsLocalQuiet(s: State, s': State)
    requires ConsCanStep(s) && ConsLocal(s.c) && s' == ConsNext(s)
    ensures Quiet(s, s')
  {
    hide NextSize, Measure, CheckingDelta, ConsSizeStep, ConsNextSize;
  }

  lemma ConsLocalFrame(s: State, s': State)
    requires ConsCanStep(s) && ConsLocal(s.c) && s' == ConsNext(s)
    ensures s'.buf.store == s.buf.store && s'.buf.signal == s.buf.signal
    ensures s'.p == s.p && s'.buf.prodFlags == s.buf.prodFlags && s'.buf.valid == s.buf.valid && s'.obs == s.obs
    ensures s'.resizing == s.resizing && s'.m == s.m && s'.checking == s.checking
  {
    hide NextSize, Measure, CheckingDelta, ConsSizeStep, ConsNextSize;
  }

  lemma ConsLocalGate(s: State, s': State)
    requires ConsCanStep(s) && ConsLocal(s.c) && s' == ConsNext(s)
    ensures ConsInside(s'.c) ==> ConsInside(s.c) || !s.resizing
    ensures s'.peeked.Some? ==> s.peeked.Some? || ConsInside(s.c)
    ensures !SizeRaised(ConsSize(s.c)) && !SizeRaised(ConsSize(s'.c))
  {
    hide NextSize, Measure, CheckingDelta, ConsSizeStep, ConsNextSize, Wrap;
  }

  lemma ConsGateCons(s: State, s': State)
    requires PositionInv(s) && ConsInv(s) && PeekInv(s) && ConsCanStep(s) && PositionInv(s')
    requires s.c.CLoop? || s.c.CGate? || s.c.CAgain? || s.c.CExit? || s.c.CQuit?
    requires s' == ConsNext(s)
    ensures ConsInv(s') && PeekInv(s')
  {
  }

  lemma ConsReadCons(s: State, s': State)
    requires PositionInv(s) && ContentInv(s) && ConsInv(s) && PeekInv(s) && ConsCanStep(s) && PositionInv(s')
    requires s.c.CSig? || s.c.CItem?
    requires s' == ConsNext(s)
    ensures ConsInv(s') && PeekInv(s')
  {
    assert At(s.buf.ra, 0, s.buf.cap) == s.buf.ra;
  }

  lemma GrantShape(s: State, s': State)
    requires ConsCanStep(s) && s.c.CFirst? && s.c.sz.SRet? && s' == ConsNext(s)
    ensures s' == if s.c.sz.n >= Want(s.c.op) then Take(s, s.c.op) else s.(c := CValid(s.c.op))
  {
  }

  lemma RefuseShape(s: State, s': State)
    requires ConsCanStep(s) && s' == ConsNext(s)
    requires s.c.CValid? || s.c.CValid2? || ((s.c.CSecond? || s.c.CThird? || s.c.CSizing?) && s.c.sz.SRet?)
    ensures s' == s.(c := s'.c)
  {
  }

  lemma ConsGrantCons(s: State, s': State)
    requires PositionInv(s) && ContentInv(s) && ConsInv(s) && PeekInv(s) && ConsCanStep(s) && PositionInv(s')
    requires s.c.CFirst? && s.c.sz.SRet?
    requires s' == if s.c.sz.n >= Want(s.c.op) then Take(s, s.c.op) else s.(c := CValid(s.c.op))
    ensures ConsInv(s') && PeekInv(s')
  {
    hide ConsNext, NextSize, Measure, ExactSizeInv;
    assert At(s.buf.ra, 0, s.buf.cap) == s.buf.ra;
  }

  lemma ConsRefuseCons(s: State, s': State)
    requires PositionInv(s) && ConsInv(s) && PeekInv(s) && ConsCanStep(s) && PositionInv(s')
    requires s.c.CValid? || s.c.CValid2? || ((s.c.CSecond? || s.c.CThird? || s.c.CSizing?) && s.c.sz.SRet?)
    requires s' == s.(c := s'.c) && s' == ConsNext(s)
    ensures ConsInv(s') && PeekInv(s')
  {
    hide NextSize, Measure;
  }

  lemma ConsLocalKeeps(s: State, s': State)
    requires Inv(s) && ConsCanStep(s) && ConsLocal(s.c) && s' == ConsNext(s)
    ensures Inv(s')
  {
    hide PositionInv, ContentInv, HistoryInv, ProdInv, ConsInv, PeekInv, ObsInv, ResizeInv, ConsNext, ConsCanStep, Quiet;
    ConsLocalQuiet(s, s');
    ConsLocalFrame(s, s');
    ConsLocalGate(s, s');
    ConsQuiet(s, s');
    if s.c.CSig? || s.c.CItem? {
      ConsReadCons(s, s');
    } else if s.c.CFirst? {
      GrantShape(s, s');
      ConsGrantCons(s, s');
    } else if s.c.CLoop? || s.c.CGate? || s.c.CAgain? || s.c.CExit? || s.c.CQuit? {
      ConsGateCons(s, s');
    } else {
      RefuseShape(s, s');
      ConsRefuseCons(s, s');
    }
    assert s'.buf.cap == s.buf.cap && s'.buf.ra == s.buf.ra && s'.buf.wa == s.buf.wa by { QuietBuf(s, s'); }
    ConsResize(s, s');
  }

  lemma QuietBuf(s: State, s': State)
    requires Quiet(s, s')
    ensures s'.buf.cap == s.buf.cap && s'.buf.ra == s.buf.ra && s'.buf.wa == s.buf.wa
    ensures s'.pushed == s.pushed && s'.popped == s.popped
  {
  }

  lemma ConsTakePosition(s: State)
    requires PositionInv(s) && HistoryInv(s) && ConsInv(s) && ConsCanStep(s) && s.c.CIncA?
    ensures PositionInv(ConsNext(s)) && HistoryInv(ConsNext(s))
  {
    hide ConsSizeInv, ExactSizeInv, Measure, At;
  }

  lemma ConsTakeContent(s: State)
    requires PositionInv(s) && ContentInv(s) && ConsCanStep(s) && s.c.CIncA? && PositionInv(ConsNext(s))
    ensures ContentInv(ConsNext(s))
  {
    hide ProdMid, ConsMid;
  }

  lemma ConsTakeRing(s: State)
    requires PositionInv(s) && HistoryInv(s) && ContentInv(s) && ConsInv(s) && ConsCanStep(s) && s.c.CIncA?
    ensures PositionInv(ConsNext(s)) && HistoryInv(ConsNext(s)) && ContentInv(ConsNext(s))
  {
    hide PositionInv, HistoryInv, ContentInv, ConsInv, ConsNext;
    ConsTakePosition(s);
    ConsTakeContent(s);
  }

  lemma ConsTakeProd(s: State)
    requires PositionInv(s) && ProdInv(s) && ConsCanStep(s) && s.c.CIncA?
    requires PositionInv(ConsNext(s))
    ensures ProdInv(ConsNext(s))
  {
  }

  lemma ConsTakeCons(s: State)
    requires PositionInv(s) && ConsInv(s) && PeekInv(s) && ConsCanStep(s) && s.c.CIncA?
    requires PositionInv(ConsNext(s))
    ensures ConsInv(ConsNext(s)) && PeekInv(ConsNext(s))
  {
  }

  lemma ConsTakeKeeps(s: State)
    requires Inv(s) && ConsCanStep(s) && s.c.CIncA?
    ensures Inv(ConsNext(s))
  {
    hide PositionInv, ContentInv, HistoryInv, ProdInv, ConsInv, PeekInv, ObsInv, ResizeInv;
    var s' := ConsNext(s);
    ConsTakeRing(s);
    ConsTakeProd(s);
    ConsTakeCons(s);
    QuietObs(s, s');
    ConsResize(s, s');
  }

  lemma ConsLapRing(s: State, s': State)
    requires PositionInv(s) && HistoryInv(s) && ContentInv(s) && ConsCanStep(s) && s.c.CIncWrap?
    requires s' == ConsNext(s)
    ensures s' == s.(c := CExit(s.c.op), buf := s.buf.(rw := s'.buf.rw)) && ReadLap(s') == ReadLap(s)
    ensures PositionInv(s') && HistoryInv(s') && ContentInv(s')
  {
  }

  lemma ConsLapThreads(s: State, s': State)
    requires PositionInv(s) && ProdInv(s) && ConsInv(s) && PeekInv(s) && PositionInv(s') && s.c.CIncWrap?
    requires s' == s.(c := CExit(s.c.op), buf := s.buf.(rw := s'.buf.rw)) && ReadLap(s') == ReadLap(s)
    ensures ProdInv(s') && ConsInv(s') && PeekInv(s')
  {
  }

  lemma ConsLapKeeps(s: State)
    requires Inv(s) && ConsCanStep(s) && s.c.CIncWrap?
    ensures Inv(ConsNext(s))
  {
    hide PositionInv, ContentInv, HistoryInv, ProdInv, ConsInv, PeekInv, ObsInv, ResizeInv;
    var s' := ConsNext(s);
    ConsLapRing(s, s');
    ConsLapThreads(s, s');
    QuietObs(s, s');
    ConsResize(s, s');
  }

  lemma ConsStepKeeps(s: State)
    requires Inv(s) && ConsCanStep(s)
    ensures Inv(ConsNext(s))
  {
    hide Inv, ConsNext;
    if ConsLocal(s.c) {
      ConsLocalKeeps(s, ConsNext(s));
    } else if s.c.CIncA? {
      ConsTakeKeeps(s);
    } else if s.c.CIncWrap? {
      ConsLapKeeps(s);
    } else {
      ConsSizingKeeps(s);
    }
  }

  lemma ConsMoveKeeps(s: State, a: Action)
    requires Inv(s) && Enabled(s, a) && (a.ConsCall? || a.ConsUnpeek? || a.ConsAskSize?)
    ensures Inv(Next(s, a))
  {
    hide ContentInv, HistoryInv, ProdInv, ObsInv, ResizeInv;
    var s' := Next(s, a);
    ConsQuiet(s, s');
    ConsResize(s, s');
  }

  // The resizing thread.

  /** Only `resizing` and the resizer's own program counter change. */
  lemma ResizerFrame(s: State, s': State)
    requires PositionInv(s) && ContentInv(s) && HistoryInv(s) && ProdInv(s) && ConsInv(s) && PeekInv(s)
    requires ObsInv(s) && CountInv(s)
    requires s' == s.(m := s'.m, resizing := s'.resizing)
    ensures PositionInv(s') && ContentInv(s') && HistoryInv(s') && ProdInv(s') && ConsInv(s') && PeekInv(s')
    ensures ObsInv(s') && CountInv(s')
  {
    QuietPosition(s, s');
    QuietContent(s, s');
    QuietProd(s, s');
    QuietCons(s, s');
  }

  /** Seeing every flag down and the counter at zero means that nobody is inside. */
  lemma AllClear(s: State, exit: bool)
    requires PositionInv(s) && ProdInv(s) && ConsInv(s) && ObsInv(s) && CountInv(s) && ResizeInv(s)
    requires !s.m.MIdle? && !s.m.MSwap?
    ensures ResizeInv(ResizeNext(s, exit))
  {
    if s.m.MLoadS? && s.checking == 0 {
      assert s.obs == map[];
    }
  }

  lemma ResizeStepKeeps(s: State, exit: bool)
    requires Inv(s) && !s.m.MIdle? && !s.m.MSwap?
    ensures Inv(ResizeNext(s, exit))
  {
    hide PositionInv, ContentInv, HistoryInv, ProdInv, ConsInv, PeekInv, ObsInv, ResizeInv, CountInv;
    ResizerFrame(s, ResizeNext(s, exit));
    AllClear(s, exit);
  }

  lemma ResizeCallKeeps(s: State, newCap: nat)
    requires Inv(s) && Enabled(s, ResizeCall(newCap))
    ensures Inv(Next(s, ResizeCall(newCap)))
  {
    ResizerFrame(s, Next(s, ResizeCall(newCap)));
  }

  /** With everyone out and `ra < wa`, the copied buffer holds the same queue at the same indices. */
  lemma SwapRing(s: State, tail: seq<Item>, signals: seq<Signal>)
    requires Inv(s) && Enabled(s, ResizeSwap(tail, signals))
    ensures var s' := Swap(s, tail, signals); PositionInv(s') && ContentInv(s') && HistoryInv(s')
  {
    var s' := Swap(s, tail, signals);
    assert PositionInv(s');
  }

  lemma SwapThreads(s: State, tail: seq<Item>, signals: seq<Signal>)
    requires Inv(s) && Enabled(s, ResizeSwap(tail, signals))
    requires PositionInv(Swap(s, tail, signals))
    ensures var s' := Swap(s, tail, signals); ProdInv(s') && ConsInv(s') && PeekInv(s') && ObsInv(s')
  {
  }

  lemma SwapKeeps(s: State, tail: seq<Item>, signals: seq<Signal>)
    requires Inv(s) && Enabled(s, ResizeSwap(tail, signals))
    ensures Inv(Swap(s, tail, signals))
  {
    SwapRing(s, tail, signals);
    SwapThreads(s, tail, signals);
  }

  // The observers.

  /** Only the observers and the counter change. */
  lemma ObserverFrame(s: State, s': State)
    requires PositionInv(s) && ContentInv(s) && HistoryInv(s) && ProdInv(s) && ConsInv(s) && PeekInv(s)
    requires s' == s.(obs := s'.obs, checking := s'.checking)
    ensures PositionInv(s') && ContentInv(s') && HistoryInv(s') && ProdInv(s') && ConsInv(s') && PeekInv(s')
  {
    QuietPosition(s, s');
    QuietContent(s, s');
    QuietProd(s, s');
    QuietCons(s, s');
  }

  lemma ObsCallCount(s: State, id: nat)
    requires ObsInv(s) && CountInv(s) && ResizeInv(s) && id !in s.obs
    ensures var s' := Next(s, ObsCall(id)); ObsInv(s') && CountInv(s') && ResizeInv(s')
  {
  }

  lemma ObsCallKeeps(s: State, id: nat)
    requires Inv(s) && id !in s.obs
    ensures Inv(Next(s, ObsCall(id)))
  {
    hide PositionInv, ContentInv, HistoryInv, ProdInv, ConsInv, PeekInv, ObsInv, ResizeInv, CountInv;
    ObserverFrame(s, Next(s, ObsCall(id)));
    ObsCallCount(s, id);
  }

  lemma ObsStepCount(s: State, id: nat)
    requires 0 < s.buf.cap && s.buf.ra < s.buf.cap && s.buf.wa < s.buf.cap
    requires ObsInv(s) && CountInv(s) && ResizeInv(s) && id in s.obs
    ensures var s' := ObsNext(s, id); ObsInv(s') && CountInv(s') && ResizeInv(s')
  {
    var s' := ObsNext(s, id);
    if id in s'.obs {
      assert s'.obs.Keys == s.obs.Keys;
    } else {
      assert s'.obs.Keys == s.obs.Keys - {id};
    }
  }

  lemma ObsStepKeeps(s: State, id: nat)
    requires Inv(s) && id in s.obs
    ensures Inv(ObsNext(s, id))
  {
    hide ContentInv, HistoryInv, ProdInv, ConsInv, PeekInv, ObsInv, ResizeInv, CountInv;
    ObserverFrame(s, ObsNext(s, id));
    ObsStepCount(s, id);
  }

  lemma StepKeeps(s: State, a: Action)
    requires Inv(s) && Enabled(s, a)
    ensures Inv(Next(s, a))
  {
    hide Inv;
    if a.ConsCall? || a.ConsUnpeek? || a.ConsAskSize? {
      ConsMoveKeeps(s, a);
    } else if a.ConsStep? {
      ConsStepKeeps(s);
    } else if a.ResizeCall? {
      ResizeCallKeeps(s, a.newCap);
    } else if a.ResizeStep? {
      ResizeStepKeeps(s, a.exit);
    } else if a.ResizeSwap? {
      SwapKeeps(s, a.tail, a.signals);
    } else if a.ObsCall? {
      ObsCallKeeps(s, a.id);
    } else if a.ObsStep? {
      ObsStepKeeps(s, a.oid);
    } else {
      ProdActionKeeps(s, a);
    }
  }
}
