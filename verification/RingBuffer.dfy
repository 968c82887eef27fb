/**
 * The heap FIFO as a single thread uses it: Buffer::Data with its storage and pointers,
 * and the calls of RingBufferBase on it.  A call that would spin is modelled by one pass
 * of its retry loop and reports `Blocked`; what other threads do in between is the subject
 * of SharedFifo.
 */
module RingBuffers {
  import opened Wrappers
  import opened Positions
  import opened Pointers

  type Signal = int

  /** raft::none */
  const NONE: Signal := 0

  datatype Cell<+T> = Cell(item: T, sig: Signal)

  /** `Aborted` stands for the exit of the whole program. */
  datatype Status = Done | Blocked | ClosedPort | NoMoreData | Aborted

  /** The `n` slots from slot `a` on. */
  ghost function Window<T>(store: seq<T>, signal: seq<Signal>, a: nat, n: nat): (r: seq<Cell<T>>)
    requires |store| == |signal| && a < |store| && n <= |store|
    ensures |r| == n
    ensures forall i :: 0 <= i < n ==> r[i] == Cell(store[At(a, i, |store|)], signal[At(a, i, |store|)])
  {
    seq(n, i requires 0 <= i < n => Cell(store[At(a, i, |store|)], signal[At(a, i, |store|)]))
  }

  ghost function ItemsOf<T>(cells: seq<Cell<T>>): (r: seq<T>)
    ensures |r| == |cells|
    ensures forall i :: 0 <= i < |r| ==> r[i] == cells[i].item
  {
    seq(|cells|, i requires 0 <= i < |cells| => cells[i].item)
  }

  /** Consecutive windows join up, across the wrap as well. */
  lemma WindowJoin<T>(store: seq<T>, signal: seq<Signal>, a: nat, n: nat, k: nat)
    requires |store| == |signal| && a < |store| && n + k <= |store|
    ensures Window(store, signal, a, n + k) == Window(store, signal, a, n) + Window(store, signal, At(a, n, |store|), k)
  {
    forall i | 0 <= i < k
      ensures At(At(a, n, |store|), i, |store|) == At(a, n + i, |store|)
    {
      AtAt(a, n, i, |store|);
    }
  }

  /** A signal stored outside a window does not show in it; one stored at element `j` shows there only. */
  lemma WindowSignal<T>(store: seq<T>, signal: seq<Signal>, a: nat, n: nat, j: nat, sig: Signal)
    requires |store| == |signal| && a < |store| && n <= |store| && j < |store|
    ensures var w := Window(store, signal, a, n);
            Window(store, signal[At(a, j, |store|) := sig], a, n) == if j < n then w[j := Cell(w[j].item, sig)] else w
  {
    forall i | 0 <= i < n && i != j
      ensures At(a, i, |store|) != At(a, j, |store|)
    {
      AtInjective(a, i, j, |store|);
    }
  }

  /** The queue after its signal is stored and `n` of the `reserved` slots behind it are published. */
  lemma SentWindow<T>(store: seq<T>, signal: seq<Signal>, a: nat, len: nat, n: nat, reserved: nat, sig: Signal)
    requires |store| == |signal| && a < |store| && n <= reserved && len + reserved <= |store|
    ensures var wa := At(a, len, |store|);
            var q, r := Window(store, signal, a, len), Window(store, signal, wa, reserved)[..n];
            Window(store, signal[wa := sig], a, len + n)
            == if n > 0 then q + r[0 := Cell(r[0].item, sig)]
               else if len == |store| then q[0 := Cell(q[0].item, sig)] else q
  {
    var wa := At(a, len, |store|);
    WindowJoin(store, signal, a, len, n);
    assert Window(store, signal, wa, reserved)[..n] == Window(store, signal, wa, n);
    if len < |store| {
      WindowSignal(store, signal, a, len + n, len, sig);
    } else {
      WindowSignal(store, signal, a, len, 0, sig);
    }
  }

  /** The write position is at most one full lap ahead of the read position. */
  predicate Ahead(r: Pos, w: Pos) {
    (w.wrap == r.wrap && r.a <= w.a) || (w.wrap == r.wrap + 1 && w.a <= r.a)
  }

  function Distance(r: Pos, w: Pos, cap: nat): int {
    if w.wrap == r.wrap then w.a - r.a else cap - r.a + w.a
  }

  /** Publishing `n` free slots moves the write position `n` further ahead and no more than a lap. */
  lemma DistanceAfter(r: Pos, w: Pos, n: nat, cap: nat)
    requires r.a < cap && w.a < cap && Ahead(r, w) && Distance(r, w, cap) + n <= cap
    ensures var w' := IncByPos(w, n, cap);
            w'.a < cap && Ahead(r, w') && Distance(r, w', cap) == Distance(r, w, cap) + n && w'.a == At(w.a, n, cap)
    ensures 0 <= Distance(r, w, cap) && At(r.a, Distance(r, w, cap), cap) == w.a
  {
  }

  lemma IncOne(w: Pos, cap: nat)
    requires w.a < cap
    ensures IncTimes(w, 1, cap) == IncByPos(w, 1, cap)
  {
    IncByIsIncs(w, 1, cap);
  }

  lemma AtWrite(r: Pos, w: Pos, cap: nat)
    requires r.a < cap && w.a < cap && Ahead(r, w) && Distance(r, w, cap) <= cap
    ensures 0 <= Distance(r, w, cap) && At(r.a, Distance(r, w, cap), cap) == w.a
  {
  }

  /** One slot behind the queue is filled and published: the window grows, the free part shrinks. */
  lemma PushedWindow<T>(store: seq<T>, signal: seq<Signal>, store': seq<T>, signal': seq<Signal>, a: nat, len: nat)
    requires |store| == |signal| == |store'| == |signal'| && a < |store| && len < |store|
    requires forall j :: 0 <= j < |store| && j != At(a, len, |store|) ==> store'[j] == store[j] && signal'[j] == signal[j]
    ensures var cap, wa := |store|, At(a, len, |store|);
            && Window(store', signal', a, len + 1) == Window(store, signal, a, len) + [Cell(store'[wa], signal'[wa])]
            && Window(store', signal', At(wa, 1, cap), cap - len - 1) == Window(store, signal, wa, cap - len)[1..]
  {
    var cap, wa := |store|, At(a, len, |store|);
    forall i | 0 <= i < len
      ensures At(a, i, cap) != wa
    {
      AtInjective(a, i, len, cap);
    }
    forall i | 0 <= i < cap - len - 1
      ensures At(At(wa, 1, cap), i, cap) == At(wa, i + 1, cap) != wa
    {
      AtAt(wa, 1, i, cap);
      AtInjective(wa, i + 1, 0, cap);
    }
  }

  /** Publishing more than there is room for leaves the write position more than a lap ahead. */
  lemma TooFarAhead(r: Pos, w: Pos, n: nat, cap: nat)
    requires r.a < cap && w.a < cap && Ahead(r, w) && n <= cap < Distance(r, w, cap) + n
    ensures !Ahead(r, IncByPos(w, n, cap))
  {
  }

  /** Windows that agree slot for slot. */
  lemma WindowFrame<T>(store: seq<T>, signal: seq<Signal>, signal': seq<Signal>, a: nat, n: nat)
    requires |store| == |signal| == |signal'| && a < |store| && n <= |store|
    requires forall i :: 0 <= i < n ==> signal[At(a, i, |store|)] == signal'[At(a, i, |store|)]
    ensures Window(store, signal, a, n) == Window(store, signal', a, n)
  {
  }

  /** A window that does not wrap survives a slot-for-slot copy into a larger ring. */
  lemma WindowCopy<T>(store: seq<T>, signal: seq<Signal>, store': seq<T>, signal': seq<Signal>, a: nat, n: nat, k: nat)
    requires |store| == |signal| <= |store'| == |signal'| && a < |store| && a + n <= |store| && k <= |signal|
    requires store'[..|store|] == store && signal'[..k] == signal[..k]
    ensures ItemsOf(Window(store', signal', a, n)) == ItemsOf(Window(store, signal, a, n))
    ensures a + n <= k ==> Window(store', signal', a, n) == Window(store, signal, a, n)
  {
    forall i | 0 <= i < n
      ensures At(a, i, |store|) == a + i == At(a, i, |store'|)
      ensures store'[a + i] == store[a + i]
      ensures a + n <= k ==> signal'[a + i] == signal[a + i]
    {
      assert store'[..|store|][a + i] == store[a + i];
      assert a + n <= k ==> signal'[..k][a + i] == signal[..k][a + i];
    }
  }

  /** Buffer::Data for inline items. */
  class Data<T(0)> {
    const maxCap: nat
    const store: array<T>
    const signal: array<Signal>
    var readPt: Pointer
    var writePt: Pointer
    var isValid: bool
    const externalAlloc: bool

    ghost function Repr(): set<object>
      reads this
    {
      {this, readPt, writePt, store, signal}
    }

    /** Both pointers are in range, and the write pointer is ahead by at most one full lap. */
    ghost predicate Valid()
      reads this, readPt, writePt, store, signal
    {
      && 0 < maxCap == store.Length == signal.Length
      && readPt != writePt && (store as object) != (signal as object)
      && readPt.maxCap == maxCap == writePt.maxCap
      && readPt.Valid() && writePt.Valid()
      && Ahead(readPt.Position(), writePt.Position())
    }

    ghost function Length(): (n: nat)
      requires Valid()
      reads this, readPt, writePt, store, signal
      ensures n <= maxCap
    {
      Distance(readPt.Position(), writePt.Position(), maxCap)
    }

    ghost function Contents(): (r: seq<Cell<T>>)
      requires Valid()
      reads this, readPt, writePt, store, signal
      ensures |r| == Length()
    {
      Window(store[..], signal[..], readPt.a, Length())
    }

    constructor (cap: nat)
      requires 0 < cap
      ensures Valid() && fresh(Repr()) && maxCap == cap && isValid && !externalAlloc && Contents() == []
    {
      maxCap := cap;
      externalAlloc := false;
      store := new T[cap];
      signal := new Signal[cap](_ => NONE);
      readPt := new Pointer(cap);
      writePt := new Pointer(cap);
      isValid := true;
    }

    /**
     * Over items that are there already: the write pointer starts one wrap ahead, so the
     * buffer is full. The items are copied here, where the source keeps the pointer; and
     * the source makes room for one signal only.
     */
    constructor Existing(items: seq<T>)
      requires items != []
      ensures Valid() && fresh(Repr()) && maxCap == |items| && isValid && externalAlloc
      ensures readPt.Position() == Pos(0, 0) && writePt.Position() == Pos(0, 1)
      ensures Length() == maxCap && ItemsOf(Contents()) == items
    {
      maxCap := |items|;
      externalAlloc := true;
      store := new T[|items|](i requires 0 <= i < |items| => items[i]);
      signal := new Signal[|items|](_ => NONE);
      readPt := new Pointer(|items|);
      writePt := new Pointer.Wrapped(|items|, 1);
      isValid := true;
      new;
      assert store[..] == items;
    }

    /** The two memory copies, front to front. */
    method CopyArrays(other: Data<T>, signals: nat)
      requires store.Length == maxCap == signal.Length && other.store.Length == other.maxCap == other.signal.Length
      requires {store as object, signal} !! {other.store as object, other.signal} && (store as object) != (signal as object)
      requires other.maxCap <= maxCap && signals <= other.maxCap
      modifies store, signal
      ensures store[..][..other.maxCap] == other.store[..]
      ensures signal[..][..signals] == other.signal[..][..signals]
    {
      for i := 0 to other.maxCap
        modifies store
        invariant store[..i] == other.store[..i]
      {
        store[i] := other.store[i];
      }
      for i := 0 to signals
        modifies signal
        invariant signal[..i] == other.signal[..i]
      {
        signal[i] := other.signal[i];
      }
    }

    /**
     * copyFrom into a fresh buffer at least as large.  `signals` is the number of signals
     * that fit into the bytes copied: that length is computed from the size of an item.
     * (On a buffer over existing items the program ends instead.)
     */
    method CopyFrom(other: Data<T>, signals: nat)
      requires Valid() && other.Valid() && Repr() !! other.Repr() && !other.externalAlloc
      requires other.maxCap <= maxCap && signals <= other.maxCap
      requires other.readPt.a < other.writePt.a
      modifies this, store, signal
      ensures Valid() && fresh({readPt, writePt}) && isValid == other.isValid
      ensures readPt.Position() == Pos(other.readPt.a, 0) && writePt.Position() == Pos(other.writePt.a, 0)
      ensures ItemsOf(Contents()) == ItemsOf(other.Contents())
      ensures other.writePt.a <= signals ==> Contents() == other.Contents()
    {
      CopyArrays(other, signals);
      WindowCopy(other.store[..], other.signal[..], store[..], signal[..], other.readPt.a, other.Length(), signals);
      readPt := new Pointer.CopyOf(other.readPt, maxCap);
      writePt := new Pointer.CopyOf(other.writePt, maxCap);
      isValid := other.isValid;
    }
  }

  /** The FIFO calls, and the producer's two flags of FIFOAbstract. */
  class RingBuffer<T(0)> {
    var buffer: Data<T>
    var allocateCalled: bool
    var nAllocated: nat

    ghost function Repr(): set<object>
      reads this, buffer
    {
      {this} + buffer.Repr()
    }

    ghost predicate Valid()
      reads this, buffer, buffer.readPt, buffer.writePt, buffer.store, buffer.signal
    {
      this !in buffer.Repr() && buffer.Valid() && nAllocated <= buffer.maxCap
    }

    ghost function Contents(): (r: seq<Cell<T>>)
      requires Valid()
      reads this, buffer, buffer.readPt, buffer.writePt, buffer.store, buffer.signal
      ensures |r| <= buffer.maxCap
    {
      buffer.Contents()
    }

    /** The free slots behind the queue, as they read now; allocate and allocate_range hand out the first of them. */
    ghost function Spare(): (r: seq<Cell<T>>)
      requires Valid()
      reads this, buffer, buffer.readPt, buffer.writePt, buffer.store, buffer.signal
      ensures |r| == buffer.maxCap - |Contents()|
    {
      Window(buffer.store[..], buffer.signal[..], buffer.writePt.a, buffer.maxCap - buffer.Length())
    }

    constructor (n: nat)
      requires n != 0
      ensures Valid() && fresh(Repr()) && Contents() == [] && buffer.maxCap == n && buffer.isValid && !allocateCalled
    {
      buffer := new Data<T>(n);
      allocateCalled := false;
      nAllocated := 1;
    }

    constructor Existing(items: seq<T>)
      requires items != []
      ensures Valid() && fresh(Repr()) && buffer.maxCap == |items| && buffer.isValid && !allocateCalled
      ensures ItemsOf(Contents()) == items
    {
      buffer := new Data<T>.Existing(items);
      allocateCalled := false;
      nAllocated := 1;
    }

    method Size() returns (n: nat)
      requires Valid()
      ensures n == |Contents()|
    {
      var wrapWrite := Pointer.WrapIndicator(buffer.writePt);
      var wrapRead := Pointer.WrapIndicator(buffer.readPt);
      var wpt := Pointer.Val(buffer.writePt);
      var rpt := Pointer.Val(buffer.readPt);
      if wpt == rpt {
        if wrapRead < wrapWrite {
          return buffer.maxCap;
        } else {
          return 0;
        }
      } else if rpt < wpt {
        return wpt - rpt;
      } else {
        return buffer.maxCap - rpt + wpt;
      }
    }

    method SpaceAvail() returns (n: nat)
      requires Valid()
      ensures n == buffer.maxCap - |Contents()|
    {
      var size := Size();
      n := buffer.maxCap - size;
    }

    /** `None` stands for the null pointer of a bare signal: the slot keeps its old item. */
    method Push(item: Option<T>, sig: Signal) returns (r: Status)
      requires Valid()
      modifies buffer.writePt, buffer.store, buffer.signal
      ensures Valid() && buffer.isValid == old(buffer.isValid)
      ensures r == if |old(Contents())| < buffer.maxCap then Done else Blocked
      ensures r.Blocked? ==> Contents() == old(Contents())
      ensures r.Done? ==> Spare() == old(Spare())[1..]
      ensures r.Done? ==> Contents() == old(Contents()) + [Cell(if item.Some? then item.value else old(Spare())[0].item, sig)]
    {
      hide Window, IncTimes, IncByPos, At, Wrap, Ahead, Distance;
      var space := SpaceAvail();
      if space == 0 {
        return Blocked;
      }
      ghost var store, signal := buffer.store[..], buffer.signal[..];
      ghost var w := buffer.writePt.Position();
      DistanceAfter(buffer.readPt.Position(), w, 1, buffer.maxCap);
      IncOne(w, buffer.maxCap);
      var writeIndex := Pointer.Val(buffer.writePt);
      if item.Some? {
        buffer.store[writeIndex] := item.value;
      }
      buffer.signal[writeIndex] := sig;
      PushedWindow(store, signal, buffer.store[..], buffer.signal[..], buffer.readPt.a, buffer.Length());
      Pointer.Inc(buffer.writePt);
      r := Done;
    }

    method Pop() returns (r: Status, cell: Option<Cell<T>>)
      requires Valid()
      modifies buffer.readPt
      ensures Valid() && buffer.isValid == old(buffer.isValid)
      ensures r == if old(Contents()) != [] then Done else if buffer.isValid then Blocked else ClosedPort
      ensures r.Done? ==> cell == Some(old(Contents())[0]) && Contents() == old(Contents())[1..]
      ensures !r.Done? ==> cell == None && Contents() == old(Contents())
    {
      var size := Size();
      if size == 0 {
        return if buffer.isValid then Blocked else ClosedPort, None;
      }
      var readIndex := Pointer.Val(buffer.readPt);
      cell := Some(Cell(buffer.store[readIndex], buffer.signal[readIndex]));
      Pointer.Inc(buffer.readPt);
      r := Done;
    }

    method IsInvalid() returns (r: bool)
      requires Valid()
      ensures r == !buffer.isValid
    {
      r := !buffer.isValid;
    }

    method Invalidate()
      requires Valid()
      modifies buffer
      ensures Valid() && !buffer.isValid && Contents() == old(Contents())
      ensures buffer.readPt == old(buffer.readPt) && buffer.writePt == old(buffer.writePt)
    {
      buffer.isValid := false;
    }

    /** The head of the queue, by slot. */
    method Peek() returns (r: Status, slot: nat, sig: Signal)
      requires Valid()
      ensures r == if Contents() != [] then Done else if buffer.isValid then Blocked else ClosedPort
      ensures r.Done? ==> slot < buffer.maxCap && Cell(buffer.store[slot], sig) == Contents()[0]
    {
      var size := Size();
      if size == 0 {
        return if buffer.isValid then Blocked else ClosedPort, 0, NONE;
      }
      slot := Pointer.Val(buffer.readPt);
      sig := buffer.signal[slot];
      r := Done;
    }

    /** peek_range: the slot of the first of `n` items. */
    method PeekRange(n: nat) returns (r: Status, first: nat)
      requires Valid()
      ensures r == if n <= |Contents()| then Done
                   else if buffer.isValid then Blocked
                   else if Contents() == [] then ClosedPort else NoMoreData
      ensures r.Done? ==>
                && first < buffer.maxCap && n <= buffer.maxCap
                && Contents()[..n] == Window(buffer.store[..], buffer.signal[..], first, n)
    {
      var size := Size();
      if size < n {
        return if buffer.isValid then Blocked else if size == 0 then ClosedPort else NoMoreData, 0;
      }
      first := Pointer.Val(buffer.readPt);
      r := Done;
    }

    /**
     * Element `index` of a peeked range of `n` items; no item for the length_error.  The signal
     * is looked up from the slot of the first element on, as if that were the start of the
     * array: it is the element's own exactly if the range starts at slot 0, and past the end
     * of the array (no signal here) if the two offsets add up to that.
     */
    method PeekedItem(first: nat, n: nat, index: nat) returns (item: Option<T>, sig: Option<Signal>)
      requires Valid() && first == buffer.readPt.a && n <= |Contents()|
      ensures item == if index < n then Some(Contents()[index].item) else None
      ensures index >= n ==> sig == None
      ensures index < n ==> var slot := At(first, index, buffer.maxCap);
                && (sig == if first + slot < buffer.maxCap then Some(buffer.signal[first + slot]) else None)
                && Contents()[index].sig == buffer.signal[slot]
                && (first == 0 ==> sig == Some(Contents()[index].sig))
    {
      if index >= n {
        return None, None;
      }
      assert Contents()[index] == Cell(buffer.store[At(first, index, buffer.maxCap)], buffer.signal[At(first, index, buffer.maxCap)]);
      var slot := Wrap(index + first, buffer.maxCap);
      item := Some(buffer.store[slot]);
      sig := if first + slot < buffer.maxCap then Some(buffer.signal[first + slot]) else None;
    }

    /** One pass of the inner loop of local_recycle. */
    method RecycleOne() returns (r: Status)
      requires Valid()
      modifies buffer.readPt
      ensures Valid() && buffer.isValid == old(buffer.isValid)
      ensures r == if old(Contents()) != [] then Done else if buffer.isValid then Blocked else ClosedPort
      ensures Contents() == if r.Done? then old(Contents())[1..] else old(Contents())
    {
      var size := Size();
      if size == 0 {
        return if buffer.isValid then Blocked else ClosedPort;
      }
      Pointer.Inc(buffer.readPt);
      r := Done;
    }

    /** Drops up to `range` items; on an open, drained queue the rest of them is still owed. */
    method Recycle(range: nat) returns (owed: nat)
      requires Valid()
      modifies buffer.readPt
      ensures Valid() && buffer.isValid == old(buffer.isValid)
      ensures var k := if range <= |old(Contents())| then range else |old(Contents())|;
              && Contents() == old(Contents())[k..]
              && owed == if buffer.isValid then range - k else 0
    {
      hide Window, At, Wrap;
      owed := range;
      ghost var was := Contents();
      while owed > 0
        invariant Valid() && buffer.isValid == old(buffer.isValid) && owed <= range
        invariant range - owed <= |was| && Contents() == was[range - owed..]
      {
        var r := RecycleOne();
        if !r.Done? {
          if r.ClosedPort? {
            owed := 0;
          }
          return;
        }
        owed := owed - 1;
      }
    }

    /** Reserves the slot behind the queue; its index stands for the reference. */
    method Allocate() returns (r: Status, slot: nat)
      requires Valid()
      modifies this`allocateCalled
      ensures Valid() && Contents() == old(Contents()) && Spare() == old(Spare())
      ensures r == if |Contents()| < buffer.maxCap then Done else Blocked
      ensures allocateCalled == (old(allocateCalled) || r.Done?)
      ensures r.Done? ==> slot == buffer.writePt.a && Cell(buffer.store[slot], buffer.signal[slot]) == Spare()[0]
    {
      var space := SpaceAvail();
      if space == 0 {
        return Blocked, 0;
      }
      slot := Pointer.Val(buffer.writePt);
      allocateCalled := true;
      r := Done;
    }

    /** The loop of local_allocate_n: no signal yet on any of the `n` slots behind the queue. */
    method ClearSignals(n: nat)
      requires Valid() && |Contents()| + n <= buffer.maxCap
      modifies buffer.signal
      ensures forall i :: 0 <= i < n ==> buffer.signal[At(buffer.writePt.a, i, buffer.maxCap)] == NONE
      ensures forall i :: 0 <= i < buffer.Length() ==>
                var slot := At(buffer.readPt.a, i, buffer.maxCap); buffer.signal[slot] == old(buffer.signal[slot])
    {
      var writeIndex := Pointer.Val(buffer.writePt);
      for index := 0 to n
        invariant writeIndex == At(buffer.writePt.a, index, buffer.maxCap)
        invariant forall i :: 0 <= i < index ==> buffer.signal[At(buffer.writePt.a, i, buffer.maxCap)] == NONE
        invariant forall i :: 0 <= i < buffer.Length() ==>
                    var slot := At(buffer.readPt.a, i, buffer.maxCap); buffer.signal[slot] == old(buffer.signal[slot])
      {
        buffer.signal[writeIndex] := NONE;
        writeIndex := Wrap(writeIndex + 1, buffer.maxCap);
      }
    }

    /** Reserves `n` slots and clears their signals; the count kept is 32 bits wide. */
    method AllocateRange(n: nat) returns (r: Status)
      requires Valid()
      modifies this`allocateCalled, this`nAllocated, buffer.signal
      ensures Valid() && Contents() == old(Contents())
      ensures r == if |Contents()| + n <= buffer.maxCap then Done else Blocked
      ensures r.Done? ==> allocateCalled && nAllocated == n % 0x1_0000_0000
      ensures r.Done? ==> forall i :: 0 <= i < n ==> Spare()[i] == Cell(old(Spare())[i].item, NONE)
      ensures r.Blocked? ==> allocateCalled == old(allocateCalled) && nAllocated == old(nAllocated) && Spare() == old(Spare())
    {
      var space := SpaceAvail();
      if space < n {
        return Blocked;
      }
      ClearSignals(n);
      WindowFrame(buffer.store[..], old(buffer.signal[..]), buffer.signal[..], buffer.readPt.a, buffer.Length());
      nAllocated := n % 0x1_0000_0000;
      allocateCalled := true;
      r := Done;
    }

    /** The user's store through a reference to the `i`-th free slot. */
    method WriteReserved(i: nat, item: T)
      requires Valid() && i < |Spare()|
      modifies buffer.store
      ensures Valid() && Contents() == old(Contents())
      ensures Spare() == old(Spare())[i := Cell(item, old(Spare())[i].sig)]
    {
      buffer.store[At(buffer.writePt.a, i, buffer.maxCap)] := item;
    }

    /**
     * Without a preceding allocate, nothing happens.  Where the room allocate saw has been
     * used up by a push since, the write position overtakes the read position by a lap.
     */
    method Send(sig: Signal)
      requires Valid()
      modifies this`allocateCalled, buffer.writePt, buffer.signal
      ensures !allocateCalled
      ensures Valid() <==> !old(allocateCalled) || |old(Contents())| < buffer.maxCap
      ensures !old(allocateCalled) ==> Contents() == old(Contents())
      ensures old(allocateCalled) && |old(Contents())| < buffer.maxCap ==>
                Contents() == old(Contents()) + [Cell(old(Spare())[0].item, sig)]
    {
      hide Window, IncTimes, IncByPos, At, Wrap, Ahead, Distance;
      if !allocateCalled {
        return;
      }
      ghost var r, w, cap := buffer.readPt.Position(), buffer.writePt.Position(), buffer.maxCap;
      ghost var store, signal, len := buffer.store[..], buffer.signal[..], buffer.Length();
      AtWrite(r, w, cap);
      IncOne(w, cap);
      if len < cap {
        DistanceAfter(r, w, 1, cap);
      } else {
        TooFarAhead(r, w, 1, cap);
      }
      var writeIndex := Pointer.Val(buffer.writePt);
      buffer.signal[writeIndex] := sig;
      if len < cap {
        PushedWindow(store, signal, buffer.store[..], buffer.signal[..], r.a, len);
      }
      allocateCalled := false;
      Pointer.Inc(buffer.writePt);
    }

    /** The reserved slot is given back. */
    method Deallocate()
      requires Valid()
      modifies this`allocateCalled
      ensures Valid() && !allocateCalled && Contents() == old(Contents())
    {
      allocateCalled := false;
    }

    /**
     * The signal goes to the first element; an empty range on a full queue hits the oldest
     * item.  More than there is room for by now overtakes the read position.
     */
    method SendRange(sig: Signal)
      requires Valid()
      modifies this`allocateCalled, this`nAllocated, buffer.writePt, buffer.signal
      ensures !allocateCalled
      ensures Valid() <==> !old(allocateCalled) || old(nAllocated) <= |old(Spare())|
      ensures !old(allocateCalled) ==> Contents() == old(Contents()) && nAllocated == old(nAllocated)
      ensures old(allocateCalled) ==> nAllocated == 0
      ensures old(allocateCalled) && 0 < old(nAllocated) <= |old(Spare())| ==>
                var r := old(Spare())[..old(nAllocated)];
                Contents() == old(Contents()) + r[0 := Cell(r[0].item, sig)]
      ensures old(allocateCalled) && old(nAllocated) == 0 ==>
                var q := old(Contents());
                Contents() == if |q| == buffer.maxCap then q[0 := Cell(q[0].item, sig)] else q
    {
      hide Window, IncTimes, IncByPos, At, Wrap, Ahead, Distance;
      if !allocateCalled {
        return;
      }
      ghost var r, w, cap := buffer.readPt.Position(), buffer.writePt.Position(), buffer.maxCap;
      ghost var store, signal := buffer.store[..], buffer.signal[..];
      ghost var len, n := buffer.Length(), nAllocated;
      AtWrite(r, w, cap);
      if len + n <= cap {
        DistanceAfter(r, w, n, cap);
        SentWindow(store, signal, r.a, len, n, cap - len, sig);
      } else {
        TooFarAhead(r, w, n, cap);
      }
      var writeIndex := Pointer.Val(buffer.writePt);
      buffer.signal[writeIndex] := sig;
      assert buffer.signal[..] == signal[writeIndex := sig];
      Pointer.IncBy(buffer.writePt, nAllocated);
      allocateCalled := false;
      nAllocated := 0;
    }

    /**
     * One pass of DataManager::resize: given up when the program ends or the queue is
     * invalid; impossible while a slot is reserved, whose flag is up, or while the items wrap
     * round; fatal on a buffer over existing items; otherwise a copy and a swap.
     */
    method Resize(newCap: nat, exit: bool, signals: nat) returns (r: Status)
      requires Valid() && buffer.maxCap <= newCap && signals <= buffer.maxCap
      modifies this`buffer
      ensures Valid() && buffer.isValid == old(buffer.isValid)
      ensures r == if exit || !buffer.isValid then ClosedPort
                   else if allocateCalled || old(buffer.readPt.a >= buffer.writePt.a) then Blocked
                   else if old(buffer.externalAlloc) then Aborted else Done
      ensures r.Done? ==> fresh(buffer) && buffer.maxCap == newCap
                          && ItemsOf(Contents()) == ItemsOf(old(Contents()))
                          && (old(buffer.writePt.a) <= signals ==> Contents() == old(Contents()))
      ensures !r.Done? ==> buffer == old(buffer) && Contents() == old(Contents())
    {
      if exit || !buffer.isValid {
        return ClosedPort;
      }
      if allocateCalled || buffer.readPt.a >= buffer.writePt.a {
        return Blocked;
      }
      if buffer.externalAlloc {
        return Aborted;
      }
      var newBuffer := new Data<T>(newCap);
      newBuffer.CopyFrom(buffer, signals);
      buffer := newBuffer;
      r := Done;
    }
  }
}
