/**
 * Ports over an array that exists already (addInPlacePorts, raftinc/port.hpp): the array is
 * cut into one segment for each port, and each port's FIFO starts full.
 */
module InPlacePorts {
  import opened RingBuffers

  /** What a port remembers of its segment; `offset` stands for the pointer into the array. */
  datatype PortInfo = PortInfo(offset: nat, nitems: nat, startIndex: nat)

  /** The index-th of `n` segments; the last one takes the remainder. */
  function Segment(length: nat, n: nat, index: nat): PortInfo
    requires index < n
  {
    var inc := length / n;
    PortInfo(index * inc, inc + (if index == n - 1 then length % n else 0), index * inc)
  }

  /** Each segment begins where the one before it ends; together they are the whole array. */
  lemma SegmentsContiguous(length: nat, n: nat, index: nat)
    requires index < n
    ensures Segment(length, n, 0).offset == 0
    ensures var s := Segment(length, n, index); s.offset + s.nitems == if index == n - 1 then length else Segment(length, n, index + 1).offset
    ensures n <= length ==> Segment(length, n, index).nitems > 0
  {
    var inc := length / n;
    assert length == n * inc + length % n;
    assert (index + 1) * inc == index * inc + inc;
    assert inc == 0 ==> n * inc == 0;
  }

  /**
   * The segments are as even as whole items allow: all but the last have as many items as fit
   * `n` times into the array, and the last takes what is left, fewer than `n` more.
   */
  lemma SegmentsEven(length: nat, n: nat, index: nat)
    requires index < n
    ensures var s, first := Segment(length, n, index), Segment(length, n, 0);
            && s.startIndex == s.offset
            && (index < n - 1 ==> s.nitems == first.nitems && n * s.nitems <= length < n * (s.nitems + 1))
            && (index == n - 1 && n > 1 ==> first.nitems <= s.nitems < first.nitems + n)
  {
    assert length == n * (length / n) + length % n;
    assert n * (length / n + 1) == n * (length / n) + n;
  }

  lemma {:induction false} SegmentsOrdered(length: nat, n: nat, i: nat, j: nat)
    requires i < j < n
    ensures var s := Segment(length, n, i); s.offset + s.nitems <= Segment(length, n, j).offset
    decreases j
  {
    SegmentsContiguous(length, n, i);
    if i + 1 < j {
      SegmentsContiguous(length, n, j - 1);
      SegmentsOrdered(length, n, i, j - 1);
    }
  }

  predicate Holds(p: PortInfo, i: nat) {
    p.offset <= i < p.offset + p.nitems
  }

  /** The port that holds a position of the array. */
  lemma {:induction false} HolderBelow(length: nat, n: nat, i: nat, m: nat) returns (index: nat)
    requires 0 < m <= n && i < length && i < Segment(length, n, m - 1).offset + Segment(length, n, m - 1).nitems
    ensures index < m && Holds(Segment(length, n, index), i)
    decreases m
  {
    index := m - 1;
    SegmentsContiguous(length, n, m - 1);
    if i < Segment(length, n, m - 1).offset {
      SegmentsContiguous(length, n, m - 2);
      index := HolderBelow(length, n, i, m - 1);
    }
  }

  /** Every position of the array belongs to exactly one port. */
  lemma SegmentsPartition(length: nat, n: nat, i: nat)
    requires 0 < n && i < length
    ensures exists index :: (0 <= index < n && Holds(Segment(length, n, index), i)
                             && forall other :: 0 <= other < n && Holds(Segment(length, n, other), i) ==> other == index)
  {
    SegmentsContiguous(length, n, n - 1);
    var index := HolderBelow(length, n, i, n);
    forall other | 0 <= other < n && other != index
      ensures !Holds(Segment(length, n, other), i)
    {
      if other < index {
        SegmentsOrdered(length, n, other, index);
      } else {
        SegmentsOrdered(length, n, index, other);
      }
    }
  }

  class Port<T(0)> {
    var portmap: map<nat, PortInfo>
    const items: array<T>

    constructor (items: array<T>)
      ensures this.items == items && portmap == map[]
    {
      this.items := items;
      portmap := map[];
    }

    /** One port for each segment, named by its index; a name in use keeps its port. */
    method AddInPlacePorts(n: nat)
      requires 0 < n
      modifies this
      ensures forall k: nat :: k in portmap <==> k in old(portmap) || k < n
      ensures forall k :: k in portmap ==> portmap[k] == if k in old(portmap) then old(portmap)[k] else Segment(items.Length, n, k)
    {
      var inc := items.Length / n;
      var adder := items.Length % n;
      for index := 0 to n
        invariant forall k: nat :: k in portmap <==> k in old(portmap) || k < index
        invariant forall k :: k in portmap ==> portmap[k] == if k in old(portmap) then old(portmap)[k] else Segment(items.Length, n, k)
      {
        var start := index * inc;
        var info := PortInfo(start, inc + (if index == n - 1 then adder else 0), start);
        if index !in portmap {
          portmap := portmap[index := info];
        }
      }
    }

    /** All the items of a FIFO, popped until it is empty. */
    static method Drain(fifo: RingBuffer<T>) returns (items: seq<T>)
      requires fifo.Valid()
      modifies fifo.buffer.readPt
      ensures fifo.Valid() && fifo.Contents() == [] && items == ItemsOf(old(fifo.Contents()))
    {
      hide *;
      items := [];
      ghost var was := fifo.Contents();
      var status, cell := fifo.Pop();
      while status.Done?
        invariant fifo.Valid() && |items| + |fifo.Contents()| + (if status.Done? then 1 else 0) == |was|
        invariant status.Done? ==> cell.Some? && cell.value == was[|items|]
        invariant status.Done? || fifo.Contents() == []
        invariant fifo.Contents() == was[|was| - |fifo.Contents()|..]
        invariant items == ItemsOf(was)[..|items|]
        decreases |was| - |items|, status.Done?
      {
        items := items + [cell.value.item];
        status, cell := fifo.Pop();
      }
    }

    /** The items a port's FIFO delivers; one of capacity zero is full, and reports that size, zero. */
    method DrainPort(info: PortInfo) returns (some: seq<T>)
      requires info.offset + info.nitems <= items.Length
      ensures some == items[info.offset..info.offset + info.nitems]
    {
      hide Window, Ahead, Distance;
      if info.nitems == 0 {
        return [];
      }
      var fifo := new RingBuffer<T>.Existing(items[info.offset..info.offset + info.nitems]);
      some := Drain(fifo);
    }

    /** Draining the FIFOs of all ports in index order yields the array, each element once. */
    method DrainPorts(n: nat) returns (all: seq<T>)
      requires 0 < n && portmap == map[]
      modifies this
      ensures all == items[..] && items[..] == old(items[..])
    {
      hide *;
      AddInPlacePorts(n);
      all := [];
      SegmentsContiguous(items.Length, n, 0);
      for index := 0 to n
        invariant forall k: nat :: k < n ==> k in portmap && portmap[k] == Segment(items.Length, n, k)
        invariant |all| == (if index == n then items.Length else Segment(items.Length, n, index).offset)
        invariant |all| <= items.Length && all == items[..|all|]
      {
        SegmentsContiguous(items.Length, n, index);
        SegmentEnd(items.Length, n, index);
        var some := DrainPort(portmap[index]);
        all := all + some;
      }
    }
  }

  lemma SegmentEnd(length: nat, n: nat, index: nat)
    requires index < n
    ensures Segment(length, n, index).offset + Segment(length, n, index).nitems <= length
  {
    SegmentsContiguous(length, n, n - 1);
    if index < n - 1 {
      SegmentsOrdered(length, n, index, n - 1);
    }
  }
}
