/**
 * Who frees an item that is passed by pointer: the tracking sets kept by the external FIFO's
 * peek, push and recycle (raftinc/ringbufferheap.tcc), and the merge that runs after each
 * call of a kernel (Schedule::fifo_gc, src/schedule.cpp). Pointers are their addresses.
 */
module FifoGc {
  import opened OrderedSets

  /** The elements of `a` that are not in `b`, in the same order. */
  ghost function Minus(a: seq<int>, b: seq<int>): seq<int> {
    if a == [] then []
    else
      var n := |a| - 1;
      Minus(a[..n], b) + if a[n] in b then [] else [a[n]]
  }

  /** Each of them appears once. */
  lemma {:induction false} MinusExact(a: seq<int>, b: seq<int>)
    requires Increasing(a)
    ensures Increasing(Minus(a, b))
    ensures forall p :: p in Minus(a, b) <==> p in a && p !in b
  {
    if a != [] {
      var n := |a| - 1;
      MinusExact(a[..n], b);
      assert a == a[..n] + [a[n]];
      forall i | 0 <= i < |Minus(a[..n], b)|
        ensures Minus(a[..n], b)[i] < a[n]
      {
        assert Minus(a[..n], b)[i] in a[..n];
      }
    }
  }

  lemma MinusNext(a: seq<int>, b: seq<int>, i: nat)
    requires i < |a|
    ensures Minus(a[..i + 1], b) == Minus(a[..i], b) + if a[i] in b then [] else [a[i]]
  {
    assert a[..i + 1][..i] == a[..i];
  }

  ghost predicate Subset(b: seq<int>, a: seq<int>) {
    forall p :: p in b ==> p in a
  }

  /** The sets a kernel's ports share, and the items freed so far. */
  class Tracker {
    var ins: seq<int>
    var outs: seq<int>
    var peekset: set<int>
    var freed: seq<int>

    ghost predicate Valid()
      reads this
    {
      Increasing(ins) && Increasing(outs) && forall p :: p in outs ==> p in peekset
    }

    constructor ()
      ensures Valid() && ins == [] && outs == [] && peekset == {} && freed == []
    {
      ins, outs, peekset, freed := [], [], {}, [];
    }

    /** Peeking at the head remembers its pointer. */
    method Peek(p: int)
      requires Valid()
      modifies this`peekset
      ensures Valid() && peekset == old(peekset) + {p}
    {
      peekset := peekset + {p};
    }

    /** Pushing a peeked item forwards the pointer itself; any other item is copied. */
    method Push(p: int) returns (forwarded: bool)
      requires Valid()
      modifies this`outs
      ensures Valid() && (forwarded <==> p in peekset)
      ensures forall q :: q in outs <==> q in old(outs) || (forwarded && q == p)
    {
      forwarded := p in peekset;
      if forwarded {
        outs := Insert(outs, p);
      }
    }

    /** Recycling the head leaves it to be freed after the call. */
    method Recycle(p: int)
      requires Valid()
      modifies this`ins
      ensures Valid() && forall q :: q in ins <==> q in old(ins) || q == p
    {
      ins := Insert(ins, p);
    }

    /**
     * Walks both containers at once. The result is false where the walk would read past the
     * last recycled pointer: exactly when some forwarded pointer was not recycled. Otherwise
     * the recycled pointers that were not forwarded are freed, and everything is forgotten.
     */
    method Collect() returns (inBounds: bool)
      requires Valid()
      modifies this
      ensures inBounds <==> Subset(old(outs), old(ins))
      ensures inBounds ==> Valid() && ins == [] && outs == [] && peekset == {}
                           && freed == old(freed) + Minus(old(ins), old(outs))
    {
      hide Walked, Minus;
      var i, o := 0, 0;
      StartsWalk();
      while o < |outs|
        invariant i <= |ins| && o <= |outs| && Walked(i, o)
        invariant Valid() && ins == old(ins) && outs == old(outs)
        invariant Subset(outs, ins) ==> freed == old(freed) + Minus(ins[..i], outs)
        decreases |ins| - i
      {
        if i == |ins| {
          RunsOut(o);
          return false;
        }
        MinusNext(ins, outs, i);
        NextInOrder(i, o);
        if outs[o] != ins[i] {
          freed := freed + [ins[i]];
          i := i + 1;
        } else {
          o := o + 1;
          i := i + 1;
        }
      }
      AllMet(i);
      while i < |ins|
        invariant i <= |ins| && ins == old(ins) && outs == old(outs)
        invariant forall j :: i <= j < |ins| ==> ins[j] !in outs
        invariant freed == old(freed) + Minus(ins[..i], outs)
      {
        MinusNext(ins, outs, i);
        freed := freed + [ins[i]];
        i := i + 1;
      }
      assert ins[..i] == ins;
      ins, outs, peekset := [], [], {};
      inBounds := true;
    }

    /** The forwarded pointers behind `o` were all met behind `i`; if all are recycled, the others lie ahead. */
    ghost predicate Walked(i: nat, o: nat)
      requires i <= |ins| && o <= |outs|
      reads this`ins, this`outs
    {
      && (forall j :: 0 <= j < o ==> outs[j] in ins[..i])
      && (Subset(outs, ins) ==> forall j :: o <= j < |outs| ==> outs[j] !in ins[..i])
    }

    lemma StartsWalk()
      ensures Walked(0, 0) && Minus(ins[..0], outs) == []
    {
    }

    lemma RunsOut(o: nat)
      requires o < |outs| && Walked(|ins|, o)
      ensures !Subset(outs, ins)
    {
      assert ins[..|ins|] == ins;
      var p := outs[o];
      assert p in outs && (Subset(outs, ins) ==> p in ins);
    }

    lemma AllMet(i: nat)
      requires Valid() && i <= |ins| && Walked(i, |outs|)
      ensures Subset(outs, ins) && forall j :: i <= j < |ins| ==> ins[j] !in outs
    {
    }

    lemma NextInOrder(i: nat, o: nat)
      requires Valid() && i < |ins| && o < |outs| && Walked(i, o)
      ensures if outs[o] == ins[i] then Walked(i + 1, o + 1) else Walked(i + 1, o)
      ensures Subset(outs, ins) ==> (ins[i] in outs <==> ins[i] == outs[o])
    {
      assert ins[..i + 1] == ins[..i] + [ins[i]];
      if Subset(outs, ins) {
        assert outs[o] in outs;
        var k :| 0 <= k < |ins| && ins[k] == outs[o];
        assert k >= i;
      }
    }
  }
}
