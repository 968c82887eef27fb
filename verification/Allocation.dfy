/**
 * Giving every edge of a linked graph its FIFO: the traversal of Allocate::run with
 * Allocate::allocate and initialize on each edge (src/allocate.cpp, src/dynalloc.cpp,
 * src/stdalloc.cpp), on a map that has passed checkEdges.
 */
module Allocation {
  import opened Wrappers
  import opened Links
  import G = GraphTools

  const INITIAL_ALLOC_SIZE: nat := 64

  /** The order in which the output ports of each kernel are iterated. */
  type Order = seq<seq<Name>>

  /** `order` lists exactly the output ports of the kernels below its length, each once. */
  ghost predicate Lists(s: LinkState, order: Order) {
    && (forall k, i :: 0 <= k < |order| && 0 <= i < |order[k]| ==> PortId(k, order[k][i]) in s.output)
    && (forall k :: 0 <= k < |order| ==> Distinct(order[k]))
    && (forall p :: p in s.output && p.kernel < |order| ==> p.name in order[p.kernel])
    && (forall p :: p in s.output && s.output[p].other.Some? ==> s.output[p].other.value.kernel < |order|)
    && (forall k :: k in s.all ==> k < |order|)
  }

  /** The graph the traversal sees. */
  function GraphOf(output: Ports, order: Order): (g: G.Graph)
    requires forall k, i :: 0 <= k < |order| && 0 <= i < |order[k]| ==> PortId(k, order[k][i]) in output
    ensures |g.out| == |order|
    ensures forall k :: 0 <= k < |order| ==> |g.out[k]| == |order[k]|
    ensures forall k, i :: 0 <= k < |order| && 0 <= i < |order[k]| ==>
              g.out[k][i] == match output[PortId(k, order[k][i])].other case Some(p) => Some(p.kernel) case None => None
  {
    G.Graph(seq(|order|, k requires 0 <= k < |order| =>
      seq(|order[k]|, i requires 0 <= i < |order[k]| =>
        match output[PortId(k, order[k][i])].other case Some(p) => Some(p.kernel) case None => None)))
  }

  ghost predicate AllLinked(s: LinkState) {
    forall p: PortId :: p.kernel in s.all ==>
      (p in s.input ==> s.input[p].other.Some?) && (p in s.output ==> s.output[p].other.Some?)
  }

  /** Links lead from lower to higher rank. */
  ghost predicate Acyclic(s: LinkState, rank: Kernel -> nat) {
    forall p :: p in s.output && s.output[p].other.Some? ==> rank(p.kernel) < rank(s.output[p].other.value.kernel)
  }

  /** What any link calls followed by a successful checkEdges leave. */
  ghost predicate Checked(s: LinkState, order: Order, sources: seq<Kernel>) {
    && Linked(s) && Recorded(s) && Lists(s, order) && AllLinked(s)
    && Distinct(sources) && (forall k: Kernel :: k in sources <==> k in s.sources)
  }

  /** A recorded kernel with an input has a recorded predecessor of lower rank. */
  lemma Predecessor(s: LinkState, order: Order, rank: Kernel -> nat, sources: seq<Kernel>, k: Kernel) returns (before: Kernel)
    requires Checked(s, order, sources) && Acyclic(s, rank) && k in s.all && HasPorts(s.input, k)
    ensures before in s.all && HasPorts(s.output, before) && rank(before) < rank(k)
    ensures G.Step(GraphOf(s.output, order), before, k)
  {
    hide Distinct;
    var g := GraphOf(s.output, order);
    var i: PortId :| i in s.input && i.kernel == k;
    var o := s.input[i].other.value;
    assert s.output[o].other == Some(i);
    before := o.kernel;
    var n :| 0 <= n < |order[before]| && order[before][n] == o.name;
    assert g.out[before][n] == Some(k);
  }

  /** Every recorded kernel that has a port is reachable from the recorded sources. */
  lemma {:induction false} ReachableFromSources(s: LinkState, order: Order, rank: Kernel -> nat, sources: seq<Kernel>, k: Kernel)
    requires Checked(s, order, sources) && Acyclic(s, rank)
    requires k in s.all && (HasPorts(s.input, k) || HasPorts(s.output, k))
    ensures G.Reachable(GraphOf(s.output, order), sources, k)
    decreases rank(k)
  {
    var g := GraphOf(s.output, order);
    if HasPorts(s.input, k) {
      hide Linked, Recorded, AllLinked, Distinct, Acyclic, HasPorts;
      var before := Predecessor(s, order, rank, sources, k);
      ReachableFromSources(s, order, rank, sources, before);
      G.StepReachable(g, sources, before, k);
    } else {
      var o: PortId :| o in s.output && o.kernel == k;
      assert k in s.sources;
      G.SourceReachable(g, sources, k);
    }
  }

  lemma {:induction false} PathStaysRecorded(s: LinkState, order: Order, sources: seq<Kernel>, p: seq<Kernel>)
    requires Checked(s, order, sources)
    requires G.Path(GraphOf(s.output, order), p) && p[0] in sources
    ensures p[|p| - 1] in s.all
    decreases |p|
  {
    if |p| > 1 {
      var g, q := GraphOf(s.output, order), p[..|p| - 1];
      forall i | 0 <= i < |q| - 1
        ensures G.Step(g, q[i], q[i + 1])
      {
        assert q[i] == p[i] && q[i + 1] == p[i + 1];
      }
      PathStaysRecorded(s, order, sources, q);
      var a, b := p[|p| - 2], p[|p| - 1];
      assert G.Step(g, a, b);
      var n :| 0 <= n < |g.out[a]| && g.out[a][n] == Some(b);
      var o := PortId(a, order[a][n]);
      assert s.input[s.output[o].other.value].other == Some(o);
    }
  }

  /** Conversely, what is reachable is recorded, hence fully linked: no null kernel is ever queued. */
  lemma ReachableIsConnected(s: LinkState, order: Order, sources: seq<Kernel>)
    requires Checked(s, order, sources)
    ensures G.AllConnected(GraphOf(s.output, order), sources)
  {
    var g := GraphOf(s.output, order);
    forall k: Kernel | G.Reachable(g, sources, k)
      ensures k < |g.out| && g.Connected(k)
    {
      var p: seq<Kernel> :| G.PathTo(g, sources, p, k);
      PathStaysRecorded(s, order, sources, p);
      forall i | 0 <= i < |g.out[k]|
        ensures g.out[k][i].Some?
      {
        assert PortId(k, order[k][i]) in s.output;
      }
    }
  }

  datatype Fifo = Fifo(capacity: nat, existing: bool)

  /** What allocate makes for an output port. */
  function SizeFor(a: PortInfo): Fifo {
    match a.existing
    case Some(n) => Fifo(n, true)
    case None => Fifo(if a.fixedBuffer != 0 then a.fixedBuffer else INITIAL_ALLOC_SIZE, false)
  }

  /** The output port an edge of the graph stands for. */
  function PortOf(order: Order, e: G.Edge): PortId
    requires e.kernel < |order| && e.port < |order[e.kernel]|
  {
    PortId(e.kernel, order[e.kernel][e.port])
  }

  /** The calls of the traversal: the edges of everything reachable, each once. */
  ghost predicate Calls(s: LinkState, order: Order, sources: seq<Kernel>, calls: seq<G.Edge>)
    requires Checked(s, order, sources)
  {
    var g := GraphOf(s.output, order);
    Distinct(calls) && forall e :: e in calls <==> g.IsEdge(e) && G.Reachable(g, sources, e.kernel)
  }

  /** A called edge is a linked output port; different edges are different ports with different peers. */
  lemma CallPorts(s: LinkState, order: Order, sources: seq<Kernel>, calls: seq<G.Edge>, i: nat)
    requires Checked(s, order, sources) && Calls(s, order, sources, calls) && i < |calls|
    ensures calls[i].kernel < |order| && calls[i].port < |order[calls[i].kernel]|
    ensures var o := PortOf(order, calls[i]);
            o in s.output && s.output[o].other.Some? && s.output[o].other.value in s.input
            && s.input[s.output[o].other.value].other == Some(o)
  {
    assert calls[i] in calls;
  }

  /** The ports called on, in order. */
  ghost function PortsCalled(s: LinkState, order: Order, sources: seq<Kernel>, calls: seq<G.Edge>): (r: seq<PortId>)
    requires Checked(s, order, sources) && Calls(s, order, sources, calls)
    ensures |r| == |calls|
    ensures forall i :: 0 <= i < |r| ==>
              && calls[i].kernel < |order| && calls[i].port < |order[calls[i].kernel]|
              && r[i] == PortOf(order, calls[i])
  {
    seq(|calls|, i requires 0 <= i < |calls| => CallPorts(s, order, sources, calls, i); PortOf(order, calls[i]))
  }

  /** Linked output ports with linked peers, none twice. */
  ghost predicate Ends(input: Ports, output: Ports, ports: seq<PortId>) {
    && Distinct(ports)
    && forall i :: 0 <= i < |ports| ==>
         && ports[i] in output && output[ports[i]].other.Some?
         && output[ports[i]].other.value in input && input[output[ports[i]].other.value].other == Some(ports[i])
  }

  /** A linked output port of a reachable kernel. */
  ghost predicate Served(output: Ports, order: Order, sources: seq<Kernel>, o: PortId)
    requires forall k, i :: 0 <= k < |order| && 0 <= i < |order[k]| ==> PortId(k, order[k][i]) in output
  {
    o in output && output[o].other.Some? && G.Reachable(GraphOf(output, order), sources, o.kernel)
  }

  /** The traversal calls on exactly the ports to be served. */
  lemma CalledPorts(s: LinkState, order: Order, sources: seq<Kernel>, calls: seq<G.Edge>)
    requires Checked(s, order, sources) && Calls(s, order, sources, calls)
    ensures Ends(s.input, s.output, PortsCalled(s, order, sources, calls))
    ensures forall o :: o in PortsCalled(s, order, sources, calls) ==> Served(s.output, order, sources, o)
  {
    var ports := PortsCalled(s, order, sources, calls);
    forall i | 0 <= i < |ports|
      ensures Served(s.output, order, sources, ports[i])
      ensures s.output[ports[i]].other.value in s.input && s.input[s.output[ports[i]].other.value].other == Some(ports[i])
    {
      CallPorts(s, order, sources, calls, i);
      assert calls[i] in calls;
    }
    hide Checked, GraphOf;
    forall i, j | 0 <= i < j < |ports|
      ensures ports[i] != ports[j]
    {
      CallsDiffer(s, order, sources, calls, i, j);
    }
  }

  lemma CallsDiffer(s: LinkState, order: Order, sources: seq<Kernel>, calls: seq<G.Edge>, i: nat, j: nat)
    requires Checked(s, order, sources) && Calls(s, order, sources, calls) && i < j < |calls|
    ensures PortsCalled(s, order, sources, calls)[i] != PortsCalled(s, order, sources, calls)[j]
  {
    assert calls[i] != calls[j];
  }

  lemma ServedCalled(s: LinkState, order: Order, sources: seq<Kernel>, calls: seq<G.Edge>, o: PortId)
    requires Checked(s, order, sources) && Calls(s, order, sources, calls) && Served(s.output, order, sources, o)
    ensures o in PortsCalled(s, order, sources, calls)
  {
    var g, ports := GraphOf(s.output, order), PortsCalled(s, order, sources, calls);
    assert o.kernel in s.all;
    var n :| 0 <= n < |order[o.kernel]| && order[o.kernel][n] == o.name;
    assert g.IsEdge(G.Edge(o.kernel, n));
    var i :| 0 <= i < |calls| && calls[i] == G.Edge(o.kernel, n);
    assert ports[i] == o;
  }

  /** On an acyclic graph every port of every recorded kernel is served, from its own end or its peer's. */
  lemma EveryPortServed(s: LinkState, order: Order, rank: Kernel -> nat, sources: seq<Kernel>, p: PortId)
    requires Checked(s, order, sources) && Acyclic(s, rank) && p.kernel in s.all
    ensures p in s.output ==> Served(s.output, order, sources, p)
    ensures p in s.input ==> s.input[p].other.Some? && Served(s.output, order, sources, s.input[p].other.value)
  {
    if p in s.output {
      ReachableFromSources(s, order, rank, sources, p.kernel);
    }
    if p in s.input {
      var o := s.input[p].other.value;
      assert s.output[o].other == Some(p);
      ReachableFromSources(s, order, rank, sources, o.kernel);
    }
  }

  /** After the first `n` calls: FIFO number `i` sits on both ends of the edge of call `i`. */
  ghost predicate Assigned(input: Ports, output: Ports, ports: seq<PortId>, n: nat,
                           outputFifo: map<PortId, nat>, inputFifo: map<PortId, nat>, fifos: seq<Fifo>)
    requires Ends(input, output, ports)
  {
    && |fifos| == n <= |ports|
    && (forall o :: o in outputFifo <==> o in ports[..n])
    && (forall i :: 0 <= i < n ==>
          var p := output[ports[i]].other.value;
          && ports[i] in outputFifo && outputFifo[ports[i]] == i && fifos[i] == SizeFor(output[ports[i]])
          && p in inputFifo && inputFifo[p] == i)
    && (forall p :: p in inputFifo ==> p in input && input[p].other.Some? && input[p].other.value in outputFifo)
  }

  /**
   * Both ends of an edge that is served have one FIFO, over the user's buffer, or of the size
   * the output port asks for, or else of 64 slots.
   */
  ghost predicate BothEnds(s: LinkState, outputFifo: map<PortId, nat>, inputFifo: map<PortId, nat>, fifos: seq<Fifo>) {
    forall o :: o in outputFifo ==>
      && o in s.output && s.output[o].other.Some?
      && s.output[o].other.value in inputFifo && inputFifo[s.output[o].other.value] == outputFifo[o] < |fifos|
      && match s.output[o].existing
         case Some(n) => fifos[outputFifo[o]] == Fifo(n, true)
         case None => fifos[outputFifo[o]] == Fifo(if s.output[o].fixedBuffer > 0 then s.output[o].fixedBuffer else 64, false)
  }

  /**
   * What a run leaves: exactly the linked ports of reachable kernels and their peers have a
   * FIFO, both ends of an edge the same one, different edges different ones.
   */
  ghost predicate Equipped(s: LinkState, order: Order, sources: seq<Kernel>,
                           outputFifo: map<PortId, nat>, inputFifo: map<PortId, nat>, fifos: seq<Fifo>)
    requires forall k, i :: 0 <= k < |order| && 0 <= i < |order[k]| ==> PortId(k, order[k][i]) in s.output
  {
    && (forall o :: o in outputFifo <==> Served(s.output, order, sources, o))
    && BothEnds(s, outputFifo, inputFifo, fifos)
    && (forall o, o' :: o in outputFifo && o' in outputFifo && o != o' ==> outputFifo[o] != outputFifo[o'])
    && (forall p :: p in inputFifo <==> p in s.input && s.input[p].other.Some? && Served(s.output, order, sources, s.input[p].other.value))
  }

  /** The next edge has no FIFO yet, and giving it one keeps the assignment. */
  lemma AssignNext(input: Ports, output: Ports, ports: seq<PortId>, n: nat,
                   outputFifo: map<PortId, nat>, inputFifo: map<PortId, nat>, fifos: seq<Fifo>)
    requires Ends(input, output, ports) && n < |ports|
    requires Assigned(input, output, ports, n, outputFifo, inputFifo, fifos)
    ensures var src := ports[n];
            var dst := output[src].other.value;
            && src !in outputFifo && dst !in inputFifo
            && Assigned(input, output, ports, n + 1, outputFifo[src := n], inputFifo[dst := n], fifos + [SizeFor(output[src])])
  {
    var src := ports[n];
    assert ports[..n + 1] == ports[..n] + [src];
    assert src !in ports[..n];
    forall i | 0 <= i < n
      ensures output[ports[i]].other.value != output[src].other.value
    {
      assert input[output[ports[i]].other.value].other == Some(ports[i]);
    }
  }

  /** Allocate: the FIFO of each port, and the FIFOs made so far, by number. */
  class Allocate {
    const input: Ports
    const output: Ports
    var inputFifo: map<PortId, nat>
    var outputFifo: map<PortId, nat>
    var fifos: seq<Fifo>

    constructor (input: Ports, output: Ports)
      ensures this.input == input && this.output == output && inputFifo == map[] && outputFifo == map[] && fifos == []
    {
      this.input := input;
      this.output := output;
      inputFifo, outputFifo, fifos := map[], map[], [];
    }

    /** Both ends of an edge get the FIFO, unless one of them has one already. */
    method Initialize(src: PortId, dst: PortId, fifo: nat) returns (ok: bool)
      modifies this`inputFifo, this`outputFifo
      ensures ok <==> src !in old(outputFifo) && dst !in old(inputFifo)
      ensures ok ==> outputFifo == old(outputFifo)[src := fifo] && inputFifo == old(inputFifo)[dst := fifo]
      ensures !ok ==> outputFifo == old(outputFifo) && inputFifo == old(inputFifo)
    {
      if src in outputFifo {
        return false;
      }
      if dst in inputFifo {
        return false;
      }
      outputFifo := outputFifo[src := fifo];
      inputFifo := inputFifo[dst := fifo];
      ok := true;
    }

    /** Over the user's buffer if there is one, else of the fixed size if set, else of the initial size. */
    method AllocateEdge(src: PortId, dst: PortId) returns (ok: bool)
      requires src in output
      modifies this`inputFifo, this`outputFifo, this`fifos
      ensures ok <==> src !in old(outputFifo) && dst !in old(inputFifo)
      ensures ok ==> outputFifo == old(outputFifo)[src := |old(fifos)|] && inputFifo == old(inputFifo)[dst := |old(fifos)|]
      ensures !ok ==> outputFifo == old(outputFifo) && inputFifo == old(inputFifo)
      ensures fifos == old(fifos) + [SizeFor(output[src])]
      ensures output[src].existing.Some? ==> fifos == old(fifos) + [Fifo(output[src].existing.value, true)]
      ensures output[src].existing.None? && output[src].fixedBuffer > 0 ==> fifos == old(fifos) + [Fifo(output[src].fixedBuffer, false)]
      ensures output[src].existing.None? && output[src].fixedBuffer == 0 ==> fifos == old(fifos) + [Fifo(64, false)]
    {
      var a := output[src];
      if a.existing.Some? {
        fifos := fifos + [Fifo(a.existing.value, true)];
      } else if a.fixedBuffer != 0 {
        fifos := fifos + [Fifo(a.fixedBuffer, false)];
      } else {
        fifos := fifos + [Fifo(INITIAL_ALLOC_SIZE, false)];
      }
      ok := Initialize(src, dst, |fifos| - 1);
    }

    /**
     * Never fails.  Exactly the linked ports of reachable kernels get a FIFO, both ends of
     * an edge the same one, different edges different ones.
     */
    method Run(order: Order, sources: seq<Kernel>, ghost s: LinkState) returns (ok: bool)
      requires Checked(s, order, sources) && s.input == input && s.output == output
      requires outputFifo == map[] && inputFifo == map[] && fifos == []
      modifies this
      ensures ok && Equipped(s, order, sources, outputFifo, inputFifo, fifos)
    {
      var g := GraphOf(output, order);
      ReachableIsConnected(s, order, sources);
      SourcesInRange(s, order, sources);
      var r, reached := G.EdgeBfs(g, sources, false);
      var calls := r.value;
      assert Calls(s, order, sources, calls);
      hide Checked, Calls, GraphOf, Served, Assigned;
      CalledPorts(s, order, sources, calls);
      ghost var ports := PortsCalled(s, order, sources, calls);
      NothingAssigned(input, output, ports);
      for n := 0 to |calls|
        invariant Assigned(input, output, ports, n, outputFifo, inputFifo, fifos)
      {
        AssignNext(input, output, ports, n, outputFifo, inputFifo, fifos);
        var src := PortOf(order, calls[n]);
        var done := AllocateEdge(src, output[src].other.value);
        if !done {
          return false;
        }
      }
      ok := true;
      AllAssigned(s, order, sources, calls, outputFifo, inputFifo, fifos);
    }
  }

  lemma NothingAssigned(input: Ports, output: Ports, ports: seq<PortId>)
    requires Ends(input, output, ports)
    ensures Assigned(input, output, ports, 0, map[], map[], [])
  {
  }

  /** FIFO number `i` is the one of the i-th port called on. */
  lemma NumberOf(input: Ports, output: Ports, ports: seq<PortId>,
                 outputFifo: map<PortId, nat>, inputFifo: map<PortId, nat>, fifos: seq<Fifo>, o: PortId)
    requires Ends(input, output, ports) && Assigned(input, output, ports, |ports|, outputFifo, inputFifo, fifos)
    requires o in outputFifo
    ensures outputFifo[o] < |ports| == |fifos| && ports[outputFifo[o]] == o
    ensures o in output && output[o].other.Some? && fifos[outputFifo[o]] == SizeFor(output[o])
    ensures output[o].other.value in inputFifo && inputFifo[output[o].other.value] == outputFifo[o]
  {
    assert ports[..|ports|] == ports;
    var i :| 0 <= i < |ports| && ports[i] == o;
  }

  lemma InputsAssigned(input: Ports, output: Ports, ports: seq<PortId>,
                       outputFifo: map<PortId, nat>, inputFifo: map<PortId, nat>, fifos: seq<Fifo>)
    requires Ends(input, output, ports) && Assigned(input, output, ports, |ports|, outputFifo, inputFifo, fifos) && Mutual(input, output)
    ensures forall p :: p in inputFifo <==> p in input && input[p].other.Some? && input[p].other.value in outputFifo
  {
    forall p | p in input && input[p].other.Some? && input[p].other.value in outputFifo
      ensures p in inputFifo
    {
      NumberOf(input, output, ports, outputFifo, inputFifo, fifos, input[p].other.value);
    }
  }

  lemma OutputsAssigned(s: LinkState, order: Order, sources: seq<Kernel>, calls: seq<G.Edge>, outputFifo: map<PortId, nat>)
    requires Checked(s, order, sources) && Calls(s, order, sources, calls)
    requires forall o :: o in outputFifo <==> o in PortsCalled(s, order, sources, calls)
    ensures forall o :: o in outputFifo <==> Served(s.output, order, sources, o)
  {
    CalledPorts(s, order, sources, calls);
    hide GraphOf, Calls;
    forall o | Served(s.output, order, sources, o)
      ensures o in outputFifo
    {
      ServedCalled(s, order, sources, calls, o);
    }
  }

  /** After the last call exactly the served ports and their peers have a FIFO, each edge its own. */
  lemma AllAssigned(s: LinkState, order: Order, sources: seq<Kernel>, calls: seq<G.Edge>,
                    outputFifo: map<PortId, nat>, inputFifo: map<PortId, nat>, fifos: seq<Fifo>)
    requires Checked(s, order, sources) && Calls(s, order, sources, calls)
    requires Ends(s.input, s.output, PortsCalled(s, order, sources, calls))
    requires Assigned(s.input, s.output, PortsCalled(s, order, sources, calls), |calls|, outputFifo, inputFifo, fifos)
    ensures Equipped(s, order, sources, outputFifo, inputFifo, fifos)
  {
    hide Served, GraphOf, Calls, Ends, Assigned, Equipped, Linked, Recorded, Distinct, AllLinked;
    var ports := PortsCalled(s, order, sources, calls);
    AssignedDomain(s.input, s.output, ports, outputFifo, inputFifo, fifos);
    assert Mutual(s.input, s.output) by { LinkedIsMutual(s); }
    OutputsAssigned(s, order, sources, calls, outputFifo);
    EndsEquipped(s, order, sources, ports, outputFifo, inputFifo, fifos);
  }

  lemma LinkedIsMutual(s: LinkState)
    requires Linked(s)
    ensures Mutual(s.input, s.output)
  {
  }

  lemma AssignedDomain(input: Ports, output: Ports, ports: seq<PortId>,
                       outputFifo: map<PortId, nat>, inputFifo: map<PortId, nat>, fifos: seq<Fifo>)
    requires Ends(input, output, ports) && Assigned(input, output, ports, |ports|, outputFifo, inputFifo, fifos)
    ensures forall o :: o in outputFifo <==> o in ports
  {
    assert ports[..|ports|] == ports;
  }

  lemma EndsEquipped(s: LinkState, order: Order, sources: seq<Kernel>, ports: seq<PortId>,
                     outputFifo: map<PortId, nat>, inputFifo: map<PortId, nat>, fifos: seq<Fifo>)
    requires forall k, i :: 0 <= k < |order| && 0 <= i < |order[k]| ==> PortId(k, order[k][i]) in s.output
    requires Ends(s.input, s.output, ports) && Mutual(s.input, s.output)
    requires Assigned(s.input, s.output, ports, |ports|, outputFifo, inputFifo, fifos)
    requires forall o :: o in outputFifo <==> Served(s.output, order, sources, o)
    ensures Equipped(s, order, sources, outputFifo, inputFifo, fifos)
  {
    hide Assigned, Ends, Served, Mutual, BothEnds;
    InputsAssigned(s.input, s.output, ports, outputFifo, inputFifo, fifos);
    OthersApart(s.input, s.output, ports, outputFifo, inputFifo, fifos);
    EdgesEquipped(s, ports, outputFifo, inputFifo, fifos);
  }

  lemma EdgesEquipped(s: LinkState, ports: seq<PortId>, outputFifo: map<PortId, nat>, inputFifo: map<PortId, nat>, fifos: seq<Fifo>)
    requires Ends(s.input, s.output, ports) && Assigned(s.input, s.output, ports, |ports|, outputFifo, inputFifo, fifos)
    ensures BothEnds(s, outputFifo, inputFifo, fifos)
  {
    hide Assigned, Ends;
    forall o | o in outputFifo
      ensures o in s.output && s.output[o].other.Some? && outputFifo[o] < |fifos| && fifos[outputFifo[o]] == SizeFor(s.output[o])
      ensures s.output[o].other.value in inputFifo && inputFifo[s.output[o].other.value] == outputFifo[o]
    {
      NumberOf(s.input, s.output, ports, outputFifo, inputFifo, fifos, o);
    }
  }

  lemma OthersApart(input: Ports, output: Ports, ports: seq<PortId>,
                    outputFifo: map<PortId, nat>, inputFifo: map<PortId, nat>, fifos: seq<Fifo>)
    requires Ends(input, output, ports) && Assigned(input, output, ports, |ports|, outputFifo, inputFifo, fifos)
    ensures forall o, o' :: o in outputFifo && o' in outputFifo && o != o' ==> outputFifo[o] != outputFifo[o']
  {
    forall o, o' | o in outputFifo && o' in outputFifo && o != o'
      ensures outputFifo[o] != outputFifo[o']
    {
      NumberOf(input, output, ports, outputFifo, inputFifo, fifos, o);
      NumberOf(input, output, ports, outputFifo, inputFifo, fifos, o');
    }
  }

  lemma SourcesInRange(s: LinkState, order: Order, sources: seq<Kernel>)
    requires Checked(s, order, sources)
    ensures G.Sources(GraphOf(s.output, order), sources)
  {
  }

  // ---------------------------------------------------------------- from link to FIFO

  /** exe: the open port checkEdges finds, or a FIFO for every edge. */
  method Exe(links: MapBase, order: Order, sources: seq<Kernel>) returns (open: Option<PortId>, alloc: Allocate)
    requires Linked(links.State()) && Recorded(links.State()) && Lists(links.State(), order)
    requires Distinct(sources) && forall k: Kernel :: k in sources <==> k in links.sourceKernels
    ensures open.None? <==> AllLinked(links.State())
    ensures open.None? ==> Checked(links.State(), order, sources)
    ensures open.None? ==> Equipped(links.State(), order, sources, alloc.outputFifo, alloc.inputFifo, alloc.fifos)
  {
    hide Linked, Recorded, Equipped, Lists;
    alloc := new Allocate(links.input, links.output);
    open := links.CheckEdges();
    if open.None? {
      var ok := alloc.Run(order, sources, links.State());
    }
  }

  /**
   * After any link calls, failing ones included, the FIFO of a port without a buffer of the
   * user's has the size given by the last call that names the port as its source, and 64
   * slots if that is zero or there is none; never no slots.
   */
  lemma FifoHasAskedSize(states: seq<LinkState>, calls: seq<Call>, results: seq<Result<(PortId, PortId), LinkError>>,
                         order: Order, sources: seq<Kernel>,
                         outputFifo: map<PortId, nat>, inputFifo: map<PortId, nat>, fifos: seq<Fifo>, o: PortId)
    requires LinkRun(states, calls, results) && Fresh(states[0]) && Unsized(states[0])
    requires Checked(states[|calls|], order, sources)
    requires Equipped(states[|calls|], order, sources, outputFifo, inputFifo, fifos) && o in outputFifo
    ensures o in states[0].output && outputFifo[o] < |fifos|
    ensures var asked := SizeAsked(states[0].output, calls, o, |calls|);
            fifos[outputFifo[o]] ==
              match states[0].output[o].existing
              case Some(n) => Fifo(n, true)
              case None => Fifo(if asked > 0 then asked else 64, false)
  {
    PortsRemain(states, calls, results, |calls|);
    hide Checked, LinkRun, Served, SizeAsked;
    SizeFollowsCalls(states, calls, results, |calls|, o);
  }

  lemma {:induction false} PortsRemain(states: seq<LinkState>, calls: seq<Call>, results: seq<Result<(PortId, PortId), LinkError>>, j: nat)
    requires LinkRun(states, calls, results) && j <= |calls|
    ensures states[j].output.Keys == states[0].output.Keys
  {
    if j > 0 {
      PortsRemain(states, calls, results, j - 1);
      assert LinkStep(states[j - 1], calls[j - 1], states[j], results[j - 1]);
      hide LinkRun, LinkStep;
      StepKeepsPorts(states[j - 1], calls[j - 1], states[j], results[j - 1]);
    }
  }

  /** Calls behind `m` that name `o` as their source give it no other size. */
  ghost predicate NotResized(output: Ports, calls: seq<Call>, m: nat, o: PortId)
    requires m < |calls|
  {
    forall n :: m < n < |calls| && NamesSource(output, calls[n], o) ==> calls[n].buffer == calls[m].buffer
  }

  lemma {:induction false} LastAsked(output: Ports, calls: seq<Call>, m: nat, o: PortId, j: nat)
    requires m < j <= |calls| && NamesSource(output, calls[m], o) && NotResized(output, calls, m, o)
    ensures SizeAsked(output, calls, o, j) == calls[m].buffer
  {
    hide NamesSource;
    if j > m + 1 {
      LastAsked(output, calls, m, o, j - 1);
    }
  }

  /**
   * On an acyclic graph that passes the check, both ends of a link made with a buffer size
   * have a FIFO of exactly that size, unless a later call names the source port with another.
   */
  lemma LinkGetsItsBuffer(states: seq<LinkState>, calls: seq<Call>, results: seq<Result<(PortId, PortId), LinkError>>,
                          order: Order, sources: seq<Kernel>, rank: Kernel -> nat,
                          outputFifo: map<PortId, nat>, inputFifo: map<PortId, nat>, fifos: seq<Fifo>,
                          m: nat, o: PortId, i: PortId)
    requires LinkRun(states, calls, results) && Fresh(states[0]) && Unsized(states[0])
    requires Checked(states[|calls|], order, sources) && Acyclic(states[|calls|], rank)
    requires Equipped(states[|calls|], order, sources, outputFifo, inputFifo, fifos)
    requires m < |calls| && results[m] == Ok((o, i)) && NotResized(states[0].output, calls, m, o)
    requires o in states[0].output && states[0].output[o].existing.None?
    ensures o in outputFifo && i in inputFifo && outputFifo[o] == inputFifo[i] < |fifos|
    ensures fifos[outputFifo[o]] == Fifo(if calls[m].buffer > 0 then calls[m].buffer else 64, false)
  {
    var s := states[|calls|];
    MadeLink(states, calls, results, m, o, i);
    hide LinkRun, Lists, Equipped, Acyclic;
    EveryPortServed(s, order, rank, sources, o);
    hide Checked, Served, SizeAsked, NotResized;
    assert o in outputFifo && outputFifo[o] < |fifos| && i in inputFifo && inputFifo[i] == outputFifo[o] by {
      ServedIsEquipped(s, order, sources, outputFifo, inputFifo, fifos, o);
    }
    FifoHasAskedSize(states, calls, results, order, sources, outputFifo, inputFifo, fifos, o);
    LastAsked(states[0].output, calls, m, o, |calls|);
  }

  lemma ServedIsEquipped(s: LinkState, order: Order, sources: seq<Kernel>,
                         outputFifo: map<PortId, nat>, inputFifo: map<PortId, nat>, fifos: seq<Fifo>, o: PortId)
    requires forall k, i :: 0 <= k < |order| && 0 <= i < |order[k]| ==> PortId(k, order[k][i]) in s.output
    requires Equipped(s, order, sources, outputFifo, inputFifo, fifos) && Served(s.output, order, sources, o)
    ensures o in outputFifo && outputFifo[o] < |fifos| && s.output[o].other.Some?
    ensures s.output[o].other.value in inputFifo && inputFifo[s.output[o].other.value] == outputFifo[o]
  {
    hide Served;
  }

  /** A successful call has found its ports, recorded their kernels and linked them for good. */
  lemma MadeLink(states: seq<LinkState>, calls: seq<Call>, results: seq<Result<(PortId, PortId), LinkError>>, m: nat, o: PortId, i: PortId)
    requires LinkRun(states, calls, results) && m < |calls| && results[m] == Ok((o, i)) && Fresh(states[0])
    ensures o in states[|calls|].output && states[|calls|].output[o].other == Some(i) && o.kernel in states[|calls|].all
    ensures NamesSource(states[0].output, calls[m], o)
  {
    assert LinkStep(states[m], calls[m], states[m + 1], results[m]);
    LinkStays(states, calls, results, m + 1, |calls|, o);
    LinkRunKeeps(states, calls, results, |calls|);
    PortsRemain(states, calls, results, m);
    hide LinkRun, LinkStep;
    NamesByKeys(states[m].output, states[0].output, calls[m], o);
  }
}
