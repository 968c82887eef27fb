/**
 * Linking kernels port to port: MapBase::link, updateKernels and join, and the check that
 * no port is left open (raftinc/mapbase.hpp, src/mapbase.cpp, src/map.cpp, src/kernel.cpp).
 */
module Links {
  import opened Wrappers

  type Kernel = nat
  type Name = nat

  /** A port of a kernel; inputs and outputs are named separately. */
  datatype PortId = PortId(kernel: Kernel, name: Name)

  /** PortInfo.  `existing` is the length of a buffer supplied by the user, if any. */
  datatype PortInfo = PortInfo(typ: nat, other: Option<PortId>, fixedBuffer: nat, outOfOrder: bool, existing: Option<nat>)

  type Ports = map<PortId, PortInfo>

  datatype LinkError = PortTypeMismatch | PortDoubleInitialize | PortNotFound | AmbiguousPortAssignment

  /** The ports of all kernels, and the kernel sets a map keeps. */
  datatype LinkState = LinkState(input: Ports, output: Ports, sources: set<Kernel>, dsts: set<Kernel>, all: set<Kernel>)

  /** A call of link; `None` is the null port name. */
  datatype Call = Call(a: Kernel, aPort: Option<Name>, b: Kernel, bPort: Option<Name>, buffer: nat, outOfOrder: bool)

  function PortsOf(ports: Ports, k: Kernel): (r: set<PortId>)
    ensures forall p :: p in r <==> p in ports && p.kernel == k
  {
    set p | p in ports && p.kernel == k
  }

  predicate HasPorts(ports: Ports, k: Kernel) {
    exists p :: p in ports && p.kernel == k
  }

  /** What getPortInfoFor or getPortInfo finds. */
  ghost predicate Finds(ports: Ports, k: Kernel, name: Option<Name>, r: Result<PortId, LinkError>)
    ensures Finds(ports, k, name, r) && r.Ok? ==> r.value in ports && r.value.kernel == k
  {
    match r
    case Ok(p) =>
      && p in ports && p.kernel == k
      && (if name.Some? then p.name == name.value else forall q :: q in ports && q.kernel == k ==> q == p)
    case Err(PortNotFound) =>
      if name.Some? then PortId(k, name.value) !in ports else !HasPorts(ports, k)
    case Err(AmbiguousPortAssignment) =>
      name.None? && exists p, q :: p in ports && q in ports && p.kernel == q.kernel == k && p != q
    case _ => false
  }

  // ---------------------------------------------------------------- invariant

  /** Peers point at each other and have equal types. */
  ghost predicate Mutual(from: Ports, to: Ports) {
    forall p :: p in from && from[p].other.Some? ==>
      && from[p].other.value in to
      && to[from[p].other.value].other == Some(p)
      && to[from[p].other.value].typ == from[p].typ
  }

  ghost predicate Linked(s: LinkState) {
    Mutual(s.output, s.input) && Mutual(s.input, s.output)
  }

  /** What the kernel sets record about links made. */
  ghost predicate Recorded(s: LinkState) {
    && (forall p :: p in s.output && s.output[p].other.Some? ==> p.kernel in s.all)
    && (forall p :: p in s.input && s.input[p].other.Some? ==> p.kernel in s.all)
    && (forall p :: p in s.output && s.output[p].other.Some? && !HasPorts(s.input, p.kernel) ==> p.kernel in s.sources)
    && (forall p :: p in s.input && s.input[p].other.Some? && !HasPorts(s.output, p.kernel) ==> p.kernel in s.dsts)
    && (forall k :: k in s.sources ==> k in s.all && !HasPorts(s.input, k))
    && (forall k :: k in s.dsts ==> k in s.all && !HasPorts(s.output, k))
  }

  ghost predicate Fresh(s: LinkState) {
    && (forall p :: p in s.output ==> s.output[p].other.None?)
    && (forall p :: p in s.input ==> s.input[p].other.None?)
    && s.sources == {} && s.dsts == {} && s.all == {}
  }

  lemma FreshLinked(s: LinkState)
    requires Fresh(s)
    ensures Linked(s) && Recorded(s)
  {
  }

  /** No port is in two links. */
  lemma PeersDistinct(s: LinkState, p: PortId, q: PortId)
    requires Linked(s)
    ensures p in s.output && q in s.output && p != q && s.output[p].other.Some? ==> s.output[p].other != s.output[q].other
    ensures p in s.input && q in s.input && p != q && s.input[p].other.Some? ==> s.input[p].other != s.input[q].other
  {
    if p in s.output && q in s.output && s.output[p].other.Some? && s.output[p].other == s.output[q].other {
      assert s.input[s.output[p].other.value].other == Some(q);
    }
    if p in s.input && q in s.input && s.input[p].other.Some? && s.input[p].other == s.input[q].other {
      assert s.output[s.input[p].other.value].other == Some(q);
    }
  }

  /** No peer field differs. */
  ghost predicate SamePeers(s: Ports, t: Ports) {
    && t.Keys == s.Keys
    && forall p :: p in s ==> t[p].other == s[p].other && t[p].typ == s[p].typ && t[p].existing == s[p].existing
  }

  /** Exactly the ports `o` and `i`, unlinked before and of equal types, have become each other's peers. */
  ghost predicate Joined(s: LinkState, t: LinkState, o: PortId, i: PortId)
    ensures Joined(s, t, o, i) ==> o in t.output && i in t.input
  {
    && o in s.output && i in s.input && s.output[o].typ == s.input[i].typ
    && s.output[o].other.None? && s.input[i].other.None?
    && t.output.Keys == s.output.Keys && t.input.Keys == s.input.Keys
    && t.output[o].other == Some(i) && t.input[i].other == Some(o)
    && (forall p :: p in s.output ==> t.output[p].typ == s.output[p].typ && t.output[p].existing == s.output[p].existing
                                      && (p != o ==> t.output[p].other == s.output[p].other))
    && (forall p :: p in s.input ==> t.input[p].typ == s.input[p].typ && t.input[p].existing == s.input[p].existing
                                     && (p != i ==> t.input[p].other == s.input[p].other))
  }

  /** updateKernels: recorded before any port is looked up, so also when the link then fails. */
  ghost predicate Updated(s: LinkState, sources: set<Kernel>, dsts: set<Kernel>, all: set<Kernel>, c: Call) {
    && sources == s.sources + (if HasPorts(s.input, c.a) then {} else {c.a})
    && dsts == s.dsts + (if HasPorts(s.output, c.b) then {} else {c.b})
    && all == s.all + {c.a, c.b}
  }

  /** The port lookups of a call succeed: the source's with `o`, then the destination's with `i`. */
  ghost predicate NamesSource(output: Ports, c: Call, o: PortId) {
    Finds(output, c.a, c.aPort, Ok(o))
  }

  ghost predicate NamesBoth(s: LinkState, c: Call, i: PortId) {
    Finds(s.input, c.b, c.bPort, Ok(i)) && exists o :: NamesSource(s.output, c, o)
  }

  /**
   * A buffer size is stored as soon as a port is found, so also by a call that then fails;
   * the order only with the link. No other port is touched.
   */
  ghost predicate Sized(s: LinkState, c: Call, t: LinkState, linked: bool) {
    && t.output.Keys == s.output.Keys && t.input.Keys == s.input.Keys
    && (forall p :: p in s.output ==>
          && t.output[p].fixedBuffer == (if NamesSource(s.output, c, p) then c.buffer else s.output[p].fixedBuffer)
          && t.output[p].outOfOrder == (if linked && NamesSource(s.output, c, p) then c.outOfOrder else s.output[p].outOfOrder))
    && (forall p :: p in s.input ==>
          && t.input[p].fixedBuffer == (if NamesBoth(s, c, p) then c.buffer else s.input[p].fixedBuffer)
          && t.input[p].outOfOrder == (if linked && NamesBoth(s, c, p) then c.outOfOrder else s.input[p].outOfOrder))
  }

  /** The whole effect of one call of link. */
  ghost predicate LinkStep(s: LinkState, c: Call, t: LinkState, r: Result<(PortId, PortId), LinkError>) {
    && Updated(s, t.sources, t.dsts, t.all, c) && Sized(s, c, t, r.Ok?)
    && match r
       case Ok((o, i)) =>
         && Finds(s.output, c.a, c.aPort, Ok(o)) && Finds(s.input, c.b, c.bPort, Ok(i)) && Joined(s, t, o, i)
       case Err(e) =>
         SamePeers(s.output, t.output) && SamePeers(s.input, t.input) && Fails(s, c, e)
  }

  /** When a call fails, and how: the source port is looked up first, then the destination, then both are checked. */
  ghost predicate Fails(s: LinkState, c: Call, e: LinkError) {
    || Finds(s.output, c.a, c.aPort, Err(e))
    || exists o :: Finds(s.output, c.a, c.aPort, Ok(o)) &&
         (|| Finds(s.input, c.b, c.bPort, Err(e))
          || exists i :: Finds(s.input, c.b, c.bPort, Ok(i)) && Refused(s, o, i, e))
  }

  ghost predicate Refused(s: LinkState, o: PortId, i: PortId, e: LinkError) {
    o in s.output && i in s.input &&
    if s.output[o].typ != s.input[i].typ then e.PortTypeMismatch?
    else e.PortDoubleInitialize? && (s.output[o].other.Some? || s.input[i].other.Some?)
  }

  // Setting the buffer size or the order of a port touches no peer field.

  lemma SameBut(s: Ports, t: Ports, p: PortId)
    requires p in s && p in t && t == s[p := t[p]] && t[p].other == s[p].other && t[p].typ == s[p].typ
    requires t[p].existing == s[p].existing
    ensures SamePeers(s, t)
  {
  }

  lemma NoSource(s: LinkState, c: Call, t: LinkState, e: LinkError)
    requires Updated(s, t.sources, t.dsts, t.all, c) && t.output == s.output && t.input == s.input
    requires Finds(s.output, c.a, c.aPort, Err(e))
    ensures LinkStep(s, c, t, Err(e))
  {
    forall o | NamesSource(s.output, c, o)
      ensures false
    {
      FoundOnce(s.output, c.a, c.aPort, Ok(o), Err(e));
    }
  }

  /** A lookup has one outcome. */
  lemma FoundOnce(ports: Ports, k: Kernel, name: Option<Name>, r: Result<PortId, LinkError>, r': Result<PortId, LinkError>)
    requires Finds(ports, k, name, r) && Finds(ports, k, name, r')
    ensures r == r'
  {
  }

  /** The ports a call stores into. */
  lemma StoredSource(s: LinkState, c: Call, o: PortId)
    requires NamesSource(s.output, c, o)
    ensures forall p :: NamesSource(s.output, c, p) <==> p == o
  {
    forall p | NamesSource(s.output, c, p)
      ensures p == o
    {
      FoundOnce(s.output, c.a, c.aPort, Ok(p), Ok(o));
    }
  }

  lemma StoredDestination(s: LinkState, c: Call, o: PortId, r: Result<PortId, LinkError>)
    requires NamesSource(s.output, c, o) && Finds(s.input, c.b, c.bPort, r)
    ensures forall p :: NamesBoth(s, c, p) <==> r == Ok(p)
  {
    forall p | NamesBoth(s, c, p)
      ensures r == Ok(p)
    {
      FoundOnce(s.input, c.b, c.bPort, Ok(p), r);
    }
  }

  lemma NoDestination(s: LinkState, c: Call, t: LinkState, o: PortId, e: LinkError)
    requires Updated(s, t.sources, t.dsts, t.all, c) && SamePeers(s.output, t.output) && t.input == s.input
    requires Finds(s.output, c.a, c.aPort, Ok(o)) && Finds(s.input, c.b, c.bPort, Err(e))
    requires o in s.output && t.output == s.output[o := s.output[o].(fixedBuffer := c.buffer)]
    ensures LinkStep(s, c, t, Err(e))
  {
    StoredSource(s, c, o);
    StoredDestination(s, c, o, Err(e));
    hide Finds, Updated, NamesSource, NamesBoth;
  }

  lemma JoinRefused(s: LinkState, c: Call, t: LinkState, o: PortId, i: PortId, e: LinkError)
    requires Updated(s, t.sources, t.dsts, t.all, c) && SamePeers(s.output, t.output) && SamePeers(s.input, t.input)
    requires Finds(s.output, c.a, c.aPort, Ok(o)) && Finds(s.input, c.b, c.bPort, Ok(i)) && Refused(t, o, i, e)
    requires o in s.output && t.output == s.output[o := s.output[o].(fixedBuffer := c.buffer)]
    requires i in s.input && t.input == s.input[i := s.input[i].(fixedBuffer := c.buffer)]
    ensures LinkStep(s, c, t, Err(e))
  {
    assert Refused(s, o, i, e);
    StoredSource(s, c, o);
    StoredDestination(s, c, o, Ok(i));
    hide Finds, Updated, NamesSource, NamesBoth, Refused;
  }

  lemma JoinDone(s: LinkState, c: Call, t: LinkState, o: PortId, i: PortId)
    requires Updated(s, t.sources, t.dsts, t.all, c) && Joined(s, t, o, i)
    requires Finds(s.output, c.a, c.aPort, Ok(o)) && Finds(s.input, c.b, c.bPort, Ok(i))
    requires t.output == s.output[o := t.output[o]] && t.input == s.input[i := t.input[i]]
    requires t.output[o].fixedBuffer == c.buffer == t.input[i].fixedBuffer
    requires t.output[o].outOfOrder == c.outOfOrder == t.input[i].outOfOrder
    ensures LinkStep(s, c, t, Ok((o, i)))
  {
    StoredSource(s, c, o);
    StoredDestination(s, c, o, Ok(i));
    hide Finds, Updated, NamesSource, NamesBoth;
  }

  lemma JoinedBefore(s: LinkState, t: LinkState, o: PortId, i: PortId)
    requires o in s.output && i in s.input && o in t.output && i in t.input
    requires t.output == s.output[o := t.output[o]] && t.input == s.input[i := t.input[i]]
    requires t.output[o] == s.output[o].(other := Some(i), fixedBuffer := t.output[o].fixedBuffer, outOfOrder := t.output[o].outOfOrder)
    requires t.input[i] == s.input[i].(other := Some(o), fixedBuffer := t.input[i].fixedBuffer, outOfOrder := t.input[i].outOfOrder)
    requires s.output[o].typ == s.input[i].typ && s.output[o].other.None? && s.input[i].other.None?
    ensures Joined(s, t, o, i)
  {
  }

  lemma JoinedKeeps(s: LinkState, t: LinkState, o: PortId, i: PortId)
    requires Linked(s) && Joined(s, t, o, i)
    ensures Linked(t)
  {
  }

  lemma SamePortKernels(s: Ports, t: Ports)
    requires t.Keys == s.Keys
    ensures forall k :: HasPorts(t, k) == HasPorts(s, k)
  {
    assert forall p :: p in s <==> p in t;
  }

  lemma JoinedRecorded(s: LinkState, c: Call, t: LinkState, o: PortId, i: PortId)
    requires Recorded(s) && Joined(s, t, o, i) && Updated(s, t.sources, t.dsts, t.all, c) && o.kernel == c.a && i.kernel == c.b
    ensures Recorded(t)
  {
    SamePortKernels(s.input, t.input);
    SamePortKernels(s.output, t.output);
    hide HasPorts;
  }

  lemma FailedKeeps(s: LinkState, c: Call, t: LinkState)
    requires Linked(s) && Recorded(s) && SamePeers(s.output, t.output) && SamePeers(s.input, t.input)
    requires Updated(s, t.sources, t.dsts, t.all, c)
    ensures Linked(t) && Recorded(t)
  {
    SamePortKernels(s.input, t.input);
    SamePortKernels(s.output, t.output);
    hide HasPorts;
  }

  /** One call keeps the invariant, failing or not. */
  lemma LinkStepKeeps(s: LinkState, c: Call, t: LinkState, r: Result<(PortId, PortId), LinkError>)
    requires Linked(s) && Recorded(s) && LinkStep(s, c, t, r)
    ensures Linked(t) && Recorded(t)
  {
    hide Linked, Recorded, Joined, Sized, SamePeers, Updated, Fails;
    match r
    case Ok((o, i)) =>
      JoinedKeeps(s, t, o, i);
      JoinedRecorded(s, c, t, o, i);
    case Err(_) =>
      FailedKeeps(s, c, t);
  }

  /** A sequence of calls with the states in between. */
  ghost predicate LinkRun(states: seq<LinkState>, calls: seq<Call>, results: seq<Result<(PortId, PortId), LinkError>>) {
    && |states| == |calls| + 1 && |results| == |calls|
    && forall j :: 0 <= j < |calls| ==> LinkStep(states[j], calls[j], states[j + 1], results[j])
  }

  /**
   * After any sequence of link calls, failing ones included: peers point at each other, no
   * port is in two links, linked ports have equal types, and the kernel sets are right.
   */
  lemma {:induction false} LinkRunKeeps(states: seq<LinkState>, calls: seq<Call>, results: seq<Result<(PortId, PortId), LinkError>>, j: nat)
    requires LinkRun(states, calls, results) && Fresh(states[0]) && j <= |calls|
    ensures Linked(states[j]) && Recorded(states[j])
  {
    hide Linked, Recorded, LinkStep, Fresh;
    if j == 0 {
      FreshLinked(states[0]);
    } else {
      LinkRunKeeps(states, calls, results, j - 1);
      LinkStepKeeps(states[j - 1], calls[j - 1], states[j], results[j - 1]);
    }
  }

  // ---------------------------------------------------------------- buffer sizes

  /** The buffer size given by the last of the first `j` calls that names `o` as its source, whether it succeeded or not. */
  ghost function SizeAsked(output: Ports, calls: seq<Call>, o: PortId, j: nat): nat
    requires j <= |calls|
  {
    if j == 0 then 0
    else if NamesSource(output, calls[j - 1], o) then calls[j - 1].buffer
    else SizeAsked(output, calls, o, j - 1)
  }

  /** Ports as their kernels declare them have no buffer size. */
  ghost predicate Unsized(s: LinkState) {
    forall p :: p in s.output ==> s.output[p].fixedBuffer == 0
  }

  /** Which port a call names depends on no more than which ports there are. */
  lemma NamesByKeys(s: Ports, t: Ports, c: Call, o: PortId)
    requires s.Keys == t.Keys
    ensures NamesSource(s, c, o) <==> NamesSource(t, c, o)
  {
    assert forall p :: p in s <==> p in t;
  }

  lemma StepKeepsPorts(s: LinkState, c: Call, t: LinkState, r: Result<(PortId, PortId), LinkError>)
    requires LinkStep(s, c, t, r)
    ensures t.output.Keys == s.output.Keys && t.input.Keys == s.input.Keys
    ensures forall p :: p in s.output ==> t.output[p].existing == s.output[p].existing
    ensures forall p :: p in s.output && s.output[p].other.Some? ==> t.output[p].other == s.output[p].other
  {
    hide Finds, Updated, Fails;
  }

  /**
   * Over any sequence of link calls, failing ones included, the size an output port asks for
   * is that of the last call that names it; a link once made stays.
   */
  lemma {:induction false} SizeFollowsCalls(states: seq<LinkState>, calls: seq<Call>, results: seq<Result<(PortId, PortId), LinkError>>, j: nat, o: PortId)
    requires LinkRun(states, calls, results) && Unsized(states[0]) && j <= |calls| && o in states[0].output
    ensures states[j].output.Keys == states[0].output.Keys
    ensures states[j].output[o].fixedBuffer == SizeAsked(states[0].output, calls, o, j)
    ensures states[j].output[o].existing == states[0].output[o].existing
  {
    if j > 0 {
      var s, t, c := states[j - 1], states[j], calls[j - 1];
      SizeFollowsCalls(states, calls, results, j - 1, o);
      assert LinkStep(s, c, t, results[j - 1]);
      hide LinkRun, Fresh, Unsized;
      StepKeepsPorts(s, c, t, results[j - 1]);
      NamesByKeys(s.output, states[0].output, c, o);
      hide Joined, Finds, NamesSource, Updated, Fails;
    }
  }

  lemma {:induction false} LinkStays(states: seq<LinkState>, calls: seq<Call>, results: seq<Result<(PortId, PortId), LinkError>>, m: nat, j: nat, o: PortId)
    requires LinkRun(states, calls, results) && m <= j <= |calls| && o in states[m].output && states[m].output[o].other.Some?
    ensures o in states[j].output && states[j].output[o].other == states[m].output[o].other
    decreases j
  {
    if m < j {
      LinkStays(states, calls, results, m, j - 1, o);
      assert LinkStep(states[j - 1], calls[j - 1], states[j], results[j - 1]);
      hide LinkRun, LinkStep;
      StepKeepsPorts(states[j - 1], calls[j - 1], states[j], results[j - 1]);
    }
  }

  /** Both ends of a link keep the order it was made with. */
  lemma {:induction false} OrderFollowsLink(states: seq<LinkState>, calls: seq<Call>, results: seq<Result<(PortId, PortId), LinkError>>,
                                            m: nat, j: nat, o: PortId, i: PortId)
    requires LinkRun(states, calls, results) && m < j <= |calls| && results[m] == Ok((o, i))
    ensures o in states[j].output && i in states[j].input
    ensures states[j].output[o].other == Some(i) && states[j].input[i].other == Some(o)
    ensures states[j].output[o].outOfOrder == calls[m].outOfOrder == states[j].input[i].outOfOrder
    decreases j
  {
    if m + 1 < j {
      OrderFollowsLink(states, calls, results, m, j - 1, o, i);
    }
    assert LinkStep(states[j - 1], calls[j - 1], states[j], results[j - 1]);
    hide LinkRun;
    if m + 1 == j {
      OrderIsSet(states[m], calls[m], states[j], o, i);
    } else {
      OrderStays(states[j - 1], calls[j - 1], states[j], results[j - 1], o, i);
    }
  }

  lemma OrderIsSet(s: LinkState, c: Call, t: LinkState, o: PortId, i: PortId)
    requires LinkStep(s, c, t, Ok((o, i)))
    ensures o in t.output && i in t.input && t.output[o].other == Some(i) && t.input[i].other == Some(o)
    ensures t.output[o].outOfOrder == c.outOfOrder == t.input[i].outOfOrder
  {
    assert NamesSource(s.output, c, o) && NamesBoth(s, c, i);
    hide Finds, Updated, Fails;
  }

  /** Ports in a link are never named by another that succeeds. */
  lemma OrderStays(s: LinkState, c: Call, t: LinkState, r: Result<(PortId, PortId), LinkError>, o: PortId, i: PortId)
    requires LinkStep(s, c, t, r) && o in s.output && i in s.input
    requires s.output[o].other == Some(i) && s.input[i].other == Some(o)
    ensures o in t.output && i in t.input && t.output[o].other == Some(i) && t.input[i].other == Some(o)
    ensures t.output[o].outOfOrder == s.output[o].outOfOrder && t.input[i].outOfOrder == s.input[i].outOfOrder
  {
    if r.Ok? {
      var (o', i') := r.value;
      StoredSource(s, c, o');
      StoredDestination(s, c, o', Ok(i'));
    }
    hide Finds, Updated, Fails, NamesSource, NamesBoth;
  }

  // Two kernels, one port each, linked with 16 slots; a second, refused call asks for 32.

  const SRC := PortId(0, 0)
  const DST := PortId(1, 0)

  function TwoKernels(linked: bool, size: nat): LinkState {
    var all := if linked then {0, 1} else {};
    LinkState(map[DST := PortInfo(0, if linked then Some(SRC) else None, size, false, None)],
              map[SRC := PortInfo(0, if linked then Some(DST) else None, size, false, None)],
              if linked then {0} else {}, if linked then {1} else {}, all)
  }

  function LinkThem(size: nat): Call {
    Call(0, Some(0), 1, Some(0), size, false)
  }

  lemma FirstLink(s: LinkState, t: LinkState)
    requires s == TwoKernels(false, 0) && t == TwoKernels(true, 16)
    ensures LinkStep(s, LinkThem(16), t, Ok((SRC, DST)))
  {
    assert SRC in s.output && DST in s.input;
    assert !HasPorts(s.input, 0) && !HasPorts(s.output, 1);
    assert Joined(s, t, SRC, DST);
    JoinDone(s, LinkThem(16), t, SRC, DST);
  }

  lemma SecondLink(s: LinkState, t: LinkState)
    requires s == TwoKernels(true, 16) && t == TwoKernels(true, 32)
    ensures LinkStep(s, LinkThem(32), t, Err(PortDoubleInitialize))
  {
    assert SRC in s.output && DST in s.input;
    assert !HasPorts(s.input, 0) && !HasPorts(s.output, 1);
    JoinRefused(s, LinkThem(32), t, SRC, DST, PortDoubleInitialize);
  }

  lemma TwoCalls(states: seq<LinkState>, calls: seq<Call>, results: seq<Result<(PortId, PortId), LinkError>>)
    requires states == [TwoKernels(false, 0), TwoKernels(true, 16), TwoKernels(true, 32)]
    requires calls == [LinkThem(16), LinkThem(32)] && results == [Ok((SRC, DST)), Err(PortDoubleInitialize)]
    ensures LinkRun(states, calls, results)
  {
    hide LinkStep, TwoKernels, LinkThem;
    FirstLink(states[0], states[1]);
    SecondLink(states[1], states[2]);
  }

  /** A refused call changes the size that the link before it asked for. */
  lemma RefusedLinkResizes()
    ensures exists states: seq<LinkState>, calls: seq<Call>, results: seq<Result<(PortId, PortId), LinkError>> ::
              && LinkRun(states, calls, results) && Fresh(states[0]) && Unsized(states[0]) && |calls| == 2
              && results == [Ok((SRC, DST)), Err(PortDoubleInitialize)]
              && calls[0].buffer == 16 && SRC in states[2].output && states[2].output[SRC].fixedBuffer == 32
  {
    var states := [TwoKernels(false, 0), TwoKernels(true, 16), TwoKernels(true, 32)];
    var calls := [LinkThem(16), LinkThem(32)];
    var results: seq<Result<(PortId, PortId), LinkError>> := [Ok((SRC, DST)), Err(PortDoubleInitialize)];
    TwoCalls(states, calls, results);
    assert Fresh(states[0]) && Unsized(states[0]);
    assert SRC in states[2].output && states[2].output[SRC].fixedBuffer == 32;
    hide LinkRun, LinkStep, Fresh, Unsized;
  }

  // ---------------------------------------------------------------- the map object

  class MapBase {
    var input: Ports
    var output: Ports
    var sourceKernels: set<Kernel>
    var dstKernels: set<Kernel>
    var allKernels: set<Kernel>

    ghost function State(): LinkState
      reads this
    {
      LinkState(input, output, sourceKernels, dstKernels, allKernels)
    }

    /** A map over kernels that have added their ports. */
    constructor (input: Ports, output: Ports)
      requires forall p :: p in output ==> output[p].other.None?
      requires forall p :: p in input ==> input[p].other.None?
      ensures Fresh(State()) && this.input == input && this.output == output
    {
      this.input := input;
      this.output := output;
      sourceKernels, dstKernels, allKernels := {}, {}, {};
    }

    method UpdateKernels(c: Call)
      modifies this`sourceKernels, this`dstKernels, this`allKernels
      ensures Updated(old(State()), sourceKernels, dstKernels, allKernels, c)
    {
      var a, b := c.a, c.b;
      if PortsOf(input, a) == {} {
        sourceKernels := sourceKernels + {a};
      }
      if PortsOf(output, b) == {} {
        dstKernels := dstKernels + {b};
      }
      allKernels := allKernels + {a, b};
    }

    static method Find(ports: Ports, k: Kernel, name: Option<Name>) returns (r: Result<PortId, LinkError>)
      ensures Finds(ports, k, name, r)
    {
      if name.Some? {
        var p := PortId(k, name.value);
        return if p in ports then Ok(p) else Err(PortNotFound);
      }
      var found := PortsOf(ports, k);
      if found == {} {
        return Err(PortNotFound);
      }
      var p :| p in found;
      if found != {p} {
        assert exists q :: q in found && q != p;
        return Err(AmbiguousPortAssignment);
      }
      r := Ok(p);
    }

    /** Sets both peer fields, or neither. */
    method Join(o: PortId, i: PortId) returns (error: Option<LinkError>)
      requires o in output && i in input
      modifies this`input, this`output
      ensures error.None? ==> Joined(old(State()), State(), o, i)
      ensures error.None? ==> old(output)[o].typ == old(input)[i].typ && old(output)[o].other.None? && old(input)[i].other.None?
      ensures error.None? ==> output == old(output)[o := output[o]] && output[o] == old(output)[o].(other := Some(i))
      ensures error.None? ==> input == old(input)[i := input[i]] && input[i] == old(input)[i].(other := Some(o))
      ensures error.Some? ==> State() == old(State()) && Refused(State(), o, i, error.value)
    {
      if output[o].typ != input[i].typ {
        return Some(PortTypeMismatch);
      }
      if output[o].other.Some? {
        return Some(PortDoubleInitialize);
      }
      if input[i].other.Some? {
        return Some(PortDoubleInitialize);
      }
      output := output[o := output[o].(other := Some(i))];
      input := input[i := input[i].(other := Some(o))];
      error := None;
    }

    method Link(c: Call) returns (r: Result<(PortId, PortId), LinkError>)
      modifies this
      ensures LinkStep(old(State()), c, State(), r)
    {
      hide Finds, HasPorts, PortsOf, Joined, Refused, SamePeers, Updated, LinkStep, Sized;
      ghost var s := State();
      UpdateKernels(c);
      var a := Find(output, c.a, c.aPort);
      if a.Err? {
        NoSource(s, c, State(), a.error);
        return Err(a.error);
      }
      var o := a.value;
      output := output[o := output[o].(fixedBuffer := c.buffer)];
      var b := Find(input, c.b, c.bPort);
      SameBut(s.output, output, o);
      if b.Err? {
        NoDestination(s, c, State(), o, b.error);
        return Err(b.error);
      }
      var i := b.value;
      input := input[i := input[i].(fixedBuffer := c.buffer)];
      SameBut(s.input, input, i);
      var error := Join(o, i);
      if error.Some? {
        JoinRefused(s, c, State(), o, i, error.value);
        return Err(error.value);
      }
      output := output[o := output[o].(outOfOrder := c.outOfOrder)];
      input := input[i := input[i].(outOfOrder := c.outOfOrder)];
      JoinedBefore(s, State(), o, i);
      JoinDone(s, c, State(), o, i);
      r := Ok((o, i));
    }

    /** checkEdges: an open port of any recorded kernel, or none. */
    method CheckEdges() returns (open: Option<PortId>)
      ensures open.None? <==>
                forall p: PortId :: p.kernel in allKernels ==>
                  (p in input ==> input[p].other.Some?) && (p in output ==> output[p].other.Some?)
    {
      var kernels := allKernels;
      while kernels != {}
        invariant kernels <= allKernels
        invariant forall p: PortId :: p.kernel in allKernels - kernels ==>
                    (p in input ==> input[p].other.Some?) && (p in output ==> output[p].other.Some?)
        decreases kernels
      {
        var k :| k in kernels;
        open := OpenPort(input, k);
        if open.Some? {
          return;
        }
        open := OpenPort(output, k);
        if open.Some? {
          return;
        }
        kernels := kernels - {k};
      }
      open := None;
    }

    /** One direction of kernel::allConnected. */
    static method OpenPort(ports: Ports, k: Kernel) returns (open: Option<PortId>)
      ensures open.Some? ==> open.value in ports && open.value.kernel == k && ports[open.value].other.None?
      ensures open.None? ==> forall p :: p in ports && p.kernel == k ==> ports[p].other.Some?
    {
      var rest := PortsOf(ports, k);
      while rest != {}
        invariant rest <= PortsOf(ports, k)
        invariant forall p :: p in ports && p.kernel == k && p !in rest ==> ports[p].other.Some?
        decreases rest
      {
        var p :| p in rest;
        if ports[p].other.None? {
          return Some(p);
        }
        rest := rest - {p};
      }
      open := None;
    }
  }
}
