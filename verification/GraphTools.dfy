/**
 * Breadth-first traversal of the streaming graph (src/graphtools.cpp).  A graph gives, for
 * each kernel, the kernels its output ports are linked to, in the order in which the port
 * map is iterated; `None` is a port that is not linked.
 */
module GraphTools {
  import opened Wrappers

  type Kernel = nat

  /** An out-edge: a kernel and one of its output ports, by position. */
  datatype Edge = Edge(kernel: Kernel, port: nat)

  datatype Graph = Graph(out: seq<seq<Option<Kernel>>>)
  {
    ghost predicate Valid() {
      forall k, i :: 0 <= k < |out| && 0 <= i < |out[k]| && out[k][i].Some? ==> out[k][i].value < |out|
    }

    ghost predicate IsEdge(e: Edge) {
      e.kernel < |out| && e.port < |out[e.kernel]| && out[e.kernel][e.port].Some?
    }

    ghost predicate Connected(k: Kernel)
      requires k < |out|
    {
      forall i :: 0 <= i < |out[k]| ==> out[k][i].Some?
    }
  }

  // ---------------------------------------------------------------- reachability

  ghost predicate Step(g: Graph, a: Kernel, b: Kernel) {
    a < |g.out| && Some(b) in g.out[a]
  }

  /** A non-empty sequence of kernels, each linked to the next. */
  ghost predicate Path(g: Graph, p: seq<Kernel>) {
    |p| > 0 && forall i :: 0 <= i < |p| - 1 ==> Step(g, p[i], p[i + 1])
  }

  ghost predicate PathTo(g: Graph, sources: seq<Kernel>, p: seq<Kernel>, k: Kernel) {
    Path(g, p) && p[0] in sources && p[|p| - 1] == k
  }

  ghost predicate Reachable(g: Graph, sources: seq<Kernel>, k: Kernel) {
    exists p: seq<Kernel> :: PathTo(g, sources, p, k)
  }

  lemma SourceReachable(g: Graph, sources: seq<Kernel>, k: Kernel)
    requires k in sources
    ensures Reachable(g, sources, k)
  {
    assert PathTo(g, sources, [k], k);
  }

  lemma StepReachable(g: Graph, sources: seq<Kernel>, a: Kernel, b: Kernel)
    requires Reachable(g, sources, a) && Step(g, a, b)
    ensures Reachable(g, sources, b)
  {
    var p: seq<Kernel> :| PathTo(g, sources, p, a);
    assert PathTo(g, sources, p + [b], b);
  }

  /** A set that contains the sources and the successors of its members contains all that is reachable. */
  lemma {:induction false} ClosedContainsPath(g: Graph, sources: seq<Kernel>, p: seq<Kernel>, closed: set<Kernel>)
    requires Path(g, p) && p[0] in sources
    requires forall k: Kernel :: k in sources ==> k in closed
    requires forall a: Kernel, b: Kernel :: a in closed && Step(g, a, b) ==> b in closed
    ensures p[|p| - 1] in closed
    decreases |p|
  {
    if |p| > 1 {
      var q := p[..|p| - 1];
      assert forall i :: 0 <= i < |q| - 1 ==> Step(g, q[i], q[i + 1]) by {
        forall i | 0 <= i < |q| - 1
          ensures Step(g, q[i], q[i + 1])
        {
          assert q[i] == p[i] && q[i + 1] == p[i + 1];
        }
      }
      ClosedContainsPath(g, sources, q, closed);
      assert Step(g, p[|p| - 2], p[|p| - 1]);
    }
  }

  lemma ClosedContainsReachable(g: Graph, sources: seq<Kernel>, closed: set<Kernel>)
    requires forall k: Kernel :: k in sources ==> k in closed
    requires forall a: Kernel, b: Kernel :: a in closed && Step(g, a, b) ==> b in closed
    ensures forall k: Kernel :: Reachable(g, sources, k) ==> k in closed
  {
    forall k: Kernel | Reachable(g, sources, k)
      ensures k in closed
    {
      var p: seq<Kernel> :| PathTo(g, sources, p, k);
      ClosedContainsPath(g, sources, p, closed);
    }
  }

  // ---------------------------------------------------------------- traversal

  ghost function Kernels(n: nat): (r: set<Kernel>)
    ensures forall k: nat :: k in r <==> k < n
  {
    if n == 0 then {} else Kernels(n - 1) + {n - 1}
  }

  datatype BfsError = UnconnectedPort(kernel: Kernel, port: nat)

  /** Everything reachable is fully linked. */
  ghost predicate AllConnected(g: Graph, sources: seq<Kernel>) {
    forall k: Kernel :: Reachable(g, sources, k) ==> k < |g.out| && g.Connected(k)
  }

  ghost predicate Sources(g: Graph, sources: seq<Kernel>) {
    g.Valid() && Distinct(sources) && forall k: Kernel :: k in sources ==> k < |g.out|
  }

  /** Calls made so far: one for each linked port of each kernel in `done`. */
  ghost predicate CallsOf(g: Graph, calls: seq<Edge>, done: set<Kernel>) {
    Distinct(calls) && forall e :: e in calls <==> e.kernel in done && g.IsEdge(e)
  }

  /** The queue holds, once each, what has been seen and not yet been taken. */
  ghost predicate QueueInv(queue: seq<Option<Kernel>>, visited: set<Option<Kernel>>, done: set<Kernel>) {
    && Distinct(queue)
    && (forall x :: x in queue ==> x in visited)
    && (forall x :: x in visited && x.Some? ==> x.value in done || x in queue)
    && (forall k: Kernel :: k in done ==> Some(k) in visited && Some(k) !in queue)
    && (None in visited ==> None in queue)
  }

  /** What has been seen is reachable, and contains the neighbours of what has been taken. */
  ghost predicate FrontierInv(g: Graph, sources: seq<Kernel>, visited: set<Option<Kernel>>, done: set<Kernel>) {
    && (forall k: Kernel :: k in sources ==> Some(k) in visited)
    && (forall k: Kernel :: Some(k) in visited ==> k < |g.out| && Reachable(g, sources, k))
    && (forall a: Kernel, b: Kernel :: a in done && Step(g, a, b) ==> Some(b) in visited)
  }

  /** The null kernel is seen as soon as a kernel taken has an unlinked port. */
  ghost predicate SeenInv(g: Graph, sources: seq<Kernel>, visited: set<Option<Kernel>>, done: set<Kernel>) {
    && FrontierInv(g, sources, visited, done)
    && (forall k: Kernel :: k in done ==> k < |g.out| && (None !in visited ==> g.Connected(k)))
    && (None in visited ==> exists k: Kernel :: k in done && !g.Connected(k))
  }

  /** The state of the worklist between two kernels. */
  ghost predicate Worklist(g: Graph, sources: seq<Kernel>, queue: seq<Option<Kernel>>, visited: set<Option<Kernel>>,
                           done: set<Kernel>) {
    QueueInv(queue, visited, done) && SeenInv(g, sources, visited, done)
  }

  lemma DistinctJoin<T(!new)>(a: seq<T>, b: seq<T>)
    requires Distinct(a) && Distinct(b) && forall x :: x in b ==> x !in a
    ensures Distinct(a + b)
  {
    forall i, j | 0 <= i < j < |a + b|
      ensures (a + b)[i] != (a + b)[j]
    {
      if i < |a| <= j {
        assert b[j - |a|] in b;
      }
    }
  }

  lemma QueueStep(queue: seq<Option<Kernel>>, visited: set<Option<Kernel>>, done: set<Kernel>, k: Kernel,
                  found: seq<Option<Kernel>>, visited': set<Option<Kernel>>)
    requires QueueInv(queue, visited, done) && queue != [] && queue[0] == Some(k)
    requires Distinct(found) && visited' == visited + (set x | x in found) && forall x :: x in found ==> x !in visited
    ensures QueueInv(queue[1..] + found, visited', done + {k})
  {
    assert queue == [queue[0]] + queue[1..];
    var queue', done' := queue[1..] + found, done + {k};
    DistinctJoin(queue[1..], found);
    forall x | x in visited' && x.Some?
      ensures x.value in done' || x in queue'
    {
    }
    forall j: Kernel | j in done'
      ensures Some(j) in visited' && Some(j) !in queue'
    {
    }
  }

  lemma FrontierStep(g: Graph, sources: seq<Kernel>, visited: set<Option<Kernel>>, done: set<Kernel>, k: Kernel,
                     found: seq<Option<Kernel>>, visited': set<Option<Kernel>>)
    requires g.Valid() && FrontierInv(g, sources, visited, done) && Some(k) in visited
    requires visited' == visited + (set x | x in found)
    requires forall x :: x in found ==> x in g.out[k]
    requires forall x :: x in g.out[k] && x.Some? ==> x in visited'
    ensures FrontierInv(g, sources, visited', done + {k})
  {
    forall j: Kernel | Some(j) in visited'
      ensures j < |g.out| && Reachable(g, sources, j)
    {
      if Some(j) !in visited {
        StepReachable(g, sources, k, j);
      }
    }
  }

  lemma SeenStep(g: Graph, sources: seq<Kernel>, visited: set<Option<Kernel>>, done: set<Kernel>, k: Kernel,
                 found: seq<Option<Kernel>>, visited': set<Option<Kernel>>)
    requires g.Valid() && SeenInv(g, sources, visited, done) && Some(k) in visited
    requires visited' == visited + (set x | x in found) && forall x :: x in found <==> x in g.out[k] && x !in visited
    ensures SeenInv(g, sources, visited', done + {k})
  {
    FrontierStep(g, sources, visited, done, k, found, visited');
    if None !in visited' {
      assert forall i :: 0 <= i < |g.out[k]| ==> g.out[k][i] in visited';
    }
    if None in visited' && None !in visited {
      assert None in g.out[k];
      assert !g.Connected(k);
    }
  }

  /** What the ports add to the queue: each other end not seen before, once, the null kernel included. */
  ghost function Found(ports: seq<Option<Kernel>>, visited: set<Option<Kernel>>): seq<Option<Kernel>> {
    if ports == [] then []
    else
      var n := |ports| - 1;
      var front := Found(ports[..n], visited);
      if ports[n] in visited || ports[n] in front then front else front + [ports[n]]
  }

  /** The linked ports of a kernel, in port order. */
  ghost function EdgesAt(k: Kernel, ports: seq<Option<Kernel>>): seq<Edge> {
    if ports == [] then []
    else
      var n := |ports| - 1;
      EdgesAt(k, ports[..n]) + if ports[n].Some? then [Edge(k, n)] else []
  }

  ghost function EdgesOf(g: Graph, kernels: seq<Kernel>): seq<Edge> {
    if kernels == [] then []
    else
      var n := |kernels| - 1;
      EdgesOf(g, kernels[..n]) + if kernels[n] < |g.out| then EdgesAt(kernels[n], g.out[kernels[n]]) else []
  }

  /** The kernels in the order in which they are taken from the queue, up to the first null kernel. */
  ghost function Walk(g: Graph, queue: seq<Option<Kernel>>, visited: set<Option<Kernel>>, fuel: nat): seq<Kernel>
    decreases fuel
  {
    if fuel == 0 || queue == [] || queue[0].None? || queue[0].value >= |g.out| then []
    else
      var k := queue[0].value;
      var found := Found(g.out[k], visited);
      [k] + Walk(g, queue[1..] + found, visited + (set x | x in found), fuel - 1)
  }

  ghost function Queued(sources: seq<Kernel>): (r: seq<Option<Kernel>>)
    ensures |r| == |sources| && forall i :: 0 <= i < |r| ==> r[i] == Some(sources[i])
  {
    seq(|sources|, i requires 0 <= i < |sources| => Some(sources[i]))
  }

  ghost function Marked(sources: seq<Kernel>): (r: set<Option<Kernel>>)
    ensures forall x :: x in r <==> x.Some? && x.value in sources
  {
    set k | k in sources :: Some(k)
  }

  /** A walk from the sources; no kernel is taken twice, so there are at most as many steps as kernels. */
  ghost function WalkFrom(g: Graph, sources: seq<Kernel>): seq<Kernel> {
    Walk(g, Queued(sources), Marked(sources), |g.out|)
  }

  lemma {:induction false} FoundFacts(ports: seq<Option<Kernel>>, visited: set<Option<Kernel>>)
    ensures Distinct(Found(ports, visited))
    ensures forall x :: x in Found(ports, visited) <==> x in ports && x !in visited
  {
    if ports != [] {
      var n := |ports| - 1;
      FoundFacts(ports[..n], visited);
      assert ports == ports[..n] + [ports[n]];
    }
  }

  lemma {:induction false} EdgesAtFacts(k: Kernel, ports: seq<Option<Kernel>>)
    ensures Distinct(EdgesAt(k, ports))
    ensures forall e :: e in EdgesAt(k, ports) <==> e.kernel == k && e.port < |ports| && ports[e.port].Some?
  {
    if ports != [] {
      var n := |ports| - 1;
      var front, whole := EdgesAt(k, ports[..n]), EdgesAt(k, ports);
      assert whole == front + if ports[n].Some? then [Edge(k, n)] else [];
      EdgesAtFacts(k, ports[..n]);
      hide EdgesAt, Distinct;
      if ports[n].Some? {
        DistinctSnoc(front, Edge(k, n));
      }
      forall e: Edge
        ensures e in whole <==> e.kernel == k && e.port < |ports| && ports[e.port].Some?
      {
        assert e in whole <==> e in front || (ports[n].Some? && e == Edge(k, n));
        assert e.port < n ==> ports[..n][e.port] == ports[e.port];
      }
    }
  }

  /** The loop over the out-edges of one kernel. */
  method VisitPorts(g: Graph, k: Kernel, queue: seq<Option<Kernel>>, visited: set<Option<Kernel>>, calls: seq<Edge>,
                    connectedError: bool)
      returns (queue': seq<Option<Kernel>>, visited': set<Option<Kernel>>, calls': seq<Edge>, error: Option<BfsError>,
               ghost found: seq<Option<Kernel>>)
    requires k < |g.out|
    ensures error.Some? ==> connectedError && error.value.kernel == k && !g.Connected(k)
    ensures error.None? ==>
              && found == Found(g.out[k], visited)
              && queue' == queue + found && visited' == visited + (set x | x in found)
              && calls' == calls + EdgesAt(k, g.out[k])
              && (connectedError ==> g.Connected(k))
  {
    queue', visited', calls', error, found := queue, visited, calls, None, [];
    for i := 0 to |g.out[k]|
      invariant found == Found(g.out[k][..i], visited) && calls' == calls + EdgesAt(k, g.out[k][..i])
      invariant queue' == queue + found && visited' == visited + (set x | x in found)
      invariant connectedError ==> forall j :: 0 <= j < i ==> g.out[k][j].Some?
    {
      var other := g.out[k][i];
      assert g.out[k][..i + 1][..i] == g.out[k][..i];
      if other.Some? {
        calls' := calls' + [Edge(k, i)];
      } else if connectedError {
        error := Some(UnconnectedPort(k, i));
        return;
      }
      if other !in visited' {
        queue' := queue' + [other];
        visited' := visited' + {other};
        found := found + [other];
      }
    }
    assert g.out[k][..|g.out[k]|] == g.out[k];
  }

  /** The state of the traversal between two kernels, `done` of them taken from the queue so far. */
  ghost predicate Walking(g: Graph, sources: seq<Kernel>, queue: seq<Option<Kernel>>, visited: set<Option<Kernel>>,
                          calls: seq<Edge>, done: seq<Kernel>) {
    && |done| <= |g.out|
    && calls == EdgesOf(g, done)
    && WalkFrom(g, sources) == done + Walk(g, queue, visited, |g.out| - |done|)
  }

  lemma WalkingStarts(g: Graph, sources: seq<Kernel>, queue: seq<Option<Kernel>>, visited: set<Option<Kernel>>)
    requires |queue| == |sources| && forall i :: 0 <= i < |queue| ==> queue[i] == Some(sources[i])
    requires visited == set k | k in sources :: Some(k)
    ensures Walking(g, sources, queue, visited, [], [])
  {
    assert queue == Queued(sources) && visited == Marked(sources);
    var walk := WalkFrom(g, sources);
    assert [] + walk == walk;
  }

  lemma WalkingStep(g: Graph, sources: seq<Kernel>, queue: seq<Option<Kernel>>, visited: set<Option<Kernel>>,
                    calls: seq<Edge>, done: seq<Kernel>, k: Kernel)
    requires Walking(g, sources, queue, visited, calls, done) && queue != [] && queue[0] == Some(k)
    requires k < |g.out| && |done| < |g.out|
    ensures var found := Found(g.out[k], visited);
            Walking(g, sources, queue[1..] + found, visited + (set x | x in found), calls + EdgesAt(k, g.out[k]), done + [k])
  {
    hide Found, EdgesAt;
    assert (done + [k])[..|done|] == done;
  }

  lemma WalkingEnds(g: Graph, sources: seq<Kernel>, queue: seq<Option<Kernel>>, visited: set<Option<Kernel>>,
                    calls: seq<Edge>, done: seq<Kernel>)
    requires Walking(g, sources, queue, visited, calls, done) && (queue == [] || queue[0].None?)
    ensures calls == EdgesOf(g, WalkFrom(g, sources))
  {
    assert done + [] == done;
  }

  /** A kernel not yet taken leaves room for another step. */
  lemma RoomForOne(done: set<Kernel>, k: Kernel, n: nat)
    requires (forall j :: j in done ==> j < n) && k < n && k !in done
    ensures |done| < n
  {
    KernelsCount(n);
    SubsetSize(done + {k}, Kernels(n));
  }

  lemma {:induction false} KernelsCount(n: nat)
    ensures |Kernels(n)| == n
  {
    if n > 0 {
      KernelsCount(n - 1);
    }
  }

  lemma {:induction false} SubsetSize(a: set<Kernel>, b: set<Kernel>)
    requires a <= b
    ensures |a| <= |b|
  {
    if a != {} {
      var x :| x in a;
      SubsetSize(a - {x}, b - {x});
    }
  }

  /**
   * The traversal that calls a function on every edge; the calls are returned in order.
   * It terminates on every graph, cycles included.  The calls are the linked ports of the
   * kernels of the walk, which ends at the first null kernel taken.  Every edge called on
   * leaves a reachable kernel, and none is called on twice.  If everything reachable is
   * linked, the calls are exactly the edges of the reachable kernels.  With `connectedError`
   * the traversal succeeds exactly if everything reachable is linked.
   */
  method EdgeBfs(g: Graph, sources: seq<Kernel>, connectedError: bool)
      returns (r: Result<seq<Edge>, BfsError>, ghost reached: set<Kernel>)
    requires Sources(g, sources)
    ensures r.Ok? ==> r.value == EdgesOf(g, WalkFrom(g, sources))
    ensures r.Ok? ==> Distinct(r.value)
    ensures r.Ok? ==> forall e :: e in r.value ==> g.IsEdge(e) && Reachable(g, sources, e.kernel)
    ensures AllConnected(g, sources) ==>
              && r.Ok?
              && (forall k: Kernel :: k in reached <==> Reachable(g, sources, k))
              && (forall e :: e in r.value <==> g.IsEdge(e) && Reachable(g, sources, e.kernel))
    ensures connectedError ==> (r.Ok? <==> AllConnected(g, sources))
    ensures r.Err? ==> connectedError
  {
    hide Walk, EdgesOf, WalkFrom, Taking, AllConnected, Reachable, Sources;
    var queue := seq(|sources|, i requires 0 <= i < |sources| => Some(sources[i]));
    var visited := set k | k in sources :: Some(k);
    var calls := [];
    reached := {};
    ghost var done: seq<Kernel> := [];
    StartTaking(g, sources, queue, visited, connectedError);
    while |queue| > 0
      invariant Taking(g, sources, queue, visited, calls, reached, done, connectedError)
      decreases Kernels(|g.out|) - reached
    {
      var front := queue[0];
      if front.None? {
        break;
      }
      var k := front.value;
      TakingHead(g, sources, queue, visited, calls, reached, done, connectedError);
      var error;
      ghost var found;
      ghost var before, seen, called := queue, visited, calls;
      queue, visited, calls, error, found := VisitPorts(g, k, queue[1..], visited, calls, connectedError);
      if error.Some? {
        HeadReachable(g, sources, before, seen, called, reached, done, connectedError);
        return Err(error.value), reached;
      }
      TakingStep(g, sources, before, seen, called, reached, done, connectedError, found, calls);
      reached := reached + {k};
      done := done + [k];
    }
    EndTaking(g, sources, queue, visited, calls, reached, done, connectedError);
    r := Ok(calls);
  }

  /** Everything known between two kernels. */
  ghost predicate Taking(g: Graph, sources: seq<Kernel>, queue: seq<Option<Kernel>>, visited: set<Option<Kernel>>,
                         calls: seq<Edge>, reached: set<Kernel>, done: seq<Kernel>, connectedError: bool) {
    && g.Valid() && Worklist(g, sources, queue, visited, reached) && CallsOf(g, calls, reached)
    && Walking(g, sources, queue, visited, calls, done) && |done| == |reached|
    && (forall k: Kernel :: k in reached ==> k < |g.out|)
    && (connectedError ==> forall k: Kernel :: k in reached ==> g.Connected(k))
  }

  lemma StartTaking(g: Graph, sources: seq<Kernel>, queue: seq<Option<Kernel>>, visited: set<Option<Kernel>>, connectedError: bool)
    requires Sources(g, sources)
    requires |queue| == |sources| && forall i :: 0 <= i < |queue| ==> queue[i] == Some(sources[i])
    requires visited == set k | k in sources :: Some(k)
    ensures Taking(g, sources, queue, visited, [], {}, [], connectedError)
  {
    hide Walking;
    StartWorklist(g, sources, queue, visited);
    WalkingStarts(g, sources, queue, visited);
  }

  lemma TakingHead(g: Graph, sources: seq<Kernel>, queue: seq<Option<Kernel>>, visited: set<Option<Kernel>>,
                   calls: seq<Edge>, reached: set<Kernel>, done: seq<Kernel>, connectedError: bool)
    requires Taking(g, sources, queue, visited, calls, reached, done, connectedError) && queue != [] && queue[0].Some?
    ensures var k := queue[0].value; k < |g.out| && k !in reached && k in Kernels(|g.out|) && queue[0] in visited
    ensures Distinct(calls) && forall e :: e in calls ==> e.kernel != queue[0].value
  {
    hide Walking;
    assert queue[0] in queue;
  }

  lemma HeadReachable(g: Graph, sources: seq<Kernel>, queue: seq<Option<Kernel>>, visited: set<Option<Kernel>>,
                      calls: seq<Edge>, reached: set<Kernel>, done: seq<Kernel>, connectedError: bool)
    requires Taking(g, sources, queue, visited, calls, reached, done, connectedError) && queue != [] && queue[0].Some?
    requires queue[0].value < |g.out| && !g.Connected(queue[0].value)
    ensures !AllConnected(g, sources)
  {
    hide Walking;
    assert queue[0] in queue;
    assert Reachable(g, sources, queue[0].value);
  }

  lemma TakingStep(g: Graph, sources: seq<Kernel>, queue: seq<Option<Kernel>>, visited: set<Option<Kernel>>,
                   calls: seq<Edge>, reached: set<Kernel>, done: seq<Kernel>, connectedError: bool,
                   found: seq<Option<Kernel>>, calls': seq<Edge>)
    requires Taking(g, sources, queue, visited, calls, reached, done, connectedError) && queue != [] && queue[0].Some?
    requires var k := queue[0].value;
             && k < |g.out| && k !in reached && queue[0] in visited
             && found == Found(g.out[k], visited) && calls' == calls + EdgesAt(k, g.out[k])
             && (connectedError ==> g.Connected(k))
    ensures var k := queue[0].value;
            Taking(g, sources, queue[1..] + found, visited + (set x | x in found), calls', reached + {k}, done + [k], connectedError)
  {
    hide Walking, QueueInv, SeenInv, Found, EdgesAt, Distinct;
    var k := queue[0].value;
    var visited' := visited + (set x | x in found);
    RoomForOne(reached, k, |g.out|);
    WalkingStep(g, sources, queue, visited, calls, done, k);
    FoundFacts(g.out[k], visited);
    EdgesAtFacts(k, g.out[k]);
    DistinctJoin(calls, EdgesAt(k, g.out[k]));
    QueueStep(queue, visited, reached, k, found, visited');
    SeenStep(g, sources, visited, reached, k, found, visited');
  }

  lemma EndTaking(g: Graph, sources: seq<Kernel>, queue: seq<Option<Kernel>>, visited: set<Option<Kernel>>,
                  calls: seq<Edge>, reached: set<Kernel>, done: seq<Kernel>, connectedError: bool)
    requires Taking(g, sources, queue, visited, calls, reached, done, connectedError) && (queue == [] || queue[0].None?)
    ensures calls == EdgesOf(g, WalkFrom(g, sources)) && Distinct(calls)
    ensures forall e :: e in calls <==> e.kernel in reached && g.IsEdge(e)
    ensures forall k: Kernel :: k in reached ==> Reachable(g, sources, k)
    ensures AllConnected(g, sources) ==> forall k: Kernel :: Reachable(g, sources, k) ==> k in reached
    ensures connectedError ==> AllConnected(g, sources)
  {
    hide Walking;
    WalkingEnds(g, sources, queue, visited, calls, done);
    forall k: Kernel | k in reached
      ensures Reachable(g, sources, k)
    {
      assert Some(k) in visited;
    }
    if queue == [] {
      AllReached(g, sources, visited, reached);
    } else {
      assert queue[0] in queue;
      assert None in visited;
      var k: Kernel :| k in reached && !g.Connected(k);
    }
  }

  /** Kernel 0 has an unlinked port before the one that leads to kernel 1. */
  const GAP := Graph([[None, Some(1)], [Some(0)]])

  lemma GapPorts()
    ensures Found(GAP.out[0], {Some(0)}) == GAP.out[0] && EdgesAt(0, GAP.out[0]) == [Edge(0, 1)]
  {
    var ports, none: seq<Option<Kernel>> := GAP.out[0], [None];
    assert ports[..1] == none && none[..0] == [];
    assert Found(none, {Some(0)}) == none && EdgesAt(0, none) == [];
  }

  lemma GapWalk()
    ensures WalkFrom(GAP, [0]) == [0]
  {
    hide Found, EdgesAt;
    GapPorts();
    var start := Queued([0]);
    assert start == [Some(0)] && Marked([0]) == {Some(0)};
    assert start[1..] + GAP.out[0] == GAP.out[0];
    var rest := Walk(GAP, GAP.out[0], {Some(0)} + (set x | x in GAP.out[0]), 1);
    assert rest == [];
    assert Walk(GAP, start, {Some(0)}, 2) == [0] + rest;
  }

  /** The walk ends at the null kernel: kernel 1 is reachable and linked, but the traversal never takes it. */
  lemma NullKernelEndsWalk()
    ensures Sources(GAP, [0]) && Reachable(GAP, [0], 1) && GAP.IsEdge(Edge(1, 0))
    ensures EdgesOf(GAP, WalkFrom(GAP, [0])) == [Edge(0, 1)]
  {
    hide Found, EdgesAt, Walk, WalkFrom;
    GapPorts();
    GapWalk();
    assert [0][..0] == [];
    SourceReachable(GAP, [0], 0);
    assert Step(GAP, 0, 1);
    StepReachable(GAP, [0], 0, 1);
  }

  lemma StartWorklist(g: Graph, sources: seq<Kernel>, queue: seq<Option<Kernel>>, visited: set<Option<Kernel>>)
    requires Sources(g, sources)
    requires |queue| == |sources| && forall i :: 0 <= i < |queue| ==> queue[i] == Some(sources[i])
    requires visited == set k | k in sources :: Some(k)
    ensures Worklist(g, sources, queue, visited, {})
  {
    forall k | k in sources
      ensures Some(k) in queue && Reachable(g, sources, k)
    {
      var i :| 0 <= i < |sources| && sources[i] == k;
      assert queue[i] == Some(k);
      SourceReachable(g, sources, k);
    }
  }

  lemma FrontierReached(g: Graph, sources: seq<Kernel>, visited: set<Option<Kernel>>, done: set<Kernel>)
    requires QueueInv([], visited, done) && FrontierInv(g, sources, visited, done)
    ensures forall k: Kernel :: Reachable(g, sources, k) <==> k in done
  {
    ClosedContainsReachable(g, sources, done);
  }

  /** With the queue empty, the kernels done are all that are reachable. */
  lemma AllReached(g: Graph, sources: seq<Kernel>, visited: set<Option<Kernel>>, done: set<Kernel>)
    requires Worklist(g, sources, [], visited, done)
    ensures forall k: Kernel :: Reachable(g, sources, k) <==> k in done
  {
    FrontierReached(g, sources, visited, done);
  }

  /**
   * The traversal that calls a function on every kernel.  Unlinked ports are skipped, so it
   * always visits exactly the reachable kernels, each once.
   */
  method VertexBfs(g: Graph, sources: seq<Kernel>) returns (calls: seq<Kernel>)
    requires Sources(g, sources)
    ensures Distinct(calls)
    ensures forall k: Kernel :: k in calls <==> Reachable(g, sources, k)
  {
    hide Sources, Visiting, Reachable, Worklist;
    var queue := seq(|sources|, i requires 0 <= i < |sources| => Some(sources[i]));
    var visited := set k | k in sources :: Some(k);
    calls := [];
    ghost var done := {};
    StartVisiting(g, sources, queue, visited);
    while |queue| > 0
      invariant Visiting(g, sources, queue, visited, calls, done)
      decreases Kernels(|g.out|) - done
    {
      VisitHead(g, sources, queue, visited, calls, done);
      var k := queue[0].value;
      ghost var before, seen := queue, visited;
      ghost var found;
      queue, visited, found := VisitChildren(g, k, queue[1..], visited);
      VisitStep(g, sources, before, seen, calls, done, found, visited);
      calls := calls + [k];
      assert k in Kernels(|g.out|) && k !in done;
      done := done + {k};
    }
    EndVisiting(g, sources, visited, calls, done);
  }

  /** The state of the visit between two kernels: unlinked ports leave no trace. */
  ghost predicate Visiting(g: Graph, sources: seq<Kernel>, queue: seq<Option<Kernel>>, visited: set<Option<Kernel>>,
                           calls: seq<Kernel>, done: set<Kernel>) {
    && QueueInv(queue, visited, done) && None !in visited && FrontierInv(g, sources, visited, done)
    && Distinct(calls) && forall k: Kernel :: k in calls <==> k in done
  }

  lemma StartVisiting(g: Graph, sources: seq<Kernel>, queue: seq<Option<Kernel>>, visited: set<Option<Kernel>>)
    requires Sources(g, sources)
    requires |queue| == |sources| && forall i :: 0 <= i < |queue| ==> queue[i] == Some(sources[i])
    requires visited == set k | k in sources :: Some(k)
    ensures Visiting(g, sources, queue, visited, [], {}) && g.Valid()
  {
    StartWorklist(g, sources, queue, visited);
  }

  lemma VisitHead(g: Graph, sources: seq<Kernel>, queue: seq<Option<Kernel>>, visited: set<Option<Kernel>>,
                  calls: seq<Kernel>, done: set<Kernel>)
    requires Visiting(g, sources, queue, visited, calls, done) && queue != []
    ensures queue[0].Some? && queue[0] in visited && queue[0].value < |g.out| && queue[0].value !in done
  {
    assert queue[0] in queue;
  }

  lemma VisitStep(g: Graph, sources: seq<Kernel>, queue: seq<Option<Kernel>>, visited: set<Option<Kernel>>,
                  calls: seq<Kernel>, done: set<Kernel>, found: seq<Option<Kernel>>, visited': set<Option<Kernel>>)
    requires Visiting(g, sources, queue, visited, calls, done) && queue != [] && g.Valid()
    requires queue[0].Some? && queue[0] in visited && queue[0].value < |g.out| && queue[0].value !in done
    requires visited' == visited + (set x | x in found) && Distinct(found)
    requires forall x :: x in found <==> x.Some? && x in g.out[queue[0].value] && x !in visited
    ensures var k := queue[0].value; Visiting(g, sources, queue[1..] + found, visited', calls + [k], done + {k})
  {
    var k := queue[0].value;
    QueueStep(queue, visited, done, k, found, visited');
    FrontierStep(g, sources, visited, done, k, found, visited');
    hide QueueInv, FrontierInv, Distinct;
    DistinctSnoc(calls, k);
  }

  lemma DistinctSnoc<T(!new)>(s: seq<T>, x: T)
    requires Distinct(s) && x !in s
    ensures Distinct(s + [x])
  {
  }

  lemma EndVisiting(g: Graph, sources: seq<Kernel>, visited: set<Option<Kernel>>, calls: seq<Kernel>, done: set<Kernel>)
    requires Visiting(g, sources, [], visited, calls, done)
    ensures Distinct(calls) && forall k: Kernel :: k in calls <==> Reachable(g, sources, k)
  {
    FrontierReached(g, sources, visited, done);
  }

  method VisitChildren(g: Graph, k: Kernel, queue: seq<Option<Kernel>>, visited: set<Option<Kernel>>)
      returns (queue': seq<Option<Kernel>>, visited': set<Option<Kernel>>, ghost found: seq<Option<Kernel>>)
    requires k < |g.out|
    ensures queue' == queue + found && visited' == visited + (set x | x in found)
    ensures Distinct(found) && forall x :: x in found <==> x.Some? && x in g.out[k] && x !in visited
  {
    queue', visited', found := queue, visited, [];
    for i := 0 to |g.out[k]|
      invariant queue' == queue + found && visited' == visited + (set x | x in found)
      invariant Distinct(found)
      invariant forall x :: x in found <==> x.Some? && x in g.out[k][..i] && x !in visited
    {
      var other := g.out[k][i];
      assert g.out[k][..i + 1] == g.out[k][..i] + [other];
      if other.Some? && other !in visited' {
        queue' := queue' + [other];
        visited' := visited' + {other};
        found := found + [other];
      }
    }
    assert g.out[k][..|g.out[k]|] == g.out[k];
  }
}
