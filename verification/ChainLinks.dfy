/**
 * The links a whole chain makes: every split output and every join input, and
 * every kernel placed, is linked exactly once.
 */
module ChainLinks {
  import opened Wrappers
  import opened Topology
  import opened Chains

  ghost function LinksOf(run: seq<Stage>, chain: seq<KPair>, i: nat): seq<Link>
    requires Run(run, chain) && i < |chain|
  {
    StepLinks(run[i], chain[i], LinkType(chain[i]).value, run[i + 1])
  }

  /** The links of the first `n` pairs, in the order they are made. */
  ghost function AllLinks(run: seq<Stage>, chain: seq<KPair>, n: nat): seq<Link>
    requires Run(run, chain) && n <= |chain|
  {
    if n == 0 then [] else AllLinks(run, chain, n - 1) + LinksOf(run, chain, n - 1)
  }

  /** The user's own kernels, one for each stage, are different. */
  ghost predicate NodesApart(chain: seq<KPair>)
    requires chain != []
  {
    forall i, j :: 0 <= i < j <= |chain| ==> Node(chain, i) != Node(chain, j)
  }

  /** No kernel declares two ports of one name. */
  ghost predicate PortsDistinct(s: Stage) {
    && (forall k :: k in s.outPorts ==> Distinct(s.outPorts[k]))
    && forall k :: k in s.inPorts ==> Distinct(s.inPorts[k])
  }

  lemma StepAddsLinks(run: seq<Stage>, chain: seq<KPair>, i: nat)
    requires Run(run, chain) && i < |chain|
    ensures run[i + 1].links == run[i].links + LinksOf(run, chain, i)
  {
    hide StepLinks, Fits, Grown, Flat;
    assert Expands(run[i], chain[i], LinkType(chain[i]).value, run[i + 1]);
  }

  lemma {:induction false} LinksAreAllLinks(run: seq<Stage>, chain: seq<KPair>, n: nat)
    requires Run(run, chain) && n <= |chain|
    ensures run[n].links == run[0].links + AllLinks(run, chain, n)
  {
    hide Run, LinksOf;
    if n > 0 {
      LinksAreAllLinks(run, chain, n - 1);
      StepAddsLinks(run, chain, n - 1);
    }
  }

  // ---------------------------------------------------------------- which kernels a stage holds

  lemma {:induction false} NumbersGrow(run: seq<Stage>, chain: seq<KPair>, i: nat, j: nat)
    requires Run(run, chain) && i <= j <= |chain|
    ensures run[i].nextId <= run[j].nextId
    decreases j
  {
    if i < j {
      NumbersGrow(run, chain, i, j - 1);
      hide Fits, Grown, StepLinks, Flat;
      assert Expands(run[j - 1], chain[j - 1], LinkType(chain[j - 1]).value, run[j]);
    }
  }

  /** A stage holds the user's kernel and clones made for that stage, nothing else. */
  lemma StageHolds(run: seq<Stage>, chain: seq<KPair>, k: nat, i: nat, x: Kernel)
    requires Run(run, chain) && i <= |chain| && Starts(run[0], chain, k) && x in Flat(run[i].groups)
    ensures x == Node(chain, i) || (i > 0 && run[0].nextId <= run[i - 1].nextId <= x < run[i].nextId)
  {
    if i == 0 {
      assert run[0].groups[..0] == [];
      assert Flat(run[0].groups) == [] + [chain[0].src];
    } else {
      NumbersGrow(run, chain, 0, i - 1);
      hide Fits, Grown, StepLinks, Flat;
      assert Expands(run[i - 1], chain[i - 1], LinkType(chain[i - 1]).value, run[i]);
    }
  }

  lemma NodesBelow(s: Stage, chain: seq<KPair>, k: nat, i: nat, j: nat)
    requires Starts(s, chain, k) && NodesApart(chain) && i < j <= |chain|
    ensures Node(chain, i) < s.nextId && Node(chain, j) < s.nextId && Node(chain, i) != Node(chain, j)
  {
  }

  lemma LaterStageApart(run: seq<Stage>, chain: seq<KPair>, k: nat, i: nat, j: nat, x: Kernel, y: Kernel)
    requires Run(run, chain) && i < j <= |chain| && Starts(run[0], chain, k) && NodesApart(chain)
    requires x in Flat(run[i].groups) && y in Flat(run[j].groups)
    ensures x != y
  {
    hide Run, Starts, NodesApart, Node, Flat;
    NodesBelow(run[0], chain, k, i, j);
    StageHolds(run, chain, k, i, x);
    StageHolds(run, chain, k, j, y);
    NumbersGrow(run, chain, i, j - 1);
  }

  lemma StagesApart(run: seq<Stage>, chain: seq<KPair>, k: nat, i: nat, j: nat, x: Kernel)
    requires Run(run, chain) && i <= |chain| && j <= |chain| && i != j && Starts(run[0], chain, k) && NodesApart(chain)
    requires x in Flat(run[i].groups)
    ensures x !in Flat(run[j].groups)
  {
    hide Run, Starts, NodesApart, Flat;
    if x in Flat(run[j].groups) {
      if i < j {
        LaterStageApart(run, chain, k, i, j, x, x);
      } else {
        LaterStageApart(run, chain, k, j, i, x, x);
      }
    }
  }

  // ---------------------------------------------------------------- ends of a pair's links

  /** The links of one pair run from the kernels of one stage to those of the next. */
  lemma StepEnds(s: Stage, p: KPair, kind: Kind, t: Stage, m: nat)
    requires Fits(s, p, kind, t) && m < |StepLinks(s, p, kind, t)| && Flat(s.groups) != [] && Flat(s.groups)[0] == p.src
    ensures var l := StepLinks(s, p, kind, t)[m]; l.src in Flat(s.groups) && l.dst in Flat(t.groups)
  {
    if kind.Cont? {
      assert Sources(p.src, Flat(s.groups)) == Flat(s.groups);
    } else if kind.Split? {
      SplitLinkSources(Flat(s.groups), s.outPorts[p.src], t.groups, p.dstName, m);
    } else {
      JoinLinkTargets(s.groups, p.srcName, Flat(t.groups), s.inPorts[p.dst], m);
      assert s.groups[..|s.groups|] == s.groups;
    }
  }

  /** The stage the kernel of an end belongs to, when pair `i` links it. */
  function EndStage(e: End, i: nat): nat {
    if e.Output? || e.AnyOutput? then i else i + 1
  }

  lemma UnusedElsewhere(run: seq<Stage>, chain: seq<KPair>, k: nat, i: nat, j: nat, e: End)
    requires Run(run, chain) && Starts(run[0], chain, k) && NodesApart(chain)
    requires i < |chain| && j < |chain| && i != j && e.kernel in Flat(run[EndStage(e, i)].groups)
    ensures Unused(LinksOf(run, chain, j), e)
  {
    ShapeFollowsNesting(run, chain, k, j);
    StagesApart(run, chain, k, EndStage(e, i), EndStage(e, j), e.kernel);
    assert chain[j].src == Node(chain, j);
    hide Starts, NodesApart, Flat, Grown;
    forall m | 0 <= m < |LinksOf(run, chain, j)|
      ensures !Uses(LinksOf(run, chain, j)[m], e)
    {
      StepEnds(run[j], chain[j], LinkType(chain[j]).value, run[j + 1], m);
    }
  }

  /** A port linked once by pair `i` is linked once by the whole chain. */
  lemma {:induction false} OnceInChain(run: seq<Stage>, chain: seq<KPair>, k: nat, i: nat, e: End, n: nat)
    requires Run(run, chain) && Starts(run[0], chain, k) && NodesApart(chain)
    requires i < |chain| && n <= |chain| && e.kernel in Flat(run[EndStage(e, i)].groups)
    requires LinkedOnce(LinksOf(run, chain, i), e)
    ensures if n <= i then Unused(AllLinks(run, chain, n), e) else LinkedOnce(AllLinks(run, chain, n), e)
  {
    hide Run, Starts, NodesApart, LinkedOnce, LinksOf, Flat;
    if n > 0 {
      OnceInChain(run, chain, k, i, e, n - 1);
      if n - 1 != i {
        UnusedElsewhere(run, chain, k, i, n - 1, e);
      }
      if n > i {
        LinkedOnceAdd(AllLinks(run, chain, n - 1), LinksOf(run, chain, n - 1), e);
      }
    }
  }

  /** Every output port of every kernel that is split is linked exactly once by the chain. */
  lemma SplitOutputsLinkedOnce(run: seq<Stage>, chain: seq<KPair>, k: nat, i: nat, x: Kernel, port: Name)
    requires Run(run, chain) && Starts(run[0], chain, k) && NodesApart(chain) && PortsDistinct(run[0])
    requires i < |chain| && chain[i].splitTo && !chain[i].joinFrom && x in Flat(run[i].groups)
    requires x in run[i].outPorts && port in run[i].outPorts[x]
    ensures run[|chain|].links == run[0].links + AllLinks(run, chain, |chain|)
    ensures LinkedOnce(AllLinks(run, chain, |chain|), Output(x, port))
  {
    ShapeFollowsNesting(run, chain, k, i);
    var s, t := run[i], run[i + 1];
    var ports := s.outPorts[chain[i].src];
    assert chain[i].src == Node(chain, i) && s.outPorts[x] == ports && ports == run[0].outPorts[chain[i].src];
    var j :| 0 <= j < |Flat(s.groups)| && Flat(s.groups)[j] == x;
    var q :| 0 <= q < |ports| && ports[q] == port;
    SplitLinksOnce(Flat(s.groups), ports, t.groups, chain[i].dstName, j, q);
    OnceInChain(run, chain, k, i, Output(x, port), |chain|);
    LinksAreAllLinks(run, chain, |chain|);
  }

  lemma JoinedPorts(run: seq<Stage>, chain: seq<KPair>, k: nat, i: nat, x: Kernel)
    requires Run(run, chain) && Starts(run[0], chain, k) && PortsDistinct(run[0])
    requires i < |chain| && x in Flat(run[i + 1].groups)
    ensures var dst := chain[i].dst;
            && dst in run[i].inPorts && x in run[i + 1].inPorts
            && run[i + 1].inPorts[x] == run[i].inPorts[dst] && Distinct(run[i].inPorts[dst])
  {
    PairFacts(run, chain, k, i);
    ShapeFollowsNesting(run, chain, k, i + 1);
    hide Fits, Flat, Level, Uniform, Chained;
    assert Node(chain, i + 1) == chain[i].dst;
  }

  /** Every input port of every kernel that is joined to is linked exactly once by the chain. */
  lemma JoinInputsLinkedOnce(run: seq<Stage>, chain: seq<KPair>, k: nat, i: nat, x: Kernel, port: Name)
    requires Run(run, chain) && Starts(run[0], chain, k) && NodesApart(chain) && PortsDistinct(run[0])
    requires i < |chain| && chain[i].joinFrom && !chain[i].splitTo && x in Flat(run[i + 1].groups)
    requires x in run[i + 1].inPorts && port in run[i + 1].inPorts[x]
    ensures run[|chain|].links == run[0].links + AllLinks(run, chain, |chain|)
    ensures LinkedOnce(AllLinks(run, chain, |chain|), Input(x, port))
  {
    hide Run, Starts, NodesApart, PortsDistinct, JoinLinks, Distinct, LinkedOnce, Flat, Level, Depth;
    PairFacts(run, chain, k, i);
    JoinedPorts(run, chain, k, i, x);
    var s, t := run[i], run[i + 1];
    var ports := s.inPorts[chain[i].dst];
    var j :| 0 <= j < |Flat(t.groups)| && Flat(t.groups)[j] == x;
    var q :| 0 <= q < |ports| && ports[q] == port;
    JoinLinksOnce(s.groups, chain[i].srcName, Flat(t.groups), ports, j, q);
    OnceInChain(run, chain, k, i, Input(x, port), |chain|);
    LinksAreAllLinks(run, chain, |chain|);
  }

  /** What is known when pair `i` is expanded. */
  lemma PairFacts(run: seq<Stage>, chain: seq<KPair>, k: nat, i: nat)
    requires Run(run, chain) && Starts(run[0], chain, k) && i < |chain|
    ensures LinkType(chain[i]).Ok? && Fits(run[i], chain[i], LinkType(chain[i]).value, run[i + 1])
    ensures Distinct(Flat(run[i].groups)) && Distinct(Flat(run[i + 1].groups))
    ensures Flat(run[i].groups) != [] && Flat(run[i].groups)[0] == chain[i].src
    ensures var d := Depth(chain[..i]);
            d >= 0 && Level(run[i].groups, k, d) && (LinkType(chain[i]) == Ok(Join) ==> d > 0)
    ensures var dst := chain[i].dst;
            dst in run[0].inPorts && dst in run[i].inPorts && run[i].inPorts[dst] == run[0].inPorts[dst]
  {
    ShapeFollowsNesting(run, chain, k, i);
    ShapeFollowsNesting(run, chain, k, i + 1);
    assert chain[..i + 1][..i] == chain[..i];
    assert Expands(run[i], chain[i], LinkType(chain[i]).value, run[i + 1]);
    assert Node(chain, i) == chain[i].src;
  }

  /** Every kernel placed by a split or a continuation has exactly one link into it. */
  lemma PlacedFedOnce(run: seq<Stage>, chain: seq<KPair>, k: nat, i: nat, x: Kernel)
    requires Run(run, chain) && Starts(run[0], chain, k) && NodesApart(chain)
    requires i < |chain| && !chain[i].joinFrom && x in Flat(run[i + 1].groups)
    ensures LinkedOnce(AllLinks(run, chain, |chain|), AnyInput(x))
  {
    hide Run, Starts, NodesApart, LinkedOnce, Fits, Distinct, Level;
    PairFacts(run, chain, k, i);
    StepFeeds(run[i], chain[i], LinkType(chain[i]).value, run[i + 1], x);
    OnceInChain(run, chain, k, i, AnyInput(x), |chain|);
  }

  lemma StepFeeds(s: Stage, p: KPair, kind: Kind, t: Stage, x: Kernel)
    requires Fits(s, p, kind, t) && !kind.Join? && x in Flat(t.groups) && Distinct(Flat(t.groups))
    requires Distinct(Flat(s.groups)) && Flat(s.groups) != [] && Flat(s.groups)[0] == p.src
    ensures LinkedOnce(StepLinks(s, p, kind, t), AnyInput(x))
  {
    hide LinkedOnce, Distinct;
    if kind.Cont? {
      assert Sources(p.src, Flat(s.groups)) == Flat(s.groups);
      var j :| 0 <= j < |Flat(t.groups)| && Flat(t.groups)[j] == x;
      ContLinksOnce(Flat(s.groups), p.srcName, Flat(t.groups), p.dstName, j);
    } else {
      SplitFeedsOnce(Flat(s.groups), s.outPorts[p.src], t.groups, p.dstName, x);
    }
  }

  /** Every kernel continued from, or joined on `k` inputs, has exactly one link out of it. */
  lemma ConsumedTakenOnce(run: seq<Stage>, chain: seq<KPair>, k: nat, i: nat, x: Kernel)
    requires Run(run, chain) && Starts(run[0], chain, k) && NodesApart(chain)
    requires i < |chain| && !chain[i].splitTo && x in Flat(run[i].groups)
    requires chain[i].joinFrom ==> |run[0].inPorts[chain[i].dst]| == k
    ensures LinkedOnce(AllLinks(run, chain, |chain|), AnyOutput(x))
  {
    hide Run, Starts, NodesApart, LinkedOnce, Fits, Distinct, Level;
    PairFacts(run, chain, k, i);
    StepTakes(run[i], chain[i], LinkType(chain[i]).value, run[i + 1], k, Depth(chain[..i]), x);
    OnceInChain(run, chain, k, i, AnyOutput(x), |chain|);
  }

  lemma StepTakes(s: Stage, p: KPair, kind: Kind, t: Stage, k: nat, d: nat, x: Kernel)
    requires Fits(s, p, kind, t) && !kind.Split? && x in Flat(s.groups) && Distinct(Flat(t.groups))
    requires Distinct(Flat(s.groups)) && Flat(s.groups) != [] && Flat(s.groups)[0] == p.src
    requires kind.Join? ==> d > 0 && Level(s.groups, k, d) && |s.inPorts[p.dst]| == k
    ensures LinkedOnce(StepLinks(s, p, kind, t), AnyOutput(x))
  {
    hide LinkedOnce, Distinct;
    if kind.Cont? {
      assert Sources(p.src, Flat(s.groups)) == Flat(s.groups);
      var j :| 0 <= j < |Flat(s.groups)| && Flat(s.groups)[j] == x;
      ContLinksOnce(Flat(s.groups), p.srcName, Flat(t.groups), p.dstName, j);
    } else {
      JoinTakesOnce(s.groups, p.srcName, Flat(t.groups), s.inPorts[p.dst], x);
    }
  }
}
