/**
 * What the flags of a pair mean in a chain that `+=` has expanded: `<=` multiplies the kernels
 * by the output ports, `>=` leaves one kernel for each group, `>>` keeps their number.  The
 * links made are listed one by one.
 */
module ChainFlags {
  import opened Wrappers
  import opened Topology
  import opened Chains
  import opened ChainPlans

  // ---------------------------------------------------------------- lists of links

  /** The place of column `q` of row `j` when rows of `m` are listed one after the other. */
  function Place(j: nat, m: nat, q: nat): nat {
    j * m + q
  }

  lemma OneMore(n: nat, m: nat)
    ensures (n + 1) * m == n * m + m
  {
  }

  lemma {:induction false} RowBound(j: nat, n: nat, m: nat)
    ensures j < n ==> j * m + m <= n * m
  {
    if j < n {
      RowBound(j, n - 1, m);
      OneMore(n - 1, m);
    }
  }

  /** The link at row `j`, column `q` of a split goes from port `q` of kernel `j` to kernel `q` of group `j`. */
  lemma {:induction false} SplitLinksAt(srcs: seq<Kernel>, ports: seq<Name>, groups: Groups, dstName: Option<Name>, j: nat, q: nat)
    requires |groups| <= |srcs| && forall g :: 0 <= g < |groups| ==> |groups[g]| == |ports|
    ensures |SplitLinks(srcs, ports, groups, dstName)| == Place(|groups|, |ports|, 0)
    ensures j < |groups| && q < |ports| ==>
              && Place(j, |ports|, q) < Place(|groups|, |ports|, 0)
              && SplitLinks(srcs, ports, groups, dstName)[Place(j, |ports|, q)] == Link(srcs[j], Some(ports[q]), groups[j][q], dstName)
  {
    if groups != [] {
      var n, m := |groups| - 1, |ports|;
      SplitLinksAt(srcs, ports, groups[..n], dstName, j, q);
      RowBound(j, n, m);
      RowBound(j, n + 1, m);
      OneMore(n, m);
    }
  }

  /** The link at row `g`, column `q` of a join goes from kernel `q` of group `g` to port `q` of destination `g`. */
  lemma {:induction false} JoinLinksAt(groups: Groups, srcName: Option<Name>, dsts: seq<Kernel>, ports: seq<Name>, g: nat, q: nat)
    requires |dsts| <= |groups| && forall h :: 0 <= h < |groups| ==> |ports| <= |groups[h]|
    ensures |JoinLinks(groups, srcName, dsts, ports)| == Place(|dsts|, |ports|, 0)
    ensures g < |dsts| && q < |ports| ==>
              && Place(g, |ports|, q) < Place(|dsts|, |ports|, 0)
              && JoinLinks(groups, srcName, dsts, ports)[Place(g, |ports|, q)] == Link(groups[g][q], srcName, dsts[g], Some(ports[q]))
  {
    if dsts != [] {
      var n, m := |dsts| - 1, |ports|;
      JoinLinksAt(groups, srcName, dsts[..n], ports, g, q);
      RowBound(g, n, m);
      RowBound(g, n + 1, m);
      OneMore(n, m);
    }
  }

  // ---------------------------------------------------------------- pairs

  /** What is known when pair `i` of a planned chain is expanded. */
  lemma PlannedPair(run: seq<Stage>, chain: seq<KPair>, plan: seq<Shape>, i: nat)
    requires Run(run, chain) && Planned(run[0], chain, plan) && i < |chain|
    ensures LinkType(chain[i]).Ok? && Fits(run[i], chain[i], LinkType(chain[i]).value, run[i + 1])
    ensures run[i + 1].links == run[i].links + StepLinks(run[i], chain[i], LinkType(chain[i]).value, run[i + 1])
    ensures Alike(run[i], chain[i].src) && Alike(run[i + 1], chain[i].dst)
    ensures chain[i].src in run[0].outPorts && chain[i].src in run[i].outPorts
            && run[i].outPorts[chain[i].src] == run[0].outPorts[chain[i].src]
    ensures chain[i].dst in run[0].inPorts && chain[i].dst in run[i].inPorts
            && run[i].inPorts[chain[i].dst] == run[0].inPorts[chain[i].dst]
  {
    RunFollowsPlan(run, chain, plan, i);
    RunFollowsPlan(run, chain, plan, i + 1);
    RunStep(run, chain, i);
    PlannedEnds(run[0], chain, plan, i);
    assert Node(chain, i + 1) == chain[i].dst;
    hide Run, Planned, Alike, Numbered, Grown, StepLinks, Fits;
  }

  lemma PlannedEnds(s0: Stage, chain: seq<KPair>, plan: seq<Shape>, i: nat)
    requires Planned(s0, chain, plan) && i < |chain| && LinkType(chain[i]).Ok?
    ensures chain[i].src in s0.outPorts && chain[i].dst in s0.inPorts && Node(chain, i) == chain[i].src
  {
    hide ShapeStep, Numbered;
    assert ShapeReady(plan[i], chain[i], LinkType(chain[i]).value, s0);
  }

  /**
   * `<=`: a group for every kernel, with a kernel for each of its output ports; that port of
   * the one is linked to the other, and to nothing else by this pair.
   */
  lemma SplitPair(run: seq<Stage>, chain: seq<KPair>, plan: seq<Shape>, i: nat, j: nat, q: nat)
    requires Run(run, chain) && Planned(run[0], chain, plan) && i < |chain| && chain[i].splitTo && !chain[i].joinFrom
    ensures chain[i].src in run[0].outPorts
    ensures var s, t, ports := run[i], run[i + 1], run[0].outPorts[chain[i].src];
            var kernels, n := Flat(s.groups), |t.groups|;
            && n == |kernels| && (forall g :: 0 <= g < n ==> |t.groups[g]| == |ports|)
            && |t.links| == |s.links| + Place(n, |ports|, 0) && t.links[..|s.links|] == s.links
            && (j < n && q < |ports| ==>
                  && Place(j, |ports|, q) < Place(n, |ports|, 0)
                  && t.links[|s.links| + Place(j, |ports|, q)] == Link(kernels[j], Some(ports[q]), t.groups[j][q], chain[i].dstName)
                  && (Distinct(ports) ==> LinkedOnce(t.links[|s.links|..], Output(kernels[j], ports[q]))))
  {
    PlannedPair(run, chain, plan, i);
    hide Run, Planned, LinkedOnce, StepLinks, Distinct, Alike, Flat, Fits, Place;
    SplitStage(run[i], chain[i], run[i + 1], j, q);
  }

  lemma SplitStage(s: Stage, p: KPair, t: Stage, j: nat, q: nat)
    requires Fits(s, p, Split, t) && t.links == s.links + StepLinks(s, p, Split, t) && Alike(s, p.src)
    ensures p.src in s.outPorts
    ensures var ports, kernels, n := s.outPorts[p.src], Flat(s.groups), |t.groups|;
            && n == |kernels| && (forall g :: 0 <= g < n ==> |t.groups[g]| == |ports|)
            && |t.links| == |s.links| + Place(n, |ports|, 0) && t.links[..|s.links|] == s.links
            && (j < n && q < |ports| ==>
                  && Place(j, |ports|, q) < Place(n, |ports|, 0)
                  && t.links[|s.links| + Place(j, |ports|, q)] == Link(kernels[j], Some(ports[q]), t.groups[j][q], p.dstName)
                  && (Distinct(ports) ==> LinkedOnce(t.links[|s.links|..], Output(kernels[j], ports[q]))))
  {
    var ports, kernels := s.outPorts[p.src], Flat(s.groups);
    var links := SplitLinks(kernels, ports, t.groups, p.dstName);
    assert Distinct(kernels) && |t.groups| == |kernels| && t.links == s.links + links;
    hide *;
    SplitLinksAt(kernels, ports, t.groups, p.dstName, j, q);
    if j < |t.groups| && q < |ports| && Distinct(ports) {
      SplitLinksOnce(kernels, ports, t.groups, p.dstName, j, q);
    }
    assert t.links[|s.links|..] == links;
  }

  /** `<=` multiplies the number of kernels by the number of output ports. */
  lemma SplitMultiplies(run: seq<Stage>, chain: seq<KPair>, plan: seq<Shape>, i: nat)
    requires Run(run, chain) && Planned(run[0], chain, plan) && i < |chain| && chain[i].splitTo && !chain[i].joinFrom
    ensures chain[i].src in run[0].outPorts
    ensures |Flat(run[i + 1].groups)| == |Flat(run[i].groups)| * |run[0].outPorts[chain[i].src]|
  {
    SplitPair(run, chain, plan, i, 0, 0);
    PlannedPair(run, chain, plan, i);
    var t, k := run[i + 1], |run[0].outPorts[chain[i].src]|;
    assert Flat(t.groups) != [];
    hide Run, Planned, LinkedOnce, Alike, Fits, StepLinks;
    if k > 0 {
      UniformSize(t.groups, k);
    } else {
      EmptyGroups(t.groups);
    }
  }

  lemma EmptyGroups(groups: Groups)
    requires forall g :: 0 <= g < |groups| ==> |groups[g]| == 0
    ensures Flat(groups) == []
  {
  }

  /**
   * `>=`: one kernel for every group; each of its input ports is linked to a kernel of the
   * group, in order, and to nothing else by this pair.
   */
  lemma JoinPair(run: seq<Stage>, chain: seq<KPair>, plan: seq<Shape>, i: nat, g: nat, q: nat)
    requires Run(run, chain) && Planned(run[0], chain, plan) && i < |chain| && chain[i].joinFrom && !chain[i].splitTo
    ensures chain[i].dst in run[0].inPorts
    ensures var s, t, ports := run[i], run[i + 1], run[0].inPorts[chain[i].dst];
            var joined, n := Flat(t.groups), |Flat(t.groups)|;
            && n == |s.groups| && (forall h :: 0 <= h < n ==> |ports| <= |s.groups[h]|)
            && |t.links| == |s.links| + Place(n, |ports|, 0) && t.links[..|s.links|] == s.links
            && (g < n && q < |ports| ==>
                  && Place(g, |ports|, q) < Place(n, |ports|, 0)
                  && t.links[|s.links| + Place(g, |ports|, q)] == Link(s.groups[g][q], chain[i].srcName, joined[g], Some(ports[q]))
                  && (Distinct(ports) ==> LinkedOnce(t.links[|s.links|..], Input(joined[g], ports[q]))))
  {
    PlannedPair(run, chain, plan, i);
    hide Run, Planned, LinkedOnce, StepLinks, Distinct, Alike, Flat, Fits, Place;
    JoinStage(run[i], chain[i], run[i + 1], g, q);
  }

  lemma JoinStage(s: Stage, p: KPair, t: Stage, g: nat, q: nat)
    requires Fits(s, p, Join, t) && t.links == s.links + StepLinks(s, p, Join, t) && Alike(t, p.dst)
    ensures p.dst in s.inPorts
    ensures var ports, joined, n := s.inPorts[p.dst], Flat(t.groups), |Flat(t.groups)|;
            && n == |s.groups| && (forall h :: 0 <= h < n ==> |ports| <= |s.groups[h]|)
            && |t.links| == |s.links| + Place(n, |ports|, 0) && t.links[..|s.links|] == s.links
            && (g < n && q < |ports| ==>
                  && Place(g, |ports|, q) < Place(n, |ports|, 0)
                  && t.links[|s.links| + Place(g, |ports|, q)] == Link(s.groups[g][q], p.srcName, joined[g], Some(ports[q]))
                  && (Distinct(ports) ==> LinkedOnce(t.links[|s.links|..], Input(joined[g], ports[q]))))
  {
    var ports, joined := s.inPorts[p.dst], Flat(t.groups);
    var links := JoinLinks(s.groups, p.srcName, joined, ports);
    assert Distinct(joined) && |joined| == |s.groups| && t.links == s.links + links;
    hide *;
    JoinLinksAt(s.groups, p.srcName, joined, ports, g, q);
    if g < |joined| && q < |ports| && Distinct(ports) {
      JoinLinksOnce(s.groups, p.srcName, joined, ports, g, q);
    }
    assert t.links[|s.links|..] == links;
  }

  /** `>>`: as many kernels in groups of the same sizes, and one link from each kernel to its successor. */
  lemma ContPair(run: seq<Stage>, chain: seq<KPair>, plan: seq<Shape>, i: nat)
    requires Run(run, chain) && Planned(run[0], chain, plan) && i < |chain| && !chain[i].splitTo && !chain[i].joinFrom
    ensures var s, t := run[i], run[i + 1];
            var kernels, next := Flat(s.groups), Flat(t.groups);
            && |t.groups| == |s.groups| && (forall g :: 0 <= g < |s.groups| ==> |t.groups[g]| == |s.groups[g]|)
            && |next| == |kernels| && |t.links| == |s.links| + |kernels| && t.links[..|s.links|] == s.links
            && forall j :: 0 <= j < |kernels| ==>
                 t.links[|s.links| + j] == Link(kernels[j], chain[i].srcName, next[j], chain[i].dstName)
  {
    PlannedPair(run, chain, plan, i);
    var s, t, p := run[i], run[i + 1], chain[i];
    assert Sources(p.src, Flat(s.groups)) == Flat(s.groups);
    assert StepLinks(s, p, Cont, t) == ContLinks(Flat(s.groups), p.srcName, Flat(t.groups), p.dstName);
    hide Run, Planned, Alike, Flat;
  }
}
