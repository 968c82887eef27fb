/**
 * Expanding a chain of kernel pairs into links: `>>`, `<=` and `>=` handled by
 * raft::map::operator+= with inline_cont, inline_split and inline_join (src/map.cpp).
 * Kernels are numbers; cloning one makes a fresh number with the same ports and no links.
 */
module Topology {
  import opened Wrappers

  type Kernel = nat
  type Name = nat

  /** One call of link; a missing port name is the null name. */
  datatype Link = Link(src: Kernel, srcPort: Option<Name>, dst: Kernel, dstPort: Option<Name>)

  datatype KPair = KPair(src: Kernel, srcName: Option<Name>, dst: Kernel, dstName: Option<Name>,
                         splitTo: bool, joinFrom: bool, srcOutCount: nat)

  datatype Kind = Split | Join | Cont

  datatype TopologyError = InvalidTopologyOperation

  /** Kernels in groups; a group holds what the outputs of one split kernel lead to. */
  type Groups = seq<seq<Kernel>>

  // ---------------------------------------------------------------- flat view

  ghost function Flat(groups: Groups): seq<Kernel> {
    if groups == [] then [] else Flat(groups[..|groups| - 1]) + groups[|groups| - 1]
  }

  lemma FlatSnoc(groups: Groups, group: seq<Kernel>)
    ensures Flat(groups + [group]) == Flat(groups) + group
  {
    assert (groups + [group])[..|groups|] == groups;
  }

  /** Putting a kernel at the end of the last group. */
  lemma FlatAppend(groups: Groups, k: Kernel)
    requires groups != []
    ensures var n := |groups| - 1; Flat(groups[n := groups[n] + [k]]) == Flat(groups) + [k]
  {
    var n := |groups| - 1;
    assert groups[n := groups[n] + [k]][..n] == groups[..n];
  }

  /** The original destination, then its clones in the order they are made. */
  ghost function Placed(dst: Kernel, base: nat, n: nat): (r: seq<Kernel>)
    ensures |r| == n
    ensures forall i :: 0 <= i < n ==> r[i] == if i == 0 then dst else base + i - 1
  {
    seq(n, i requires 0 <= i < n => if i == 0 then dst else base + i - 1)
  }

  lemma PlacedNext(dst: Kernel, base: nat, n: nat)
    ensures Placed(dst, base, n + 1) == Placed(dst, base, n) + [if n == 0 then dst else base + n - 1]
  {
  }

  lemma PlacedDistinct(dst: Kernel, base: nat, n: nat)
    requires dst < base
    ensures Distinct(Placed(dst, base, n))
  {
  }

  /** Every group holds `c` kernels, but the last may hold fewer; none is empty. */
  ghost predicate Chunked(groups: Groups, c: nat) {
    forall g :: 0 <= g < |groups| ==> 1 <= |groups[g]| <= c && (g < |groups| - 1 ==> |groups[g]| == c)
  }

  // ---------------------------------------------------------------- links made

  /** A continuation: one link per kernel. */
  ghost function ContLinks(srcs: seq<Kernel>, srcName: Option<Name>, dsts: seq<Kernel>, dstName: Option<Name>): (r: seq<Link>)
    requires |srcs| >= |dsts|
    ensures |r| == |dsts|
    ensures forall j :: 0 <= j < |r| ==> r[j] == Link(srcs[j], srcName, dsts[j], dstName)
  {
    seq(|dsts|, j requires 0 <= j < |dsts| => Link(srcs[j], srcName, dsts[j], dstName))
  }

  /** The links of one split kernel, in port order. */
  ghost function FanOut(src: Kernel, ports: seq<Name>, dsts: seq<Kernel>, dstName: Option<Name>): (r: seq<Link>)
    requires |dsts| <= |ports|
    ensures |r| == |dsts|
    ensures forall i :: 0 <= i < |r| ==> r[i] == Link(src, Some(ports[i]), dsts[i], dstName)
  {
    seq(|dsts|, i requires 0 <= i < |dsts| => Link(src, Some(ports[i]), dsts[i], dstName))
  }

  /** A split: every output port of every kernel. */
  ghost function SplitLinks(srcs: seq<Kernel>, ports: seq<Name>, groups: Groups, dstName: Option<Name>): seq<Link>
    requires |groups| <= |srcs| && forall g :: 0 <= g < |groups| ==> |groups[g]| <= |ports|
  {
    if groups == [] then []
    else
      var n := |groups| - 1;
      SplitLinks(srcs, ports, groups[..n], dstName) + FanOut(srcs[n], ports, groups[n], dstName)
  }

  /** The links into one join kernel, in port order. */
  ghost function FanIn(group: seq<Kernel>, srcName: Option<Name>, dst: Kernel, ports: seq<Name>, n: nat): (r: seq<Link>)
    requires n <= |ports| <= |group|
    ensures |r| == n
    ensures forall i :: 0 <= i < n ==> r[i] == Link(group[i], srcName, dst, Some(ports[i]))
  {
    seq(n, i requires 0 <= i < n => Link(group[i], srcName, dst, Some(ports[i])))
  }

  /** A join: every input port of every destination. */
  ghost function JoinLinks(groups: Groups, srcName: Option<Name>, dsts: seq<Kernel>, ports: seq<Name>): seq<Link>
    requires |dsts| <= |groups| && forall g :: 0 <= g < |groups| ==> |ports| <= |groups[g]|
  {
    if dsts == [] then []
    else
      var n := |dsts| - 1;
      JoinLinks(groups, srcName, dsts[..n], ports) + FanIn(groups[n], srcName, dsts[n], ports, |ports|)
  }

  /** One end of a link: an output port or an input port of a kernel, or whatever port of it that is. */
  datatype End =
    | Output(kernel: Kernel, port: Name)
    | Input(kernel: Kernel, port: Name)
    | AnyOutput(kernel: Kernel)
    | AnyInput(kernel: Kernel)

  predicate Uses(l: Link, e: End) {
    match e
    case Output(k, port) => l.src == k && l.srcPort == Some(port)
    case Input(k, port) => l.dst == k && l.dstPort == Some(port)
    case AnyOutput(k) => l.src == k
    case AnyInput(k) => l.dst == k
  }

  ghost predicate Unused(links: seq<Link>, e: End) {
    forall m :: 0 <= m < |links| ==> !Uses(links[m], e)
  }

  /** Exactly one link of the list uses the port. */
  ghost predicate LinkedOnce(links: seq<Link>, e: End) {
    exists m :: 0 <= m < |links| && Uses(links[m], e) && Unused(links[..m], e) && Unused(links[m + 1..], e)
  }

  lemma LinkedOnceAdd(a: seq<Link>, b: seq<Link>, e: End)
    requires (LinkedOnce(a, e) && Unused(b, e)) || (Unused(a, e) && LinkedOnce(b, e))
    ensures LinkedOnce(a + b, e)
  {
    var links := a + b;
    if LinkedOnce(a, e) && Unused(b, e) {
      var m :| 0 <= m < |a| && Uses(a[m], e) && Unused(a[..m], e) && Unused(a[m + 1..], e);
      assert links[..m] == a[..m] && links[m + 1..] == a[m + 1..] + b && links[m] == a[m];
    } else {
      var m :| 0 <= m < |b| && Uses(b[m], e) && Unused(b[..m], e) && Unused(b[m + 1..], e);
      var n := |a| + m;
      assert links[..n] == a + b[..m] && links[n + 1..] == b[m + 1..] && links[n] == b[m];
    }
  }

  lemma {:induction false} SplitLinkSources(srcs: seq<Kernel>, ports: seq<Name>, groups: Groups, dstName: Option<Name>, m: nat)
    requires |groups| <= |srcs| && forall g :: 0 <= g < |groups| ==> |groups[g]| <= |ports|
    requires m < |SplitLinks(srcs, ports, groups, dstName)|
    ensures SplitLinks(srcs, ports, groups, dstName)[m].src in srcs[..|groups|]
    ensures SplitLinks(srcs, ports, groups, dstName)[m].dst in Flat(groups)
  {
    var n := |groups| - 1;
    if m < |SplitLinks(srcs, ports, groups[..n], dstName)| {
      SplitLinkSources(srcs, ports, groups[..n], dstName, m);
      assert srcs[..n] <= srcs[..|groups|];
    } else {
      assert srcs[..|groups|][n] == srcs[n];
    }
  }

  /** Every output port of every split kernel is linked exactly once. */
  lemma {:induction false} SplitLinksOnce(srcs: seq<Kernel>, ports: seq<Name>, groups: Groups, dstName: Option<Name>, j: nat, i: nat)
    requires |groups| <= |srcs| && forall g :: 0 <= g < |groups| ==> |groups[g]| == |ports|
    requires Distinct(srcs) && Distinct(ports) && j < |groups| && i < |ports|
    ensures LinkedOnce(SplitLinks(srcs, ports, groups, dstName), Output(srcs[j], ports[i]))
  {
    var n := |groups| - 1;
    var e := Output(srcs[j], ports[i]);
    var front := SplitLinks(srcs, ports, groups[..n], dstName);
    var back := FanOut(srcs[n], ports, groups[n], dstName);
    if j < n {
      SplitLinksOnce(srcs, ports, groups[..n], dstName, j, i);
      assert Unused(back, e);
    } else {
      assert Uses(back[i], e) && Unused(back[..i], e) && Unused(back[i + 1..], e);
      forall m | 0 <= m < |front|
        ensures !Uses(front[m], e)
      {
        SplitLinkSources(srcs, ports, groups[..n], dstName, m);
      }
    }
    LinkedOnceAdd(front, back, e);
  }

  lemma {:induction false} JoinLinkTargets(groups: Groups, srcName: Option<Name>, dsts: seq<Kernel>, ports: seq<Name>, m: nat)
    requires |dsts| <= |groups| && forall g :: 0 <= g < |groups| ==> |ports| <= |groups[g]|
    requires m < |JoinLinks(groups, srcName, dsts, ports)|
    ensures JoinLinks(groups, srcName, dsts, ports)[m].dst in dsts
    ensures JoinLinks(groups, srcName, dsts, ports)[m].src in Flat(groups[..|dsts|])
  {
    var n := |dsts| - 1;
    assert groups[..n + 1][..n] == groups[..n];
    if m < |JoinLinks(groups, srcName, dsts[..n], ports)| {
      JoinLinkTargets(groups, srcName, dsts[..n], ports, m);
    }
  }

  /** Every input port of every join kernel is linked exactly once. */
  lemma {:induction false} JoinLinksOnce(groups: Groups, srcName: Option<Name>, dsts: seq<Kernel>, ports: seq<Name>, j: nat, i: nat)
    requires |dsts| <= |groups| && forall g :: 0 <= g < |groups| ==> |ports| <= |groups[g]|
    requires Distinct(dsts) && Distinct(ports) && j < |dsts| && i < |ports|
    ensures LinkedOnce(JoinLinks(groups, srcName, dsts, ports), Input(dsts[j], ports[i]))
  {
    var n := |dsts| - 1;
    var e := Input(dsts[j], ports[i]);
    var front := JoinLinks(groups, srcName, dsts[..n], ports);
    var back := FanIn(groups[n], srcName, dsts[n], ports, |ports|);
    if j < n {
      JoinLinksOnce(groups, srcName, dsts[..n], ports, j, i);
      assert Unused(back, e);
    } else {
      assert Uses(back[i], e) && Unused(back[..i], e) && Unused(back[i + 1..], e);
      forall m | 0 <= m < |front|
        ensures !Uses(front[m], e)
      {
        JoinLinkTargets(groups, srcName, dsts[..n], ports, m);
      }
    }
    LinkedOnceAdd(front, back, e);
  }

  /** A continuation takes one link from every kernel and brings one to every destination. */
  lemma ContLinksOnce(srcs: seq<Kernel>, srcName: Option<Name>, dsts: seq<Kernel>, dstName: Option<Name>, j: nat)
    requires |srcs| == |dsts| && Distinct(srcs) && Distinct(dsts) && j < |dsts|
    ensures var links := ContLinks(srcs, srcName, dsts, dstName);
            LinkedOnce(links, AnyOutput(srcs[j])) && LinkedOnce(links, AnyInput(dsts[j]))
  {
    var links := ContLinks(srcs, srcName, dsts, dstName);
    forall e | e == AnyOutput(srcs[j]) || e == AnyInput(dsts[j])
      ensures LinkedOnce(links, e)
    {
      assert Uses(links[j], e) && Unused(links[..j], e) && Unused(links[j + 1..], e);
    }
  }

  lemma DistinctParts<T(!new)>(a: seq<T>, b: seq<T>)
    requires Distinct(a + b)
    ensures Distinct(a) && Distinct(b) && forall x :: x in a ==> x !in b
  {
    assert forall i :: 0 <= i < |a| ==> (a + b)[i] == a[i];
    assert forall i :: 0 <= i < |b| ==> (a + b)[|a| + i] == b[i];
  }

  /** A split brings exactly one link to every destination. */
  lemma {:induction false} SplitFeedsOnce(srcs: seq<Kernel>, ports: seq<Name>, groups: Groups, dstName: Option<Name>, x: Kernel)
    requires |groups| <= |srcs| && forall g :: 0 <= g < |groups| ==> |groups[g]| <= |ports|
    requires Distinct(Flat(groups)) && x in Flat(groups)
    ensures LinkedOnce(SplitLinks(srcs, ports, groups, dstName), AnyInput(x))
  {
    var n := |groups| - 1;
    var e := AnyInput(x);
    var front := SplitLinks(srcs, ports, groups[..n], dstName);
    var back := FanOut(srcs[n], ports, groups[n], dstName);
    DistinctParts(Flat(groups[..n]), groups[n]);
    if x in groups[n] {
      var i :| 0 <= i < |groups[n]| && groups[n][i] == x;
      assert Uses(back[i], e) && Unused(back[..i], e) && Unused(back[i + 1..], e);
      forall m | 0 <= m < |front|
        ensures !Uses(front[m], e)
      {
        SplitLinkSources(srcs, ports, groups[..n], dstName, m);
      }
    } else {
      SplitFeedsOnce(srcs, ports, groups[..n], dstName, x);
      assert Unused(back, e);
    }
    LinkedOnceAdd(front, back, e);
  }

  /** A join on as many inputs as a group has kernels takes exactly one link from every kernel. */
  lemma {:induction false} JoinTakesOnce(groups: Groups, srcName: Option<Name>, dsts: seq<Kernel>, ports: seq<Name>, x: Kernel)
    requires |dsts| == |groups| && forall g :: 0 <= g < |groups| ==> |ports| == |groups[g]|
    requires Distinct(Flat(groups)) && x in Flat(groups)
    ensures LinkedOnce(JoinLinks(groups, srcName, dsts, ports), AnyOutput(x))
  {
    var n := |groups| - 1;
    var e := AnyOutput(x);
    JoinPrefix(groups, srcName, dsts[..n], ports);
    var front := JoinLinks(groups[..n], srcName, dsts[..n], ports);
    var back := FanIn(groups[n], srcName, dsts[n], ports, |ports|);
    DistinctParts(Flat(groups[..n]), groups[n]);
    if x in groups[n] {
      var i :| 0 <= i < |groups[n]| && groups[n][i] == x;
      assert Uses(back[i], e) && Unused(back[..i], e) && Unused(back[i + 1..], e);
      assert groups[..n][..n] == groups[..n];
      forall m | 0 <= m < |front|
        ensures !Uses(front[m], e)
      {
        JoinLinkTargets(groups[..n], srcName, dsts[..n], ports, m);
      }
    } else {
      JoinTakesOnce(groups[..n], srcName, dsts[..n], ports, x);
      assert Unused(back, e);
    }
    LinkedOnceAdd(front, back, e);
  }

  lemma {:induction false} JoinPrefix(groups: Groups, srcName: Option<Name>, dsts: seq<Kernel>, ports: seq<Name>)
    requires |dsts| <= |groups| && forall g :: 0 <= g < |groups| ==> |ports| <= |groups[g]|
    ensures JoinLinks(groups, srcName, dsts, ports) == JoinLinks(groups[..|dsts|], srcName, dsts, ports)
    decreases |dsts|
  {
    if dsts != [] {
      var n := |dsts| - 1;
      JoinPrefix(groups, srcName, dsts[..n], ports);
      JoinPrefix(groups[..n + 1], srcName, dsts[..n], ports);
      assert groups[..n + 1][..n] == groups[..n];
    }
  }

  // ---------------------------------------------------------------- kernels

  /** `t` is `s` with the kernels from `base` up to `next` added, all with the ports `shape`. */
  ghost predicate Grown(s: map<Kernel, seq<Name>>, t: map<Kernel, seq<Name>>, base: nat, next: nat, shape: seq<Name>) {
    && (forall k :: k in s ==> k in t && t[k] == s[k])
    && (forall k: nat :: base <= k < next ==> k in t && t[k] == shape)
    && (forall k :: k in t ==> k in s || base <= k < next)
  }

  /** The ports of every kernel, the next fresh kernel, and the links made so far. */
  class Expansion {
    var outPorts: map<Kernel, seq<Name>>
    var inPorts: map<Kernel, seq<Name>>
    var nextId: nat
    var links: seq<Link>

    ghost predicate Valid()
      reads this
    {
      outPorts.Keys == inPorts.Keys && forall k :: k in outPorts ==> k < nextId
    }

    constructor (outPorts: map<Kernel, seq<Name>>, inPorts: map<Kernel, seq<Name>>, nextId: nat)
      requires outPorts.Keys == inPorts.Keys && forall k :: k in outPorts ==> k < nextId
      ensures Valid() && links == [] && this.outPorts == outPorts && this.inPorts == inPorts && this.nextId == nextId
    {
      this.outPorts := outPorts;
      this.inPorts := inPorts;
      this.nextId := nextId;
      links := [];
    }

    method Clone(k: Kernel) returns (c: Kernel)
      requires Valid() && k in outPorts
      modifies this`outPorts, this`inPorts, this`nextId
      ensures Valid() && c == old(nextId) && nextId == c + 1
      ensures Grown(old(outPorts), outPorts, c, nextId, old(outPorts)[k])
      ensures Grown(old(inPorts), inPorts, c, nextId, old(inPorts)[k])
    {
      c := nextId;
      outPorts := outPorts[c := outPorts[k]];
      inPorts := inPorts[c := inPorts[k]];
      nextId := nextId + 1;
    }

    method JoinK(l: Link)
      modifies this`links
      ensures links == old(links) + [l]
    {
      links := links + [l];
    }

    /**
     * The state in the middle of an operation that has placed `n` kernels: the pair's own
     * destination first, then clones of it, which are numbered in order.
     */
    ghost predicate Placing(dst: Kernel, base: nat, n: nat, out0: map<Kernel, seq<Name>>, in0: map<Kernel, seq<Name>>)
      reads this
    {
      && Valid() && dst in out0 && dst in in0 && dst < base
      && nextId == base + (if n == 0 then 0 else n - 1)
      && Grown(out0, outPorts, base, nextId, out0[dst]) && Grown(in0, inPorts, base, nextId, in0[dst])
    }

    /** The pair's destination for the first kernel, else a clone of the last destination. */
    method NextDst(isFirst: bool, last: Kernel, ghost dst: Kernel, ghost base: nat, ghost n: nat,
                   ghost out0: map<Kernel, seq<Name>>, ghost in0: map<Kernel, seq<Name>>) returns (d: Kernel)
      requires Placing(dst, base, n, out0, in0) && (isFirst <==> n == 0)
      requires last == if n <= 1 then dst else base + n - 2
      modifies this`outPorts, this`inPorts, this`nextId
      ensures Placing(dst, base, n + 1, out0, in0)
      ensures d == (if n == 0 then dst else base + n - 1)
      ensures d in inPorts && dst in in0 && inPorts[d] == in0[dst]
    {
      if isFirst {
        d := last;
      } else {
        d := Clone(last);
      }
    }

    /**
     * The state of a continuation that has linked the kernels `srcs`: `src` and `dst` are the
     * current fields of the pair, `temp` the destinations so far.
     */
    ghost predicate Continuing(pair: KPair, srcs: seq<Kernel>, temp: Groups, src: Kernel, dst: Kernel, base: nat,
                               links0: seq<Link>, out0: map<Kernel, seq<Name>>, in0: map<Kernel, seq<Name>>)
      reads this
    {
      var n := |srcs|;
      && Placing(pair.dst, base, n, out0, in0)
      && dst == (if n <= 1 then pair.dst else base + n - 2) && (n == 0 ==> src == pair.src)
      && Flat(temp) == Placed(pair.dst, base, n)
      && links == links0 + ContLinks(Sources(pair.src, srcs), pair.srcName, Flat(temp), pair.dstName)
    }

    /** The body of both loops: link one kernel to the next destination. */
    method ContKernel(kernel: Kernel, pair: KPair, temp: Groups, src: Kernel, dst: Kernel, ghost srcs: seq<Kernel>,
                      ghost base: nat, ghost links0: seq<Link>,
                      ghost out0: map<Kernel, seq<Name>>, ghost in0: map<Kernel, seq<Name>>)
        returns (temp': Groups, src': Kernel, dst': Kernel)
      requires Continuing(pair, srcs, temp, src, dst, base, links0, out0, in0)
      requires temp != [] && (temp[0] == [] <==> srcs == [])
      modifies this
      ensures Continuing(pair, srcs + [kernel], temp', src', dst', base, links0, out0, in0)
      ensures var g := |temp| - 1; temp' == temp[g := temp[g] + [dst']]
    {
      var isFirst := |temp[0]| == 0;
      src' := if isFirst then src else kernel;
      dst' := NextDst(isFirst, dst, pair.dst, base, |srcs|, out0, in0);
      JoinK(Link(src', pair.srcName, dst', pair.dstName));
      FlatAppend(temp, dst');
      temp' := temp[|temp| - 1 := temp[|temp| - 1] + [dst']];
      PlacedNext(pair.dst, base, |srcs|);
      ContNext(pair, srcs, kernel, Flat(temp), src', dst');
    }

    /** `>>`: a destination for every kernel, in groups of the same sizes. */
    method InlineCont(groups: Groups, pair: KPair) returns (temp: Groups)
      requires Valid() && pair.dst in outPorts
      requires groups != [] && forall g :: 0 <= g < |groups| ==> groups[g] != []
      modifies this
      ensures Placing(pair.dst, old(nextId), |Flat(groups)|, old(outPorts), old(inPorts))
      ensures |temp| == |groups| && forall g :: 0 <= g < |groups| ==> |temp[g]| == |groups[g]|
      ensures Flat(temp) == Placed(pair.dst, old(nextId), |Flat(groups)|)
      ensures links == old(links) + ContLinks(Sources(pair.src, Flat(groups)), pair.srcName, Flat(temp), pair.dstName)
    {
      hide Placing, ContLinks, Sources, Placed;
      var src, dst := pair.src, pair.dst;
      ghost var base, out0, in0, links0 := nextId, outPorts, inPorts, links;
      temp := [];
      StartsContinuing(pair, base, links0, out0, in0);
      for g := 0 to |groups|
        invariant Continuing(pair, Flat(groups[..g]), temp, src, dst, base, links0, out0, in0)
        invariant |temp| == g && forall h :: 0 <= h < g ==> |temp[h]| == |groups[h]|
        invariant Flat(groups[..g]) == [] <==> g == 0
      {
        FlatSnoc(groups[..g], groups[g]);
        assert groups[..g + 1] == groups[..g] + [groups[g]];
        FlatSnoc(temp, []);
        temp := temp + [[]];
        ghost var srcs := Flat(groups[..g]);
        assert srcs + groups[g][..0] == srcs;
        for i := 0 to |groups[g]|
          invariant Continuing(pair, srcs + groups[g][..i], temp, src, dst, base, links0, out0, in0)
          invariant |temp| == g + 1 && |temp[g]| == i && forall h :: 0 <= h < g ==> |temp[h]| == |groups[h]|
        {
          temp, src, dst := ContKernel(groups[g][i], pair, temp, src, dst, srcs + groups[g][..i], base, links0, out0, in0);
          assert srcs + groups[g][..i + 1] == (srcs + groups[g][..i]) + [groups[g][i]];
        }
        assert groups[g][..|groups[g]|] == groups[g];
      }
      assert groups[..|groups|] == groups;
    }

    lemma StartsContinuing(pair: KPair, base: nat, links0: seq<Link>, out0: map<Kernel, seq<Name>>, in0: map<Kernel, seq<Name>>)
      requires Valid() && pair.dst in outPorts && base == nextId && links0 == links && out0 == outPorts && in0 == inPorts
      ensures Continuing(pair, [], [], pair.src, pair.dst, base, links0, out0, in0)
    {
    }

    /**
     * The state of a split that has made the groups `temp`, with `dst` the current field of
     * the pair; all kernels have the output ports `ports`.
     */
    ghost predicate Splitting(pair: KPair, ports: seq<Name>, links1: seq<Link>, temp: Groups, dst: Kernel, base: nat,
                              out0: map<Kernel, seq<Name>>, in0: map<Kernel, seq<Name>>)
      reads this
    {
      var n := |Flat(temp)|;
      && Placing(pair.dst, base, n, out0, in0)
      && dst == (if n <= 1 then pair.dst else base + n - 2)
      && Flat(temp) == Placed(pair.dst, base, n)
      && links == links1
    }

    /** One output port of a split kernel. */
    method SplitPort(kernel: Kernel, port: Name, isFirst: bool, pair: KPair, temp: Groups, dst: Kernel, ghost ports: seq<Name>,
                     ghost links1: seq<Link>, ghost base: nat,
                     ghost out0: map<Kernel, seq<Name>>, ghost in0: map<Kernel, seq<Name>>)
        returns (temp': Groups, dst': Kernel)
      requires temp != [] && Splitting(pair, ports, links1, temp, dst, base, out0, in0)
      requires isFirst <==> |Flat(temp)| == 0
      modifies this
      ensures var g := |temp| - 1; temp' == temp[g := temp[g] + [dst']]
      ensures |Flat(temp')| == |Flat(temp)| + 1
      ensures Splitting(pair, ports, links1 + [Link(kernel, Some(port), dst', pair.dstName)], temp', dst', base, out0, in0)
    {
      dst' := NextDst(isFirst, dst, pair.dst, base, |Flat(temp)|, out0, in0);
      FlatAppend(temp, dst');
      PlacedNext(pair.dst, base, |Flat(temp)|);
      temp' := temp[|temp| - 1 := temp[|temp| - 1] + [dst']];
      JoinK(Link(kernel, Some(port), dst', pair.dstName));
    }

    lemma SplitOpens(kernel: Kernel, pair: KPair, temp: Groups, dst: Kernel, ports: seq<Name>, links1: seq<Link>,
                     base: nat, out0: map<Kernel, seq<Name>>, in0: map<Kernel, seq<Name>>)
      requires Splitting(pair, ports, links1, temp, dst, base, out0, in0) && kernel in out0 && out0[kernel] == ports
      ensures kernel in outPorts && outPorts[kernel] == ports
      ensures links1 + FanOut(kernel, ports, [], pair.dstName) == links1
      ensures |Flat(temp + [[]])| == |Flat(temp)| && Splitting(pair, ports, links1, temp + [[]], dst, base, out0, in0)
      ensures temp == [] ==> |Flat(temp)| == 0
      ensures temp != [] && temp[0] != [] ==> |Flat(temp)| > 0
    {
      FlatSnoc(temp, []);
      assert Flat(temp) + [] == Flat(temp);
      FlatNonEmpty(temp);
    }

    /** One kernel of a split: a group with a destination for each output port. */
    method SplitKernel(kernel: Kernel, pair: KPair, temp: Groups, dst: Kernel, ghost ports: seq<Name>, ghost links1: seq<Link>,
                       ghost base: nat, ghost out0: map<Kernel, seq<Name>>, ghost in0: map<Kernel, seq<Name>>)
        returns (temp': Groups, dst': Kernel)
      requires Splitting(pair, ports, links1, temp, dst, base, out0, in0)
      requires kernel in out0 && out0[kernel] == ports && ports != [] && (temp == [] || temp[0] != [])
      modifies this
      ensures |temp'| == |temp| + 1 && temp'[..|temp|] == temp && |temp'[|temp|]| == |ports| && temp'[0] != []
      ensures Splitting(pair, ports, links1 + FanOut(kernel, ports, temp'[|temp|], pair.dstName), temp', dst', base, out0, in0)
    {
      hide Placing, Placed, FanOut, Flat, Splitting;
      SplitOpens(kernel, pair, temp, dst, ports, links1, base, out0, in0);
      temp', dst' := temp + [[]], dst;
      var isFirst := |temp'[0]| == 0;
      var portList := outPorts[kernel];
      var g := |temp|;
      for i := 0 to |portList|
        invariant |temp'| == g + 1 && temp'[..g] == temp && |temp'[g]| == i
        invariant |Flat(temp')| == |Flat(temp)| + i
        invariant Splitting(pair, ports, links1 + FanOut(kernel, ports, temp'[g], pair.dstName), temp', dst', base, out0, in0)
      {
        ghost var before, soFar := temp'[g], links1 + FanOut(kernel, ports, temp'[g], pair.dstName);
        temp', dst' := SplitPort(kernel, portList[i], isFirst && i == 0, pair, temp', dst', ports, soFar, base, out0, in0);
        FanOutNext(kernel, ports, before, dst', pair.dstName);
        assert soFar + [Link(kernel, Some(ports[i]), dst', pair.dstName)]
            == links1 + FanOut(kernel, ports, temp'[g], pair.dstName);
      }
    }

    /** The state of a split that has handled the first `n` of the kernels `all`. */
    ghost predicate SplitSoFar(pair: KPair, all: seq<Kernel>, n: nat, ports: seq<Name>, links0: seq<Link>, temp: Groups,
                               dst: Kernel, base: nat, out0: map<Kernel, seq<Name>>, in0: map<Kernel, seq<Name>>)
      reads this
    {
      && |temp| == n <= |all| && (forall h :: 0 <= h < n ==> |temp[h]| == |ports|)
      && Splitting(pair, ports, links0 + SplitLinks(all, ports, temp, pair.dstName), temp, dst, base, out0, in0)
    }

    method SplitOne(kernel: Kernel, pair: KPair, temp: Groups, dst: Kernel, ghost all: seq<Kernel>, ghost ports: seq<Name>,
                    ghost links0: seq<Link>, ghost base: nat, ghost out0: map<Kernel, seq<Name>>, ghost in0: map<Kernel, seq<Name>>)
        returns (temp': Groups, dst': Kernel)
      requires SplitSoFar(pair, all, |temp|, ports, links0, temp, dst, base, out0, in0) && ports != []
      requires |temp| < |all| && kernel == all[|temp|] && kernel in out0 && out0[kernel] == ports
      modifies this
      ensures |temp'| == |temp| + 1
      ensures SplitSoFar(pair, all, |temp'|, ports, links0, temp', dst', base, out0, in0)
    {
      hide Splitting, Flat, FanOut, SplitLinks;
      ghost var soFar := links0 + SplitLinks(all, ports, temp, pair.dstName);
      temp', dst' := SplitKernel(kernel, pair, temp, dst, ports, soFar, base, out0, in0);
      assert forall h :: 0 <= h < |temp| ==> temp'[h] == temp[h];
      SplitNext(all, ports, temp, temp', pair.dstName);
      assert soFar + FanOut(kernel, ports, temp'[|temp|], pair.dstName)
          == links0 + SplitLinks(all, ports, temp', pair.dstName);
    }

    /** `<=`: a destination for every output port of every kernel, one group for each kernel. */
    method InlineSplit(groups: Groups, pair: KPair, ghost ports: seq<Name>) returns (temp: Groups)
      requires Valid() && pair.dst in outPorts && ports != []
      requires forall k :: k in Flat(groups) ==> k in outPorts && outPorts[k] == ports
      modifies this
      ensures |temp| == |Flat(groups)| && forall g :: 0 <= g < |temp| ==> |temp[g]| == |ports|
      ensures Placing(pair.dst, old(nextId), |Flat(temp)|, old(outPorts), old(inPorts))
      ensures Flat(temp) == Placed(pair.dst, old(nextId), |Flat(temp)|)
      ensures links == old(links) + SplitLinks(Flat(groups), ports, temp, pair.dstName)
    {
      var dst := pair.dst;
      temp := [];
      ghost var base, out0, in0, links0 := nextId, outPorts, inPorts, links;
      ghost var all := Flat(groups);
      assert links0 + SplitLinks(all, ports, [], pair.dstName) == links0;
      assert SplitSoFar(pair, all, 0, ports, links0, temp, dst, base, out0, in0);
      assert |Flat(groups[..0])| == 0;
      hide Flat, SplitSoFar;
      for g := 0 to |groups|
        invariant |temp| == |Flat(groups[..g])|
        invariant SplitSoFar(pair, all, |temp|, ports, links0, temp, dst, base, out0, in0)
      {
        ghost var n := |temp|;
        FlatAt(groups, g);
        for i := 0 to |groups[g]|
          invariant |temp| == n + i
          invariant SplitSoFar(pair, all, |temp|, ports, links0, temp, dst, base, out0, in0)
        {
          assert all[n + i] == groups[g][i];
          temp, dst := SplitOne(groups[g][i], pair, temp, dst, all, ports, links0, base, out0, in0);
        }
      }
      assert groups[..|groups|] == groups;
      EndsSplitting(pair, all, ports, links0, temp, dst, base, out0, in0);
    }

    lemma EndsSplitting(pair: KPair, all: seq<Kernel>, ports: seq<Name>, links0: seq<Link>, temp: Groups, dst: Kernel, base: nat,
                        out0: map<Kernel, seq<Name>>, in0: map<Kernel, seq<Name>>)
      requires SplitSoFar(pair, all, |temp|, ports, links0, temp, dst, base, out0, in0)
      ensures Placing(pair.dst, base, |Flat(temp)|, out0, in0) && forall h :: 0 <= h < |temp| ==> |temp[h]| == |ports|
      ensures |temp| <= |all| && Flat(temp) == Placed(pair.dst, base, |Flat(temp)|)
      ensures links == links0 + SplitLinks(all, ports, temp, pair.dstName)
    {
    }

    /** The state of a join that has handled the first `n` groups. */
    ghost predicate Joining(pair: KPair, groups: Groups, n: nat, ports: seq<Name>, links0: seq<Link>, temp: Groups,
                            dst: Kernel, base: nat, out0: map<Kernel, seq<Name>>, in0: map<Kernel, seq<Name>>)
      reads this
    {
      && n <= |groups| && (forall g :: 0 <= g < |groups| ==> |ports| <= |groups[g]|)
      && Placing(pair.dst, base, n, out0, in0) && in0[pair.dst] == ports
      && dst == (if n <= 1 then pair.dst else base + n - 2)
      && Flat(temp) == Placed(pair.dst, base, n)
      && links == links0 + JoinLinks(groups, pair.srcName, Flat(temp), ports)
    }

    /** Link the kernels of a group to the input ports of one destination, in port order. */
    method JoinFunc(group: seq<Kernel>, srcName: Option<Name>, dst: Kernel)
      requires dst in inPorts && |inPorts[dst]| <= |group|
      modifies this`links
      ensures links == old(links) + FanIn(group, srcName, dst, inPorts[dst], |inPorts[dst]|)
    {
      var ports := inPorts[dst];
      for i := 0 to |ports|
        invariant links == old(links) + FanIn(group, srcName, dst, ports, i)
      {
        JoinK(Link(group[i], srcName, dst, Some(ports[i])));
        assert FanIn(group, srcName, dst, ports, i + 1)
            == FanIn(group, srcName, dst, ports, i) + [Link(group[i], srcName, dst, Some(ports[i]))];
      }
    }

    /** One group of a join: its own destination, linked to every kernel the inputs take. */
    method JoinGroup(group: seq<Kernel>, pair: KPair, temp: Groups, dst: Kernel, ghost groups: Groups, ghost n: nat,
                     ghost ports: seq<Name>, ghost links0: seq<Link>, ghost base: nat,
                     ghost out0: map<Kernel, seq<Name>>, ghost in0: map<Kernel, seq<Name>>)
        returns (temp': Groups, dst': Kernel)
      requires Joining(pair, groups, n, ports, links0, temp, dst, base, out0, in0)
      requires n < |groups| && group == groups[n] && temp != [] && (temp[0] == [] <==> n == 0)
      modifies this
      ensures Joining(pair, groups, n + 1, ports, links0, temp', dst', base, out0, in0)
      ensures var g := |temp| - 1; temp' == temp[g := temp[g] + [dst']]
    {
      hide Placed, JoinLinks, FanIn, Grown;
      dst' := NextDst(|temp[0]| == 0, dst, pair.dst, base, n, out0, in0);
      temp' := temp[|temp| - 1 := temp[|temp| - 1] + [dst']];
      FlatAppend(temp, dst');
      PlacedNext(pair.dst, base, n);
      JoinFunc(group, pair.srcName, dst');
      JoinNext(groups, pair.srcName, Flat(temp), dst', ports);
    }

    /** `>=`: one destination for every group; the open split's count says how many make a group. */
    method InlineJoin(groups: Groups, pair: KPair, splitCount: nat) returns (temp: Groups)
      requires Valid() && pair.dst in outPorts && splitCount > 0
      requires forall g :: 0 <= g < |groups| ==> |inPorts[pair.dst]| <= |groups[g]|
      modifies this
      ensures Chunked(temp, splitCount) && |Flat(temp)| == |groups|
      ensures Placing(pair.dst, old(nextId), |groups|, old(outPorts), old(inPorts))
      ensures Flat(temp) == Placed(pair.dst, old(nextId), |groups|)
      ensures links == old(links) + JoinLinks(groups, pair.srcName, Flat(temp), old(inPorts)[pair.dst])
    {
      var dst, count := pair.dst, 0;
      temp := [];
      ghost var base, out0, in0, links0, ports := nextId, outPorts, inPorts, links, inPorts[pair.dst];
      assert links0 + JoinLinks(groups, pair.srcName, [], ports) == links0;
      hide Placing, Placed, JoinLinks;
      for g := 0 to |groups|
        invariant Joining(pair, groups, g, ports, links0, temp, dst, base, out0, in0)
        invariant Chunked(temp, splitCount) && (temp == [] <==> g == 0)
        invariant count == if temp == [] then 0 else splitCount - |temp[|temp| - 1]|
      {
        if count == 0 {
          FlatSnoc(temp, []);
          assert Flat(temp) + [] == Flat(temp);
          temp := temp + [[]];
          count := splitCount;
        }
        temp, dst := JoinGroup(groups[g], pair, temp, dst, groups, g, ports, links0, base, out0, in0);
        count := count - 1;
      }
    }
  }

  lemma FlatNonEmpty(groups: Groups)
    ensures groups != [] && groups[0] != [] ==> Flat(groups) != []
  {
    if |groups| > 1 {
      FlatNonEmpty(groups[..|groups| - 1]);
    }
  }

  lemma {:induction false} FlatPrefix(groups: Groups, g: nat)
    requires g <= |groups|
    ensures Flat(groups[..g]) <= Flat(groups)
  {
    if g < |groups| {
      var n := |groups| - 1;
      FlatPrefix(groups[..n], g);
      assert groups[..n][..g] == groups[..g];
    } else {
      assert groups[..g] == groups;
    }
  }

  /** Where a group lies in the flat view. */
  lemma FlatAt(groups: Groups, g: nat)
    requires g < |groups|
    ensures |Flat(groups[..g + 1])| == |Flat(groups[..g])| + |groups[g]| <= |Flat(groups)|
    ensures forall i :: 0 <= i < |groups[g]| ==> Flat(groups)[|Flat(groups[..g])| + i] == groups[g][i]
  {
    FlatSnoc(groups[..g], groups[g]);
    assert groups[..g + 1] == groups[..g] + [groups[g]];
    FlatPrefix(groups, g + 1);
    var front := Flat(groups[..g]);
    assert forall i :: 0 <= i < |groups[g]| ==> (front + groups[g])[|front| + i] == groups[g][i];
  }

  lemma FanOutNext(src: Kernel, ports: seq<Name>, dsts: seq<Kernel>, dst: Kernel, dstName: Option<Name>)
    requires |dsts| < |ports|
    ensures FanOut(src, ports, dsts + [dst], dstName)
         == FanOut(src, ports, dsts, dstName) + [Link(src, Some(ports[|dsts|]), dst, dstName)]
  {
  }

  lemma SplitNext(srcs: seq<Kernel>, ports: seq<Name>, groups: Groups, groups': Groups, dstName: Option<Name>)
    requires |groups'| == |groups| + 1 <= |srcs| && groups'[..|groups|] == groups
    requires forall g :: 0 <= g < |groups'| ==> |groups'[g]| <= |ports|
    ensures forall g :: 0 <= g < |groups| ==> |groups[g]| <= |ports|
    ensures SplitLinks(srcs, ports, groups', dstName)
         == SplitLinks(srcs, ports, groups, dstName) + FanOut(srcs[|groups|], ports, groups'[|groups|], dstName)
  {
    assert forall g :: 0 <= g < |groups| ==> groups[g] == groups'[g];
  }

  lemma JoinNext(groups: Groups, srcName: Option<Name>, dsts: seq<Kernel>, dst: Kernel, ports: seq<Name>)
    requires |dsts| < |groups| && forall g :: 0 <= g < |groups| ==> |ports| <= |groups[g]|
    ensures JoinLinks(groups, srcName, dsts + [dst], ports)
         == JoinLinks(groups, srcName, dsts, ports) + FanIn(groups[|dsts|], srcName, dst, ports, |ports|)
  {
    assert (dsts + [dst])[..|dsts|] == dsts;
  }

  /** The pair's own source stands in for the first kernel. */
  ghost function Sources(src: Kernel, kernels: seq<Kernel>): (r: seq<Kernel>)
    ensures |r| == |kernels|
  {
    if kernels == [] then [] else [src] + kernels[1..]
  }

  lemma ContNext(pair: KPair, srcs: seq<Kernel>, k: Kernel, dsts: seq<Kernel>, src: Kernel, dst: Kernel)
    requires |srcs| == |dsts| && src == if srcs == [] then pair.src else k
    ensures ContLinks(Sources(pair.src, srcs + [k]), pair.srcName, dsts + [dst], pair.dstName)
         == ContLinks(Sources(pair.src, srcs), pair.srcName, dsts, pair.dstName) + [Link(src, pair.srcName, dst, pair.dstName)]
  {
    if srcs != [] {
      assert (srcs + [k])[1..] == srcs[1..] + [k];
    }
  }
}
