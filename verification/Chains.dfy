/**
 * Whole chains of kernel pairs: the loop of raft::map::operator+= (src/map.cpp), and what
 * nested splits, continuations and joins of one fan-out lead to.
 */
module Chains {
  import opened Wrappers
  import opened Topology

  /** What the loop holds between two pairs; `opens` are the port counts of the splits not yet joined. */
  datatype Stage = Stage(groups: Groups, opens: seq<nat>, outPorts: map<Kernel, seq<Name>>,
                         inPorts: map<Kernel, seq<Name>>, nextId: nat, links: seq<Link>)

  function LinkType(p: KPair): Result<Kind, TopologyError> {
    if p.splitTo && !p.joinFrom then Ok(Split)
    else if !p.splitTo && p.joinFrom then Ok(Join)
    else if !p.splitTo && !p.joinFrom then Ok(Cont)
    else Err(InvalidTopologyOperation)
  }

  // ---------------------------------------------------------------- one pair

  /** The links of one pair can be listed: the groups have the sizes they need. */
  ghost predicate Fits(s: Stage, p: KPair, kind: Kind, t: Stage) {
    match kind
    case Cont => |t.groups| == |s.groups| && |Flat(t.groups)| == |Flat(s.groups)|
                 && forall g :: 0 <= g < |s.groups| ==> |t.groups[g]| == |s.groups[g]|
    case Split => p.src in s.outPorts && |t.groups| == |Flat(s.groups)|
                  && forall g :: 0 <= g < |t.groups| ==> |t.groups[g]| == |s.outPorts[p.src]|
    case Join => p.dst in s.inPorts && s.opens != [] && Chunked(t.groups, s.opens[|s.opens| - 1])
                 && |Flat(t.groups)| == |s.groups|
                 && forall g :: 0 <= g < |s.groups| ==> |s.inPorts[p.dst]| <= |s.groups[g]|
  }

  ghost function StepLinks(s: Stage, p: KPair, kind: Kind, t: Stage): seq<Link>
    requires Fits(s, p, kind, t)
  {
    match kind
    case Cont => ContLinks(Sources(p.src, Flat(s.groups)), p.srcName, Flat(t.groups), p.dstName)
    case Split => SplitLinks(Flat(s.groups), s.outPorts[p.src], t.groups, p.dstName)
    case Join => JoinLinks(s.groups, p.srcName, Flat(t.groups), s.inPorts[p.dst])
  }

  function Opens(s: Stage, p: KPair, kind: Kind): seq<nat> {
    match kind
    case Cont => s.opens
    case Split => s.opens + [p.srcOutCount]
    case Join => if s.opens == [] then [] else s.opens[..|s.opens| - 1]
  }

  /** What one pair does: places kernels, and links the old groups to the new ones. */
  ghost predicate Expands(s: Stage, p: KPair, kind: Kind, t: Stage) {
    var n := |Flat(t.groups)|;
    && Fits(s, p, kind, t) && t.opens == Opens(s, p, kind)
    && p.dst in s.outPorts && p.dst in s.inPorts && p.dst < s.nextId
    && Flat(t.groups) == Placed(p.dst, s.nextId, n)
    && t.nextId == s.nextId + (if n == 0 then 0 else n - 1)
    && Grown(s.outPorts, t.outPorts, s.nextId, t.nextId, s.outPorts[p.dst])
    && Grown(s.inPorts, t.inPorts, s.nextId, t.nextId, s.inPorts[p.dst])
    && t.links == s.links + StepLinks(s, p, kind, t)
  }

  // ---------------------------------------------------------------- chains

  ghost predicate Run(run: seq<Stage>, chain: seq<KPair>)
    ensures Run(run, chain) ==> |run| == |chain| + 1
  {
    && |run| == |chain| + 1
    && forall i :: 0 <= i < |chain| ==> LinkType(chain[i]).Ok? && Expands(run[i], chain[i], LinkType(chain[i]).value, run[i + 1])
  }

  /** The kernel the i-th stage grew from: the first source, then each destination in turn. */
  function Node(chain: seq<KPair>, i: nat): Kernel
    requires i <= |chain| && chain != []
  {
    if i == 0 then chain[0].src else chain[i - 1].dst
  }

  /** Splits not yet joined after this much of the chain. */
  function Depth(chain: seq<KPair>): int {
    if chain == [] then 0
    else
      var n := |chain| - 1;
      Depth(chain[..n]) +
      (if chain[n].splitTo && !chain[n].joinFrom then 1 else if chain[n].joinFrom && !chain[n].splitTo then -1 else 0)
  }

  function Pow(k: nat, d: nat): nat {
    if d == 0 then 1 else Pow(k, d - 1) * k
  }

  /** A chain as the pair operators build it, with every join under an open split. */
  ghost predicate Chained(chain: seq<KPair>) {
    && chain != []
    && (forall i :: 0 < i < |chain| ==> chain[i].src == chain[i - 1].dst)
    && forall i :: 0 <= i <= |chain| ==> Depth(chain[..i]) >= 0
  }

  /** One fan-out: kernels that are split have `k` outputs, kernels joined to at most `k` inputs. */
  ghost predicate Uniform(chain: seq<KPair>, s: Stage, k: nat) {
    && k > 0
    && forall i :: 0 <= i < |chain| ==>
      && chain[i].src in s.outPorts && chain[i].dst in s.outPorts && chain[i].dst in s.inPorts
      && (chain[i].splitTo && !chain[i].joinFrom ==> |s.outPorts[chain[i].src]| == k == chain[i].srcOutCount)
      && (chain[i].joinFrom && !chain[i].splitTo ==> |s.inPorts[chain[i].dst]| <= k)
  }

  /** All kernels have numbers below the next fresh one. */
  ghost predicate Numbered(s: Stage) {
    s.outPorts.Keys == s.inPorts.Keys && forall k :: k in s.outPorts ==> k < s.nextId
  }

  ghost predicate Starts(s: Stage, chain: seq<KPair>, k: nat)
    ensures Starts(s, chain, k) ==> chain != []
  {
    && Chained(chain) && Numbered(s) && Uniform(chain, s, k)
    && s.groups == [[chain[0].src]] && s.opens == []
  }

  /** `d` splits deep: one kernel alone, or k^(d-1) groups of `k`. */
  ghost predicate Level(groups: Groups, k: nat, d: nat) {
    if d == 0 then |groups| == 1 && |groups[0]| == 1
    else |groups| == Pow(k, d - 1) && forall g :: 0 <= g < |groups| ==> |groups[g]| == k
  }

  /** The kernels of the stage are distinct, start with `first`, and all have its ports. */
  ghost predicate Alike(s: Stage, first: Kernel) {
    && first in s.outPorts && first in s.inPorts
    && Flat(s.groups) != [] && Flat(s.groups)[0] == first && Distinct(Flat(s.groups))
    && forall x :: x in Flat(s.groups) ==> x in s.outPorts && x in s.inPorts && s.outPorts[x] == s.outPorts[first] && s.inPorts[x] == s.inPorts[first]
  }

  // ---------------------------------------------------------------- shapes

  lemma {:induction false} PowPositive(k: nat, d: nat)
    requires k > 0
    ensures Pow(k, d) > 0
  {
    if d > 0 {
      PowPositive(k, d - 1);
    }
  }

  lemma {:induction false} FlatChunked(groups: Groups, k: nat)
    requires groups != [] && Chunked(groups, k)
    ensures |Flat(groups)| == (|groups| - 1) * k + |groups[|groups| - 1]|
  {
    var n := |groups| - 1;
    if n > 0 {
      FlatChunked(groups[..n], k);
    } else {
      assert groups[..0] == [];
    }
  }

  lemma MultipleBounds(z: int, k: nat)
    requires k > 0
    ensures z <= 0 ==> z * k <= 0
    ensures z >= 2 ==> z * k >= k + k
  {
    if z >= 2 {
      assert (z - 2) * k >= 0;
      assert z * k == (z - 2) * k + 2 * k;
    }
  }

  /** A whole number of groups' worth of kernels fills every group. */
  lemma ChunkedExact(groups: Groups, k: nat, m: nat)
    requires Chunked(groups, k) && k > 0 && |Flat(groups)| == m * k && groups != []
    ensures |groups| == m && forall g :: 0 <= g < m ==> |groups[g]| == k
  {
    FlatChunked(groups, k);
    hide Flat;
    var q, r := |groups| - 1, |groups[|groups| - 1]|;
    assert (m - q) * k == m * k - q * k == r;
    MultipleBounds(m - q, k);
  }

  lemma UniformSize(groups: Groups, k: nat)
    requires groups != [] && k > 0 && forall g :: 0 <= g < |groups| ==> |groups[g]| == k
    ensures |Flat(groups)| == |groups| * k
  {
    FlatChunked(groups, k);
    hide *;
    var n := |groups|;
    assert (n - 1) * k + k == n * k;
  }

  lemma LevelSize(groups: Groups, k: nat, d: nat)
    requires Level(groups, k, d) && k > 0
    ensures groups != [] && |Flat(groups)| == Pow(k, d)
    ensures forall g :: 0 <= g < |groups| ==> groups[g] != []
  {
    if d == 0 {
      assert groups[..0] == [];
    } else {
      PowPositive(k, d - 1);
      UniformSize(groups, k);
    }
  }

  /** One pair moves the shape one level down, one level up, or leaves it. */
  lemma StepLevel(s: Stage, p: KPair, kind: Kind, t: Stage, k: nat, d: nat)
    requires Fits(s, p, kind, t) && Level(s.groups, k, d) && k > 0
    requires kind.Split? ==> |s.outPorts[p.src]| == k
    requires kind.Join? ==> d > 0 && s.opens[|s.opens| - 1] == k
    ensures Level(t.groups, k, if kind.Split? then d + 1 else if kind.Join? then d - 1 else d)
  {
    LevelSize(s.groups, k, d);
    if kind.Join? {
      JoinLevel(t.groups, k, d);
    }
  }

  lemma JoinLevel(groups: Groups, k: nat, d: nat)
    requires Chunked(groups, k) && k > 0 && d > 0 && |Flat(groups)| == Pow(k, d - 1)
    ensures Level(groups, k, d - 1)
  {
    PowPositive(k, d - 1);
    assert groups != [];
    if d == 1 {
      FlatChunked(groups, k);
      MultipleBounds(|groups| - 1, k);
      assert |groups| == 2 ==> (|groups| - 1) * k == k;
    } else {
      ChunkedExact(groups, k, Pow(k, d - 2));
    }
  }

  /** The placed kernels are distinct, start with the pair's destination, and have its ports. */
  lemma StepAlike(s: Stage, p: KPair, kind: Kind, t: Stage)
    requires Expands(s, p, kind, t) && Numbered(s) && Flat(t.groups) != []
    ensures Alike(t, p.dst) && Numbered(t)
  {
    PlacedDistinct(p.dst, s.nextId, |Flat(t.groups)|);
  }

  ghost predicate Keeps(s: map<Kernel, seq<Name>>, t: map<Kernel, seq<Name>>) {
    forall x :: x in s ==> x in t && t[x] == s[x]
  }

  /** `d` open splits of `k` ports each; `first` is the source of the next pair. */
  ghost predicate GoodStage(s0: Stage, s: Stage, first: Kernel, k: nat, d: int) {
    && d >= 0 && Level(s.groups, k, d) && Alike(s, first) && Numbered(s)
    && |s.opens| == d && (forall j :: 0 <= j < d ==> s.opens[j] == k)
    && Keeps(s0.outPorts, s.outPorts) && Keeps(s0.inPorts, s.inPorts)
  }

  function DepthAfter(kind: Kind, d: int): int {
    if kind.Split? then d + 1 else if kind.Join? then d - 1 else d
  }

  lemma StepKeepsPorts(s0: Stage, s: Stage, p: KPair, kind: Kind, t: Stage)
    requires Expands(s, p, kind, t) && Keeps(s0.outPorts, s.outPorts) && Keeps(s0.inPorts, s.inPorts)
    ensures Keeps(s0.outPorts, t.outPorts) && Keeps(s0.inPorts, t.inPorts)
  {
  }

  lemma StepGood(s0: Stage, s: Stage, p: KPair, kind: Kind, t: Stage, k: nat, d: nat)
    requires Expands(s, p, kind, t) && GoodStage(s0, s, p.src, k, d) && k > 0 && DepthAfter(kind, d) >= 0
    requires kind.Split? ==> p.src in s0.outPorts && |s0.outPorts[p.src]| == k == p.srcOutCount
    ensures GoodStage(s0, t, p.dst, k, DepthAfter(kind, d))
  {
    StepKeepsPorts(s0, s, p, kind, t);
    hide Alike, Grown, Flat, Placed, StepLinks, Level, Pow, Numbered;
    StepLevel(s, p, kind, t, k, d);
    LevelSize(t.groups, k, DepthAfter(kind, d));
    PowPositive(k, DepthAfter(kind, d));
    StepAlike(s, p, kind, t);
  }

  /** What a uniform chain says of one pair. */
  lemma UniformPair(s: Stage, chain: seq<KPair>, k: nat, i: nat)
    requires Starts(s, chain, k) && i < |chain| && LinkType(chain[i]).Ok?
    ensures Node(chain, i) == chain[i].src && Node(chain, i + 1) == chain[i].dst && k > 0
    ensures var kind := LinkType(chain[i]).value;
            && Depth(chain[..i + 1]) == DepthAfter(kind, Depth(chain[..i])) >= 0
            && (kind.Split? ==> chain[i].src in s.outPorts && |s.outPorts[chain[i].src]| == k == chain[i].srcOutCount)
  {
    hide Numbered;
    assert chain[..i + 1][..i] == chain[..i];
  }

  /**
   * Whatever the chain, after any part of it the kernels are in the shape its nesting gives:
   * `d` open splits of fan-out `k` make k^(d-1) groups of `k`, none open one group of one. The
   * first kernel of the first group is the source the next pair names, all are distinct, and
   * all have that kernel's ports.
   */
  lemma {:induction false} ShapeFollowsNesting(run: seq<Stage>, chain: seq<KPair>, k: nat, i: nat)
    requires i <= |chain| && Run(run, chain) && Starts(run[0], chain, k)
    ensures GoodStage(run[0], run[i], Node(chain, i), k, Depth(chain[..i]))
  {
    if i == 0 {
      StartsGood(run[0], chain, k);
    } else {
      ShapeFollowsNesting(run, chain, k, i - 1);
      RunStep(run, chain, i - 1);
      UniformPair(run[0], chain, k, i - 1);
      hide *;
      StepGood(run[0], run[i - 1], chain[i - 1], LinkType(chain[i - 1]).value, run[i], k, Depth(chain[..i - 1]));
    }
  }

  lemma StartsGood(s: Stage, chain: seq<KPair>, k: nat)
    requires Starts(s, chain, k)
    ensures GoodStage(s, s, Node(chain, 0), k, Depth(chain[..0]))
  {
    assert s.groups[..0] == [];
    assert Flat(s.groups) == [chain[0].src];
  }

  lemma RunStep(run: seq<Stage>, chain: seq<KPair>, i: nat)
    requires Run(run, chain) && i < |chain|
    ensures LinkType(chain[i]).Ok? && Expands(run[i], chain[i], LinkType(chain[i]).value, run[i + 1])
  {
    hide Expands;
  }

  lemma SingleGroup(groups: Groups, k: nat)
    requires Level(groups, k, 0)
    ensures groups == [[Flat(groups)[0]]]
  {
    assert groups[..0] == [] && Flat(groups[..0]) == [];
    assert Flat(groups) == [] + groups[0] == groups[0] == [groups[0][0]];
  }

  /** When every split has been joined, one kernel is left: the destination of the last pair. */
  lemma BalancedChainReturns(run: seq<Stage>, chain: seq<KPair>, k: nat)
    requires Run(run, chain) && Starts(run[0], chain, k) && Depth(chain) == 0
    ensures run[|chain|].groups == [[chain[|chain| - 1].dst]]
  {
    ShapeFollowsNesting(run, chain, k, |chain|);
    assert chain[..|chain|] == chain;
    hide Expands, Uniform, Chained;
    SingleGroup(run[|chain|].groups, k);
  }
}
