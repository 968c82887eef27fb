/**
 * The loop of raft::map::operator+= (src/map.cpp) on chains of any fan-outs. A plan says
 * beforehand which group sizes a chain leads to; a chain that has a plan is expanded exactly so.
 * Chains of one fan-out have one, and unequal nesting comes back to one kernel only sometimes.
 */
module ChainPlans {
  import opened Wrappers
  import opened Topology
  import opened Chains

  /** The sizes of the groups, and the port counts of the splits not yet joined. */
  datatype Shape = Shape(sizes: seq<nat>, opens: seq<nat>)

  ghost function Sum(sizes: seq<nat>): nat {
    if sizes == [] then 0 else Sum(sizes[..|sizes| - 1]) + sizes[|sizes| - 1]
  }

  ghost function SizesOf(groups: Groups): (r: seq<nat>)
    ensures |r| == |groups| && forall g :: 0 <= g < |r| ==> r[g] == |groups[g]|
  {
    seq(|groups|, g requires 0 <= g < |groups| => |groups[g]|)
  }

  lemma {:induction false} FlatSum(groups: Groups)
    ensures |Flat(groups)| == Sum(SizesOf(groups))
  {
    if groups != [] {
      var n := |groups| - 1;
      FlatSum(groups[..n]);
      assert SizesOf(groups)[..n] == SizesOf(groups[..n]);
    }
  }

  /** `total` things in groups of `c`, the last of which may be smaller. */
  ghost predicate Chunks(sizes: seq<nat>, c: nat, total: nat) {
    && (forall g :: 0 <= g < |sizes| ==> 1 <= sizes[g] <= c && (g < |sizes| - 1 ==> sizes[g] == c))
    && Sum(sizes) == total
  }

  lemma {:induction false} SumChunks(sizes: seq<nat>, c: nat)
    requires sizes != [] && forall g :: 0 <= g < |sizes| - 1 ==> sizes[g] == c
    ensures Sum(sizes) == (|sizes| - 1) * c + sizes[|sizes| - 1]
  {
    var n := |sizes| - 1;
    if n > 0 {
      SumChunks(sizes[..n], c);
      hide Sum;
      assert n * c == (n - 1) * c + c;
    } else {
      assert sizes[..0] == [];
    }
  }

  lemma ChunkCount(a: nat, b: nat, r: nat, t: nat, c: nat)
    requires a * c + r == b * c + t && 1 <= r <= c && 1 <= t <= c
    ensures a == b && r == t
  {
    assert (a - b) * c == a * c - b * c == t - r;
    if c > 0 {
      MultipleBounds(a - b, c);
      MultipleBounds(b - a, c);
      assert (b - a) * c == -((a - b) * c);
      OneMultiple(a - b, c);
    }
  }

  lemma OneMultiple(z: int, c: nat)
    ensures z == 1 ==> z * c == c
    ensures z == -1 ==> z * c == 0 - c
  {
  }

  lemma ChunksUnique(a: seq<nat>, b: seq<nat>, c: nat, total: nat)
    requires Chunks(a, c, total) && Chunks(b, c, total)
    ensures a == b
  {
    if a != [] && b != [] {
      SumChunks(a, c);
      SumChunks(b, c);
      hide Sum;
      ChunkCount(|a| - 1, |b| - 1, a[|a| - 1], b[|b| - 1], c);
    } else {
      EmptySum(a);
      EmptySum(b);
    }
  }

  lemma EmptySum(sizes: seq<nat>)
    requires forall g :: 0 <= g < |sizes| ==> 1 <= sizes[g]
    ensures sizes == [] <==> Sum(sizes) == 0
  {
  }

  // ---------------------------------------------------------------- plans

  /** What one pair makes of a shape. */
  ghost predicate ShapeStep(h: Shape, p: KPair, kind: Kind, ports: nat, h': Shape) {
    match kind
    case Cont => h' == h
    case Split => h'.opens == h.opens + [p.srcOutCount] && |h'.sizes| == Sum(h.sizes)
                  && forall g :: 0 <= g < |h'.sizes| ==> h'.sizes[g] == ports
    case Join => h.opens != [] && h'.opens == h.opens[..|h.opens| - 1]
                 && Chunks(h'.sizes, h.opens[|h.opens| - 1], |h.sizes|)
  }

  /** What the code takes for granted: split kernels have outputs, groups hold as many kernels as a join has inputs. */
  ghost predicate ShapeReady(h: Shape, p: KPair, kind: Kind, s0: Stage) {
    && p.src in s0.outPorts && p.dst in s0.outPorts && p.dst in s0.inPorts
    && match kind
       case Cont => true
       case Split => s0.outPorts[p.src] != [] && p.srcOutCount == |s0.outPorts[p.src]|
       case Join => h.opens != [] && h.opens[|h.opens| - 1] > 0
                    && forall g :: 0 <= g < |h.sizes| ==> |s0.inPorts[p.dst]| <= h.sizes[g]
  }

  ghost predicate Planned(s0: Stage, chain: seq<KPair>, plan: seq<Shape>)
    ensures Planned(s0, chain, plan) ==> chain != [] && |plan| == |chain| + 1 && plan[0] == Shape([1], [])
  {
    && chain != [] && (forall i :: 0 < i < |chain| ==> chain[i].src == chain[i - 1].dst)
    && chain[0].src in s0.outPorts && Numbered(s0) && s0.groups == [[chain[0].src]] && s0.opens == []
    && |plan| == |chain| + 1 && plan[0] == Shape([1], [])
    && forall i :: 0 <= i < |chain| && LinkType(chain[i]).Ok? ==>
         && ShapeReady(plan[i], chain[i], LinkType(chain[i]).value, s0)
         && ShapeStep(plan[i], chain[i], LinkType(chain[i]).value, |s0.outPorts[chain[i].src]|, plan[i + 1])
  }

  /** The stage has the planned shape; `first` is the source of the next pair. */
  ghost predicate Shaped(s0: Stage, s: Stage, first: Kernel, h: Shape) {
    && SizesOf(s.groups) == h.sizes && s.opens == h.opens
    && (forall g :: 0 <= g < |h.sizes| ==> 1 <= h.sizes[g])
    && Alike(s, first) && Numbered(s) && Keeps(s0.outPorts, s.outPorts) && Keeps(s0.inPorts, s.inPorts)
  }

  lemma SizesStep(s: Stage, p: KPair, kind: Kind, t: Stage, h: Shape, h': Shape, ports: nat)
    requires Fits(s, p, kind, t) && t.opens == Opens(s, p, kind) && SizesOf(s.groups) == h.sizes && s.opens == h.opens
    requires ShapeStep(h, p, kind, ports, h') && (kind.Split? ==> ports == |s.outPorts[p.src]|)
    ensures SizesOf(t.groups) == h'.sizes && t.opens == h'.opens
  {
    FlatSum(s.groups);
    FlatSum(t.groups);
    hide Sum, Flat;
    if kind.Join? {
      var c := s.opens[|s.opens| - 1];
      assert Chunks(SizesOf(t.groups), c, |s.groups|);
      ChunksUnique(SizesOf(t.groups), h'.sizes, c, |s.groups|);
    }
  }

  lemma StepShaped(s0: Stage, s: Stage, p: KPair, kind: Kind, t: Stage, h: Shape, h': Shape)
    requires Expands(s, p, kind, t) && Shaped(s0, s, p.src, h) && ShapeReady(h, p, kind, s0)
    requires ShapeStep(h, p, kind, |s0.outPorts[p.src]|, h')
    ensures Shaped(s0, t, p.dst, h')
  {
    StepKeepsPorts(s0, s, p, kind, t);
    SizesStep(s, p, kind, t, h, h', |s0.outPorts[p.src]|);
    FlatSum(s.groups);
    FlatSum(t.groups);
    EmptySum(h.sizes);
    EmptySum(h'.sizes);
    hide Alike, Grown, Flat, Placed, StepLinks, Numbered, Sum;
    assert |Flat(s.groups)| > 0 by { NotEmpty(s, p.src); }
    StepAlike(s, p, kind, t);
  }

  lemma NotEmpty(s: Stage, first: Kernel)
    requires Alike(s, first)
    ensures |Flat(s.groups)| > 0
  {
  }

  /** Any run of a planned chain has the planned sizes, throughout. */
  lemma {:induction false} RunFollowsPlan(run: seq<Stage>, chain: seq<KPair>, plan: seq<Shape>, i: nat)
    requires Run(run, chain) && Planned(run[0], chain, plan) && i <= |chain|
    ensures Shaped(run[0], run[i], Node(chain, i), plan[i])
  {
    if i == 0 {
      PlanStarts(run[0], chain, plan);
    } else {
      RunFollowsPlan(run, chain, plan, i - 1);
      assert Node(chain, i - 1) == chain[i - 1].src;
      hide Shaped, Expands, ShapeReady, ShapeStep, Numbered;
      StepShaped(run[0], run[i - 1], chain[i - 1], LinkType(chain[i - 1]).value, run[i], plan[i - 1], plan[i]);
    }
  }

  lemma PlanStarts(s0: Stage, chain: seq<KPair>, plan: seq<Shape>)
    requires Planned(s0, chain, plan)
    ensures Shaped(s0, s0, Node(chain, 0), plan[0])
  {
    assert s0.groups[..0] == [];
    assert Flat(s0.groups) == [chain[0].src];
  }

  // ---------------------------------------------------------------- one fan-out, and two

  ghost function LevelShape(k: nat, d: nat): Shape {
    Shape(if d == 0 then [1] else seq(Pow(k, d - 1), g => k), seq(d, j => k))
  }

  lemma LevelSum(k: nat, d: nat)
    requires k > 0
    ensures Sum(LevelShape(k, d).sizes) == Pow(k, d)
  {
    var sizes := LevelShape(k, d).sizes;
    if d == 0 {
      assert sizes[..0] == [];
    } else {
      PowPositive(k, d - 1);
      EqualSum(sizes, k);
    }
  }

  lemma EqualSum(sizes: seq<nat>, k: nat)
    requires sizes != [] && forall g :: 0 <= g < |sizes| ==> sizes[g] == k
    ensures Sum(sizes) == |sizes| * k
  {
    SumChunks(sizes, k);
    hide *;
    var n := |sizes|;
    assert (n - 1) * k + k == n * k;
  }

  lemma LevelStep(p: KPair, kind: Kind, k: nat, d: nat)
    requires k > 0 && DepthAfter(kind, d) >= 0 && (kind.Split? ==> p.srcOutCount == k)
    ensures ShapeStep(LevelShape(k, d), p, kind, k, LevelShape(k, DepthAfter(kind, d)))
  {
    LevelSum(k, d);
    if kind.Split? {
      assert LevelShape(k, d + 1).opens == LevelShape(k, d).opens + [k];
    } else if kind.Join? {
      LevelSum(k, d - 1);
      PowPositive(k, d - 1);
      assert LevelShape(k, d - 1).opens == LevelShape(k, d).opens[..d - 1];
    }
  }

  /** A chain of one fan-out, every join under an open split, has the plan its nesting gives. */
  lemma UniformIsPlanned(s0: Stage, chain: seq<KPair>, k: nat) returns (plan: seq<Shape>)
    requires Starts(s0, chain, k)
    ensures Planned(s0, chain, plan)
    ensures forall i :: 0 <= i <= |chain| ==> Depth(chain[..i]) >= 0 && plan[i] == LevelShape(k, Depth(chain[..i]))
  {
    plan := seq(|chain| + 1, i requires 0 <= i <= |chain| => LevelShape(k, Depth(chain[..i])));
    assert LevelShape(k, 0) == Shape([1], []);
    forall i | 0 <= i < |chain| && LinkType(chain[i]).Ok?
      ensures ShapeReady(plan[i], chain[i], LinkType(chain[i]).value, s0)
      ensures ShapeStep(plan[i], chain[i], LinkType(chain[i]).value, |s0.outPorts[chain[i].src]|, plan[i + 1])
    {
      LevelPlanned(s0, chain, k, i);
    }
  }

  lemma LevelPlanned(s0: Stage, chain: seq<KPair>, k: nat, i: nat)
    requires Starts(s0, chain, k) && i < |chain| && LinkType(chain[i]).Ok?
    ensures Depth(chain[..i]) >= 0 && Depth(chain[..i + 1]) >= 0
    ensures var h, h', kind := LevelShape(k, Depth(chain[..i])), LevelShape(k, Depth(chain[..i + 1])), LinkType(chain[i]).value;
            ShapeReady(h, chain[i], kind, s0) && ShapeStep(h, chain[i], kind, |s0.outPorts[chain[i].src]|, h')
  {
    var kind, d := LinkType(chain[i]).value, Depth(chain[..i]);
    assert chain[..i + 1][..i] == chain[..i];
    assert Depth(chain[..i + 1]) == DepthAfter(kind, d);
    LevelStep(chain[i], kind, k, d);
    hide ShapeStep, Depth;
  }

  /**
   * Two nested splits of different fan-outs and two joins: the first join takes its group size
   * from the inner split, so one kernel is left iff the outer fan-out is at most the inner.
   */
  lemma UnequalNesting(s0: Stage, chain: seq<KPair>, plan: seq<Shape>)
    requires Planned(s0, chain, plan) && |chain| == 4
    requires chain[0].splitTo && !chain[0].joinFrom && chain[1].splitTo && !chain[1].joinFrom
    requires chain[2].joinFrom && !chain[2].splitTo && chain[3].joinFrom && !chain[3].splitTo
    ensures Sum(plan[4].sizes) == 1 <==> chain[0].srcOutCount <= chain[1].srcOutCount
  {
    var outer, inner := chain[0].srcOutCount, chain[1].srcOutCount;
    assert [1][..0] == [];
    assert Sum([1]) == 1;
    assert plan[1].sizes == [outer];
    assert [outer][..0] == [];
    assert Sum([outer]) == outer;
    assert |plan[2].sizes| == outer && plan[2].opens == [outer, inner];
    assert Chunks(plan[3].sizes, inner, outer) && plan[3].opens == [outer];
    assert Sum(plan[4].sizes) == |plan[3].sizes|;
    hide ShapeStep, ShapeReady, Planned, Sum;
    OneChunk(plan[3].sizes, inner, outer);
  }

  /** Everything fits into one chunk iff there is no more of it than that. */
  lemma OneChunk(sizes: seq<nat>, c: nat, total: nat)
    requires Chunks(sizes, c, total) && total > 0 && c > 0
    ensures |sizes| == 1 <==> total <= c
  {
    EmptySum(sizes);
    SumChunks(sizes, c);
    MultipleBounds(|sizes| - 1, c);
    OneMultiple(|sizes| - 1, c);
  }

  // ---------------------------------------------------------------- the loop itself

  ghost function StageOf(x: Expansion, groups: Groups, opens: seq<nat>): Stage
    reads x
  {
    Stage(groups, opens, x.outPorts, x.inPorts, x.nextId, x.links)
  }

  /** The pair can be expanded: groups hold kernels, and have the ports it asks for. */
  ghost predicate Ready(s: Stage, p: KPair, kind: Kind) {
    && p.dst in s.outPorts && s.groups != [] && (forall g :: 0 <= g < |s.groups| ==> s.groups[g] != [])
    && match kind
       case Cont => true
       case Split => p.src in s.outPorts && s.outPorts[p.src] != []
                     && forall x :: x in Flat(s.groups) ==> x in s.outPorts && s.outPorts[x] == s.outPorts[p.src]
       case Join => p.dst in s.inPorts && s.opens != [] && s.opens[|s.opens| - 1] > 0
                    && forall g :: 0 <= g < |s.groups| ==> |s.inPorts[p.dst]| <= |s.groups[g]|
  }

  lemma ShapedIsReady(s0: Stage, s: Stage, p: KPair, kind: Kind, h: Shape)
    requires Shaped(s0, s, p.src, h) && ShapeReady(h, p, kind, s0)
    ensures Ready(s, p, kind)
  {
    assert s.groups == [] ==> Flat(s.groups) == [];
    hide Flat;
    forall g | 0 <= g < |s.groups|
      ensures s.groups[g] != []
    {
      assert SizesOf(s.groups)[g] == h.sizes[g];
    }
  }

  /** The switch in the loop: what it does to the groups and to the open split counts. */
  method Step(x: Expansion, groups: Groups, splitOutEdges: seq<nat>, p: KPair, kind: Kind)
      returns (temp: Groups, splitOutEdges': seq<nat>)
    requires x.Valid() && Ready(StageOf(x, groups, splitOutEdges), p, kind)
    modifies x
    ensures Expands(old(StageOf(x, groups, splitOutEdges)), p, kind, StageOf(x, temp, splitOutEdges'))
  {
    hide Flat, Placed, ContLinks, SplitLinks, JoinLinks, Sources;
    splitOutEdges' := splitOutEdges;
    match kind
    case Cont =>
      temp := x.InlineCont(groups, p);
    case Split =>
      splitOutEdges' := splitOutEdges' + [p.srcOutCount];
      temp := x.InlineSplit(groups, p, x.outPorts[p.src]);
    case Join =>
      temp := x.InlineJoin(groups, p, splitOutEdges'[|splitOutEdges'| - 1]);
      splitOutEdges' := splitOutEdges'[..|splitOutEdges'| - 1];
  }

  /** The kernels of all groups, in order. */
  method Flatten(groups: Groups) returns (kernels: seq<Kernel>)
    ensures kernels == Flat(groups)
  {
    kernels := [];
    for g := 0 to |groups|
      invariant kernels == Flat(groups[..g])
    {
      FlatSnoc(groups[..g], groups[g]);
      assert groups[..g + 1] == groups[..g] + [groups[g]];
      kernels := kernels + groups[g];
    }
    assert groups[..|groups|] == groups;
  }

  lemma StepOpens(s: Stage, p: KPair, kind: Kind, t: Stage)
    requires Expands(s, p, kind, t)
    ensures |t.opens| == |s.opens| + (if kind.Split? then 1 else if kind.Join? then -1 else 0)
  {
  }

  /** Another stage at the end of a run. */
  lemma RunSnoc(run: seq<Stage>, chain: seq<KPair>, p: KPair, t: Stage)
    requires Run(run, chain) && LinkType(p).Ok? && Expands(run[|chain|], p, LinkType(p).value, t)
    ensures Run(run + [t], chain + [p])
  {
    hide Expands, LinkType;
  }

  /** The state of the loop after `i` pairs. */
  ghost predicate Adding(s0: Stage, run: seq<Stage>, chain: seq<KPair>, i: nat, plan: seq<Shape>)
    ensures Adding(s0, run, chain, i, plan) ==> i <= |chain| && |run| == i + 1 && run[0] == s0 && Run(run, chain[..i]) && i < |plan|
  {
    && i <= |chain| && chain != [] && |run| == i + 1 && run[0] == s0 && Run(run, chain[..i]) && i < |plan|
    && Shaped(s0, run[i], Node(chain, i), plan[i])
  }

  lemma StartIsAdding(s: Stage, chain: seq<KPair>, plan: seq<Shape>)
    requires Planned(s, chain, plan)
    ensures Adding(s, [s], chain, 0, plan)
  {
    PlanStarts(s, chain, plan);
    hide Shaped;
  }

  lemma AddingReady(s0: Stage, run: seq<Stage>, chain: seq<KPair>, i: nat, plan: seq<Shape>)
    requires i < |chain| && Planned(s0, chain, plan) && Adding(s0, run, chain, i, plan) && LinkType(chain[i]).Ok?
    ensures Ready(run[i], chain[i], LinkType(chain[i]).value) && Numbered(run[i])
    ensures LinkType(chain[i]).value.Join? ==> run[i].opens != []
  {
    assert Node(chain, i) == chain[i].src;
    ShapedIsReady(s0, run[i], chain[i], LinkType(chain[i]).value, plan[i]);
  }

  lemma AddingNext(s0: Stage, run: seq<Stage>, chain: seq<KPair>, i: nat, plan: seq<Shape>, t: Stage)
    requires i < |chain| && Planned(s0, chain, plan) && Adding(s0, run, chain, i, plan) && LinkType(chain[i]).Ok?
    requires Expands(run[i], chain[i], LinkType(chain[i]).value, t)
    ensures Adding(s0, run + [t], chain, i + 1, plan)
  {
    assert Node(chain, i) == chain[i].src && chain[..i + 1] == chain[..i] + [chain[i]];
    hide Run, Expands, Shaped, ShapeReady, ShapeStep, Numbered;
    RunSnoc(run, chain[..i], chain[i], t);
    StepShaped(s0, run[i], chain[i], LinkType(chain[i]).value, t, plan[i], plan[i + 1]);
  }

  /**
   * operator+=: expand the chain pair by pair. A pair marked both as a split and as a join
   * stops the expansion with an error, after the pairs before it have been linked. The
   * kernels returned are those the chain starts from and those it ends in.
   */
  method Add(x: Expansion, chain: seq<KPair>, ghost plan: seq<Shape>)
      returns (ret: Result<(seq<Kernel>, seq<Kernel>), TopologyError>, ghost run: seq<Stage>)
    requires x.Valid() && chain != [] && Planned(StageOf(x, [[chain[0].src]], []), chain, plan)
    modifies x
    ensures run != [] && run[0] == old(StageOf(x, [[chain[0].src]], []))
    ensures var n := |run| - 1;
      && n <= |chain| && Run(run, chain[..n]) && run[n] == StageOf(x, run[n].groups, run[n].opens)
      && match ret
         case Ok(ends) => n == |chain| && ends.0 == [chain[0].src] && ends.1 == Flat(run[n].groups)
         case Err(e) => e == InvalidTopologyOperation && n < |chain| && chain[n].splitTo && chain[n].joinFrom
  {
    hide Adding, Planned, Shaped, Run, Expands, Ready, Flat;
    var groups: Groups, splitOutEdges: seq<nat>, stack: seq<Kind> := [[chain[0].src]], [], [];
    ghost var s0 := StageOf(x, groups, splitOutEdges);
    run := [s0];
    StartIsAdding(s0, chain, plan);
    for i := 0 to |chain|
      invariant Adding(s0, run, chain, i, plan) && run[i] == StageOf(x, groups, splitOutEdges)
      invariant |stack| == |splitOutEdges| && forall j :: 0 <= j < |stack| ==> stack[j] == Split
    {
      var linkType := LinkType(chain[i]);
      if linkType.Err? {
        return Err(linkType.error), run;
      }
      var kind := linkType.value;
      AddingReady(s0, run, chain, i, plan);
      if kind.Split? {
        stack := stack + [kind];
      } else if kind.Join? {
        assert |stack| > 0 && stack[|stack| - 1] == Split;
        stack := stack[..|stack| - 1];
      }
      groups, splitOutEdges := Step(x, groups, splitOutEdges, chain[i], kind);
      assert |splitOutEdges| == |stack| by {
        StepOpens(run[i], chain[i], kind, StageOf(x, groups, splitOutEdges));
      }
      AddingNext(s0, run, chain, i, plan, StageOf(x, groups, splitOutEdges));
      run := run + [StageOf(x, groups, splitOutEdges)];
    }
    assert chain[..|chain|] == chain;
    var dsts := Flatten(groups);
    ret := Ok(([chain[0].src], dsts));
  }
}
