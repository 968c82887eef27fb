/**
 * Progress of pipelines: kernels with at most one input whose runs wait for at least one item,
 * where only sources return stop.  The work they can do is bounded, and a kernel without
 * work never waits in vain except inside a run that wants more items than will ever come.
 * Where that cannot happen, all kernels finish and all FIFOs end invalid and empty.
 */
module PipelineProgress {
  import opened Pipeline

  /**
   * `rank` shows that the graph has no cycle; `limit(k)` is a run in which the source `k`
   * returns stop.  FIFOs hold at least one item.
   */
  ghost predicate Progressive(net: Net, rank: nat -> nat, limit: nat -> nat) {
    && net.WellFormed()
    && (forall k :: 0 <= k < |net.ins| ==> |net.ins[k]| <= 1)
    && (forall e :: 0 <= e < |net.src| ==> net.cap[e] > 0 && rank(net.src[e]) < rank(net.dst[e]))
    && (forall k, j: nat :: 0 <= k < |net.ins| ==> 1 <= net.wants(k, j, 0))
    && (forall k :: 0 <= k < |net.ins| && net.ins[k] == [] ==> net.stops(k, limit(k)))
    && (forall k, j: nat :: 0 <= k < |net.ins| && net.ins[k] != [] ==> !net.stops(k, j))
  }

  // ---------------------------------------------------------------- bounds

  /** At most so many items leave kernel `k` in its first `n` runs. */
  ghost function Emitted(net: Net, k: nat, n: nat): nat {
    if n == 0 then 0 else Emitted(net, k, n - 1) + net.bound(k, n - 1)
  }

  lemma {:induction false} EmittedMonotone(net: Net, k: nat, m: nat, n: nat)
    requires m <= n
    ensures Emitted(net, k, m) <= Emitted(net, k, n)
  {
    if m < n {
      EmittedMonotone(net, k, m, n - 1);
    }
  }

  /** At most so many runs can kernel `k` make: its own limit, or what reaches its input. */
  ghost function Runs(net: Net, rank: nat -> nat, limit: nat -> nat, k: nat): nat
    requires Progressive(net, rank, limit) && k < |net.ins|
    decreases rank(k)
  {
    if net.ins[k] == [] then limit(k) + 1
    else var src := net.src[net.ins[k][0]]; Emitted(net, src, Runs(net, rank, limit, src))
  }

  /** Items the present run has taken from its only input. */
  function Got(pc: Pc): nat
    requires pc.Taking?
  {
    if pc.got == [] then 0 else pc.got[0]
  }

  /** Counters of one kernel agree with where it is. */
  ghost predicate Counted(net: Net, limit: nat -> nat, s: State, k: nat)
    requires Shape(net, s) && k < |s.ks|
  {
    var me := s.ks[k];
    && me.started == me.returned + (if me.pc.Taking? || me.pc.Emitting? then 1 else 0)
    && me.decided == me.returned + (if me.pc.Emitting? then 1 else 0)
    && me.pushed + (if me.pc.Emitting? then |me.pc.todo| else 0) <= Emitted(net, k, me.decided)
    && (if net.ins[k] == [] then
          && me.returned <= limit(k) + 1 && (me.returned == limit(k) + 1 ==> me.stopped)
        else
          var e := s.es[net.ins[k][0]];
          && !me.stopped
          && me.taken == e.sent - e.len
          && me.taken >= me.decided + (if me.pc.Taking? && Got(me.pc) > 0 then 1 else 0)
          && (me.pc.Taking? && Got(me.pc) == 0 ==> e.len > 0)
          && (me.pc.Scan? && net.behaviour[k].AllPort? && me.pc.i > 0 ==> e.len > 0))
  }

  ghost predicate Counts(net: Net, limit: nat -> nat, s: State)
    requires Shape(net, s)
  {
    && (forall k :: 0 <= k < |s.ks| ==> Counted(net, limit, s, k))
    && (forall e :: 0 <= e < |s.es| ==> s.es[e].len <= net.cap[e] && s.es[e].sent <= s.ks[net.src[e]].pushed)
  }

  lemma LookCounts(net: Net, rank: nat -> nat, limit: nat -> nat, s: State, a: Action)
    requires Progressive(net, rank, limit) && Shape(net, s) && Safe(net, s) && Counts(net, limit, s) && Enabled(net, s, a)
    requires a.Look?
    ensures Counted(net, limit, Next(net, s, a), a.k)
  {
    hide Emitted;
    assert KernelInv(net, s, a.k) && Counted(net, limit, s, a.k);
  }

  lemma PopCounts(net: Net, rank: nat -> nat, limit: nat -> nat, s: State, a: Action)
    requires Progressive(net, rank, limit) && Shape(net, s) && Safe(net, s) && Counts(net, limit, s) && Enabled(net, s, a)
    requires a.PopOne?
    ensures Counted(net, limit, Next(net, s, a), a.k)
  {
    hide Emitted;
    assert KernelInv(net, s, a.k) && Counted(net, limit, s, a.k);
  }

  lemma PushCounts(net: Net, rank: nat -> nat, limit: nat -> nat, s: State, a: Action)
    requires Progressive(net, rank, limit) && Shape(net, s) && Safe(net, s) && Counts(net, limit, s) && Enabled(net, s, a)
    requires a.PushOne?
    ensures Counted(net, limit, Next(net, s, a), a.k)
  {
    hide Emitted;
    assert KernelInv(net, s, a.k) && Counted(net, limit, s, a.k);
  }

  lemma DecideCounts(net: Net, rank: nat -> nat, limit: nat -> nat, s: State, a: Action)
    requires Progressive(net, rank, limit) && Shape(net, s) && Safe(net, s) && Counts(net, limit, s) && Enabled(net, s, a)
    requires a.Decide?
    ensures Counted(net, limit, Next(net, s, a), a.k)
  {
    assert KernelInv(net, s, a.k) && Counted(net, limit, s, a.k);
  }

  lemma ControlCounts(net: Net, rank: nat -> nat, limit: nat -> nat, s: State, a: Action)
    requires Progressive(net, rank, limit) && Shape(net, s) && Safe(net, s) && Counts(net, limit, s) && Enabled(net, s, a)
    requires a.AskPort? || a.Return? || a.CloseOne?
    ensures Counted(net, limit, Next(net, s, a), a.k)
  {
    hide Emitted;
    assert KernelInv(net, s, a.k) && Counted(net, limit, s, a.k);
  }

  lemma OwnCounts(net: Net, rank: nat -> nat, limit: nat -> nat, s: State, a: Action)
    requires Progressive(net, rank, limit) && Shape(net, s) && Safe(net, s) && Counts(net, limit, s) && Enabled(net, s, a)
    ensures Counted(net, limit, Next(net, s, a), a.k)
  {
    hide Counted, Next, Progressive, Safe, Counts, Enabled;
    if a.Look? {
      LookCounts(net, rank, limit, s, a);
    } else if a.PopOne? {
      PopCounts(net, rank, limit, s, a);
    } else if a.PushOne? {
      PushCounts(net, rank, limit, s, a);
    } else if a.Decide? {
      DecideCounts(net, rank, limit, s, a);
    } else {
      ControlCounts(net, rank, limit, s, a);
    }
  }

  lemma OtherCounts(net: Net, rank: nat -> nat, limit: nat -> nat, s: State, a: Action, k: nat)
    requires Progressive(net, rank, limit) && Shape(net, s) && Safe(net, s) && Counts(net, limit, s) && Enabled(net, s, a)
    requires k < |s.ks| && k != a.k
    ensures Counted(net, limit, Next(net, s, a), k)
  {
    assert Counted(net, limit, s, k);
    if net.ins[k] != [] {
      assert net.dst[net.ins[k][0]] == k;
      FifoStep(net, s, a, net.ins[k][0]);
    }
  }

  lemma FifoCounts(net: Net, limit: nat -> nat, s: State, a: Action, e: nat)
    requires Shape(net, s) && Safe(net, s) && Counts(net, limit, s) && Enabled(net, s, a) && e < |s.es|
    ensures var t := Next(net, s, a); t.es[e].len <= net.cap[e] && t.es[e].sent <= t.ks[net.src[e]].pushed
  {
    hide Counted, KernelInv, Emitted;
    if a.PushOne? {
      PushesAreValid(net, s, a);
    }
  }

  lemma StepCounts(net: Net, rank: nat -> nat, limit: nat -> nat, s: State, a: Action)
    requires Progressive(net, rank, limit) && Shape(net, s) && Safe(net, s) && Counts(net, limit, s) && Enabled(net, s, a)
    ensures Counts(net, limit, Next(net, s, a))
  {
    hide Counted, Safe, Next, Enabled, Progressive;
    var t := Next(net, s, a);
    assert |t.ks| == |s.ks| && |t.es| == |s.es|;
    OwnCounts(net, rank, limit, s, a);
    forall k | 0 <= k < |s.ks| && k != a.k
      ensures Counted(net, limit, t, k)
    {
      OtherCounts(net, rank, limit, s, a, k);
    }
    forall e | 0 <= e < |s.es|
      ensures t.es[e].len <= net.cap[e] && t.es[e].sent <= t.ks[net.src[e]].pushed
    {
      FifoCounts(net, limit, s, a, e);
    }
  }

  lemma InitCounts(net: Net, rank: nat -> nat, limit: nat -> nat, s: State)
    requires Progressive(net, rank, limit) && Init(net, s)
    ensures Counts(net, limit, s)
  {
  }

  /** Everything known about a reachable state of such a pipeline. */
  ghost predicate Good(net: Net, rank: nat -> nat, limit: nat -> nat, s: State) {
    Progressive(net, rank, limit) && Shape(net, s) && Safe(net, s) && Counts(net, limit, s)
  }

  lemma StepGood(net: Net, rank: nat -> nat, limit: nat -> nat, s: State, a: Action)
    requires Good(net, rank, limit, s) && Enabled(net, s, a)
    ensures Good(net, rank, limit, Next(net, s, a))
  {
    hide Safe, Counts, Next;
    StepSafe(net, s, a);
    StepCounts(net, rank, limit, s, a);
  }

  lemma {:induction false} RunGood(net: Net, rank: nat -> nat, limit: nat -> nat, s: State, acts: seq<Action>, s': State)
    requires Good(net, rank, limit, s) && Run(net, s, acts, s')
    ensures Good(net, rank, limit, s')
    decreases |acts|
  {
    if acts != [] {
      hide Good, Next;
      StepGood(net, rank, limit, s, acts[0]);
      assert Shape(net, Next(net, s, acts[0]));
      RunGood(net, rank, limit, Next(net, s, acts[0]), acts[1..], s');
    }
  }

  lemma ReachableGood(net: Net, rank: nat -> nat, limit: nat -> nat, s: State)
    requires Progressive(net, rank, limit) && Reachable(net, s)
    ensures Good(net, rank, limit, s)
  {
    var s0: State, acts: seq<Action> :| Init(net, s0) && Run(net, s0, acts, s);
    InitSafe(net, s0);
    InitCounts(net, rank, limit, s0);
    RunGood(net, rank, limit, s0, acts, s);
  }

  /** No counter of a kernel ever exceeds the number of runs it can make. */
  lemma {:induction false} WithinRuns(net: Net, rank: nat -> nat, limit: nat -> nat, s: State, k: nat)
    requires Good(net, rank, limit, s) && k < |s.ks|
    ensures var n, me := Runs(net, rank, limit, k), s.ks[k];
            && me.returned <= me.decided <= me.started <= n
            && (net.ins[k] != [] ==> me.taken + s.es[net.ins[k][0]].len <= n)
            && me.pushed <= Emitted(net, k, n)
    decreases rank(k)
  {
    var n, me := Runs(net, rank, limit, k), s.ks[k];
    assert Counted(net, limit, s, k) && KernelInv(net, s, k);
    if net.ins[k] != [] {
      var e := net.ins[k][0];
      var src := net.src[e];
      assert net.dst[e] == k;
      WithinRuns(net, rank, limit, s, src);
      assert s.es[e].sent <= s.ks[src].pushed;
    }
    EmittedMonotone(net, k, me.decided, n);
  }

  // ---------------------------------------------------------------- the measure

  /** The work kernel `k` may still do: starts, decisions, returns, items taken and sent, and finishing. */
  ghost function Left(net: Net, rank: nat -> nat, limit: nat -> nat, s: State, k: nat): int
    requires Progressive(net, rank, limit) && Shape(net, s) && k < |s.ks|
  {
    var n, me := Runs(net, rank, limit, k), s.ks[k];
    3 * n - me.started - me.decided - me.returned
    + (if net.ins[k] == [] then 0 else n - me.taken)
    + Emitted(net, k, n) - me.pushed
    + (if me.finished then 0 else 1)
  }

  ghost function TotalLeft(net: Net, rank: nat -> nat, limit: nat -> nat, s: State, n: nat): int
    requires Progressive(net, rank, limit) && Shape(net, s) && n <= |s.ks|
  {
    if n == 0 then 0 else TotalLeft(net, rank, limit, s, n - 1) + Left(net, rank, limit, s, n - 1)
  }

  ghost function Measure(net: Net, rank: nat -> nat, limit: nat -> nat, s: State): int
    requires Progressive(net, rank, limit) && Shape(net, s)
  {
    TotalLeft(net, rank, limit, s, |s.ks|)
  }

  lemma LeftNonNegative(net: Net, rank: nat -> nat, limit: nat -> nat, s: State, k: nat)
    requires Good(net, rank, limit, s) && k < |s.ks|
    ensures Left(net, rank, limit, s, k) >= 0
    ensures s.ks[k].finished || Left(net, rank, limit, s, k) > 0
  {
    WithinRuns(net, rank, limit, s, k);
    assert Counted(net, limit, s, k);
  }

  lemma {:induction false} TotalNonNegative(net: Net, rank: nat -> nat, limit: nat -> nat, s: State, n: nat)
    requires Good(net, rank, limit, s) && n <= |s.ks|
    ensures TotalLeft(net, rank, limit, s, n) >= 0
  {
    hide Safe, Counts, Left, Runs;
    if n > 0 {
      TotalNonNegative(net, rank, limit, s, n - 1);
      LeftNonNegative(net, rank, limit, s, n - 1);
    }
  }

  lemma SameLeft(net: Net, rank: nat -> nat, limit: nat -> nat, s: State, t: State, k: nat)
    requires Progressive(net, rank, limit) && Shape(net, s) && Shape(net, t) && k < |s.ks| && t.ks[k] == s.ks[k]
    ensures Left(net, rank, limit, t, k) == Left(net, rank, limit, s, k)
  {
    hide Progressive, Runs, Emitted;
  }

  /** If only kernel `k` changes, so does the total. */
  lemma {:induction false} TotalChanges(net: Net, rank: nat -> nat, limit: nat -> nat, s: State, t: State, k: nat, n: nat)
    requires Progressive(net, rank, limit) && Shape(net, s) && Shape(net, t) && k < |s.ks| && n <= |s.ks|
    requires forall j :: 0 <= j < |s.ks| && j != k ==> t.ks[j] == s.ks[j]
    ensures TotalLeft(net, rank, limit, t, n) - TotalLeft(net, rank, limit, s, n)
         == if k < n then Left(net, rank, limit, t, k) - Left(net, rank, limit, s, k) else 0
  {
    hide Left, Progressive;
    if n > 0 {
      if k != n - 1 {
        SameLeft(net, rank, limit, s, t, n - 1);
      }
      TotalChanges(net, rank, limit, s, t, k, n - 1);
    }
  }

  /** Actions that do work, as opposed to polling ports and invalidating them one by one. */
  ghost predicate Productive(net: Net, s: State, a: Action)
    requires Shape(net, s) && Enabled(net, s, a)
  {
    a.PopOne? || a.Decide? || a.PushOne? || a.Return?
    || Next(net, s, a).ks[a.k].started > s.ks[a.k].started
    || (Next(net, s, a).ks[a.k].finished && !s.ks[a.k].finished)
  }

  /** Every productive action uses up exactly one unit, every other action none. */
  lemma StepMeasure(net: Net, rank: nat -> nat, limit: nat -> nat, s: State, a: Action)
    requires Good(net, rank, limit, s) && Enabled(net, s, a)
    ensures Measure(net, rank, limit, Next(net, s, a))
         == Measure(net, rank, limit, s) - (if Productive(net, s, a) then 1 else 0)
  {
    var t := Next(net, s, a);
    TotalChanges(net, rank, limit, s, t, a.k, |s.ks|);
    LeftStep(net, rank, limit, s, a);
    hide Good, Enabled, Left, Productive, TotalLeft;
  }

  /** Looking and asking touch nothing but the place in the loop and the count of runs started. */
  lemma PollFrame(net: Net, s: State, a: Action)
    requires Shape(net, s) && Enabled(net, s, a) && (a.Look? || a.AskPort?)
    ensures var me, me' := s.ks[a.k], Next(net, s, a).ks[a.k];
            me' == me.(pc := me'.pc, started := me'.started) && me.started <= me'.started <= me.started + 1
  {
  }

  lemma LeftPoll(net: Net, rank: nat -> nat, limit: nat -> nat, s: State, a: Action)
    requires Good(net, rank, limit, s) && Enabled(net, s, a) && (a.Look? || a.AskPort?)
    ensures Left(net, rank, limit, Next(net, s, a), a.k)
         == Left(net, rank, limit, s, a.k) - (if Productive(net, s, a) then 1 else 0)
  {
    PollFrame(net, s, a);
    hide Runs, Emitted, Good, Enabled, Next;
  }

  lemma LeftClose(net: Net, rank: nat -> nat, limit: nat -> nat, s: State, a: Action)
    requires Good(net, rank, limit, s) && Enabled(net, s, a) && a.CloseOne?
    ensures Left(net, rank, limit, Next(net, s, a), a.k)
         == Left(net, rank, limit, s, a.k) - (if Productive(net, s, a) then 1 else 0)
  {
    hide Runs, Emitted, Counted, Safe, Counts;
    SafeKernel(net, s, a.k);
  }

  lemma LeftRun(net: Net, rank: nat -> nat, limit: nat -> nat, s: State, a: Action)
    requires Good(net, rank, limit, s) && Enabled(net, s, a) && (a.PopOne? || a.Decide? || a.PushOne? || a.Return?)
    ensures Left(net, rank, limit, Next(net, s, a), a.k)
         == Left(net, rank, limit, s, a.k) - (if Productive(net, s, a) then 1 else 0)
  {
    hide Runs, Emitted, Counted, Safe, Counts;
  }

  lemma LeftStep(net: Net, rank: nat -> nat, limit: nat -> nat, s: State, a: Action)
    requires Good(net, rank, limit, s) && Enabled(net, s, a)
    ensures Left(net, rank, limit, Next(net, s, a), a.k)
         == Left(net, rank, limit, s, a.k) - (if Productive(net, s, a) then 1 else 0)
  {
    hide Good, Enabled, Next, Left, Productive;
    if a.Look? || a.AskPort? {
      LeftPoll(net, rank, limit, s, a);
    } else if a.CloseOne? {
      LeftClose(net, rank, limit, s, a);
    } else {
      LeftRun(net, rank, limit, s, a);
    }
  }

  lemma SafeKernel(net: Net, s: State, k: nat)
    requires Shape(net, s) && Safe(net, s) && k < |s.ks|
    ensures KernelInv(net, s, k)
  {
  }

  ghost function Work(net: Net, s: State, acts: seq<Action>, s': State): nat
    requires Shape(net, s) && Run(net, s, acts, s')
    decreases |acts|
  {
    if acts == [] then 0
    else (if Productive(net, s, acts[0]) then 1 else 0) + Work(net, Next(net, s, acts[0]), acts[1..], s')
  }

  lemma {:induction false} WorkIsMeasure(net: Net, rank: nat -> nat, limit: nat -> nat, s: State, acts: seq<Action>, s': State)
    requires Good(net, rank, limit, s) && Run(net, s, acts, s')
    ensures Good(net, rank, limit, s')
    ensures Work(net, s, acts, s') + Measure(net, rank, limit, s') == Measure(net, rank, limit, s)
    decreases |acts|
  {
    if acts != [] {
      var t := Next(net, s, acts[0]);
      StepGood(net, rank, limit, s, acts[0]);
      StepMeasure(net, rank, limit, s, acts[0]);
      hide Safe, Counts, Productive, Next;
      WorkIsMeasure(net, rank, limit, t, acts[1..], s');
    }
  }

  /** However the threads are scheduled, the productive actions of a run are bounded beforehand. */
  lemma WorkIsBounded(net: Net, rank: nat -> nat, limit: nat -> nat, s0: State, acts: seq<Action>, s: State)
    requires Progressive(net, rank, limit) && Init(net, s0) && Run(net, s0, acts, s)
    ensures Work(net, s0, acts, s) <= Measure(net, rank, limit, s0)
  {
    InitSafe(net, s0);
    InitCounts(net, rank, limit, s0);
    WorkIsMeasure(net, rank, limit, s0, acts, s);
    TotalNonNegative(net, rank, limit, s, |s.ks|);
  }

  // ---------------------------------------------------------------- no deadlock

  /** By its own steps alone kernel `k` can do work in state `s`. */
  ghost predicate CanWork(net: Net, s: State, k: nat)
    requires Shape(net, s)
  {
    exists acts: seq<Action>, s': State ::
      && Run(net, s, acts, s')
      && (forall i :: 0 <= i < |acts| ==> acts[i].k == k)
      && Work(net, s, acts, s') > 0
  }

  /** It can if its next step is work, or leads to a state in which it can. */
  lemma WorkNext(net: Net, s: State, a: Action)
    requires Shape(net, s) && Enabled(net, s, a)
    requires Productive(net, s, a) || CanWork(net, Next(net, s, a), a.k)
    ensures CanWork(net, s, a.k)
  {
    var t := Next(net, s, a);
    if Productive(net, s, a) {
      assert Run(net, t, [], t);
      assert [a][1..] == [];
      assert Run(net, s, [a], t);
      assert Work(net, s, [a], t) > 0;
    } else {
      var acts: seq<Action>, s': State :|
        && Run(net, t, acts, s')
        && (forall i :: 0 <= i < |acts| ==> acts[i].k == a.k)
        && Work(net, t, acts, s') > 0;
      assert ([a] + acts)[1..] == acts;
      assert Run(net, s, [a] + acts, s');
      assert Work(net, s, [a] + acts, s') > 0;
    }
  }

  /** A kernel that polls an input holding an item comes round to running. */
  ghost predicate HasData(net: Net, s: State, k: nat)
    requires Shape(net, s) && k < |s.ks|
  {
    net.ins[k] == [] || s.es[net.ins[k][0]].len > 0
  }

  lemma StartWorks(net: Net, rank: nat -> nat, limit: nat -> nat, s: State, k: nat)
    requires Good(net, rank, limit, s) && k < |s.ks| && HasData(net, s, k)
    requires s.ks[k].pc == Scan(0, First)
    ensures CanWork(net, s, k)
  {
    var a := Look(k, true);
    if net.ins[k] != [] && net.behaviour[k].AllPort? {
      var t := Next(net, s, a);
      assert t.ks[k].pc == Scan(1, First);
      WorkNext(net, t, Look(k, false));
    }
    WorkNext(net, s, a);
  }

  lemma ScanWorks(net: Net, rank: nat -> nat, limit: nat -> nat, s: State, k: nat)
    requires Good(net, rank, limit, s) && k < |s.ks| && HasData(net, s, k) && !s.ks[k].finished
    requires s.ks[k].pc.Scan? && s.ks[k].pc.phase.Second?
    ensures CanWork(net, s, k)
  {
    assert KernelInv(net, s, k);
    var a := Look(k, true);
    var t := Next(net, s, a);
    StepGood(net, rank, limit, s, a);
    if t.ks[k].pc == Scan(0, First) {
      StartWorks(net, rank, limit, t, k);
    } else {
      assert t.ks[k].pc == Scan(1, Second);
      var b := Look(k, false);
      var u := Next(net, t, b);
      StepGood(net, rank, limit, t, b);
      StartWorks(net, rank, limit, u, k);
      WorkNext(net, t, b);
    }
    WorkNext(net, s, a);
  }

  lemma AskWorks(net: Net, rank: nat -> nat, limit: nat -> nat, s: State, k: nat)
    requires Good(net, rank, limit, s) && k < |s.ks| && HasData(net, s, k) && !s.ks[k].finished
    requires s.ks[k].pc.AskValid?
    ensures CanWork(net, s, k)
    decreases |net.ins[k]| + 1 - s.ks[k].pc.i
  {
    assert KernelInv(net, s, k);
    var a := AskPort(k);
    var t := Next(net, s, a);
    StepGood(net, rank, limit, s, a);
    if t.ks[k].pc.AskValid? {
      AskWorks(net, rank, limit, t, k);
    } else if t.ks[k].pc == Scan(0, First) {
      StartWorks(net, rank, limit, t, k);
    } else {
      ScanWorks(net, rank, limit, t, k);
    }
    WorkNext(net, s, a);
  }

  /** Invalidating the outputs ends in finishing. */
  lemma CloseWorks(net: Net, rank: nat -> nat, limit: nat -> nat, s: State, k: nat)
    requires Good(net, rank, limit, s) && k < |s.ks| && !s.ks[k].finished && s.ks[k].pc.Closing?
    ensures CanWork(net, s, k)
    decreases |net.outs[k]| - s.ks[k].pc.i
  {
    assert KernelInv(net, s, k);
    var a := CloseOne(k);
    var t := Next(net, s, a);
    StepGood(net, rank, limit, s, a);
    if t.ks[k].pc.Closing? && !t.ks[k].finished {
      CloseWorks(net, rank, limit, t, k);
    }
    WorkNext(net, s, a);
  }

  /** Inside run() only a full output can hold a kernel up. */
  ghost predicate Full(net: Net, s: State, k: nat)
    requires Shape(net, s) && k < |s.ks|
  {
    var pc := s.ks[k].pc;
    pc.Emitting? && pc.todo != [] && pc.todo[0] < |s.es| && s.es[pc.todo[0]].len >= net.cap[pc.todo[0]]
  }

  /** The present run has all the items it waits for. */
  ghost predicate Enough(net: Net, s: State, k: nat)
    requires Shape(net, s) && k < |s.ks|
  {
    var me := s.ks[k];
    me.pc.Taking? && me.started > 0 && (net.ins[k] == [] || net.wants(k, me.started - 1, 0) <= Got(me.pc))
  }

  /** It waits for another item, which will never come. */
  ghost predicate Starved(net: Net, s: State, k: nat)
    requires Shape(net, s) && k < |s.ks|
  {
    s.ks[k].pc.Taking? && !Enough(net, s, k) && Dry(net, s, k)
  }

  lemma TakingWorks(net: Net, rank: nat -> nat, limit: nat -> nat, s: State, k: nat)
    requires Good(net, rank, limit, s) && k < |s.ks| && s.ks[k].pc.Taking?
    requires HasData(net, s, k) || Enough(net, s, k)
    ensures CanWork(net, s, k)
  {
    assert KernelInv(net, s, k);
    var me := s.ks[k];
    if Enough(net, s, k) {
      WorkNext(net, s, Decide(k, []));
    } else {
      assert net.wants(k, me.started - 1, 0) <= net.most(k, me.started - 1, 0);
      WorkNext(net, s, PopOne(k, 0));
    }
  }

  lemma EmittingWorks(net: Net, rank: nat -> nat, limit: nat -> nat, s: State, k: nat)
    requires Good(net, rank, limit, s) && k < |s.ks| && !Full(net, s, k) && s.ks[k].pc.Emitting?
    ensures CanWork(net, s, k)
  {
    assert KernelInv(net, s, k) && Counted(net, limit, s, k);
    var pc := s.ks[k].pc;
    if pc.todo == [] {
      WorkNext(net, s, Return(k));
    } else {
      assert pc.todo[0] in net.outs[k];
      WorkNext(net, s, PushOne(k));
    }
  }

  /** An unfinished kernel that has input or all it waits for, emits or is closing can work unless an output is full. */
  lemma BusyWorks(net: Net, rank: nat -> nat, limit: nat -> nat, s: State, k: nat)
    requires Good(net, rank, limit, s) && k < |s.ks| && !s.ks[k].finished && !Full(net, s, k)
    requires Busy(net, s, k)
    ensures CanWork(net, s, k)
  {
    assert KernelInv(net, s, k);
    hide Safe, Counts, Enough, CanWork;
    match s.ks[k].pc {
      case Taking(_) => TakingWorks(net, rank, limit, s, k);
      case Emitting(_) => EmittingWorks(net, rank, limit, s, k);
      case Closing(_, _) => CloseWorks(net, rank, limit, s, k);
      case AskValid(_) => AskWorks(net, rank, limit, s, k);
      case Scan(i, Second) => ScanWorks(net, rank, limit, s, k);
      case Scan(i, First) => FirstScanWorks(net, rank, limit, s, k);
      case Exited =>
    }
  }

  ghost predicate Busy(net: Net, s: State, k: nat)
    requires Shape(net, s) && k < |s.ks|
  {
    HasData(net, s, k) || Enough(net, s, k) || s.ks[k].pc.Emitting? || s.ks[k].pc.Closing?
  }

  lemma FirstScanWorks(net: Net, rank: nat -> nat, limit: nat -> nat, s: State, k: nat)
    requires Good(net, rank, limit, s) && k < |s.ks| && !s.ks[k].finished && HasData(net, s, k)
    requires s.ks[k].pc.Scan? && s.ks[k].pc.phase.First?
    ensures CanWork(net, s, k)
  {
    assert KernelInv(net, s, k);
    if s.ks[k].pc.i == 0 {
      StartWorks(net, rank, limit, s, k);
    } else {
      var a := Look(k, false);
      var t := Next(net, s, a);
      StepGood(net, rank, limit, s, a);
      if t.ks[k].pc.AskValid? {
        AskWorks(net, rank, limit, t, k);
      }
      WorkNext(net, s, a);
    }
  }

  /** The input is closed and drained. */
  ghost predicate Dry(net: Net, s: State, k: nat)
    requires Shape(net, s) && k < |s.ks|
  {
    net.ins[k] != [] && !s.es[net.ins[k][0]].valid && s.es[net.ins[k][0]].len == 0
  }

  /** The rank in which a polling pass visits the places of its loop. */
  function PollRank(pc: Pc): nat {
    match pc
    case Scan(i, First) => if i == 0 then 8 else 7
    case AskValid(i) => if i == 0 then 6 else 5
    case Scan(i, Second) => if i == 0 then 4 else 3
    case _ => 0
  }

  /** A kernel that polls a dry input comes round to finishing. */
  lemma DryWorks(net: Net, rank: nat -> nat, limit: nat -> nat, s: State, k: nat)
    requires Good(net, rank, limit, s) && k < |s.ks| && !s.ks[k].finished && Dry(net, s, k)
    requires s.ks[k].pc.Scan? || s.ks[k].pc.AskValid?
    ensures CanWork(net, s, k)
    decreases PollRank(s.ks[k].pc)
  {
    assert KernelInv(net, s, k) && Counted(net, limit, s, k);
    var a := if s.ks[k].pc.Scan? then Look(k, false) else AskPort(k);
    var t := Next(net, s, a);
    StepGood(net, rank, limit, s, a);
    if t.ks[k].pc.Closing? {
      CloseWorks(net, rank, limit, t, k);
    } else {
      DryWorks(net, rank, limit, t, k);
    }
    WorkNext(net, s, a);
  }

  /** A finished kernel of such a pipeline has a dry input, or is a source that stopped. */
  lemma FinishedIsDry(net: Net, rank: nat -> nat, limit: nat -> nat, s: State, k: nat)
    requires Good(net, rank, limit, s) && k < |s.ks| && s.ks[k].finished
    ensures net.ins[k] == [] || Dry(net, s, k)
    ensures forall i :: 0 <= i < |net.outs[k]| ==> !s.es[net.outs[k][i]].valid
  {
    assert KernelInv(net, s, k) && Counted(net, limit, s, k);
  }

  /** Somebody downstream of a busy kernel can work: a full FIFO has an unfinished, busy reader. */
  lemma {:induction false} Downstream(net: Net, rank: nat -> nat, limit: nat -> nat, s: State, k: nat, top: nat)
    requires Good(net, rank, limit, s) && k < |s.ks| && !s.ks[k].finished && Busy(net, s, k)
    requires forall j :: 0 <= j < |s.ks| ==> rank(j) <= top
    ensures exists j :: 0 <= j < |s.ks| && CanWork(net, s, j)
    decreases top - rank(k)
  {
    if Full(net, s, k) {
      var e := s.ks[k].pc.todo[0];
      assert KernelInv(net, s, k);
      assert e in net.outs[k];
      var d := net.dst[e];
      assert net.src[e] == k && e in net.ins[d] && net.ins[d] == [e];
      assert rank(k) < rank(d) <= top;
      if s.ks[d].finished {
        FinishedIsDry(net, rank, limit, s, d);
      }
      Downstream(net, rank, limit, s, d, top);
    } else {
      BusyWorks(net, rank, limit, s, k);
    }
  }

  /** As long as kernel `k` is unfinished somebody can work, or is starved: if it waits, look upstream. */
  lemma {:induction false} Upstream(net: Net, rank: nat -> nat, limit: nat -> nat, s: State, k: nat, top: nat)
    requires Good(net, rank, limit, s) && k < |s.ks| && !s.ks[k].finished
    requires forall j :: 0 <= j < |s.ks| ==> rank(j) <= top
    ensures exists j :: 0 <= j < |s.ks| && (CanWork(net, s, j) || Starved(net, s, j))
    decreases rank(k)
  {
    if Busy(net, s, k) {
      Downstream(net, rank, limit, s, k, top);
    } else if Dry(net, s, k) {
      assert KernelInv(net, s, k);
      if s.ks[k].pc.Taking? {
        assert Starved(net, s, k);
      } else {
        DryWorks(net, rank, limit, s, k);
      }
    } else {
      var e := net.ins[k][0];
      var src := net.src[e];
      assert net.dst[e] == k && e in net.outs[src];
      if s.ks[src].finished {
        FinishedIsDry(net, rank, limit, s, src);
      }
      Upstream(net, rank, limit, s, src, top);
    }
  }

  lemma {:induction false} Highest(rank: nat -> nat, n: nat) returns (top: nat)
    ensures forall j :: 0 <= j < n ==> rank(j) <= top
  {
    top := 0;
    if n > 0 {
      top := Highest(rank, n - 1);
      if top < rank(n - 1) {
        top := rank(n - 1);
      }
    }
  }

  /**
   * As long as a kernel is unfinished, some kernel can do work by its own steps, or is inside
   * a run that waits for an item of an input that is closed and drained.
   */
  lemma NoDeadlock(net: Net, rank: nat -> nat, limit: nat -> nat, s: State, k: nat)
    requires Progressive(net, rank, limit) && Reachable(net, s) && Shape(net, s)
    requires k < |s.ks| && !s.ks[k].finished
    ensures exists j :: 0 <= j < |s.ks| && (CanWork(net, s, j) || Starved(net, s, j))
  {
    ReachableGood(net, rank, limit, s);
    var top := Highest(rank, |s.ks|);
    Upstream(net, rank, limit, s, k, top);
  }

  /** Nobody can work any more. */
  ghost predicate Terminal(net: Net, s: State)
    requires Shape(net, s)
  {
    forall j :: 0 <= j < |s.ks| ==> !CanWork(net, s, j)
  }

  ghost predicate Complete(s: State) {
    && (forall k :: 0 <= k < |s.ks| ==> s.ks[k].finished)
    && (forall e :: 0 <= e < |s.es| ==> !s.es[e].valid && s.es[e].len == 0)
  }

  /** A terminal state is complete, all kernels finished and all FIFOs invalid and empty, unless a kernel starves. */
  lemma TerminalIsComplete(net: Net, rank: nat -> nat, limit: nat -> nat, s: State)
    requires Progressive(net, rank, limit) && Reachable(net, s) && Shape(net, s) && Terminal(net, s)
    ensures Complete(s) <==> forall k :: 0 <= k < |s.ks| ==> !Starved(net, s, k)
  {
    ReachableGood(net, rank, limit, s);
    forall k | 0 <= k < |s.ks| && s.ks[k].finished
      ensures !Starved(net, s, k)
    {
      assert KernelInv(net, s, k);
    }
    if forall k :: 0 <= k < |s.ks| ==> !Starved(net, s, k) {
      forall k | 0 <= k < |s.ks|
        ensures s.ks[k].finished
      {
        if !s.ks[k].finished {
          NoDeadlock(net, rank, limit, s, k);
        }
      }
      forall e | 0 <= e < |s.es|
        ensures !s.es[e].valid && s.es[e].len == 0
      {
        var d := net.dst[e];
        assert e in net.ins[d] && net.ins[d] == [e];
        FinishedIsDry(net, rank, limit, s, d);
      }
    }
  }

  /** No run waits for an item after its first. */
  ghost predicate OneItemRuns(net: Net) {
    forall k: nat, j: nat :: k < |net.ins| && net.ins[k] != [] ==> net.wants(k, j, 0) == 1
  }

  /** Then nobody starves: a run begins with an item there. */
  lemma OneItemNeverStarves(net: Net, rank: nat -> nat, limit: nat -> nat, s: State, k: nat)
    requires Progressive(net, rank, limit) && Reachable(net, s) && Shape(net, s) && k < |s.ks| && OneItemRuns(net)
    ensures !Starved(net, s, k)
  {
    ReachableGood(net, rank, limit, s);
    assert KernelInv(net, s, k) && Counted(net, limit, s, k);
  }

  lemma OneItemRunsComplete(net: Net, rank: nat -> nat, limit: nat -> nat, s: State)
    requires Progressive(net, rank, limit) && Reachable(net, s) && Shape(net, s) && Terminal(net, s) && OneItemRuns(net)
    ensures Complete(s)
  {
    forall k | 0 <= k < |s.ks|
      ensures !Starved(net, s, k)
    {
      OneItemNeverStarves(net, rank, limit, s, k);
    }
    TerminalIsComplete(net, rank, limit, s);
  }

  /** Conversely, work left over means that somebody is unfinished. */
  lemma CompleteIsTerminal(net: Net, rank: nat -> nat, limit: nat -> nat, s: State, a: Action)
    requires Progressive(net, rank, limit) && Reachable(net, s) && Shape(net, s) && Enabled(net, s, a)
    requires forall k :: 0 <= k < |s.ks| ==> s.ks[k].finished
    ensures !Productive(net, s, a)
  {
    ReachableGood(net, rank, limit, s);
    assert KernelInv(net, s, a.k);
  }
}
