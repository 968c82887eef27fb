/**
 * Kernels on their own threads, each in the loop of simple_schedule::simple_run around
 * Schedule::kernelRun, joined by bounded FIFOs.  A FIFO is taken by its contract, which
 * SharedFifo establishes: it is a queue, the consumer's size() may report an open port
 * emptier than it is, and is exact on an invalid one.  Items are counted, not inspected.
 *
 * Sources: src/schedule.cpp:134-241, src/simpleschedule.cpp:169-180.
 */
module Pipeline {

  datatype Behaviour = AnyPort | AllPort

  /**
   * `src` and `dst` give the ends of each FIFO, `ins` and `outs` the ports of each kernel.
   * Run number `j` of kernel `k` waits until it has popped `wants(k, j, p)` items from its
   * input `p`, and pops at most `most(k, j, p)`; it then emits at most `bound(k, j)` items, in
   * any order and to any of its ports, and returns raft::stop iff `stops(k, j)`.
   */
  datatype Net = Net(
    src: seq<nat>, dst: seq<nat>, cap: seq<nat>,
    ins: seq<seq<nat>>, outs: seq<seq<nat>>,
    behaviour: seq<Behaviour>,
    wants: (nat, nat, nat) -> nat, most: (nat, nat, nat) -> nat,
    bound: (nat, nat) -> nat, stops: (nat, nat) -> bool)
  {
    /** Port lists and FIFO ends agree, and a run may pop what it waits for. */
    ghost predicate WellFormed() {
      && |src| == |dst| == |cap| && |ins| == |outs| == |behaviour|
      && (forall e :: 0 <= e < |src| ==> src[e] < |ins| && dst[e] < |ins|)
      && (forall k, i :: 0 <= k < |ins| && 0 <= i < |ins[k]| ==> ins[k][i] < |src| && dst[ins[k][i]] == k)
      && (forall k, i :: 0 <= k < |outs| && 0 <= i < |outs[k]| ==> outs[k][i] < |src| && src[outs[k][i]] == k)
      && (forall k, i, j :: 0 <= k < |ins| && 0 <= i < j < |ins[k]| ==> ins[k][i] != ins[k][j])
      && (forall e :: 0 <= e < |src| ==> e in outs[src[e]] && e in ins[dst[e]])
      && (forall k: nat, j: nat, p: nat :: wants(k, j, p) <= most(k, j, p))
    }
  }

  datatype Phase = First | Second

  /**
   * Where a kernel's thread is: scanning its ports for data (before the run, or after the
   * validity check), in run() taking items (so many from each input) or emitting them,
   * asking its ports for validity, or invalidating its outputs.
   */
  datatype Pc =
    | Scan(i: nat, phase: Phase)
    | Taking(got: seq<nat>)
    | Emitting(todo: seq<nat>)
    | AskValid(i: nat)
    | Closing(i: nat, stopping: bool)
    | Exited

  /** `stopped` and the counters are history. */
  datatype Kernel = Kernel(pc: Pc, finished: bool, stopped: bool,
                           started: nat, decided: nat, returned: nat, taken: nat, pushed: nat)

  datatype Fifo = Fifo(len: nat, valid: bool, sent: nat)

  datatype State = State(ks: seq<Kernel>, es: seq<Fifo>)

  datatype Action =
    | Look(k: nat, seen: bool)
    | AskPort(k: nat)
    | PopOne(k: nat, port: nat)
    | Decide(k: nat, out: seq<nat>)
    | PushOne(k: nat)
    | Return(k: nat)
    | CloseOne(k: nat)

  ghost predicate Shape(net: Net, s: State) {
    net.WellFormed() && |s.ks| == |net.ins| && |s.es| == |net.src|
  }

  ghost predicate Enabled(net: Net, s: State, a: Action)
    requires Shape(net, s)
  {
    a.k < |s.ks| &&
    var pc := s.ks[a.k].pc;
    var ins := net.ins[a.k];
    match a
    case Look(_, seen) =>
      pc.Scan? && (pc.i < |ins| ==> if seen then s.es[ins[pc.i]].len > 0
                                    else s.es[ins[pc.i]].len == 0 || s.es[ins[pc.i]].valid)
    case AskPort(_) => pc.AskValid?
    case PopOne(_, port) =>
      && pc.Taking? && port < |ins| == |pc.got| && s.ks[a.k].started > 0
      && s.es[ins[port]].len > 0 && pc.got[port] < net.most(a.k, s.ks[a.k].started - 1, port)
    case Decide(_, out) =>
      && pc.Taking? && |pc.got| == |ins| && s.ks[a.k].started > 0
      && (forall p :: 0 <= p < |ins| ==> net.wants(a.k, s.ks[a.k].started - 1, p) <= pc.got[p])
      && |out| <= net.bound(a.k, s.ks[a.k].started - 1)
      && (forall i :: 0 <= i < |out| ==> out[i] in net.outs[a.k])
    case PushOne(_) =>
      pc.Emitting? && pc.todo != [] && pc.todo[0] < |s.es| && s.es[pc.todo[0]].len < net.cap[pc.todo[0]]
    case Return(_) => pc.Emitting? && pc.todo == [] && s.ks[a.k].started > 0
    case CloseOne(_) => pc.Closing?
  }

  /** The loop of simple_run: another pass unless `finished` has been set. */
  function EndPass(k: Kernel): Kernel {
    k.(pc := if k.finished then Exited else Scan(0, First))
  }

  /** Nothing taken yet from any of `n` inputs. */
  function Zeros(n: nat): (r: seq<nat>)
    ensures |r| == n && forall i :: 0 <= i < n ==> r[i] == 0
  {
    seq(n, i => 0)
  }

  /** What kernelRun does with the answer of kernelHasInputData. */
  function Answer(k: Kernel, ports: nat, phase: Phase, data: bool): Kernel {
    match phase
    case First => if data then k.(pc := Taking(Zeros(ports)), started := k.started + 1) else k.(pc := AskValid(0))
    case Second => if data then EndPass(k) else k.(pc := Closing(0, false))
  }

  /** kernelHasInputData, one port at a time. */
  function LookNext(k: Kernel, ports: nat, behaviour: Behaviour, seen: bool): Kernel
    requires k.pc.Scan?
  {
    var i, phase := k.pc.i, k.pc.phase;
    if ports == 0 then Answer(k, ports, phase, true)
    else if i >= ports then Answer(k, ports, phase, behaviour.AllPort?)
    else if behaviour.AnyPort? then if seen then Answer(k, ports, phase, true) else k.(pc := Scan(i + 1, phase))
    else if seen then k.(pc := Scan(i + 1, phase)) else Answer(k, ports, phase, false)
  }

  ghost function Next(net: Net, s: State, a: Action): (t: State)
    requires Shape(net, s) && Enabled(net, s, a)
    ensures Shape(net, t)
  {
    var k := s.ks[a.k];
    var ins, outs := net.ins[a.k], net.outs[a.k];
    match a
    case Look(_, seen) => s.(ks := s.ks[a.k := LookNext(k, |ins|, net.behaviour[a.k], seen)])
    case AskPort(_) =>
      s.(ks := s.ks[a.k :=
        if k.pc.i >= |ins| then k.(pc := Scan(0, Second))
        else if s.es[ins[k.pc.i]].valid then EndPass(k)
        else k.(pc := AskValid(k.pc.i + 1))])
    case PopOne(_, port) =>
      var e := ins[port];
      State(s.ks[a.k := k.(pc := Taking(k.pc.got[port := k.pc.got[port] + 1]), taken := k.taken + 1)],
            s.es[e := s.es[e].(len := s.es[e].len - 1)])
    case Decide(_, out) => s.(ks := s.ks[a.k := k.(pc := Emitting(out), decided := k.decided + 1)])
    case PushOne(_) =>
      var e := k.pc.todo[0];
      State(s.ks[a.k := k.(pc := Emitting(k.pc.todo[1..]), pushed := k.pushed + 1)],
            s.es[e := s.es[e].(len := s.es[e].len + 1, sent := s.es[e].sent + 1)])
    case Return(_) =>
      var stop := net.stops(a.k, k.started - 1);
      s.(ks := s.ks[a.k := k.(pc := if stop then Closing(0, true) else AskValid(0),
                              stopped := k.stopped || stop, returned := k.returned + 1)])
    case CloseOne(_) =>
      if k.pc.i < |outs| then
        State(s.ks[a.k := k.(pc := Closing(k.pc.i + 1, k.pc.stopping))],
              s.es[outs[k.pc.i] := s.es[outs[k.pc.i]].(valid := false)])
      else
        s.(ks := s.ks[a.k := if k.pc.stopping then k.(finished := true, pc := AskValid(0))
                             else EndPass(k.(finished := true))])
  }

  ghost predicate Init(net: Net, s: State)
    ensures Init(net, s) ==> Shape(net, s)
  {
    && Shape(net, s)
    && (forall k :: 0 <= k < |s.ks| ==> s.ks[k] == Kernel(Scan(0, First), false, false, 0, 0, 0, 0, 0))
    && (forall e :: 0 <= e < |s.es| ==> s.es[e] == Fifo(0, true, 0))
  }

  ghost predicate Run(net: Net, s: State, acts: seq<Action>, s': State)
    requires Shape(net, s)
    decreases |acts|
  {
    if acts == [] then s == s'
    else Enabled(net, s, acts[0]) && Run(net, Next(net, s, acts[0]), acts[1..], s')
  }

  ghost predicate Reachable(net: Net, s: State) {
    exists s0: State, acts: seq<Action> :: Init(net, s0) && Run(net, s0, acts, s)
  }

  lemma {:induction false} RunSnoc(net: Net, s: State, acts: seq<Action>, s': State, a: Action)
    requires Shape(net, s) && Run(net, s, acts, s') && Shape(net, s') && Enabled(net, s', a)
    ensures Run(net, s, acts + [a], Next(net, s', a))
    decreases |acts|
  {
    if acts == [] {
      assert Run(net, Next(net, s, a), [], Next(net, s', a));
    } else {
      RunSnoc(net, Next(net, s, acts[0]), acts[1..], s', a);
      assert (acts + [a])[1..] == acts[1..] + [a];
    }
  }

  lemma ReachableNext(net: Net, s: State, a: Action)
    requires Shape(net, s) && Reachable(net, s) && Enabled(net, s, a)
    ensures Reachable(net, Next(net, s, a))
  {
    var s0: State, acts: seq<Action> :| Init(net, s0) && Run(net, s0, acts, s);
    RunSnoc(net, s0, acts, s, a);
  }

  // ---------------------------------------------------------------- safety

  /** The kernel has begun to invalidate its outputs, so it never pushes again. */
  predicate Quiet(k: Kernel) {
    k.finished || k.pc.Closing?
  }

  ghost predicate OutsInvalid(net: Net, s: State, k: nat, n: nat)
    requires Shape(net, s) && k < |s.ks| && n <= |net.outs[k]|
  {
    forall i :: 0 <= i < n ==> !s.es[net.outs[k][i]].valid
  }

  ghost predicate InsInvalid(net: Net, s: State, k: nat, n: nat)
    requires Shape(net, s) && k < |s.ks| && n <= |net.ins[k]|
  {
    forall i :: 0 <= i < n ==> !s.es[net.ins[k][i]].valid
  }

  ghost predicate InsEmpty(net: Net, s: State, k: nat, n: nat)
    requires Shape(net, s) && k < |s.ks| && n <= |net.ins[k]|
  {
    forall i :: 0 <= i < n ==> s.es[net.ins[k][i]].len == 0
  }

  /** What justifies finishing without a stop. */
  ghost predicate Drained(net: Net, s: State, k: nat)
    requires Shape(net, s) && k < |s.ks|
  {
    && net.ins[k] != [] && InsInvalid(net, s, k, |net.ins[k]|)
    && match net.behaviour[k]
       case AnyPort => InsEmpty(net, s, k, |net.ins[k]|)
       case AllPort => exists i :: 0 <= i < |net.ins[k]| && s.es[net.ins[k][i]].len == 0
  }

  ghost predicate KernelInv(net: Net, s: State, k: nat)
    requires Shape(net, s) && k < |s.ks|
  {
    var me := s.ks[k];
    var n := |net.ins[k]|;
    && (me.finished ==> OutsInvalid(net, s, k, |net.outs[k]|))
    && (me.finished ==> me.pc.AskValid? || me.pc.Closing? || me.pc.Exited? || (me.pc.Scan? && me.pc.phase.Second?))
    && (me.finished && !me.stopped ==> Drained(net, s, k))
    && (me.pc.Exited? ==> me.finished)
    && (me.stopped ==> Quiet(me))
    && match me.pc
       case Scan(i, First) => i <= n
       case Scan(i, Second) => i <= n && InsInvalid(net, s, k, n) && (net.behaviour[k].AnyPort? ==> InsEmpty(net, s, k, i))
       case AskValid(i) => i <= n && InsInvalid(net, s, k, i)
       case Closing(i, stopping) =>
         && i <= |net.outs[k]| && OutsInvalid(net, s, k, i)
         && (stopping ==> me.stopped)
         && (!stopping ==> Drained(net, s, k))
       case Taking(got) => me.started > 0 && |got| == n
       case Emitting(todo) => me.started > 0 && forall i :: 0 <= i < |todo| ==> todo[i] in net.outs[k]
       case Exited => true
  }

  ghost predicate Safe(net: Net, s: State)
    requires Shape(net, s)
  {
    && (forall k :: 0 <= k < |s.ks| ==> KernelInv(net, s, k))
    && (forall e :: 0 <= e < |s.es| && !s.es[e].valid ==> Quiet(s.ks[net.src[e]]))
  }

  lemma InitSafe(net: Net, s: State)
    requires Init(net, s)
    ensures Safe(net, s)
  {
  }

  /** A FIFO that a kernel pushes to is still valid. */
  lemma PushesAreValid(net: Net, s: State, a: Action)
    requires Shape(net, s) && Safe(net, s) && Enabled(net, s, a) && a.PushOne?
    ensures var e := s.ks[a.k].pc.todo[0]; net.src[e] == a.k && s.es[e].valid
  {
    var k := s.ks[a.k];
    assert KernelInv(net, s, a.k);
    var e := k.pc.todo[0];
    assert e in net.outs[a.k];
    var i :| 0 <= i < |net.outs[a.k]| && net.outs[a.k][i] == e;
    assert net.src[net.outs[a.k][i]] == a.k;
    assert !Quiet(k);
  }

  /** No action makes an invalid FIFO valid, fills it, or empties one of another kernel. */
  lemma FifoStep(net: Net, s: State, a: Action, e: nat)
    requires Shape(net, s) && Safe(net, s) && Enabled(net, s, a) && e < |s.es|
    ensures var t := Next(net, s, a);
            && (!s.es[e].valid ==> !t.es[e].valid && t.es[e].len <= s.es[e].len)
            && (net.dst[e] != a.k ==> s.es[e].len <= t.es[e].len)
            && (s.es[e].valid && !t.es[e].valid ==> a.CloseOne? && net.src[e] == a.k)
  {
    if a.PushOne? {
      PushesAreValid(net, s, a);
    }
    if a.PopOne? {
      assert net.dst[net.ins[a.k][a.port]] == a.k;
    }
    if a.CloseOne? && s.ks[a.k].pc.i < |net.outs[a.k]| {
      assert net.src[net.outs[a.k][s.ks[a.k].pc.i]] == a.k;
    }
  }

  /** What a kernel knows about its ports stays true while others act. */
  lemma PortsStay(net: Net, s: State, a: Action, k: nat, n: nat)
    requires Shape(net, s) && Safe(net, s) && Enabled(net, s, a) && k < |s.ks|
    ensures var t := Next(net, s, a);
            && (n <= |net.outs[k]| && OutsInvalid(net, s, k, n) ==> OutsInvalid(net, t, k, n))
            && (n <= |net.ins[k]| && InsInvalid(net, s, k, n) ==> InsInvalid(net, t, k, n))
            && (n <= |net.ins[k]| && InsInvalid(net, s, k, |net.ins[k]|) && InsEmpty(net, s, k, n) ==> InsEmpty(net, t, k, n))
            && (Drained(net, s, k) ==> Drained(net, t, k))
  {
    hide Safe, Enabled, Next;
    var t := Next(net, s, a);
    assert |t.es| == |s.es|;
    forall e | 0 <= e < |s.es|
      ensures !s.es[e].valid ==> !t.es[e].valid && t.es[e].len <= s.es[e].len
    {
      FifoStep(net, s, a, e);
    }
    if Drained(net, s, k) && net.behaviour[k].AllPort? {
      var i :| 0 <= i < |net.ins[k]| && s.es[net.ins[k][i]].len == 0;
      assert !s.es[net.ins[k][i]].valid;
      assert t.es[net.ins[k][i]].len == 0;
    }
  }

  lemma OtherStep(net: Net, s: State, a: Action, k: nat)
    requires Shape(net, s) && Safe(net, s) && Enabled(net, s, a) && k < |s.ks| && k != a.k
    ensures KernelInv(net, Next(net, s, a), k)
  {
    hide OutsInvalid, InsInvalid, InsEmpty, Drained;
    assert KernelInv(net, s, k);
    PortsStay(net, s, a, k, |net.outs[k]|);
    PortsStay(net, s, a, k, |net.ins[k]|);
    if s.ks[k].pc.Scan? || s.ks[k].pc.AskValid? || s.ks[k].pc.Closing? {
      PortsStay(net, s, a, k, s.ks[k].pc.i);
    }
  }

  lemma OwnLook(net: Net, s: State, a: Action)
    requires Shape(net, s) && Safe(net, s) && Enabled(net, s, a) && a.Look?
    ensures KernelInv(net, Next(net, s, a), a.k)
  {
    assert KernelInv(net, s, a.k);
    var k, pc := s.ks[a.k], s.ks[a.k].pc;
    if pc.phase.Second? && pc.i < |net.ins[a.k]| && !a.seen {
      assert !s.es[net.ins[a.k][pc.i]].valid;
    }
  }

  lemma OwnAsk(net: Net, s: State, a: Action)
    requires Shape(net, s) && Safe(net, s) && Enabled(net, s, a) && a.AskPort?
    ensures KernelInv(net, Next(net, s, a), a.k)
  {
    assert KernelInv(net, s, a.k);
  }

  lemma OwnClose(net: Net, s: State, a: Action)
    requires Shape(net, s) && Safe(net, s) && Enabled(net, s, a) && a.CloseOne?
    ensures KernelInv(net, Next(net, s, a), a.k)
  {
    assert KernelInv(net, s, a.k);
    PortsStay(net, s, a, a.k, s.ks[a.k].pc.i);
    PortsStay(net, s, a, a.k, |net.outs[a.k]|);
  }

  /** In run() a kernel is not quiet, so it owes nothing about its ports. */
  lemma OwnRun(net: Net, s: State, a: Action)
    requires Shape(net, s) && Safe(net, s) && Enabled(net, s, a)
    requires a.PopOne? || a.Decide? || a.PushOne? || a.Return?
    ensures KernelInv(net, Next(net, s, a), a.k)
  {
    assert KernelInv(net, s, a.k);
    assert !Quiet(s.ks[a.k]);
  }

  lemma OwnStep(net: Net, s: State, a: Action)
    requires Shape(net, s) && Safe(net, s) && Enabled(net, s, a)
    ensures KernelInv(net, Next(net, s, a), a.k)
  {
    hide KernelInv, Next, Enabled;
    match a {
      case Look(_, _) => OwnLook(net, s, a);
      case AskPort(_) => OwnAsk(net, s, a);
      case CloseOne(_) => OwnClose(net, s, a);
      case PopOne(_, _) => OwnRun(net, s, a);
      case Decide(_, _) => OwnRun(net, s, a);
      case PushOne(_) => OwnRun(net, s, a);
      case Return(_) => OwnRun(net, s, a);
    }
  }

  lemma StepSafe(net: Net, s: State, a: Action)
    requires Shape(net, s) && Safe(net, s) && Enabled(net, s, a)
    ensures Safe(net, Next(net, s, a))
  {
    var t := Next(net, s, a);
    OwnStep(net, s, a);
    forall k | 0 <= k < |s.ks| && k != a.k
      ensures KernelInv(net, t, k)
    {
      OtherStep(net, s, a, k);
    }
    forall e | 0 <= e < |s.es| && !t.es[e].valid
      ensures Quiet(t.ks[net.src[e]])
    {
      FifoStep(net, s, a, e);
      assert KernelInv(net, s, a.k);
    }
  }

  lemma {:induction false} RunSafe(net: Net, s: State, acts: seq<Action>, s': State)
    requires Shape(net, s) && Safe(net, s) && Run(net, s, acts, s')
    ensures Shape(net, s') && Safe(net, s')
    decreases |acts|
  {
    hide Safe, Next;
    if acts != [] {
      StepSafe(net, s, acts[0]);
      RunSafe(net, Next(net, s, acts[0]), acts[1..], s');
    }
  }

  lemma ReachableSafe(net: Net, s: State)
    requires Reachable(net, s)
    ensures Shape(net, s) && Safe(net, s)
  {
    var s0: State, acts: seq<Action> :| Init(net, s0) && Run(net, s0, acts, s);
    InitSafe(net, s0);
    RunSafe(net, s0, acts, s);
  }

  /** Nothing is pushed after an invalidation, in any run. */
  lemma {:induction false} NoPushAfterInvalidate(net: Net, s: State, acts: seq<Action>, s': State, e: nat)
    requires Shape(net, s) && Safe(net, s) && Run(net, s, acts, s') && e < |s.es| && !s.es[e].valid
    ensures Shape(net, s') && !s'.es[e].valid && s'.es[e].sent == s.es[e].sent && s'.es[e].len <= s.es[e].len
    decreases |acts|
  {
    if acts != [] {
      var a := acts[0];
      if a.PushOne? {
        PushesAreValid(net, s, a);
      }
      FifoStep(net, s, a, e);
      StepSafe(net, s, a);
      NoPushAfterInvalidate(net, Next(net, s, a), acts[1..], s', e);
    }
  }

  /**
   * An any_port kernel that has finished without returning stop has all its inputs invalid
   * and empty, then and in every later state, whatever the shape of the graph.
   */
  lemma DrainBeforeFinish(net: Net, s: State, acts: seq<Action>, s': State, k: nat, port: nat)
    requires Reachable(net, s) && Shape(net, s) && Run(net, s, acts, s')
    requires k < |s.ks| && s.ks[k].finished && !s.ks[k].stopped && net.behaviour[k].AnyPort? && port < |net.ins[k]|
    ensures var e := net.ins[k][port]; !s.es[e].valid && s.es[e].len == 0
    ensures var e := net.ins[k][port]; e < |s'.es| && !s'.es[e].valid && s'.es[e].len == 0
  {
    ReachableSafe(net, s);
    assert KernelInv(net, s, k);
    NoPushAfterInvalidate(net, s, acts, s', net.ins[k][port]);
  }

  /**
   * An all_port kernel finishes when its inputs are all invalid and any one of them is
   * empty; the others may still hold items, as AllPortAbandons shows.
   */
  lemma AllPortFinish(net: Net, s: State, k: nat)
    requires Reachable(net, s) && Shape(net, s)
    requires k < |s.ks| && s.ks[k].finished && !s.ks[k].stopped && net.behaviour[k].AllPort?
    ensures forall i :: 0 <= i < |net.ins[k]| ==> !s.es[net.ins[k][i]].valid
    ensures exists i :: 0 <= i < |net.ins[k]| && s.es[net.ins[k][i]].len == 0
  {
    ReachableSafe(net, s);
    assert KernelInv(net, s, k);
  }
}
