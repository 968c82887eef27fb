/**
 * What decides whether kernelRun calls run(): the scan of the input ports in
 * kernelHasInputData, for any number of inputs, while the other kernels push as they like.
 * And a polling kernel whose inputs leave it nothing to wait for comes round to finishing.
 */
module PipelineScan {
  import opened Pipeline

  /** Kernel `k` does nothing but look at its ports. */
  ghost predicate OnlyLooks(acts: seq<Action>, k: nat) {
    forall i :: 0 <= i < |acts| && acts[i].k == k ==> acts[i].Look?
  }

  /** The answers it gets, in order. */
  function Answers(acts: seq<Action>, k: nat): seq<bool> {
    if acts == [] then []
    else if acts[0].Look? && acts[0].k == k then [acts[0].seen] + Answers(acts[1..], k)
    else Answers(acts[1..], k)
  }

  lemma LooksRest(acts: seq<Action>, k: nat)
    requires OnlyLooks(acts, k) && acts != []
    ensures OnlyLooks(acts[1..], k) && (acts[0].k == k ==> acts[0].Look?)
  {
    forall i | 0 <= i < |acts[1..]| && acts[1..][i].k == k
      ensures acts[1..][i].Look?
    {
      assert acts[1..][i] == acts[i + 1];
    }
  }

  lemma OtherKernel(net: Net, s: State, a: Action, k: nat)
    requires Shape(net, s) && Enabled(net, s, a) && k < |s.ks| && a.k != k
    ensures Next(net, s, a).ks[k] == s.ks[k]
  {
  }

  /** What the rest of a scan that has got to port `i` decides, by the answers it gets. */
  ghost predicate Favourable(net: Net, k: nat, i: nat, answers: seq<bool>)
    requires k < |net.ins| == |net.behaviour|
  {
    var n := |net.ins[k]|;
    n == 0 ||
    match net.behaviour[k]
    case AnyPort => exists p :: 0 <= p < |answers| && i + p < n && answers[p]
    case AllPort => n <= i + |answers| && forall p :: 0 <= p < n - i ==> answers[p]
  }

  /** One look of a first scan: on to the next port, or a decision. */
  lemma LookStep(net: Net, s: State, a: Action)
    requires Shape(net, s) && Enabled(net, s, a) && a.Look?
    requires s.ks[a.k].pc.phase.First? && s.ks[a.k].pc.i <= |net.ins[a.k]|
    ensures var k, i, pc := a.k, s.ks[a.k].pc.i, Next(net, s, a).ks[a.k].pc;
            if pc.Scan? then
              pc == Scan(i + 1, First) && i < |net.ins[k]| && (net.behaviour[k].AnyPort? <==> !a.seen)
            else
              && pc == (if Favourable(net, k, i, [a.seen]) then Taking(Zeros(|net.ins[k]|)) else AskValid(0))
              && (!pc.Taking? && net.behaviour[k].AnyPort? ==> |net.ins[k]| <= i + 1)
    ensures Next(net, s, a).es == s.es
  {
    assert [a.seen][0] == a.seen;
  }

  lemma {:induction false} ScanFrom(net: Net, s: State, acts: seq<Action>, s': State, k: nat)
    requires Shape(net, s) && Run(net, s, acts, s') && Shape(net, s') && k < |s.ks| && OnlyLooks(acts, k)
    requires s.ks[k].pc.Scan? && s.ks[k].pc.phase.First? && s.ks[k].pc.i <= |net.ins[k]| && !s'.ks[k].pc.Scan?
    ensures s'.ks[k].pc == if Favourable(net, k, s.ks[k].pc.i, Answers(acts, k)) then Taking(Zeros(|net.ins[k]|)) else AskValid(0)
    ensures !s'.ks[k].pc.Taking? && net.behaviour[k].AnyPort? ==> |net.ins[k]| <= s.ks[k].pc.i + |Answers(acts, k)|
    decreases |acts|
  {
    var a, t := acts[0], Next(net, s, acts[0]);
    LooksRest(acts, k);
    if a.k != k {
      OtherKernel(net, s, a, k);
      hide Next, Enabled, Favourable;
      ScanFrom(net, t, acts[1..], s', k);
    } else {
      LookStep(net, s, a);
      hide Next, Enabled, Favourable;
      if t.ks[k].pc.Scan? {
        ScanFrom(net, t, acts[1..], s', k);
        FavourableNext(net, k, s.ks[k].pc.i, a.seen, Answers(acts[1..], k));
      } else {
        NoMoreLooks(net, t, acts[1..], s', k);
        assert Answers(acts, k) == [a.seen];
      }
    }
  }

  lemma FavourableNext(net: Net, k: nat, i: nat, seen: bool, answers: seq<bool>)
    requires k < |net.ins| == |net.behaviour| && i < |net.ins[k]|
    requires net.behaviour[k].AnyPort? <==> !seen
    ensures Favourable(net, k, i, [seen] + answers) <==> Favourable(net, k, i + 1, answers)
  {
    var all := [seen] + answers;
    assert forall p :: 0 <= p < |answers| ==> answers[p] == all[p + 1];
    assert forall p :: 0 < p < |all| ==> all[p] == answers[p - 1];
  }

  /** Outside a scan it looks at nothing. */
  lemma {:induction false} NoMoreLooks(net: Net, s: State, acts: seq<Action>, s': State, k: nat)
    requires Shape(net, s) && Run(net, s, acts, s') && Shape(net, s') && k < |s.ks| && OnlyLooks(acts, k) && !s.ks[k].pc.Scan?
    ensures s'.ks[k] == s.ks[k] && Answers(acts, k) == []
    decreases |acts|
  {
    if acts != [] {
      LooksRest(acts, k);
      OtherKernel(net, s, acts[0], k);
      NoMoreLooks(net, Next(net, s, acts[0]), acts[1..], s', k);
    }
  }

  /**
   * From the beginning of a scan to its end: an any_port kernel enters run() iff some look
   * found data, and otherwise has looked at every input; an all_port kernel enters run() iff
   * the look at every input found data.  A kernel without inputs always does.
   */
  lemma ScanDecides(net: Net, s: State, acts: seq<Action>, s': State, k: nat)
    requires Shape(net, s) && Run(net, s, acts, s') && Shape(net, s') && k < |s.ks| && OnlyLooks(acts, k)
    requires s.ks[k].pc == Scan(0, First) && !s'.ks[k].pc.Scan?
    ensures var n, saw := |net.ins[k]|, Answers(acts, k);
            && (net.behaviour[k].AnyPort? ==>
                  && (s'.ks[k].pc.Taking? <==> n == 0 || exists p :: 0 <= p < n && p < |saw| && saw[p])
                  && (!s'.ks[k].pc.Taking? ==> n <= |saw|))
            && (net.behaviour[k].AllPort? ==>
                  (s'.ks[k].pc.Taking? <==> n == 0 || (n <= |saw| && forall p :: 0 <= p < n ==> saw[p])))
    ensures s'.ks[k].pc == if s'.ks[k].pc.Taking? then Taking(Zeros(|net.ins[k]|)) else AskValid(0)
  {
    ScanFrom(net, s, acts, s', k);
  }

  /** No scan looks more than once at a port, and once more to conclude. */
  lemma {:induction false} ScanIsShort(net: Net, s: State, acts: seq<Action>, s': State, k: nat)
    requires Shape(net, s) && Run(net, s, acts, s') && Shape(net, s') && k < |s.ks| && OnlyLooks(acts, k)
    requires s.ks[k].pc.Scan? && s.ks[k].pc.phase.First? && s.ks[k].pc.i <= |net.ins[k]|
    ensures s.ks[k].pc.i + |Answers(acts, k)| <= |net.ins[k]| + 1
    decreases |acts|
  {
    if acts != [] {
      var a, t := acts[0], Next(net, s, acts[0]);
      LooksRest(acts, k);
      if a.k != k {
        OtherKernel(net, s, a, k);
        hide Next, Enabled;
        ScanIsShort(net, t, acts[1..], s', k);
      } else {
        LookStep(net, s, a);
        hide Next, Enabled, Favourable;
        if t.ks[k].pc.Scan? {
          ScanIsShort(net, t, acts[1..], s', k);
        } else {
          NoMoreLooks(net, t, acts[1..], s', k);
        }
      }
    }
  }

  // ---------------------------------------------------------------- what is in the FIFOs

  ghost predicate HasData(net: Net, s: State, k: nat, p: nat)
    requires Shape(net, s) && k < |net.ins| && p < |net.ins[k]|
  {
    s.es[net.ins[k][p]].len > 0
  }

  /** The size an action of `k` sees is the true one. */
  ghost predicate SeesRight(net: Net, s: State, a: Action, k: nat)
    requires Shape(net, s) && k < |s.ks|
  {
    var pc := s.ks[k].pc;
    a.k == k && a.Look? && pc.Scan? && pc.i < |net.ins[k]| ==> (a.seen <==> HasData(net, s, k, pc.i))
  }

  ghost predicate ExactLooks(net: Net, s: State, acts: seq<Action>, k: nat)
    requires Shape(net, s) && k < |s.ks|
    decreases |acts|
  {
    acts == [] ||
    (SeesRight(net, s, acts[0], k) && (Enabled(net, s, acts[0]) ==> ExactLooks(net, Next(net, s, acts[0]), acts[1..], k)))
  }

  /** While `k` only looks, none of its inputs loses an item. */
  lemma InputsStay(net: Net, s: State, a: Action, k: nat, p: nat)
    requires Shape(net, s) && Safe(net, s) && Enabled(net, s, a) && k < |s.ks| && p < |net.ins[k]| && (a.k == k ==> a.Look?)
    requires HasData(net, s, k, p)
    ensures HasData(net, Next(net, s, a), k, p)
  {
    var e := net.ins[k][p];
    assert net.dst[e] == k;
    if a.k != k {
      FifoStep(net, s, a, e);
    }
  }

  lemma {:induction false} DataStays(net: Net, s: State, acts: seq<Action>, s': State, k: nat, p: nat)
    requires Shape(net, s) && Safe(net, s) && Run(net, s, acts, s') && Shape(net, s') && k < |s.ks| && OnlyLooks(acts, k)
    requires p < |net.ins[k]| && HasData(net, s, k, p)
    ensures HasData(net, s', k, p)
    decreases |acts|
  {
    if acts != [] {
      LooksRest(acts, k);
      InputsStay(net, s, acts[0], k, p);
      StepSafe(net, s, acts[0]);
      hide Safe, Next, Enabled, HasData;
      DataStays(net, Next(net, s, acts[0]), acts[1..], s', k, p);
    }
  }

  /** The inputs from port `i` on let the scan succeed. */
  ghost predicate Plenty(net: Net, s: State, k: nat, i: nat)
    requires Shape(net, s) && k < |net.ins|
  {
    net.ins[k] == [] ||
    match net.behaviour[k]
    case AnyPort => exists p :: i <= p < |net.ins[k]| && HasData(net, s, k, p)
    case AllPort => forall p :: i <= p < |net.ins[k]| ==> HasData(net, s, k, p)
  }

  lemma PlentyStays(net: Net, s: State, a: Action, k: nat, i: nat)
    requires Shape(net, s) && Safe(net, s) && Enabled(net, s, a) && k < |s.ks| && (a.k == k ==> a.Look?)
    requires Plenty(net, s, k, i)
    ensures Plenty(net, Next(net, s, a), k, i)
  {
    var t := Next(net, s, a);
    forall p | i <= p < |net.ins[k]| && HasData(net, s, k, p)
      ensures HasData(net, t, k, p)
    {
      InputsStay(net, s, a, k, p);
    }
    hide Next, HasData;
  }

  lemma {:induction false} PlentyRuns(net: Net, s: State, acts: seq<Action>, s': State, k: nat)
    requires Shape(net, s) && Safe(net, s) && Run(net, s, acts, s') && Shape(net, s') && k < |s.ks| && OnlyLooks(acts, k)
    requires s.ks[k].pc.Scan? && s.ks[k].pc.phase.First? && !s'.ks[k].pc.Scan?
    requires Plenty(net, s, k, s.ks[k].pc.i) && ExactLooks(net, s, acts, k)
    ensures s'.ks[k].pc.Taking?
    decreases |acts|
  {
    var a, t := acts[0], Next(net, s, acts[0]);
    LooksRest(acts, k);
    StepSafe(net, s, a);
    PlentyStays(net, s, a, k, s.ks[k].pc.i);
    if a.k != k {
      OtherKernel(net, s, a, k);
      PlentyRuns(net, t, acts[1..], s', k);
    } else if t.ks[k].pc.Scan? {
      hide Safe;
      assert t.es == s.es;
      PlentyRuns(net, t, acts[1..], s', k);
    } else {
      NoMoreLooks(net, t, acts[1..], s', k);
    }
  }

  lemma {:induction false} RunHasPlenty(net: Net, s: State, acts: seq<Action>, s': State, k: nat)
    requires Shape(net, s) && Safe(net, s) && Run(net, s, acts, s') && Shape(net, s') && k < |s.ks| && OnlyLooks(acts, k)
    requires s.ks[k].pc.Scan? && s.ks[k].pc.phase.First? && s.ks[k].pc.i <= |net.ins[k]| && s'.ks[k].pc.Taking?
    requires net.behaviour[k].AllPort? ==> forall p :: 0 <= p < s.ks[k].pc.i ==> HasData(net, s, k, p)
    ensures Plenty(net, s', k, 0)
    decreases |acts|
  {
    var a, t := acts[0], Next(net, s, acts[0]);
    LooksRest(acts, k);
    StepSafe(net, s, a);
    forall p | 0 <= p < |net.ins[k]| && HasData(net, s, k, p)
      ensures HasData(net, t, k, p) && HasData(net, s', k, p)
    {
      InputsStay(net, s, a, k, p);
      DataStays(net, s, acts, s', k, p);
    }
    if a.k != k {
      OtherKernel(net, s, a, k);
      hide Next, Enabled, HasData, Safe;
      RunHasPlenty(net, t, acts[1..], s', k);
    } else {
      LookStep(net, s, a);
      if a.seen && s.ks[k].pc.i < |net.ins[k]| {
        SeenIsThere(net, s, a);
      }
      hide Next, Enabled, HasData, Safe;
      if t.ks[k].pc.Scan? {
        RunHasPlenty(net, t, acts[1..], s', k);
      } else {
        NoMoreLooks(net, t, acts[1..], s', k);
      }
    }
  }

  lemma SeenIsThere(net: Net, s: State, a: Action)
    requires Shape(net, s) && Enabled(net, s, a) && a.Look? && s.ks[a.k].pc.i < |net.ins[a.k]| && a.seen
    ensures HasData(net, s, a.k, s.ks[a.k].pc.i)
  {
  }

  /**
   * A scan that sees the true sizes enters run() if an any_port kernel has data on some
   * input, or an all_port kernel on every input, when the scan begins; and whatever sizes it
   * sees, it enters run() only if that is so when it ends.
   */
  lemma ScanFindsData(net: Net, s: State, acts: seq<Action>, s': State, k: nat)
    requires Reachable(net, s) && Shape(net, s) && Run(net, s, acts, s') && Shape(net, s') && k < |s.ks| && OnlyLooks(acts, k)
    requires s.ks[k].pc == Scan(0, First) && !s'.ks[k].pc.Scan? && net.ins[k] != []
    ensures ExactLooks(net, s, acts, k) ==>
              match net.behaviour[k]
              case AnyPort => (exists p :: 0 <= p < |net.ins[k]| && s.es[net.ins[k][p]].len > 0) ==> s'.ks[k].pc.Taking?
              case AllPort => (forall p :: 0 <= p < |net.ins[k]| ==> s.es[net.ins[k][p]].len > 0) ==> s'.ks[k].pc.Taking?
    ensures s'.ks[k].pc.Taking? ==>
              match net.behaviour[k]
              case AnyPort => exists p :: 0 <= p < |net.ins[k]| && s'.es[net.ins[k][p]].len > 0
              case AllPort => forall p :: 0 <= p < |net.ins[k]| ==> s'.es[net.ins[k][p]].len > 0
  {
    ReachableSafe(net, s);
    if ExactLooks(net, s, acts, k) && Plenty(net, s, k, 0) {
      PlentyRuns(net, s, acts, s', k);
    }
    if s'.ks[k].pc.Taking? {
      RunHasPlenty(net, s, acts, s', k);
    }
    hide Safe, Run, ExactLooks;
    assert forall p :: 0 <= p < |net.ins[k]| ==> (HasData(net, s, k, p) <==> s.es[net.ins[k][p]].len > 0);
    assert forall p :: 0 <= p < |net.ins[k]| ==> (HasData(net, s', k, p) <==> s'.es[net.ins[k][p]].len > 0);
  }

  // ---------------------------------------------------------------- finishing

  /** By its own steps alone kernel `k` can finish. */
  ghost predicate CanFinish(net: Net, s: State, k: nat)
    requires Shape(net, s)
  {
    exists acts: seq<Action>, s': State ::
      && Run(net, s, acts, s') && (forall i :: 0 <= i < |acts| ==> acts[i].k == k)
      && k < |s'.ks| && s'.ks[k].finished
  }

  lemma FinishNext(net: Net, s: State, a: Action)
    requires Shape(net, s) && Enabled(net, s, a) && CanFinish(net, Next(net, s, a), a.k)
    ensures CanFinish(net, s, a.k)
  {
    var t := Next(net, s, a);
    var acts: seq<Action>, s': State :|
      && Run(net, t, acts, s') && (forall i :: 0 <= i < |acts| ==> acts[i].k == a.k)
      && a.k < |s'.ks| && s'.ks[a.k].finished;
    assert ([a] + acts)[1..] == acts;
    assert Run(net, s, [a] + acts, s');
  }

  lemma FinishedNow(net: Net, s: State, k: nat)
    requires Shape(net, s) && k < |s.ks| && s.ks[k].finished
    ensures CanFinish(net, s, k)
  {
    assert Run(net, s, [], s);
  }

  lemma CloseFinishes(net: Net, s: State, k: nat)
    requires Shape(net, s) && Safe(net, s) && k < |s.ks| && s.ks[k].pc.Closing?
    ensures CanFinish(net, s, k)
    decreases |net.outs[k]| - s.ks[k].pc.i
  {
    assert KernelInv(net, s, k);
    var a := CloseOne(k);
    var t := Next(net, s, a);
    StepSafe(net, s, a);
    hide CanFinish, Safe, KernelInv;
    if t.ks[k].finished {
      FinishedNow(net, t, k);
    } else {
      CloseFinishes(net, t, k);
    }
    FinishNext(net, s, a);
  }

  /** The inputs of `k` are closed, and its behaviour has nothing to wait for: input `q` is empty, or all are. */
  ghost predicate NothingToAwait(net: Net, s: State, k: nat, q: nat)
    requires Shape(net, s) && k < |s.ks|
  {
    && q < |net.ins[k]| && InsInvalid(net, s, k, |net.ins[k]|)
    && match net.behaviour[k]
       case AnyPort => InsEmpty(net, s, k, |net.ins[k]|)
       case AllPort => s.es[net.ins[k][q]].len == 0 && (s.ks[k].pc.Scan? ==> s.ks[k].pc.i <= q)
  }

  /** The order in which a pass visits the places of its loop. */
  function PassRank(pc: Pc, n: nat): int {
    match pc
    case Scan(i, First) => 3 * (n + 2) + n - i
    case AskValid(i) => 2 * (n + 2) + n - i
    case Scan(i, Second) => n + 2 + n - i
    case _ => 0
  }

  /** The step of a pass over closed inputs. */
  function PassStep(net: Net, s: State, k: nat): Action
    requires k < |s.ks| && k < |net.ins|
  {
    var pc, ins := s.ks[k].pc, net.ins[k];
    if pc.Scan? then Look(k, pc.i < |ins| && ins[pc.i] < |s.es| && s.es[ins[pc.i]].len > 0) else AskPort(k)
  }

  lemma PassGoesOn(net: Net, s: State, k: nat, q: nat)
    requires Shape(net, s) && Safe(net, s) && k < |s.ks| && NothingToAwait(net, s, k, q)
    requires s.ks[k].pc.Scan? || s.ks[k].pc.AskValid?
    ensures Enabled(net, s, PassStep(net, s, k))
    ensures var t := Next(net, s, PassStep(net, s, k));
            && (t.ks[k].pc.Closing? || (NothingToAwait(net, t, k, q) && (t.ks[k].pc.Scan? || t.ks[k].pc.AskValid?)))
            && 0 <= PassRank(t.ks[k].pc, |net.ins[k]|) < PassRank(s.ks[k].pc, |net.ins[k]|)
  {
    assert KernelInv(net, s, k);
  }

  lemma PassFinishes(net: Net, s: State, k: nat, q: nat)
    requires Shape(net, s) && Safe(net, s) && k < |s.ks| && NothingToAwait(net, s, k, q)
    requires s.ks[k].pc.Scan? || s.ks[k].pc.AskValid?
    ensures CanFinish(net, s, k)
    decreases PassRank(s.ks[k].pc, |net.ins[k]|)
  {
    var a := PassStep(net, s, k);
    PassGoesOn(net, s, k, q);
    StepSafe(net, s, a);
    var t := Next(net, s, a);
    assert a.k == k;
    hide CanFinish, Safe, NothingToAwait, PassRank, PassStep, Next, Enabled;
    if t.ks[k].pc.Closing? {
      CloseFinishes(net, t, k);
    } else {
      PassFinishes(net, t, k, q);
    }
    FinishNext(net, s, a);
  }

  /**
   * A polling kernel with any number of inputs, all closed, finishes by its own steps: an
   * any_port kernel if all of them are empty, an all_port kernel if one of them is.
   */
  lemma DrainedFinishes(net: Net, s: State, k: nat)
    requires Reachable(net, s) && Shape(net, s) && k < |s.ks| && net.ins[k] != []
    requires s.ks[k].pc == Scan(0, First) || s.ks[k].pc.AskValid?
    requires forall p :: 0 <= p < |net.ins[k]| ==> !s.es[net.ins[k][p]].valid
    requires match net.behaviour[k]
             case AnyPort => forall p :: 0 <= p < |net.ins[k]| ==> s.es[net.ins[k][p]].len == 0
             case AllPort => exists p :: 0 <= p < |net.ins[k]| && s.es[net.ins[k][p]].len == 0
    ensures CanFinish(net, s, k)
  {
    ReachableSafe(net, s);
    var q: nat :| q < |net.ins[k]| && s.es[net.ins[k][q]].len == 0;
    PassFinishes(net, s, k, q);
  }

  // ---------------------------------------------------------------- stopping

  lemma QuietStep(net: Net, s: State, a: Action, k: nat)
    requires Shape(net, s) && Safe(net, s) && Enabled(net, s, a) && k < |s.ks| && Quiet(s.ks[k])
    ensures var me, me' := s.ks[k], Next(net, s, a).ks[k];
            Quiet(me') && me'.started == me.started && me'.pushed == me.pushed && me'.taken == me.taken
  {
    assert KernelInv(net, s, k);
  }

  lemma {:induction false} QuietRun(net: Net, s: State, acts: seq<Action>, s': State, k: nat)
    requires Shape(net, s) && Safe(net, s) && Run(net, s, acts, s') && Shape(net, s') && k < |s.ks| && Quiet(s.ks[k])
    ensures s'.ks[k].started == s.ks[k].started && s'.ks[k].pushed == s.ks[k].pushed && s'.ks[k].taken == s.ks[k].taken
    decreases |acts|
  {
    if acts != [] {
      QuietStep(net, s, acts[0], k);
      StepSafe(net, s, acts[0]);
      hide Safe, Next, Enabled;
      QuietRun(net, Next(net, s, acts[0]), acts[1..], s', k);
    }
  }

  /**
   * A kernel whose run returns stop finishes by its own steps, whatever its inputs hold, and
   * never runs, takes or pushes again.
   */
  lemma StopFinishes(net: Net, s: State, k: nat, acts: seq<Action>, s': State)
    requires Reachable(net, s) && Shape(net, s) && k < |s.ks| && Enabled(net, s, Return(k)) && net.stops(k, s.ks[k].started - 1)
    requires Run(net, Next(net, s, Return(k)), acts, s') && Shape(net, s')
    ensures CanFinish(net, s, k)
    ensures s'.ks[k].started == s.ks[k].started && s'.ks[k].pushed == s.ks[k].pushed && s'.ks[k].taken == s.ks[k].taken
  {
    ReachableSafe(net, s);
    var t := Next(net, s, Return(k));
    StepSafe(net, s, Return(k));
    assert t.ks[k].pc.Closing?;
    hide Safe, CanFinish;
    CloseFinishes(net, t, k);
    FinishNext(net, s, Return(k));
    QuietRun(net, t, acts, s', k);
  }
}
