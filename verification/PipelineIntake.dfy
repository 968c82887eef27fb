/**
 * What kernels take from their inputs, and what follows for all_port kernels and for kernels
 * that wait for several items: both leave items behind exactly when the numbers of items
 * they were sent do not fit what their runs take.
 */
module PipelineIntake {
  import opened Pipeline
  import opened PipelineProgress

  /** Items the first `n` runs of kernel `k` wait for on input `p`. */
  ghost function Demand(net: Net, k: nat, p: nat, n: nat): nat {
    if n == 0 then 0 else Demand(net, k, p, n - 1) + net.wants(k, n - 1, p)
  }

  /** Its runs take what they wait for and no more. */
  ghost predicate Exact(net: Net, k: nat) {
    forall j: nat, p: nat :: net.wants(k, j, p) == net.most(k, j, p)
  }

  /** Items taken from a FIFO so far. */
  function Taken(f: Fifo): int {
    f.sent - f.len
  }

  /** What has been taken from each input is what the decided runs and the present one took. */
  ghost predicate Intake(net: Net, s: State, k: nat)
    requires Shape(net, s) && k < |s.ks|
  {
    var me, ins := s.ks[k], net.ins[k];
    && me.started == me.decided + (if me.pc.Taking? then 1 else 0)
    && (me.pc.Taking? ==> |me.pc.got| == |ins|)
    && (me.pc.Taking? ==> forall p :: 0 <= p < |ins| ==> me.pc.got[p] <= net.most(k, me.decided, p))
    && (Exact(net, k) ==> forall p :: 0 <= p < |ins| ==>
          Taken(s.es[ins[p]]) == Demand(net, k, p, me.decided) + (if me.pc.Taking? then me.pc.got[p] else 0))
  }

  ghost predicate Intakes(net: Net, s: State)
    requires Shape(net, s)
  {
    forall k :: 0 <= k < |s.ks| ==> Intake(net, s, k)
  }

  /** Only a pop changes the number of items taken from a FIFO. */
  lemma TakenStep(net: Net, s: State, a: Action, e: nat)
    requires Shape(net, s) && Enabled(net, s, a) && e < |s.es|
    ensures Taken(Next(net, s, a).es[e]) == Taken(s.es[e]) + if a.PopOne? && e == net.ins[a.k][a.port] then 1 else 0
  {
  }

  lemma OtherIntake(net: Net, s: State, a: Action, k: nat)
    requires Shape(net, s) && Enabled(net, s, a) && Intakes(net, s) && k < |s.ks| && k != a.k
    ensures Intake(net, Next(net, s, a), k)
  {
    var t := Next(net, s, a);
    assert Intake(net, s, k) && t.ks[k] == s.ks[k];
    hide Enabled, Next;
    forall p | 0 <= p < |net.ins[k]|
      ensures Taken(t.es[net.ins[k][p]]) == Taken(s.es[net.ins[k][p]])
    {
      TakenStep(net, s, a, net.ins[k][p]);
      PopsOwnInput(net, s, a);
    }
  }

  lemma PopsOwnInput(net: Net, s: State, a: Action)
    requires Shape(net, s) && Enabled(net, s, a)
    ensures a.PopOne? ==> a.port < |net.ins[a.k]| && net.dst[net.ins[a.k][a.port]] == a.k
  {
  }

  lemma OwnIntake(net: Net, s: State, a: Action)
    requires Shape(net, s) && Enabled(net, s, a) && Intakes(net, s)
    ensures Intake(net, Next(net, s, a), a.k)
  {
    var t, k := Next(net, s, a), a.k;
    assert Intake(net, s, k);
    forall p | 0 <= p < |net.ins[k]|
      ensures Taken(t.es[net.ins[k][p]]) == Taken(s.es[net.ins[k][p]]) + if a.PopOne? && p == a.port then 1 else 0
    {
      TakenStep(net, s, a, net.ins[k][p]);
    }
    OwnCounters(net, s, a);
    hide Next, Enabled, Taken, Shape;
  }

  /** How an action changes the counters of its own kernel. */
  lemma OwnCounters(net: Net, s: State, a: Action)
    requires Shape(net, s) && Enabled(net, s, a)
    requires s.ks[a.k].started == s.ks[a.k].decided + (if s.ks[a.k].pc.Taking? then 1 else 0)
    ensures var me, me' := s.ks[a.k], Next(net, s, a).ks[a.k];
            && me'.started == me'.decided + (if me'.pc.Taking? then 1 else 0)
            && (if a.PopOne? then
                  && me.pc.Taking? && a.port < |me.pc.got| && me.pc.got[a.port] < net.most(a.k, me.decided, a.port)
                  && me' == me.(pc := Taking(me.pc.got[a.port := me.pc.got[a.port] + 1]), taken := me.taken + 1)
                else if a.Decide? then
                  && me.pc.Taking? && |me.pc.got| == |net.ins[a.k]| && me'.decided == me.decided + 1 && !me'.pc.Taking?
                  && forall p :: 0 <= p < |net.ins[a.k]| ==> net.wants(a.k, me.decided, p) <= me.pc.got[p]
                else
                  && me'.decided == me.decided && !me.pc.Taking?
                  && (me'.pc.Taking? ==> me'.pc == Taking(Zeros(|net.ins[a.k]|))))
  {
  }

  lemma {:induction false} RunIntakes(net: Net, s: State, acts: seq<Action>, s': State)
    requires Shape(net, s) && Intakes(net, s) && Run(net, s, acts, s')
    ensures Shape(net, s') && Intakes(net, s')
    decreases |acts|
  {
    hide Intake, Next, Enabled;
    if acts != [] {
      var t := Next(net, s, acts[0]);
      OwnIntake(net, s, acts[0]);
      forall k | 0 <= k < |s.ks| && k != acts[0].k
        ensures Intake(net, t, k)
      {
        OtherIntake(net, s, acts[0], k);
      }
      assert |t.ks| == |s.ks|;
      RunIntakes(net, t, acts[1..], s');
    }
  }

  lemma InitIntakes(net: Net, s: State)
    requires Init(net, s)
    ensures Shape(net, s) && Intakes(net, s)
  {
  }

  lemma ReachableIntake(net: Net, s: State, k: nat)
    requires Reachable(net, s) && Shape(net, s) && k < |s.ks|
    ensures Intake(net, s, k)
  {
    hide Intake, Init, Run;
    var s0: State, acts: seq<Action> :| Init(net, s0) && Run(net, s0, acts, s);
    InitIntakes(net, s0);
    RunIntakes(net, s0, acts, s);
  }

  // ---------------------------------------------------------------- all_port kernels

  ghost predicate TakenEqually(net: Net, s: State, k: nat)
    requires Shape(net, s) && k < |s.ks|
  {
    forall p, q :: 0 <= p < |net.ins[k]| && 0 <= q < |net.ins[k]| ==> Taken(s.es[net.ins[k][p]]) == Taken(s.es[net.ins[k][q]])
  }

  ghost predicate SentEqually(net: Net, s: State, k: nat)
    requires Shape(net, s) && k < |s.ks|
  {
    forall p, q :: 0 <= p < |net.ins[k]| && 0 <= q < |net.ins[k]| ==> s.es[net.ins[k][p]].sent == s.es[net.ins[k][q]].sent
  }

  /** An all_port kernel that has taken equally many items from each input finishes drained iff it was sent equally many. */
  lemma AllPortDrainedIff(net: Net, s: State, k: nat)
    requires Reachable(net, s) && Shape(net, s) && k < |s.ks| && TakenEqually(net, s, k)
    requires s.ks[k].finished && !s.ks[k].stopped && net.behaviour[k].AllPort?
    ensures InsEmpty(net, s, k, |net.ins[k]|) <==> SentEqually(net, s, k)
  {
    AllPortFinish(net, s, k);
    if SentEqually(net, s, k) {
      var i :| 0 <= i < |net.ins[k]| && s.es[net.ins[k][i]].len == 0;
      forall p | 0 <= p < |net.ins[k]|
        ensures s.es[net.ins[k][p]].len == 0
      {
        assert Taken(s.es[net.ins[k][p]]) == Taken(s.es[net.ins[k][i]]);
      }
    }
    if InsEmpty(net, s, k, |net.ins[k]|) {
      forall p, q | 0 <= p < |net.ins[k]| && 0 <= q < |net.ins[k]|
        ensures s.es[net.ins[k][p]].sent == s.es[net.ins[k][q]].sent
      {
        assert Taken(s.es[net.ins[k][p]]) == Taken(s.es[net.ins[k][q]]);
      }
    }
  }

  /** Each run takes the same number of items from every input; one from each, for instance. */
  ghost predicate Joins(net: Net, k: nat) {
    Exact(net, k) && forall j: nat, p: nat :: net.wants(k, j, p) == net.wants(k, j, 0)
  }

  lemma {:induction false} DemandEqual(net: Net, k: nat, p: nat, n: nat)
    requires Joins(net, k)
    ensures Demand(net, k, p, n) == Demand(net, k, 0, n)
  {
    if n > 0 {
      DemandEqual(net, k, p, n - 1);
    }
  }

  /** Outside run() it has taken equally many from each. */
  lemma JoinsTakeEqually(net: Net, s: State, k: nat)
    requires Reachable(net, s) && Shape(net, s) && k < |s.ks| && Joins(net, k) && !s.ks[k].pc.Taking?
    ensures TakenEqually(net, s, k)
  {
    ReachableIntake(net, s, k);
    forall p | 0 <= p < |net.ins[k]|
      ensures Taken(s.es[net.ins[k][p]]) == Demand(net, k, 0, s.ks[k].decided)
    {
      DemandEqual(net, k, p, s.ks[k].decided);
    }
  }

  /**
   * Exactly when items are abandoned: an all_port kernel whose runs take equally many items
   * from each input has, once it has finished, drained all of them for good iff all of
   * them were sent the same number of items.
   */
  lemma AllPortDrainsIff(net: Net, s: State, acts: seq<Action>, s': State, k: nat)
    requires Reachable(net, s) && Shape(net, s) && Run(net, s, acts, s') && k < |s.ks| && Joins(net, k)
    requires s.ks[k].finished && !s.ks[k].stopped && net.behaviour[k].AllPort?
    ensures InsEmpty(net, s, k, |net.ins[k]|) <==> SentEqually(net, s, k)
    ensures Shape(net, s') && |s'.ks| == |s.ks|
    ensures SentEqually(net, s, k) ==> InsEmpty(net, s', k, |net.ins[k]|) && SentEqually(net, s', k)
  {
    ReachableSafe(net, s);
    assert KernelInv(net, s, k);
    JoinsTakeEqually(net, s, k);
    AllPortDrainedIff(net, s, k);
    RunSafe(net, s, acts, s');
    forall p | 0 <= p < |net.ins[k]|
      ensures var e := net.ins[k][p]; s'.es[e].sent == s.es[e].sent && s'.es[e].len <= s.es[e].len
    {
      NoPushAfterInvalidate(net, s, acts, s', net.ins[k][p]);
    }
  }

  /** With a single input nothing is ever left behind, whatever the runs take. */
  lemma SingleInputDrains(net: Net, s: State, k: nat)
    requires Reachable(net, s) && Shape(net, s) && k < |s.ks| && |net.ins[k]| == 1
    requires s.ks[k].finished && !s.ks[k].stopped
    ensures var f := s.es[net.ins[k][0]]; !f.valid && f.len == 0 && Taken(f) == f.sent
  {
    ReachableSafe(net, s);
    assert KernelInv(net, s, k);
  }

  // ---------------------------------------------------------------- runs that wait for several items

  lemma {:induction false} DemandGrows(net: Net, k: nat, m: nat, n: nat)
    requires m < n && forall j: nat :: 1 <= net.wants(k, j, 0)
    ensures Demand(net, k, 0, m) + net.wants(k, m, 0) <= Demand(net, k, 0, n)
  {
    if m < n - 1 {
      DemandGrows(net, k, m, n - 1);
      assert 1 <= net.wants(k, n - 1, 0);
    }
  }

  /** The items sent to kernel `k` are just enough for some number of runs. */
  ghost predicate Divides(net: Net, s: State, k: nat)
    requires Shape(net, s) && k < |s.ks|
  {
    net.ins[k] != [] ==> exists r: nat :: s.es[net.ins[k][0]].sent == Demand(net, k, 0, r)
  }

  /** What a starved kernel was sent: the demand of its runs so far, and part of the next. */
  lemma StarvedSent(net: Net, rank: nat -> nat, limit: nat -> nat, s: State, k: nat)
    requires Progressive(net, rank, limit) && Reachable(net, s) && Shape(net, s) && k < |s.ks|
    requires Exact(net, k) && Starved(net, s, k)
    ensures net.ins[k] != [] && net.ins[k][0] < |s.es|
    ensures var d := s.ks[k].decided;
            Demand(net, k, 0, d) < s.es[net.ins[k][0]].sent < Demand(net, k, 0, d) + net.wants(k, d, 0)
  {
    ReachableGood(net, rank, limit, s);
    ReachableIntake(net, s, k);
    hide Exact, Demand;
    assert KernelInv(net, s, k) && Counted(net, limit, s, k);
  }

  /** A kernel starves only on a number of items that no number of its runs takes. */
  lemma StarvedDoesNotDivide(net: Net, rank: nat -> nat, limit: nat -> nat, s: State, k: nat)
    requires Progressive(net, rank, limit) && Reachable(net, s) && Shape(net, s) && k < |s.ks|
    requires Exact(net, k) && Starved(net, s, k)
    ensures !Divides(net, s, k)
  {
    hide Reachable, Starved, Exact, Demand;
    StarvedSent(net, rank, limit, s, k);
    Between(net, k, s.ks[k].decided, s.es[net.ins[k][0]].sent);
  }

  lemma Between(net: Net, k: nat, d: nat, m: nat)
    requires forall j: nat :: 1 <= net.wants(k, j, 0)
    requires Demand(net, k, 0, d) < m < Demand(net, k, 0, d) + net.wants(k, d, 0)
    ensures forall r: nat :: m != Demand(net, k, 0, r)
  {
    hide Demand;
    forall r: nat
      ensures m != Demand(net, k, 0, r)
    {
      if r < d {
        DemandGrows(net, k, r, d);
        assert 1 <= net.wants(k, r, 0);
      } else if d < r {
        DemandGrows(net, k, d, r);
      }
    }
  }

  lemma FinishedDivides(net: Net, rank: nat -> nat, limit: nat -> nat, s: State, k: nat)
    requires Progressive(net, rank, limit) && Reachable(net, s) && Shape(net, s) && k < |s.ks|
    requires Exact(net, k) && s.ks[k].finished
    ensures Divides(net, s, k)
  {
    ReachableGood(net, rank, limit, s);
    ReachableIntake(net, s, k);
    FinishedIsDry(net, rank, limit, s, k);
    assert KernelInv(net, s, k);
    if net.ins[k] != [] {
      assert s.es[net.ins[k][0]].sent == Demand(net, k, 0, s.ks[k].decided);
    }
  }

  /**
   * Where nobody can work any more, everything has finished drained iff every kernel was sent
   * just enough items for some number of its runs.
   */
  lemma CompleteIffDivides(net: Net, rank: nat -> nat, limit: nat -> nat, s: State)
    requires Progressive(net, rank, limit) && Reachable(net, s) && Shape(net, s) && Terminal(net, s)
    requires forall k: nat :: k < |net.ins| ==> Exact(net, k)
    ensures Complete(s) <==> forall k :: 0 <= k < |s.ks| ==> Divides(net, s, k)
  {
    hide Progressive, Reachable, Terminal, Exact, Starved, Divides;
    TerminalIsComplete(net, rank, limit, s);
    if Complete(s) {
      forall k | 0 <= k < |s.ks|
        ensures Divides(net, s, k)
      {
        FinishedDivides(net, rank, limit, s, k);
      }
    }
    if forall k :: 0 <= k < |s.ks| ==> Divides(net, s, k) {
      forall k | 0 <= k < |s.ks|
        ensures !Starved(net, s, k)
      {
        if Starved(net, s, k) {
          StarvedDoesNotDivide(net, rank, limit, s, k);
        }
      }
    }
  }
}
