/**
 * The access flags in finer steps than SharedFifo takes: enterBuffer and exitBuffer first
 * load where the flags are, then store; copyFrom and set are separate (raftinc/datamanager.tcc,
 * raftinc/bufferdata.tcc). One thread uses the buffer, another resizes it. The flags live in
 * the buffer object, so a store can hit an object that is being, or has been, replaced.
 */
module FlagLoss {

  /** The thread that uses the buffer; `target` is the object whose flags it has loaded. */
  datatype UserPc =
    | Idle
    | Raising(target: nat)
    | Gate
    | Inside
    | Refused
    | Lowering(target: nat)

  datatype ResizerPc =
    | Resting
    | Raised
    | Clear
    | Copied
    | Swapped
    | Dropping

  /**
   * `flags` holds the thread's flag in each buffer object made so far, `current` is the object
   * in use. `missed` and `stale` are history of the last raise: did its store hit an object
   * that was replaced or already copied, and was the newest object's flag up before?
   */
  datatype State = State(flags: seq<bool>, current: nat, resizing: bool, u: UserPc, r: ResizerPc, missed: bool, stale: bool)

  datatype Action =
    | Enter
    | Raise
    | Check
    | Leave
    | Lower
    | Begin
    | Look
    | GiveUp
    | CopyFrom
    | Set
    | Drop

  function Newest(s: State): int {
    |s.flags| - 1
  }

  predicate Enabled(s: State, a: Action) {
    match a
    case Enter => s.u.Idle?
    case Raise => s.u.Raising? && s.u.target < |s.flags|
    case Check => s.u.Gate?
    case Leave => s.u.Inside? || s.u.Refused?
    case Lower => s.u.Lowering? && s.u.target < |s.flags|
    case Begin => s.r.Resting?
    case Look => s.r.Raised? && s.current < |s.flags|
    case GiveUp => s.r.Clear?
    case CopyFrom => s.r.Clear? && s.current < |s.flags|
    case Set => s.r.Copied? && s.flags != []
    case Drop => s.r.Swapped? || s.r.Dropping?
  }

  function Next(s: State, a: Action): State
    requires Enabled(s, a)
  {
    match a
    case Enter => s.(u := Raising(s.current))
    case Raise =>
      s.(u := Gate, flags := s.flags[s.u.target := true],
         missed := s.u.target != s.current || s.r.Copied?, stale := s.flags[Newest(s)])
    case Check => s.(u := if s.resizing then Refused else Inside)
    case Leave => s.(u := Lowering(s.current))
    case Lower => s.(u := Idle, flags := s.flags[s.u.target := false])
    case Begin => s.(r := Raised, resizing := true)
    case Look => s.(r := if s.flags[s.current] then Dropping else Clear)
    case GiveUp => s.(r := Dropping)
    case CopyFrom => s.(r := Copied, flags := s.flags + [s.flags[s.current]])
    case Set => s.(r := Swapped, current := |s.flags| - 1)
    case Drop => s.(r := Resting, resizing := false)
  }

  ghost predicate Init(s: State) {
    s.flags == [false] && s.current == 0 && !s.resizing && s.u.Idle? && s.r.Resting? && !s.missed && !s.stale
  }

  ghost predicate Run(s: State, acts: seq<Action>, s': State)
    decreases |acts|
  {
    if acts == [] then s == s'
    else Enabled(s, acts[0]) && Run(Next(s, acts[0]), acts[1..], s')
  }

  ghost predicate Reachable(s: State) {
    exists s0: State, acts: seq<Action> :: Init(s0) && Run(s0, acts, s)
  }

  /** Past the all-clear load, until `resizing` is cleared. */
  predicate Past(r: ResizerPc) {
    r.Clear? || r.Copied? || r.Swapped?
  }

  predicate Exclusion(s: State) {
    !(Past(s.r) && s.u.Inside?)
  }

  /** The last raise does not show in the newest buffer object. */
  predicate Lost(s: State) {
    s.missed && !s.stale
  }

  // ---------------------------------------------------------------- invariant

  ghost predicate Inv(s: State) {
    && s.current < |s.flags|
    && (if s.r.Copied? then Newest(s) == s.current + 1 else Newest(s) == s.current)
    && (s.resizing <==> !s.r.Resting?)
    && (s.u.Raising? || s.u.Lowering? ==> s.u.target <= s.current)
    && (s.u.Gate? || s.u.Inside? || s.u.Refused? ==> (s.flags[Newest(s)] <==> !Lost(s)))
    && (s.u.Inside? && !Lost(s) ==> !Past(s.r))
  }

  lemma StepKeeps(s: State, a: Action)
    requires Inv(s) && Enabled(s, a)
    ensures Inv(Next(s, a))
  {
  }

  lemma {:induction false} RunKeeps(s: State, acts: seq<Action>, s': State)
    requires Inv(s) && Run(s, acts, s')
    ensures Inv(s')
    decreases |acts|
  {
    if acts != [] {
      StepKeeps(s, acts[0]);
      RunKeeps(Next(s, acts[0]), acts[1..], s');
    }
  }

  lemma ReachableInv(s: State)
    requires Reachable(s)
    ensures Inv(s)
  {
    var s0: State, acts: seq<Action> :| Init(s0) && Run(s0, acts, s);
    RunKeeps(s0, acts, s);
  }

  // ---------------------------------------------------------------- exclusion

  /** The resizer's own actions. */
  predicate OfResizer(a: Action) {
    a.Begin? || a.Look? || a.GiveUp? || a.CopyFrom? || a.Set? || a.Drop?
  }

  /** While the user stays inside, the resizer can get past its all-clear load. */
  ghost predicate CanBreak(s: State) {
    exists acts: seq<Action>, s': State ::
      Run(s, acts, s') && (forall i :: 0 <= i < |acts| ==> OfResizer(acts[i])) && !Exclusion(s')
  }

  lemma BreakNext(s: State, a: Action)
    requires Enabled(s, a) && OfResizer(a) && CanBreak(Next(s, a))
    ensures CanBreak(s)
  {
    var t := Next(s, a);
    var acts: seq<Action>, s': State :|
      Run(t, acts, s') && (forall i :: 0 <= i < |acts| ==> OfResizer(acts[i])) && !Exclusion(s');
    assert ([a] + acts)[1..] == acts;
    assert Run(s, [a] + acts, s');
  }

  lemma BreaksNow(s: State)
    requires !Exclusion(s)
    ensures CanBreak(s)
  {
    assert Run(s, [], s);
  }

  lemma LostBreaks(s: State)
    requires Inv(s) && s.u.Inside? && Lost(s)
    ensures CanBreak(s)
  {
    if Past(s.r) {
      BreaksNow(s);
    } else if s.r.Raised? {
      BreaksNow(Next(s, Look));
      BreakNext(s, Look);
    } else if s.r.Resting? {
      var t := Next(s, Begin);
      BreaksNow(Next(t, Look));
      BreakNext(t, Look);
      BreakNext(s, Begin);
    } else {
      var t := Next(s, Drop);
      var v := Next(t, Begin);
      BreaksNow(Next(v, Look));
      BreakNext(v, Look);
      BreakNext(t, Begin);
      BreakNext(s, Drop);
    }
  }

  lemma {:induction false} ShownHolds(s: State, acts: seq<Action>, s': State)
    requires Inv(s) && s.u.Inside? && !Lost(s) && Run(s, acts, s')
    requires forall i :: 0 <= i < |acts| ==> OfResizer(acts[i])
    ensures Exclusion(s')
    decreases |acts|
  {
    if acts != [] {
      StepKeeps(s, acts[0]);
      assert OfResizer(acts[0]);
      ShownHolds(Next(s, acts[0]), acts[1..], s');
    }
  }

  /** Exclusion holds wherever the last raise shows. */
  lemma ShownExcludes(s: State)
    requires Reachable(s) && !Lost(s)
    ensures Exclusion(s)
  {
    ReachableInv(s);
  }

  lemma {:induction false} SetsMoveCurrent(s: State, acts: seq<Action>, s': State)
    requires Inv(s) && s.u.Raising? && Run(s, acts, s') && Raise !in acts
    ensures s'.u == s.u && s.current <= s'.current && (s'.current == s.current <==> Set !in acts)
    decreases |acts|
  {
    if acts != [] {
      StepKeeps(s, acts[0]);
      SetsMoveCurrent(Next(s, acts[0]), acts[1..], s');
      assert acts == [acts[0]] + acts[1..];
    }
  }

  /** A raise misses iff a set falls between its load and its store, or its store between copyFrom and set. */
  lemma RaiseMissesIff(s: State, acts: seq<Action>, s': State)
    requires Reachable(s) && s.u.Idle? && Run(Next(s, Enter), acts, s') && Raise !in acts && Enabled(s', Raise)
    ensures Next(s', Raise).missed <==> Set in acts || s'.r.Copied?
  {
    ReachableInv(s);
    StepKeeps(s, Enter);
    SetsMoveCurrent(Next(s, Enter), acts, s');
  }

  /**
   * A thread inside the buffer is protected from the resizer, for as long as it stays there,
   * iff its raise was not lost: lost is a raise whose store came after a swap of the buffer
   * since the load, or between copyFrom and set, unless an earlier lower was lost as well.
   */
  lemma BreaksIffLost(s: State)
    requires Reachable(s) && s.u.Inside?
    ensures CanBreak(s) <==> Lost(s)
  {
    ReachableInv(s);
    if Lost(s) {
      LostBreaks(s);
    }
    if CanBreak(s) {
      var acts: seq<Action>, s': State :|
        Run(s, acts, s') && (forall i :: 0 <= i < |acts| ==> OfResizer(acts[i])) && !Exclusion(s');
      if !Lost(s) {
        ShownHolds(s, acts, s');
      }
    }
  }

  /** A run that ends with the thread inside a buffer that is being replaced: a swap between load and store. */
  lemma SwapLosesFlag()
    ensures exists s: State :: Reachable(s) && !Exclusion(s)
  {
    var s0 := State([false], 0, false, Idle, Resting, false, false);
    var s1 := s0.(u := Raising(0));
    var s2 := s1.(r := Raised, resizing := true);
    var s3 := s2.(r := Clear);
    var s4 := s3.(r := Copied, flags := [false, false]);
    var s5 := s4.(r := Swapped, current := 1);
    var s6 := s5.(r := Resting, resizing := false);
    var s7 := s6.(u := Gate, flags := [true, false], missed := true);
    var s8 := s7.(u := Inside);
    assert [false] + [false] == [false, false] && [false, false][0 := true] == [true, false];
    assert Reachable(s0) by { assert Run(s0, [], s0); }
    Follow(s0, Enter, s1);
    Follow(s1, Begin, s2);
    Follow(s2, Look, s3);
    Follow(s3, CopyFrom, s4);
    Follow(s4, Set, s5);
    Follow(s5, Drop, s6);
    Follow(s6, Raise, s7);
    Follow(s7, Check, s8);
    BreaksLater(s8);
  }

  /** The same without a swap between load and store: the store falls between copyFrom and set. */
  lemma CopyLosesFlag()
    ensures exists s: State :: Reachable(s) && !Exclusion(s)
  {
    var s0 := State([false], 0, false, Idle, Resting, false, false);
    var s1 := s0.(r := Raised, resizing := true);
    var s2 := s1.(r := Clear);
    var s3 := s2.(r := Copied, flags := [false, false]);
    var s4 := s3.(u := Raising(0));
    var s5 := s4.(u := Gate, flags := [true, false], missed := true);
    assert [false] + [false] == [false, false] && [false, false][0 := true] == [true, false];
    assert Reachable(s0) by { assert Run(s0, [], s0); }
    Follow(s0, Begin, s1);
    Follow(s1, Look, s2);
    Follow(s2, CopyFrom, s3);
    Follow(s3, Enter, s4);
    Follow(s4, Raise, s5);
    var s6 := s5.(r := Swapped, current := 1);
    var s7 := s6.(r := Resting, resizing := false);
    Follow(s5, Set, s6);
    Follow(s6, Drop, s7);
    Follow(s7, Check, s7.(u := Inside));
    BreaksLater(s7.(u := Inside));
  }

  lemma BreaksLater(s: State)
    requires Reachable(s) && s.u.Inside? && s.r.Resting? && s.current < |s.flags| && !s.flags[s.current]
    ensures exists t: State :: Reachable(t) && !Exclusion(t)
  {
    Follow(s, Begin, s.(r := Raised, resizing := true));
    Follow(s.(r := Raised, resizing := true), Look, s.(r := Clear, resizing := true));
    assert !Exclusion(s.(r := Clear, resizing := true));
  }

  lemma {:induction false} RunSnoc(s: State, acts: seq<Action>, s': State, a: Action)
    requires Run(s, acts, s') && Enabled(s', a)
    ensures Run(s, acts + [a], Next(s', a))
    decreases |acts|
  {
    if acts == [] {
      assert Run(Next(s, a), [], Next(s', a));
    } else {
      RunSnoc(Next(s, acts[0]), acts[1..], s', a);
      assert (acts + [a])[1..] == acts[1..] + [a];
    }
  }

  lemma Follow(s: State, a: Action, t: State)
    requires Reachable(s) && Enabled(s, a) && t == Next(s, a)
    ensures Reachable(t)
  {
    var s0: State, acts: seq<Action> :| Init(s0) && Run(s0, acts, s);
    RunSnoc(s0, acts, s, a);
  }
}
