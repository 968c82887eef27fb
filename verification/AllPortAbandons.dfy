/**
 * An all_port kernel can finish with items left on an input: one source feeds both inputs
 * of the kernel, sends a single item to the first of them, and stops.
 */
module AllPortAbandons {
  import opened Pipeline

  const FORK := Net([0, 0], [1, 1], [1, 1], [[], [0, 1]], [[0, 1], []],
                    [AnyPort, AllPort], (k, j, p) => 1, (k, j, p) => 1, (k, j) => 1, (k, j) => k == 0)

  /** The two kernels and the two FIFOs. */
  function Here(source: Kernel, sink: Kernel, first: Fifo, second: Fifo): State {
    State([source, sink], [first, second])
  }

  function Source(pc: Pc, finished: bool, started: nat, decided: nat, returned: nat, pushed: nat): Kernel {
    Kernel(pc, finished, returned > 0, started, decided, returned, 0, pushed)
  }

  function Sink(pc: Pc): Kernel {
    Kernel(pc, pc.Exited?, false, 0, 0, 0, 0, 0)
  }

  /** A reachable state of the fork. */
  ghost predicate Reached(s: State) {
    Shape(FORK, s) && Reachable(FORK, s)
  }

  lemma ForkShape(s: State)
    requires |s.ks| == 2 && |s.es| == 2
    ensures Shape(FORK, s)
  {
    assert 0 in FORK.outs[0] && 1 in FORK.outs[0] && 0 in FORK.ins[1] && 1 in FORK.ins[1];
  }

  lemma Follow(s: State, a: Action, t: State)
    requires Reached(s) && Enabled(FORK, s, a) && t == Next(FORK, s, a)
    ensures Reached(t)
  {
    ReachableNext(FORK, s, a);
  }

  lemma SourceMoves(k: Kernel, a: Action, k': Kernel, f: Fifo, f': Fifo, g: Fifo, g': Fifo)
    requires Reached(Here(k, Sink(Scan(0, First)), f, g)) && a.k == 0
    requires var s := Here(k, Sink(Scan(0, First)), f, g);
             && Enabled(FORK, s, a)
             && var t := Next(FORK, s, a); t.ks[0] == k' && t.es[0] == f' && t.es[1] == g'
    ensures Reached(Here(k', Sink(Scan(0, First)), f', g'))
  {
    var s, t := Here(k, Sink(Scan(0, First)), f, g), Here(k', Sink(Scan(0, First)), f', g');
    assert Next(FORK, s, a).ks == t.ks && Next(FORK, s, a).es == t.es;
    Follow(s, a, t);
  }

  lemma SourceStarts()
    ensures Reached(Here(Source(Taking([]), false, 1, 0, 0, 0), Sink(Scan(0, First)), Fifo(0, true, 0), Fifo(0, true, 0)))
  {
    var e := Fifo(0, true, 0);
    var s0 := Here(Source(Scan(0, First), false, 0, 0, 0, 0), Sink(Scan(0, First)), e, e);
    ForkShape(s0);
    assert Reached(s0) by { assert Init(FORK, s0) && Run(FORK, s0, [], s0); }
    hide Reached, Reachable, Run;
    assert Zeros(0) == [];
    SourceMoves(Source(Scan(0, First), false, 0, 0, 0, 0), Look(0, true), Source(Taking([]), false, 1, 0, 0, 0), e, e, e, e);
  }

  lemma SourceSends()
    ensures Reached(Here(Source(Emitting([]), false, 1, 1, 0, 1), Sink(Scan(0, First)), Fifo(1, true, 1), Fifo(0, true, 0)))
  {
    hide Reached, Reachable, Run;
    SourceStarts();
    var e := Fifo(0, true, 0);
    SourceMoves(Source(Taking([]), false, 1, 0, 0, 0), Decide(0, [0]), Source(Emitting([0]), false, 1, 1, 0, 0), e, e, e, e);
    assert [0][1..] == [];
    SourceMoves(Source(Emitting([0]), false, 1, 1, 0, 0), PushOne(0), Source(Emitting([]), false, 1, 1, 0, 1),
                e, Fifo(1, true, 1), e, e);
  }

  lemma SourceStops()
    ensures Reached(Here(Source(AskValid(0), true, 1, 1, 1, 1), Sink(Scan(0, First)), Fifo(1, false, 1), Fifo(0, false, 0)))
  {
    hide Reached, Reachable, Run;
    SourceSends();
    var f, g := Fifo(1, true, 1), Fifo(0, true, 0);
    SourceMoves(Source(Emitting([]), false, 1, 1, 0, 1), Return(0), Source(Closing(0, true), false, 1, 1, 1, 1), f, f, g, g);
    var f' := Fifo(1, false, 1);
    SourceMoves(Source(Closing(0, true), false, 1, 1, 1, 1), CloseOne(0), Source(Closing(1, true), false, 1, 1, 1, 1), f, f', g, g);
    var g' := Fifo(0, false, 0);
    SourceMoves(Source(Closing(1, true), false, 1, 1, 1, 1), CloseOne(0), Source(Closing(2, true), false, 1, 1, 1, 1), f', f', g, g');
    SourceMoves(Source(Closing(2, true), false, 1, 1, 1, 1), CloseOne(0), Source(AskValid(0), true, 1, 1, 1, 1), f', f', g', g');
  }

  lemma SinkMoves(pc: Pc, a: Action, pc': Pc)
    requires a.k == 1 && (a.Look? || a.AskPort? || a.CloseOne?)
    requires var s := Here(Source(AskValid(0), true, 1, 1, 1, 1), Sink(pc), Fifo(1, false, 1), Fifo(0, false, 0));
             && Reached(s) && Enabled(FORK, s, a) && Next(FORK, s, a).ks[1] == Sink(pc')
    ensures Reached(Here(Source(AskValid(0), true, 1, 1, 1, 1), Sink(pc'), Fifo(1, false, 1), Fifo(0, false, 0)))
  {
    var s := Here(Source(AskValid(0), true, 1, 1, 1, 1), Sink(pc), Fifo(1, false, 1), Fifo(0, false, 0));
    var t := Here(Source(AskValid(0), true, 1, 1, 1, 1), Sink(pc'), Fifo(1, false, 1), Fifo(0, false, 0));
    assert FORK.outs[1] == [];
    assert Next(FORK, s, a).ks == t.ks && Next(FORK, s, a).es == t.es;
    Follow(s, a, t);
  }

  /** The kernel sees an item on one input and none on the other, and gives up. */
  lemma ItemsAbandoned()
    ensures exists s: State ::
              && Shape(FORK, s) && Reachable(FORK, s)
              && s.ks[1].finished && !s.ks[1].stopped && s.es[0].len > 0
  {
    hide Reached, Reachable, Run, Shape;
    SourceStops();
    SinkMoves(Scan(0, First), Look(1, true), Scan(1, First));
    SinkMoves(Scan(1, First), Look(1, false), AskValid(0));
    SinkMoves(AskValid(0), AskPort(1), AskValid(1));
    SinkMoves(AskValid(1), AskPort(1), AskValid(2));
    SinkMoves(AskValid(2), AskPort(1), Scan(0, Second));
    SinkMoves(Scan(0, Second), Look(1, true), Scan(1, Second));
    SinkMoves(Scan(1, Second), Look(1, false), Closing(0, false));
    SinkMoves(Closing(0, false), CloseOne(1), Exited);
    ReachedState(Here(Source(AskValid(0), true, 1, 1, 1, 1), Sink(Exited), Fifo(1, false, 1), Fifo(0, false, 0)));
  }

  lemma ReachedState(s: State)
    requires Reached(s)
    ensures Shape(FORK, s) && Reachable(FORK, s)
  {
  }
}
