/**
 * A kernel whose run waits for two items starves on one: the source sends a single item and
 * stops, and the pipeline never completes.
 */
module StarvedRun {
  import opened Pipeline
  import opened PipelineProgress

  const FEED := Net([0], [1], [1], [[], [0]], [[0], []], [AnyPort, AnyPort],
                    (k, j, p) => if k == 1 then 2 else 1, (k, j, p) => if k == 1 then 2 else 1,
                    (k, j) => 1, (k, j) => k == 0)

  ghost predicate Reached(s: State) {
    Shape(FEED, s) && Reachable(FEED, s)
  }

  lemma FeedWellFormed()
    ensures FEED.WellFormed()
  {
    assert 0 in FEED.outs[0] && 0 in FEED.ins[1];
  }

  lemma FeedIsProgressive()
    ensures Progressive(FEED, k => k, k => 0)
  {
    hide Net.WellFormed;
    FeedWellFormed();
  }

  /** The two kernels and the FIFO between them. */
  function Here(source: Kernel, sink: Kernel, f: Fifo): State {
    State([source, sink], [f])
  }

  lemma SourceMoves(k: Kernel, f: Fifo, a: Action, k': Kernel, f': Fifo)
    requires Reached(Here(k, SINK, f)) && a.k == 0 && Enabled(FEED, Here(k, SINK, f), a)
    requires var t := Next(FEED, Here(k, SINK, f), a); t.ks[0] == k' && t.es[0] == f'
    ensures Reached(Here(k', SINK, f'))
  {
    var t := Next(FEED, Here(k, SINK, f), a);
    assert t.ks == [k', SINK] && t.es == [f'];
    ReachableNext(FEED, Here(k, SINK, f), a);
  }

  lemma SinkMoves(k: Kernel, f: Fifo, a: Action, k': Kernel, f': Fifo)
    requires Reached(Here(GONE, k, f)) && a.k == 1 && Enabled(FEED, Here(GONE, k, f), a)
    requires var t := Next(FEED, Here(GONE, k, f), a); t.ks[1] == k' && t.es[0] == f'
    ensures Reached(Here(GONE, k', f'))
  {
    var t := Next(FEED, Here(GONE, k, f), a);
    assert t.ks == [GONE, k'] && t.es == [f'];
    ReachableNext(FEED, Here(GONE, k, f), a);
  }

  function Source(pc: Pc, finished: bool, started: nat, decided: nat, returned: nat, pushed: nat): Kernel {
    Kernel(pc, finished, returned > 0, started, decided, returned, 0, pushed)
  }

  const SINK := Kernel(Scan(0, First), false, false, 0, 0, 0, 0, 0)

  /** The source after it has sent its item and stopped. */
  const GONE := Source(Exited, true, 1, 1, 1, 1)

  lemma SourceSends()
    ensures Reached(Here(Source(Emitting([]), false, 1, 1, 0, 1), SINK, Fifo(1, true, 1)))
  {
    var e := Fifo(0, true, 0);
    var s0 := Here(Source(Scan(0, First), false, 0, 0, 0, 0), SINK, e);
    FeedWellFormed();
    assert Reached(s0) by { assert Init(FEED, s0) && Run(FEED, s0, [], s0); }
    SourceFirstRun(e);
  }

  lemma SourceFirstRun(e: Fifo)
    requires e == Fifo(0, true, 0) && Reached(Here(Source(Scan(0, First), false, 0, 0, 0, 0), SINK, e))
    ensures Reached(Here(Source(Emitting([]), false, 1, 1, 0, 1), SINK, Fifo(1, true, 1)))
  {
    hide Reached;
    FeedWellFormed();
    assert Zeros(0) == [] && [0][1..] == [];
    SourceMoves(Source(Scan(0, First), false, 0, 0, 0, 0), e, Look(0, true), Source(Taking([]), false, 1, 0, 0, 0), e);
    SourceMoves(Source(Taking([]), false, 1, 0, 0, 0), e, Decide(0, [0]), Source(Emitting([0]), false, 1, 1, 0, 0), e);
    SourceMoves(Source(Emitting([0]), false, 1, 1, 0, 0), e, PushOne(0), Source(Emitting([]), false, 1, 1, 0, 1), Fifo(1, true, 1));
  }

  lemma SourceCloses()
    ensures Reached(Here(Source(AskValid(0), true, 1, 1, 1, 1), SINK, Fifo(1, false, 1)))
  {
    hide Reached;
    SourceSends();
    FeedWellFormed();
    var f, g := Fifo(1, true, 1), Fifo(1, false, 1);
    SourceMoves(Source(Emitting([]), false, 1, 1, 0, 1), f, Return(0), Source(Closing(0, true), false, 1, 1, 1, 1), f);
    SourceMoves(Source(Closing(0, true), false, 1, 1, 1, 1), f, CloseOne(0), Source(Closing(1, true), false, 1, 1, 1, 1), g);
    SourceMoves(Source(Closing(1, true), false, 1, 1, 1, 1), g, CloseOne(0), Source(AskValid(0), true, 1, 1, 1, 1), g);
  }

  lemma SourceExits()
    ensures Reached(Here(GONE, SINK, Fifo(1, false, 1)))
  {
    hide Reached;
    SourceCloses();
    FeedWellFormed();
    var g := Fifo(1, false, 1);
    SourceMoves(Source(AskValid(0), true, 1, 1, 1, 1), g, AskPort(0), Source(Scan(0, Second), true, 1, 1, 1, 1), g);
    SourceMoves(Source(Scan(0, Second), true, 1, 1, 1, 1), g, Look(0, true), GONE, g);
  }

  /** The last state of the run. */
  function Stuck(): State {
    Here(GONE, SINK.(pc := Taking([1]), started := 1, taken := 1), Fifo(0, false, 1))
  }

  lemma SinkPops()
    ensures Reached(Stuck())
  {
    hide Reached;
    SourceExits();
    FeedWellFormed();
    assert Zeros(1) == [0] && [0][0 := 1] == [1];
    var g := Fifo(1, false, 1);
    SinkMoves(SINK, g, Look(1, true), SINK.(pc := Taking([0]), started := 1), g);
    SinkMoves(SINK.(pc := Taking([0]), started := 1), g, PopOne(1, 0),
              SINK.(pc := Taking([1]), started := 1, taken := 1), Fifo(0, false, 1));
  }

  lemma NobodyMoves(k: nat)
    requires Shape(FEED, Stuck())
    ensures !CanWork(FEED, Stuck(), k)
  {
    forall acts: seq<Action>, s': State | Run(FEED, Stuck(), acts, s')
      ensures acts == []
    {
      if acts != [] {
        NothingEnabled(acts[0]);
      }
    }
  }

  lemma NothingEnabled(a: Action)
    requires Shape(FEED, Stuck())
    ensures !Enabled(FEED, Stuck(), a)
  {
    if a.k == 1 && a.Decide? {
      assert FEED.wants(1, 0, 0) == 2 && Stuck().ks[1].pc.got[0] == 1;
    }
  }

  lemma StuckForGood()
    requires Shape(FEED, Stuck())
    ensures Terminal(FEED, Stuck()) && Starved(FEED, Stuck(), 1) && !Complete(Stuck())
  {
    hide CanWork;
    var s := Stuck();
    forall k | 0 <= k < |s.ks|
      ensures !CanWork(FEED, s, k)
    {
      NobodyMoves(k);
    }
    assert !s.ks[1].finished;
  }

  /** A progressive pipeline that ends without completing: the sink waits for a second item. */
  lemma PipelineStarves()
    ensures Progressive(FEED, k => k, k => 0)
    ensures exists s: State ::
              && Shape(FEED, s) && Reachable(FEED, s) && Terminal(FEED, s) && Starved(FEED, s, 1) && !Complete(s)
  {
    hide Progressive, Terminal, Starved, Complete, Shape, Reachable;
    FeedIsProgressive();
    SinkPops();
    StuckForGood();
    assert Shape(FEED, Stuck()) && Reachable(FEED, Stuck());
  }
}
