/**
 * The compressed adjacency tables handed to the graph partitioner
 * (raft::graph, raftinc/graph.tcc). Vertex ids and weights are unbounded integers.
 */
module Csr {
  import opened OrderedSets

  datatype Arc = Arc(src: int, dst: int, weight: int) {
    function Reversed(): Arc {
      Arc(dst, src, weight)
    }

    function Shifted(base: int): Arc {
      Arc(src - base, dst - base, weight)
    }
  }

  /** One entry of an adjacency list. */
  datatype Half = Half(dst: int, weight: int)

  // ---------------------------------------------------------------- what was added

  /** Every edge added, followed by its back edge. */
  ghost function Arcs(added: seq<Arc>): (r: seq<Arc>)
    ensures |r| == 2 * |added|
  {
    if added == [] then []
    else
      var n := |added| - 1;
      Arcs(added[..n]) + [added[n], added[n].Reversed()]
  }

  /** The arcs that leave `v`, oldest first. */
  ghost function Out(arcs: seq<Arc>, v: int): seq<Arc> {
    if arcs == [] then []
    else
      var n := |arcs| - 1;
      Out(arcs[..n], v) + if arcs[n].src == v then [arcs[n]] else []
  }

  /** All arcs, grouped by the vertex they leave. */
  ghost function Rows(vertices: seq<int>, arcs: seq<Arc>): seq<Arc> {
    if vertices == [] then []
    else
      var n := |vertices| - 1;
      Rows(vertices[..n], arcs) + Out(arcs, vertices[n])
  }

  /** The vertices are the ends of the arcs, in ascending order. */
  ghost predicate IsVertexSet(vertices: seq<int>, arcs: seq<Arc>) {
    && Increasing(vertices)
    && Touched(vertices, arcs) && Covered(vertices, arcs)
  }

  ghost predicate Touched(vertices: seq<int>, arcs: seq<Arc>) {
    forall v :: v in vertices ==> exists a :: a in arcs && (a.src == v || a.dst == v)
  }

  ghost predicate Covered(vertices: seq<int>, arcs: seq<Arc>) {
    forall a :: a in arcs ==> a.src in vertices && a.dst in vertices
  }

  lemma OutSnoc(arcs: seq<Arc>, a: Arc, v: int)
    ensures Out(arcs + [a], v) == Out(arcs, v) + if a.src == v then [a] else []
  {
    assert (arcs + [a])[..|arcs|] == arcs;
  }

  lemma ArcsSnoc(added: seq<Arc>, e: Arc)
    ensures Arcs(added + [e]) == Arcs(added) + [e] + [e.Reversed()]
  {
    assert (added + [e])[..|added|] == added;
  }

  lemma {:induction false} OutIn(arcs: seq<Arc>, v: int, a: Arc)
    ensures a in Out(arcs, v) <==> a in arcs && a.src == v
  {
    if arcs != [] {
      OutIn(arcs[..|arcs| - 1], v, a);
      assert arcs == arcs[..|arcs| - 1] + [arcs[|arcs| - 1]];
    }
  }

  /** A new arc enters exactly the row of its source. */
  lemma {:induction false} RowsSnoc(vertices: seq<int>, arcs: seq<Arc>, a: Arc)
    requires Increasing(vertices)
    ensures multiset(Rows(vertices, arcs + [a]))
         == multiset(Rows(vertices, arcs)) + if a.src in vertices then multiset{a} else multiset{}
  {
    if vertices != [] {
      var n := |vertices| - 1;
      assert a.src in vertices <==> a.src in vertices[..n] || a.src == vertices[n] by {
        assert vertices == vertices[..n] + [vertices[n]];
      }
      assert a.src in vertices[..n] ==> a.src != vertices[n];
      RowsSnoc(vertices[..n], arcs, a);
      OutSnoc(arcs, a, vertices[n]);
      hide Increasing, Out;
    }
  }

  lemma {:induction false} RowsOfNothing(vertices: seq<int>)
    ensures Rows(vertices, []) == []
  {
    if vertices != [] {
      RowsOfNothing(vertices[..|vertices| - 1]);
    }
  }

  /** Grouping by source loses no arc and repeats none. */
  lemma {:induction false} RowsAreArcs(vertices: seq<int>, arcs: seq<Arc>)
    requires Increasing(vertices) && forall a :: a in arcs ==> a.src in vertices
    ensures multiset(Rows(vertices, arcs)) == multiset(arcs)
  {
    if arcs == [] {
      RowsOfNothing(vertices);
    } else {
      var n := |arcs| - 1;
      assert arcs == arcs[..n] + [arcs[n]];
      RowsAreArcs(vertices, arcs[..n]);
      RowsSnoc(vertices, arcs[..n], arcs[n]);
    }
  }

  /** Each arc is there as often as the arc back. */
  lemma {:induction false} ArcsSymmetric(added: seq<Arc>, a: Arc)
    ensures multiset(Arcs(added))[a] == multiset(Arcs(added))[a.Reversed()]
  {
    if added != [] {
      var n := |added| - 1;
      ArcsSymmetric(added[..n], a);
      var e := added[n];
      assert multiset(Arcs(added)) == multiset(Arcs(added[..n])) + multiset{e} + multiset{e.Reversed()};
      assert a == e <==> a.Reversed() == e.Reversed();
      assert a == e.Reversed() <==> a.Reversed() == e;
    }
  }

  // ---------------------------------------------------------------- reading the tables

  /** The arcs the partitioner reads in rows below `n`: row i holds the entries from vtable[i] to vtable[i + 1]. */
  ghost function Decode(vtable: seq<int>, etable: seq<int>, eweight: seq<int>, n: nat): seq<Arc>
    requires n < |vtable| && |etable| == |eweight| && TableBounds(vtable, |etable|)
  {
    if n == 0 then []
    else Decode(vtable, etable, eweight, n - 1) + Row(etable, eweight, n - 1, vtable[n - 1], vtable[n])
  }

  ghost predicate TableBounds(vtable: seq<int>, m: nat) {
    forall i, j :: 0 <= i <= j < |vtable| ==> 0 <= vtable[i] <= vtable[j] <= m
  }

  ghost function Row(etable: seq<int>, eweight: seq<int>, i: int, lo: int, hi: int): (r: seq<Arc>)
    requires 0 <= lo <= hi <= |etable| == |eweight|
    ensures |r| == hi - lo && forall e :: 0 <= e < |r| ==> r[e] == Arc(i, etable[lo + e], eweight[lo + e])
  {
    seq(hi - lo, e requires 0 <= e < hi - lo => Arc(i, etable[lo + e], eweight[lo + e]))
  }

  /** The tables of a graph: row boundaries, and the arcs in row order with ends counted from the first vertex. */
  ghost predicate IsTables(vtable: seq<int>, etable: seq<int>, eweight: seq<int>, vertices: seq<int>, arcs: seq<Arc>)
    ensures IsTables(vtable, etable, eweight, vertices, arcs) ==> vertices != [] && |vtable| == |vertices| + 1 && |etable| == |eweight|
  {
    var rows := Rows(vertices, arcs);
    && vertices != [] && |vtable| == |vertices| + 1
    && (forall i :: 0 <= i <= |vertices| ==> vtable[i] == |Rows(vertices[..i], arcs)|)
    && Filled(etable, eweight, rows, vertices[0])
  }

  ghost predicate Filled(etable: seq<int>, eweight: seq<int>, rows: seq<Arc>, first: int) {
    && |etable| == |eweight| == |rows|
    && forall e :: 0 <= e < |rows| ==> etable[e] == rows[e].dst - first && eweight[e] == rows[e].weight
  }

  ghost function ShiftAll(arcs: seq<Arc>, base: int): (r: seq<Arc>)
    ensures |r| == |arcs| && forall i :: 0 <= i < |r| ==> r[i] == arcs[i].Shifted(base)
  {
    seq(|arcs|, i requires 0 <= i < |arcs| => arcs[i].Shifted(base))
  }

  ghost predicate Contiguous(vertices: seq<int>) {
    forall i :: 0 <= i < |vertices| ==> vertices[i] == vertices[0] + i
  }

  lemma {:induction false} RowsPrefix(vertices: seq<int>, arcs: seq<Arc>, i: nat)
    requires i <= |vertices|
    ensures Rows(vertices[..i], arcs) <= Rows(vertices, arcs)
  {
    if i < |vertices| {
      var n := |vertices| - 1;
      RowsPrefix(vertices[..n], arcs, i);
      assert vertices[..n][..i] == vertices[..i];
    } else {
      assert vertices[..i] == vertices;
    }
  }

  lemma TablesBounded(vtable: seq<int>, etable: seq<int>, eweight: seq<int>, vertices: seq<int>, arcs: seq<Arc>)
    requires IsTables(vtable, etable, eweight, vertices, arcs)
    ensures TableBounds(vtable, |etable|)
  {
    forall i, j | 0 <= i <= j < |vtable|
      ensures 0 <= vtable[i] <= vtable[j] <= |etable|
    {
      RowsPrefix(vertices, arcs, j);
      RowsPrefix(vertices[..j], arcs, i);
      assert vertices[..j][..i] == vertices[..i];
    }
  }

  lemma RowsNext(vertices: seq<int>, arcs: seq<Arc>, i: nat)
    requires i < |vertices|
    ensures Rows(vertices[..i + 1], arcs) == Rows(vertices[..i], arcs) + Out(arcs, vertices[i])
  {
    assert vertices[..i + 1][..i] == vertices[..i];
  }

  lemma RowSegment(vertices: seq<int>, arcs: seq<Arc>, i: nat)
    requires i < |vertices|
    ensures var front, back := Rows(vertices[..i], arcs), Out(arcs, vertices[i]);
      && |Rows(vertices[..i + 1], arcs)| == |front| + |back| <= |Rows(vertices, arcs)|
      && forall e :: 0 <= e < |back| ==> Rows(vertices, arcs)[|front| + e] == back[e] && back[e].src == vertices[i]
  {
    hide Rows, Out;
    var rows, front, back := Rows(vertices, arcs), Rows(vertices[..i], arcs), Out(arcs, vertices[i]);
    RowsNext(vertices, arcs, i);
    RowsPrefix(vertices, arcs, i + 1);
    forall e | 0 <= e < |back|
      ensures rows[|front| + e] == back[e] && back[e].src == vertices[i]
    {
      OutIn(arcs, vertices[i], back[e]);
      assert rows[|front| + e] == (front + back)[|front| + e];
    }
  }

  /** Row i of the tables is the row of the i-th vertex. */
  lemma RowIsOut(vtable: seq<int>, etable: seq<int>, eweight: seq<int>, vertices: seq<int>, arcs: seq<Arc>, i: nat)
    requires IsTables(vtable, etable, eweight, vertices, arcs) && TableBounds(vtable, |etable|)
    requires Contiguous(vertices) && i < |vertices|
    ensures Row(etable, eweight, i, vtable[i], vtable[i + 1]) == ShiftAll(Out(arcs, vertices[i]), vertices[0])
  {
    hide Rows, Out;
    var front, back := Rows(vertices[..i], arcs), Out(arcs, vertices[i]);
    RowSegment(vertices, arcs, i);
    forall e | 0 <= e < |back|
      ensures back[e].Shifted(vertices[0]) == Arc(i, etable[|front| + e], eweight[|front| + e])
    {
      assert Rows(vertices, arcs)[|front| + e] == back[e];
    }
  }

  lemma ShiftConcat(a: seq<Arc>, b: seq<Arc>, base: int)
    ensures ShiftAll(a + b, base) == ShiftAll(a, base) + ShiftAll(b, base)
  {
  }

  lemma {:induction false} DecodeIsRows(vtable: seq<int>, etable: seq<int>, eweight: seq<int>, vertices: seq<int>, arcs: seq<Arc>, n: nat)
    requires IsTables(vtable, etable, eweight, vertices, arcs) && TableBounds(vtable, |etable|)
    requires Contiguous(vertices) && n <= |vertices|
    ensures Decode(vtable, etable, eweight, n) == ShiftAll(Rows(vertices[..n], arcs), vertices[0])
  {
    if n > 0 {
      DecodeIsRows(vtable, etable, eweight, vertices, arcs, n - 1);
      RowIsOut(vtable, etable, eweight, vertices, arcs, n - 1);
      assert vertices[..n][..n - 1] == vertices[..n - 1];
      ShiftConcat(Rows(vertices[..n - 1], arcs), Out(arcs, vertices[n - 1]), vertices[0]);
      hide ShiftAll, Out, Row, Contiguous;
    }
  }

  lemma {:induction false} DecodeSources(vtable: seq<int>, etable: seq<int>, eweight: seq<int>, n: nat, a: Arc)
    requires n < |vtable| && |etable| == |eweight| && TableBounds(vtable, |etable|)
    requires a in Decode(vtable, etable, eweight, n)
    ensures 0 <= a.src < n
  {
    if n > 0 && a in Decode(vtable, etable, eweight, n - 1) {
      DecodeSources(vtable, etable, eweight, n - 1, a);
    }
  }

  lemma {:induction false} ShiftCounts(arcs: seq<Arc>, base: int, a: Arc)
    ensures multiset(ShiftAll(arcs, base))[a.Shifted(base)] == multiset(arcs)[a]
  {
    if arcs != [] {
      var n := |arcs| - 1;
      ShiftCounts(arcs[..n], base, a);
      assert arcs == arcs[..n] + [arcs[n]];
      assert ShiftAll(arcs, base) == ShiftAll(arcs[..n], base) + [arcs[n].Shifted(base)];
      assert arcs[n].Shifted(base) == a.Shifted(base) <==> arcs[n] == a;
    }
  }

  /** The decoded arcs are the given ones, as often each, with vertices counted from `first`. */
  ghost predicate Faithful(decoded: seq<Arc>, arcs: seq<Arc>, first: int) {
    forall a: Arc :: multiset(decoded)[a.Shifted(first)] == multiset(arcs)[a]
  }

  lemma ContiguousDecodes(vtable: seq<int>, etable: seq<int>, eweight: seq<int>, vertices: seq<int>, arcs: seq<Arc>)
    requires IsTables(vtable, etable, eweight, vertices, arcs) && TableBounds(vtable, |etable|)
    requires IsVertexSet(vertices, arcs) && Contiguous(vertices)
    ensures Faithful(Decode(vtable, etable, eweight, |vertices|), arcs, vertices[0])
  {
    DecodeIsRows(vtable, etable, eweight, vertices, arcs, |vertices|);
    assert vertices[..|vertices|] == vertices;
    RowsAreArcs(vertices, arcs);
    forall a: Arc
      ensures multiset(Decode(vtable, etable, eweight, |vertices|))[a.Shifted(vertices[0])] == multiset(arcs)[a]
    {
      ShiftCounts(Rows(vertices, arcs), vertices[0], a);
    }
  }

  lemma FaithfulMeansContiguous(vtable: seq<int>, etable: seq<int>, eweight: seq<int>, vertices: seq<int>, added: seq<Arc>)
    requires IsTables(vtable, etable, eweight, vertices, Arcs(added)) && TableBounds(vtable, |etable|)
    requires IsVertexSet(vertices, Arcs(added))
    requires Faithful(Decode(vtable, etable, eweight, |vertices|), Arcs(added), vertices[0])
    ensures Contiguous(vertices)
  {
    var n, arcs := |vertices|, Arcs(added);
    var a := LeavesVertex(vertices, added, vertices[n - 1]);
    assert multiset(arcs)[a] > 0;
    assert a.Shifted(vertices[0]) in Decode(vtable, etable, eweight, n);
    DecodeSources(vtable, etable, eweight, n, a.Shifted(vertices[0]));
    Squeezed(vertices);
  }

  /** Every vertex has an arc out: the back edge makes sure of it. */
  lemma LeavesVertex(vertices: seq<int>, added: seq<Arc>, v: int) returns (a: Arc)
    requires IsVertexSet(vertices, Arcs(added)) && v in vertices
    ensures a in Arcs(added) && a.src == v
  {
    var b :| b in Arcs(added) && (b.src == v || b.dst == v);
    a := if b.src == v then b else b.Reversed();
    ArcsSymmetric(added, b);
    assert multiset(Arcs(added))[b] > 0;
    assert b.Reversed() in multiset(Arcs(added));
  }

  lemma {:induction false} Spread(s: seq<int>, i: nat, j: nat)
    requires Increasing(s) && i <= j < |s|
    ensures s[j] - s[i] >= j - i
    decreases j
  {
    if i < j {
      Spread(s, i, j - 1);
    }
  }

  lemma Squeezed(s: seq<int>)
    requires Increasing(s) && s != [] && s[|s| - 1] - s[0] < |s|
    ensures Contiguous(s)
  {
    forall i | 0 <= i < |s|
      ensures s[i] == s[0] + i
    {
      Spread(s, 0, i);
      Spread(s, i, |s| - 1);
    }
  }

  lemma TableLength(vtable: seq<int>, etable: seq<int>, eweight: seq<int>, vertices: seq<int>, added: seq<Arc>)
    requires IsTables(vtable, etable, eweight, vertices, Arcs(added)) && IsVertexSet(vertices, Arcs(added))
    ensures |etable| == vtable[|vertices|] == 2 * |added|
  {
    hide Touched, Rows, Out, Arcs;
    assert vertices[..|vertices|] == vertices;
    RowsAreArcs(vertices, Arcs(added));
    assert |Rows(vertices, Arcs(added))| == |multiset(Rows(vertices, Arcs(added)))| == |multiset(Arcs(added))|;
  }

  /**
   * What the partitioner reads is the graph that was built, edges and back edges with their
   * weights, exactly when the vertex ids have no gaps: rows are numbered by position, ends
   * by distance from the first vertex.
   */
  lemma FaithfulIffContiguous(vtable: seq<int>, etable: seq<int>, eweight: seq<int>, vertices: seq<int>, added: seq<Arc>)
    requires IsTables(vtable, etable, eweight, vertices, Arcs(added)) && IsVertexSet(vertices, Arcs(added))
    ensures TableBounds(vtable, |etable|) && |etable| == vtable[|vertices|] == 2 * |added|
    ensures Faithful(Decode(vtable, etable, eweight, |vertices|), Arcs(added), vertices[0]) <==> Contiguous(vertices)
  {
    hide Faithful, Contiguous, Decode, IsVertexSet, TableBounds, IsTables, Arcs;
    TablesBounded(vtable, etable, eweight, vertices, Arcs(added));
    TableLength(vtable, etable, eweight, vertices, added);
    if Contiguous(vertices) {
      ContiguousDecodes(vtable, etable, eweight, vertices, Arcs(added));
    }
    if Faithful(Decode(vtable, etable, eweight, |vertices|), Arcs(added), vertices[0]) {
      FaithfulMeansContiguous(vtable, etable, eweight, vertices, added);
    }
  }

  /** One edge from 0 to 2 and nothing at 1: its tables name the wrong vertices. */
  lemma GapChangesGraph()
    ensures var added := [Arc(0, 2, 5)];
            && IsVertexSet([0, 2], Arcs(added)) && IsTables([0, 1, 2], [2, 0], [5, 5], [0, 2], Arcs(added))
            && TableBounds([0, 1, 2], 2) && !Faithful(Decode([0, 1, 2], [2, 0], [5, 5], 2), Arcs(added), 0)
  {
    var e, b := Arc(0, 2, 5), Arc(2, 0, 5);
    assert [e][..0] == [] && Arcs([e]) == [e, b];
    GapTables(e, b);
    FaithfulIffContiguous([0, 1, 2], [2, 0], [5, 5], [0, 2], [e]);
    assert [0, 2][1] != [0, 2][0] + 1;
  }

  lemma GapTables(e: Arc, b: Arc)
    requires e == Arc(0, 2, 5) && b == Arc(2, 0, 5)
    ensures IsVertexSet([0, 2], [e, b]) && IsTables([0, 1, 2], [2, 0], [5, 5], [0, 2], [e, b])
  {
    assert [e, b][..1] == [e] && [e][..0] == [];
    assert Out([e], 0) == [e] && Out([e], 2) == [];
    assert Out([e, b], 0) == [e] && Out([e, b], 2) == [b];
    hide Out;
    var none: seq<int> := [];
    assert [0, 2][..0] == none && [0, 2][..1] == [0] && [0, 2][..2] == [0, 2] && [0][..0] == none;
    assert Rows([0], [e, b]) == [e];
    assert Rows([0, 2], [e, b]) == [e] + [b];
    assert e in [e, b];
  }

  /** The decoded graph is symmetric, as the partitioner requires. */
  lemma DecodedSymmetric(vtable: seq<int>, etable: seq<int>, eweight: seq<int>, vertices: seq<int>, added: seq<Arc>, a: Arc)
    requires IsTables(vtable, etable, eweight, vertices, Arcs(added)) && IsVertexSet(vertices, Arcs(added)) && Contiguous(vertices)
    ensures TableBounds(vtable, |etable|)
    ensures var decoded := multiset(Decode(vtable, etable, eweight, |vertices|)); decoded[a] == decoded[a.Reversed()]
  {
    hide IsTables, Decode, IsVertexSet, Contiguous, TableBounds, Arcs;
    FaithfulIffContiguous(vtable, etable, eweight, vertices, added);
    var original := a.Shifted(-vertices[0]);
    assert original.Shifted(vertices[0]) == a && original.Reversed().Shifted(vertices[0]) == a.Reversed();
    ArcsSymmetric(added, original);
  }

  // ---------------------------------------------------------------- the graph itself

  ghost function Halves(row: seq<Arc>): (r: seq<Half>)
    ensures |r| == |row| && forall i :: 0 <= i < |r| ==> r[i] == Half(row[i].dst, row[i].weight)
  {
    seq(|row|, i requires 0 <= i < |row| => Half(row[i].dst, row[i].weight))
  }

  /** The adjacency lists hold exactly these arcs; a vertex without an arc out has no list. */
  ghost predicate Lists(edgelist: map<int, seq<Half>>, arcs: seq<Arc>) {
    forall v: int :: (v in edgelist <==> Out(arcs, v) != []) && (v in edgelist ==> edgelist[v] == Halves(Out(arcs, v)))
  }

  lemma ListsSnoc(edgelist: map<int, seq<Half>>, arcs: seq<Arc>, a: Arc)
    requires Lists(edgelist, arcs)
    ensures Lists(edgelist[a.src := (if a.src in edgelist then edgelist[a.src] else []) + [Half(a.dst, a.weight)]], arcs + [a])
  {
    hide Out;
    var old' := if a.src in edgelist then edgelist[a.src] else [];
    assert old' == Halves(Out(arcs, a.src));
    forall v: int
      ensures Out(arcs + [a], v) == Out(arcs, v) + if a.src == v then [a] else []
    {
      OutSnoc(arcs, a, v);
    }
    assert Halves(Out(arcs, a.src) + [a]) == old' + [Half(a.dst, a.weight)];
  }

  lemma VerticesSnoc(vertices: seq<int>, vertices': seq<int>, arcs: seq<Arc>, a: Arc)
    requires IsVertexSet(vertices, arcs) && Increasing(vertices')
    requires forall v :: v in vertices' <==> v in vertices || v == a.src || v == a.dst
    ensures IsVertexSet(vertices', arcs + [a])
  {
    var arcs' := arcs + [a];
    forall v | v in vertices'
      ensures exists b :: b in arcs' && (b.src == v || b.dst == v)
    {
      if v in vertices {
        var b :| b in arcs && (b.src == v || b.dst == v);
        assert b in arcs';
      } else {
        assert a in arcs';
      }
    }
  }

  lemma HasVertices(vertices: seq<int>, added: seq<Arc>)
    requires IsVertexSet(vertices, Arcs(added)) && added != []
    ensures vertices != []
  {
    assert Arcs(added)[0] in Arcs(added);
  }

  /** Every vertex has a list, thanks to the back edges. */
  lemma HasList(edgelist: map<int, seq<Half>>, vertices: seq<int>, added: seq<Arc>, v: int)
    requires Lists(edgelist, Arcs(added)) && IsVertexSet(vertices, Arcs(added)) && v in vertices
    ensures v in edgelist && edgelist[v] == Halves(Out(Arcs(added), v))
  {
    var a := LeavesVertex(vertices, added, v);
    OutIn(Arcs(added), v, a);
  }

  lemma MakesTables(vtable: seq<int>, etable: seq<int>, eweight: seq<int>, vertices: seq<int>, arcs: seq<Arc>)
    requires vertices != [] && |vtable| == |vertices| + 1 && Filled(etable, eweight, Rows(vertices, arcs), vertices[0])
    requires forall i :: 0 <= i <= |vertices| ==> vtable[i] == |Rows(vertices[..i], arcs)|
    ensures IsTables(vtable, etable, eweight, vertices, arcs)
  {
  }

  lemma RowsOfNone(arcs: seq<Arc>, first: int)
    ensures Rows([], arcs) == [] && Filled([], [], [], first)
  {
  }

  class Graph {
    var edgelist: map<int, seq<Half>>
    var vertexHash: seq<int>
    ghost var added: seq<Arc>

    ghost predicate Holds(arcs: seq<Arc>)
      reads this
    {
      Lists(edgelist, arcs) && IsVertexSet(vertexHash, arcs)
    }

    ghost predicate Valid()
      reads this
    {
      Holds(Arcs(added))
    }

    constructor ()
      ensures Valid() && added == []
    {
      edgelist, vertexHash, added := map[], [], [];
    }

    /** One direction of an edge. */
    method AddArc(src: int, dst: int, weight: int, ghost arcs: seq<Arc>)
      requires Holds(arcs)
      modifies this`edgelist, this`vertexHash
      ensures Holds(arcs + [Arc(src, dst, weight)])
    {
      ghost var a := Arc(src, dst, weight);
      ListsSnoc(edgelist, arcs, a);
      if src !in edgelist {
        edgelist := edgelist[src := [Half(dst, weight)]];
        assert [] + [Half(dst, weight)] == [Half(dst, weight)];
        vertexHash := Insert(vertexHash, src);
        if dst !in vertexHash {
          vertexHash := Insert(vertexHash, dst);
        }
      } else {
        OutIn(arcs, src, Out(arcs, src)[0]);
        edgelist := edgelist[src := edgelist[src] + [Half(dst, weight)]];
        if dst !in vertexHash {
          vertexHash := Insert(vertexHash, dst);
        }
      }
      VerticesSnoc(old(vertexHash), vertexHash, arcs, a);
    }

    /** Add an edge, and the back edge the partitioner needs. */
    method AddEdge(src: int, dst: int, weight: int)
      requires Valid()
      modifies this
      ensures Valid() && added == old(added) + [Arc(src, dst, weight)]
    {
      ghost var e := Arc(src, dst, weight);
      ArcsSnoc(added, e);
      AddArc(src, dst, weight, Arcs(added));
      AddArc(dst, src, weight, Arcs(added) + [e]);
      added := added + [e];
    }

    /** The loop over the vertices: row boundaries, and the entries of all rows. */
    method FillTables() returns (vtable: array<int>, edges: seq<int>, weights: seq<int>)
      requires Valid() && added != []
      ensures fresh(vtable) && IsTables(vtable[..], edges, weights, vertexHash, Arcs(added))
    {
      hide Rows, Out, IsVertexSet, Arcs, Lists, Increasing, Filled, IsTables;
      ghost var arcs := Arcs(added);
      HasVertices(vertexHash, added);
      var size := |vertexHash|;
      vtable := new int[size + 1];
      edges, weights := [], [];
      var edgeIndex := 0;
      RowsOfNone(arcs, vertexHash[0]);
      assert vertexHash[..0] == [];
      for i := 0 to size
        invariant edgeIndex == |Rows(vertexHash[..i], arcs)|
        invariant forall j :: 0 <= j < i ==> vtable[j] == |Rows(vertexHash[..j], arcs)|
        invariant Filled(edges, weights, Rows(vertexHash[..i], arcs), vertexHash[0])
      {
        var v := vertexHash[i];
        HasList(edgelist, vertexHash, added, v);
        RowsNext(vertexHash, arcs, i);
        var dstlist := edgelist[v];
        vtable[i] := edgeIndex;
        edges, weights := AppendRow(dstlist, edges, weights, vertexHash[0], Rows(vertexHash[..i], arcs), Out(arcs, v));
        edgeIndex := edgeIndex + |dstlist|;
      }
      vtable[size] := edgeIndex;
      assert vertexHash[..size] == vertexHash;
      MakesTables(vtable[..], edges, weights, vertexHash, arcs);
    }

    static method CopyToArray(s: seq<int>) returns (a: array<int>)
      ensures fresh(a) && a[..] == s
    {
      a := new int[|s|];
      for i := 0 to |s|
        invariant a[..i] == s[..i]
      {
        a[i] := s[i];
      }
    }

    /** The tables of a graph with at least one edge. */
    method GetScotchTables() returns (vtable: array<int>, etable: array<int>, eweight: array<int>, numVertices: nat, numEdges: nat)
      requires Valid() && added != []
      ensures fresh(vtable) && fresh(etable) && fresh(eweight)
      ensures IsTables(vtable[..], etable[..], eweight[..], vertexHash, Arcs(added)) && IsVertexSet(vertexHash, Arcs(added))
      ensures numVertices == |vertexHash| && numEdges == etable.Length == 2 * |added|
    {
      hide IsTables, IsVertexSet, Arcs, Lists;
      var edges, weights;
      vtable, edges, weights := FillTables();
      TableLength(vtable[..], edges, weights, vertexHash, added);
      etable := CopyToArray(edges);
      eweight := CopyToArray(weights);
      assert etable.Length == |etable[..]|;
      numVertices, numEdges := |vertexHash|, |edges|;
    }

    /** The inner loop: one vertex's list, with ends counted from the first vertex. */
    static method AppendRow(dstlist: seq<Half>, edges: seq<int>, weights: seq<int>, first: int, ghost rows: seq<Arc>, ghost row: seq<Arc>)
        returns (edges': seq<int>, weights': seq<int>)
      requires dstlist == Halves(row) && Filled(edges, weights, rows, first)
      ensures Filled(edges', weights', rows + row, first)
    {
      edges', weights' := edges, weights;
      for e := 0 to |dstlist|
        invariant Filled(edges', weights', rows + row[..e], first)
      {
        edges', weights' := edges' + [dstlist[e].dst - first], weights' + [dstlist[e].weight];
        assert rows + row[..e + 1] == (rows + row[..e]) + [row[e]];
      }
      assert row[..|dstlist|] == row;
    }
  }
}
