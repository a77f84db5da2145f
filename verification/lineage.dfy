/** The stored artifacts and the six checks of `trace_face` (cad2ml/lineage.py), and why graph
    neighbours carry the names of B-Rep neighbours. */
module Lineage {
  import opened Wrappers
  import opened Ordering
  import opened Relabelling
  import opened Entities
  import opened FaceGraphs
  import opened FaceRanges
  import Render
  import RenderViews

  /** One entry of the index; ranges are half open, `pixels` has one count per view. */
  datatype Entry = Entry(node: nat, kind: nat, traversal: nat, points: (nat, nat), triangles: (nat, nat),
                         pixels: seq<nat>, features: seq<string>, fingerprint: seq<int>)

  /** A recognized feature: its name and the names of its faces. */
  datatype Labelled = Labelled(id: string, faces: seq<string>)

  /** The representations of one sample, all in the order of its face records. */
  datatype Arrays = Arrays(
    faces: seq<FaceRecord>, edges: seq<EdgeRecord>, graph: FaceGraph, pointFaces: seq<nat>, points: seq<Range>,
    mesh: MeshData<Render.Vec>, views: seq<RenderViews.View>, features: seq<Labelled>)

  datatype Artifacts = Artifacts(lineage: map<string, Entry>, arrays: Arrays)

  // ---- the tracer -------------------------------------------------------------------------

  datatype Checks = Checks(nodeMapsToFace: bool, pointsCarryIndex: bool, noPointsOutside: bool,
                           trianglesCarryIndex: bool, pixelsMatch: bool, neighboursMatch: bool)

  const AllVerified := Checks(true, true, true, true, true, true)

  predicate SliceIs(owner: seq<nat>, s: nat, e: nat, node: nat) {
    forall j :: s <= j < e && j < |owner| ==> owner[j] == node
  }

  function Neighbours(pairs: seq<Pair>, node: nat): seq<nat> {
    if pairs == [] then []
    else (if pairs[0].0 == node then [pairs[0].1] else []) + Neighbours(pairs[1..], node)
  }

  function NodeName(g: FaceGraph, n: nat): string {
    if n < |g.nodes| then g.nodes[n] else ""
  }

  /** How many pixels of an image have the value. */
  function PixelCount(rows: seq<seq<nat>>, value: nat): nat {
    if rows == [] then 0 else PixelCount(rows[..|rows| - 1], value) + Owned(rows[|rows| - 1], value)
  }

  function Pixels(views: seq<RenderViews.View>, node: nat): seq<nat> {
    seq(|views|, v requires 0 <= v < |views| => PixelCount(views[v].mask, node + 1))
  }

  /** The first record with the name. */
  function FindFace(faces: seq<FaceRecord>, id: string): Option<FaceRecord> {
    if faces == [] then None else if faces[0].id == id then Some(faces[0]) else FindFace(faces[1..], id)
  }

  function CheckEntry(a: Arrays, id: string, entry: Entry, face: FaceRecord): Checks {
    var tri := a.mesh.triFace;
    Checks(
      entry.node < |a.graph.nodes| && a.graph.nodes[entry.node] == id,
      SliceIs(a.pointFaces, entry.points.0, entry.points.1, entry.node) && entry.points.1 > entry.points.0,
      Owned(a.pointFaces, entry.node) == entry.points.1 - entry.points.0,
      SliceIs(tri, entry.triangles.0, entry.triangles.1, entry.node) && entry.triangles.1 > entry.triangles.0,
      Pixels(a.views, entry.node) == entry.pixels,
      SortBy(StringLe, Over((n: nat) => NodeName(a.graph, n), Neighbours(a.graph.edgeIndex, entry.node)))
        == SortBy(StringLe, face.adjacent))
  }

  /** The names of the features a face takes part in. */
  function FeaturesOf(features: seq<Labelled>, id: string): seq<string> {
    if features == [] then []
    else
      var last := features[|features| - 1];
      FeaturesOf(features[..|features| - 1], id) + if id in last.faces then [last.id] else []
  }

  /** What the tracer says of a face: its checks and its features. */
  datatype Trace = Trace(checks: Checks, features: seq<string>)

  /** `trace_face`: nothing for a face that is not in the index or the records. */
  function TraceFace(a: Artifacts, id: string): Option<Trace> {
    if id !in a.lineage then None
    else
      match FindFace(a.arrays.faces, id)
      case None => None
      case Some(face) =>
        Some(Trace(CheckEntry(a.arrays, id, a.lineage[id], face), FeaturesOf(a.arrays.features, id)))
  }

  // ---- names in the records ---------------------------------------------------------------

  lemma NameInNames(order: seq<nat>, s: set<nat>, name: string)
    ensures name in FaceNames(order, s) <==> exists f :: f in s && f < |order| && name == FaceName(Position(order, f))
  {
    var l := Listed(s, |order|);
    var over := Over((f: nat) => FaceName(Position(order, f)), l);
    StringsRank(over);
    SortBySorts(StringLe, over);
    assert name in FaceNames(order, s) <==> name in multiset(FaceNames(order, s));
    assert name in over <==> name in multiset(over);
    if name in over {
      var i :| 0 <= i < |over| && over[i] == name;
      assert l[i] in l;
    }
    if f :| f in s && f < |order| && name == FaceName(Position(order, f)) {
      assert f in l;
      var i :| 0 <= i < |l| && l[i] == f;
      assert over[i] == name;
    }
  }

  /** The name of rank `pos` is listed exactly when the face at that rank is meant. */
  lemma RankInNames(order: seq<nat>, s: set<nat>, pos: nat)
    requires Renumbers(order) && pos < |order|
    ensures FaceName(pos) in FaceNames(order, s) <==> order[pos] in s
  {
    NameInNames(order, s, FaceName(pos));
    PositionOf(order, pos);
    assert order[pos] in order;
    forall f | f in s && f < |order| && FaceName(pos) == FaceName(Position(order, f)) ensures f == order[pos] {
      FaceNamesDiffer(pos, Position(order, f));
      assert f in order;
      var i :| 0 <= i < |order| && order[i] == f;
      PositionOf(order, i);
    }
  }

  lemma NamesDifferInList(order: seq<nat>, s: set<nat>)
    requires Renumbers(order)
    ensures AllDifferent(FaceNames(order, s))
  {
    var l := Listed(s, |order|);
    var over := Over((f: nat) => FaceName(Position(order, f)), l);
    forall i, k | 0 <= i < k < |over| ensures over[i] != over[k] {
      assert l[i] in l && l[k] in l;
      assert l[i] in order && l[k] in order;
      var a :| 0 <= a < |order| && order[a] == l[i];
      var b :| 0 <= b < |order| && order[b] == l[k];
      PositionOf(order, a);
      PositionOf(order, b);
      FaceNamesDiffer(a, b);
    }
    StringsRank(over);
    SortBySorts(StringLe, over);
    MultisetDifferent(over, FaceNames(order, s));
  }

  /** Records are named by their position, and both orders are renumberings. */
  lemma RecordsNamed(k: Kernel, m: Measures, faces: seq<FaceRecord>, edges: seq<EdgeRecord>)
    requires ValidKernel(k) && Records(k, m, faces, edges)
    ensures UniqueNames(faces) && forall i :: 0 <= i < |faces| ==> faces[i].id == FaceName(i)
    ensures Renumbers(FaceOrder(k, m)) && Renumbers(EdgeOrder(k, m))
  {
    OrderPermutes(FaceKeys(k, m));
    OrderPermutes(EdgeKeys(k, m));
    forall i, j | 0 <= i < j < |faces| ensures faces[i].id != faces[j].id { FaceNamesDiffer(i, j); }
  }

  lemma EdgeNamesKnown(k: Kernel, m: Measures, faces: seq<FaceRecord>, edges: seq<EdgeRecord>)
    requires ValidKernel(k) && Records(k, m, faces, edges)
    ensures NamesKnown(faces, edges)
  {
    RecordsNamed(k, m, faces, edges);
    var order := FaceOrder(k, m);
    forall e, name | 0 <= e < |edges| && name in edges[e].adjacent ensures Known(faces, name) {
      RankKnown(order, faces, EdgeFaces(k, EdgeOrder(k, m)[e]), name);
    }
  }

  lemma RankKnown(order: seq<nat>, faces: seq<FaceRecord>, s: set<nat>, name: string)
    requires Renumbers(order) && |faces| == |order| && name in FaceNames(order, s)
    requires forall i :: 0 <= i < |faces| ==> faces[i].id == FaceName(i)
    ensures Known(faces, name)
  {
    NameInNames(order, s, name);
    var f :| f in s && f < |order| && name == FaceName(Position(order, f));
    assert f in order;
    var i :| 0 <= i < |order| && order[i] == f;
    PositionOf(order, i);
    assert Names(faces, i, name);
  }

  // ---- graph neighbours are B-Rep neighbours ----------------------------------------------

  /** A node belongs to an edge record exactly when its face bounds the edge. */
  lemma NodeBounds(k: Kernel, m: Measures, faces: seq<FaceRecord>, edges: seq<EdgeRecord>, q: nat, i: nat)
    requires ValidKernel(k) && Records(k, m, faces, edges) && q < |edges| && i < |faces|
    ensures i in NodesOf(faces, edges[q]) <==> FaceOrder(k, m)[i] in k.bounds[EdgeOrder(k, m)[q]]
  {
    RecordsNamed(k, m, faces, edges);
    RankInNames(FaceOrder(k, m), EdgeFaces(k, EdgeOrder(k, m)[q]), i);
  }

  lemma NodesShare(k: Kernel, m: Measures, faces: seq<FaceRecord>, edges: seq<EdgeRecord>, q: nat, i: nat, b: nat)
    requires ValidKernel(k) && Records(k, m, faces, edges) && q < |edges| && i < |faces| && b < |faces|
    ensures Shares(faces, edges, q, (i, b)) <==> Meet(k, EdgeOrder(k, m)[q], FaceOrder(k, m)[i], FaceOrder(k, m)[b])
  {
    NodeBounds(k, m, faces, edges, q, i);
    NodeBounds(k, m, faces, edges, q, b);
    RecordsNamed(k, m, faces, edges);
  }

  /** Two nodes share an edge in the records exactly when their faces share one in the kernel. */
  lemma NodesMeet(k: Kernel, m: Measures, faces: seq<FaceRecord>, edges: seq<EdgeRecord>, i: nat, b: nat)
    requires ValidKernel(k) && Records(k, m, faces, edges) && i < |faces| && b < |faces|
    ensures Adjacent(faces, edges, (i, b)) <==> FaceOrder(k, m)[b] in FaceAdjacent(k, FaceOrder(k, m)[i])
  {
    var fo, eo := FaceOrder(k, m), EdgeOrder(k, m);
    if Adjacent(faces, edges, (i, b)) {
      var q :| Shares(faces, edges, q, (i, b));
      NodesShare(k, m, faces, edges, q, i, b);
    }
    if fo[b] in FaceAdjacent(k, fo[i]) {
      var e: nat :| e < |k.bounds| && fo[b] in k.bounds[e] && Meet(k, e, fo[i], fo[b]);
      OrderPermutes(EdgeKeys(k, m));
      assert e in eo;
      var q :| 0 <= q < |eo| && eo[q] == e;
      NodesShare(k, m, faces, edges, q, i, b);
    }
  }

  lemma {:induction false} NeighboursOf(pairs: seq<Pair>, node: nat)
    requires AllDifferent(pairs)
    ensures AllDifferent(Neighbours(pairs, node))
    ensures forall b :: b in Neighbours(pairs, node) <==> (node, b) in pairs
  {
    if pairs != [] {
      NeighboursOf(pairs[1..], node);
      assert pairs == [pairs[0]] + pairs[1..];
      var rest := Neighbours(pairs[1..], node);
      forall b ensures b in Neighbours(pairs, node) <==> (node, b) in pairs {
        assert (node, b) in pairs <==> (node, b) == pairs[0] || (node, b) in pairs[1..];
      }
      assert pairs[0].0 == node ==> pairs[0] == (node, pairs[0].1);
      assert pairs[0] !in pairs[1..];
    }
  }

  lemma NeighbourMeets(k: Kernel, m: Measures, faces: seq<FaceRecord>, edges: seq<EdgeRecord>, g: FaceGraph, i: nat,
                       b: nat)
    requires ValidKernel(k) && Records(k, m, faces, edges) && Built(g, faces, edges) && i < |faces|
    ensures b in Neighbours(g.edgeIndex, i)
       <==> b < |faces| && FaceOrder(k, m)[b] in FaceAdjacent(k, FaceOrder(k, m)[i])
  {
    NeighboursOf(g.edgeIndex, i);
    assert Adjacent(faces, edges, (i, b)) <==> (i, b) in g.edgeIndex;
    if (i, b) in g.edgeIndex { BuiltPasses(g, faces, edges, (i, b)); }
    if b < |faces| { NodesMeet(k, m, faces, edges, i, b); }
  }

  /** The names of a node's graph neighbours are the names its record lists. */
  lemma NeighboursMatch(k: Kernel, m: Measures, faces: seq<FaceRecord>, edges: seq<EdgeRecord>, g: FaceGraph, i: nat)
    requires ValidKernel(k) && Records(k, m, faces, edges) && Built(g, faces, edges) && i < |faces|
    ensures SortBy(StringLe, Over((n: nat) => NodeName(g, n), Neighbours(g.edgeIndex, i)))
        == SortBy(StringLe, faces[i].adjacent)
  {
    RecordsNamed(k, m, faces, edges);
    NeighboursOf(g.edgeIndex, i);
    var fo, nb := FaceOrder(k, m), Neighbours(g.edgeIndex, i);
    forall b: nat ensures b in nb <==> b < |fo| && fo[b] in FaceAdjacent(k, fo[i]) {
      NeighbourMeets(k, m, faces, edges, g, i, b);
    }
    var names := Over((n: nat) => NodeName(g, n), nb);
    forall c | 0 <= c < |nb| ensures names[c] == FaceName(nb[c]) { assert nb[c] in nb; }
    SameNames(fo, FaceAdjacent(k, fo[i]), nb, names);
  }

  lemma SameNames(order: seq<nat>, s: set<nat>, nb: seq<nat>, names: seq<string>)
    requires Renumbers(order) && AllDifferent(nb) && |names| == |nb|
    requires forall c :: 0 <= c < |nb| ==> names[c] == FaceName(nb[c])
    requires forall b: nat :: b in nb <==> b < |order| && order[b] in s
    ensures SortBy(StringLe, names) == SortBy(StringLe, FaceNames(order, s))
  {
    forall a, c | 0 <= a < c < |names| ensures names[a] != names[c] { FaceNamesDiffer(nb[a], nb[c]); }
    NamesDifferInList(order, s);
    forall name ensures name in names <==> name in FaceNames(order, s) { NamedMembers(order, s, nb, names, name); }
    SameMembers(names, FaceNames(order, s));
    StringsRank(names);
    SortByForgetsOrder(StringLe, names, FaceNames(order, s));
  }

  lemma NamedMembers(order: seq<nat>, s: set<nat>, nb: seq<nat>, names: seq<string>, name: string)
    requires Renumbers(order) && |names| == |nb| && forall c :: 0 <= c < |nb| ==> names[c] == FaceName(nb[c])
    requires forall b: nat :: b in nb <==> b < |order| && order[b] in s
    ensures name in names <==> name in FaceNames(order, s)
  {
    if name in names {
      var c :| 0 <= c < |names| && names[c] == name;
      assert nb[c] in nb;
      RankInNames(order, s, nb[c]);
    }
    if name in FaceNames(order, s) {
      var b := NamedRank(order, s, name);
      assert b in nb;
      var c :| 0 <= c < |nb| && nb[c] == b;
      assert names[c] == name;
    }
  }

  lemma NamedRank(order: seq<nat>, s: set<nat>, name: string) returns (b: nat)
    requires Renumbers(order) && name in FaceNames(order, s)
    ensures b < |order| && order[b] in s && name == FaceName(b)
  {
    NameInNames(order, s, name);
    var f :| f in s && f < |order| && name == FaceName(Position(order, f));
    assert f in order;
    b :| 0 <= b < |order| && order[b] == f;
    PositionOf(order, b);
  }
}
