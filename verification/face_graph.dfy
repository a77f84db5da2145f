/** The face-adjacency graph: pair construction in `build_face_graph`, and `check_graph_invariants`
    (cad2ml/representations/graph.py). */
module FaceGraphs {
  import opened Ordering
  import opened Sorting
  import opened Relabelling
  import opened Entities

  type Pair = (nat, nat)

  /** Nodes by name; directed pairs of nodes; for each pair, the number of edges shared. */
  datatype FaceGraph = FaceGraph(nodes: seq<string>, edgeIndex: seq<Pair>, sharedEdges: seq<nat>)

  ghost predicate UniqueNames(faces: seq<FaceRecord>) {
    forall i, k :: 0 <= i < k < |faces| ==> faces[i].id != faces[k].id
  }

  predicate Names(faces: seq<FaceRecord>, i: int, name: string) {
    0 <= i < |faces| && faces[i].id == name
  }

  ghost predicate Known(faces: seq<FaceRecord>, name: string) {
    exists i :: Names(faces, i, name)
  }

  /** Every face an edge record names is among the face records. */
  ghost predicate NamesKnown(faces: seq<FaceRecord>, edges: seq<EdgeRecord>) {
    forall e, name :: 0 <= e < |edges| && name in edges[e].adjacent ==> Known(faces, name)
  }

  /** The nodes of the faces an edge bounds. */
  function NodesOf(faces: seq<FaceRecord>, e: EdgeRecord): set<nat> {
    set i: nat | i < |faces| && faces[i].id in e.adjacent
  }

  /** Two distinct nodes share edge `e`. */
  predicate Shares(faces: seq<FaceRecord>, edges: seq<EdgeRecord>, e: int, p: Pair) {
    0 <= e < |edges| && p.0 in NodesOf(faces, edges[e]) && p.1 in NodesOf(faces, edges[e]) && p.0 != p.1
  }

  /** The edges before `n` that the pair shares, in order. */
  function Sharing(faces: seq<FaceRecord>, edges: seq<EdgeRecord>, n: nat, p: Pair): seq<nat> {
    if n == 0 then []
    else Sharing(faces, edges, n - 1, p) + if Shares(faces, edges, n - 1, p) then [n - 1] else []
  }

  ghost predicate Adjacent(faces: seq<FaceRecord>, edges: seq<EdgeRecord>, p: Pair) {
    exists e :: Shares(faces, edges, e, p)
  }

  lemma {:induction false} SharingFinds(faces: seq<FaceRecord>, edges: seq<EdgeRecord>, n: nat, p: Pair)
    requires n <= |edges|
    ensures Sharing(faces, edges, n, p) != [] <==> exists e :: e < n && Shares(faces, edges, e, p)
  {
    if n > 0 { SharingFinds(faces, edges, n - 1, p); }
  }

  // ---- the pair dictionary ----------------------------------------------------------------

  type Pairs = map<Pair, seq<nat>>

  function Get(pair: Pairs, p: Pair): seq<nat> {
    if p in pair then pair[p] else []
  }

  predicate AppendedAt(before: Pairs, after: Pairs, e: nat, p: Pair, hit: bool) {
    && Get(after, p) == Get(before, p) + (if hit then [e] else [])
    && (p in after <==> p in before || hit)
  }

  predicate RowHit(ids: seq<nat>, a: nat, p: Pair) {
    p.0 == a && p.1 in ids && p.1 != a
  }

  /** Node `a` is paired with every other node of one edge, and the edge is noted under each pair. */
  method PairWith(ids: seq<nat>, a: nat, e: nat, pair: Pairs) returns (r: Pairs)
    requires Ascending(ids)
    ensures forall p: Pair {:trigger RowHit(ids, a, p)} :: AppendedAt(pair, r, e, p, RowHit(ids, a, p))
  {
    r := pair;
    var j := 0;
    while j < |ids|
      invariant 0 <= j <= |ids|
      invariant forall p: Pair {:trigger RowHit(ids[..j], a, p)} :: AppendedAt(pair, r, e, p, RowHit(ids[..j], a, p))
    {
      ghost var r0, j' := r, j + 1;
      assert ids[..j'] == ids[..j] + [ids[j]];
      if a != ids[j] { r := r[(a, ids[j]) := Get(r, (a, ids[j])) + [e]]; }
      forall p: Pair ensures AppendedAt(pair, r, e, p, RowHit(ids[..j'], a, p)) {
        assert AppendedAt(pair, r0, e, p, RowHit(ids[..j], a, p));
      }
      j := j + 1;
    }
    assert ids[..|ids|] == ids;
  }

  predicate BothIn(ids: seq<nat>, firsts: seq<nat>, p: Pair) {
    p.0 in firsts && p.1 in ids && p.0 != p.1
  }

  /** The two inner loops for one edge. */
  method PairUp(ids: seq<nat>, e: nat, pair: Pairs) returns (r: Pairs)
    requires Ascending(ids)
    ensures forall p: Pair {:trigger BothIn(ids, ids, p)} :: AppendedAt(pair, r, e, p, BothIn(ids, ids, p))
  {
    r := pair;
    var i := 0;
    while i < |ids|
      invariant 0 <= i <= |ids|
      invariant forall p: Pair {:trigger BothIn(ids, ids[..i], p)} ::
          AppendedAt(pair, r, e, p, BothIn(ids, ids[..i], p))
    {
      ghost var r0, i' := r, i + 1;
      assert ids[..i'] == ids[..i] + [ids[i]];
      r := PairWith(ids, ids[i], e, r);
      forall p: Pair ensures AppendedAt(pair, r, e, p, BothIn(ids, ids[..i'], p)) {
        assert AppendedAt(pair, r0, e, p, BothIn(ids, ids[..i], p));
        assert AppendedAt(r0, r, e, p, RowHit(ids, ids[i], p));
      }
      i := i + 1;
    }
    assert ids[..|ids|] == ids;
  }

  predicate PairKnown(faces: seq<FaceRecord>, edges: seq<EdgeRecord>, n: nat, pair: Pairs, p: Pair) {
    Get(pair, p) == Sharing(faces, edges, n, p) && (p in pair <==> Sharing(faces, edges, n, p) != [])
  }

  /** `fidx` of the source. */
  method IndexNames(faces: seq<FaceRecord>) returns (index: map<string, nat>)
    requires UniqueNames(faces)
    ensures forall name :: name in index <==> Known(faces, name)
    ensures forall i, name :: Names(faces, i, name) ==> name in index && index[name] == i
  {
    index := map[];
    var i := 0;
    while i < |faces|
      invariant 0 <= i <= |faces|
      invariant forall name :: name in index <==> exists k :: k < i && Names(faces, k, name)
      invariant forall k, name :: k < i && Names(faces, k, name) ==> name in index && index[name] == k
    {
      ghost var before := index;
      index := index[faces[i].id := i];
      assert Names(faces, i, faces[i].id);
      i := i + 1;
    }
  }

  /** The nodes of the faces one edge record names. */
  method NodeSet(faces: seq<FaceRecord>, index: map<string, nat>, e: EdgeRecord) returns (ids: set<nat>)
    requires forall i, name :: Names(faces, i, name) ==> name in index && index[name] == i
    requires forall name :: name in e.adjacent ==> Known(faces, name)
    ensures ids == NodesOf(faces, e)
  {
    ids := {};
    var j := 0;
    while j < |e.adjacent|
      invariant 0 <= j <= |e.adjacent|
      invariant forall i: nat :: i in ids <==> i < |faces| && faces[i].id in e.adjacent[..j]
    {
      var name := e.adjacent[j];
      assert e.adjacent[..j + 1] == e.adjacent[..j] + [name];
      assert name in e.adjacent;
      ghost var k :| Names(faces, k, name);
      ghost var before := ids;
      ids := ids + {index[name]};
      forall i: nat ensures i in ids <==> i < |faces| && faces[i].id in e.adjacent[..j + 1] {
        if i < |faces| && faces[i].id == name { assert Names(faces, i, name); }
      }
      j := j + 1;
    }
    assert e.adjacent[..|e.adjacent|] == e.adjacent;
  }

  /** The loop over edges. */
  method BuildPairs(faces: seq<FaceRecord>, edges: seq<EdgeRecord>) returns (pair: Pairs)
    requires UniqueNames(faces) && NamesKnown(faces, edges)
    ensures forall p: Pair {:trigger PairKnown(faces, edges, |edges|, pair, p)} ::
        PairKnown(faces, edges, |edges|, pair, p)
  {
    var index := IndexNames(faces);
    pair := map[];
    var e := 0;
    while e < |edges|
      invariant 0 <= e <= |edges|
      invariant forall p: Pair {:trigger PairKnown(faces, edges, e, pair, p)} :: PairKnown(faces, edges, e, pair, p)
    {
      var nodes := NodeSet(faces, index, edges[e]);
      var ids := Listed(nodes, |faces|);
      ghost var before, e' := pair, e + 1;
      pair := PairUp(ids, e, pair);
      forall p: Pair ensures PairKnown(faces, edges, e', pair, p) {
        assert PairKnown(faces, edges, e, before, p);
        assert BothIn(ids, ids, p) <==> Shares(faces, edges, e, p);
      }
      e := e + 1;
    }
  }

  // ---- the graph --------------------------------------------------------------------------

  predicate PairLe(p: Pair, q: Pair) {
    p.0 < q.0 || (p.0 == q.0 && p.1 <= q.1)
  }

  ghost predicate Built(g: FaceGraph, faces: seq<FaceRecord>, edges: seq<EdgeRecord>) {
    && |g.nodes| == |faces| && (forall i :: 0 <= i < |faces| ==> g.nodes[i] == faces[i].id)
    && AllDifferent(g.edgeIndex) && SortedBy(PairLe, g.edgeIndex)
    && (forall p: Pair {:trigger Adjacent(faces, edges, p)} :: p in g.edgeIndex <==> Adjacent(faces, edges, p))
    && |g.sharedEdges| == |g.edgeIndex|
    && forall c :: 0 <= c < |g.edgeIndex| ==> g.sharedEdges[c] == |Sharing(faces, edges, |edges|, g.edgeIndex[c])|
  }

  /** The keys of the pair dictionary, in order. */
  method SortedPairs(pair: Pairs) returns (keys: seq<Pair>)
    ensures AllDifferent(keys) && SortedBy(PairLe, keys) && forall p :: p in keys <==> p in pair
  {
    var list := [];
    var rest := pair.Keys;
    while rest != {}
      invariant rest <= pair.Keys && AllDifferent(list)
      invariant forall p :: p in list <==> p in pair && p !in rest
      decreases rest
    {
      var p :| p in rest;
      rest := rest - {p};
      list := list + [p];
    }
    keys := SortBy(PairLe, list);
    SortBySorts(PairLe, list);
    MultisetDifferent(list, keys);
  }

  /** `build_face_graph`, as far as nodes and edges go. */
  method BuildFaceGraph(faces: seq<FaceRecord>, edges: seq<EdgeRecord>) returns (g: FaceGraph)
    requires UniqueNames(faces) && NamesKnown(faces, edges)
    ensures Built(g, faces, edges)
  {
    var pair := BuildPairs(faces, edges);
    var keys := SortedPairs(pair);
    forall p: Pair ensures p in keys <==> Adjacent(faces, edges, p) {
      assert PairKnown(faces, edges, |edges|, pair, p);
      SharingFinds(faces, edges, |edges|, p);
      assert Adjacent(faces, edges, p) <==> exists e :: e < |edges| && Shares(faces, edges, e, p);
    }
    forall c | 0 <= c < |keys| ensures |Get(pair, keys[c])| == |Sharing(faces, edges, |edges|, keys[c])| {
      assert PairKnown(faces, edges, |edges|, pair, keys[c]);
    }
    g := FaceGraph(seq(|faces|, i requires 0 <= i < |faces| => faces[i].id), keys,
                   seq(|keys|, c requires 0 <= c < |keys| => |Get(pair, keys[c])|));
  }

  // ---- the invariant check ----------------------------------------------------------------

  datatype GraphChecks = GraphChecks(nodesMatchFaces: bool, inRange: bool, noSelfLoops: bool,
                                     equalsSharedTopology: bool, symmetric: bool)

  /** `shared` of the source. */
  method SharedPairs(faces: seq<FaceRecord>, edges: seq<EdgeRecord>) returns (shared: set<Pair>)
    requires UniqueNames(faces) && NamesKnown(faces, edges)
    ensures forall p: Pair {:trigger Adjacent(faces, edges, p)} :: p in shared <==> Adjacent(faces, edges, p)
  {
    var index := IndexNames(faces);
    shared := {};
    var e := 0;
    while e < |edges|
      invariant 0 <= e <= |edges|
      invariant forall p: Pair :: p in shared <==> exists d :: d < e && Shares(faces, edges, d, p)
    {
      var ids := NodeSet(faces, index, edges[e]);
      ghost var before := shared;
      shared := shared + set a, b | a in ids && b in ids && a != b :: (a, b);
      forall p: Pair ensures p in shared <==> p in before || Shares(faces, edges, e, p) {}
      e := e + 1;
    }
    forall p: Pair ensures p in shared <==> Adjacent(faces, edges, p) {
      assert Adjacent(faces, edges, p) <==> exists d :: d < |edges| && Shares(faces, edges, d, p);
    }
  }

  /** `check_graph_invariants`, as far as nodes and edges go. */
  method CheckGraph(g: FaceGraph, faces: seq<FaceRecord>, edges: seq<EdgeRecord>) returns (c: GraphChecks)
    requires UniqueNames(faces) && NamesKnown(faces, edges)
    ensures c.nodesMatchFaces <==> |g.nodes| == |faces| && forall i :: 0 <= i < |faces| ==> g.nodes[i] == faces[i].id
    ensures c.inRange <==> forall p :: p in g.edgeIndex ==> p.0 < |faces| && p.1 < |faces|
    ensures c.noSelfLoops <==> forall p :: p in g.edgeIndex ==> p.0 != p.1
    ensures c.equalsSharedTopology <==>
              forall p: Pair {:trigger Adjacent(faces, edges, p)} :: p in g.edgeIndex <==> Adjacent(faces, edges, p)
    ensures c.symmetric <==> forall a, b :: (a, b) in g.edgeIndex ==> (b, a) in g.edgeIndex
  {
    var shared := SharedPairs(faces, edges);
    var pairs := set p | p in g.edgeIndex;
    c := GraphChecks(
      |g.nodes| == |faces| && (forall i :: 0 <= i < |faces| ==> g.nodes[i] == faces[i].id),
      (forall p :: p in g.edgeIndex ==> p.0 < |faces| && p.1 < |faces|),
      (forall p :: p in g.edgeIndex ==> p.0 != p.1),
      pairs == shared,
      (forall p :: p in g.edgeIndex ==> (p.1, p.0) in g.edgeIndex));
    forall p: Pair ensures p in g.edgeIndex <==> p in pairs {}
    if forall p: Pair {:trigger Adjacent(faces, edges, p)} :: p in g.edgeIndex <==> Adjacent(faces, edges, p) {
      forall p: Pair ensures p in pairs <==> p in shared { assert p in shared <==> Adjacent(faces, edges, p); }
    }
  }

  /** A built graph passes every check. */
  lemma BuiltPasses(g: FaceGraph, faces: seq<FaceRecord>, edges: seq<EdgeRecord>, p: Pair)
    requires Built(g, faces, edges) && p in g.edgeIndex
    ensures p.0 < |faces| && p.1 < |faces| && p.0 != p.1 && (p.1, p.0) in g.edgeIndex
  {
    assert Adjacent(faces, edges, p);
    var e :| Shares(faces, edges, e, p);
    assert Shares(faces, edges, e, (p.1, p.0));
    assert Adjacent(faces, edges, (p.1, p.0));
  }

  /** Building and then checking succeeds. */
  method BuildAndCheck(faces: seq<FaceRecord>, edges: seq<EdgeRecord>) returns (g: FaceGraph, c: GraphChecks)
    requires UniqueNames(faces) && NamesKnown(faces, edges)
    ensures Built(g, faces, edges) && c == GraphChecks(true, true, true, true, true)
  {
    g := BuildFaceGraph(faces, edges);
    c := CheckGraph(g, faces, edges);
    forall p | p in g.edgeIndex ensures p.0 < |faces| && p.1 < |faces| && p.0 != p.1 && (p.1, p.0) in g.edgeIndex {
      BuiltPasses(g, faces, edges, p);
    }
  }
}
