/** What the records of `extract_entities` say of the shape, from the kernel's incidence lists alone
    (cad2ml/topology/entities.py). */
module EntityRecords {
  import opened Wrappers
  import opened Ordering
  import opened Sorting
  import opened Relabelling
  import opened Identifiers
  import opened Entities
  import Lineage

  // ---- which record is whose --------------------------------------------------------------

  /** Every face of the kernel has exactly one record, named by its position, with what the kernel measured. */
  lemma FaceHasRecord(k: Kernel, m: Measures, faces: seq<FaceRecord>, edges: seq<EdgeRecord>, f: nat) returns (i: nat)
    requires ValidKernel(k) && Records(k, m, faces, edges) && f < |k.faces|
    ensures |faces| == |k.faces| && i < |faces| && faces[i].traversal == f
    ensures faces[i].raw == k.faces[f] && faces[i].id == "F" + Pad3(i)
    ensures forall j :: 0 <= j < |faces| && faces[j].traversal == f ==> j == i
  {
    var fo := FaceOrder(k, m);
    OrderPermutes(FaceKeys(k, m));
    assert f in fo;
    i :| 0 <= i < |fo| && fo[i] == f;
    forall j | 0 <= j < |faces| && faces[j].traversal == f ensures j == i { assert fo[j] == fo[i]; }
  }

  /** And so has every edge. */
  lemma EdgeHasRecord(k: Kernel, m: Measures, faces: seq<FaceRecord>, edges: seq<EdgeRecord>, e: nat) returns (q: nat)
    requires ValidKernel(k) && Records(k, m, faces, edges) && e < |k.edges|
    ensures |edges| == |k.edges| && q < |edges| && edges[q].traversal == e
    ensures edges[q].raw == k.edges[e] && edges[q].id == "E" + Pad3(q)
    ensures forall p :: 0 <= p < |edges| && edges[p].traversal == e ==> p == q
  {
    var eo := EdgeOrder(k, m);
    OrderPermutes(EdgeKeys(k, m));
    assert e in eo;
    q :| 0 <= q < |eo| && eo[q] == e;
    forall p | 0 <= p < |edges| && edges[p].traversal == e ensures p == q { assert eo[p] == eo[q]; }
  }

  // ---- edges ------------------------------------------------------------------------------

  /** The list names no face but `a`. */
  predicate Only(l: seq<nat>, a: nat) {
    a in l && forall b :: b in l ==> b == a
  }

  predicate OneFace(l: seq<nat>) {
    exists a :: a in l && Only(l, a)
  }

  predicate TwoFaces(l: seq<nat>, a: nat, b: nat) {
    a < b && a in l && b in l && forall x :: x in l ==> x == a || x == b
  }

  predicate ThreeFaces(l: seq<nat>) {
    exists a, b, c :: a in l && b in l && c in l && a != b && b != c && c != a
  }

  /** What joins the faces that `l` lists for an edge: a seam is listed at least twice for one face, a
      boundary once for one face; the meeting of two faces is measured. */
  ghost predicate Joins(j: Junction, k: Kernel, m: Measures, e: nat)
    requires ValidKernel(k) && e < |k.edges|
  {
    var l := k.bounds[e];
    && (k.edges[e].degenerate || l == [] ==> j == Junction(Unknown, None))
    && (!k.edges[e].degenerate && OneFace(l) && |l| >= 2 ==> j == Junction(Seam, None))
    && (!k.edges[e].degenerate && OneFace(l) && |l| == 1 ==> j == Junction(Boundary, None))
    && (!k.edges[e].degenerate && ThreeFaces(l) ==> j == Junction(NonManifold, None))
    && (forall a: nat, b: nat {:trigger TwoFaces(l, a, b)} :: !k.edges[e].degenerate && TwoFaces(l, a, b) ==>
          a < |k.faces| && b < |k.faces| && j == m.meet(k.edges[e], k.faces[a], k.faces[b]))
  }

  lemma ListedIs(s: set<nat>, n: nat, a: nat)
    requires a < n && forall x :: x in s <==> x == a
    ensures Listed(s, n) == [a]
  {
    AscendingIsUnique(Listed(s, n), [a]);
  }

  lemma ListedAre(s: set<nat>, n: nat, a: nat, b: nat)
    requires a < b < n && forall x :: x in s <==> x == a || x == b
    ensures Listed(s, n) == [a, b]
  {
    AscendingIsUnique(Listed(s, n), [a, b]);
  }

  lemma ThreeListed(s: set<nat>, n: nat, a: nat, b: nat, c: nat)
    requires a in s && b in s && c in s && a < n && b < n && c < n && a != b && b != c && c != a
    ensures |Listed(s, n)| > 2
  {
    var l := Listed(s, n);
    assert a in l && b in l && c in l;
    var i :| 0 <= i < |l| && l[i] == a;
    var j :| 0 <= j < |l| && l[j] == b;
    var h :| 0 <= h < |l| && l[h] == c;
  }

  lemma JunctionOfNone(k: Kernel, m: Measures, e: nat)
    requires ValidKernel(k) && e < |k.edges| && k.bounds[e] == []
    ensures JunctionOf(k, m, e) == Junction(Unknown, None)
  {
    AscendingIsUnique(Listed(EdgeFaces(k, e), |k.faces|), []);
  }

  lemma JunctionOfOne(k: Kernel, m: Measures, e: nat, a: nat)
    requires ValidKernel(k) && e < |k.edges| && !k.edges[e].degenerate && Only(k.bounds[e], a)
    ensures JunctionOf(k, m, e) == Junction(if |k.bounds[e]| >= 2 then Seam else Boundary, None)
  {
    ListedIs(EdgeFaces(k, e), |k.faces|, a);
  }

  lemma JunctionOfMany(k: Kernel, m: Measures, e: nat, a: nat, b: nat, c: nat)
    requires ValidKernel(k) && e < |k.edges| && !k.edges[e].degenerate && a != b && b != c && c != a
    requires a in k.bounds[e] && b in k.bounds[e] && c in k.bounds[e]
    ensures JunctionOf(k, m, e) == Junction(NonManifold, None)
  {
    ThreeListed(EdgeFaces(k, e), |k.faces|, a, b, c);
  }

  lemma JunctionOfTwo(k: Kernel, m: Measures, e: nat, a: nat, b: nat)
    requires ValidKernel(k) && e < |k.edges| && !k.edges[e].degenerate && TwoFaces(k.bounds[e], a, b)
    ensures a < |k.faces| && b < |k.faces| && JunctionOf(k, m, e) == m.meet(k.edges[e], k.faces[a], k.faces[b])
  {
    ListedAre(EdgeFaces(k, e), |k.faces|, a, b);
  }

  lemma JunctionJoins(k: Kernel, m: Measures, e: nat)
    requires ValidKernel(k) && e < |k.edges|
    ensures Joins(JunctionOf(k, m, e), k, m, e)
  {
    if !k.edges[e].degenerate {
      var l := k.bounds[e];
      if l == [] { JunctionOfNone(k, m, e); }
      if OneFace(l) {
        var a :| a in l && Only(l, a);
        JunctionOfOne(k, m, e, a);
      }
      if ThreeFaces(l) {
        var a, b, c :| a in l && b in l && c in l && a != b && b != c && c != a;
        JunctionOfMany(k, m, e, a, b, c);
      }
      forall a: nat, b: nat | TwoFaces(k.bounds[e], a, b)
        ensures a < |k.faces| && b < |k.faces| && JunctionOf(k, m, e) == m.meet(k.edges[e], k.faces[a], k.faces[b])
      {
        JunctionOfTwo(k, m, e, a, b);
      }
    }
  }

  /** One of the cases applies, and only one. */
  lemma CasesOfBounds(l: seq<nat>)
    ensures l == [] || OneFace(l) || ThreeFaces(l) || exists a, b :: TwoFaces(l, a, b)
    ensures OneFace(l) ==> l != [] && !ThreeFaces(l) && forall a, b {:trigger TwoFaces(l, a, b)} :: !TwoFaces(l, a, b)
    ensures ThreeFaces(l) ==> forall a, b {:trigger TwoFaces(l, a, b)} :: !TwoFaces(l, a, b)
  {
    if l != [] && !OneFace(l) && !ThreeFaces(l) {
      var a := l[0];
      assert a in l && !Only(l, a);
      var b :| b in l && b != a;
      assert TwoFaces(l, if a < b then a else b, if a < b then b else a);
    }
  }

  /** The measurement of two faces never says seam, boundary or non-manifold. */
  ghost predicate Measuring(m: Measures) {
    forall e, f, g :: m.meet(e, f, g).convexity == Unknown || m.meet(e, f, g).convexity.Measured?
  }

  /** The junction of an edge record, from the kernel's list for its edge. */
  lemma JunctionMeans(k: Kernel, m: Measures, faces: seq<FaceRecord>, edges: seq<EdgeRecord>, q: nat)
    requires ValidKernel(k) && Records(k, m, faces, edges) && q < |edges|
    ensures edges[q].traversal < |k.edges| && Joins(edges[q].junction, k, m, edges[q].traversal)
    ensures
      var e, c := edges[q].traversal, edges[q].junction.convexity;
      var l, flat := k.bounds[e], k.edges[e].degenerate;
      Measuring(m) ==>
        && (c == Seam <==> !flat && OneFace(l) && |l| >= 2)
        && (c == Boundary <==> !flat && OneFace(l) && |l| == 1)
        && (c == NonManifold <==> !flat && ThreeFaces(l))
  {
    var e := edges[q].traversal;
    JunctionJoins(k, m, e);
    CasesOfBounds(k.bounds[e]);
  }

  // ---- lists of names ---------------------------------------------------------------------

  /** Two different faces bound a common edge. */
  predicate Neighbouring(k: Kernel, f: nat, g: nat) {
    f != g && exists e :: 0 <= e < |k.bounds| && f in k.bounds[e] && g in k.bounds[e]
  }

  /** A face lists as its neighbours the faces it shares an edge with, an edge the faces it bounds. */
  lemma FaceListsMean(k: Kernel, m: Measures, faces: seq<FaceRecord>, edges: seq<EdgeRecord>, i: nat, b: nat, q: nat)
    requires ValidKernel(k) && Records(k, m, faces, edges) && b < |faces|
    ensures i < |faces| ==>
        (faces[b].id in faces[i].adjacent <==> Neighbouring(k, faces[i].traversal, faces[b].traversal))
    ensures q < |edges| ==> (faces[b].id in edges[q].adjacent <==> faces[b].traversal in k.bounds[edges[q].traversal])
  {
    Lineage.RecordsNamed(k, m, faces, edges);
    if i < |faces| { AdjacentMeans(k, faces[i].traversal, faces[b].traversal); }
    if i < |faces| { Lineage.RankInNames(FaceOrder(k, m), FaceAdjacent(k, faces[i].traversal), b); }
    if q < |edges| { Lineage.RankInNames(FaceOrder(k, m), EdgeFaces(k, edges[q].traversal), b); }
  }

  lemma EdgeInNames(order: seq<nat>, s: set<nat>, name: string)
    ensures name in EdgeNames(order, s) <==> exists e :: e in s && e < |order| && name == EdgeName(Position(order, e))
  {
    var l := Listed(s, |order|);
    var over := Over((e: nat) => EdgeName(Position(order, e)), l);
    SortByCounts(StringLe, over);
    assert name in EdgeNames(order, s) <==> name in multiset(EdgeNames(order, s));
    assert name in over <==> name in multiset(over);
    if name in over {
      var i :| 0 <= i < |over| && over[i] == name;
      assert l[i] in l;
    }
    if e :| e in s && e < |order| && name == EdgeName(Position(order, e)) {
      assert e in l;
      var i :| 0 <= i < |l| && l[i] == e;
      assert over[i] == name;
    }
  }

  lemma EdgeRankInNames(order: seq<nat>, s: set<nat>, pos: nat)
    requires Renumbers(order) && pos < |order|
    ensures EdgeName(pos) in EdgeNames(order, s) <==> order[pos] in s
  {
    EdgeInNames(order, s, EdgeName(pos));
    PositionOf(order, pos);
    assert order[pos] in order;
    forall e | e in s && e < |order| && EdgeName(pos) == EdgeName(Position(order, e)) ensures e == order[pos] {
      NamesDiffer("E", pos, "E", Position(order, e));
      assert e in order;
      var i :| 0 <= i < |order| && order[i] == e;
      PositionOf(order, i);
    }
  }

  /** A face lists as its boundary the edges it bounds, and as its outer loop the kernel's. */
  lemma EdgeListsMean(k: Kernel, m: Measures, faces: seq<FaceRecord>, edges: seq<EdgeRecord>, i: nat, q: nat)
    requires ValidKernel(k) && Records(k, m, faces, edges) && i < |faces| && q < |edges|
    ensures edges[q].id in faces[i].boundary <==> faces[i].traversal in k.bounds[edges[q].traversal]
    ensures edges[q].id in faces[i].outer <==> edges[q].traversal in k.outer[faces[i].traversal]
  {
    var f, e := faces[i].traversal, edges[q].traversal;
    OrderPermutes(EdgeKeys(k, m));
    EdgeRankInNames(EdgeOrder(k, m), FaceEdges(k, f), q);
    EdgeRankInNames(EdgeOrder(k, m), OuterEdges(k, f), q);
    assert e in OuterEdges(k, f) <==> e in k.outer[f];
  }

  // ---- fingerprints and order -------------------------------------------------------------

  /** How many faces of type `t` share an edge with face `f`. */
  ghost function NeighboursOfKind(k: Kernel, f: nat, t: nat): nat {
    |set g: nat | g < |k.faces| && Neighbouring(k, f, g) && k.faces[g].kind == t|
  }

  ghost function Having<T(!new)>(f: nat -> T, l: seq<nat>, t: T): set<nat> {
    set x | x in l && f(x) == t
  }

  lemma HavingMore<T(!new)>(f: nat -> T, l: seq<nat>, x: nat, t: T)
    requires x !in l
    ensures |Having(f, l + [x], t)| == |Having(f, l, t)| + if f(x) == t then 1 else 0
  {
    assert Having(f, l + [x], t) == if f(x) == t then Having(f, l, t) + {x} else Having(f, l, t);
  }

  lemma OverMore<T>(f: nat -> T, l: seq<nat>, x: nat)
    ensures multiset(Over(f, l + [x])) == multiset(Over(f, l)) + multiset{f(x)}
  {
    assert Over(f, l + [x]) == Over(f, l) + [f(x)];
  }

  lemma {:induction false} CountsMembers<T(!new)>(f: nat -> T, l: seq<nat>, t: T)
    requires AllDifferent(l)
    ensures multiset(Over(f, l))[t] == |Having(f, l, t)|
    decreases |l|
  {
    if l == [] {
      assert Having(f, l, t) == {};
    } else {
      var rest, x := l[..|l| - 1], l[|l| - 1];
      assert l == rest + [x];
      CountsMembers(f, rest, t);
      HavingMore(f, rest, x, t);
      OverMore(f, rest, x);
    }
  }

  lemma KindsCount(k: Kernel, f: nat, t: nat)
    requires ValidKernel(k) && f < |k.faces|
    ensures Kinds(k, FaceAdjacent(k, f))[t] == NeighboursOfKind(k, f, t)
  {
    var s := FaceAdjacent(k, f);
    var l := Listed(s, |k.faces|);
    var kind := (g: nat) => KindOf(k, g);
    CountsMembers(kind, l, t);
    forall x: nat ensures x in Having(kind, l, t) <==> x < |k.faces| && Neighbouring(k, f, x) && k.faces[x].kind == t {
      assert x in l <==> x in s && x < |k.faces|;
      AdjacentMeans(k, f, x);
    }
    assert Having(kind, l, t) == set g: nat | g < |k.faces| && Neighbouring(k, f, g) && k.faces[g].kind == t;
  }

  lemma AdjacentMeans(k: Kernel, f: nat, g: nat)
    ensures g in FaceAdjacent(k, f) <==> Neighbouring(k, f, g)
  {
    if Neighbouring(k, f, g) {
      var e :| 0 <= e < |k.bounds| && f in k.bounds[e] && g in k.bounds[e];
      assert Meet(k, e, f, g);
    }
  }

  /** The fingerprint of a face is the hash of its type and shape, of how many edges it bounds, and of how
      many neighbours of each type it has. */
  lemma FacePrintMeans(k: Kernel, m: Measures, faces: seq<FaceRecord>, edges: seq<EdgeRecord>, i: nat)
    returns (histogram: multiset<nat>)
    requires ValidKernel(k) && Records(k, m, faces, edges) && i < |faces|
    ensures
      var f := faces[i].traversal;
      && f < |k.faces| && (forall t :: histogram[t] == NeighboursOfKind(k, f, t))
      && faces[i].fingerprint
         == m.faceHash(k.faces[f].kind, k.faces[f].shape, |set e: nat | e < |k.bounds| && f in k.bounds[e]|, histogram)
  {
    var f := faces[i].traversal;
    histogram := Kinds(k, FaceAdjacent(k, f));
    forall t: nat ensures histogram[t] == NeighboursOfKind(k, f, t) { KindsCount(k, f, t); }
    assert FaceEdges(k, f) == set e: nat | e < |k.bounds| && f in k.bounds[e];
  }

  /** The faces an edge bounds, by their records. */
  ghost function Bounded(k: Kernel, faces: seq<FaceRecord>, e: nat): seq<nat> {
    Listed(set i: nat | i < |faces| && faces[i].traversal in EdgeFaces(k, e), |faces|)
  }

  function PrintOf(faces: seq<FaceRecord>, i: nat): seq<int> {
    if i < |faces| then faces[i].fingerprint else []
  }

  /** Looking up the places of some numbers gives each of them once. */
  lemma PlacesOnce(order: seq<nat>, s: set<nat>, places: seq<nat>)
    requires Renumbers(order) && Ascending(places)
    requires forall i: nat :: i in places <==> i < |order| && order[i] in s
    ensures multiset(Over((i: nat) => At(order, i), places)) == multiset(Listed(s, |order|))
  {
    var l, named := Listed(s, |order|), Over((i: nat) => At(order, i), places);
    forall f ensures f in named <==> f in l {
      if f in named {
        var c :| 0 <= c < |named| && named[c] == f;
        assert places[c] in places;
        assert order[places[c]] in order;
      }
      if f in l {
        assert f in order;
        var i: nat :| 0 <= i < |order| && order[i] == f;
        assert i in places;
        var c :| 0 <= c < |places| && places[c] == i;
        assert named[c] == f;
      }
    }
    forall c, d | 0 <= c < d < |named| ensures named[c] != named[d] {
      assert places[c] in places && places[d] in places;
    }
    SameMembers(named, l);
  }

  lemma BoundedNames(k: Kernel, m: Measures, faces: seq<FaceRecord>, edges: seq<EdgeRecord>, e: nat)
    requires ValidKernel(k) && Records(k, m, faces, edges)
    ensures multiset(Over((i: nat) => At(FaceOrder(k, m), i), Bounded(k, faces, e)))
         == multiset(Listed(EdgeFaces(k, e), |k.faces|))
  {
    OrderPermutes(FaceKeys(k, m));
    PlacesOnce(FaceOrder(k, m), EdgeFaces(k, e), Bounded(k, faces, e));
  }

  lemma BoundedPrints(k: Kernel, m: Measures, faces: seq<FaceRecord>, edges: seq<EdgeRecord>, e: nat)
    requires ValidKernel(k) && Records(k, m, faces, edges)
    ensures multiset(Over((i: nat) => PrintOf(faces, i), Bounded(k, faces, e)))
         == multiset(Over((f: nat) => FacePrint(k, m, f), Listed(EdgeFaces(k, e), |k.faces|)))
  {
    var bounded, given, own := Bounded(k, faces, e), (f: nat) => FacePrint(k, m, f), (i: nat) => PrintOf(faces, i);
    var renamed := Over((i: nat) => At(FaceOrder(k, m), i), bounded);
    BoundedNames(k, m, faces, edges, e);
    OverMultiset(given, renamed, Listed(EdgeFaces(k, e), |k.faces|));
    forall c | 0 <= c < |bounded| ensures own(bounded[c]) == given(renamed[c]) { assert bounded[c] in bounded; }
    assert Over(own, bounded) == Over(given, renamed);
  }

  lemma EdgeHashed(k: Kernel, m: Measures, faces: seq<FaceRecord>, edges: seq<EdgeRecord>, q: nat, list: seq<seq<int>>)
    requires ValidKernel(k) && Records(k, m, faces, edges) && q < |edges|
    requires list == Over((f: nat) => FacePrint(k, m, f), Listed(EdgeFaces(k, edges[q].traversal), |k.faces|))
    ensures edges[q].fingerprint
         == m.edgeHash(edges[q].raw.kind, edges[q].raw.shape, edges[q].junction.convexity, SortBy(LexLe, list))
  {
  }

  lemma BoundedMembers(k: Kernel, faces: seq<FaceRecord>, e: nat)
    requires e < |k.bounds|
    ensures forall i: nat :: i in Bounded(k, faces, e) <==> i < |faces| && faces[i].traversal in k.bounds[e]
  {
  }

  /** The fingerprint of an edge is the hash of its type and shape, of its convexity, and of the
      fingerprints of the faces it bounds, sorted. */
  lemma EdgePrintMeans(k: Kernel, m: Measures, faces: seq<FaceRecord>, edges: seq<EdgeRecord>, q: nat)
    returns (bounded: seq<nat>, prints: seq<seq<int>>)
    requires ValidKernel(k) && Records(k, m, faces, edges) && q < |edges|
    ensures Ascending(bounded)
    ensures forall i: nat :: i in bounded <==> i < |faces| && faces[i].traversal in k.bounds[edges[q].traversal]
    ensures SortedBy(LexLe, prints) && multiset(prints) == multiset(Over((i: nat) => PrintOf(faces, i), bounded))
    ensures edges[q].fingerprint
        == m.edgeHash(edges[q].raw.kind, edges[q].raw.shape, edges[q].junction.convexity, prints)
  {
    var e := edges[q].traversal;
    bounded := Bounded(k, faces, e);
    BoundedMembers(k, faces, e);
    var list := Over((f: nat) => FacePrint(k, m, f), Listed(EdgeFaces(k, e), |k.faces|));
    prints := SortBy(LexLe, list);
    LexRanks();
    SortBySorts(LexLe, list);
    BoundedPrints(k, m, faces, edges, e);
    EdgeHashed(k, m, faces, edges, q, list);
  }

  lemma LexRanks()
    ensures Ranks(LexLe)
  {
    forall a, b ensures LexLe(a, b) || LexLe(b, a) { LexTotal(a, b); }
    forall a, b, c | LexLe(a, b) && LexLe(b, c) ensures LexLe(a, c) { LexTransitive(a, b, c); }
  }

  lemma InOrder(keys: seq<seq<int>>, o: seq<nat>, i: nat, j: nat)
    requires i < j < |keys| && o == CanonicalOrder(keys)
    ensures |o| == |keys| && o[i] < |keys| && o[j] < |keys|
    ensures LexLe(keys[o[i]], keys[o[j]]) && (keys[o[i]] == keys[o[j]] ==> o[i] < o[j])
  {
    OrderPermutes(keys);
    assert o[i] in o && o[j] in o && ByKey(keys)(o[i], o[j]);
    LexTotal(keys[o[i]], keys[o[j]]);
  }

  /** Faces stand in the order of place and fingerprint, equal ones in the kernel's order. */
  lemma FacesSorted(k: Kernel, m: Measures, faces: seq<FaceRecord>, edges: seq<EdgeRecord>, i: nat, j: nat)
    requires ValidKernel(k) && Records(k, m, faces, edges) && i < j < |faces|
    ensures
      var a, b := faces[i].raw.place + faces[i].fingerprint, faces[j].raw.place + faces[j].fingerprint;
      LexLe(a, b) && (a == b ==> faces[i].traversal < faces[j].traversal)
  {
    InOrder(FaceKeys(k, m), FaceOrder(k, m), i, j);
  }

  /** And so do edges. */
  lemma EdgesSorted(k: Kernel, m: Measures, faces: seq<FaceRecord>, edges: seq<EdgeRecord>, p: nat, q: nat)
    requires ValidKernel(k) && Records(k, m, faces, edges) && p < q < |edges|
    ensures
      var a, b := edges[p].raw.place + edges[p].fingerprint, edges[q].raw.place + edges[q].fingerprint;
      LexLe(a, b) && (a == b ==> edges[p].traversal < edges[q].traversal)
  {
    InOrder(EdgeKeys(k, m), EdgeOrder(k, m), p, q);
  }
}
