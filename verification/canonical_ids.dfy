/** Canonical identifiers do not depend on the kernel's traversal order: two shapes that differ only
    in how their faces and edges are numbered give the same records
    (cad2ml/topology/entities.py, cad2ml/topology/canonical.py). */
module CanonicalIds {
  import opened Ordering
  import opened Relabelling
  import opened Entities

  /** `k2` is `k1` with face `f` renumbered `pf[f]` and edge `e` renumbered `pe[e]`. */
  ghost predicate SameShape(k1: Kernel, k2: Kernel, pf: seq<nat>, pe: seq<nat>) {
    && ValidKernel(k1) && ValidKernel(k2) && Renumbers(pf) && Renumbers(pe)
    && |pf| == |k1.faces| == |k2.faces| && |pe| == |k1.edges| == |k2.edges|
    && (forall f {:trigger SameFace(k1, k2, pf, pe, f)} :: 0 <= f < |pf| ==> SameFace(k1, k2, pf, pe, f))
    && (forall e {:trigger SameEdge(k1, k2, pf, pe, e)} :: 0 <= e < |pe| ==> SameEdge(k1, k2, pf, pe, e))
  }

  ghost predicate SameFace(k1: Kernel, k2: Kernel, pf: seq<nat>, pe: seq<nat>, f: int)
    requires ValidKernel(k1) && ValidKernel(k2) && |pf| == |k1.faces| && |pe| == |k1.edges|
  {
    0 <= f < |pf| ==>
      && pf[f] < |k2.faces| && k2.faces[pf[f]] == k1.faces[f]
      && OuterEdges(k2, pf[f]) == Image(pe, OuterEdges(k1, f))
  }

  ghost predicate SameEdge(k1: Kernel, k2: Kernel, pf: seq<nat>, pe: seq<nat>, e: int)
    requires ValidKernel(k1) && ValidKernel(k2) && |pf| == |k1.faces| && |pe| == |k1.edges|
  {
    0 <= e < |pe| ==>
      && pe[e] < |k2.edges| && k2.edges[pe[e]] == k1.edges[e]
      && EdgeFaces(k2, pe[e]) == Image(pf, EdgeFaces(k1, e))
      && |k2.bounds[pe[e]]| == |k1.bounds[e]|
  }

  /** The measured junction does not depend on which of the two faces comes first. */
  ghost predicate SymmetricMeet(m: Measures) {
    forall e, a, b :: m.meet(e, a, b) == m.meet(e, b, a)
  }

  ghost predicate DistinctKeys(keys: seq<seq<int>>) {
    AllDifferent(keys)
  }

  // ---- incidence is renumbered ------------------------------------------------------------

  lemma Bounded(k: Kernel, e: nat)
    requires ValidKernel(k) && e < |k.edges|
    ensures forall f :: f in EdgeFaces(k, e) ==> f < |k.faces|
  {
  }

  /** Face `pf[f]` bounds edge `pe[e]` exactly when `f` bounds `e`. */
  lemma BoundsMoved(k1: Kernel, k2: Kernel, pf: seq<nat>, pe: seq<nat>, e: nat, f: nat)
    requires SameShape(k1, k2, pf, pe) && e < |pe| && f < |pf|
    ensures pe[e] < |k2.bounds| && (pf[f] in k2.bounds[pe[e]] <==> f in k1.bounds[e])
  {
    assert SameEdge(k1, k2, pf, pe, e);
    assert pf[f] in k2.bounds[pe[e]] <==> pf[f] in EdgeFaces(k2, pe[e]);
    if pf[f] in Image(pf, EdgeFaces(k1, e)) {
      var g :| g in EdgeFaces(k1, e) && g < |pf| && pf[g] == pf[f];
    }
  }

  lemma ImageBounded(p: seq<nat>, s: set<nat>)
    requires Renumbers(p)
    ensures forall x :: x in Image(p, s) ==> x < |p|
  {
    forall x | x in Image(p, s) ensures x < |p| {
      var y :| y in s && y < |p| && p[y] == x;
      assert p[y] in p;
    }
  }

  lemma FaceEdgesMoved(k1: Kernel, k2: Kernel, pf: seq<nat>, pe: seq<nat>, f: nat)
    requires SameShape(k1, k2, pf, pe) && f < |pf|
    ensures FaceEdges(k2, pf[f]) == Image(pe, FaceEdges(k1, f))
  {
    ImageBounded(pe, FaceEdges(k1, f));
    forall e2: nat ensures e2 in FaceEdges(k2, pf[f]) <==> e2 in Image(pe, FaceEdges(k1, f)) {
      if e2 < |pe| {
        assert e2 in pe;
        var e :| 0 <= e < |pe| && pe[e] == e2;
        BoundsMoved(k1, k2, pf, pe, e, f);
        if e2 in Image(pe, FaceEdges(k1, f)) {
          var d :| d in FaceEdges(k1, f) && d < |pe| && pe[d] == e2;
        }
      }
    }
  }

  lemma AdjacentMoved(k1: Kernel, k2: Kernel, pf: seq<nat>, pe: seq<nat>, a: nat)
    requires SameShape(k1, k2, pf, pe) && a < |pf|
    ensures FaceAdjacent(k2, pf[a]) == Image(pf, FaceAdjacent(k1, a))
  {
    forall b2 | b2 in FaceAdjacent(k2, pf[a]) ensures b2 in Image(pf, FaceAdjacent(k1, a)) {
      var e2: nat :| e2 < |k2.bounds| && b2 in k2.bounds[e2] && Meet(k2, e2, pf[a], b2);
      assert e2 in pe && b2 in pf;
      var e :| 0 <= e < |pe| && pe[e] == e2;
      var b :| 0 <= b < |pf| && pf[b] == b2;
      BoundsMoved(k1, k2, pf, pe, e, a);
      BoundsMoved(k1, k2, pf, pe, e, b);
      assert Meet(k1, e, a, b);
    }
    forall b2 | b2 in Image(pf, FaceAdjacent(k1, a)) ensures b2 in FaceAdjacent(k2, pf[a]) {
      var b :| b in FaceAdjacent(k1, a) && b < |pf| && pf[b] == b2;
      var e: nat :| e < |k1.bounds| && b in k1.bounds[e] && Meet(k1, e, a, b);
      BoundsMoved(k1, k2, pf, pe, e, a);
      BoundsMoved(k1, k2, pf, pe, e, b);
      assert Meet(k2, pe[e], pf[a], pf[b]);
    }
  }

  lemma AdjacentBounded(k: Kernel, f: nat)
    requires ValidKernel(k)
    ensures forall b :: b in FaceAdjacent(k, f) ==> b < |k.faces|
    ensures forall e :: e in FaceEdges(k, f) ==> e < |k.edges|
  {
  }

  // ---- fingerprints -----------------------------------------------------------------------

  lemma FacePrintsMoved(k1: Kernel, k2: Kernel, m: Measures, pf: seq<nat>, pe: seq<nat>, f: nat)
    requires SameShape(k1, k2, pf, pe) && f < |pf|
    ensures pf[f] < |k2.faces| && FacePrint(k2, m, pf[f]) == FacePrint(k1, m, f)
  {
    assert SameFace(k1, k2, pf, pe, f);
    FaceEdgesMoved(k1, k2, pf, pe, f);
    AdjacentMoved(k1, k2, pf, pe, f);
    AdjacentBounded(k1, f);
    RenumberedSize(pe, FaceEdges(k1, f));
    forall g | g in FaceAdjacent(k1, f) ensures KindOf(k2, At(pf, g)) == KindOf(k1, g) {
      assert SameFace(k1, k2, pf, pe, g);
    }
    RenumberedOver(pf, FaceAdjacent(k1, f), |pf|, (g: nat) => KindOf(k1, g), (g: nat) => KindOf(k2, g));
  }

  lemma JunctionsMoved(k1: Kernel, k2: Kernel, m: Measures, pf: seq<nat>, pe: seq<nat>, e: nat)
    requires SameShape(k1, k2, pf, pe) && SymmetricMeet(m) && e < |pe|
    ensures pe[e] < |k2.edges| && JunctionOf(k2, m, pe[e]) == JunctionOf(k1, m, e)
  {
    assert SameEdge(k1, k2, pf, pe, e);
    Bounded(k1, e);
    var l1, l2 := Listed(EdgeFaces(k1, e), |pf|), Listed(EdgeFaces(k2, pe[e]), |pf|);
    RenumberedList(pf, EdgeFaces(k1, e), |pf|);
    var q := Renumbered(pf, EdgeFaces(k1, e), |pf|);
    assert |q| == |multiset(q)| == |multiset(l2)| == |l2|;
    if |l1| == 2 {
      assert l1[0] in l1 && l1[1] in l1;
      TwoMoved(k1, k2, pf, pe, e, q, l1, l2);
    }
  }

  /** An edge between two faces lies between the same two faces after renumbering, in either order. */
  lemma TwoMoved(k1: Kernel, k2: Kernel, pf: seq<nat>, pe: seq<nat>, e: nat, q: seq<nat>, l1: seq<nat>, l2: seq<nat>)
    requires SameShape(k1, k2, pf, pe) && |l1| == |l2| == |q| == 2 && multiset(q) == multiset(l2)
    requires l1[0] < |pf| && l1[1] < |pf| && q[0] == pf[l1[0]] && q[1] == pf[l1[1]]
    ensures l2[0] < |pf| && l2[1] < |pf|
    ensures || (k2.faces[l2[0]] == k1.faces[l1[0]] && k2.faces[l2[1]] == k1.faces[l1[1]])
            || (k2.faces[l2[0]] == k1.faces[l1[1]] && k2.faces[l2[1]] == k1.faces[l1[0]])
  {
    assert SameFace(k1, k2, pf, pe, l1[0]) && SameFace(k1, k2, pf, pe, l1[1]);
    assert q == [q[0], q[1]] && l2 == [l2[0], l2[1]];
    assert multiset(q) == multiset{q[0], q[1]} && multiset(l2) == multiset{l2[0], l2[1]};
    assert l2[0] in multiset(q);
    assert l2[0] == q[0] || l2[0] == q[1];
    assert multiset{l2[1]} == multiset(l2) - multiset{l2[0]};
  }

  lemma EdgePrintsMoved(k1: Kernel, k2: Kernel, m: Measures, pf: seq<nat>, pe: seq<nat>, e: nat)
    requires SameShape(k1, k2, pf, pe) && SymmetricMeet(m) && e < |pe|
    ensures pe[e] < |k2.edges| && EdgePrint(k2, m, pe[e]) == EdgePrint(k1, m, e)
  {
    assert SameEdge(k1, k2, pf, pe, e);
    JunctionsMoved(k1, k2, m, pf, pe, e);
    Bounded(k1, e);
    forall f | f in EdgeFaces(k1, e) ensures FacePrint(k2, m, At(pf, f)) == FacePrint(k1, m, f) {
      FacePrintsMoved(k1, k2, m, pf, pe, f);
    }
    RenumberedOver(pf, EdgeFaces(k1, e), |pf|, (f: nat) => FacePrint(k1, m, f), (f: nat) => FacePrint(k2, m, f));
    LexRanks(Over((f: nat) => FacePrint(k1, m, f), Listed(EdgeFaces(k1, e), |pf|)));
    SortByForgetsOrder(LexLe, Over((f: nat) => FacePrint(k1, m, f), Listed(EdgeFaces(k1, e), |pf|)),
                       Over((f: nat) => FacePrint(k2, m, f), Listed(EdgeFaces(k2, pe[e]), |pf|)));
  }

  lemma LexRanks(s: seq<seq<int>>)
    ensures Ranks(LexLe) && TellsApart(LexLe, s)
  {
    forall x: seq<int>, y: seq<int> ensures LexLe(x, y) || LexLe(y, x) { LexTotal(x, y); }
    forall x: seq<int>, y: seq<int>, z: seq<int> | LexLe(x, y) && LexLe(y, z) ensures LexLe(x, z) {
      LexTransitive(x, y, z);
    }
    forall x, y | x in s && y in s && LexLe(x, y) && LexLe(y, x) ensures x == y { LexTotal(x, y); }
  }

  // ---- the order --------------------------------------------------------------------------

  /** With distinct keys the order is the same up to the renumbering. */
  lemma OrdersMoved(keys1: seq<seq<int>>, keys2: seq<seq<int>>, p: seq<nat>)
    requires |keys1| == |keys2| == |p| && Renumbers(p) && DistinctKeys(keys1)
    requires forall i :: 0 <= i < |p| ==> KeyAt(keys2, p[i]) == keys1[i]
    ensures CanonicalOrder(keys2) == Over((i: nat) => At(p, i), CanonicalOrder(keys1))
  {
    var o1, o2 := CanonicalOrder(keys1), CanonicalOrder(keys2);
    var moved := Over((i: nat) => At(p, i), o1);
    OrderPermutes(keys1);
    OrderPermutes(keys2);
    forall a, b | 0 <= a < b < |moved| ensures KeyLe(keys2, moved[a], moved[b]) && moved[a] != moved[b] {
      assert o1[a] in o1 && o1[b] in o1;
      assert ByKey(keys1)(o1[a], o1[b]) && o1[a] != o1[b];
      assert keys1[o1[a]] != keys1[o1[b]] by { KeysDiffer(keys1, o1[a], o1[b]); }
    }
    MovedMembers(p, o1, moved);
    assert SortedBy(ByKey(keys2), moved);
    forall x ensures x in moved <==> x in o2 {}
    SameMembers(moved, o2);
    KeysRank(keys2, moved);
    SortedByUnique(ByKey(keys2), moved, o2);
  }

  lemma KeysDiffer(keys: seq<seq<int>>, a: nat, b: nat)
    requires DistinctKeys(keys) && a < |keys| && b < |keys| && a != b
    ensures keys[a] != keys[b]
  {
    assert a < b || b < a;
  }

  lemma MovedMembers(p: seq<nat>, o: seq<nat>, moved: seq<nat>)
    requires Renumbers(p) && Renumbers(o) && |o| == |p| == |moved|
    requires forall i :: 0 <= i < |o| ==> moved[i] == At(p, o[i])
    ensures forall x: nat :: x in moved <==> x < |p|
  {
    forall x: nat ensures x in moved <==> x < |p| {
      if x < |p| {
        assert x in p;
        var y :| 0 <= y < |p| && p[y] == x;
        assert y in o;
        var i :| 0 <= i < |o| && o[i] == y;
        assert moved[i] == x;
      }
      if x in moved {
        var i :| 0 <= i < |moved| && moved[i] == x;
        assert o[i] in o;
        assert p[o[i]] in p;
      }
    }
  }

  lemma PositionMoved(p: seq<nat>, o1: seq<nat>, o2: seq<nat>, x: nat)
    requires Renumbers(p) && Renumbers(o1) && Renumbers(o2) && |o1| == |p|
    requires o2 == Over((i: nat) => At(p, i), o1) && x < |p|
    ensures Position(o2, p[x]) == Position(o1, x)
  {
    assert x in o1;
    var i :| 0 <= i < |o1| && o1[i] == x;
    PositionOf(o1, i);
    assert o2[i] == p[x];
    PositionOf(o2, i);
  }

  lemma FaceOrdersMoved(k1: Kernel, k2: Kernel, m: Measures, pf: seq<nat>, pe: seq<nat>)
    requires SameShape(k1, k2, pf, pe) && DistinctKeys(FaceKeys(k1, m))
    ensures FaceOrder(k2, m) == Over((i: nat) => At(pf, i), FaceOrder(k1, m))
  {
    forall f | 0 <= f < |pf| ensures KeyAt(FaceKeys(k2, m), pf[f]) == FaceKeys(k1, m)[f] {
      assert SameFace(k1, k2, pf, pe, f);
      FacePrintsMoved(k1, k2, m, pf, pe, f);
    }
    OrdersMoved(FaceKeys(k1, m), FaceKeys(k2, m), pf);
  }

  lemma EdgeOrdersMoved(k1: Kernel, k2: Kernel, m: Measures, pf: seq<nat>, pe: seq<nat>)
    requires SameShape(k1, k2, pf, pe) && SymmetricMeet(m) && DistinctKeys(EdgeKeys(k1, m))
    ensures EdgeOrder(k2, m) == Over((i: nat) => At(pe, i), EdgeOrder(k1, m))
  {
    forall e | 0 <= e < |pe| ensures KeyAt(EdgeKeys(k2, m), pe[e]) == EdgeKeys(k1, m)[e] {
      assert SameEdge(k1, k2, pf, pe, e);
      EdgePrintsMoved(k1, k2, m, pf, pe, e);
    }
    OrdersMoved(EdgeKeys(k1, m), EdgeKeys(k2, m), pe);
  }

  // ---- names and records ------------------------------------------------------------------

  lemma NamesMoved(p: seq<nat>, o1: seq<nat>, o2: seq<nat>, s: set<nat>)
    requires Renumbers(p) && Renumbers(o1) && |o1| == |p| && o2 == Over((i: nat) => At(p, i), o1) && Renumbers(o2)
    requires forall x :: x in s ==> x < |p|
    ensures FaceNames(o2, Image(p, s)) == FaceNames(o1, s) && EdgeNames(o2, Image(p, s)) == EdgeNames(o1, s)
  {
    forall x | x in s ensures Position(o2, At(p, x)) == Position(o1, x) { PositionMoved(p, o1, o2, x); }
    var f1, f2 := (x: nat) => FaceName(Position(o1, x)), (x: nat) => FaceName(Position(o2, x));
    var e1, e2 := (x: nat) => EdgeName(Position(o1, x)), (x: nat) => EdgeName(Position(o2, x));
    RenumberedOver(p, s, |p|, f1, f2);
    RenumberedOver(p, s, |p|, e1, e2);
    StringsRank(Over(f1, Listed(s, |p|)));
    StringsRank(Over(e1, Listed(s, |p|)));
    SortByForgetsOrder(StringLe, Over(f1, Listed(s, |p|)), Over(f2, Listed(Image(p, s), |p|)));
    SortByForgetsOrder(StringLe, Over(e1, Listed(s, |p|)), Over(e2, Listed(Image(p, s), |p|)));
  }

  /** Records up to the kernel's own numbering. */
  ghost predicate SameFaceRecord(a: FaceRecord, b: FaceRecord) {
    a.(traversal := 0) == b.(traversal := 0)
  }

  ghost predicate SameEdgeRecord(a: EdgeRecord, b: EdgeRecord) {
    a.(traversal := 0) == b.(traversal := 0)
  }

  lemma FaceRecordMoved(k1: Kernel, k2: Kernel, m: Measures, pf: seq<nat>, pe: seq<nat>, pos: nat)
    requires SameShape(k1, k2, pf, pe) && SymmetricMeet(m)
    requires DistinctKeys(FaceKeys(k1, m)) && DistinctKeys(EdgeKeys(k1, m)) && pos < |pf|
    requires |FaceOrder(k1, m)| == |FaceOrder(k2, m)| == |pf|
    requires FaceOrder(k1, m)[pos] < |pf| && FaceOrder(k2, m)[pos] < |pf|
    ensures SameFaceRecord(FaceRecordAt(k1, m, pos), FaceRecordAt(k2, m, pos))
  {
    var f := FaceOrder(k1, m)[pos];
    OrderPermutes(FaceKeys(k1, m));
    OrderPermutes(FaceKeys(k2, m));
    OrderPermutes(EdgeKeys(k1, m));
    OrderPermutes(EdgeKeys(k2, m));
    FaceOrdersMoved(k1, k2, m, pf, pe);
    EdgeOrdersMoved(k1, k2, m, pf, pe);
    assert FaceOrder(k2, m)[pos] == pf[f];
    assert SameFace(k1, k2, pf, pe, f);
    FaceEdgesMoved(k1, k2, pf, pe, f);
    AdjacentMoved(k1, k2, pf, pe, f);
    AdjacentBounded(k1, f);
    FacePrintsMoved(k1, k2, m, pf, pe, f);
    NamesMoved(pf, FaceOrder(k1, m), FaceOrder(k2, m), FaceAdjacent(k1, f));
    NamesMoved(pe, EdgeOrder(k1, m), EdgeOrder(k2, m), FaceEdges(k1, f));
    NamesMoved(pe, EdgeOrder(k1, m), EdgeOrder(k2, m), OuterEdges(k1, f));
  }

  lemma EdgeRecordMoved(k1: Kernel, k2: Kernel, m: Measures, pf: seq<nat>, pe: seq<nat>, pos: nat)
    requires SameShape(k1, k2, pf, pe) && SymmetricMeet(m)
    requires DistinctKeys(FaceKeys(k1, m)) && DistinctKeys(EdgeKeys(k1, m)) && pos < |pe|
    requires |EdgeOrder(k1, m)| == |EdgeOrder(k2, m)| == |pe|
    requires EdgeOrder(k1, m)[pos] < |pe| && EdgeOrder(k2, m)[pos] < |pe|
    ensures SameEdgeRecord(EdgeRecordAt(k1, m, pos), EdgeRecordAt(k2, m, pos))
  {
    var e := EdgeOrder(k1, m)[pos];
    OrderPermutes(FaceKeys(k1, m));
    OrderPermutes(FaceKeys(k2, m));
    FaceOrdersMoved(k1, k2, m, pf, pe);
    EdgeOrdersMoved(k1, k2, m, pf, pe);
    assert EdgeOrder(k2, m)[pos] == pe[e];
    assert SameEdge(k1, k2, pf, pe, e);
    Bounded(k1, e);
    EdgePrintsMoved(k1, k2, m, pf, pe, e);
    JunctionsMoved(k1, k2, m, pf, pe, e);
    NamesMoved(pf, FaceOrder(k1, m), FaceOrder(k2, m), EdgeFaces(k1, e));
  }

  /** Traversal independence: when sort keys are distinct and convexity is symmetric, renumbering the
      kernel's faces and edges changes nothing in any record except `traversal_index`. */
  lemma TraversalIndependence(k1: Kernel, k2: Kernel, m: Measures, pf: seq<nat>, pe: seq<nat>,
                              faces1: seq<FaceRecord>, edges1: seq<EdgeRecord>, faces2: seq<FaceRecord>,
                              edges2: seq<EdgeRecord>)
    requires SameShape(k1, k2, pf, pe) && SymmetricMeet(m)
    requires DistinctKeys(FaceKeys(k1, m)) && DistinctKeys(EdgeKeys(k1, m))
    requires Records(k1, m, faces1, edges1) && Records(k2, m, faces2, edges2)
    ensures |faces1| == |faces2| && |edges1| == |edges2|
    ensures forall pos :: 0 <= pos < |faces1| ==> SameFaceRecord(faces1[pos], faces2[pos])
    ensures forall pos :: 0 <= pos < |edges1| ==> SameEdgeRecord(edges1[pos], edges2[pos])
  {
    forall pos | 0 <= pos < |faces1| ensures SameFaceRecord(faces1[pos], faces2[pos]) {
      FaceRecordMoved(k1, k2, m, pf, pe, pos);
    }
    forall pos | 0 <= pos < |edges1| ensures SameEdgeRecord(edges1[pos], edges2[pos]) {
      EdgeRecordMoved(k1, k2, m, pf, pe, pos);
    }
  }
}
