/** The bookkeeping of `extract_entities` (cad2ml/topology/entities.py) and the canonical order
    (cad2ml/topology/canonical.py): incidence lists, fingerprints, sort keys, renaming, records.
    What the kernel measures and what the hash returns are inputs. */
module Entities {
  import opened Wrappers
  import opened Ordering
  import opened Sorting
  import opened Relabelling
  import opened Identifiers

  /** What the kernel says of one face: its type, pose-independent measures, and quantised place. */
  datatype RawFace = RawFace(kind: nat, shape: seq<int>, place: seq<int>)

  datatype RawEdge = RawEdge(kind: nat, degenerate: bool, shape: seq<int>, place: seq<int>)

  datatype Convexity = Unknown | Seam | Boundary | NonManifold | Measured(kind: nat)

  datatype Junction = Junction(convexity: Convexity, dihedral: Option<real>)

  /** A shape in the kernel's traversal order. `bounds[e]` lists the faces edge `e` bounds, a seam's
      face twice; `outer[f]` holds the edges of the outer loop, -1 for one that is not found. */
  datatype Kernel = Kernel(faces: seq<RawFace>, edges: seq<RawEdge>, bounds: seq<seq<nat>>, outer: seq<set<int>>)

  /** The hash, and the convexity measured where two faces meet. */
  datatype Measures = Measures(
    faceHash: (nat, seq<int>, nat, multiset<nat>) -> seq<int>,
    edgeHash: (nat, seq<int>, Convexity, seq<seq<int>>) -> seq<int>,
    meet: (RawEdge, RawFace, RawFace) -> Junction)

  datatype FaceRecord = FaceRecord(id: string, traversal: nat, raw: RawFace, adjacent: seq<string>,
                                   boundary: seq<string>, outer: seq<string>, fingerprint: seq<int>)

  datatype EdgeRecord = EdgeRecord(id: string, traversal: nat, raw: RawEdge, adjacent: seq<string>,
                                   junction: Junction, fingerprint: seq<int>)

  ghost predicate ValidKernel(k: Kernel) {
    && |k.bounds| == |k.edges| && |k.outer| == |k.faces|
    && (forall e, f :: 0 <= e < |k.bounds| && f in k.bounds[e] ==> f < |k.faces|)
    && (forall f, e :: 0 <= f < |k.outer| && e in k.outer[f] ==> e < |k.edges|)
  }

  // ---- incidence --------------------------------------------------------------------------

  function EdgeFaces(k: Kernel, e: nat): set<nat> {
    if e < |k.bounds| then set f | f in k.bounds[e] else {}
  }

  function FaceEdges(k: Kernel, f: nat): set<nat> {
    set e: nat | e < |k.bounds| && f in k.bounds[e]
  }

  predicate Meet(k: Kernel, e: nat, a: nat, b: nat) {
    e < |k.bounds| && a in k.bounds[e] && b in k.bounds[e] && a != b
  }

  function FaceAdjacent(k: Kernel, a: nat): set<nat> {
    set e: nat, b: nat | e < |k.bounds| && b in k.bounds[e] && Meet(k, e, a, b) :: b
  }

  /** Distinct faces sharing an edge, counting the first `n` edges only. */
  ghost predicate AdjacentBefore(k: Kernel, n: nat, a: nat, b: nat) {
    exists e: nat :: e < n && Meet(k, e, a, b)
  }

  ghost predicate EdgesKnown(k: Kernel, n: nat, faceEdges: seq<set<nat>>, f: nat) {
    f < |faceEdges| ==> forall e: nat :: e in faceEdges[f] <==> e < n && e in FaceEdges(k, f)
  }

  ghost predicate AdjacencyKnown(k: Kernel, n: nat, faceAdj: seq<set<nat>>, a: nat) {
    a < |faceAdj| ==>
      forall b: nat {:trigger AdjacentBefore(k, n, a, b)} :: b in faceAdj[a] <==> AdjacentBefore(k, n, a, b)
  }

  /** One edge joins the edge sets of all its faces. */
  method AddEdge(fl: seq<nat>, ei: nat, faceEdges: seq<set<nat>>) returns (r: seq<set<nat>>)
    requires forall f :: f in fl ==> f < |faceEdges|
    ensures |r| == |faceEdges|
    ensures forall f :: 0 <= f < |r| ==> r[f] == faceEdges[f] + if f in fl then {ei} else {}
  {
    r := faceEdges;
    var i := 0;
    while i < |fl|
      invariant 0 <= i <= |fl| && |r| == |faceEdges|
      invariant forall f :: 0 <= f < |r| ==> r[f] == faceEdges[f] + if f in fl[..i] then {ei} else {}
    {
      assert fl[..i + 1] == fl[..i] + [fl[i]] && fl[i] in fl;
      r := r[fl[i] := r[fl[i]] + {ei}];
      i := i + 1;
    }
    assert fl[..|fl|] == fl;
  }

  /** Every face of one edge gains the edge's other faces as neighbours. */
  method AddAdjacency(fl: seq<nat>, faceAdj: seq<set<nat>>) returns (r: seq<set<nat>>)
    requires forall f :: f in fl ==> f < |faceAdj|
    ensures |r| == |faceAdj|
    ensures forall f :: 0 <= f < |r| ==> r[f] == faceAdj[f] + if f in fl then Elements(fl) - {f} else {}
  {
    r := faceAdj;
    var i := 0;
    while i < |fl|
      invariant 0 <= i <= |fl| && |r| == |faceAdj|
      invariant forall f :: 0 <= f < |r| ==> r[f] == faceAdj[f] + if f in fl[..i] then Elements(fl) - {f} else {}
    {
      assert fl[..i + 1] == fl[..i] + [fl[i]] && fl[i] in fl;
      var others := AllBut(fl, fl[i]);
      r := r[fl[i] := r[fl[i]] + others];
      i := i + 1;
    }
    assert fl[..|fl|] == fl;
  }

  /** The inner loop over `b`. */
  method AllBut(fl: seq<nat>, a: nat) returns (s: set<nat>)
    ensures s == Elements(fl) - {a}
  {
    s := {};
    var j := 0;
    while j < |fl|
      invariant 0 <= j <= |fl|
      invariant forall b :: b in s <==> b in fl[..j] && b != a
    {
      assert fl[..j + 1] == fl[..j] + [fl[j]];
      if fl[j] != a { s := s + {fl[j]}; }
      j := j + 1;
    }
    assert fl[..|fl|] == fl;
  }

  lemma AdjacencyStep(k: Kernel, n: nat, a: nat, b: nat)
    ensures AdjacentBefore(k, n + 1, a, b) <==> AdjacentBefore(k, n, a, b) || Meet(k, n, a, b)
  {
    if AdjacentBefore(k, n + 1, a, b) {
      var e: nat :| e < n + 1 && Meet(k, e, a, b);
      assert e == n || AdjacentBefore(k, n, a, b);
    }
    if AdjacentBefore(k, n, a, b) {
      var e: nat :| e < n && Meet(k, e, a, b);
      assert e < n + 1;
    }
    if Meet(k, n, a, b) { assert n < n + 1; }
  }

  /** Incidence of edges and faces, filled in edge by edge. */
  method Incidence(k: Kernel) returns (faceEdges: seq<set<nat>>, faceAdj: seq<set<nat>>)
    requires ValidKernel(k)
    ensures |faceEdges| == |faceAdj| == |k.faces|
    ensures forall f :: 0 <= f < |k.faces| ==> faceEdges[f] == FaceEdges(k, f) && faceAdj[f] == FaceAdjacent(k, f)
  {
    faceEdges, faceAdj := seq(|k.faces|, _ => {}), seq(|k.faces|, _ => {});
    var ei := 0;
    while ei < |k.edges|
      invariant 0 <= ei <= |k.edges| && |faceEdges| == |faceAdj| == |k.faces|
      invariant forall f: nat {:trigger EdgesKnown(k, ei, faceEdges, f)} :: EdgesKnown(k, ei, faceEdges, f)
      invariant forall f: nat {:trigger AdjacencyKnown(k, ei, faceAdj, f)} :: AdjacencyKnown(k, ei, faceAdj, f)
    {
      var fl := Listed(EdgeFaces(k, ei), |k.faces|);
      ghost var edges0, adj0, n := faceEdges, faceAdj, ei + 1;
      faceEdges := AddEdge(fl, ei, faceEdges);
      faceAdj := AddAdjacency(fl, faceAdj);
      forall f: nat ensures EdgesKnown(k, n, faceEdges, f) {
        assert EdgesKnown(k, ei, edges0, f);
      }
      forall a: nat ensures AdjacencyKnown(k, n, faceAdj, a) {
        AdjacencyMore(k, ei, adj0, faceAdj, fl, a);
      }
      ei := ei + 1;
    }
    forall f | 0 <= f < |k.faces| ensures faceEdges[f] == FaceEdges(k, f) && faceAdj[f] == FaceAdjacent(k, f) {
      assert EdgesKnown(k, ei, faceEdges, f) && AdjacencyKnown(k, ei, faceAdj, f);
      forall b: nat ensures b in faceAdj[f] <==> b in FaceAdjacent(k, f) {
        assert b in faceAdj[f] <==> AdjacentBefore(k, ei, f, b);
      }
    }
  }

  lemma AdjacencyMore(k: Kernel, n: nat, before: seq<set<nat>>, after: seq<set<nat>>, fl: seq<nat>, a: nat)
    requires ValidKernel(k) && n < |k.edges| && fl == Listed(EdgeFaces(k, n), |k.faces|)
    requires |before| == |after| == |k.faces| && AdjacencyKnown(k, n, before, a)
    requires forall f :: 0 <= f < |after| ==> after[f] == before[f] + if f in fl then Elements(fl) - {f} else {}
    ensures AdjacencyKnown(k, n + 1, after, a)
  {
    if a < |after| {
      forall b: nat ensures b in after[a] <==> AdjacentBefore(k, n + 1, a, b) {
        AdjacencyStep(k, n, a, b);
        assert b in before[a] <==> AdjacentBefore(k, n, a, b);
      }
    }
  }

  // ---- fingerprints and keys --------------------------------------------------------------

  function KindOf(k: Kernel, f: nat): nat {
    if f < |k.faces| then k.faces[f].kind else 0
  }

  /** The histogram of the neighbours' types. */
  function Kinds(k: Kernel, s: set<nat>): multiset<nat> {
    multiset(Over((f: nat) => KindOf(k, f), Listed(s, |k.faces|)))
  }

  function FacePrint(k: Kernel, m: Measures, f: nat): seq<int> {
    if f < |k.faces| then
      m.faceHash(k.faces[f].kind, k.faces[f].shape, |FaceEdges(k, f)|, Kinds(k, FaceAdjacent(k, f)))
    else []
  }

  function JunctionOf(k: Kernel, m: Measures, e: nat): Junction
    requires ValidKernel(k) && e < |k.edges|
  {
    var fl := Listed(EdgeFaces(k, e), |k.faces|);
    if k.edges[e].degenerate then Junction(Unknown, None)
    else if |k.bounds[e]| >= 2 && |fl| == 1 then Junction(Seam, None)
    else if |fl| == 0 then Junction(Unknown, None)
    else if |fl| == 1 then Junction(Boundary, None)
    else if |fl| > 2 then Junction(NonManifold, None)
    else
      assert fl[0] in fl && fl[1] in fl;
      m.meet(k.edges[e], k.faces[fl[0]], k.faces[fl[1]])
  }

  function EdgePrint(k: Kernel, m: Measures, e: nat): seq<int>
    requires ValidKernel(k) && e < |k.edges|
  {
    m.edgeHash(k.edges[e].kind, k.edges[e].shape, JunctionOf(k, m, e).convexity,
               SortBy(LexLe, Over((f: nat) => FacePrint(k, m, f), Listed(EdgeFaces(k, e), |k.faces|))))
  }

  function FaceKeys(k: Kernel, m: Measures): (s: seq<seq<int>>)
    ensures |s| == |k.faces|
  {
    seq(|k.faces|, f requires 0 <= f < |k.faces| => k.faces[f].place + FacePrint(k, m, f))
  }

  function EdgeKeys(k: Kernel, m: Measures): (s: seq<seq<int>>)
    requires ValidKernel(k)
    ensures |s| == |k.edges|
  {
    seq(|k.edges|, e requires 0 <= e < |k.edges| => k.edges[e].place + EdgePrint(k, m, e))
  }

  // ---- the canonical order ----------------------------------------------------------------

  function KeyAt(keys: seq<seq<int>>, i: nat): seq<int> {
    if i < |keys| then keys[i] else []
  }

  predicate KeyLe(keys: seq<seq<int>>, i: nat, j: nat) {
    if KeyAt(keys, i) == KeyAt(keys, j) then i <= j else LexLe(KeyAt(keys, i), KeyAt(keys, j))
  }

  function ByKey(keys: seq<seq<int>>): (nat, nat) -> bool {
    (i: nat, j: nat) => KeyLe(keys, i, j)
  }

  /** `canonical_order`: indices by key, then by index. */
  function CanonicalOrder(keys: seq<seq<int>>): seq<nat> {
    SortBy(ByKey(keys), Upto(|keys|))
  }

  lemma KeysRank(keys: seq<seq<int>>, s: seq<nat>)
    ensures Ranks(ByKey(keys)) && TellsApart(ByKey(keys), s)
  {
    forall i: nat, j: nat ensures KeyLe(keys, i, j) || KeyLe(keys, j, i) { LexTotal(KeyAt(keys, i), KeyAt(keys, j)); }
    forall i: nat, j: nat, l: nat | KeyLe(keys, i, j) && KeyLe(keys, j, l) ensures KeyLe(keys, i, l) {
      KeyTransitive(keys, i, j, l);
    }
    forall i, j | i in s && j in s && ByKey(keys)(i, j) && ByKey(keys)(j, i) ensures i == j {
      LexTotal(KeyAt(keys, i), KeyAt(keys, j));
    }
  }

  lemma KeyTransitive(keys: seq<seq<int>>, i: nat, j: nat, l: nat)
    requires KeyLe(keys, i, j) && KeyLe(keys, j, l)
    ensures KeyLe(keys, i, l)
  {
    var a, b, c := KeyAt(keys, i), KeyAt(keys, j), KeyAt(keys, l);
    if a != b && b != c {
      LexTransitive(a, b, c);
      if a == c { LexTotal(a, b); }
    }
  }

  lemma OrderPermutes(keys: seq<seq<int>>)
    ensures var o := CanonicalOrder(keys);
            && |o| == |keys| && Renumbers(o) && multiset(o) == multiset(Upto(|keys|)) && SortedBy(ByKey(keys), o)
  {
    var o := CanonicalOrder(keys);
    KeysRank(keys, o);
    SortBySorts(ByKey(keys), Upto(|keys|));
    MultisetDifferent(Upto(|keys|), o);
    forall x | x in o ensures x < |o| { assert x in Upto(|keys|); }
    forall x: nat | x < |o| ensures x in o { assert Upto(|keys|)[x] == x; }
  }

  lemma OrderSize(keys: seq<seq<int>>)
    ensures |CanonicalOrder(keys)| == |keys|
  {
    OrderPermutes(keys);
  }

  /** Where `x` stands in `order`. */
  function Position(order: seq<nat>, x: nat): nat {
    if order == [] || order[0] == x then 0 else 1 + Position(order[1..], x)
  }

  lemma {:induction false} PositionOf(order: seq<nat>, i: nat)
    requires AllDifferent(order) && i < |order|
    ensures Position(order, order[i]) == i
  {
    if i > 0 { PositionOf(order[1..], i - 1); }
  }

  /** The inverse of the order, as a dictionary. */
  method Inverse(order: seq<nat>) returns (canon: map<nat, nat>)
    requires AllDifferent(order)
    ensures forall x :: x in canon <==> x in order
    ensures forall x :: x in order ==> canon[x] == Position(order, x)
  {
    canon := map[];
    var pos := 0;
    while pos < |order|
      invariant 0 <= pos <= |order|
      invariant forall x :: x in canon <==> x in order[..pos]
      invariant forall i :: 0 <= i < pos ==> order[i] in canon && canon[order[i]] == i
    {
      assert order[..pos + 1] == order[..pos] + [order[pos]];
      canon := canon[order[pos] := pos];
      pos := pos + 1;
    }
    assert order[..|order|] == order;
    forall x | x in order ensures canon[x] == Position(order, x) {
      var i :| 0 <= i < |order| && order[i] == x;
      PositionOf(order, i);
    }
  }

  // ---- names and records ------------------------------------------------------------------

  function FaceName(rank: nat): string {
    "F" + Pad3(rank)
  }

  function EdgeName(rank: nat): string {
    "E" + Pad3(rank)
  }

  lemma FaceNamesDiffer(a: nat, b: nat)
    ensures FaceName(a) == FaceName(b) <==> a == b
  {
    if FaceName(a) == FaceName(b) { NamesDiffer("F", a, "F", b); }
  }

  function FaceOrder(k: Kernel, m: Measures): seq<nat> {
    CanonicalOrder(FaceKeys(k, m))
  }

  function EdgeOrder(k: Kernel, m: Measures): seq<nat>
    requires ValidKernel(k)
  {
    CanonicalOrder(EdgeKeys(k, m))
  }

  function FaceNames(order: seq<nat>, s: set<nat>): seq<string> {
    SortBy(StringLe, Over((f: nat) => FaceName(Position(order, f)), Listed(s, |order|)))
  }

  function EdgeNames(order: seq<nat>, s: set<nat>): seq<string> {
    SortBy(StringLe, Over((e: nat) => EdgeName(Position(order, e)), Listed(s, |order|)))
  }

  /** The outer loop without the edges that were not found. */
  function OuterEdges(k: Kernel, f: nat): set<nat>
    requires f < |k.outer|
  {
    set e | e in k.outer[f] && e >= 0 :: e as nat
  }

  function FaceRecordAt(k: Kernel, m: Measures, pos: nat): FaceRecord
    requires ValidKernel(k) && pos < |FaceOrder(k, m)| && FaceOrder(k, m)[pos] < |k.faces|
  {
    var f := FaceOrder(k, m)[pos];
    FaceRecord(FaceName(pos), f, k.faces[f],
               FaceNames(FaceOrder(k, m), FaceAdjacent(k, f)),
               EdgeNames(EdgeOrder(k, m), FaceEdges(k, f)),
               EdgeNames(EdgeOrder(k, m), OuterEdges(k, f)),
               FacePrint(k, m, f))
  }

  function EdgeRecordAt(k: Kernel, m: Measures, pos: nat): EdgeRecord
    requires ValidKernel(k) && pos < |EdgeOrder(k, m)| && EdgeOrder(k, m)[pos] < |k.edges|
  {
    var e := EdgeOrder(k, m)[pos];
    EdgeRecord(EdgeName(pos), e, k.edges[e], FaceNames(FaceOrder(k, m), EdgeFaces(k, e)),
               JunctionOf(k, m, e), EdgePrint(k, m, e))
  }

  // ---- the whole extraction ---------------------------------------------------------------

  function Lookup(canon: map<nat, nat>, x: nat): nat {
    if x in canon then canon[x] else 0
  }

  /** The sorted names of some faces, by a dictionary of ranks. */
  function FaceNamesBy(canon: map<nat, nat>, s: set<nat>, n: nat): seq<string> {
    SortBy(StringLe, Over((f: nat) => FaceName(Lookup(canon, f)), Listed(s, n)))
  }

  function EdgeNamesBy(canon: map<nat, nat>, s: set<nat>, n: nat): seq<string> {
    SortBy(StringLe, Over((e: nat) => EdgeName(Lookup(canon, e)), Listed(s, n)))
  }

  ghost predicate Inverts(canon: map<nat, nat>, order: seq<nat>) {
    (forall x :: x in canon <==> x in order) && forall x :: x in order ==> canon[x] == Position(order, x)
  }

  lemma NamesAgree(canon: map<nat, nat>, order: seq<nat>, s: set<nat>)
    requires Inverts(canon, order) && Renumbers(order)
    ensures FaceNamesBy(canon, s, |order|) == FaceNames(order, s)
    ensures EdgeNamesBy(canon, s, |order|) == EdgeNames(order, s)
  {
    var l := Listed(s, |order|);
    forall i | 0 <= i < |l| ensures Lookup(canon, l[i]) == Position(order, l[i]) {
      assert l[i] in l;
      assert l[i] in order;
    }
    assert Over((f: nat) => FaceName(Lookup(canon, f)), l) == Over((f: nat) => FaceName(Position(order, f)), l);
    assert Over((e: nat) => EdgeName(Lookup(canon, e)), l) == Over((e: nat) => EdgeName(Position(order, e)), l);
  }

  /** Face attributes, keys and canonical ranks. */
  method RankFaces(k: Kernel, m: Measures, faceEdges: seq<set<nat>>, faceAdj: seq<set<nat>>)
    returns (fps: seq<seq<int>>, order: seq<nat>, canon: map<nat, nat>)
    requires ValidKernel(k) && |faceEdges| == |faceAdj| == |k.faces|
    requires forall f :: 0 <= f < |k.faces| ==> faceEdges[f] == FaceEdges(k, f) && faceAdj[f] == FaceAdjacent(k, f)
    ensures |fps| == |k.faces| && forall f :: 0 <= f < |fps| ==> fps[f] == FacePrint(k, m, f)
    ensures order == FaceOrder(k, m) && Inverts(canon, order)
  {
    fps := seq(|k.faces|, f requires 0 <= f < |k.faces| && f < |faceEdges| && f < |faceAdj| =>
      m.faceHash(k.faces[f].kind, k.faces[f].shape, |faceEdges[f]|, Kinds(k, faceAdj[f])));
    var keys := seq(|k.faces|, f requires 0 <= f < |k.faces| && f < |fps| => k.faces[f].place + fps[f]);
    assert keys == FaceKeys(k, m);
    order := CanonicalOrder(keys);
    OrderPermutes(keys);
    canon := Inverse(order);
  }

  /** Edge attributes, keys and canonical ranks. */
  method RankEdges(k: Kernel, m: Measures, fps: seq<seq<int>>)
    returns (efps: seq<seq<int>>, order: seq<nat>, canon: map<nat, nat>)
    requires ValidKernel(k) && |fps| == |k.faces| && forall f :: 0 <= f < |fps| ==> fps[f] == FacePrint(k, m, f)
    ensures |efps| == |k.edges| && forall e :: 0 <= e < |efps| ==> efps[e] == EdgePrint(k, m, e)
    ensures order == EdgeOrder(k, m) && Inverts(canon, order)
  {
    efps := [];
    var e := 0;
    while e < |k.edges|
      invariant 0 <= e <= |k.edges| && |efps| == e
      invariant forall i :: 0 <= i < e ==> efps[i] == EdgePrint(k, m, i)
    {
      var fl := Listed(EdgeFaces(k, e), |k.faces|);
      var prints := seq(|fl|, i requires 0 <= i < |fl| && fl[i] in fl => fps[fl[i]]);
      forall i | 0 <= i < |fl| ensures prints[i] == FacePrint(k, m, fl[i]) { assert fl[i] in fl; }
      assert prints == Over((f: nat) => FacePrint(k, m, f), fl);
      var convexity := JunctionOf(k, m, e).convexity;
      efps := efps + [m.edgeHash(k.edges[e].kind, k.edges[e].shape, convexity, SortBy(LexLe, prints))];
      e := e + 1;
    }
    var keys := seq(|k.edges|, i requires 0 <= i < |k.edges| && i < |efps| => k.edges[i].place + efps[i]);
    assert keys == EdgeKeys(k, m);
    order := CanonicalOrder(keys);
    OrderPermutes(keys);
    canon := Inverse(order);
  }

  /** The records the extraction should produce. */
  ghost predicate Records(k: Kernel, m: Measures, faces: seq<FaceRecord>, edges: seq<EdgeRecord>)
    requires ValidKernel(k)
  {
    && |faces| == |k.faces| == |FaceOrder(k, m)| && |edges| == |k.edges| == |EdgeOrder(k, m)|
    && (forall pos :: 0 <= pos < |faces| ==> FaceOrder(k, m)[pos] < |k.faces| && faces[pos] == FaceRecordAt(k, m, pos))
    && (forall pos :: 0 <= pos < |edges| ==> EdgeOrder(k, m)[pos] < |k.edges| && edges[pos] == EdgeRecordAt(k, m, pos))
  }

  predicate FaceMade(k: Kernel, m: Measures, fr: FaceRecord, pos: nat)
    requires ValidKernel(k)
  {
    pos < |FaceOrder(k, m)| && FaceOrder(k, m)[pos] < |k.faces| && fr == FaceRecordAt(k, m, pos)
  }

  predicate EdgeMade(k: Kernel, m: Measures, er: EdgeRecord, pos: nat)
    requires ValidKernel(k)
  {
    pos < |EdgeOrder(k, m)| && EdgeOrder(k, m)[pos] < |k.edges| && er == EdgeRecordAt(k, m, pos)
  }

  function AsFace(k: Kernel, m: Measures): (FaceRecord, nat) -> bool
    requires ValidKernel(k)
  {
    (fr: FaceRecord, pos: nat) => FaceMade(k, m, fr, pos)
  }

  function AsEdge(k: Kernel, m: Measures): (EdgeRecord, nat) -> bool
    requires ValidKernel(k)
  {
    (er: EdgeRecord, pos: nat) => EdgeMade(k, m, er, pos)
  }

  lemma FaceIsMade(k: Kernel, m: Measures, faces: seq<FaceRecord>, pos: nat)
    requires ValidKernel(k) && Throughout(AsFace(k, m), faces) && pos < |faces|
    ensures pos < |FaceOrder(k, m)| && FaceOrder(k, m)[pos] < |k.faces| && faces[pos] == FaceRecordAt(k, m, pos)
  {
    assert AsFace(k, m)(faces[pos], pos);
  }

  lemma EdgeIsMade(k: Kernel, m: Measures, edges: seq<EdgeRecord>, pos: nat)
    requires ValidKernel(k) && Throughout(AsEdge(k, m), edges) && pos < |edges|
    ensures pos < |EdgeOrder(k, m)| && EdgeOrder(k, m)[pos] < |k.edges| && edges[pos] == EdgeRecordAt(k, m, pos)
  {
    assert AsEdge(k, m)(edges[pos], pos);
  }

  lemma RecordsMade(k: Kernel, m: Measures, faces: seq<FaceRecord>, edges: seq<EdgeRecord>)
    requires ValidKernel(k) && |faces| == |k.faces| && |edges| == |k.edges|
    requires Throughout(AsFace(k, m), faces) && Throughout(AsEdge(k, m), edges)
    ensures Records(k, m, faces, edges)
  {
    OrderSize(FaceKeys(k, m));
    OrderSize(EdgeKeys(k, m));
    forall pos: nat | pos < |faces|
      ensures FaceOrder(k, m)[pos] < |k.faces| && faces[pos] == FaceRecordAt(k, m, pos)
    {
      FaceIsMade(k, m, faces, pos);
    }
    forall pos: nat | pos < |edges|
      ensures EdgeOrder(k, m)[pos] < |k.edges| && edges[pos] == EdgeRecordAt(k, m, pos)
    {
      EdgeIsMade(k, m, edges, pos);
    }
  }

  /** `extract_entities`, from the incidence loops to the record loops. */
  method ExtractEntities(k: Kernel, m: Measures) returns (faces: seq<FaceRecord>, edges: seq<EdgeRecord>)
    requires ValidKernel(k)
    ensures Records(k, m, faces, edges)
  {
    var faceEdges, faceAdj := Incidence(k);
    var fps, fOrder, fCanon := RankFaces(k, m, faceEdges, faceAdj);
    var efps, eOrder, eCanon := RankEdges(k, m, fps);
    faces := FaceRecords(k, m, faceEdges, faceAdj, fps, fOrder, fCanon, eCanon);
    edges := EdgeRecords(k, m, efps, eOrder, fCanon);
    RecordsMade(k, m, faces, edges);
  }

  lemma FaceRecordMade(k: Kernel, m: Measures, fCanon: map<nat, nat>, eCanon: map<nat, nat>, pos: nat)
    requires ValidKernel(k) && Inverts(fCanon, FaceOrder(k, m)) && Inverts(eCanon, EdgeOrder(k, m))
    requires pos < |FaceOrder(k, m)|
    ensures
      var f := FaceOrder(k, m)[pos];
      && f < |k.faces|
      && FaceRecordAt(k, m, pos)
         == FaceRecord(FaceName(pos), f, k.faces[f], FaceNamesBy(fCanon, FaceAdjacent(k, f), |k.faces|),
                       EdgeNamesBy(eCanon, FaceEdges(k, f), |k.edges|),
                       EdgeNamesBy(eCanon, OuterEdges(k, f), |k.edges|), FacePrint(k, m, f))
  {
    OrderPermutes(FaceKeys(k, m));
    OrderPermutes(EdgeKeys(k, m));
    var f := FaceOrder(k, m)[pos];
    assert f in FaceOrder(k, m);
    NamesAgree(fCanon, FaceOrder(k, m), FaceAdjacent(k, f));
    NamesAgree(eCanon, EdgeOrder(k, m), FaceEdges(k, f));
    NamesAgree(eCanon, EdgeOrder(k, m), OuterEdges(k, f));
  }

  /** The loop over face records. */
  method FaceRecords(k: Kernel, m: Measures, faceEdges: seq<set<nat>>, faceAdj: seq<set<nat>>, fps: seq<seq<int>>,
                     fOrder: seq<nat>, fCanon: map<nat, nat>, eCanon: map<nat, nat>)
    returns (faces: seq<FaceRecord>)
    requires ValidKernel(k) && |faceEdges| == |faceAdj| == |fps| == |k.faces|
    requires forall f :: 0 <= f < |k.faces| ==> faceEdges[f] == FaceEdges(k, f) && faceAdj[f] == FaceAdjacent(k, f)
    requires forall f :: 0 <= f < |k.faces| ==> fps[f] == FacePrint(k, m, f)
    requires fOrder == FaceOrder(k, m) && Inverts(fCanon, fOrder) && Inverts(eCanon, EdgeOrder(k, m))
    ensures |faces| == |k.faces| && Throughout(AsFace(k, m), faces)
  {
    OrderSize(FaceKeys(k, m));
    ghost var made := AsFace(k, m);
    faces := [];
    var pos := 0;
    while pos < |fOrder|
      invariant 0 <= pos <= |fOrder| && |faces| == pos && Throughout(made, faces)
    {
      FaceRecordMade(k, m, fCanon, eCanon, pos);
      var f := fOrder[pos];
      var fr := FaceRecord(FaceName(pos), f, k.faces[f], FaceNamesBy(fCanon, faceAdj[f], |k.faces|),
                           EdgeNamesBy(eCanon, faceEdges[f], |k.edges|),
                           EdgeNamesBy(eCanon, OuterEdges(k, f), |k.edges|), fps[f]);
      ThroughoutMore(made, faces, fr);
      faces := faces + [fr];
      pos := pos + 1;
    }
  }

  lemma EdgeRecordMade(k: Kernel, m: Measures, fCanon: map<nat, nat>, pos: nat)
    requires ValidKernel(k) && Inverts(fCanon, FaceOrder(k, m)) && pos < |EdgeOrder(k, m)|
    ensures
      var e := EdgeOrder(k, m)[pos];
      && e < |k.edges|
      && EdgeRecordAt(k, m, pos)
         == EdgeRecord(EdgeName(pos), e, k.edges[e], FaceNamesBy(fCanon, EdgeFaces(k, e), |k.faces|),
                       JunctionOf(k, m, e), EdgePrint(k, m, e))
  {
    OrderPermutes(FaceKeys(k, m));
    OrderPermutes(EdgeKeys(k, m));
    assert EdgeOrder(k, m)[pos] in EdgeOrder(k, m);
    NamesAgree(fCanon, FaceOrder(k, m), EdgeFaces(k, EdgeOrder(k, m)[pos]));
  }

  /** The loop over edge records. */
  method EdgeRecords(k: Kernel, m: Measures, efps: seq<seq<int>>, eOrder: seq<nat>, fCanon: map<nat, nat>)
    returns (edges: seq<EdgeRecord>)
    requires ValidKernel(k) && eOrder == EdgeOrder(k, m) && Inverts(fCanon, FaceOrder(k, m))
    requires |efps| == |k.edges| && forall e :: 0 <= e < |efps| ==> efps[e] == EdgePrint(k, m, e)
    ensures |edges| == |k.edges| && Throughout(AsEdge(k, m), edges)
  {
    OrderSize(EdgeKeys(k, m));
    ghost var made := AsEdge(k, m);
    edges := [];
    var pos := 0;
    while pos < |eOrder|
      invariant 0 <= pos <= |eOrder| && |edges| == pos && Throughout(made, edges)
    {
      EdgeRecordMade(k, m, fCanon, pos);
      var e := eOrder[pos];
      var er := EdgeRecord(EdgeName(pos), e, k.edges[e], FaceNamesBy(fCanon, EdgeFaces(k, e), |k.faces|),
                           JunctionOf(k, m, e), efps[e]);
      ThroughoutMore(made, edges, er);
      edges := edges + [er];
      pos := pos + 1;
    }
  }
}
