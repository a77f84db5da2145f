/** `extract_child` (cad2ml/extraction.py) after the kernel work: the representations, written one after
    the other for one face order, the output checks on counts and indices, and the lineage index. The
    tracer accepts what it stores, and mask pixels lead back to the kernel's own triangles. */
module Extraction {
  import opened Wrappers
  import opened Ordering
  import opened Relabelling
  import opened Sorting
  import opened Entities
  import opened FaceGraphs
  import opened FaceRanges
  import opened Lineage
  import Allocation
  import RecognizerFeatures
  import Render
  import RenderViews
  import Visibility

  /** What an extraction starts from. `areas` and `meshes` are indexed as the kernel traverses the
      faces; `features` is what the recognizer returns. */
  datatype Part = Part(kernel: Kernel, measures: Measures, areas: seq<real>,
                       meshes: seq<Option<FaceMesh<Render.Vec>>>, cameras: seq<Render.Camera>,
                       features: seq<Labelled>)

  ghost predicate ValidPart(p: Part) {
    && ValidKernel(p.kernel) && |p.areas| == |p.meshes| == |p.kernel.faces|
    && (forall i :: 0 <= i < |p.meshes| && p.meshes[i].Some? ==> ValidFaceMesh(p.meshes[i].value))
    && forall v :: 0 <= v < |p.cameras| ==> p.cameras[v].height > 0 && p.cameras[v].width > 0
  }

  // ---- features by face -------------------------------------------------------------------

  /** `id` once for each time the face is listed. */
  function Repeats(id: string, faces: seq<string>, name: string): seq<string> {
    if faces == [] then []
    else Repeats(id, faces[..|faces| - 1], name) + if faces[|faces| - 1] == name then [id] else []
  }

  /** Feature by feature, the names a face collects. */
  function Collected(features: seq<Labelled>, name: string): seq<string> {
    if features == [] then []
    else
      var last := features[|features| - 1];
      Collected(features[..|features| - 1], name) + Repeats(last.id, last.faces, name)
  }

  function Entered(m: map<string, seq<string>>, name: string): seq<string> {
    if name in m then m[name] else []
  }

  /** `name` has gained what the first `j` faces of the feature give it. */
  predicate Gained(m: map<string, seq<string>>, r: map<string, seq<string>>, f: Labelled, j: nat, name: string) {
    j <= |f.faces| ==> Entered(r, name) == Entered(m, name) + Repeats(f.id, f.faces[..j], name)
  }

  lemma GainedNext(m: map<string, seq<string>>, r: map<string, seq<string>>, f: Labelled, j: nat, name: string)
    requires j < |f.faces| && Gained(m, r, f, j, name)
    ensures Gained(m, r[f.faces[j] := Entered(r, f.faces[j]) + [f.id]], f, j + 1, name)
  {
    assert f.faces[..j + 1][..j] == f.faces[..j];
  }

  /** One feature's name goes to each of its faces. */
  method AddFeature(m: map<string, seq<string>>, f: Labelled) returns (r: map<string, seq<string>>)
    ensures forall name {:trigger Entered(r, name)} ::
              Entered(r, name) == Entered(m, name) + Repeats(f.id, f.faces, name)
  {
    r := m;
    var j := 0;
    while j < |f.faces|
      invariant 0 <= j <= |f.faces|
      invariant forall name {:trigger Gained(m, r, f, j, name)} :: Gained(m, r, f, j, name)
    {
      ghost var before, n := r, j + 1;
      r := r[f.faces[j] := Entered(r, f.faces[j]) + [f.id]];
      forall name ensures Gained(m, r, f, n, name) {
        assert Gained(m, before, f, j, name);
        GainedNext(m, before, f, j, name);
      }
      j := j + 1;
    }
    forall name ensures Entered(r, name) == Entered(m, name) + Repeats(f.id, f.faces, name) {
      assert Gained(m, r, f, j, name) && f.faces[..j] == f.faces;
    }
  }

  /** The dictionary from faces to the names of their features. */
  method FaceFeatures(features: seq<Labelled>) returns (m: map<string, seq<string>>)
    ensures forall name {:trigger Entered(m, name)} :: Entered(m, name) == Collected(features, name)
  {
    m := map[];
    for k := 0 to |features|
      invariant forall name {:trigger Entered(m, name)} :: Entered(m, name) == Collected(features[..k], name)
    {
      assert features[..k + 1][..k] == features[..k];
      m := AddFeature(m, features[k]);
    }
    assert features[..|features|] == features;
  }

  lemma {:induction false} RepeatsOnce(id: string, faces: seq<string>, name: string)
    requires AllDifferent(faces)
    ensures Repeats(id, faces, name) == if name in faces then [id] else []
  {
    if faces != [] {
      var n := |faces| - 1;
      RepeatsOnce(id, faces[..n], name);
      assert faces == faces[..n] + [faces[n]];
    }
  }

  /** What the index collects is what the tracer lists, when no feature lists a face twice. */
  lemma {:induction false} CollectedIsListed(features: seq<Labelled>, name: string)
    requires forall k :: 0 <= k < |features| ==> AllDifferent(features[k].faces)
    ensures Collected(features, name) == FeaturesOf(features, name)
  {
    if features != [] {
      var n := |features| - 1;
      assert forall k :: 0 <= k < n ==> features[..n][k] == features[k];
      CollectedIsListed(features[..n], name);
      RepeatsOnce(features[n].id, features[n].faces, name);
    }
  }

  // ---- recognized features ----------------------------------------------------------------

  function AssignedNames(features: seq<Labelled>): set<string> {
    set f, name | f in features && name in f.faces :: name
  }

  function CanonicalNames(n: nat): set<string> {
    set i | i in Below(n) :: FaceName(i)
  }

  /** The recognizer's features, with faces by name. */
  function Labels(fs: seq<RecognizerFeatures.Feature>): (r: seq<Labelled>)
    ensures |r| == |fs|
  {
    seq(|fs|, k requires 0 <= k < |fs| => Labelled(fs[k].id, NamesOf(fs[k].faces)))
  }

  function NamesOf(faces: seq<nat>): (r: seq<string>)
    ensures |r| == |faces|
  {
    seq(|faces|, i requires 0 <= i < |faces| => FaceName(faces[i]))
  }

  lemma NameListed(faces: seq<nat>, f: nat)
    ensures FaceName(f) in NamesOf(faces) <==> f in faces
  {
    if FaceName(f) in NamesOf(faces) {
      var i :| 0 <= i < |faces| && NamesOf(faces)[i] == FaceName(f);
      FaceNamesDiffer(faces[i], f);
    }
    if f in faces {
      var i :| 0 <= i < |faces| && faces[i] == f;
      assert NamesOf(faces)[i] == FaceName(f);
    }
  }

  lemma NamesDifferWhenAscending(faces: seq<nat>)
    requires Ascending(faces)
    ensures AllDifferent(NamesOf(faces))
  {
    forall i, k | 0 <= i < k < |faces| ensures NamesOf(faces)[i] != NamesOf(faces)[k] {
      FaceNamesDiffer(faces[i], faces[k]);
    }
  }

  /** What the recognizer returns passes the check on assignment, and no feature lists a face twice. */
  lemma RecognizedAssigns(n: nat, fs: seq<RecognizerFeatures.Feature>)
    requires RecognizerFeatures.Recognized(Below(n), fs)
    ensures AssignedNames(Labels(fs)) == CanonicalNames(n)
    ensures forall k :: 0 <= k < |fs| ==> AllDifferent(Labels(fs)[k].faces)
  {
    forall f: nat | f < n ensures FaceName(f) in AssignedNames(Labels(fs)) {
      assert RecognizerFeatures.Covered(fs, f);
      var k :| RecognizerFeatures.Has(fs, k, f);
      NameListed(fs[k].faces, f);
      assert Labels(fs)[k] in Labels(fs);
    }
    forall name | name in AssignedNames(Labels(fs)) ensures name in CanonicalNames(n) {
      var k :| 0 <= k < |fs| && name in NamesOf(fs[k].faces);
      var i :| 0 <= i < |fs[k].faces| && NamesOf(fs[k].faces)[i] == name;
      assert RecognizerFeatures.Has(fs, k, fs[k].faces[i]);
      assert RecognizerFeatures.Covered(fs, fs[k].faces[i]);
    }
    forall k | 0 <= k < |fs| ensures AllDifferent(Labels(fs)[k].faces) {
      assert fs[k] in fs;
      NamesDifferWhenAscending(fs[k].faces);
    }
  }

  /** Each face of the model is in exactly one recognized feature, and that is what its entry lists. */
  lemma OneFeatureEach(n: nat, fs: seq<RecognizerFeatures.Feature>, f: nat)
    requires RecognizerFeatures.Recognized(Below(n), fs) && f < n
    ensures exists k :: RecognizerFeatures.Has(fs, k, f) && FeaturesOf(Labels(fs), FaceName(f)) == [fs[k].id]
  {
    assert RecognizerFeatures.Covered(fs, f);
    var k :| RecognizerFeatures.Has(fs, k, f);
    forall j | 0 <= j < |fs| && j != k ensures f !in fs[j].faces {
      assert RecognizerFeatures.Shares(fs, j, k, f) ==> j == k;
    }
    ListedOnce(fs, f, k, |fs|);
    assert Labels(fs)[..|fs|] == Labels(fs);
  }

  lemma {:induction false} ListedOnce(fs: seq<RecognizerFeatures.Feature>, f: nat, k: nat, n: nat)
    requires k < |fs| && n <= |fs| && f in fs[k].faces
    requires forall j :: 0 <= j < |fs| && j != k ==> f !in fs[j].faces
    ensures FeaturesOf(Labels(fs)[..n], FaceName(f)) == if k < n then [fs[k].id] else []
    decreases n
  {
    if n > 0 {
      ListedOnce(fs, f, k, n - 1);
      NameListed(fs[n - 1].faces, f);
      assert Labels(fs)[..n][..n - 1] == Labels(fs)[..n - 1];
    }
  }

  // ---- the index --------------------------------------------------------------------------

  function EntryFor(a: Arrays, i: nat): Entry
    requires i < |a.faces| && i < |a.points| && i < |a.mesh.ranges|
  {
    var (ps, pcnt) := a.points[i];
    var (ts, tcnt) := a.mesh.ranges[i];
    Entry(i, a.faces[i].raw.kind, a.faces[i].traversal, (ps, ps + pcnt), (ts, ts + tcnt), Pixels(a.views, i),
          Collected(a.features, a.faces[i].id), a.faces[i].fingerprint)
  }

  ghost predicate Sized(a: Arrays) {
    |a.points| == |a.mesh.ranges| == |a.faces|
  }

  /** The first `n` faces, and nothing else, are in the index, each with what is stored of it. */
  ghost predicate IndexedTo(lineage: map<string, Entry>, a: Arrays, n: nat)
    requires Sized(a) && n <= |a.faces|
  {
    && (forall i :: 0 <= i < n ==> a.faces[i].id in lineage && lineage[a.faces[i].id] == EntryFor(a, i))
    && (forall id :: id in lineage ==> Known(a.faces, id))
  }

  /** The loop that fills `lineage_faces`. */
  method BuildIndex(a: Arrays) returns (lineage: map<string, Entry>)
    requires UniqueNames(a.faces) && Sized(a)
    ensures IndexedTo(lineage, a, |a.faces|)
  {
    var faceFeatures := FaceFeatures(a.features);
    lineage := map[];
    for i := 0 to |a.faces|
      invariant IndexedTo(lineage, a, i)
    {
      assert Names(a.faces, i, a.faces[i].id);
      var fr := a.faces[i];
      var (ps, pcnt) := a.points[i];
      var (ts, tcnt) := a.mesh.ranges[i];
      var pixels := seq(|a.views|, v requires 0 <= v < |a.views| => PixelCount(a.views[v].mask, i + 1));
      assert pixels == Pixels(a.views, i);
      lineage := lineage[fr.id := Entry(i, fr.raw.kind, fr.traversal, (ps, ps + pcnt), (ts, ts + tcnt), pixels,
                                        Entered(faceFeatures, fr.id), fr.fingerprint)];
    }
  }

  // ---- extraction -------------------------------------------------------------------------

  datatype Extraction = Extracted(a: Artifacts) | Failed

  /** What belongs to the kernel's faces, in canonical order. */
  function InOrder<T>(xs: seq<T>, order: seq<nat>): (s: seq<T>)
    requires forall i :: 0 <= i < |order| ==> order[i] < |xs|
    ensures |s| == |order| && forall i :: 0 <= i < |s| ==> s[i] == xs[order[i]]
  {
    seq(|order|, i requires 0 <= i < |order| => xs[order[i]])
  }

  ghost predicate InRange<T>(order: seq<nat>, xs: seq<T>) {
    |order| == |xs| && forall i :: 0 <= i < |order| ==> order[i] < |xs|
  }

  function MeshOf(mesh: MeshData<Render.Vec>): Render.Mesh {
    Render.Mesh(mesh.vertices, mesh.triangles, mesh.triFace)
  }

  /** One image per camera, each what its camera sees of the mesh. */
  ghost predicate Rendered(cameras: seq<Render.Camera>, mesh: MeshData<Render.Vec>, views: seq<RenderViews.View>) {
    && Render.ValidMesh(MeshOf(mesh)) && |views| == |cameras|
    && forall v :: 0 <= v < |cameras| ==> RenderViews.ViewOk(cameras[v], MeshOf(mesh), views[v])
  }

  /** The arrays and records agree with the kernel and with each other. */
  ghost predicate Represents(p: Part, a: Arrays)
    requires ValidPart(p)
  {
    var order := FaceOrder(p.kernel, p.measures);
    && Records(p.kernel, p.measures, a.faces, a.edges) && Built(a.graph, a.faces, a.edges)
    && Ranged(a.pointFaces, a.points) && Sized(a) && InRange(order, p.meshes)
    && Faithful(InOrder(p.meshes, order), |a.faces|, a.mesh) && Rendered(p.cameras, a.mesh, a.views)
    && a.features == p.features
  }

  /** What a completed extraction stores. */
  ghost predicate Extracts(p: Part, a: Artifacts)
    requires ValidPart(p)
  {
    && Represents(p, a.arrays) && IndexedTo(a.lineage, a.arrays, |a.arrays.faces|)
    && (forall r :: r in a.arrays.points ==> r.1 > 0) && (forall r :: r in a.arrays.mesh.ranges ==> r.1 > 0)
  }

  function RecordNames(faces: seq<FaceRecord>): set<string> {
    set f | f in faces :: f.id
  }

  /** The output checks on indices, counts and assignment. */
  predicate OutputsOk(a: Arrays) {
    && (forall f :: f in a.pointFaces ==> f < |a.faces|) && (forall r :: r in a.points ==> r.1 > 0)
    && (forall f :: f in a.mesh.triFace ==> f < |a.faces|) && (forall r :: r in a.mesh.ranges ==> r.1 > 0)
    && (forall v :: v in a.views ==> MaskBelow(v, |a.faces|))
    && AssignedNames(a.features) == RecordNames(a.faces)
  }

  function Lengths(ranges: seq<Range>): (s: seq<int>)
    ensures |s| == |ranges|
  {
    seq(|ranges|, i requires 0 <= i < |ranges| => ranges[i].1)
  }

  /** The points are spread over the faces by area, face for face. */
  ghost predicate Spread(p: Part, a: Arrays, total: int, minimum: int)
    requires ValidPart(p)
  {
    var order := FaceOrder(p.kernel, p.measures);
    InRange(order, p.areas) && Allocation.Allocated(InOrder(p.areas, order), total, minimum, Lengths(a.points))
  }

  function Ints(s: seq<nat>): (r: seq<int>)
    ensures |r| == |s|
  {
    seq(|s|, i requires 0 <= i < |s| => s[i])
  }

  /** Point counts as array lengths; a negative one is an error. */
  method Counts(areas: seq<real>, total: int, minimum: int) returns (alloc: Option<seq<nat>>)
    ensures alloc.Some? ==> |alloc.value| == |areas| && Allocation.Allocated(areas, total, minimum, Ints(alloc.value))
    ensures minimum > 0 && (forall x :: x in areas ==> x >= 0.0) ==>
              alloc.Some? && forall n :: n in alloc.value ==> n > 0
  {
    var counts := Allocation.Allocate(areas, total, minimum);
    assert (forall x :: x in areas ==> x >= 0.0) ==> forall i :: 0 <= i < |areas| ==> areas[i] >= 0.0 by {
      assert forall i :: 0 <= i < |areas| ==> areas[i] in areas;
    }
    if exists i :: 0 <= i < |counts| && counts[i] < 0 { return None; }
    alloc := Some(seq(|counts|, i requires 0 <= i < |counts| && counts[i] >= 0 => counts[i]));
    assert Ints(alloc.value) == counts;
  }

  /** Points, face by face, as many as their areas get. */
  method SpreadPoints(areas: seq<real>, total: int, minimum: int)
    returns (ok: bool, pointFaces: seq<nat>, points: seq<Range>)
    ensures ok ==> Ranged(pointFaces, points) && |points| == |areas|
    ensures ok ==> Allocation.Allocated(areas, total, minimum, Lengths(points))
    ensures minimum > 0 && (forall x :: x in areas ==> x >= 0.0) ==> ok && forall r :: r in points ==> r.1 > 0
  {
    var alloc := Counts(areas, total, minimum);
    ok, pointFaces, points := false, [], [];
    if alloc == None { return; }
    pointFaces, points := PointRanges(alloc.value);
    ok := true;
    assert Lengths(points) == Ints(alloc.value);
    assert forall i :: 0 <= i < |points| ==> alloc.value[i] in alloc.value;
  }

  /** The records' traversal indices are the canonical order, which misses no face. */
  lemma TraversalOrders(p: Part, faces: seq<FaceRecord>, edges: seq<EdgeRecord>, order: seq<nat>)
    requires ValidPart(p) && Records(p.kernel, p.measures, faces, edges)
    requires |order| == |faces| && forall i :: 0 <= i < |faces| ==> order[i] == faces[i].traversal
    ensures order == FaceOrder(p.kernel, p.measures) && Renumbers(order)
    ensures InRange(order, p.meshes) && InRange(order, p.areas)
  {
    OrderPermutes(FaceKeys(p.kernel, p.measures));
  }

  /** Every stored triangle lies in the range of its face. */
  lemma InItsRange(mesh: MeshData<Render.Vec>, t: nat)
    requires Ranged(mesh.triFace, mesh.ranges) && t < |mesh.triFace|
    ensures mesh.triFace[t] < |mesh.ranges| && Inside(mesh.ranges[mesh.triFace[t]], t)
  {
    assert OwnedAt(mesh.triFace, mesh.ranges, mesh.triFace[t], t);
  }

  /** Stored triangle `t` has the corners of a triangle of its face. */
  lemma OwnTriangle(faces: seq<Option<FaceMesh<Render.Vec>>>, mesh: MeshData<Render.Vec>, t: nat)
    requires Faithful(faces, |faces|, mesh) && t < |mesh.triangles|
    ensures
      var f := mesh.triFace[t];
      && f < |faces| && faces[f].Some? && Inside(mesh.ranges[f], t) && mesh.ranges[f].1 == |faces[f].value.tris|
      && ValidFaceMesh(faces[f].value) && t - mesh.ranges[f].0 < |faces[f].value.tris|
      && StoredAt(faces[f].value, mesh.ranges[f], mesh.vertices, mesh.triangles, t - mesh.ranges[f].0)
  {
    InItsRange(mesh, t);
    var f := mesh.triFace[t];
    assert Stored(faces[f].value, mesh.ranges[f], mesh.vertices, mesh.triangles);
  }

  lemma MeshIsValid(faces: seq<Option<FaceMesh<Render.Vec>>>, mesh: MeshData<Render.Vec>)
    requires Faithful(faces, |faces|, mesh)
    ensures Render.ValidMesh(MeshOf(mesh))
  {
    forall t: nat | t < |mesh.triangles|
      ensures mesh.triangles[t].0 < |mesh.vertices| && mesh.triangles[t].1 < |mesh.vertices|
      ensures mesh.triangles[t].2 < |mesh.vertices|
    {
      OwnTriangle(faces, mesh, t);
    }
  }

  // ---- the output checks ------------------------------------------------------------------

  /** A mask holds no value above the number of faces. */
  lemma MasksName(c: Render.Camera, mesh: MeshData<Render.Vec>, view: RenderViews.View, i: nat, j: nat)
    requires Render.ValidMesh(MeshOf(mesh)) && Ranged(mesh.triFace, mesh.ranges)
    requires RenderViews.ViewOk(c, MeshOf(mesh), view) && i < |view.mask| && j < |view.mask[i]|
    ensures view.mask[i][j] <= |mesh.ranges|
  {
    var m, d, f := MeshOf(mesh), view.depth[i][j], view.mask[i][j];
    assert RenderViews.PixelStored(c, m, view, i, j);
    if f > 0 {
      var t: nat :| RenderViews.WonBy(c, m, i, j, d, f, t);
      InItsRange(mesh, t);
    }
  }

  predicate MaskBelow(view: RenderViews.View, n: nat) {
    forall row :: row in view.mask ==> forall f :: f in row ==> f <= n
  }

  lemma MasksBelow(c: Render.Camera, mesh: MeshData<Render.Vec>, view: RenderViews.View)
    requires Render.ValidMesh(MeshOf(mesh)) && Ranged(mesh.triFace, mesh.ranges)
    requires RenderViews.ViewOk(c, MeshOf(mesh), view)
    ensures MaskBelow(view, |mesh.ranges|)
  {
    forall row, f | row in view.mask && f in row ensures f <= |mesh.ranges| {
      var i :| 0 <= i < |view.mask| && view.mask[i] == row;
      var j :| 0 <= j < |row| && row[j] == f;
      MasksName(c, mesh, view, i, j);
    }
  }

  lemma RecordsHaveNames(faces: seq<FaceRecord>)
    requires forall i :: 0 <= i < |faces| ==> faces[i].id == FaceName(i)
    ensures RecordNames(faces) == CanonicalNames(|faces|)
  {
    forall i: nat | i < |faces| ensures FaceName(i) in RecordNames(faces) { assert faces[i] in faces; }
  }

  predicate Meshed(m: Option<FaceMesh<Render.Vec>>) {
    m.Some? && |m.value.tris| > 0
  }

  /** A face has stored triangles exactly when the mesher gave it some. */
  lemma TrianglesStored(own: seq<Option<FaceMesh<Render.Vec>>>, mesh: MeshData<Render.Vec>)
    requires Faithful(own, |own|, mesh)
    ensures (forall r :: r in mesh.ranges ==> r.1 > 0) <==> (forall x :: x in own ==> Meshed(x))
  {
    forall i | 0 <= i < |own| ensures mesh.ranges[i].1 > 0 <==> Meshed(own[i]) {
      assert Stored(own[i].value, mesh.ranges[i], mesh.vertices, mesh.triangles);
    }
    forall i | 0 <= i < |own| ensures mesh.ranges[i] in mesh.ranges && own[i] in own {}
  }

  /** Permuting loses and invents nothing. */
  lemma OrderKeeps<T>(xs: seq<T>, order: seq<nat>, x: T)
    requires Renumbers(order) && InRange(order, xs)
    ensures x in InOrder(xs, order) <==> x in xs
  {
    if x in xs {
      var k :| 0 <= k < |xs| && xs[k] == x;
      assert k in order;
      var i :| 0 <= i < |order| && order[i] == k;
      assert InOrder(xs, order)[i] == x;
    }
  }

  lemma FacesMeshed(meshes: seq<Option<FaceMesh<Render.Vec>>>, order: seq<nat>, mesh: MeshData<Render.Vec>)
    requires Renumbers(order) && InRange(order, meshes) && Faithful(InOrder(meshes, order), |order|, mesh)
    ensures (forall r :: r in mesh.ranges ==> r.1 > 0) <==> (forall x :: x in meshes ==> Meshed(x))
  {
    TrianglesStored(InOrder(meshes, order), mesh);
    forall x ensures x in InOrder(meshes, order) <==> x in meshes { OrderKeeps(meshes, order, x); }
  }

  lemma ViewFacts(p: Part, a: Arrays, v: nat)
    requires ValidPart(p) && Represents(p, a) && v < |a.views|
    ensures v < |p.cameras| && Render.ValidMesh(MeshOf(a.mesh))
    ensures RenderViews.ViewOk(p.cameras[v], MeshOf(a.mesh), a.views[v])
    ensures Ranged(a.mesh.triFace, a.mesh.ranges) && |a.mesh.ranges| == |a.faces|
  {
  }

  /** The checks on indices never fail. */
  lemma IndicesOk(p: Part, a: Arrays)
    requires ValidPart(p) && Represents(p, a)
    ensures (forall f :: f in a.pointFaces ==> f < |a.faces|) && (forall f :: f in a.mesh.triFace ==> f < |a.faces|)
    ensures forall v :: v in a.views ==> MaskBelow(v, |a.faces|)
  {
    forall v | v in a.views ensures MaskBelow(v, |a.faces|) {
      var n :| 0 <= n < |a.views| && a.views[n] == v;
      ViewFacts(p, a, n);
      MasksBelow(p.cameras[n], a.mesh, v);
    }
  }

  /** What is left of the output checks. */
  lemma ChecksDecide(p: Part, a: Arrays)
    requires ValidPart(p) && Represents(p, a)
    ensures OutputsOk(a) <==> && (forall r :: r in a.points ==> r.1 > 0)
                              && (forall x :: x in p.meshes ==> Meshed(x))
                              && AssignedNames(p.features) == CanonicalNames(|p.kernel.faces|)
  {
    IndicesOk(p, a);
    RecordsNamed(p.kernel, p.measures, a.faces, a.edges);
    ChecksLeft(p.meshes, FaceOrder(p.kernel, p.measures), a);
  }

  lemma ChecksLeft(meshes: seq<Option<FaceMesh<Render.Vec>>>, order: seq<nat>, a: Arrays)
    requires (forall f :: f in a.pointFaces ==> f < |a.faces|) && (forall f :: f in a.mesh.triFace ==> f < |a.faces|)
    requires forall v :: v in a.views ==> MaskBelow(v, |a.faces|)
    requires Renumbers(order) && InRange(order, meshes) && Faithful(InOrder(meshes, order), |order|, a.mesh)
    requires forall i :: 0 <= i < |a.faces| ==> a.faces[i].id == FaceName(i)
    ensures OutputsOk(a) <==> && (forall r :: r in a.points ==> r.1 > 0)
                              && (forall x :: x in meshes ==> Meshed(x))
                              && AssignedNames(a.features) == CanonicalNames(|a.faces|)
  {
    RecordsHaveNames(a.faces);
    FacesMeshed(meshes, order, a.mesh);
  }

  // ---- the whole extraction ---------------------------------------------------------------

  /** Triangles and points, face by face. */
  method Emitted(meshes: seq<Option<FaceMesh<Render.Vec>>>, areas: seq<real>, total: int, minimum: int,
                 minTriangles: nat)
    returns (ok: bool, mesh: MeshData<Render.Vec>, pointFaces: seq<nat>, points: seq<Range>)
    requires |areas| == |meshes|
    requires forall i :: 0 <= i < |meshes| && meshes[i].Some? ==> ValidFaceMesh(meshes[i].value)
    ensures ok ==> Faithful(meshes, |meshes|, mesh) && Ranged(pointFaces, points) && |points| == |meshes|
    ensures ok ==> Allocation.Allocated(areas, total, minimum, Lengths(points))
    ensures minimum > 0 && (forall x :: x in areas ==> x >= 0.0) ==>
              && (ok <==> meshes != [] && forall x :: x in meshes ==> Given(x, minTriangles))
              && (ok ==> forall r :: r in points ==> r.1 > 0)
  {
    ok, mesh, pointFaces, points := false, MeshData([], [], [], []), [], [];
    var tess := Tessellate(meshes, minTriangles);
    if tess.TessellationFailed? || |meshes| == 0 { return; }
    ok, pointFaces, points := SpreadPoints(areas, total, minimum);
    mesh := tess.mesh;
  }

  /** Tessellation, point allocation, graph and views, all for the order of the records. */
  method Represent(p: Part, total: int, minimum: int, minTriangles: nat) returns (a: Option<Arrays>)
    requires ValidPart(p)
    ensures a.Some? ==> Represents(p, a.value) && Spread(p, a.value, total, minimum)
    ensures minimum > 0 && (forall x :: x in p.areas ==> x >= 0.0) ==>
              && (a.Some? <==> p.kernel.faces != [] && forall x :: x in p.meshes ==> Given(x, minTriangles))
              && (a.Some? ==> forall r :: r in a.value.points ==> r.1 > 0)
  {
    var faces, edges := ExtractEntities(p.kernel, p.measures);
    RecordsNamed(p.kernel, p.measures, faces, edges);
    EdgeNamesKnown(p.kernel, p.measures, faces, edges);
    var order := seq(|faces|, i requires 0 <= i < |faces| => faces[i].traversal);
    TraversalOrders(p, faces, edges, order);
    forall x ensures x in InOrder(p.meshes, order) <==> x in p.meshes { OrderKeeps(p.meshes, order, x); }
    forall x ensures x in InOrder(p.areas, order) <==> x in p.areas { OrderKeeps(p.areas, order, x); }
    var ok, mesh, pointFaces, points :=
      Emitted(InOrder(p.meshes, order), InOrder(p.areas, order), total, minimum, minTriangles);
    if !ok { return None; }
    var graph, checks := BuildAndCheck(faces, edges);
    if checks != GraphChecks(true, true, true, true, true) { return None; }
    MeshIsValid(InOrder(p.meshes, order), mesh);
    var views := RenderViews.RenderViews(p.cameras, MeshOf(mesh));
    a := Some(Arrays(faces, edges, graph, pointFaces, points, mesh, views, p.features));
    Represented(p, a.value, order);
  }

  lemma Represented(p: Part, a: Arrays, order: seq<nat>)
    requires ValidPart(p) && order == FaceOrder(p.kernel, p.measures) && InRange(order, p.meshes)
    requires Records(p.kernel, p.measures, a.faces, a.edges) && Built(a.graph, a.faces, a.edges)
    requires Faithful(InOrder(p.meshes, order), |order|, a.mesh) && Rendered(p.cameras, a.mesh, a.views)
    requires Ranged(a.pointFaces, a.points) && |a.points| == |order| && a.features == p.features
    ensures Represents(p, a)
  {
  }

  /** From the entities to the index. With areas that are not negative and a positive minimum, it
      completes exactly when some face exists, every face has triangles, and every face has a feature. */
  method Extract(p: Part, total: int, minimum: int, minTriangles: nat) returns (r: Extraction)
    requires ValidPart(p)
    ensures r.Extracted? ==> Extracts(p, r.a) && Spread(p, r.a.arrays, total, minimum)
    ensures minimum > 0 && (forall x :: x in p.areas ==> x >= 0.0) ==>
              (r.Extracted? <==> && p.kernel.faces != []
                                 && (forall x :: x in p.meshes ==> Given(x, minTriangles) && Meshed(x))
                                 && AssignedNames(p.features) == CanonicalNames(|p.kernel.faces|))
  {
    var a := Represent(p, total, minimum, minTriangles);
    if a == None { return Failed; }
    ChecksDecide(p, a.value);
    if !OutputsOk(a.value) { return Failed; }
    RecordsNamed(p.kernel, p.measures, a.value.faces, a.value.edges);
    var index := BuildIndex(a.value);
    r := Extracted(Artifacts(index, a.value));
  }

  // ---- the tracer accepts -----------------------------------------------------------------

  lemma {:induction false} FindsFace(faces: seq<FaceRecord>, i: nat)
    requires UniqueNames(faces) && i < |faces|
    ensures FindFace(faces, faces[i].id) == Some(faces[i])
  {
    if i > 0 {
      forall a, b | 0 <= a < b < |faces[1..]| ensures faces[1..][a].id != faces[1..][b].id {
        assert faces[1..][a] == faces[a + 1] && faces[1..][b] == faces[b + 1];
      }
      FindsFace(faces[1..], i - 1);
    }
  }

  lemma SliceOwned(owner: seq<nat>, ranges: seq<Range>, i: nat)
    requires Ranged(owner, ranges) && i < |ranges|
    ensures SliceIs(owner, ranges[i].0, ranges[i].0 + ranges[i].1, i)
  {
    forall j: nat | ranges[i].0 <= j < ranges[i].0 + ranges[i].1 && j < |owner| ensures owner[j] == i {
      assert OwnedAt(owner, ranges, i, j);
    }
  }

  /** The five checks on arrays. */
  lemma ArraysAccepted(a: Arrays, i: nat, face: FaceRecord)
    requires Sized(a) && Ranged(a.pointFaces, a.points) && Ranged(a.mesh.triFace, a.mesh.ranges)
    requires i < |a.faces| && a.points[i].1 > 0 && a.mesh.ranges[i].1 > 0
    requires i < |a.graph.nodes| && a.graph.nodes[i] == a.faces[i].id
    ensures CheckEntry(a, a.faces[i].id, EntryFor(a, i), face).(neighboursMatch := true) == AllVerified
  {
    SliceOwned(a.pointFaces, a.points, i);
    SliceOwned(a.mesh.triFace, a.mesh.ranges, i);
    OwnedIsLength(a.pointFaces, a.points, i);
  }

  /** Nothing the extractor stores is rejected by the tracer: every face is found, all six checks hold,
      and the features listed are those of the index; a name that is not a face's is unknown. */
  lemma TracerAccepts(p: Part, a: Artifacts, id: string)
    requires ValidPart(p) && Extracts(p, a)
    requires forall k :: 0 <= k < |p.features| ==> AllDifferent(p.features[k].faces)
    ensures !Known(a.arrays.faces, id) ==> TraceFace(a, id) == None
    ensures Known(a.arrays.faces, id) ==>
              id in a.lineage && TraceFace(a, id) == Some(Trace(AllVerified, a.lineage[id].features))
  {
    var s := a.arrays;
    if Known(s.faces, id) {
      var i :| Names(s.faces, i, id);
      RecordsNamed(p.kernel, p.measures, s.faces, s.edges);
      FindsFace(s.faces, i);
      assert s.points[i] in s.points && s.mesh.ranges[i] in s.mesh.ranges;
      ArraysAccepted(s, i, s.faces[i]);
      NeighboursMatch(p.kernel, p.measures, s.faces, s.edges, s.graph, i);
      CollectedIsListed(s.features, id);
    }
  }

  // ---- from a mask pixel to the kernel ----------------------------------------------------

  /** `x` lies on triangle `j` of the kernel's own mesh of a face. */
  ghost predicate OnTriangle(own: FaceMesh<Render.Vec>, j: nat, x: Render.Vec) {
    && ValidFaceMesh(own) && j < |own.tris|
    && var (p, q, r) := Corners(own.nodes, own.tris[j]);
       exists b0, b1, b2 :: Render.Convex(b0, b1, b2) && x == Render.Mix(b0, b1, b2, p, q, r)
  }

  /** Triangle `t` is in the entry's range and `x` lies on the triangle the kernel made at its place. */
  ghost predicate ListedWith(e: Entry, own: FaceMesh<Render.Vec>, t: nat, x: Render.Vec) {
    e.triangles.0 <= t < e.triangles.1 && OnTriangle(own, t - e.triangles.0, x)
  }

  /** `x` lies on a triangle the index lists under the face's name, and that triangle is one the kernel
      made for the face the entry's traversal index points at. */
  ghost predicate LeadsTo(meshes: seq<Option<FaceMesh<Render.Vec>>>, lineage: map<string, Entry>, face: nat,
                          x: Render.Vec) {
    FaceName(face) in lineage &&
    var e := lineage[FaceName(face)];
    && e.node == face && e.traversal < |meshes| && meshes[e.traversal].Some?
    && |meshes[e.traversal].value.tris| == e.triangles.1 - e.triangles.0
    && exists t :: ListedWith(e, meshes[e.traversal].value, t, x)
  }

  /** The point with weights `b0`, `b1` and `b2` in stored triangle `t`. */
  ghost predicate PointOf(mesh: MeshData<Render.Vec>, t: nat, b0: real, b1: real, b2: real, x: Render.Vec) {
    && Render.ValidMesh(MeshOf(mesh)) && t < |mesh.triangles| && Render.Convex(b0, b1, b2)
    && var (q, r, s) := mesh.triangles[t];
       x == Render.Mix(b0, b1, b2, mesh.vertices[q], mesh.vertices[r], mesh.vertices[s])
  }

  /** `x` lies on the kernel's own triangle of face `k` that is stored as triangle `t` of range `r`. */
  ghost predicate KernelHas(meshes: seq<Option<FaceMesh<Render.Vec>>>, k: nat, r: Range, t: nat, x: Render.Vec) {
    && k < |meshes| && meshes[k].Some? && Inside(r, t) && r.1 == |meshes[k].value.tris|
    && OnTriangle(meshes[k].value, t - r.0, x)
  }

  /** A point on a stored triangle lies on one the kernel made for the face. */
  lemma OnOwn(meshes: seq<Option<FaceMesh<Render.Vec>>>, order: seq<nat>, mesh: MeshData<Render.Vec>, t: nat,
              b0: real, b1: real, b2: real, x: Render.Vec)
    requires InRange(order, meshes) && Faithful(InOrder(meshes, order), |order|, mesh)
    requires PointOf(mesh, t, b0, b1, b2, x)
    ensures mesh.triFace[t] < |order| && KernelHas(meshes, order[mesh.triFace[t]], mesh.ranges[mesh.triFace[t]], t, x)
  {
    OwnTriangle(InOrder(meshes, order), mesh, t);
    var own, j := meshes[order[mesh.triFace[t]]].value, t - mesh.ranges[mesh.triFace[t]].0;
    var (p, q, r) := Corners(own.nodes, own.tris[j]);
    if own.reversed {
      MixSwaps(b0, b1, b2, p, r, q);
      assert Render.Convex(b0, b2, b1) && x == Render.Mix(b0, b2, b1, p, q, r);
    }
  }

  lemma MixSwaps(b0: real, b1: real, b2: real, p: Render.Vec, q: Render.Vec, r: Render.Vec)
    ensures Render.Mix(b0, b1, b2, p, q, r) == Render.Mix(b0, b2, b1, p, r, q)
  {
  }

  function Normal(p: Render.Vec, q: Render.Vec, r: Render.Vec): Render.Vec {
    Render.Cross(Render.Minus(q, p), Render.Minus(r, p))
  }

  /** A stored triangle faces where the kernel's does, and the other way if the face is reversed. */
  lemma StoredNormal(m: FaceMesh<Render.Vec>, r: Range, vertices: seq<Render.Vec>, triangles: seq<Triangle>, j: nat)
    requires Stored(m, r, vertices, triangles) && j < |m.tris|
    ensures StoredAt(m, r, vertices, triangles, j)
    ensures
      var (p, q, s) := Corners(m.nodes, m.tris[j]);
      var (a, b, c) := Corners(vertices, triangles[r.0 + j]);
      Normal(a, b, c) == Render.Scaled(if m.reversed then -1.0 else 1.0, Normal(p, q, s))
  {
    assert StoredAt(m, r, vertices, triangles, j);
    var (p, q, s) := Corners(m.nodes, m.tris[j]);
    Visibility.CrossTurns(Render.Minus(q, p), Render.Minus(s, p));
    Visibility.CrossTurns(Render.Minus(s, p), Render.Minus(q, p));
  }

  /** What the index says of a face whose own mesh has the point. */
  lemma EntryLeads(meshes: seq<Option<FaceMesh<Render.Vec>>>, lineage: map<string, Entry>, a: Arrays, f: nat, t: nat,
                   x: Render.Vec)
    requires Sized(a) && IndexedTo(lineage, a, |a.faces|) && f < |a.faces| && a.faces[f].id == FaceName(f)
    requires KernelHas(meshes, a.faces[f].traversal, a.mesh.ranges[f], t, x)
    ensures LeadsTo(meshes, lineage, f, x)
  {
    assert lineage[FaceName(f)] == EntryFor(a, f);
    assert ListedWith(EntryFor(a, f), meshes[a.faces[f].traversal].value, t, x);
  }

  /** Pixel (i, j) of the view is foreground in the mask. */
  predicate InMask(w: RenderViews.View, i: nat, j: nat) {
    i < |w.mask| && j < |w.mask[i]| && w.mask[i][j] > 0
  }

  /** The point of space the pixel's depth stands for. */
  function PointAt(c: Render.Camera, w: RenderViews.View, i: nat, j: nat): Render.Vec
    requires c.fx != 0.0 && c.fy != 0.0
  {
    Render.Unproject(c, if i < |w.depth| && j < |w.depth[i]| then w.depth[i][j] else 0.0, i, j)
  }

  /** A mask pixel names the face of a stored triangle that has the point. */
  lemma PixelOnTriangle(c: Render.Camera, mesh: MeshData<Render.Vec>, w: RenderViews.View, i: nat, j: nat)
    returns (t: nat, b0: real, b1: real, b2: real)
    requires Render.ValidMesh(MeshOf(mesh)) && RenderViews.ViewOk(c, MeshOf(mesh), w)
    requires Ranged(mesh.triFace, mesh.ranges) && |mesh.ranges| < RenderViews.MASK_VALUES
    requires InMask(w, i, j) && Render.Orthonormal(c.right, c.down, c.forward) && c.fx != 0.0 && c.fy != 0.0
    ensures PointOf(mesh, t, b0, b1, b2, PointAt(c, w, i, j))
    ensures w.mask[i][j] == mesh.triFace[t] + 1 && mesh.triFace[t] < |mesh.ranges|
  {
    assert RenderViews.PixelStored(c, MeshOf(mesh), w, i, j);
    t, b0, b1, b2 := RenderViews.PixelLands(c, MeshOf(mesh), i, j, w.depth[i][j], w.mask[i][j]);
    InItsRange(mesh, t);
  }

  lemma FaceFacts(p: Part, a: Arrays, f: nat)
    requires ValidPart(p) && Represents(p, a) && f < |a.faces|
    ensures
      var order := FaceOrder(p.kernel, p.measures);
      f < |order| && a.faces[f].id == FaceName(f) && a.faces[f].traversal == order[f]
  {
  }

  lemma TriangleLeads(p: Part, a: Artifacts, t: nat, b0: real, b1: real, b2: real, x: Render.Vec)
    requires ValidPart(p) && Extracts(p, a) && PointOf(a.arrays.mesh, t, b0, b1, b2, x)
    ensures LeadsTo(p.meshes, a.lineage, a.arrays.mesh.triFace[t], x)
  {
    var mesh := a.arrays.mesh;
    OnOwn(p.meshes, FaceOrder(p.kernel, p.measures), mesh, t, b0, b1, b2, x);
    FaceFacts(p, a.arrays, mesh.triFace[t]);
    EntryLeads(p.meshes, a.lineage, a.arrays, mesh.triFace[t], t, x);
  }

  /** Up to 65535 faces, a mask pixel with value k + 1 back-projects onto a triangle in the range the
      index records under the name of face k, and that triangle is the kernel's own for this face. */
  lemma PixelsLeadToKernel(p: Part, a: Artifacts, v: nat, i: nat, j: nat)
    requires ValidPart(p) && Extracts(p, a) && |a.arrays.faces| < RenderViews.MASK_VALUES
    requires v < |p.cameras| && v < |a.arrays.views| && InMask(a.arrays.views[v], i, j)
    requires var c := p.cameras[v]; Render.Orthonormal(c.right, c.down, c.forward) && c.fx != 0.0 && c.fy != 0.0
    ensures
      var w := a.arrays.views[v];
      LeadsTo(p.meshes, a.lineage, w.mask[i][j] - 1, PointAt(p.cameras[v], w, i, j))
  {
    ViewFacts(p, a.arrays, v);
    var t, b0, b1, b2 := PixelOnTriangle(p.cameras[v], a.arrays.mesh, a.arrays.views[v], i, j);
    TriangleLeads(p, a, t, b0, b1, b2, PointAt(p.cameras[v], a.arrays.views[v], i, j));
  }

  lemma {:induction false} NoneOwned(row: seq<nat>, value: nat)
    requires value !in row
    ensures Owned(row, value) == 0
  {
    if row != [] { NoneOwned(row[..|row| - 1], value); }
  }

  lemma {:induction false} NoneCounted(rows: seq<seq<nat>>, value: nat)
    requires forall row :: row in rows ==> value !in row
    ensures PixelCount(rows, value) == 0
  {
    if rows != [] {
      assert rows[|rows| - 1] in rows;
      NoneCounted(rows[..|rows| - 1], value);
      NoneOwned(rows[|rows| - 1], value);
    }
  }

  lemma MaskFits(c: Render.Camera, mesh: MeshData<Render.Vec>, w: RenderViews.View, i: nat, j: nat)
    requires Render.ValidMesh(MeshOf(mesh)) && RenderViews.ViewOk(c, MeshOf(mesh), w)
    requires i < |w.mask| && j < |w.mask[i]|
    ensures w.mask[i][j] < RenderViews.MASK_VALUES
  {
    assert RenderViews.PixelStored(c, MeshOf(mesh), w, i, j);
  }

  lemma NeverMasked(c: Render.Camera, mesh: MeshData<Render.Vec>, w: RenderViews.View, value: nat)
    requires Render.ValidMesh(MeshOf(mesh)) && RenderViews.ViewOk(c, MeshOf(mesh), w)
    requires value >= RenderViews.MASK_VALUES
    ensures PixelCount(w.mask, value) == 0
  {
    forall row | row in w.mask ensures value !in row {
      var i :| 0 <= i < |w.mask| && w.mask[i] == row;
      forall j | 0 <= j < |row| ensures row[j] != value { MaskFits(c, mesh, w, i, j); }
    }
    NoneCounted(w.mask, value);
  }

  predicate CountsNothing(lineage: map<string, Entry>, name: string, v: nat) {
    name in lineage && v < |lineage[name].pixels| && lineage[name].pixels[v] == 0
  }

  lemma UnmaskedEntry(c: Render.Camera, lineage: map<string, Entry>, a: Arrays, face: nat, v: nat)
    requires Sized(a) && IndexedTo(lineage, a, |a.faces|) && v < |a.views|
    requires Render.ValidMesh(MeshOf(a.mesh)) && RenderViews.ViewOk(c, MeshOf(a.mesh), a.views[v])
    requires RenderViews.MASK_VALUES - 1 <= face < |a.faces|
    ensures CountsNothing(lineage, a.faces[face].id, v)
  {
    NeverMasked(c, a.mesh, a.views[v], face + 1);
    assert lineage[a.faces[face].id] == EntryFor(a, face);
  }

  /** The bound is needed: from rank 65535 on, the index counts no pixel of a face in any view, whether
      or not the face is seen. */
  lemma UnmaskedFace(p: Part, a: Artifacts, face: nat, v: nat)
    requires ValidPart(p) && Extracts(p, a) && RenderViews.MASK_VALUES - 1 <= face < |a.arrays.faces|
    requires v < |a.arrays.views|
    ensures CountsNothing(a.lineage, a.arrays.faces[face].id, v)
  {
    ViewFacts(p, a.arrays, v);
    UnmaskedEntry(p.cameras[v], a.lineage, a.arrays, face, v);
  }
}
