/** Face-by-face emission of points and triangles into shared arrays: contiguous ranges, and the
    correspondence of stored triangles with each face's own triangulation
    (`sample_point_cloud` of cad2ml/representations/pointcloud.py, `tessellate` of
    cad2ml/representations/mesh.py). */
module FaceRanges {
  import opened Wrappers

  /** Start and length. */
  type Range = (nat, nat)

  predicate Inside(r: Range, j: int) {
    r.0 <= j < r.0 + r.1
  }

  /** Position `j` belongs to face `i` exactly when it lies in the face's range. */
  predicate OwnedAt(owner: seq<nat>, ranges: seq<Range>, i: nat, j: nat) {
    i < |ranges| && j < |owner| ==> (owner[j] == i <==> Inside(ranges[i], j))
  }

  /** The ranges lie end to end, cover the array, and say which face owns each position. */
  ghost predicate Ranged(owner: seq<nat>, ranges: seq<Range>) {
    && (forall i: nat, j: nat {:trigger OwnedAt(owner, ranges, i, j)} :: OwnedAt(owner, ranges, i, j))
    && (forall j :: 0 <= j < |owner| ==> owner[j] < |ranges|)
    && (forall i :: 0 <= i < |ranges| ==> ranges[i].0 + ranges[i].1 <= |owner|)
    && (forall i :: 0 < i < |ranges| ==> ranges[i].0 == ranges[i - 1].0 + ranges[i - 1].1)
    && (ranges == [] ==> owner == [])
    && (ranges != [] ==> ranges[0].0 == 0 && |owner| == ranges[|ranges| - 1].0 + ranges[|ranges| - 1].1)
  }

  function Repeat(x: nat, k: nat): (s: seq<nat>)
    ensures |s| == k && forall i :: 0 <= i < k ==> s[i] == x
  {
    seq(k, _ => x)
  }

  lemma RangedMore(owner: seq<nat>, ranges: seq<Range>, k: nat)
    requires Ranged(owner, ranges)
    ensures Ranged(owner + Repeat(|ranges|, k), ranges + [(|owner|, k)])
  {
    var owner', ranges' := owner + Repeat(|ranges|, k), ranges + [(|owner|, k)];
    forall i: nat, j: nat ensures OwnedAt(owner', ranges', i, j) {
      assert OwnedAt(owner, ranges, i, j);
    }
  }

  /** How many positions face `i` owns. */
  function Owned(owner: seq<nat>, i: nat): nat {
    if owner == [] then 0 else Owned(owner[..|owner| - 1], i) + if owner[|owner| - 1] == i then 1 else 0
  }

  lemma {:induction false} OwnedSlice(owner: seq<nat>, i: nat, r: Range, n: nat)
    requires n <= |owner| && forall j :: 0 <= j < |owner| ==> (owner[j] == i <==> Inside(r, j))
    ensures Owned(owner[..n], i) == if n <= r.0 then 0 else if n <= r.0 + r.1 then n - r.0 else r.1
    decreases n
  {
    if n > 0 {
      OwnedSlice(owner, i, r, n - 1);
      assert owner[..n][..n - 1] == owner[..n - 1];
      assert owner[..n][n - 1] == owner[n - 1];
    }
  }

  /** The number of positions that carry a face's index is the length of its range. */
  lemma OwnedIsLength(owner: seq<nat>, ranges: seq<Range>, i: nat)
    requires Ranged(owner, ranges) && i < |ranges|
    ensures Owned(owner, i) == ranges[i].1
  {
    forall j: nat | j < |owner| ensures owner[j] == i <==> Inside(ranges[i], j) {
      assert OwnedAt(owner, ranges, i, j);
    }
    OwnedSlice(owner, i, ranges[i], |owner|);
    assert owner[..|owner|] == owner;
  }

  /** The running offset of `sample_point_cloud`. */
  method PointRanges(alloc: seq<nat>) returns (faceIndex: seq<nat>, ranges: seq<Range>)
    ensures Ranged(faceIndex, ranges) && |ranges| == |alloc|
    ensures forall i :: 0 <= i < |alloc| ==> ranges[i].1 == alloc[i]
  {
    faceIndex, ranges := [], [];
    var offset := 0;
    var fi := 0;
    while fi < |alloc|
      invariant 0 <= fi <= |alloc| && |ranges| == fi && offset == |faceIndex|
      invariant Ranged(faceIndex, ranges)
      invariant forall i :: 0 <= i < fi ==> ranges[i].1 == alloc[i]
    {
      RangedMore(faceIndex, ranges, alloc[fi]);
      faceIndex := faceIndex + Repeat(fi, alloc[fi]);
      ranges := ranges + [(offset, alloc[fi])];
      offset := offset + alloc[fi];
      fi := fi + 1;
    }
  }

  // ---- tessellation -----------------------------------------------------------------------

  type Triangle = (nat, nat, nat)

  /** The kernel's triangulation of one face. */
  datatype FaceMesh<V> = FaceMesh(nodes: seq<V>, tris: seq<Triangle>, reversed: bool)

  predicate ValidFaceMesh<V>(m: FaceMesh<V>) {
    forall t :: t in m.tris ==> t.0 < |m.nodes| && t.1 < |m.nodes| && t.2 < |m.nodes|
  }

  datatype MeshData<V> = MeshData(vertices: seq<V>, triangles: seq<Triangle>, triFace: seq<nat>, ranges: seq<Range>)

  datatype Tessellation<V> = Tessellated(mesh: MeshData<V>) | TessellationFailed(face: nat)

  /** Winding order is flipped on reversed faces. */
  function Oriented(t: Triangle, reversed: bool): Triangle {
    if reversed then (t.0, t.2, t.1) else t
  }

  function Corners<V>(vertices: seq<V>, t: Triangle): (V, V, V)
    requires t.0 < |vertices| && t.1 < |vertices| && t.2 < |vertices|
  {
    (vertices[t.0], vertices[t.1], vertices[t.2])
  }

  /** Stored triangle `r.0 + j` has the corners of the face's own triangle `j`, in its order, or with the
      second and third exchanged if the face is reversed. */
  ghost predicate StoredAt<V>(m: FaceMesh<V>, r: Range, vertices: seq<V>, triangles: seq<Triangle>, j: nat)
    requires ValidFaceMesh(m)
  {
    j < |m.tris| ==>
      && r.0 + j < |triangles|
      && triangles[r.0 + j].0 < |vertices| && triangles[r.0 + j].1 < |vertices| && triangles[r.0 + j].2 < |vertices|
      && var (p, q, s) := Corners(m.nodes, m.tris[j]);
         Corners(vertices, triangles[r.0 + j]) == if m.reversed then (p, s, q) else (p, q, s)
  }

  ghost predicate Stored<V>(m: FaceMesh<V>, r: Range, vertices: seq<V>, triangles: seq<Triangle>) {
    && ValidFaceMesh(m) && r.1 == |m.tris|
    && forall j: nat {:trigger StoredAt(m, r, vertices, triangles, j)} :: StoredAt(m, r, vertices, triangles, j)
  }

  function Shifted<V>(m: FaceMesh<V>, off: nat): (s: seq<Triangle>)
    ensures |s| == |m.tris|
  {
    seq(|m.tris|, j requires 0 <= j < |m.tris| =>
      var t := Oriented(m.tris[j], m.reversed);
      (t.0 + off, t.1 + off, t.2 + off))
  }

  lemma StoredStays<V>(m: FaceMesh<V>, r: Range, vertices: seq<V>, triangles: seq<Triangle>, v: seq<V>,
                       t: seq<Triangle>)
    requires Stored(m, r, vertices, triangles)
    ensures Stored(m, r, vertices + v, triangles + t)
  {
    forall j: nat ensures StoredAt(m, r, vertices + v, triangles + t, j) {
      assert StoredAt(m, r, vertices, triangles, j);
    }
  }

  lemma StoredNow<V>(m: FaceMesh<V>, vertices: seq<V>, triangles: seq<Triangle>)
    requires ValidFaceMesh(m)
    ensures Stored(m, (|triangles|, |m.tris|), vertices + m.nodes, triangles + Shifted(m, |vertices|))
  {
    var v, t, r := vertices + m.nodes, triangles + Shifted(m, |vertices|), (|triangles|, |m.tris|);
    forall j: nat ensures StoredAt(m, r, v, t, j) {
      if j < |m.tris| {
        assert m.tris[j] in m.tris;
        assert t[r.0 + j] == Shifted(m, |vertices|)[j];
      }
    }
  }

  /** A face the mesher left without enough triangles. */
  predicate Missing<V>(m: Option<FaceMesh<V>>, minimum: nat) {
    m == None || |m.value.tris| < minimum
  }

  /** The mesher gave the face at least that many triangles. */
  ghost predicate Given<V>(m: Option<FaceMesh<V>>, minimum: nat) {
    m.Some? && |m.value.tris| >= minimum
  }

  ghost predicate Faithful<V>(faces: seq<Option<FaceMesh<V>>>, n: nat, mesh: MeshData<V>) {
    && n <= |faces| && |mesh.ranges| == n && |mesh.triFace| == |mesh.triangles| && Ranged(mesh.triFace, mesh.ranges)
    && forall i :: 0 <= i < n ==>
         faces[i].Some? && Stored(faces[i].value, mesh.ranges[i], mesh.vertices, mesh.triangles)
  }

  /** `tessellate`: it fails at the first face without enough triangles; otherwise every face owns a
      contiguous range, and its triangles are stored with their own corners, in their own order. */
  method Tessellate<V>(faces: seq<Option<FaceMesh<V>>>, minimum: nat) returns (r: Tessellation<V>)
    requires forall i :: 0 <= i < |faces| && faces[i].Some? ==> ValidFaceMesh(faces[i].value)
    ensures r.TessellationFailed? ==>
      && r.face < |faces| && !Given(faces[r.face], minimum)
      && forall i :: 0 <= i < r.face ==> Given(faces[i], minimum)
    ensures r.Tessellated? ==>
      Faithful(faces, |faces|, r.mesh) && forall i :: 0 <= i < |faces| ==> Given(faces[i], minimum)
  {
    var mesh: MeshData<V> := MeshData([], [], [], []);
    var vOff, tOff, fi := 0, 0, 0;
    while fi < |faces|
      invariant 0 <= fi <= |faces| && Faithful(faces, fi, mesh)
      invariant vOff == |mesh.vertices| && tOff == |mesh.triangles|
      invariant forall i :: 0 <= i < fi ==> Given(faces[i], minimum)
    {
      if Missing(faces[fi], minimum) { return TessellationFailed(fi); }
      var m := faces[fi].value;
      FaithfulMore(faces, fi, mesh);
      mesh := Emit(mesh, m, fi, vOff, tOff);
      vOff, tOff := vOff + |m.nodes|, tOff + |m.tris|;
      fi := fi + 1;
    }
    r := Tessellated(mesh);
  }

  /** What one turn of the loop appends. */
  function Emit<V>(mesh: MeshData<V>, m: FaceMesh<V>, fi: nat, vOff: nat, tOff: nat): MeshData<V> {
    MeshData(mesh.vertices + m.nodes, mesh.triangles + Shifted(m, vOff),
             mesh.triFace + Repeat(fi, |m.tris|), mesh.ranges + [(tOff, |m.tris|)])
  }

  lemma FaithfulMore<V>(faces: seq<Option<FaceMesh<V>>>, fi: nat, mesh: MeshData<V>)
    requires fi < |faces| && faces[fi].Some? && ValidFaceMesh(faces[fi].value) && Faithful(faces, fi, mesh)
    ensures Faithful(faces, fi + 1, Emit(mesh, faces[fi].value, fi, |mesh.vertices|, |mesh.triangles|))
  {
    var m := faces[fi].value;
    RangedMore(mesh.triFace, mesh.ranges, |m.tris|);
    StoredNow(m, mesh.vertices, mesh.triangles);
    forall i | 0 <= i < fi
      ensures
        var shifted := Shifted(m, |mesh.vertices|);
        Stored(faces[i].value, mesh.ranges[i], mesh.vertices + m.nodes, mesh.triangles + shifted)
    {
      StoredStays(faces[i].value, mesh.ranges[i], mesh.vertices, mesh.triangles, m.nodes, Shifted(m, |mesh.vertices|));
    }
  }
}
