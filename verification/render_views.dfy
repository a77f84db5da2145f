/** The rasterizer as a whole: buffers against the per-pixel definition, and the back-projection of
    every foreground pixel onto its face (cad2ml/representations/render.py). */
module RenderViews {
  import opened Wrappers
  import opened ZBuffer
  import opened Render
  import opened Visibility

  function FragmentsOf(c: Camera, m: Mesh): Fragment
    requires ValidMesh(m)
  {
    (t: nat, i: nat, j: nat) => if t < |m.triangles| then FragmentOf(OnScreen(c, m, t), i, j) else None
  }

  function BoxesOf(c: Camera, m: Mesh): Boxes
    requires ValidMesh(m) && c.height > 0 && c.width > 0
  {
    (t: nat) =>
      if t < |m.triangles| && Kept(OnScreen(c, m, t)) then Some(BoxOf(OnScreen(c, m, t), c.height, c.width)) else None
  }

  lemma BoxesFitImage(c: Camera, m: Mesh)
    requires ValidMesh(m) && c.height > 0 && c.width > 0
    ensures BoxesFit(FragmentsOf(c, m), BoxesOf(c, m), |m.triangles|, c.height, c.width)
  {
    forall t: nat, i: nat, j: nat | t < |m.triangles| && i < c.height && j < c.width && FragmentsOf(c, m)(t, i, j).Some?
      ensures BoxesOf(c, m)(t).Some? && InBox(BoxesOf(c, m)(t).value, i, j)
    {
      CoveredInBox(OnScreen(c, m, t), i, j, c.height, c.width);
    }
  }

  /** How many values a pixel of a face-id mask can have; larger ones wrap round. */
  const MASK_VALUES := 0x1_0000

  /** What the mask holds where a triangle of `face` is in front. */
  function MaskOf(face: nat): nat {
    (face + 1) % MASK_VALUES
  }

  /** Triangle `t` of the mesh covers the centre of pixel (i, j). */
  ghost predicate Covers(c: Camera, m: Mesh, t: nat, i: nat, j: nat)
    requires ValidMesh(m)
  {
    FragmentsOf(c, m)(t, i, j).Some?
  }

  /** Triangle `t` wins the pixel at depth `d`, and the mask holds its face. */
  ghost predicate WonBy(c: Camera, m: Mesh, i: nat, j: nat, d: real, f: nat, t: nat)
    requires ValidMesh(m)
  {
    && Nearest(FragmentsOf(c, m), |m.triangles|, i, j, t) && FragmentsOf(c, m)(t, i, j) == Some(d)
    && f == MaskOf(m.faces[t])
  }

  /** The stored value of a pixel: background is depth zero and mask zero; otherwise the depth is the
      least over the covering triangles, it is positive, and the mask is that of the face of the first
      triangle attaining it. */
  ghost predicate PixelOk(c: Camera, m: Mesh, i: nat, j: nat, d: real, f: nat)
    requires ValidMesh(m)
  {
    if forall t: nat {:trigger Covers(c, m, t, i, j)} :: !Covers(c, m, t, i, j)
    then d == 0.0 && f == 0
    else d > 0.0 && exists t: nat :: WonBy(c, m, i, j, d, f, t)
  }

  function Stored(d: Option<real>): real {
    match d
    case None => 0.0
    case Some(z) => z
  }

  lemma FragmentPositive(c: Camera, m: Mesh, t: nat, i: nat, j: nat)
    requires ValidMesh(m) && FragmentsOf(c, m)(t, i, j).Some?
    ensures t < |m.triangles| && FragmentsOf(c, m)(t, i, j).value > 0.0
  {
    DepthPositive(OnScreen(c, m, t), Centre(j), Centre(i));
  }

  lemma DrawnPixelOk(c: Camera, m: Mesh, i: nat, j: nat, d: Option<real>, f: nat)
    requires ValidMesh(m) && Drawn(FragmentsOf(c, m), m.faces, |m.triangles|, i, j, d, f)
    ensures PixelOk(c, m, i, j, Stored(d), f % MASK_VALUES)
  {
    var frag := FragmentsOf(c, m);
    match d
    case None =>
      forall t: nat ensures !Covers(c, m, t, i, j) {
        if t < |m.triangles| { assert frag(t, i, j) == None; }
      }
    case Some(z) =>
      var t: nat :| Nearest(frag, |m.triangles|, i, j, t) && frag(t, i, j) == Some(z) && f == m.faces[t] + 1;
      FragmentPositive(c, m, t, i, j);
      assert Covers(c, m, t, i, j);
      assert WonBy(c, m, i, j, z, f % MASK_VALUES, t);
  }

  // ---- what a pixel sees ------------------------------------------------------------------

  /** The ray through the pixel's centre meets triangle `t` at depth `d`, and its outer side is shown. */
  ghost predicate Hit(c: Camera, m: Mesh, t: nat, i: nat, j: nat, d: real)
    requires ValidMesh(m) && c.fx != 0.0 && c.fy != 0.0
  {
    && t < |m.triangles|
    && var (p, q, r) := m.triangles[t];
       && Shown(c, m.vertices[p], m.vertices[q], m.vertices[r])
       && Meets(c, m.vertices[p], m.vertices[q], m.vertices[r], i, j, d)
  }

  lemma HitIff(c: Camera, m: Mesh, t: nat, i: nat, j: nat, d: real)
    requires ValidMesh(m) && Framed(c)
    ensures FragmentsOf(c, m)(t, i, j) == Some(d) <==> Hit(c, m, t, i, j, d)
  {
    if t < |m.triangles| {
      var (p, q, r) := m.triangles[t];
      FragmentIff(c, m.vertices[p], m.vertices[q], m.vertices[r], i, j, d);
    }
  }

  /** Triangle `t` is met at `d`, no triangle is met nearer, and none before `t` as near. */
  ghost predicate FirstHit(c: Camera, m: Mesh, t: nat, i: nat, j: nat, d: real)
    requires ValidMesh(m) && c.fx != 0.0 && c.fy != 0.0
  {
    && Hit(c, m, t, i, j, d)
    && forall u: nat, z {:trigger Hit(c, m, u, i, j, z)} :: Hit(c, m, u, i, j, z) ==> d <= z && (u < t ==> d < z)
  }

  /** A pixel whose ray meets no outer side is background; otherwise it holds the least depth at which the
      ray meets one, and in 16 bits the number of the face of the first triangle met there, plus one. */
  ghost predicate Sees(c: Camera, m: Mesh, i: nat, j: nat, d: real, f: nat)
    requires ValidMesh(m) && c.fx != 0.0 && c.fy != 0.0
  {
    if forall t: nat, z {:trigger Hit(c, m, t, i, j, z)} :: !Hit(c, m, t, i, j, z) then d == 0.0 && f == 0
    else d > 0.0 && exists t: nat :: FirstHit(c, m, t, i, j, d) && f == (m.faces[t] + 1) % 0x1_0000
  }

  lemma WinnerIsFirst(c: Camera, m: Mesh, i: nat, j: nat, d: real, f: nat, t: nat)
    requires ValidMesh(m) && Framed(c) && WonBy(c, m, i, j, d, f, t)
    ensures FirstHit(c, m, t, i, j, d) && f == (m.faces[t] + 1) % 0x1_0000
  {
    HitIff(c, m, t, i, j, d);
    forall u: nat, z | Hit(c, m, u, i, j, z) ensures d <= z && (u < t ==> d < z) {
      HitIff(c, m, u, i, j, z);
    }
  }

  lemma StoredSees(c: Camera, m: Mesh, i: nat, j: nat, d: real, f: nat)
    requires ValidMesh(m) && Framed(c) && PixelOk(c, m, i, j, d, f)
    ensures Sees(c, m, i, j, d, f)
  {
    if forall t: nat {:trigger Covers(c, m, t, i, j)} :: !Covers(c, m, t, i, j) {
      forall t: nat, z ensures !Hit(c, m, t, i, j, z) {
        HitIff(c, m, t, i, j, z);
        assert !Covers(c, m, t, i, j);
      }
    } else {
      var t: nat :| WonBy(c, m, i, j, d, f, t);
      WinnerIsFirst(c, m, i, j, d, f, t);
    }
  }

  /** `_rasterize`: culling, boxes, and the in-place loop, then infinities become zeros. */
  method Rasterize(c: Camera, m: Mesh) returns (depth: array2<real>, fid: array2<nat>)
    requires ValidMesh(m) && c.height > 0 && c.width > 0
    ensures depth.Length0 == fid.Length0 == c.height && depth.Length1 == fid.Length1 == c.width
    ensures forall i: nat, j: nat :: i < c.height && j < c.width ==> PixelOk(c, m, i, j, depth[i, j], fid[i, j])
    ensures Framed(c) ==>
              forall i: nat, j: nat :: i < c.height && j < c.width ==> Sees(c, m, i, j, depth[i, j], fid[i, j])
  {
    BoxesFitImage(c, m);
    var buffer, ids := DrawAll(FragmentsOf(c, m), BoxesOf(c, m), m.faces, c.height, c.width);
    forall i: nat, j: nat | i < c.height && j < c.width
      ensures PixelOk(c, m, i, j, Stored(buffer[i, j]), ids[i, j] % MASK_VALUES)
    {
      DrawnPixelOk(c, m, i, j, buffer[i, j], ids[i, j]);
    }
    depth := new real[c.height, c.width](
      (i, j) reads buffer requires 0 <= i < buffer.Length0 && 0 <= j < buffer.Length1 => Stored(buffer[i, j]));
    fid := new nat[c.height, c.width](
      (i, j) reads ids requires 0 <= i < ids.Length0 && 0 <= j < ids.Length1 => ids[i, j] % MASK_VALUES);
    if Framed(c) {
      forall i: nat, j: nat | i < c.height && j < c.width ensures Sees(c, m, i, j, depth[i, j], fid[i, j]) {
        StoredSees(c, m, i, j, depth[i, j], fid[i, j]);
      }
    }
  }

  // ---- views ------------------------------------------------------------------------------

  /** Depth and face-id mask of one camera, row by row. */
  datatype View = View(depth: seq<seq<real>>, mask: seq<seq<nat>>)

  ghost predicate PixelStored(c: Camera, m: Mesh, v: View, i: nat, j: nat)
    requires ValidMesh(m)
  {
    && i < |v.depth| && i < |v.mask| && j < |v.depth[i]| && j < |v.mask[i]|
    && PixelOk(c, m, i, j, v.depth[i][j], v.mask[i][j])
  }

  ghost predicate ViewOk(c: Camera, m: Mesh, v: View)
    requires ValidMesh(m)
  {
    && |v.depth| == |v.mask| == c.height
    && (forall i :: 0 <= i < c.height ==> |v.depth[i]| == |v.mask[i]| == c.width)
    && forall i: nat, j: nat {:trigger PixelStored(c, m, v, i, j)} ::
         i < c.height && j < c.width ==> PixelStored(c, m, v, i, j)
  }

  /** An image as the list of its rows. */
  method RowsOf<T>(a: array2<T>) returns (rows: seq<seq<T>>)
    ensures |rows| == a.Length0 && forall i :: 0 <= i < |rows| ==> |rows[i]| == a.Length1
    ensures forall i, j :: 0 <= i < |rows| && 0 <= j < a.Length1 ==> rows[i][j] == a[i, j]
  {
    rows := [];
    for i := 0 to a.Length0
      invariant |rows| == i && forall r :: 0 <= r < i ==> |rows[r]| == a.Length1
      invariant forall r, j :: 0 <= r < i && 0 <= j < a.Length1 ==> rows[r][j] == a[r, j]
    {
      rows := rows + [seq(a.Length1, j requires 0 <= j < a.Length1 reads a => a[i, j])];
    }
  }

  method RenderView(c: Camera, m: Mesh) returns (v: View)
    requires ValidMesh(m) && c.height > 0 && c.width > 0
    ensures ViewOk(c, m, v)
  {
    var depth, fid := Rasterize(c, m);
    var depthRows := RowsOf(depth);
    var maskRows := RowsOf(fid);
    v := View(depthRows, maskRows);
    forall i: nat, j: nat | i < c.height && j < c.width ensures PixelStored(c, m, v, i, j) {
      assert PixelOk(c, m, i, j, depth[i, j], fid[i, j]);
    }
  }

  /** `render_views`, one camera after the other. */
  method RenderViews(cams: seq<Camera>, m: Mesh) returns (views: seq<View>)
    requires ValidMesh(m) && forall k :: 0 <= k < |cams| ==> cams[k].height > 0 && cams[k].width > 0
    ensures |views| == |cams| && forall k :: 0 <= k < |cams| ==> ViewOk(cams[k], m, views[k])
  {
    views := [];
    for k := 0 to |cams|
      invariant |views| == k && forall l :: 0 <= l < k ==> ViewOk(cams[l], m, views[l])
    {
      var v := RenderView(cams[k], m);
      views := views + [v];
    }
  }

  // ---- the inverse ------------------------------------------------------------------------

  ghost predicate Within(v: Vec, lo: Vec, hi: Vec) {
    lo.x <= v.x <= hi.x && lo.y <= v.y <= hi.y && lo.z <= v.z <= hi.z
  }

  /** Every vertex of face `f`'s triangles lies between `lo` and `hi`. */
  ghost predicate FaceWithin(m: Mesh, f: nat, lo: Vec, hi: Vec)
    requires ValidMesh(m)
  {
    forall t :: 0 <= t < |m.triangles| && m.faces[t] == f ==>
      && Within(m.vertices[m.triangles[t].0], lo, hi)
      && Within(m.vertices[m.triangles[t].1], lo, hi)
      && Within(m.vertices[m.triangles[t].2], lo, hi)
  }

  lemma MixWithin(b0: real, b1: real, b2: real, p: Vec, q: Vec, r: Vec, lo: Vec, hi: Vec)
    requires Convex(b0, b1, b2) && Within(p, lo, hi) && Within(q, lo, hi) && Within(r, lo, hi)
    ensures Within(Mix(b0, b1, b2, p, q, r), lo, hi)
  {
    var v := Mix(b0, b1, b2, p, q, r);
    MixCoordinate(v.x, b0, b1, b2, p.x, q.x, r.x, lo.x, hi.x);
    MixCoordinate(v.y, b0, b1, b2, p.y, q.y, r.y, lo.y, hi.y);
    MixCoordinate(v.z, b0, b1, b2, p.z, q.z, r.z, lo.z, hi.z);
  }

  lemma MixCoordinate(v: real, b0: real, b1: real, b2: real, p: real, q: real, r: real, lo: real, hi: real)
    requires Convex(b0, b1, b2) && lo <= p <= hi && lo <= q <= hi && lo <= r <= hi
    requires v == b0 * p + b1 * q + b2 * r
    ensures lo <= v <= hi
  {
    Between(b0, b1, b2, p, q, r, lo, hi);
  }

  /** A foreground pixel back-projects onto the triangle that won it: into the convex hull of that
      triangle's vertices. The mask names the triangle's face exactly when the face's number leaves room
      for the background value. */
  lemma PixelLands(c: Camera, m: Mesh, i: nat, j: nat, d: real, f: nat)
    returns (t: nat, b0: real, b1: real, b2: real)
    requires ValidMesh(m) && PixelOk(c, m, i, j, d, f) && d > 0.0
    requires Orthonormal(c.right, c.down, c.forward) && c.fx != 0.0 && c.fy != 0.0
    ensures Nearest(FragmentsOf(c, m), |m.triangles|, i, j, t) && t < |m.triangles| && Convex(b0, b1, b2)
    ensures
      var (p, q, r) := m.triangles[t];
      Unproject(c, d, i, j) == Mix(b0, b1, b2, m.vertices[p], m.vertices[q], m.vertices[r])
    ensures f == MaskOf(m.faces[t])
    ensures f == m.faces[t] + 1 <==> m.faces[t] < MASK_VALUES - 1
  {
    t :| WonBy(c, m, i, j, d, f, t);
    b0, b1, b2 := UnprojectLands(c, m, t, i, j, d);
  }

  /** With room for all faces in the mask, every foreground pixel of a finished view back-projects onto
      the triangle that won it, one of the face the mask names, hence into that face's vertex bounding
      box. */
  lemma PixelsBackProject(c: Camera, m: Mesh, i: nat, j: nat, d: real, f: nat, lo: Vec, hi: Vec)
    requires ValidMesh(m) && PixelOk(c, m, i, j, d, f) && f > 0
    requires forall t :: 0 <= t < |m.faces| ==> m.faces[t] < MASK_VALUES - 1
    requires Orthonormal(c.right, c.down, c.forward) && c.fx != 0.0 && c.fy != 0.0
    requires FaceWithin(m, f - 1, lo, hi)
    ensures exists t: nat, b0, b1, b2 ::
              && Nearest(FragmentsOf(c, m), |m.triangles|, i, j, t)
              && t < |m.triangles| && m.faces[t] == f - 1 && Convex(b0, b1, b2)
              && Unproject(c, d, i, j) == Mix(b0, b1, b2, m.vertices[m.triangles[t].0], m.vertices[m.triangles[t].1],
                                              m.vertices[m.triangles[t].2])
    ensures Within(Unproject(c, d, i, j), lo, hi)
  {
    var t, b0, b1, b2 := PixelLands(c, m, i, j, d, f);
    var (p, q, r) := m.triangles[t];
    MixWithin(b0, b1, b2, m.vertices[p], m.vertices[q], m.vertices[r], lo, hi);
  }
}
