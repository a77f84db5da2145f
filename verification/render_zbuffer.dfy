/** The z-buffer loop of the rasterizer: bounding boxes, in-place depth and face-id buffers, and the
    per-pixel definition they refine (`_rasterize` of cad2ml/representations/render.py). */
module ZBuffer {
  import opened Wrappers

  /** Pixels rows `y0..y1` and columns `x0..x1`, both ends included. */
  datatype Box = Box(y0: nat, y1: nat, x0: nat, x1: nat)

  predicate InBox(b: Box, i: int, j: int) {
    b.y0 <= i <= b.y1 && b.x0 <= j <= b.x1
  }

  /** The depth at which triangle `t` covers the centre of pixel (i, j), if it does. */
  type Fragment = (nat, nat, nat) -> Option<real>

  /** Where triangle `t` draws, or nothing if it is culled. */
  type Boxes = nat -> Option<Box>

  /** No covered pixel lies outside the triangle's box, and every box lies in the image. */
  ghost predicate BoxesFit(frag: Fragment, boxes: Boxes, n: nat, h: nat, w: nat) {
    && (forall t: nat {:trigger boxes(t)} :: t < n && boxes(t).Some? ==> boxes(t).value.y1 < h && boxes(t).value.x1 < w)
    && (forall t: nat, i: nat, j: nat {:trigger frag(t, i, j)} :: t < n && i < h && j < w && frag(t, i, j).Some? ==>
          boxes(t).Some? && InBox(boxes(t).value, i, j))
  }

  // ---- the per-pixel definition -----------------------------------------------------------

  /** `t` is the nearest of the first `n` triangles at the pixel, and the first one at that depth. */
  ghost predicate Nearest(frag: Fragment, n: nat, i: nat, j: nat, t: nat) {
    && t < n && frag(t, i, j).Some?
    && forall u: nat {:trigger frag(u, i, j)} :: u < n && frag(u, i, j).Some? ==>
         && frag(t, i, j).value <= frag(u, i, j).value
         && (u < t ==> frag(t, i, j).value < frag(u, i, j).value)
  }

  ghost predicate Uncovered(frag: Fragment, n: nat, i: nat, j: nat) {
    forall u: nat {:trigger frag(u, i, j)} :: u < n ==> frag(u, i, j) == None
  }

  /** What the buffers of one pixel hold once the first `n` triangles are drawn. */
  ghost predicate Drawn(frag: Fragment, faces: seq<nat>, n: nat, i: nat, j: nat, d: Option<real>, f: nat)
    requires n <= |faces|
  {
    match d
    case None => f == 0 && Uncovered(frag, n, i, j)
    case Some(z) => exists t: nat :: Nearest(frag, n, i, j, t) && frag(t, i, j) == Some(z) && f == faces[t] + 1
  }

  /** The definition leaves no choice. */
  lemma DrawnIsUnique(frag: Fragment, faces: seq<nat>, n: nat, i: nat, j: nat,
                      d1: Option<real>, f1: nat, d2: Option<real>, f2: nat)
    requires n <= |faces| && Drawn(frag, faces, n, i, j, d1, f1) && Drawn(frag, faces, n, i, j, d2, f2)
    ensures d1 == d2 && f1 == f2
  {
    if d1.Some? && d2.Some? {
      var t1: nat :| Nearest(frag, n, i, j, t1) && frag(t1, i, j) == d1 && f1 == faces[t1] + 1;
      var t2: nat :| Nearest(frag, n, i, j, t2) && frag(t2, i, j) == d2 && f2 == faces[t2] + 1;
    }
  }

  // ---- one pixel, one triangle ------------------------------------------------------------

  /** A covering fragment wins over the buffer only if it is strictly nearer. */
  predicate Beats(new_: Option<real>, d: Option<real>) {
    new_.Some? && (d == None || new_.value < d.value)
  }

  lemma DrawOne(frag: Fragment, faces: seq<nat>, t: nat, i: nat, j: nat, d: Option<real>, f: nat)
    requires t < |faces| && Drawn(frag, faces, t, i, j, d, f)
    ensures Beats(frag(t, i, j), d) ==> Drawn(frag, faces, t + 1, i, j, frag(t, i, j), faces[t] + 1)
    ensures !Beats(frag(t, i, j), d) ==> Drawn(frag, faces, t + 1, i, j, d, f)
  {
  }

  // ---- the buffers ------------------------------------------------------------------------

  ghost predicate Fits(depth: array2<Option<real>>, fid: array2<nat>, h: nat, w: nat) {
    depth.Length0 == fid.Length0 == h && depth.Length1 == fid.Length1 == w
  }

  /** Columns `b.x0..b.x1` of row `i`. */
  method DrawRow(frag: Fragment, faces: seq<nat>, t: nat, b: Box, i: nat, depth: array2<Option<real>>, fid: array2<nat>)
    requires t < |faces| && Fits(depth, fid, depth.Length0, depth.Length1)
    requires i < depth.Length0 && b.x1 < depth.Length1
    requires forall j: nat :: j < depth.Length1 ==> Drawn(frag, faces, t, i, j, depth[i, j], fid[i, j])
    requires forall j: nat :: j < depth.Length1 && frag(t, i, j).Some? ==> b.x0 <= j <= b.x1
    modifies depth, fid
    ensures forall j: nat :: j < depth.Length1 ==> Drawn(frag, faces, t + 1, i, j, depth[i, j], fid[i, j])
    ensures forall r: nat, c: nat :: r < depth.Length0 && c < depth.Length1 && r != i ==>
      depth[r, c] == old(depth[r, c]) && fid[r, c] == old(fid[r, c])
  {
    forall j: nat | j < depth.Length1 && !(b.x0 <= j <= b.x1)
      ensures Drawn(frag, faces, t + 1, i, j, depth[i, j], fid[i, j])
    {
      DrawOne(frag, faces, t, i, j, depth[i, j], fid[i, j]);
    }
    var j := b.x0;
    while j <= b.x1
      invariant b.x0 <= j
      invariant forall c: nat :: c < depth.Length1 && (c < j || b.x1 < c) ==>
          Drawn(frag, faces, t + 1, i, c, depth[i, c], fid[i, c])
      invariant forall c: nat :: c < depth.Length1 && j <= c <= b.x1 ==>
          Drawn(frag, faces, t, i, c, depth[i, c], fid[i, c])
      invariant forall r: nat, c: nat :: r < depth.Length0 && c < depth.Length1 && r != i ==>
        depth[r, c] == old(depth[r, c]) && fid[r, c] == old(fid[r, c])
    {
      DrawOne(frag, faces, t, i, j, depth[i, j], fid[i, j]);
      var zz := frag(t, i, j);
      if Beats(zz, depth[i, j]) {
        depth[i, j] := zz;
        fid[i, j] := faces[t] + 1;
      }
      j := j + 1;
    }
  }

  /** Rows `b.y0..b.y1`. */
  method DrawTriangle(frag: Fragment, faces: seq<nat>, t: nat, b: Box, depth: array2<Option<real>>, fid: array2<nat>)
    requires t < |faces| && Fits(depth, fid, depth.Length0, depth.Length1)
    requires b.y1 < depth.Length0 && b.x1 < depth.Length1
    requires forall i: nat, j: nat :: i < depth.Length0 && j < depth.Length1 ==>
        Drawn(frag, faces, t, i, j, depth[i, j], fid[i, j])
    requires forall i: nat, j: nat :: i < depth.Length0 && j < depth.Length1 && frag(t, i, j).Some? ==> InBox(b, i, j)
    modifies depth, fid
    ensures forall i: nat, j: nat :: i < depth.Length0 && j < depth.Length1 ==>
        Drawn(frag, faces, t + 1, i, j, depth[i, j], fid[i, j])
  {
    forall i: nat, j: nat | i < depth.Length0 && j < depth.Length1 && !(b.y0 <= i <= b.y1)
      ensures Drawn(frag, faces, t + 1, i, j, depth[i, j], fid[i, j])
    {
      DrawOne(frag, faces, t, i, j, depth[i, j], fid[i, j]);
    }
    var i := b.y0;
    while i <= b.y1
      invariant b.y0 <= i
      invariant forall r: nat, c: nat :: r < depth.Length0 && c < depth.Length1 && (r < i || b.y1 < r) ==>
        Drawn(frag, faces, t + 1, r, c, depth[r, c], fid[r, c])
      invariant forall r: nat, c: nat :: r < depth.Length0 && c < depth.Length1 && i <= r <= b.y1 ==>
        Drawn(frag, faces, t, r, c, depth[r, c], fid[r, c])
    {
      DrawRow(frag, faces, t, b, i, depth, fid);
      i := i + 1;
    }
  }

  /** All triangles in order. The result at every pixel is the per-pixel definition. */
  method DrawAll(frag: Fragment, boxes: Boxes, faces: seq<nat>, h: nat, w: nat)
    returns (depth: array2<Option<real>>, fid: array2<nat>)
    requires BoxesFit(frag, boxes, |faces|, h, w)
    ensures Fits(depth, fid, h, w) && fresh(depth) && fresh(fid)
    ensures forall i: nat, j: nat :: i < h && j < w ==> Drawn(frag, faces, |faces|, i, j, depth[i, j], fid[i, j])
  {
    depth := new Option<real>[h, w]((i, j) => None);
    fid := new nat[h, w]((i, j) => 0);
    var t := 0;
    while t < |faces|
      invariant 0 <= t <= |faces| && Fits(depth, fid, h, w) && fresh(depth) && fresh(fid)
      invariant forall i: nat, j: nat :: i < h && j < w ==> Drawn(frag, faces, t, i, j, depth[i, j], fid[i, j])
    {
      match boxes(t) {
        case Some(b) =>
          DrawTriangle(frag, faces, t, b, depth, fid);
        case None =>
          forall i: nat, j: nat | i < h && j < w
            ensures Drawn(frag, faces, t + 1, i, j, depth[i, j], fid[i, j])
          {
            assert frag(t, i, j) == None;
            DrawOne(frag, faces, t, i, j, depth[i, j], fid[i, j]);
          }
      }
      t := t + 1;
    }
  }
}
