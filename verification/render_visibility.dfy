/** Which triangles a pixel sees, in space: a ray through the pixel's centre, outward normals, and the
    distance from the camera, against projection, culling and coverage on the screen
    (cad2ml/representations/render.py). */
module Visibility {
  import opened Wrappers
  import opened Render

  // ---- the camera in space ----------------------------------------------------------------

  /** Right, down and forward are a right-handed orthonormal frame, and image axes are not mirrored. */
  ghost predicate Framed(c: Camera) {
    && Orthonormal(c.right, c.down, c.forward) && UnitFrame(c.right, c.down, c.forward)
    && c.fx > 0.0 && c.fy > 0.0
  }

  ghost predicate UnitFrame(r: Vec, d: Vec, f: Vec) {
    && Dot(r, r) == 1.0 && Dot(d, d) == 1.0 && Dot(f, f) == 1.0
    && Dot(r, d) == 0.0 && Dot(d, f) == 0.0 && Dot(f, r) == 0.0
    && Cross(r, d) == f && Cross(d, f) == r && Cross(f, r) == d
  }

  /** The centre of projection. */
  function EyeOf(c: Camera): Vec {
    RotateBack(c, Scaled(-1.0, c.t))
  }

  /** How far ahead of the eye `v` lies. */
  function Ahead(c: Camera, v: Vec): real {
    Dot(c.forward, Minus(v, EyeOf(c)))
  }

  /** The point at depth `d` on the ray through the centre of pixel (i, j). */
  function RayPoint(c: Camera, d: real, i: int, j: int): Vec
    requires c.fx != 0.0 && c.fy != 0.0
  {
    var x := (j as real + 0.5 - c.cx) / c.fx;
    var y := (i as real + 0.5 - c.cy) / c.fy;
    Plus(EyeOf(c), Scaled(d, Plus(Plus(Scaled(x, c.right), Scaled(y, c.down)), c.forward)))
  }

  /** How far the normal of a triangle, seen counter-clockwise from its outer side, points to the eye. */
  function Towards(c: Camera, p: Vec, q: Vec, r: Vec): real {
    Dot(Cross(Minus(q, p), Minus(r, p)), Minus(EyeOf(c), p))
  }

  /** Three distances ahead are positive and a normal points to the eye, up to the program's tolerances. */
  predicate Outward(fx: real, fy: real, towards: real, x: real, y: real, z: real) {
    x > 0.000001 && y > 0.000001 && z > 0.000001 && fx * fy * towards > 0.000000000001 * (x * y * z)
  }

  /** The triangle lies before the camera and its normal points to the eye. */
  ghost predicate Shown(c: Camera, p: Vec, q: Vec, r: Vec) {
    Outward(c.fx, c.fy, Towards(c, p, q, r), Ahead(c, p), Ahead(c, q), Ahead(c, r))
  }

  /** The ray meets the triangle at depth `d`. */
  ghost predicate Meets(c: Camera, p: Vec, q: Vec, r: Vec, i: int, j: int, d: real)
    requires c.fx != 0.0 && c.fy != 0.0
  {
    exists b0, b1, b2 :: Convex(b0, b1, b2) && RayPoint(c, d, i, j) == Mix(b0, b1, b2, p, q, r)
  }

  // ---- the camera transform ---------------------------------------------------------------

  /** One component of the transposed rotation of a difference. */
  lemma SplitSum(ux: real, uy: real, uz: real, vx: real, vy: real, vz: real, r: real, o: real, f: real)
    ensures (ux - vx) * r + (uy - vy) * o + (uz - vz) * f
         == (ux * r + uy * o + uz * f) + ((-1.0 * vx) * r + (-1.0 * vy) * o + (-1.0 * vz) * f)
  {
  }

  lemma RotateBackSums(c: Camera, u: Vec, v: Vec)
    ensures RotateBack(c, Minus(u, v)) == Plus(RotateBack(c, u), RotateBack(c, Scaled(-1.0, v)))
  {
    SplitSum(u.x, u.y, u.z, v.x, v.y, v.z, c.right.x, c.down.x, c.forward.x);
    SplitSum(u.x, u.y, u.z, v.x, v.y, v.z, c.right.y, c.down.y, c.forward.y);
    SplitSum(u.x, u.y, u.z, v.x, v.y, v.z, c.right.z, c.down.z, c.forward.z);
  }

  lemma Factor(x: real, y: real, d: real, r: real, o: real, f: real, xd: real, yd: real, zd: real, sum: real)
    requires xd == x * d && yd == y * d && zd == d && sum == x * r + y * o + f
    ensures xd * r + yd * o + zd * f == d * sum
  {
  }

  /** The components of a combination of three vectors. */
  lemma CombinationParts(x: real, y: real, z: real, r: Vec, d: Vec, f: Vec, v: Vec)
    requires v == Plus(Plus(Scaled(x, r), Scaled(y, d)), Scaled(z, f))
    ensures v.x == x * r.x + y * d.x + z * f.x && v.y == x * r.y + y * d.y + z * f.y
        && v.z == x * r.z + y * d.z + z * f.z
  {
  }

  lemma RayX(c: Camera, x: real, y: real, d: real, v: Vec, along: Vec)
    requires v == Vec(x * d, y * d, d) && along == Plus(Plus(Scaled(x, c.right), Scaled(y, c.down)), c.forward)
    ensures RotateBack(c, v).x == d * along.x
  {
    CombinationParts(v.x, v.y, v.z, c.right, c.down, c.forward, RotateBack(c, v));
    Factor(x, y, d, c.right.x, c.down.x, c.forward.x, v.x, v.y, v.z, along.x);
  }

  lemma RayY(c: Camera, x: real, y: real, d: real, v: Vec, along: Vec)
    requires v == Vec(x * d, y * d, d) && along == Plus(Plus(Scaled(x, c.right), Scaled(y, c.down)), c.forward)
    ensures RotateBack(c, v).y == d * along.y
  {
    CombinationParts(v.x, v.y, v.z, c.right, c.down, c.forward, RotateBack(c, v));
    Factor(x, y, d, c.right.y, c.down.y, c.forward.y, v.x, v.y, v.z, along.y);
  }

  lemma RayZ(c: Camera, x: real, y: real, d: real, v: Vec, along: Vec)
    requires v == Vec(x * d, y * d, d) && along == Plus(Plus(Scaled(x, c.right), Scaled(y, c.down)), c.forward)
    ensures RotateBack(c, v).z == d * along.z
  {
    CombinationParts(v.x, v.y, v.z, c.right, c.down, c.forward, RotateBack(c, v));
    Factor(x, y, d, c.right.z, c.down.z, c.forward.z, v.x, v.y, v.z, along.z);
  }

  lemma RotateRay(c: Camera, x: real, y: real, d: real, v: Vec, along: Vec)
    requires v == Vec(x * d, y * d, d) && along == Plus(Plus(Scaled(x, c.right), Scaled(y, c.down)), c.forward)
    ensures RotateBack(c, v) == Scaled(d, along)
  {
    RayX(c, x, y, d, v, along);
    RayY(c, x, y, d, v, along);
    RayZ(c, x, y, d, v, along);
    Rescaled(d, along, RotateBack(c, v));
  }

  lemma Rescaled(d: real, v: Vec, w: Vec)
    requires w.x == d * v.x && w.y == d * v.y && w.z == d * v.z
    ensures w == Scaled(d, v)
  {
  }

  lemma SameVec(u: Vec, v: Vec)
    requires u.x == v.x && u.y == v.y && u.z == v.z
    ensures u == v
  {
  }

  lemma Reordered(u: Vec, v: Vec, sum: Vec, other: Vec)
    requires sum == Plus(u, v) && other == Plus(v, u)
    ensures sum == other
  {
  }

  /** The ray's direction, and the point at depth `d` on it, in the frame of the camera. */
  lemma RaySlopes(c: Camera, d: real, i: int, j: int) returns (x: real, y: real, pc: Vec, along: Vec)
    requires c.fx != 0.0 && c.fy != 0.0
    ensures pc == Vec(x * d, y * d, d) && along == Plus(Plus(Scaled(x, c.right), Scaled(y, c.down)), c.forward)
    ensures RayPoint(c, d, i, j) == Plus(EyeOf(c), Scaled(d, along))
    ensures Unproject(c, d, i, j) == RotateBack(c, Minus(pc, c.t))
  {
    x, y := (Centre(j) - c.cx) / c.fx, (Centre(i) - c.cy) / c.fy;
    pc, along := Vec(x * d, y * d, d), Plus(Plus(Scaled(x, c.right), Scaled(y, c.down)), c.forward);
  }

  lemma RayIsUnprojected(c: Camera, d: real, i: int, j: int)
    requires c.fx != 0.0 && c.fy != 0.0
    ensures RayPoint(c, d, i, j) == Unproject(c, d, i, j)
  {
    var x, y, pc, along := RaySlopes(c, d, i, j);
    RotateRay(c, x, y, d, pc, along);
    RotateBackSums(c, pc, c.t);
    Reordered(EyeOf(c), RotateBack(c, pc), RayPoint(c, d, i, j), Unproject(c, d, i, j));
  }

  /** A vertex relative to the eye, in the frame of the camera. */
  lemma Relative(c: Camera, v: Vec)
    requires Orthonormal(c.right, c.down, c.forward)
    ensures Minus(v, EyeOf(c)) == RotateBack(c, ToCamera(c, v))
  {
    RotateBackUndoes(c, v);
    RotateBackSums(c, ToCamera(c, v), c.t);
  }

  /** The frame reads off the coordinates of a vector built from it. */
  lemma ReadsOff(r: Vec, d: Vec, f: Vec, a: Vec, v: Vec)
    requires UnitFrame(r, d, f) && v == Plus(Plus(Scaled(a.x, r), Scaled(a.y, d)), Scaled(a.z, f))
    ensures Dot(r, v) == a.x && Dot(d, v) == a.y && Dot(f, v) == a.z
  {
    DotCombination(r, a, r, d, f);
    DotCombination(d, a, r, d, f);
    DotCombination(f, a, r, d, f);
    DotCommutes(r, d);
    DotCommutes(d, f);
    DotCommutes(f, r);
  }

  lemma DotCommutes(u: Vec, v: Vec)
    ensures Dot(u, v) == Dot(v, u)
  {
  }

  lemma DotCombination(u: Vec, a: Vec, r: Vec, d: Vec, f: Vec)
    ensures Dot(u, Plus(Plus(Scaled(a.x, r), Scaled(a.y, d)), Scaled(a.z, f)))
         == a.x * Dot(u, r) + a.y * Dot(u, d) + a.z * Dot(u, f)
  {
    DotPlus(u, Plus(Scaled(a.x, r), Scaled(a.y, d)), Scaled(a.z, f));
    DotPlus(u, Scaled(a.x, r), Scaled(a.y, d));
    DotScaled(u, a.x, r);
    DotScaled(u, a.y, d);
    DotScaled(u, a.z, f);
  }

  /** Camera coordinates are the coordinates relative to the eye; the third is the distance ahead. */
  lemma InFrame(c: Camera, v: Vec)
    requires Framed(c)
    ensures
      var a := Minus(v, EyeOf(c));
      ToCamera(c, v) == Vec(Dot(c.right, a), Dot(c.down, a), Dot(c.forward, a)) && ToCamera(c, v).z == Ahead(c, v)
  {
    Relative(c, v);
    ReadsOff(c.right, c.down, c.forward, ToCamera(c, v), Minus(v, EyeOf(c)));
  }

  // ---- facing -----------------------------------------------------------------------------

  /** The volume three vectors span. */
  function Volume(u: Vec, v: Vec, w: Vec): real {
    Dot(u, Cross(v, w))
  }

  /** The inner product of two cross products. */
  lemma Lagrange(u: Vec, v: Vec, a: Vec, b: Vec)
    ensures Dot(Cross(u, v), Cross(a, b)) == Dot(u, a) * Dot(v, b) - Dot(u, b) * Dot(v, a)
  {
  }

  /** A right-handed frame keeps volumes. */
  lemma FrameKeepsVolume(r: Vec, d: Vec, f: Vec, a: Vec, b: Vec, e: Vec)
    requires Orthonormal(r, d, f) && UnitFrame(r, d, f)
    ensures Volume(Vec(Dot(r, a), Dot(d, a), Dot(f, a)), Vec(Dot(r, b), Dot(d, b), Dot(f, b)),
                   Vec(Dot(r, e), Dot(d, e), Dot(f, e))) == Volume(a, b, e)
  {
    var w := Cross(b, e);
    Lagrange(d, f, b, e);
    Lagrange(f, r, b, e);
    Lagrange(r, d, b, e);
    var rb, re := Vec(Dot(r, b), Dot(d, b), Dot(f, b)), Vec(Dot(r, e), Dot(d, e), Dot(f, e));
    assert Cross(rb, re) == Vec(Dot(r, w), Dot(d, w), Dot(f, w));
    FrameKeepsDot(r, d, f, a, w);
  }

  lemma FrameKeepsDot(r: Vec, d: Vec, f: Vec, a: Vec, w: Vec)
    requires Orthonormal(r, d, f)
    ensures Dot(r, a) * Dot(r, w) + Dot(d, a) * Dot(d, w) + Dot(f, a) * Dot(f, w) == Dot(a, w)
  {
    var p := Vec(Dot(r, w), Dot(d, w), Dot(f, w));
    BackX(r, d, f, w, p);
    BackY(r, d, f, w, p);
    BackZ(r, d, f, w, p);
    Transposes(r, d, f, a, p, w);
  }

  lemma Transposes(r: Vec, d: Vec, f: Vec, a: Vec, p: Vec, w: Vec)
    requires p.x * r.x + p.y * d.x + p.z * f.x == w.x
    requires p.x * r.y + p.y * d.y + p.z * f.y == w.y
    requires p.x * r.z + p.y * d.z + p.z * f.z == w.z
    ensures Dot(r, a) * p.x + Dot(d, a) * p.y + Dot(f, a) * p.z == Dot(a, w)
  {
    DotCommutes(r, a);
    DotCommutes(d, a);
    DotCommutes(f, a);
    DotCombination(a, p, r, d, f);
    assert w == Plus(Plus(Scaled(p.x, r), Scaled(p.y, d)), Scaled(p.z, f));
  }

  /** One component of a cross product of differences. */
  lemma Differing(a1: real, a2: real, b1: real, b2: real, g1: real, g2: real)
    ensures (b1 - a1) * (g2 - a2) - (b2 - a2) * (g1 - a1)
         == (b1 * g2 - b2 * g1) + ((g1 * a2 - g2 * a1) + (a1 * b2 - a2 * b1))
  {
  }

  lemma DifferingX(a: Vec, b: Vec, g: Vec)
    ensures Cross(Minus(b, a), Minus(g, a)).x == Cross(b, g).x + (Cross(g, a).x + Cross(a, b).x)
  {
    Differing(a.y, a.z, b.y, b.z, g.y, g.z);
  }

  lemma DifferingY(a: Vec, b: Vec, g: Vec)
    ensures Cross(Minus(b, a), Minus(g, a)).y == Cross(b, g).y + (Cross(g, a).y + Cross(a, b).y)
  {
    Differing(a.z, a.x, b.z, b.x, g.z, g.x);
  }

  lemma DifferingZ(a: Vec, b: Vec, g: Vec)
    ensures Cross(Minus(b, a), Minus(g, a)).z == Cross(b, g).z + (Cross(g, a).z + Cross(a, b).z)
  {
    Differing(a.x, a.y, b.x, b.y, g.x, g.y);
  }

  lemma CrossOfDifferences(a: Vec, b: Vec, g: Vec)
    ensures Cross(Minus(b, a), Minus(g, a)) == Plus(Cross(b, g), Plus(Cross(g, a), Cross(a, b)))
  {
    DifferingX(a, b, g);
    DifferingY(a, b, g);
    DifferingZ(a, b, g);
    Sum3(Cross(b, g), Cross(g, a), Cross(a, b), Cross(Minus(b, a), Minus(g, a)));
  }

  lemma Sum3(u: Vec, v: Vec, w: Vec, sum: Vec)
    requires sum.x == u.x + (v.x + w.x) && sum.y == u.y + (v.y + w.y) && sum.z == u.z + (v.z + w.z)
    ensures sum == Plus(u, Plus(v, w))
  {
  }

  lemma CrossIsNormal(a: Vec, b: Vec)
    ensures Dot(Cross(a, b), a) == 0.0 && Dot(Cross(b, a), a) == 0.0
  {
  }

  lemma DotSum(u: Vec, v: Vec, w: Vec, a: Vec)
    ensures Dot(Plus(u, Plus(v, w)), a) == Dot(u, a) + Dot(v, a) + Dot(w, a)
  {
  }

  /** Seen from a corner, the volume is that of the sides. */
  lemma VolumeOfSides(a: Vec, b: Vec, g: Vec)
    ensures Dot(Cross(Minus(b, a), Minus(g, a)), a) == Volume(a, b, g)
  {
    CrossOfDifferences(a, b, g);
    DotSum(Cross(b, g), Cross(g, a), Cross(a, b), a);
    CrossIsNormal(a, g);
    CrossIsNormal(a, b);
    DotCommutes(a, Cross(b, g));
  }

  lemma Differences(e: Vec, p: Vec, q: Vec)
    ensures Minus(Minus(q, e), Minus(p, e)) == Minus(q, p) && Minus(e, p) == Scaled(-1.0, Minus(p, e))
  {
  }

  /** The volume a triangle spans with the eye is how far its normal points away from the eye. */
  lemma VolumeFaces(e: Vec, p: Vec, q: Vec, r: Vec)
    ensures Volume(Minus(p, e), Minus(q, e), Minus(r, e))
         == -Dot(Cross(Minus(q, p), Minus(r, p)), Minus(e, p))
  {
    Differences(e, p, q);
    Differences(e, p, r);
    VolumeOfSides(Minus(p, e), Minus(q, e), Minus(r, e));
    DotScaled(Cross(Minus(q, p), Minus(r, p)), -1.0, Minus(p, e));
  }

  /** Twice the area of a triangle in the plane. */
  function Turn(ua: real, va: real, ub: real, vb: real, ue: real, ve: real): real {
    (ub - ua) * (ve - va) - (ue - ua) * (vb - va)
  }

  function Depths(a: Vec, b: Vec, e: Vec): real {
    a.z * b.z * e.z
  }

  /** Area on the screen, for image coordinates that are scaled and shifted ratios. */
  lemma AreaOfRatios(s: Screen, fx: real, fy: real, cx: real, cy: real,
                     ua: real, va: real, ub: real, vb: real, uc: real, vc: real)
    requires s.a.x == fx * ua + cx && s.b.x == fx * ub + cx && s.c.x == fx * uc + cx
    requires s.a.y == fy * va + cy && s.b.y == fy * vb + cy && s.c.y == fy * vc + cy
    ensures Area(s) == fx * fy * Turn(ua, va, ub, vb, uc, vc)
  {
    SameFactors(fx, ub - ua, fy, vc - va);
    SameFactors(fx, uc - ua, fy, vb - va);
    assert s.b.x - s.a.x == fx * (ub - ua) && s.c.y - s.a.y == fy * (vc - va);
    assert s.c.x - s.a.x == fx * (uc - ua) && s.b.y - s.a.y == fy * (vb - va);
  }

  lemma SameFactors(a: real, u: real, b: real, v: real)
    ensures (a * u) * (b * v) == a * b * (u * v)
  {
  }

  lemma VolumeOfRatios(a: Vec, b: Vec, e: Vec, ua: real, va: real, ub: real, vb: real, ue: real, ve: real)
    requires a.x == ua * a.z && a.y == va * a.z && b.x == ub * b.z && b.y == vb * b.z
    requires e.x == ue * e.z && e.y == ve * e.z
    ensures Volume(a, b, e) == Turn(ua, va, ub, vb, ue, ve) * Depths(a, b, e)
  {
    var z := Depths(a, b, e);
    PairOfRatios(a.x, ua, a.z, b.y, vb, b.z, e.y, ve, e.z, z);
    PairOfRatios(a.y, va, a.z, e.x, ue, e.z, b.x, ub, b.z, z);
    PairAcross(b.x, ub, b.z, e.y, ve, e.z, b.y, vb, e.x, ue, a.z, z);
    TurnTerms(ua, va, ub, vb, ue, ve, z);
  }

  lemma PairOfRatios(x: real, u: real, zu: real, y: real, v: real, zv: real, w: real, t: real, zt: real, z: real)
    requires x == u * zu && y == v * zv && w == t * zt && z == zu * zv * zt
    ensures x * (y * zt - zv * w) == (u * v - u * t) * z
  {
    OfRatios(x, u, zu, y, v, zv, zt, z);
    OfRatios(x, u, zu, w, t, zt, zv, z);
  }

  lemma PairAcross(x: real, u: real, zu: real, y: real, v: real, zv: real, p: real, s: real, q: real, t: real,
                   w: real, z: real)
    requires x == u * zu && y == v * zv && p == s * zu && q == t * zv && z == zu * zv * w
    ensures w * (x * y - p * q) == (u * v - s * t) * z
  {
    OfRatios(x, u, zu, y, v, zv, w, z);
    OfRatios(p, s, zu, q, t, zv, w, z);
  }

  lemma OfRatios(x: real, u: real, zu: real, y: real, v: real, zv: real, w: real, z: real)
    requires x == u * zu && y == v * zv && z == zu * zv * w
    ensures x * y * w == u * v * z
  {
    SameFactors(u, zu, v, zv);
    Associates(u * v, zu * zv, w);
  }

  lemma Associates(a: real, b: real, e: real)
    ensures a * b * e == a * (b * e)
  {
  }

  lemma TurnTerms(ua: real, va: real, ub: real, vb: real, ue: real, ve: real, z: real)
    ensures Turn(ua, va, ub, vb, ue, ve) * z
         == (ua * vb - ua * ve) * z + (va * ue - va * ub) * z + (ub * ve - vb * ue) * z
  {
    assert Turn(ua, va, ub, vb, ue, ve) == (ua * vb - ua * ve) + (va * ue - va * ub) + (ub * ve - vb * ue);
  }

  lemma Ratio(f: real, x: real, z: real, m: real)
    requires z != 0.0
    ensures f * x / z + m == f * (x / z) + m && x == x / z * z
  {
  }

  /** `p` is the image of `a`, whose ratios to the depth are `u` and `v`. */
  predicate Rated(c: Camera, a: Vec, p: Point, u: real, v: real) {
    p.x == c.fx * u + c.cx && p.y == c.fy * v + c.cy && a.x == u * a.z && a.y == v * a.z
  }

  lemma ImageRatios(c: Camera, a: Vec, p: Point) returns (u: real, v: real)
    requires a.z != 0.0 && p == Image(c, a)
    ensures Rated(c, a, p, u, v)
  {
    u, v := a.x / a.z, a.y / a.z;
    Ratio(c.fx, a.x, a.z, c.cx);
    Ratio(c.fy, a.y, a.z, c.cy);
  }

  lemma Regroup(area: real, k: real, w: real, z: real, volume: real)
    requires area == k * w && volume == w * z
    ensures area * z == k * volume
  {
  }

  /** Projection scales the volume a triangle spans with the eye down to its area on the screen. */
  lemma AreaIsVolume(c: Camera, s: Screen, a: Vec, b: Vec, e: Vec)
    requires s.a == Image(c, a) && s.b == Image(c, b) && s.c == Image(c, e) && a.z != 0.0 && b.z != 0.0 && e.z != 0.0
    ensures Area(s) * Depths(a, b, e) == c.fx * c.fy * Volume(a, b, e)
  {
    var ua, va := ImageRatios(c, a, s.a);
    var ub, vb := ImageRatios(c, b, s.b);
    var ue, ve := ImageRatios(c, e, s.c);
    FromRatios(c, s, a, b, e, ua, va, ub, vb, ue, ve);
  }

  lemma FromRatios(c: Camera, s: Screen, a: Vec, b: Vec, e: Vec, ua: real, va: real, ub: real, vb: real, ue: real,
                   ve: real)
    requires Rated(c, a, s.a, ua, va) && Rated(c, b, s.b, ub, vb) && Rated(c, e, s.c, ue, ve)
    ensures Area(s) * Depths(a, b, e) == c.fx * c.fy * Volume(a, b, e)
  {
    AreaOfRatios(s, c.fx, c.fy, c.cx, c.cy, ua, va, ub, vb, ue, ve);
    VolumeOfRatios(a, b, e, ua, va, ub, vb, ue, ve);
    Regroup(Area(s), c.fx * c.fy, Turn(ua, va, ub, vb, ue, ve), Depths(a, b, e), Volume(a, b, e));
  }

  lemma Sign(area: real, z: real, k: real, towards: real, eps: real)
    requires z > 0.0 && area * z == k * -towards
    ensures area < -eps <==> k * towards > eps * z
  {
  }

  lemma Positive3(x: real, y: real, z: real)
    requires x > 0.0 && y > 0.0 && z > 0.0
    ensures x * y * z > 0.0
  {
  }

  lemma AreaSign(c: Camera, s: Screen, a: Vec, b: Vec, e: Vec, towards: real, eps: real)
    requires s == Screen(Image(c, a), Image(c, b), Image(c, e))
    requires a.z > 0.0 && b.z > 0.0 && e.z > 0.0 && Volume(a, b, e) == -towards
    ensures Area(s) < -eps <==> c.fx * c.fy * towards > eps * Depths(a, b, e)
  {
    Positive3(a.z, b.z, e.z);
    AreaIsVolume(c, s, a, b, e);
    Sign(Area(s), Depths(a, b, e), c.fx * c.fy, towards, eps);
  }

  /** The volume a triangle spans in camera coordinates is how far its normal points from the eye. */
  lemma VolumeInFrame(c: Camera, p: Vec, q: Vec, r: Vec)
    requires Framed(c)
    ensures Volume(ToCamera(c, p), ToCamera(c, q), ToCamera(c, r))
         == -Towards(c, p, q, r)
  {
    InFrame(c, p);
    InFrame(c, q);
    InFrame(c, r);
    var eye := EyeOf(c);
    FrameKeepsVolume(c.right, c.down, c.forward, Minus(p, eye), Minus(q, eye), Minus(r, eye));
    VolumeFaces(eye, p, q, r);
  }

  lemma KeptParts(s: Screen)
    ensures Kept(s) <==> Area(s) < -0.000000000001 && s.a.z > 0.000001 && s.b.z > 0.000001 && s.c.z > 0.000001
  {
  }

  lemma KeptInCamera(c: Camera, a: Vec, b: Vec, e: Vec, towards: real, x: real, y: real, z: real)
    requires Volume(a, b, e) == -towards && a.z == x && b.z == y && e.z == z
    ensures Kept(Screen(Image(c, a), Image(c, b), Image(c, e)))
       <==> Outward(c.fx, c.fy, towards, x, y, z)
  {
    KeptParts(Screen(Image(c, a), Image(c, b), Image(c, e)));
    if x > 0.000001 && y > 0.000001 && z > 0.000001 {
      AreaSign(c, Screen(Image(c, a), Image(c, b), Image(c, e)), a, b, e, towards, 0.000000000001);
      assert Depths(a, b, e) == x * y * z;
    }
  }

  /** The program keeps a triangle exactly when the camera is shown its outer side. */
  lemma KeptIsShown(c: Camera, p: Vec, q: Vec, r: Vec)
    requires Framed(c)
    ensures Kept(Screen(Project(c, p), Project(c, q), Project(c, r))) <==> Shown(c, p, q, r)
  {
    InFrame(c, p);
    InFrame(c, q);
    InFrame(c, r);
    VolumeInFrame(c, p, q, r);
    var a, b, e, towards := ToCamera(c, p), ToCamera(c, q), ToCamera(c, r), Towards(c, p, q, r);
    KeptInCamera(c, a, b, e, towards, Ahead(c, p), Ahead(c, q), Ahead(c, r));
    assert Screen(Project(c, p), Project(c, q), Project(c, r)) == Screen(Image(c, a), Image(c, b), Image(c, e));
  }

  // ---- coverage ---------------------------------------------------------------------------

  /** Weights that rebuild a point from the corners are the program's. */
  lemma WeightsAreUnique(s: Screen, x: real, y: real, w0: real, w1: real, w2: real)
    requires Area(s) != 0.0 && w0 + w1 + w2 == 1.0
    requires w0 * s.a.x + w1 * s.b.x + w2 * s.c.x == x && w0 * s.a.y + w1 * s.b.y + w2 * s.c.y == y
    ensures Weight0(s, x, y) == w0 && Weight1(s, x, y) == w1 && Weight2(s, x, y) == w2
  {
    FirstWeight(s, x, y, w0, w1, w2);
    SecondWeight(s, x, y, w0, w1, w2);
  }

  lemma FirstWeight(s: Screen, x: real, y: real, w0: real, w1: real, w2: real)
    requires Area(s) != 0.0 && w2 == 1.0 - w0 - w1
    requires w0 * s.a.x + w1 * s.b.x + w2 * s.c.x == x && w0 * s.a.y + w1 * s.b.y + w2 * s.c.y == y
    ensures Weight0(s, x, y) == w0
  {
    WeightTimesArea(s.a.x, s.a.y, s.b.x, s.b.y, s.c.x, s.c.y, w0, w1, w2, x, y);
    Divided((s.b.x - x) * (s.c.y - y) - (s.c.x - x) * (s.b.y - y), Area(s), w0);
  }

  lemma SecondWeight(s: Screen, x: real, y: real, w0: real, w1: real, w2: real)
    requires Area(s) != 0.0 && w0 == 1.0 - w1 - w2
    requires w0 * s.a.x + w1 * s.b.x + w2 * s.c.x == x && w0 * s.a.y + w1 * s.b.y + w2 * s.c.y == y
    ensures Weight1(s, x, y) == w1
  {
    WeightTimesArea(s.b.x, s.b.y, s.c.x, s.c.y, s.a.x, s.a.y, w1, w2, w0, x, y);
    TurnCycles(s.a.x, s.a.y, s.b.x, s.b.y, s.c.x, s.c.y);
    Divided((s.c.x - x) * (s.a.y - y) - (s.a.x - x) * (s.c.y - y), Area(s), w1);
  }

  lemma TurnCycles(a0: real, a1: real, b0: real, b1: real, c0: real, c1: real)
    ensures (c0 - b0) * (a1 - b1) - (a0 - b0) * (c1 - b1) == (b0 - a0) * (c1 - a1) - (c0 - a0) * (b1 - a1)
  {
  }

  lemma Divided(n: real, area: real, w: real)
    requires area != 0.0 && n == w * area
    ensures n / area == w
  {
  }

  /** With the third corner as origin the weight of the first comes out as a ratio of areas. */
  lemma WeightTimesArea(a0: real, a1: real, b0: real, b1: real, c0: real, c1: real, u: real, v: real, w: real,
                        x: real, y: real)
    requires w == 1.0 - u - v && u * a0 + v * b0 + w * c0 == x && u * a1 + v * b1 + w * c1 == y
    ensures (b0 - x) * (c1 - y) - (c0 - x) * (b1 - y) == u * ((b0 - a0) * (c1 - a1) - (c0 - a0) * (b1 - a1))
  {
    var p, q, m, n := a0 - c0, a1 - c1, b0 - c0, b1 - c1;
    assert x - c0 == u * p + v * m && y - c1 == u * q + v * n;
    AroundOrigin(p, q, m, n, u, v);
    assert b0 - x == m - (u * p + v * m) && c1 - y == -(u * q + v * n);
    assert c0 - x == -(u * p + v * m) && b1 - y == n - (u * q + v * n);
    assert b0 - a0 == m - p && c1 - a1 == -q && c0 - a0 == -p && b1 - a1 == n - q;
  }

  lemma AroundOrigin(p: real, q: real, m: real, n: real, u: real, v: real)
    ensures (m - (u * p + v * m)) * -(u * q + v * n) + (u * p + v * m) * (n - (u * q + v * n))
         == u * ((m - p) * -q + p * (n - q))
  {
  }

  lemma ForwardUndoes(c: Camera, pc: Vec)
    requires Framed(c)
    ensures ToCamera(c, RotateBack(c, Minus(pc, c.t))) == pc
  {
    ReadsOff(c.right, c.down, c.forward, Minus(pc, c.t), RotateBack(c, Minus(pc, c.t)));
  }

  /** A point of the triangle on the ray, in camera coordinates. */
  lemma RayInCamera(c: Camera, p: Vec, q: Vec, r: Vec, i: int, j: int, d: real, b0: real, b1: real, b2: real)
    requires Framed(c) && b0 + b1 + b2 == 1.0 && Unproject(c, d, i, j) == Mix(b0, b1, b2, p, q, r)
    ensures Vec((Centre(j) - c.cx) / c.fx * d, (Centre(i) - c.cy) / c.fy * d, d)
         == Mix(b0, b1, b2, ToCamera(c, p), ToCamera(c, q), ToCamera(c, r))
  {
    var pc := Vec((Centre(j) - c.cx) / c.fx * d, (Centre(i) - c.cy) / c.fy * d, d);
    assert Unproject(c, d, i, j) == RotateBack(c, Minus(pc, c.t));
    ForwardUndoes(c, pc);
    ToCameraMixes(c, b0, b1, b2, p, q, r);
  }

  /** A ray that meets a triangle before the camera, in camera coordinates. */
  ghost predicate Met(c: Camera, s: Screen, u: Vec, v: Vec, w: Vec, i: int, j: int, d: real, b0: real, b1: real,
                      b2: real) {
    && c.fx > 0.0 && c.fy > 0.0 && s == Screen(Image(c, u), Image(c, v), Image(c, w))
    && u.z > 0.0 && v.z > 0.0 && w.z > 0.0 && Convex(b0, b1, b2)
    && Vec((Centre(j) - c.cx) / c.fx * d, (Centre(i) - c.cy) / c.fy * d, d) == Mix(b0, b1, b2, u, v, w)
  }

  /** The weight on the screen of a corner at depth `z` with weight `b` in space. */
  function ScreenWeight(b: real, z: real, d: real): real
    requires d > 0.0
  {
    b * z / d
  }

  lemma MetDepth(c: Camera, s: Screen, u: Vec, v: Vec, w: Vec, i: int, j: int, d: real, b0: real, b1: real, b2: real)
    requires Met(c, s, u, v, w, i, j, d, b0, b1, b2)
    ensures d > 0.0 && d == b0 * u.z + b1 * v.z + b2 * w.z
  {
    MixParts(Vec((Centre(j) - c.cx) / c.fx * d, (Centre(i) - c.cy) / c.fy * d, d), b0, b1, b2, u, v, w);
    DepthOfMix(b0, b1, b2, u.z, v.z, w.z, d);
  }

  lemma MetWeights(c: Camera, s: Screen, u: Vec, v: Vec, w: Vec, i: int, j: int, d: real, b0: real, b1: real, b2: real)
    requires Met(c, s, u, v, w, i, j, d, b0, b1, b2) && d > 0.0 && d == b0 * u.z + b1 * v.z + b2 * w.z
    ensures
      var w0, w1, w2 := ScreenWeight(b0, u.z, d), ScreenWeight(b1, v.z, d), ScreenWeight(b2, w.z, d);
      && w0 >= 0.0 && w1 >= 0.0 && w2 >= 0.0 && w0 + w1 + w2 == 1.0
      && s.a.z != 0.0 && s.b.z != 0.0 && s.c.z != 0.0 && w0 / s.a.z + w1 / s.b.z + w2 / s.c.z == 1.0 / d
  {
    WeightsSum(b0, b1, b2, u.z, v.z, w.z, d);
  }

  lemma MetX(c: Camera, s: Screen, u: Vec, v: Vec, w: Vec, i: int, j: int, d: real, b0: real, b1: real, b2: real)
    requires Met(c, s, u, v, w, i, j, d, b0, b1, b2) && d > 0.0 && d == b0 * u.z + b1 * v.z + b2 * w.z
    ensures ScreenWeight(b0, u.z, d) * s.a.x + ScreenWeight(b1, v.z, d) * s.b.x + ScreenWeight(b2, w.z, d) * s.c.x
        == Centre(j)
  {
    var p := (Centre(j) - c.cx) / c.fx * d;
    MixParts(Vec(p, (Centre(i) - c.cy) / c.fy * d, d), b0, b1, b2, u, v, w);
    Unscale(Centre(j) - c.cx, c.fx, d, p);
    MetImages(c, s, u, v, w);
    RebuiltX(c, s, u, v, w, Centre(j), p, d, b0, b1, b2);
  }

  lemma MetY(c: Camera, s: Screen, u: Vec, v: Vec, w: Vec, i: int, j: int, d: real, b0: real, b1: real, b2: real)
    requires Met(c, s, u, v, w, i, j, d, b0, b1, b2) && d > 0.0 && d == b0 * u.z + b1 * v.z + b2 * w.z
    ensures ScreenWeight(b0, u.z, d) * s.a.y + ScreenWeight(b1, v.z, d) * s.b.y + ScreenWeight(b2, w.z, d) * s.c.y
        == Centre(i)
  {
    var p := (Centre(i) - c.cy) / c.fy * d;
    MixParts(Vec((Centre(j) - c.cx) / c.fx * d, p, d), b0, b1, b2, u, v, w);
    Unscale(Centre(i) - c.cy, c.fy, d, p);
    MetImages(c, s, u, v, w);
    RebuiltY(c, s, u, v, w, Centre(i), p, d, b0, b1, b2);
  }

  lemma RebuiltX(c: Camera, s: Screen, u: Vec, v: Vec, w: Vec, x: real, p: real, d: real, b0: real, b1: real, b2: real)
    requires Imaged(c, u, s.a) && Imaged(c, v, s.b) && Imaged(c, w, s.c)
    requires d > 0.0 && d == b0 * u.z + b1 * v.z + b2 * w.z && p == b0 * u.x + b1 * v.x + b2 * w.x
    requires (x - c.cx) * d == c.fx * p
    ensures ScreenWeight(b0, u.z, d) * s.a.x + ScreenWeight(b1, v.z, d) * s.b.x + ScreenWeight(b2, w.z, d) * s.c.x == x
  {
    RebuiltBy(b0, b1, b2, u.x, u.z, v.x, v.z, w.x, w.z, d, c.fx, c.cx, x, s.a.x, s.b.x, s.c.x, p);
  }

  lemma RebuiltY(c: Camera, s: Screen, u: Vec, v: Vec, w: Vec, y: real, p: real, d: real, b0: real, b1: real, b2: real)
    requires Imaged(c, u, s.a) && Imaged(c, v, s.b) && Imaged(c, w, s.c)
    requires d > 0.0 && d == b0 * u.z + b1 * v.z + b2 * w.z && p == b0 * u.y + b1 * v.y + b2 * w.y
    requires (y - c.cy) * d == c.fy * p
    ensures ScreenWeight(b0, u.z, d) * s.a.y + ScreenWeight(b1, v.z, d) * s.b.y + ScreenWeight(b2, w.z, d) * s.c.y == y
  {
    RebuiltBy(b0, b1, b2, u.y, u.z, v.y, v.z, w.y, w.z, d, c.fy, c.cy, y, s.a.y, s.b.y, s.c.y, p);
  }

  lemma MetImages(c: Camera, s: Screen, u: Vec, v: Vec, w: Vec)
    requires s == Screen(Image(c, u), Image(c, v), Image(c, w)) && u.z > 0.0 && v.z > 0.0 && w.z > 0.0
    ensures Imaged(c, u, s.a) && Imaged(c, v, s.b) && Imaged(c, w, s.c)
  {
    ImageTimes(c, u);
    ImageTimes(c, v);
    ImageTimes(c, w);
  }

  /** The image of a point before the camera, without divisions. */
  predicate Imaged(c: Camera, a: Vec, p: Point) {
    && a.z > 0.0 && p.z == a.z
    && p.x * a.z == c.fx * a.x + c.cx * a.z && p.y * a.z == c.fy * a.y + c.cy * a.z
  }

  lemma ImageTimes(c: Camera, a: Vec)
    requires a.z > 0.0
    ensures Imaged(c, a, Image(c, a))
  {
    Unshift(c.fx * a.x, a.z, c.cx);
    Unshift(c.fy * a.y, a.z, c.cy);
  }

  lemma Unshift(n: real, z: real, m: real)
    requires z > 0.0
    ensures (n / z + m) * z == n + m * z
  {
  }

  lemma Unscale(x: real, f: real, d: real, p: real)
    requires f > 0.0 && x / f * d == p
    ensures x * d == f * p
  {
    assert x / f * f == x;
    Rearrange(x / f, f, d);
  }

  lemma Rearrange(q: real, f: real, d: real)
    ensures q * f * d == f * (q * d)
  {
  }

  /** Weights that rebuild the pixel's centre and divide by the depths to the inverse of `d`. */
  lemma WeightsCover(s: Screen, i: int, j: int, d: real, w0: real, w1: real, w2: real)
    requires Kept(s) && d > 0.0 && w0 >= 0.0 && w1 >= 0.0 && w2 >= 0.0 && w0 + w1 + w2 == 1.0
    requires w0 * s.a.x + w1 * s.b.x + w2 * s.c.x == Centre(j) && w0 * s.a.y + w1 * s.b.y + w2 * s.c.y == Centre(i)
    requires w0 / s.a.z + w1 / s.b.z + w2 / s.c.z == 1.0 / d
    ensures FragmentOf(s, i, j) == Some(d)
  {
    WeightsAreUnique(s, Centre(j), Centre(i), w0, w1, w2);
    Inverted(d);
    assert InverseDepth(s, Centre(j), Centre(i)) == 1.0 / d;
  }

  lemma Inverted(d: real)
    requires d > 0.0
    ensures 1.0 / d > 0.0 && 1.0 / (1.0 / d) == d
  {
  }

  lemma MixParts(pc: Vec, b0: real, b1: real, b2: real, u: Vec, v: Vec, w: Vec)
    requires pc == Mix(b0, b1, b2, u, v, w)
    ensures pc.x == b0 * u.x + b1 * v.x + b2 * w.x && pc.y == b0 * u.y + b1 * v.y + b2 * w.y
    ensures pc.z == b0 * u.z + b1 * v.z + b2 * w.z
  {
  }

  lemma DepthOfMix(b0: real, b1: real, b2: real, z0: real, z1: real, z2: real, d: real)
    requires Convex(b0, b1, b2) && z0 > 0.0 && z1 > 0.0 && z2 > 0.0 && d == b0 * z0 + b1 * z1 + b2 * z2
    ensures d > 0.0
  {
    Product(b0, z0);
    Product(b1, z1);
    Product(b2, z2);
    if b0 > 0.0 {
      PositiveProduct(b0, z0);
    } else if b1 > 0.0 {
      PositiveProduct(b1, z1);
    } else {
      PositiveProduct(b2, z2);
    }
  }

  lemma PositiveProduct(a: real, b: real)
    requires a > 0.0 && b > 0.0
    ensures a * b > 0.0
  {
  }

  lemma WeightsSum(b0: real, b1: real, b2: real, z0: real, z1: real, z2: real, d: real)
    requires Convex(b0, b1, b2) && z0 > 0.0 && z1 > 0.0 && z2 > 0.0 && d == b0 * z0 + b1 * z1 + b2 * z2 && d > 0.0
    ensures
      var w0, w1, w2 := ScreenWeight(b0, z0, d), ScreenWeight(b1, z1, d), ScreenWeight(b2, z2, d);
      && w0 >= 0.0 && w1 >= 0.0 && w2 >= 0.0 && w0 + w1 + w2 == 1.0
      && w0 / z0 + w1 / z1 + w2 / z2 == 1.0 / d
  {
    WeightOf(b0, z0, d);
    WeightOf(b1, z1, d);
    WeightOf(b2, z2, d);
    SumOver(b0 * z0, b1 * z1, b2 * z2, d, d);
    SumOver(b0, b1, b2, d, 1.0);
  }

  lemma WeightOf(b: real, z: real, d: real)
    requires b >= 0.0 && z > 0.0 && d > 0.0
    ensures ScreenWeight(b, z, d) >= 0.0 && ScreenWeight(b, z, d) / z == b / d
  {
    Product(b, z);
    Quotient(b * z, d);
    Cancel(b, z, d);
  }

  lemma WeightTimes(b: real, z: real, d: real)
    requires d > 0.0
    ensures ScreenWeight(b, z, d) * d == b * z
  {
  }

  lemma Cancelled(a: real, b: real, d: real)
    requires a * d == b * d && d != 0.0
    ensures a == b
  {
    assert a == a * d / d && b == b * d / d;
  }

  lemma SumOver(a: real, b: real, e: real, d: real, sum: real)
    requires d != 0.0 && a + b + e == sum
    ensures a / d + b / d + e / d == sum / d
  {
    assert a / d + b / d + e / d == (a + b + e) / d;
  }

  lemma Cancel(b: real, z: real, d: real)
    requires z > 0.0 && d > 0.0
    ensures b * z / d / z == b / d
  {
  }

  /** One coordinate of the rebuilt point. */
  lemma RebuiltBy(b0: real, b1: real, b2: real, x0: real, z0: real, x1: real, z1: real, x2: real, z2: real, d: real,
                  f: real, m: real, x: real, p0: real, p1: real, p2: real, p: real)
    requires d > 0.0 && d == b0 * z0 + b1 * z1 + b2 * z2 && p == b0 * x0 + b1 * x1 + b2 * x2 && (x - m) * d == f * p
    requires p0 * z0 == f * x0 + m * z0 && p1 * z1 == f * x1 + m * z1 && p2 * z2 == f * x2 + m * z2
    ensures ScreenWeight(b0, z0, d) * p0 + ScreenWeight(b1, z1, d) * p1 + ScreenWeight(b2, z2, d) * p2 == x
  {
    var w0, w1, w2 := ScreenWeight(b0, z0, d), ScreenWeight(b1, z1, d), ScreenWeight(b2, z2, d);
    WeightTimes(b0, z0, d);
    WeightTimes(b1, z1, d);
    WeightTimes(b2, z2, d);
    WeightedImage(b0, x0, z0, d, f, m, w0, p0);
    WeightedImage(b1, x1, z1, d, f, m, w1, p1);
    WeightedImage(b2, x2, z2, d, f, m, w2, p2);
    BackToPixel(x, m, f, d, p, b0 * x0, b1 * x1, b2 * x2, b0 * z0, b1 * z1, b2 * z2, w0 * p0, w1 * p1, w2 * p2);
  }

  lemma WeightedImage(b: real, x: real, z: real, d: real, f: real, m: real, w: real, p: real)
    requires w * d == b * z && p * z == f * x + m * z
    ensures w * p * d == f * (b * x) + m * (b * z)
  {
    assert w * p * d == (w * d) * p;
    assert (b * z) * p == b * (p * z);
    Spread(b, f, x, m, z);
  }

  lemma Spread(b: real, f: real, x: real, m: real, z: real)
    ensures b * (f * x + m * z) == f * (b * x) + m * (b * z)
  {
  }

  lemma BackToPixel(x: real, m: real, f: real, d: real, p: real, s0: real, s1: real, s2: real, t0: real, t1: real,
                    t2: real,
                    g0: real, g1: real, g2: real)
    requires d > 0.0 && s0 + s1 + s2 == p && t0 + t1 + t2 == d && (x - m) * d == f * p
    requires g0 * d == f * s0 + m * t0 && g1 * d == f * s1 + m * t1 && g2 * d == f * s2 + m * t2
    ensures g0 + g1 + g2 == x
  {
    Combine(f, s0, s1, s2, p);
    Combine(m, t0, t1, t2, d);
    assert (g0 + g1 + g2) * d == f * p + m * d == x * d;
    Cancelled(g0 + g1 + g2, x, d);
  }

  lemma Combine(f: real, s0: real, s1: real, s2: real, sum: real)
    requires s0 + s1 + s2 == sum
    ensures f * s0 + f * s1 + f * s2 == f * sum
  {
  }

  /** A ray that meets a triangle the program keeps has a fragment, of the ray's depth. */
  lemma MeetingCovers(c: Camera, p: Vec, q: Vec, r: Vec, i: int, j: int, d: real, b0: real, b1: real, b2: real)
    requires Framed(c) && Kept(Screen(Project(c, p), Project(c, q), Project(c, r)))
    requires Convex(b0, b1, b2) && Unproject(c, d, i, j) == Mix(b0, b1, b2, p, q, r)
    ensures FragmentOf(Screen(Project(c, p), Project(c, q), Project(c, r)), i, j) == Some(d)
  {
    var s := Screen(Project(c, p), Project(c, q), Project(c, r));
    KeptParts(s);
    RayInCamera(c, p, q, r, i, j, d, b0, b1, b2);
    MetCovers(c, s, ToCamera(c, p), ToCamera(c, q), ToCamera(c, r), i, j, d, b0, b1, b2);
  }

  lemma MetPixel(c: Camera, s: Screen, u: Vec, v: Vec, w: Vec, i: int, j: int, d: real, b0: real, b1: real, b2: real)
    requires Met(c, s, u, v, w, i, j, d, b0, b1, b2) && d > 0.0 && d == b0 * u.z + b1 * v.z + b2 * w.z
    ensures
      var w0, w1, w2 := ScreenWeight(b0, u.z, d), ScreenWeight(b1, v.z, d), ScreenWeight(b2, w.z, d);
      w0 * s.a.x + w1 * s.b.x + w2 * s.c.x == Centre(j) && w0 * s.a.y + w1 * s.b.y + w2 * s.c.y == Centre(i)
  {
    MetX(c, s, u, v, w, i, j, d, b0, b1, b2);
    MetY(c, s, u, v, w, i, j, d, b0, b1, b2);
  }

  /** The screen weights of the point where the ray meets the triangle. */
  lemma MetAt(c: Camera, s: Screen, u: Vec, v: Vec, w: Vec, i: int, j: int, d: real, b0: real, b1: real, b2: real)
    returns (w0: real, w1: real, w2: real)
    requires Met(c, s, u, v, w, i, j, d, b0, b1, b2)
    ensures d > 0.0 && w0 >= 0.0 && w1 >= 0.0 && w2 >= 0.0 && w0 + w1 + w2 == 1.0
    ensures w0 * s.a.x + w1 * s.b.x + w2 * s.c.x == Centre(j) && w0 * s.a.y + w1 * s.b.y + w2 * s.c.y == Centre(i)
    ensures s.a.z != 0.0 && s.b.z != 0.0 && s.c.z != 0.0 && w0 / s.a.z + w1 / s.b.z + w2 / s.c.z == 1.0 / d
  {
    MetDepth(c, s, u, v, w, i, j, d, b0, b1, b2);
    MetWeights(c, s, u, v, w, i, j, d, b0, b1, b2);
    MetPixel(c, s, u, v, w, i, j, d, b0, b1, b2);
    w0, w1, w2 := ScreenWeight(b0, u.z, d), ScreenWeight(b1, v.z, d), ScreenWeight(b2, w.z, d);
  }

  lemma MetCovers(c: Camera, s: Screen, u: Vec, v: Vec, w: Vec, i: int, j: int, d: real, b0: real, b1: real, b2: real)
    requires Met(c, s, u, v, w, i, j, d, b0, b1, b2) && Kept(s)
    ensures FragmentOf(s, i, j) == Some(d)
  {
    var w0, w1, w2 := MetAt(c, s, u, v, w, i, j, d, b0, b1, b2);
    WeightsCover(s, i, j, d, w0, w1, w2);
  }

  lemma FragmentMeets(c: Camera, p: Vec, q: Vec, r: Vec, i: int, j: int, d: real)
    requires Framed(c) && FragmentOf(Screen(Project(c, p), Project(c, q), Project(c, r)), i, j) == Some(d)
    ensures Meets(c, p, q, r, i, j, d)
  {
    var s := Screen(Project(c, p), Project(c, q), Project(c, r));
    var k := PixelWeights(s, Centre(j), Centre(i));
    var b0, b1, b2 := LandsBy(c, s, p, q, r, i, j, d, k);
    RayIsUnprojected(c, d, i, j);
  }

  /** The program has a fragment of depth `d` at a pixel exactly when the camera is shown the triangle's
      outer side and the ray through the pixel's centre meets it at that depth. */
  lemma FragmentIff(c: Camera, p: Vec, q: Vec, r: Vec, i: int, j: int, d: real)
    requires Framed(c)
    ensures FragmentOf(Screen(Project(c, p), Project(c, q), Project(c, r)), i, j) == Some(d)
       <==> Shown(c, p, q, r) && Meets(c, p, q, r, i, j, d)
  {
    KeptIsShown(c, p, q, r);
    if FragmentOf(Screen(Project(c, p), Project(c, q), Project(c, r)), i, j) == Some(d) {
      FragmentMeets(c, p, q, r, i, j, d);
    }
    if Shown(c, p, q, r) && Meets(c, p, q, r, i, j, d) {
      var b0, b1, b2 :| Convex(b0, b1, b2) && RayPoint(c, d, i, j) == Mix(b0, b1, b2, p, q, r);
      RayIsUnprojected(c, d, i, j);
      MeetingCovers(c, p, q, r, i, j, d, b0, b1, b2);
    }
  }

  // ---- the rig's cameras ------------------------------------------------------------------

  /** One component of the double cross product, for the three in cyclic order. */
  lemma TripleComponent(a0: real, a1: real, a2: real, b0: real, b1: real, b2: real, e0: real, e1: real, e2: real)
    ensures a1 * (b0 * e1 - b1 * e0) - a2 * (b2 * e0 - b0 * e2)
         == (a0 * e0 + a1 * e1 + a2 * e2) * b0 - (a0 * b0 + a1 * b1 + a2 * b2) * e0
  {
  }

  lemma TripleX(a: Vec, b: Vec, e: Vec)
    ensures Cross(a, Cross(b, e)).x == Dot(a, e) * b.x - Dot(a, b) * e.x
  {
    TripleComponent(a.x, a.y, a.z, b.x, b.y, b.z, e.x, e.y, e.z);
  }

  function Cycled(v: Vec): Vec {
    Vec(v.y, v.z, v.x)
  }

  lemma CycledDot(a: Vec, b: Vec)
    ensures Dot(Cycled(a), Cycled(b)) == Dot(a, b)
  {
  }

  lemma CycledCross(a: Vec, b: Vec)
    ensures Cross(Cycled(a), Cycled(b)) == Cycled(Cross(a, b))
  {
  }

  lemma TripleY(a: Vec, b: Vec, e: Vec)
    ensures Cross(a, Cross(b, e)).y == Dot(a, e) * b.y - Dot(a, b) * e.y
  {
    TripleX(Cycled(a), Cycled(b), Cycled(e));
    CycledCross(b, e);
    CycledCross(a, Cross(b, e));
    CycledDot(a, e);
    CycledDot(a, b);
  }

  lemma TripleZ(a: Vec, b: Vec, e: Vec)
    ensures Cross(a, Cross(b, e)).z == Dot(a, e) * b.z - Dot(a, b) * e.z
  {
    TripleY(Cycled(a), Cycled(b), Cycled(e));
    CycledCross(b, e);
    CycledCross(a, Cross(b, e));
    CycledDot(a, e);
    CycledDot(a, b);
  }

  lemma TripleProduct(a: Vec, b: Vec, e: Vec)
    ensures Cross(a, Cross(b, e)) == Minus(Scaled(Dot(a, e), b), Scaled(Dot(a, b), e))
  {
    TripleX(a, b, e);
    TripleY(a, b, e);
    TripleZ(a, b, e);
    SameVec(Cross(a, Cross(b, e)), Minus(Scaled(Dot(a, e), b), Scaled(Dot(a, b), e)));
  }

  lemma CrossTurns(a: Vec, b: Vec)
    ensures Cross(a, b) == Scaled(-1.0, Cross(b, a))
  {
  }

  /** Two orthogonal unit vectors and their cross product are a right-handed frame. */
  lemma CrossFrames(f: Vec, r: Vec)
    requires Dot(f, f) == 1.0 && Dot(r, r) == 1.0 && Dot(f, r) == 0.0
    ensures UnitFrame(r, Cross(f, r), f)
  {
    var d := Cross(f, r);
    Lagrange(f, r, f, r);
    DotCommutes(f, r);
    CrossAcross(f, r);
    assert Dot(r, d) == 0.0 && Dot(d, f) == 0.0;
    TripleProduct(r, f, r);
    TripleProduct(f, f, r);
    CrossTurns(d, f);
  }

  /** `look_at` builds such a frame around the eye, and what is above the target is above it in the
      image. */
  lemma LookAtFrames(eye: Vec, target: Vec, up: Vec, nf: real, nr: real, rest: Camera)
    requires nf > 0.0 && nf * nf == Dot(Minus(target, eye), Minus(target, eye))
    requires
      var f := Scaled(1.0 / nf, Minus(target, eye));
      var c := Cross(f, ChooseUp(f, up));
      nr > 0.0 && nr * nr == Dot(c, c)
    requires rest.fx > 0.0 && rest.fy > 0.0
    ensures
      var (r, d, f, t) := LookAt(eye, target, up, nf, nr);
      var c := rest.(right := r, down := d, forward := f, t := t);
      Framed(c) && EyeOf(c) == eye && Dot(c.down, ChooseUp(f, up)) < 0.0
  {
    var (r, d, f, t) := LookAt(eye, target, up, nf, nr);
    var v, u := Minus(target, eye), ChooseUp(f, up);
    UnitDot(v, nf);
    UnitDot(Cross(f, u), nr);
    CrossNormal(f, u, 1.0 / nr);
    LookAtIsOrthonormal(f, r);
    CrossFrames(f, r);
    Around(r, d, f, t, eye);
    ScaleBack(Cross(f, u), nr);
    BelowInImage(f, r, u, nr);
  }

  /** Translating by the negated coordinates of the eye puts the centre of projection there. */
  lemma Around(r: Vec, d: Vec, f: Vec, t: Vec, eye: Vec)
    requires Orthonormal(r, d, f) && t == Vec(-Dot(r, eye), -Dot(d, eye), -Dot(f, eye))
    ensures Plus(Plus(Scaled(Scaled(-1.0, t).x, r), Scaled(Scaled(-1.0, t).y, d)), Scaled(Scaled(-1.0, t).z, f)) == eye
  {
    var p := Vec(Dot(r, eye), Dot(d, eye), Dot(f, eye));
    assert Scaled(-1.0, t) == p;
    BackX(r, d, f, eye, p);
    BackY(r, d, f, eye, p);
    BackZ(r, d, f, eye, p);
  }

  lemma VolumeTurns(f: Vec, r: Vec, up: Vec)
    ensures Dot(Cross(f, r), up) == -Dot(r, Cross(f, up))
  {
  }

  lemma BelowInImage(f: Vec, r: Vec, up: Vec, nr: real)
    requires Cross(f, up) == Scaled(nr, r) && Dot(r, r) == 1.0 && nr > 0.0
    ensures Dot(Cross(f, r), up) == -nr
  {
    VolumeTurns(f, r, up);
    DotScaled(r, nr, r);
  }
}
