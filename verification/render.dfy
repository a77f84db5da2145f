/** Projection, coverage, perspective depth and back-projection of the multi-view renderer, over the
    reals (cad2ml/representations/render.py). */
module Render {
  import opened Wrappers
  import opened ZBuffer

  datatype Vec = Vec(x: real, y: real, z: real)

  function Dot(a: Vec, b: Vec): real { a.x * b.x + a.y * b.y + a.z * b.z }
  function Plus(a: Vec, b: Vec): Vec { Vec(a.x + b.x, a.y + b.y, a.z + b.z) }
  function Minus(a: Vec, b: Vec): Vec { Vec(a.x - b.x, a.y - b.y, a.z - b.z) }
  function Scaled(k: real, a: Vec): Vec { Vec(k * a.x, k * a.y, k * a.z) }
  function Cross(a: Vec, b: Vec): Vec {
    Vec(a.y * b.z - a.z * b.y, a.z * b.x - a.x * b.z, a.x * b.y - a.y * b.x)
  }

  // ---- cameras ----------------------------------------------------------------------------

  /** World-to-camera rotation by rows (right, down, forward), translation, and intrinsics. */
  datatype Camera = Camera(right: Vec, down: Vec, forward: Vec, t: Vec,
                           fx: real, fy: real, cx: real, cy: real, width: nat, height: nat)

  function ToCamera(c: Camera, v: Vec): Vec {
    Plus(Vec(Dot(c.right, v), Dot(c.down, v), Dot(c.forward, v)), c.t)
  }

  /** The transposed rotation applied to `v`. */
  function RotateBack(c: Camera, v: Vec): Vec {
    Plus(Plus(Scaled(v.x, c.right), Scaled(v.y, c.down)), Scaled(v.z, c.forward))
  }

  /** The columns of the rotation are orthonormal. */
  ghost predicate Orthonormal(r: Vec, d: Vec, f: Vec) {
    && r.x * r.x + d.x * d.x + f.x * f.x == 1.0
    && r.y * r.y + d.y * d.y + f.y * f.y == 1.0
    && r.z * r.z + d.z * d.z + f.z * f.z == 1.0
    && r.x * r.y + d.x * d.y + f.x * f.y == 0.0
    && r.y * r.z + d.y * d.z + f.y * f.z == 0.0
    && r.x * r.z + d.x * d.z + f.x * f.z == 0.0
  }

  /** `look_at` builds forward and right as unit vectors normal to each other, and down as their
      cross product; that makes the columns orthonormal too. */
  lemma LookAtIsOrthonormal(f: Vec, r: Vec)
    requires Dot(f, f) == 1.0 && Dot(r, r) == 1.0 && Dot(f, r) == 0.0
    ensures Orthonormal(r, Cross(f, r), f)
  {
    RowX(f, r);
    RowY(f, r);
    RowZ(f, r);
  }

  lemma RowX(f: Vec, r: Vec)
    requires Dot(f, f) == 1.0 && Dot(r, r) == 1.0 && Dot(f, r) == 0.0
    ensures var d := Cross(f, r); r.x * r.x + d.x * d.x + f.x * f.x == 1.0 && r.x * r.y + d.x * d.y + f.x * f.y == 0.0
  {
  }

  lemma RowY(f: Vec, r: Vec)
    requires Dot(f, f) == 1.0 && Dot(r, r) == 1.0 && Dot(f, r) == 0.0
    ensures var d := Cross(f, r); r.y * r.y + d.y * d.y + f.y * f.y == 1.0 && r.y * r.z + d.y * d.z + f.y * f.z == 0.0
  {
    var d := Cross(f, r);
    Diagonal(f.y, f.z, f.x, r.y, r.z, r.x, d.y);
    OffDiagonal(f.y, f.z, f.x, r.y, r.z, r.x, d.y, d.z);
  }

  lemma RowZ(f: Vec, r: Vec)
    requires Dot(f, f) == 1.0 && Dot(r, r) == 1.0 && Dot(f, r) == 0.0
    ensures var d := Cross(f, r); r.z * r.z + d.z * d.z + f.z * f.z == 1.0 && r.x * r.z + d.x * d.z + f.x * f.z == 0.0
  {
  }

  /** `d` is the first component of the cross product of two orthogonal unit vectors. */
  lemma Diagonal(fx: real, fy: real, fz: real, rx: real, ry: real, rz: real, d: real)
    requires fx * fx + fy * fy + fz * fz == 1.0 && rx * rx + ry * ry + rz * rz == 1.0
    requires fx * rx + fy * ry + fz * rz == 0.0 && d == fy * rz - fz * ry
    ensures rx * rx + d * d + fx * fx == 1.0
  {
  }

  lemma OffDiagonal(fx: real, fy: real, fz: real, rx: real, ry: real, rz: real, d: real, e: real)
    requires fx * fx + fy * fy + fz * fz == 1.0 && rx * rx + ry * ry + rz * rz == 1.0
    requires fx * rx + fy * ry + fz * rz == 0.0 && d == fy * rz - fz * ry && e == fz * rx - fx * rz
    ensures rx * ry + d * e + fx * fy == 0.0
  {
  }

  function Abs(x: real): real { if x < 0.0 then -x else x }

  /** The substitute `up` when the view direction is nearly vertical. */
  function ChooseUp(f: Vec, up: Vec): Vec {
    if Abs(Dot(f, up)) > 0.99 then Vec(0.0, 1.0, 0.0) else up
  }

  /** `look_at`; `nf` and `nr` are the two norms it divides by. */
  function LookAt(eye: Vec, target: Vec, up: Vec, nf: real, nr: real): (Vec, Vec, Vec, Vec)
    requires nf != 0.0 && nr != 0.0
  {
    var f := Scaled(1.0 / nf, Minus(target, eye));
    var r := Scaled(1.0 / nr, Cross(f, ChooseUp(f, up)));
    var d := Cross(f, r);
    (r, d, f, Vec(-Dot(r, eye), -Dot(d, eye), -Dot(f, eye)))
  }

  /** With the rig's vertical `up` the camera never degenerates: whatever the view direction, the
      right vector has a positive norm before it is normalised. */
  lemma RigNeverDegenerates(f: Vec)
    requires Dot(f, f) == 1.0
    ensures
      var c := Cross(f, ChooseUp(f, Vec(0.0, 0.0, 1.0)));
      Dot(c, c) > 0.0
  {
    var up := Vec(0.0, 0.0, 1.0);
    var c := Cross(f, ChooseUp(f, up));
    assert Dot(f, up) == f.z;
    if Abs(f.z) > 0.99 {
      assert c.x == -f.z;
    } else {
      NotVertical(f.x, f.y, f.z);
      assert c.x == f.y && c.y == -f.x;
    }
    SquaresAddUp(c.x, c.y, c.z);
  }

  lemma NotVertical(x: real, y: real, z: real)
    requires x * x + y * y + z * z == 1.0 && Abs(z) <= 0.99
    ensures x != 0.0 || y != 0.0
  {
    SquareBelow(z, 0.99);
    assert x == 0.0 ==> x * x == 0.0;
    assert y == 0.0 ==> y * y == 0.0;
  }

  lemma SquaresAddUp(x: real, y: real, z: real)
    requires x != 0.0 || y != 0.0 || z != 0.0
    ensures x * x + y * y + z * z > 0.0
  {
  }

  lemma Product(a: real, b: real)
    requires a >= 0.0 && b >= 0.0
    ensures a * b >= 0.0
  {
  }

  lemma SquareBelow(x: real, b: real)
    requires Abs(x) <= b < 1.0
    ensures x * x < 1.0
  {
    var y := Abs(x);
    Product(y, 1.0 - y);
    assert y * y <= y;
    assert x < 0.0 ==> x * x == (-x) * (-x);
  }

  /** The camera of `look_at` has orthonormal columns and sees the target straight ahead, at the
      distance of the eye. */
  lemma LookAtCamera(eye: Vec, target: Vec, up: Vec, nf: real, nr: real)
    requires nf > 0.0 && nf * nf == Dot(Minus(target, eye), Minus(target, eye))
    requires
      var f := Scaled(1.0 / nf, Minus(target, eye));
      var c := Cross(f, ChooseUp(f, up));
      nr > 0.0 && nr * nr == Dot(c, c)
    ensures
      var (r, d, f, t) := LookAt(eye, target, up, nf, nr);
      && Orthonormal(r, d, f)
      && forall fx, fy, cx, cy, w, h ::
           ToCamera(Camera(r, d, f, t, fx, fy, cx, cy, w, h), target) == Vec(0.0, 0.0, nf)
  {
    var (r, d, f, t) := LookAt(eye, target, up, nf, nr);
    var v := Minus(target, eye);
    var c := Cross(f, ChooseUp(f, up));
    UnitDot(v, nf);
    UnitDot(c, nr);
    CrossNormal(f, ChooseUp(f, up), 1.0 / nr);
    LookAtIsOrthonormal(f, r);
    assert v == Scaled(nf, f) by { ScaleBack(v, nf); }
    forall fx, fy, cx, cy, w, h
      ensures ToCamera(Camera(r, d, f, t, fx, fy, cx, cy, w, h), target) == Vec(0.0, 0.0, nf)
    {
      AlongForward(r, f, eye, nf);
      AlongForward(d, f, eye, nf);
      AlongForward(f, f, eye, nf);
      CrossAcross(f, r);
      assert target == Plus(eye, Scaled(nf, f));
    }
  }

  lemma ScaleBack(v: Vec, n: real)
    requires n != 0.0
    ensures v == Scaled(n, Scaled(1.0 / n, v))
  {
  }

  lemma UnitDot(v: Vec, n: real)
    requires n > 0.0 && n * n == Dot(v, v)
    ensures Dot(Scaled(1.0 / n, v), Scaled(1.0 / n, v)) == 1.0
  {
  }

  lemma CrossAcross(f: Vec, r: Vec)
    ensures Dot(Cross(f, r), f) == 0.0
  {
  }

  lemma CrossNormal(f: Vec, up: Vec, k: real)
    ensures Dot(f, Scaled(k, Cross(f, up))) == 0.0
  {
  }

  lemma AlongForward(a: Vec, f: Vec, eye: Vec, n: real)
    ensures Dot(a, Plus(eye, Scaled(n, f))) - Dot(a, eye) == n * Dot(a, f)
  {
  }

  // ---- triangles on screen ----------------------------------------------------------------

  datatype Mesh = Mesh(vertices: seq<Vec>, triangles: seq<(nat, nat, nat)>, faces: seq<nat>)

  ghost predicate ValidMesh(m: Mesh) {
    && |m.faces| == |m.triangles|
    && forall t :: 0 <= t < |m.triangles| ==>
         m.triangles[t].0 < |m.vertices| && m.triangles[t].1 < |m.vertices| && m.triangles[t].2 < |m.vertices|
  }

  /** A projected vertex: image coordinates and camera depth. */
  datatype Point = Point(x: real, y: real, z: real)

  /** The pinhole projection. A vertex in the camera plane has no image; its triangle is culled. */
  function Project(c: Camera, v: Vec): Point {
    Image(c, ToCamera(c, v))
  }

  function Image(c: Camera, p: Vec): Point {
    if p.z == 0.0 then Point(0.0, 0.0, 0.0)
    else Point(c.fx * p.x / p.z + c.cx, c.fy * p.y / p.z + c.cy, p.z)
  }

  datatype Screen = Screen(a: Point, b: Point, c: Point)

  function OnScreen(cam: Camera, m: Mesh, t: nat): Screen
    requires ValidMesh(m) && t < |m.triangles|
  {
    var (i, j, k) := m.triangles[t];
    Screen(Project(cam, m.vertices[i]), Project(cam, m.vertices[j]), Project(cam, m.vertices[k]))
  }

  function Area(s: Screen): real {
    (s.b.x - s.a.x) * (s.c.y - s.a.y) - (s.c.x - s.a.x) * (s.b.y - s.a.y)
  }

  function Min3(a: real, b: real, c: real): real {
    var m := if b < a then b else a;
    if c < m then c else m
  }

  function Max3(a: real, b: real, c: real): real {
    var m := if b > a then b else a;
    if c > m then c else m
  }

  /** Front-facing (negative image area) and wholly before the camera. */
  predicate Kept(s: Screen) {
    Area(s) < -0.000000000001 && Min3(s.a.z, s.b.z, s.c.z) > 0.000001
  }

  function Weight0(s: Screen, x: real, y: real): real
    requires Area(s) != 0.0
  {
    ((s.b.x - x) * (s.c.y - y) - (s.c.x - x) * (s.b.y - y)) / Area(s)
  }

  function Weight1(s: Screen, x: real, y: real): real
    requires Area(s) != 0.0
  {
    ((s.c.x - x) * (s.a.y - y) - (s.a.x - x) * (s.c.y - y)) / Area(s)
  }

  function Weight2(s: Screen, x: real, y: real): real
    requires Area(s) != 0.0
  {
    1.0 - Weight0(s, x, y) - Weight1(s, x, y)
  }

  predicate Inside(s: Screen, x: real, y: real)
    requires Area(s) != 0.0
  {
    Weight0(s, x, y) >= 0.0 && Weight1(s, x, y) >= 0.0 && Weight2(s, x, y) >= 0.0
  }

  function InverseDepth(s: Screen, x: real, y: real): real
    requires Area(s) != 0.0 && s.a.z != 0.0 && s.b.z != 0.0 && s.c.z != 0.0
  {
    Weight0(s, x, y) / s.a.z + Weight1(s, x, y) / s.b.z + Weight2(s, x, y) / s.c.z
  }

  /** Perspective-correct depth; the guarded division sends a non-positive value to zero. */
  function DepthAt(s: Screen, x: real, y: real): real
    requires Kept(s)
  {
    var iz := InverseDepth(s, x, y);
    if iz > 0.0 then 1.0 / iz else 0.0
  }

  function Centre(k: int): real { k as real + 0.5 }

  function FragmentOf(s: Screen, i: int, j: int): Option<real> {
    if Kept(s) && Inside(s, Centre(j), Centre(i)) then Some(DepthAt(s, Centre(j), Centre(i))) else None
  }

  // ---- coverage stays in the bounding box -------------------------------------------------

  /** The weights are barycentric coordinates: they rebuild the point. */
  lemma WeightsRebuild(s: Screen, x: real, y: real)
    requires Area(s) != 0.0
    ensures Weight0(s, x, y) * s.a.x + Weight1(s, x, y) * s.b.x + Weight2(s, x, y) * s.c.x == x
    ensures Weight0(s, x, y) * s.a.y + Weight1(s, x, y) * s.b.y + Weight2(s, x, y) * s.c.y == y
  {
    var area := Area(s);
    var n0 := (s.b.x - x) * (s.c.y - y) - (s.c.x - x) * (s.b.y - y);
    var n1 := (s.c.x - x) * (s.a.y - y) - (s.a.x - x) * (s.c.y - y);
    var w0, w1 := Weight0(s, x, y), Weight1(s, x, y);
    assert w0 * area == n0 && w1 * area == n1;
    Rebuild(area, w0, w1, n0, n1, s.a.x, s.b.x, s.c.x, x);
    Rebuild(area, w0, w1, n0, n1, s.a.y, s.b.y, s.c.y, y);
  }

  lemma Rebuild(area: real, w0: real, w1: real, n0: real, n1: real, a: real, b: real, c: real, x: real)
    requires area != 0.0 && w0 * area == n0 && w1 * area == n1
    requires n0 * a + n1 * b + (area - n0 - n1) * c == x * area
    ensures w0 * a + w1 * b + (1.0 - w0 - w1) * c == x
  {
  }

  lemma Between(w0: real, w1: real, w2: real, a: real, b: real, c: real, lo: real, hi: real)
    requires w0 >= 0.0 && w1 >= 0.0 && w2 >= 0.0 && w0 + w1 + w2 == 1.0
    requires lo <= a <= hi && lo <= b <= hi && lo <= c <= hi
    ensures lo <= w0 * a + w1 * b + w2 * c <= hi
  {
    Product(w0, a - lo);
    Product(w1, b - lo);
    Product(w2, c - lo);
    Product(w0, hi - a);
    Product(w1, hi - b);
    Product(w2, hi - c);
    SumToOne(w0, w1, w2, lo);
    SumToOne(w0, w1, w2, hi);
  }

  lemma SumToOne(w0: real, w1: real, w2: real, k: real)
    requires w0 + w1 + w2 == 1.0
    ensures w0 * k + w1 * k + w2 * k == k
  {
  }

  function Clip(v: int, hi: nat): nat {
    if v < 0 then 0 else if v > hi then hi else v
  }

  function Ceil(x: real): int { -((-x).Floor) }

  function Low(a: real, b: real, c: real, size: nat): nat
    requires size > 0
  {
    Clip((Min3(a, b, c) - 0.5).Floor, size - 1)
  }

  function High(a: real, b: real, c: real, size: nat): nat
    requires size > 0
  {
    Clip(Ceil(Max3(a, b, c) - 0.5), size - 1)
  }

  function BoxOf(s: Screen, h: nat, w: nat): Box
    requires h > 0 && w > 0
  {
    Box(Low(s.a.y, s.b.y, s.c.y, h), High(s.a.y, s.b.y, s.c.y, h),
        Low(s.a.x, s.b.x, s.c.x, w), High(s.a.x, s.b.x, s.c.x, w))
  }

  lemma ClipKeeps(a: real, b: real, c: real, k: nat, size: nat)
    requires k < size && Min3(a, b, c) <= Centre(k) <= Max3(a, b, c)
    ensures Low(a, b, c, size) <= k <= High(a, b, c, size)
  {
  }

  lemma InsideBounds(s: Screen, x: real, y: real)
    requires Area(s) != 0.0 && Inside(s, x, y)
    ensures Min3(s.a.x, s.b.x, s.c.x) <= x <= Max3(s.a.x, s.b.x, s.c.x)
    ensures Min3(s.a.y, s.b.y, s.c.y) <= y <= Max3(s.a.y, s.b.y, s.c.y)
  {
    WeightsRebuild(s, x, y);
    MixBounds(Weight0(s, x, y), Weight1(s, x, y), Weight2(s, x, y), s.a.x, s.b.x, s.c.x, x);
    MixBounds(Weight0(s, x, y), Weight1(s, x, y), Weight2(s, x, y), s.a.y, s.b.y, s.c.y, y);
  }

  lemma MixBounds(w0: real, w1: real, w2: real, a: real, b: real, c: real, v: real)
    requires w0 >= 0.0 && w1 >= 0.0 && w2 >= 0.0 && w2 == 1.0 - w0 - w1 && w0 * a + w1 * b + w2 * c == v
    ensures Min3(a, b, c) <= v <= Max3(a, b, c)
  {
    Between(w0, w1, w2, a, b, c, Min3(a, b, c), Max3(a, b, c));
  }

  /** Floor, ceil and clip never drop a covered pixel. */
  lemma CoveredInBox(s: Screen, i: nat, j: nat, h: nat, w: nat)
    requires i < h && j < w && FragmentOf(s, i, j).Some?
    ensures InBox(BoxOf(s, h, w), i, j)
  {
    InsideBounds(s, Centre(j), Centre(i));
    ClipKeeps(s.a.x, s.b.x, s.c.x, j, w);
    ClipKeeps(s.a.y, s.b.y, s.c.y, i, h);
  }

  // ---- depth and back-projection ----------------------------------------------------------

  lemma Quotient(a: real, b: real)
    requires a >= 0.0 && b > 0.0
    ensures a / b >= 0.0 && (a > 0.0 ==> a / b > 0.0)
  {
  }

  /** A covered pixel has a positive inverse depth, so its depth is positive and never the background. */
  lemma DepthPositive(s: Screen, x: real, y: real)
    requires Kept(s) && Inside(s, x, y)
    ensures DepthAt(s, x, y) > 0.0 && DepthAt(s, x, y) * InverseDepth(s, x, y) == 1.0
  {
    Quotient(Weight0(s, x, y), s.a.z);
    Quotient(Weight1(s, x, y), s.b.z);
    Quotient(Weight2(s, x, y), s.c.z);
    assert Weight0(s, x, y) > 0.0 || Weight1(s, x, y) > 0.0 || Weight2(s, x, y) > 0.0;
    Reciprocal(InverseDepth(s, x, y));
  }

  lemma Reciprocal(x: real)
    requires x > 0.0
    ensures 1.0 / x > 0.0 && (1.0 / x) * x == 1.0
  {
  }

  function Unproject(c: Camera, d: real, i: int, j: int): Vec
    requires c.fx != 0.0 && c.fy != 0.0
  {
    var pc := Vec((Centre(j) - c.cx) / c.fx * d, (Centre(i) - c.cy) / c.fy * d, d);
    RotateBack(c, Minus(pc, c.t))
  }

  function Mix(b0: real, b1: real, b2: real, p: Vec, q: Vec, r: Vec): Vec {
    Plus(Plus(Scaled(b0, p), Scaled(b1, q)), Scaled(b2, r))
  }

  ghost predicate Convex(b0: real, b1: real, b2: real) {
    b0 >= 0.0 && b1 >= 0.0 && b2 >= 0.0 && b0 + b1 + b2 == 1.0
  }

  /** The camera transform keeps affine combinations. */
  lemma ToCameraMixes(c: Camera, b0: real, b1: real, b2: real, p: Vec, q: Vec, r: Vec)
    requires b0 + b1 + b2 == 1.0
    ensures ToCamera(c, Mix(b0, b1, b2, p, q, r)) == Mix(b0, b1, b2, ToCamera(c, p), ToCamera(c, q), ToCamera(c, r))
  {
    DotMixes(c.right, b0, b1, b2, p, q, r, c.t.x);
    DotMixes(c.down, b0, b1, b2, p, q, r, c.t.y);
    DotMixes(c.forward, b0, b1, b2, p, q, r, c.t.z);
  }

  lemma DotMixes(a: Vec, b0: real, b1: real, b2: real, p: Vec, q: Vec, r: Vec, t: real)
    requires b0 + b1 + b2 == 1.0
    ensures Dot(a, Mix(b0, b1, b2, p, q, r)) + t == b0 * (Dot(a, p) + t) + b1 * (Dot(a, q) + t) + b2 * (Dot(a, r) + t)
  {
    SumToOne(b0, b1, b2, t);
    DotScaled(a, b0, p);
    DotScaled(a, b1, q);
    DotScaled(a, b2, r);
    DotPlus(a, Scaled(b0, p), Scaled(b1, q));
    DotPlus(a, Plus(Scaled(b0, p), Scaled(b1, q)), Scaled(b2, r));
  }

  lemma DotScaled(a: Vec, k: real, p: Vec)
    ensures Dot(a, Scaled(k, p)) == k * Dot(a, p)
  {
  }

  lemma DotPlus(a: Vec, p: Vec, q: Vec)
    ensures Dot(a, Plus(p, q)) == Dot(a, p) + Dot(a, q)
  {
  }

  /** The transposed rotation undoes the camera transform. */
  lemma RotateBackUndoes(c: Camera, v: Vec)
    requires Orthonormal(c.right, c.down, c.forward)
    ensures RotateBack(c, Minus(ToCamera(c, v), c.t)) == v
  {
    var r, d, f := c.right, c.down, c.forward;
    var p := Minus(ToCamera(c, v), c.t);
    assert p == Vec(Dot(r, v), Dot(d, v), Dot(f, v));
    BackX(r, d, f, v, p);
    BackY(r, d, f, v, p);
    BackZ(r, d, f, v, p);
  }

  lemma BackX(r: Vec, d: Vec, f: Vec, v: Vec, p: Vec)
    requires Orthonormal(r, d, f) && p == Vec(Dot(r, v), Dot(d, v), Dot(f, v))
    ensures p.x * r.x + p.y * d.x + p.z * f.x == v.x
  {
  }

  lemma BackY(r: Vec, d: Vec, f: Vec, v: Vec, p: Vec)
    requires Orthonormal(r, d, f) && p == Vec(Dot(r, v), Dot(d, v), Dot(f, v))
    ensures p.x * r.y + p.y * d.y + p.z * f.y == v.y
  {
  }

  lemma BackZ(r: Vec, d: Vec, f: Vec, v: Vec, p: Vec)
    requires Orthonormal(r, d, f) && p == Vec(Dot(r, v), Dot(d, v), Dot(f, v))
    ensures p.x * r.z + p.y * d.z + p.z * f.z == v.z
  {
  }

  lemma DepthSum(w0: real, w1: real, w2: real, z0: real, z1: real, z2: real, d: real, b0: real, b1: real, b2: real)
    requires z0 != 0.0 && z1 != 0.0 && z2 != 0.0 && w0 + w1 + w2 == 1.0
    requires b0 == w0 / z0 * d && b1 == w1 / z1 * d && b2 == w2 / z2 * d
    requires d * (w0 / z0 + w1 / z1 + w2 / z2) == 1.0
    ensures b0 + b1 + b2 == 1.0
    ensures b0 * z0 + b1 * z1 + b2 * z2 == d
  {
  }

  /** Barycentric weights on screen and convex weights in space of a covered pixel. */
  datatype Weights = Weights(w0: real, w1: real, w2: real, b0: real, b1: real, b2: real)

  /** What the two sets of weights of point (x, y) at depth `d` satisfy. */
  ghost predicate Weighs(k: Weights, s: Screen, x: real, y: real, d: real) {
    && s.a.z > 0.0 && s.b.z > 0.0 && s.c.z > 0.0
    && k.w0 + k.w1 + k.w2 == 1.0
    && k.w0 * s.a.x + k.w1 * s.b.x + k.w2 * s.c.x == x
    && k.w0 * s.a.y + k.w1 * s.b.y + k.w2 * s.c.y == y
    && k.b0 == k.w0 / s.a.z * d && k.b1 == k.w1 / s.b.z * d && k.b2 == k.w2 / s.c.z * d
    && Convex(k.b0, k.b1, k.b2)
    && k.b0 * s.a.z + k.b1 * s.b.z + k.b2 * s.c.z == d
  }

  lemma PixelWeights(s: Screen, x: real, y: real) returns (k: Weights)
    requires Kept(s) && Inside(s, x, y)
    ensures Weighs(k, s, x, y, DepthAt(s, x, y))
  {
    DepthPositive(s, x, y);
    WeightsRebuild(s, x, y);
    k := SpaceWeights(s, x, y, DepthAt(s, x, y), Weight0(s, x, y), Weight1(s, x, y), Weight2(s, x, y));
  }

  lemma SpaceWeights(s: Screen, x: real, y: real, d: real, w0: real, w1: real, w2: real) returns (k: Weights)
    requires s.a.z > 0.0 && s.b.z > 0.0 && s.c.z > 0.0 && d > 0.0
    requires w0 >= 0.0 && w1 >= 0.0 && w2 >= 0.0 && w0 + w1 + w2 == 1.0
    requires w0 * s.a.x + w1 * s.b.x + w2 * s.c.x == x && w0 * s.a.y + w1 * s.b.y + w2 * s.c.y == y
    requires d * (w0 / s.a.z + w1 / s.b.z + w2 / s.c.z) == 1.0
    ensures Weighs(k, s, x, y, d)
  {
    var b0, b1, b2 := w0 / s.a.z * d, w1 / s.b.z * d, w2 / s.c.z * d;
    Share(w0, s.a.z, d);
    Share(w1, s.b.z, d);
    Share(w2, s.c.z, d);
    DepthSum(w0, w1, w2, s.a.z, s.b.z, s.c.z, d, b0, b1, b2);
    k := Weights(w0, w1, w2, b0, b1, b2);
  }

  lemma Share(w: real, z: real, d: real)
    requires w >= 0.0 && z > 0.0 && d > 0.0
    ensures w / z * d >= 0.0
  {
  }

  /** Unprojecting the mixed camera-space point gives the mixed world point. */
  lemma UnprojectMixes(c: Camera, b0: real, b1: real, b2: real, p: Vec, q: Vec, r: Vec, d: real, i: int, j: int,
                       pc: Vec)
    requires Orthonormal(c.right, c.down, c.forward) && c.fx != 0.0 && c.fy != 0.0 && b0 + b1 + b2 == 1.0
    requires pc == Vec((Centre(j) - c.cx) / c.fx * d, (Centre(i) - c.cy) / c.fy * d, d)
    requires pc == Mix(b0, b1, b2, ToCamera(c, p), ToCamera(c, q), ToCamera(c, r))
    ensures Unproject(c, d, i, j) == Mix(b0, b1, b2, p, q, r)
  {
    var v := Mix(b0, b1, b2, p, q, r);
    assert Unproject(c, d, i, j) == RotateBack(c, Minus(pc, c.t));
    assert pc == ToCamera(c, v) by { ToCameraMixes(c, b0, b1, b2, p, q, r); }
    RotateBackUndoes(c, v);
  }

  /** Back-projection is exact: a covered pixel, unprojected at its stored depth, lies on the
      triangle, as a convex combination of its three vertices. */
  lemma UnprojectLands(c: Camera, m: Mesh, t: nat, i: int, j: int, d: real) returns (b0: real, b1: real, b2: real)
    requires ValidMesh(m) && t < |m.triangles|
    requires Orthonormal(c.right, c.down, c.forward) && c.fx != 0.0 && c.fy != 0.0
    requires FragmentOf(OnScreen(c, m, t), i, j) == Some(d)
    ensures Convex(b0, b1, b2)
    ensures
      var (p, q, r) := m.triangles[t];
      Unproject(c, d, i, j) == Mix(b0, b1, b2, m.vertices[p], m.vertices[q], m.vertices[r])
  {
    var s := OnScreen(c, m, t);
    var (p, q, r) := m.triangles[t];
    var vp, vq, vr := m.vertices[p], m.vertices[q], m.vertices[r];
    var k := PixelWeights(s, Centre(j), Centre(i));
    b0, b1, b2 := LandsBy(c, s, vp, vq, vr, i, j, d, k);
  }

  lemma LandsBy(c: Camera, s: Screen, p: Vec, q: Vec, r: Vec, i: int, j: int, d: real, k: Weights)
    returns (b0: real, b1: real, b2: real)
    requires Orthonormal(c.right, c.down, c.forward) && c.fx != 0.0 && c.fy != 0.0
    requires s == Screen(Project(c, p), Project(c, q), Project(c, r)) && Weighs(k, s, Centre(j), Centre(i), d)
    ensures Convex(b0, b1, b2) && Unproject(c, d, i, j) == Mix(b0, b1, b2, p, q, r)
  {
    b0, b1, b2 := k.b0, k.b1, k.b2;
    var pc := Vec((Centre(j) - c.cx) / c.fx * d, (Centre(i) - c.cy) / c.fy * d, d);
    CameraMix(c, s, ToCamera(c, p), ToCamera(c, q), ToCamera(c, r), Centre(j), Centre(i), d, k, pc);
    UnprojectMixes(c, b0, b1, b2, p, q, r, d, i, j, pc);
  }

  lemma CameraMix(c: Camera, s: Screen, u: Vec, v: Vec, w: Vec, x: real, y: real, d: real, k: Weights, pc: Vec)
    requires c.fx != 0.0 && c.fy != 0.0 && Weighs(k, s, x, y, d)
    requires s == Screen(Image(c, u), Image(c, v), Image(c, w))
    requires pc == Vec((x - c.cx) / c.fx * d, (y - c.cy) / c.fy * d, d)
    ensures pc == Mix(k.b0, k.b1, k.b2, u, v, w)
  {
    RayX(c, s, u, v, w, x, y, d, k);
    RayY(c, s, u, v, w, x, y, d, k);
    RayZ(c, s, u, v, w, x, y, d, k);
    Components(pc, k.b0, k.b1, k.b2, u, v, w);
  }

  lemma RayX(c: Camera, s: Screen, u: Vec, v: Vec, w: Vec, x: real, y: real, d: real, k: Weights)
    requires c.fx != 0.0 && Weighs(k, s, x, y, d) && s == Screen(Image(c, u), Image(c, v), Image(c, w))
    ensures k.b0 * u.x + k.b1 * v.x + k.b2 * w.x == (x - c.cx) / c.fx * d
  {
  }

  lemma RayY(c: Camera, s: Screen, u: Vec, v: Vec, w: Vec, x: real, y: real, d: real, k: Weights)
    requires c.fy != 0.0 && Weighs(k, s, x, y, d) && s == Screen(Image(c, u), Image(c, v), Image(c, w))
    ensures k.b0 * u.y + k.b1 * v.y + k.b2 * w.y == (y - c.cy) / c.fy * d
  {
  }

  lemma RayZ(c: Camera, s: Screen, u: Vec, v: Vec, w: Vec, x: real, y: real, d: real, k: Weights)
    requires Weighs(k, s, x, y, d) && s == Screen(Image(c, u), Image(c, v), Image(c, w))
    ensures k.b0 * u.z + k.b1 * v.z + k.b2 * w.z == d
  {
  }

  lemma Components(pc: Vec, b0: real, b1: real, b2: real, u: Vec, v: Vec, w: Vec)
    requires b0 * u.x + b1 * v.x + b2 * w.x == pc.x
    requires b0 * u.y + b1 * v.y + b2 * w.y == pc.y
    requires b0 * u.z + b1 * v.z + b2 * w.z == pc.z
    ensures pc == Mix(b0, b1, b2, u, v, w)
  {
  }
}
