/**
 * The two `Raytracer::hits` overloads of raytracer.cpp: the ray-sphere test
 * (the smaller root of a quadratic, accepted inside a closed interval) and
 * the ray-triangle test (Cramer's rule on a 3x3 system, accepted inside a
 * half-open interval and inside the barycentric bounds).
 *
 * `hits` reports a hit by returning `true` and writing `return_t`; on every
 * `false` path it leaves `return_t` alone. Here the result is an
 * `Option<real>`: `Some(t)` for `true` with `return_t == t`, `None` for `false`.
 *
 * The `AsWritten` functions are the tests on a nonzero divisor (`2a` and `M`),
 * where every quotient is a real. `HitsSphereFloat` and `HitsTriangleFloat`
 * are the tests as written for every input, over floats with NaN and
 * infinities: they agree with the `AsWritten` functions on a nonzero divisor
 * and report a NaN hit for a zero direction or a collapsed triangle.
 * `HitsSphere` and `HitsTriangle` add the guard the source lacks (no hit for
 * a zero direction or a singular system); the rest of the ray tracer uses them.
 */
module Hits {
  import opened Wrappers
  import opened RealMath
  import opened Vectors
  import opened SceneData
  import Floats

  /** `origin + direction * t`. */
  function RayPoint(origin: Vec3, d: Vec3, t: real): Vec3 { Add(origin, Scale(d, t)) }

  // ---------------------------------------------------------------- sphere

  /** The quadratic `a t^2 + b t + c` whose roots are the ray parameters on the sphere. */
  datatype Quadratic = Quadratic(a: real, b: real, c: real)

  /** `a`, `b`, `c` as `hits` computes them from `oc = origin - center`. */
  function SphereQuadratic(origin: Vec3, d: Vec3, s: Sphere): Quadratic
  {
    var oc := Sub(origin, s.center);
    Quadratic(Dot(d, d), Dot(ScaleLeft(2.0, d), oc), Dot(oc, oc) - s.radius * s.radius)
  }

  function Discriminant(q: Quadratic): real { q.b * q.b - 4.0 * q.a * q.c }

  /** The sphere test as written; a zero direction makes it divide by zero. */
  function HitsSphereAsWritten(lib: MathLib, origin: Vec3, d: Vec3, s: Sphere, minT: real, maxT: real): Option<real>
    requires Dot(d, d) != 0.0
  {
    var q := SphereQuadratic(origin, d, s);
    var disc := Discriminant(q);
    if disc < 0.0 then None
    else
      var sqrtDisc := lib.sqrt(disc);
      var t1 := lib.fdiv(-q.b + sqrtDisc, 2.0 * q.a);
      var t2 := lib.fdiv(-q.b - sqrtDisc, 2.0 * q.a);
      var lesser := Min(t1, t2);
      if lesser > maxT || lesser < minT then None else Some(lesser)
  }

  /** The sphere test with a zero direction reported as a miss. */
  function HitsSphere(lib: MathLib, origin: Vec3, d: Vec3, s: Sphere, minT: real, maxT: real): Option<real>
  {
    if Dot(d, d) == 0.0 then None else HitsSphereAsWritten(lib, origin, d, s, minT, maxT)
  }

  /** The point at parameter `t` lies on the sphere's surface. */
  ghost predicate OnSphere(s: Sphere, origin: Vec3, d: Vec3, t: real)
  {
    var p := Sub(RayPoint(origin, d, t), s.center);
    Dot(p, p) == s.radius * s.radius
  }

  /** `t` is the first parameter at which the ray (as a full line) meets the sphere. */
  ghost predicate FirstOnSphere(s: Sphere, origin: Vec3, d: Vec3, t: real)
  {
    OnSphere(s, origin, d, t) && forall t' :: OnSphere(s, origin, d, t') ==> t <= t'
  }

  /** The distance equation along the ray is the quadratic of `hits`. */
  lemma SphereEquation(origin: Vec3, d: Vec3, s: Sphere, t: real)
    ensures var q := SphereQuadratic(origin, d, s);
      OnSphere(s, origin, d, t) <==> q.a * t * t + q.b * t + q.c == 0.0
  {
    var oc := Sub(origin, s.center);
    assert Sub(RayPoint(origin, d, t), s.center) == Add(oc, Scale(d, t));
    DotAlongRay(oc, d, t);
    assert Dot(ScaleLeft(2.0, d), oc) == 2.0 * Dot(d, oc);
  }

  /** Completing the square: `4a (a t^2 + b t + c) = (2at + b)^2 - disc`. */
  lemma CompleteSquare(q: Quadratic, t: real)
    ensures Prod(4.0 * q.a, q.a * t * t + q.b * t + q.c) == Sq(2.0 * q.a * t + q.b) - Discriminant(q)
  {
  }

  /** For `a != 0`, `t` is a root exactly when `(2at + b)^2` is the discriminant. */
  lemma {:induction false} RootCondition(q: Quadratic, t: real)
    requires q.a != 0.0
    ensures q.a * t * t + q.b * t + q.c == 0.0 <==> Sq(2.0 * q.a * t + q.b) == Discriminant(q)
  {
    CompleteSquare(q, t);
    if Sq(2.0 * q.a * t + q.b) == Discriminant(q) {
      ProdZero(4.0 * q.a, q.a * t * t + q.b * t + q.c);
    }
  }

  /** A number whose square is `r * r` (with `r >= 0`) is `r` or `-r`, so it is at least `-r`. */
  lemma {:induction false} SquareRootBelow(u: real, r: real)
    requires r >= 0.0 && Sq(u) == Sq(r)
    ensures -r <= u <= r
  {
    if u >= 0.0 {
      SquareInjective(u, r);
    } else {
      assert Sq(-u) == Sq(u);
      SquareInjective(-u, r);
    }
  }

  /** `(-b - sqrt(disc)) / 2a`, the smaller of the two roots `hits` computes. */
  function LesserRoot(lib: MathLib, q: Quadratic): real
  {
    lib.fdiv(-q.b - lib.sqrt(Discriminant(q)), 2.0 * q.a)
  }

  /** The smaller root: `2 a t2 + b == -sqrt(disc)`, and `t2 <= t1`. */
  lemma {:induction false} SmallerRoot(lib: MathLib, q: Quadratic)
    requires Valid(lib) && q.a > 0.0 && Discriminant(q) >= 0.0
    ensures var sqrtDisc := lib.sqrt(Discriminant(q));
      var t1 := lib.fdiv(-q.b + sqrtDisc, 2.0 * q.a);
      && 2.0 * q.a * LesserRoot(lib, q) + q.b == -sqrtDisc
      && Min(t1, LesserRoot(lib, q)) == LesserRoot(lib, q)
  {
    var sqrtDisc := lib.sqrt(Discriminant(q));
    assert sqrtDisc >= 0.0;
    var t1 := lib.fdiv(-q.b + sqrtDisc, 2.0 * q.a);
    var t2 := LesserRoot(lib, q);
    DivMul(lib, -q.b + sqrtDisc, 2.0 * q.a);
    DivMul(lib, -q.b - sqrtDisc, 2.0 * q.a);
    assert Prod(t1, 2.0 * q.a) == -q.b + sqrtDisc;
    assert Prod(t2, 2.0 * q.a) == -q.b - sqrtDisc;
    assert Prod(t1 - t2, 2.0 * q.a) == 2.0 * sqrtDisc;
    assert Prod(t2 - t1, 2.0 * q.a) == -Prod(t1 - t2, 2.0 * q.a);
    if t1 < t2 {
      ProdPositive(t2 - t1, 2.0 * q.a);
    }
  }

  /** A negative discriminant: the quadratic has no root, so the ray's line misses the sphere. */
  lemma {:induction false} NoRoot(q: Quadratic, t: real)
    requires q.a != 0.0 && Discriminant(q) < 0.0
    ensures q.a * t * t + q.b * t + q.c != 0.0
  {
    RootCondition(q, t);
    SquareNonnegative(2.0 * q.a * t + q.b);
  }

  /** Every root is at least the lesser root. */
  lemma {:induction false} RootsAbove(lib: MathLib, origin: Vec3, d: Vec3, s: Sphere, t: real)
    requires Valid(lib)
    requires SphereQuadratic(origin, d, s).a > 0.0 && Discriminant(SphereQuadratic(origin, d, s)) >= 0.0
    requires OnSphere(s, origin, d, t)
    ensures LesserRoot(lib, SphereQuadratic(origin, d, s)) <= t
  {
    var q := SphereQuadratic(origin, d, s);
    var sqrtDisc := lib.sqrt(Discriminant(q));
    var t2 := LesserRoot(lib, q);
    assert sqrtDisc >= 0.0 && Sq(sqrtDisc) == Discriminant(q);
    SmallerRoot(lib, q);
    SphereEquation(origin, d, s, t);
    RootCondition(q, t);
    SquareRootBelow(2.0 * q.a * t + q.b, sqrtDisc);
    assert Prod(2.0 * q.a, t2 - t) == -(2.0 * q.a * t + q.b) - sqrtDisc;
    if t < t2 {
      ProdPositive(2.0 * q.a, t2 - t);
    }
  }

  /** With a nonnegative discriminant the lesser root is the first point on the sphere. */
  lemma {:induction false} LesserRootFirst(lib: MathLib, origin: Vec3, d: Vec3, s: Sphere)
    requires Valid(lib)
    requires SphereQuadratic(origin, d, s).a > 0.0 && Discriminant(SphereQuadratic(origin, d, s)) >= 0.0
    ensures FirstOnSphere(s, origin, d, LesserRoot(lib, SphereQuadratic(origin, d, s)))
  {
    var q := SphereQuadratic(origin, d, s);
    var sqrtDisc := lib.sqrt(Discriminant(q));
    var t2 := LesserRoot(lib, q);
    assert sqrtDisc >= 0.0 && Sq(sqrtDisc) == Discriminant(q);
    SmallerRoot(lib, q);
    assert Sq(2.0 * q.a * t2 + q.b) == Sq(sqrtDisc);
    RootCondition(q, t2);
    SphereEquation(origin, d, s, t2);
    forall t' | OnSphere(s, origin, d, t') ensures t2 <= t' {
      RootsAbove(lib, origin, d, s, t');
    }
  }

  /**
   * The sphere test accepts exactly the first point where the ray's line meets
   * the sphere, and only when that parameter lies in `[minT, maxT]`. Any other
   * outcome, including a discriminant below zero, reports no hit.
   */
  lemma {:induction false} SphereHitExact(lib: MathLib, origin: Vec3, d: Vec3, s: Sphere, minT: real, maxT: real)
    requires Valid(lib) && Dot(d, d) != 0.0
    ensures var r := HitsSphereAsWritten(lib, origin, d, s, minT, maxT);
      && (r.Some? ==> FirstOnSphere(s, origin, d, r.value) && minT <= r.value <= maxT)
      && (r.None? ==> forall t :: FirstOnSphere(s, origin, d, t) ==> t < minT || maxT < t)
  {
    SphereTestOutcome(lib, origin, d, s, minT, maxT);
    var q := SphereQuadratic(origin, d, s);
    DotSelf(d);
    if Discriminant(q) < 0.0 {
      forall t | FirstOnSphere(s, origin, d, t) ensures false {
        SphereEquation(origin, d, s, t);
        NoRoot(q, t);
      }
    } else {
      LesserRootFirst(lib, origin, d, s);
      var t2 := LesserRoot(lib, q);
      forall t | FirstOnSphere(s, origin, d, t) ensures t == t2 {
      }
    }
  }

  /**
   * The branches of the sphere test: no hit below a zero discriminant;
   * otherwise the hit is the lesser root exactly when it lies in `[minT, maxT]`.
   */
  lemma {:induction false} SphereTestOutcome(lib: MathLib, origin: Vec3, d: Vec3, s: Sphere, minT: real, maxT: real)
    requires Valid(lib) && Dot(d, d) != 0.0
    ensures var q := SphereQuadratic(origin, d, s);
      var r := HitsSphereAsWritten(lib, origin, d, s, minT, maxT);
      && (Discriminant(q) < 0.0 ==> r.None?)
      && (Discriminant(q) >= 0.0 ==>
            r == if minT <= LesserRoot(lib, q) <= maxT then Some(LesserRoot(lib, q)) else None)
  {
    var q := SphereQuadratic(origin, d, s);
    DotSelf(d);
    if Discriminant(q) >= 0.0 {
      SmallerRoot(lib, q);
    }
  }

  /** The guarded test keeps the same meaning, and never hits along a zero direction. */
  lemma {:induction false} GuardedSphereHit(lib: MathLib, origin: Vec3, d: Vec3, s: Sphere, minT: real, maxT: real)
    requires Valid(lib)
    ensures var r := HitsSphere(lib, origin, d, s, minT, maxT);
      && (r.Some? ==> Dot(d, d) != 0.0 && FirstOnSphere(s, origin, d, r.value) && minT <= r.value <= maxT)
      && (Dot(d, d) != 0.0 && r.None? ==> forall t :: FirstOnSphere(s, origin, d, t) ==> t < minT || maxT < t)
  {
    if Dot(d, d) != 0.0 {
      SphereHitExact(lib, origin, d, s, minT, maxT);
      assert HitsSphere(lib, origin, d, s, minT, maxT) == HitsSphereAsWritten(lib, origin, d, s, minT, maxT);
    } else {
      assert HitsSphere(lib, origin, d, s, minT, maxT) == None;
    }
  }

  // ---------------------------------------------------------------- triangle

  /**
   * The system `beta (p0 - p1) + gamma (p0 - p2) + t d = p0 - origin`: its
   * determinant `M` and the three numerators of Cramer's rule, named after the
   * source's variables.
   */
  datatype Cramer = Cramer(m: real, tNum: real, gammaNum: real, betaNum: real)

  function TriangleSystem(origin: Vec3, dir: Vec3, tri: Triangle): Cramer
  {
    CramerOf(tri.p0.x - tri.p1.x, tri.p0.y - tri.p1.y, tri.p0.z - tri.p1.z,
             tri.p0.x - tri.p2.x, tri.p0.y - tri.p2.y, tri.p0.z - tri.p2.z,
             dir.x, dir.y, dir.z,
             tri.p0.x - origin.x, tri.p0.y - origin.y, tri.p0.z - origin.z)
  }

  /**
   * The system's numbers from the source's named entries: columns `(a, b, c)`,
   * `(d, e, f)` and the direction `(g, h, i)`, right-hand side `(j, k, l)`.
   */
  function CramerOf(a: real, b: real, c: real, d: real, e: real, f: real, g: real, h: real, i: real,
                    j: real, k: real, l: real): Cramer
  {
    var ei_hf := e * i - h * f;
    var gf_di := g * f - d * i;
    var dh_eg := d * h - e * g;
    var ak_jb := a * k - j * b;
    var jc_al := j * c - a * l;
    var bl_kc := b * l - k * c;
    Cramer(a * ei_hf + b * gf_di + c * dh_eg,
           -(f * ak_jb + e * jc_al + d * bl_kc),
           i * ak_jb + h * jc_al + g * bl_kc,
           j * ei_hf + k * gf_di + l * dh_eg)
  }

  /** The triangle test as written; a singular system makes it divide by zero. */
  function HitsTriangleAsWritten(lib: MathLib, origin: Vec3, dir: Vec3, tri: Triangle, tMin: real, tMax: real): Option<real>
    requires TriangleSystem(origin, dir, tri).m != 0.0
  {
    var sys := TriangleSystem(origin, dir, tri);
    var t := lib.fdiv(sys.tNum, sys.m);
    if t < tMin || t >= tMax then None
    else
      var gamma := lib.fdiv(sys.gammaNum, sys.m);
      if gamma < 0.0 || gamma > 1.0 then None
      else
        var beta := lib.fdiv(sys.betaNum, sys.m);
        if beta < 0.0 || beta > 1.0 - gamma then None
        else Some(t)
  }

  /** The triangle test with a singular system reported as a miss. */
  function HitsTriangle(lib: MathLib, origin: Vec3, dir: Vec3, tri: Triangle, tMin: real, tMax: real): Option<real>
  {
    if TriangleSystem(origin, dir, tri).m == 0.0 then None else HitsTriangleAsWritten(lib, origin, dir, tri, tMin, tMax)
  }

  /** `p0 - beta (p0 - p1) - gamma (p0 - p2)`, the point with barycentric coordinates `(1 - beta - gamma, beta, gamma)`. */
  function Barycentric(tri: Triangle, beta: real, gamma: real): Vec3
  {
    Sub(Sub(tri.p0, Scale(Sub(tri.p0, tri.p1), beta)), Scale(Sub(tri.p0, tri.p2), gamma))
  }

  /** The barycentric bounds of the source: `0 <= gamma <= 1` and `0 <= beta <= 1 - gamma`. */
  predicate InBounds(beta: real, gamma: real)
  {
    0.0 <= gamma <= 1.0 && 0.0 <= beta <= 1.0 - gamma
  }

  /** The point at parameter `t` lies inside the triangle (edges included). */
  ghost predicate OnTriangle(tri: Triangle, origin: Vec3, dir: Vec3, t: real)
  {
    exists beta, gamma :: InBounds(beta, gamma) && RayPoint(origin, dir, t) == Barycentric(tri, beta, gamma)
  }

  /** Cramer's rule: the products of the numerators with the columns sum to `M` times the right-hand side. */
  lemma CramerIdentity(origin: Vec3, dir: Vec3, tri: Triangle)
    ensures var sys := TriangleSystem(origin, dir, tri);
      var e1 := Sub(tri.p0, tri.p1);
      var e2 := Sub(tri.p0, tri.p2);
      var rhs := Sub(tri.p0, origin);
      && sys.betaNum * e1.x + sys.gammaNum * e2.x + sys.tNum * dir.x == sys.m * rhs.x
      && sys.betaNum * e1.y + sys.gammaNum * e2.y + sys.tNum * dir.y == sys.m * rhs.y
      && sys.betaNum * e1.z + sys.gammaNum * e2.z + sys.tNum * dir.z == sys.m * rhs.z
  {
    CramerRows(tri.p0.x - tri.p1.x, tri.p0.y - tri.p1.y, tri.p0.z - tri.p1.z,
               tri.p0.x - tri.p2.x, tri.p0.y - tri.p2.y, tri.p0.z - tri.p2.z,
               dir.x, dir.y, dir.z,
               tri.p0.x - origin.x, tri.p0.y - origin.y, tri.p0.z - origin.z);
  }

  /** Cramer's identity on the named entries: the numerators times the columns give `M` times the right-hand side. */
  lemma CramerRows(a: real, b: real, c: real, d: real, e: real, f: real, g: real, h: real, i: real, j: real, k: real, l: real)
    ensures var sys := CramerOf(a, b, c, d, e, f, g, h, i, j, k, l);
      && sys.betaNum * a + sys.gammaNum * d + sys.tNum * g == sys.m * j
      && sys.betaNum * b + sys.gammaNum * e + sys.tNum * h == sys.m * k
      && sys.betaNum * c + sys.gammaNum * f + sys.tNum * i == sys.m * l
  {
    CramerRowX(a, b, c, d, e, f, g, h, i, j, k, l);
    CramerRowY(a, b, c, d, e, f, g, h, i, j, k, l);
    CramerRowZ(a, b, c, d, e, f, g, h, i, j, k, l);
  }

  /** The first row of Cramer's identity. */
  lemma CramerRowX(a: real, b: real, c: real, d: real, e: real, f: real, g: real, h: real, i: real, j: real, k: real, l: real)
    ensures var sys := CramerOf(a, b, c, d, e, f, g, h, i, j, k, l);
      sys.betaNum * a + sys.gammaNum * d + sys.tNum * g == sys.m * j
  {
  }

  /** The second row of Cramer's identity. */
  lemma CramerRowY(a: real, b: real, c: real, d: real, e: real, f: real, g: real, h: real, i: real, j: real, k: real, l: real)
    ensures var sys := CramerOf(a, b, c, d, e, f, g, h, i, j, k, l);
      sys.betaNum * b + sys.gammaNum * e + sys.tNum * h == sys.m * k
  {
  }

  /** The third row of Cramer's identity. */
  lemma CramerRowZ(a: real, b: real, c: real, d: real, e: real, f: real, g: real, h: real, i: real, j: real, k: real, l: real)
    ensures var sys := CramerOf(a, b, c, d, e, f, g, h, i, j, k, l);
      sys.betaNum * c + sys.gammaNum * f + sys.tNum * i == sys.m * l
  {
  }


  /** The four numbers of the named entries are the determinants of Cramer's rule. */
  lemma CramerDeterminants(a: real, b: real, c: real, d: real, e: real, f: real, g: real, h: real, i: real, j: real, k: real, l: real)
    ensures var sys := CramerOf(a, b, c, d, e, f, g, h, i, j, k, l);
      var e1, e2, dir, rhs := Vec3(a, b, c), Vec3(d, e, f), Vec3(g, h, i), Vec3(j, k, l);
      && sys.m == Det3(e1, e2, dir)
      && sys.betaNum == Det3(rhs, e2, dir)
      && sys.gammaNum == Det3(e1, rhs, dir)
      && sys.tNum == Det3(e1, e2, rhs)
  {
  }

  /** The determinant of the matrix with columns `u`, `v`, `w`. */
  function Det3(u: Vec3, v: Vec3, w: Vec3): real
  {
    u.x * (v.y * w.z - w.y * v.z) + u.y * (w.x * v.z - v.x * w.z) + u.z * (v.x * w.y - v.y * w.x)
  }

  /** `M` and the three numerators are the determinants of Cramer's rule: one column replaced by `p0 - origin`. */
  lemma SystemIsDeterminants(origin: Vec3, dir: Vec3, tri: Triangle)
    ensures var sys := TriangleSystem(origin, dir, tri);
      var e1 := Sub(tri.p0, tri.p1);
      var e2 := Sub(tri.p0, tri.p2);
      var rhs := Sub(tri.p0, origin);
      && sys.m == Det3(e1, e2, dir)
      && sys.betaNum == Det3(rhs, e2, dir)
      && sys.gammaNum == Det3(e1, rhs, dir)
      && sys.tNum == Det3(e1, e2, rhs)
  {
    CramerDeterminants(tri.p0.x - tri.p1.x, tri.p0.y - tri.p1.y, tri.p0.z - tri.p1.z,
                       tri.p0.x - tri.p2.x, tri.p0.y - tri.p2.y, tri.p0.z - tri.p2.z,
                       dir.x, dir.y, dir.z,
                       tri.p0.x - origin.x, tri.p0.y - origin.y, tri.p0.z - origin.z);
  }

  /** Rotating the columns keeps the determinant. */
  lemma DetCyclic(u: Vec3, v: Vec3, w: Vec3)
    ensures Det3(u, v, w) == Det3(v, w, u)
  {
  }

  /** A determinant with a repeated column is zero. */
  lemma DetRepeated(u: Vec3, w: Vec3)
    ensures Det3(u, u, w) == 0.0 && Det3(u, w, u) == 0.0
  {
  }

  /** `beta u + gamma v + t w`. */
  function Combination(beta: real, u: Vec3, gamma: real, v: Vec3, t: real, w: Vec3): Vec3
  {
    Add(Add(Scale(u, beta), Scale(v, gamma)), Scale(w, t))
  }

  /** The determinant is linear in its first column. */
  lemma DetLinear(beta: real, u: Vec3, gamma: real, v: Vec3, t: real, w: Vec3, p: Vec3, q: Vec3)
    ensures Det3(Combination(beta, u, gamma, v, t, w), p, q)
         == beta * Det3(u, p, q) + gamma * Det3(v, p, q) + t * Det3(w, p, q)
  {
    var c := Combination(beta, u, gamma, v, t, w);
    var A, B, C := p.y * q.z - q.y * p.z, q.x * p.z - p.x * q.z, p.x * q.y - p.y * q.x;
    assert Det3(c, p, q) == c.x * A + c.y * B + c.z * C;
    assert c == Vec3(u.x * beta + v.x * gamma + w.x * t, u.y * beta + v.y * gamma + w.y * t, u.z * beta + v.z * gamma + w.z * t);
    Distribute3(beta, gamma, t, u.x, u.y, u.z, v.x, v.y, v.z, w.x, w.y, w.z, A, B, C);
  }

  /** Expanding a combination of three rows against one cofactor row. */
  lemma Distribute3(b: real, g: real, t: real, u1: real, u2: real, u3: real, v1: real, v2: real, v3: real,
                    w1: real, w2: real, w3: real, A: real, B: real, C: real)
    ensures (u1 * b + v1 * g + w1 * t) * A + (u2 * b + v2 * g + w2 * t) * B + (u3 * b + v3 * g + w3 * t) * C
         == b * (u1 * A + u2 * B + u3 * C) + g * (v1 * A + v2 * B + v3 * C) + t * (w1 * A + w2 * B + w3 * C)
  {
  }

  /** Cramer's rule for the first column: substituting a combination leaves `beta` times the determinant. */
  lemma DetFirstColumn(beta: real, u: Vec3, gamma: real, v: Vec3, t: real, w: Vec3)
    ensures Det3(Combination(beta, u, gamma, v, t, w), v, w) == Prod(beta, Det3(u, v, w))
  {
    DetLinear(beta, u, gamma, v, t, w, v, w);
    DetRepeated(v, w);
    DetRepeated(w, v);
  }

  /** Cramer's rule for the second column. */
  lemma DetSecondColumn(beta: real, u: Vec3, gamma: real, v: Vec3, t: real, w: Vec3)
    ensures Det3(u, Combination(beta, u, gamma, v, t, w), w) == Prod(gamma, Det3(u, v, w))
  {
    var c := Combination(beta, u, gamma, v, t, w);
    DetCyclic(u, c, w);
    DetCyclic(c, w, u);
    DetLinear(beta, u, gamma, v, t, w, w, u);
    DetRepeated(u, w);
    DetRepeated(w, u);
    DetCyclic(v, w, u);
    DetCyclic(w, u, v);
  }

  /** Cramer's rule for the third column. */
  lemma DetThirdColumn(beta: real, u: Vec3, gamma: real, v: Vec3, t: real, w: Vec3)
    ensures Det3(u, v, Combination(beta, u, gamma, v, t, w)) == Prod(t, Det3(u, v, w))
  {
    var c := Combination(beta, u, gamma, v, t, w);
    DetCyclic(u, v, c);
    DetCyclic(v, c, u);
    DetLinear(beta, u, gamma, v, t, w, u, v);
    DetRepeated(u, v);
    DetRepeated(v, u);
    DetCyclic(w, u, v);
    DetCyclic(u, v, w);
  }

  /** When the ray point is a combination of the columns, each numerator is `M` times its coefficient. */
  lemma {:induction false} CramerNumerators(origin: Vec3, dir: Vec3, tri: Triangle, beta: real, gamma: real, t: real)
    requires RayPoint(origin, dir, t) == Barycentric(tri, beta, gamma)
    ensures var sys := TriangleSystem(origin, dir, tri);
      sys.betaNum == Prod(beta, sys.m) && sys.gammaNum == Prod(gamma, sys.m) && sys.tNum == Prod(t, sys.m)
  {
    var e1 := Sub(tri.p0, tri.p1);
    var e2 := Sub(tri.p0, tri.p2);
    var rhs := Sub(tri.p0, origin);
    assert rhs == Combination(beta, e1, gamma, e2, t, dir);
    SystemIsDeterminants(origin, dir, tri);
    DetFirstColumn(beta, e1, gamma, e2, t, dir);
    DetSecondColumn(beta, e1, gamma, e2, t, dir);
    DetThirdColumn(beta, e1, gamma, e2, t, dir);
  }

  /** Dividing a combination of three products by their common factor `m`. */
  lemma {:induction false} CancelFactor(bn: real, gn: real, tn: real, m: real, beta: real, gamma: real, t: real,
                                        u: real, v: real, w: real, rhs: real)
    requires m != 0.0 && Prod(beta, m) == bn && Prod(gamma, m) == gn && Prod(t, m) == tn
    requires bn * u + gn * v + tn * w == m * rhs
    ensures beta * u + gamma * v + t * w == rhs
  {
    assert Prod(beta * u + gamma * v + t * w - rhs, m) == bn * u + gn * v + tn * w - m * rhs;
    ProdZero(beta * u + gamma * v + t * w - rhs, m);
  }

  /** The componentwise system `beta e1 + gamma e2 + t dir == p0 - origin` puts the ray point at the barycentric point. */
  lemma PointFromComponents(origin: Vec3, dir: Vec3, tri: Triangle, beta: real, gamma: real, t: real)
    requires var e1 := Sub(tri.p0, tri.p1);
      var e2 := Sub(tri.p0, tri.p2);
      var rhs := Sub(tri.p0, origin);
      && beta * e1.x + gamma * e2.x + t * dir.x == rhs.x
      && beta * e1.y + gamma * e2.y + t * dir.y == rhs.y
      && beta * e1.z + gamma * e2.z + t * dir.z == rhs.z
    ensures RayPoint(origin, dir, t) == Barycentric(tri, beta, gamma)
  {
    ComponentOnLine(origin.x, dir.x, tri.p0.x, tri.p1.x, tri.p2.x, beta, gamma, t);
    ComponentOnLine(origin.y, dir.y, tri.p0.y, tri.p1.y, tri.p2.y, beta, gamma, t);
    ComponentOnLine(origin.z, dir.z, tri.p0.z, tri.p1.z, tri.p2.z, beta, gamma, t);
  }

  /** One coordinate of `PointFromComponents`. */
  lemma ComponentOnLine(o: real, d: real, p0: real, p1: real, p2: real, beta: real, gamma: real, t: real)
    requires beta * (p0 - p1) + gamma * (p0 - p2) + t * d == p0 - o
    ensures o + d * t == p0 - (p0 - p1) * beta - (p0 - p2) * gamma
  {
  }

  /** Cramer's quotients solve any system whose numerators satisfy the scaled equations. */
  lemma {:induction false} QuotientsSolve(lib: MathLib, origin: Vec3, dir: Vec3, tri: Triangle, sys: Cramer)
    requires Valid(lib) && sys.m != 0.0
    requires var e1 := Sub(tri.p0, tri.p1);
      var e2 := Sub(tri.p0, tri.p2);
      var rhs := Sub(tri.p0, origin);
      && sys.betaNum * e1.x + sys.gammaNum * e2.x + sys.tNum * dir.x == sys.m * rhs.x
      && sys.betaNum * e1.y + sys.gammaNum * e2.y + sys.tNum * dir.y == sys.m * rhs.y
      && sys.betaNum * e1.z + sys.gammaNum * e2.z + sys.tNum * dir.z == sys.m * rhs.z
    ensures RayPoint(origin, dir, lib.fdiv(sys.tNum, sys.m))
      == Barycentric(tri, lib.fdiv(sys.betaNum, sys.m), lib.fdiv(sys.gammaNum, sys.m))
  {
    var t := lib.fdiv(sys.tNum, sys.m);
    var beta := lib.fdiv(sys.betaNum, sys.m);
    var gamma := lib.fdiv(sys.gammaNum, sys.m);
    DivMul(lib, sys.tNum, sys.m);
    DivMul(lib, sys.betaNum, sys.m);
    DivMul(lib, sys.gammaNum, sys.m);
    var e1 := Sub(tri.p0, tri.p1);
    var e2 := Sub(tri.p0, tri.p2);
    var rhs := Sub(tri.p0, origin);
    CancelFactor(sys.betaNum, sys.gammaNum, sys.tNum, sys.m, beta, gamma, t, e1.x, e2.x, dir.x, rhs.x);
    CancelFactor(sys.betaNum, sys.gammaNum, sys.tNum, sys.m, beta, gamma, t, e1.y, e2.y, dir.y, rhs.y);
    CancelFactor(sys.betaNum, sys.gammaNum, sys.tNum, sys.m, beta, gamma, t, e1.z, e2.z, dir.z, rhs.z);
    PointFromComponents(origin, dir, tri, beta, gamma, t);
  }

  /** For a nonzero `M` the computed coefficients solve the system: the ray point is their barycentric point. */
  lemma {:induction false} CramerSolves(lib: MathLib, origin: Vec3, dir: Vec3, tri: Triangle)
    requires Valid(lib) && TriangleSystem(origin, dir, tri).m != 0.0
    ensures var sys := TriangleSystem(origin, dir, tri);
      RayPoint(origin, dir, lib.fdiv(sys.tNum, sys.m))
        == Barycentric(tri, lib.fdiv(sys.betaNum, sys.m), lib.fdiv(sys.gammaNum, sys.m))
  {
    CramerIdentity(origin, dir, tri);
    QuotientsSolve(lib, origin, dir, tri, TriangleSystem(origin, dir, tri));
  }

  /** For a nonzero `M` the solution is unique: any combination that hits the ray point is the computed one. */
  lemma {:induction false} CramerUnique(lib: MathLib, origin: Vec3, dir: Vec3, tri: Triangle, beta: real, gamma: real, t: real)
    requires Valid(lib) && TriangleSystem(origin, dir, tri).m != 0.0
    requires RayPoint(origin, dir, t) == Barycentric(tri, beta, gamma)
    ensures var sys := TriangleSystem(origin, dir, tri);
      t == lib.fdiv(sys.tNum, sys.m) && beta == lib.fdiv(sys.betaNum, sys.m) && gamma == lib.fdiv(sys.gammaNum, sys.m)
  {
    CramerNumerators(origin, dir, tri, beta, gamma, t);
    var m := TriangleSystem(origin, dir, tri).m;
    ProdDiv(lib, t, m);
    ProdDiv(lib, beta, m);
    ProdDiv(lib, gamma, m);
  }

  /**
   * The triangle test accepts exactly the parameters in `[tMin, tMax)` at which
   * the ray meets the triangle, edges included.
   */
  lemma {:induction false} TriangleHitExact(lib: MathLib, origin: Vec3, dir: Vec3, tri: Triangle, tMin: real, tMax: real)
    requires Valid(lib) && TriangleSystem(origin, dir, tri).m != 0.0
    ensures var r := HitsTriangleAsWritten(lib, origin, dir, tri, tMin, tMax);
      && (r.Some? ==> tMin <= r.value < tMax && OnTriangle(tri, origin, dir, r.value))
      && (forall t :: tMin <= t < tMax && OnTriangle(tri, origin, dir, t) ==> r == Some(t))
  {
    var sys := TriangleSystem(origin, dir, tri);
    CramerSolves(lib, origin, dir, tri);
    var t0 := lib.fdiv(sys.tNum, sys.m);
    var beta0 := lib.fdiv(sys.betaNum, sys.m);
    var gamma0 := lib.fdiv(sys.gammaNum, sys.m);
    if HitsTriangleAsWritten(lib, origin, dir, tri, tMin, tMax).Some? {
      assert InBounds(beta0, gamma0);
      assert RayPoint(origin, dir, t0) == Barycentric(tri, beta0, gamma0);
    }
    forall t | tMin <= t < tMax && OnTriangle(tri, origin, dir, t)
      ensures HitsTriangleAsWritten(lib, origin, dir, tri, tMin, tMax) == Some(t)
    {
      var beta, gamma :| InBounds(beta, gamma) && RayPoint(origin, dir, t) == Barycentric(tri, beta, gamma);
      CramerUnique(lib, origin, dir, tri, beta, gamma, t);
    }
  }

  /** The guarded test keeps the same meaning whenever the system is regular, and never hits otherwise. */
  lemma {:induction false} GuardedTriangleHit(lib: MathLib, origin: Vec3, dir: Vec3, tri: Triangle, tMin: real, tMax: real)
    requires Valid(lib)
    ensures var r := HitsTriangle(lib, origin, dir, tri, tMin, tMax);
      && (r.Some? ==> TriangleSystem(origin, dir, tri).m != 0.0 && tMin <= r.value < tMax && OnTriangle(tri, origin, dir, r.value))
      && (TriangleSystem(origin, dir, tri).m != 0.0 ==>
            forall t :: tMin <= t < tMax && OnTriangle(tri, origin, dir, t) ==> r == Some(t))
  {
    if TriangleSystem(origin, dir, tri).m != 0.0 {
      TriangleHitExact(lib, origin, dir, tri, tMin, tMax);
    }
  }

  /** A triangle with two equal corners `p0 == p1` makes `M` zero for every ray. */
  lemma DegenerateTriangleSingular(origin: Vec3, dir: Vec3, tri: Triangle)
    requires tri.p0 == tri.p1
    ensures TriangleSystem(origin, dir, tri).m == 0.0
    ensures TriangleSystem(origin, dir, tri).tNum == 0.0
  {
  }

  // ---------------------------------------------------------------- as written, on floats

  /** The sphere test as written for every direction: `/ (2 * a)` and the range tests on floats. */
  function HitsSphereFloat(lib: MathLib, origin: Vec3, d: Vec3, s: Sphere, minT: real, maxT: real): Option<Floats.Float>
  {
    QuadraticHitFloat(lib, SphereQuadratic(origin, d, s), minT, maxT)
  }

  /** The sphere test from `a`, `b` and `c` on: the discriminant, the two quotients, their minimum and the range tests. */
  function QuadraticHitFloat(lib: MathLib, q: Quadratic, minT: real, maxT: real): Option<Floats.Float>
  {
    var disc := Discriminant(q);
    if disc < 0.0 then None
    else
      var sqrtDisc := lib.sqrt(disc);
      var t1 := Floats.Div(-q.b + sqrtDisc, 2.0 * q.a);
      var t2 := Floats.Div(-q.b - sqrtDisc, 2.0 * q.a);
      var lesser := Floats.StdMin(t1, t2);
      if Floats.Less(Floats.Num(maxT), lesser) || Floats.Less(lesser, Floats.Num(minT)) then None else Some(lesser)
  }

  /** The float result of a real hit test. */
  function AsFloat(r: Option<real>): (f: Option<Floats.Float>)
    ensures f.None? <==> r.None?
    ensures r.Some? ==> f == Some(Floats.Num(r.value))
  {
    match r
    case None => None
    case Some(t) => Some(Floats.Num(t))
  }

  /** For a nonzero direction the float test is the real one: every quotient is finite. */
  lemma SphereFloatAgrees(lib: MathLib, origin: Vec3, d: Vec3, s: Sphere, minT: real, maxT: real)
    requires Valid(lib) && Dot(d, d) != 0.0
    ensures HitsSphereFloat(lib, origin, d, s, minT, maxT) == AsFloat(HitsSphereAsWritten(lib, origin, d, s, minT, maxT))
  {
    var q := SphereQuadratic(origin, d, s);
    var disc := Discriminant(q);
    if disc >= 0.0 {
      var sqrtDisc := lib.sqrt(disc);
      var t1 := lib.fdiv(-q.b + sqrtDisc, 2.0 * q.a);
      var t2 := lib.fdiv(-q.b - sqrtDisc, 2.0 * q.a);
      Floats.ComparisonsOnNumbers(t1, t2);
      var lesser := Min(t1, t2);
      Floats.ComparisonsOnNumbers(maxT, lesser);
      Floats.ComparisonsOnNumbers(lesser, minT);
    }
  }

  /** With a zero direction the quadratic has `a = b = 0` and a zero discriminant. */
  lemma ZeroDirectionQuadratic(origin: Vec3, s: Sphere)
    ensures var q := SphereQuadratic(origin, Zero(), s);
      q.a == 0.0 && q.b == 0.0 && Discriminant(q) == 0.0
  {
    ZeroScaledDot(2.0, Sub(origin, s.center));
    DiscriminantWithoutLead(SphereQuadratic(origin, Zero(), s));
  }

  /** A scaled zero vector has zero dot product with anything. */
  lemma ZeroScaledDot(k: real, w: Vec3)
    ensures Dot(ScaleLeft(k, Zero()), w) == 0.0
  {
    assert ScaleLeft(k, Zero()) == Zero();
    DotZero(w);
  }

  /** The zero vector has zero dot product with anything. */
  lemma DotZero(w: Vec3)
    ensures Dot(Zero(), w) == 0.0
  {
  }

  /** With `a = b = 0` the discriminant is zero. */
  lemma DiscriminantWithoutLead(q: Quadratic)
    requires q.a == 0.0 && q.b == 0.0
    ensures Discriminant(q) == 0.0
  {
  }

  /** `a = b = 0`, so both quotients are `0 / 0`. */
  lemma NoLeadHitsNaN(lib: MathLib, q: Quadratic, minT: real, maxT: real)
    requires Valid(lib) && q.a == 0.0 && q.b == 0.0 && Discriminant(q) == 0.0
    ensures QuadraticHitFloat(lib, q, minT, maxT) == Some(Floats.NaN)
  {
    SqrtOfSquare(lib, 0.0);
    assert Sq(0.0) == 0.0;
  }

  /** A zero direction makes every sphere report a hit, at NaN: `0 / 0` passes both range tests. */
  lemma ZeroDirectionHits(lib: MathLib, origin: Vec3, s: Sphere, minT: real, maxT: real)
    requires Valid(lib)
    ensures HitsSphereFloat(lib, origin, Zero(), s, minT, maxT) == Some(Floats.NaN)
    ensures HitsSphere(lib, origin, Zero(), s, minT, maxT).None?
  {
    ZeroDirectionQuadratic(origin, s);
    NoLeadHitsNaN(lib, SphereQuadratic(origin, Zero(), s), minT, maxT);
  }

  /** The triangle test as written for every system: `/ M` and the interval and barycentric tests on floats. */
  function HitsTriangleFloat(origin: Vec3, dir: Vec3, tri: Triangle, tMin: real, tMax: real): Option<Floats.Float>
  {
    var sys := TriangleSystem(origin, dir, tri);
    var t := Floats.Div(sys.tNum, sys.m);
    if Floats.Less(t, Floats.Num(tMin)) || Floats.GreaterEq(t, Floats.Num(tMax)) then None
    else
      var gamma := Floats.Div(sys.gammaNum, sys.m);
      if Floats.Less(gamma, Floats.Num(0.0)) || Floats.Less(Floats.Num(1.0), gamma) then None
      else
        var beta := Floats.Div(sys.betaNum, sys.m);
        if Floats.Less(beta, Floats.Num(0.0)) || Floats.Less(Floats.OneMinus(gamma), beta) then None
        else Some(t)
  }

  /** For a nonsingular system the float test is the real one. */
  lemma TriangleFloatAgrees(lib: MathLib, origin: Vec3, dir: Vec3, tri: Triangle, tMin: real, tMax: real)
    requires Valid(lib) && TriangleSystem(origin, dir, tri).m != 0.0
    ensures HitsTriangleFloat(origin, dir, tri, tMin, tMax) == AsFloat(HitsTriangleAsWritten(lib, origin, dir, tri, tMin, tMax))
  {
    var sys := TriangleSystem(origin, dir, tri);
    var t := sys.tNum / sys.m;
    var gamma := sys.gammaNum / sys.m;
    var beta := sys.betaNum / sys.m;
    Floats.ComparisonsOnNumbers(t, tMin);
    Floats.ComparisonsOnNumbers(t, tMax);
    Floats.ComparisonsOnNumbers(gamma, 0.0);
    Floats.ComparisonsOnNumbers(1.0, gamma);
    Floats.ComparisonsOnNumbers(beta, 0.0);
    Floats.ComparisonsOnNumbers(1.0 - gamma, beta);
  }

  /**
   * A triangle with `p0 == p1` makes `M` and the numerators of `t` and `gamma`
   * zero, so `t` and `gamma` are NaN and pass their tests; when the numerator
   * of `beta` is zero too, `beta` is NaN and the test reports a hit at NaN.
   */
  lemma CollapsedEdgeHits(lib: MathLib, origin: Vec3, dir: Vec3, tri: Triangle, tMin: real, tMax: real)
    requires tri.p0 == tri.p1 && TriangleSystem(origin, dir, tri).betaNum == 0.0
    ensures HitsTriangleFloat(origin, dir, tri, tMin, tMax) == Some(Floats.NaN)
    ensures HitsTriangle(lib, origin, dir, tri, tMin, tMax).None?
  {
    DegenerateTriangleSingular(origin, dir, tri);
    assert TriangleSystem(origin, dir, tri).gammaNum == 0.0;
  }

  /** A triangle whose three corners coincide reports a hit at NaN for every ray. */
  lemma PointTriangleHits(lib: MathLib, origin: Vec3, dir: Vec3, tri: Triangle, tMin: real, tMax: real)
    requires tri.p0 == tri.p1 == tri.p2
    ensures HitsTriangleFloat(origin, dir, tri, tMin, tMax) == Some(Floats.NaN)
    ensures HitsTriangle(lib, origin, dir, tri, tMin, tMax).None?
  {
    assert TriangleSystem(origin, dir, tri).betaNum == 0.0;
    CollapsedEdgeHits(lib, origin, dir, tri, tMin, tMax);
  }
}
