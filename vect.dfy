/**
 * Three-component vectors over `real` (the `Vect` class of vect.h and the left
 * scalar product of vect.cpp). Every operation returns a new value.
 */
module Vectors {
  import opened RealMath

  datatype Vec3 = Vec3(x: real, y: real, z: real)

  /** The default constructor `Vect()`. */
  function Zero(): Vec3 { Vec3(0.0, 0.0, 0.0) }

  /** The two-argument constructor `Vect(x, y)`. */
  function FromXY(x: real, y: real): Vec3 { Vec3(x, y, 0.0) }

  /** `operator[]`: components 0, 1, 2, and 0 for any other index. */
  function At(v: Vec3, i: int): real
  {
    if i == 0 then v.x
    else if i == 1 then v.y
    else if i == 2 then v.z
    else 0.0
  }

  /** `operator==`. */
  predicate Equal(u: Vec3, v: Vec3)
  {
    u.x == v.x && u.y == v.y && u.z == v.z
  }

  function Add(u: Vec3, v: Vec3): Vec3 { Vec3(u.x + v.x, u.y + v.y, u.z + v.z) }

  function Sub(u: Vec3, v: Vec3): Vec3 { Vec3(u.x - v.x, u.y - v.y, u.z - v.z) }

  /** Unary `operator-`. */
  function Neg(v: Vec3): Vec3 { Vec3(-v.x, -v.y, -v.z) }

  /** `v * s`, the member scaling operator. */
  function Scale(v: Vec3, s: real): Vec3 { Vec3(v.x * s, v.y * s, v.z * s) }

  /** `s * v`, the free operator of vect.cpp, which delegates to `v * s`. */
  function ScaleLeft(s: real, v: Vec3): Vec3 { Scale(v, s) }

  /** `operator*(Vect)`, the dot product. */
  function Dot(u: Vec3, v: Vec3): real { u.x * v.x + u.y * v.y + u.z * v.z }

  /** `mag()`. */
  function Mag(lib: MathLib, v: Vec3): real { lib.sqrt(Dot(v, v)) }

  /** `normalize()`: each component divided by the magnitude. */
  function Normalize(lib: MathLib, v: Vec3): Vec3
  {
    var m := Mag(lib, v);
    Vec3(lib.fdiv(v.x, m), lib.fdiv(v.y, m), lib.fdiv(v.z, m))
  }

  /** `projectOnto(u)`: the scalar projection of this vector on `u`. */
  function ProjectOnto(lib: MathLib, v: Vec3, u: Vec3): real
  {
    lib.fdiv(Dot(v, u), Mag(lib, u))
  }

  // ---------------------------------------------------------------- lemmas

  /** The default and two-argument constructors leave the missing components at zero. */
  lemma ConstructorsZeroFill(x: real, y: real)
    ensures forall i :: At(Zero(), i) == 0.0
    ensures At(FromXY(x, y), 0) == x && At(FromXY(x, y), 1) == y && At(FromXY(x, y), 2) == 0.0
  {
  }

  /** Indexed access returns the component for 0, 1, 2 and zero for every other index. */
  lemma AtOutOfRange(v: Vec3, i: int)
    requires i < 0 || i > 2
    ensures At(v, i) == 0.0
  {
  }

  /** `==` holds exactly when the values are equal, i.e. agree at every index. */
  lemma EqualIsComponentwise(u: Vec3, v: Vec3)
    ensures Equal(u, v) <==> u == v
    ensures Equal(u, v) <==> forall i :: 0 <= i < 3 ==> At(u, i) == At(v, i)
  {
    if forall i :: 0 <= i < 3 ==> At(u, i) == At(v, i) {
      assert At(u, 0) == At(v, 0) && At(u, 1) == At(v, 1) && At(u, 2) == At(v, 2);
    }
  }

  /** Addition and subtraction act independently on each index. */
  lemma AddSubComponentwise(u: Vec3, v: Vec3)
    ensures forall i :: 0 <= i < 3 ==> At(Add(u, v), i) == At(u, i) + At(v, i)
    ensures forall i :: 0 <= i < 3 ==> At(Sub(u, v), i) == At(u, i) - At(v, i)
  {
  }

  /** Negation is scaling by -1, and `u - v == u + (-v)`. */
  lemma NegIsScaleMinusOne(u: Vec3, v: Vec3)
    ensures Neg(v) == Scale(v, -1.0)
    ensures Sub(u, v) == Add(u, Neg(v))
  {
  }

  /** `s * v` scales every index by `s` and agrees with `v * s`. */
  lemma ScaleLeftComponentwise(s: real, v: Vec3)
    ensures ScaleLeft(s, v) == Scale(v, s)
    ensures forall i :: 0 <= i < 3 ==> At(ScaleLeft(s, v), i) == s * At(v, i)
  {
  }

  /** Scaling by one is the identity, by zero gives the zero vector, and scalings compose. */
  lemma ScaleLaws(s: real, t: real, v: Vec3)
    ensures ScaleLeft(1.0, v) == v
    ensures ScaleLeft(0.0, v) == Zero()
    ensures ScaleLeft(s, ScaleLeft(t, v)) == ScaleLeft(s * t, v)
  {
  }

  /** The dot product is symmetric and bilinear in its first argument. */
  lemma DotSymmetricLinear(u: Vec3, v: Vec3, w: Vec3, s: real)
    ensures Dot(u, v) == Dot(v, u)
    ensures Dot(Add(u, v), w) == Dot(u, w) + Dot(v, w)
    ensures Dot(Scale(u, s), v) == s * Dot(u, v)
  {
  }

  /** `v . v` is nonnegative and is zero only for the zero vector. */
  lemma {:induction false} DotSelf(v: Vec3)
    ensures Dot(v, v) >= 0.0
    ensures Dot(v, v) == 0.0 <==> v == Zero()
  {
    SquareNonnegative(v.x);
    SquareNonnegative(v.y);
    SquareNonnegative(v.z);
    assert Dot(v, v) == Sq(v.x) + Sq(v.y) + Sq(v.z);
  }

  /** The squared distance along a ray: |p + t d|^2 = p.p + 2t d.p + t^2 d.d. */
  lemma DotAlongRay(p: Vec3, d: Vec3, t: real)
    ensures Dot(Add(p, Scale(d, t)), Add(p, Scale(d, t)))
         == Dot(p, p) + 2.0 * t * Dot(d, p) + t * t * Dot(d, d)
  {
    var q := Add(p, Scale(d, t));
    assert q.x * q.x == p.x * p.x + 2.0 * t * d.x * p.x + t * t * d.x * d.x;
    assert q.y * q.y == p.y * p.y + 2.0 * t * d.y * p.y + t * t * d.y * d.y;
    assert q.z * q.z == p.z * p.z + 2.0 * t * d.z * p.z + t * t * d.z * d.z;
  }

  /** The magnitude is `sqrt(v . v)`: nonnegative, squaring to `v . v`, zero only for zero. */
  lemma {:induction false} MagProperties(lib: MathLib, v: Vec3)
    requires Valid(lib)
    ensures Mag(lib, v) >= 0.0
    ensures Sq(Mag(lib, v)) == Dot(v, v)
    ensures Mag(lib, v) == 0.0 <==> v == Zero()
  {
    DotSelf(v);
    var d := Dot(v, v);
    assert lib.sqrt(d) >= 0.0 && Sq(lib.sqrt(d)) == d;
    SquareNonnegative(lib.sqrt(d));
  }

  /** A nonzero vector normalizes to a unit vector pointing the same way. */
  lemma {:induction false} NormalizeUnit(lib: MathLib, v: Vec3)
    requires Valid(lib) && v != Zero()
    ensures Dot(Normalize(lib, v), Normalize(lib, v)) == 1.0
    ensures Mag(lib, Normalize(lib, v)) == 1.0
    ensures Scale(Normalize(lib, v), Mag(lib, v)) == v
  {
    MagProperties(lib, v);
    var m := Mag(lib, v);
    var n := Normalize(lib, v);
    DivMul(lib, v.x, m);
    DivMul(lib, v.y, m);
    DivMul(lib, v.z, m);
    assert Prod(n.x, m) == v.x && Prod(n.y, m) == v.y && Prod(n.z, m) == v.z;
    assert Dot(n, n) * Sq(m) == Dot(v, v);
    SquareNonnegative(m);
    assert Prod(Dot(n, n) - 1.0, Sq(m)) == 0.0;
    ProdZero(Dot(n, n) - 1.0, Sq(m));
    assert Sq(1.0) == 1.0;
    SqrtOfSquare(lib, 1.0);
  }

  /** For a nonzero `u`, `|u|` is positive and the projection is `(v . u) / |u|`. */
  lemma {:induction false} ProjectOntoValue(lib: MathLib, v: Vec3, u: Vec3)
    requires Valid(lib) && u != Zero()
    ensures Mag(lib, u) > 0.0
    ensures ProjectOnto(lib, v, u) == Dot(v, u) / Mag(lib, u)
    ensures Prod(ProjectOnto(lib, v, u), Mag(lib, u)) == Dot(v, u)
  {
    MagProperties(lib, u);
    DivMul(lib, Dot(v, u), Mag(lib, u));
  }
}
