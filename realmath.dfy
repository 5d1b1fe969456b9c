/**
 * The numeric library the ray tracer calls into (`sqrt`, `pow`, `sin`, `cos`)
 * and IEEE-754 single-precision division, modelled over `real`.
 *
 * None of these can be given a body over `real`, so the model takes them as a
 * parameter record. `Valid` states the only facts the proofs rely on.
 */
module RealMath {

  datatype MathLib = MathLib(
    sqrt: real -> real,
    pow: (real, real) -> real,
    sin: real -> real,
    cos: real -> real,
    /** Float division: the real quotient whenever the divisor is nonzero;
        for a zero divisor an unspecified value (infinity or NaN on hardware). */
    fdiv: (real, real) -> real)

  /** The facts about the library that the proofs use. */
  ghost predicate Valid(lib: MathLib)
  {
    && (forall x :: x >= 0.0 ==> lib.sqrt(x) >= 0.0 && Sq(lib.sqrt(x)) == x)
    && (forall x, y :: y != 0.0 ==> lib.fdiv(x, y) == x / y)
  }

  function Min(a: real, b: real): real { if a <= b then a else b }

  function Max(a: real, b: real): real { if a >= b then a else b }

  /** `a * a`, kept behind a name so that facts about squares can be stated once. */
  function Sq(a: real): real { a * a }

  /** `a * b`, the product the sign lemmas below talk about. */
  function Prod(a: real, b: real): real { a * b }

  /** A product of two positive numbers is positive. */
  lemma ProdPositive(a: real, b: real)
    requires a > 0.0 && b > 0.0
    ensures Prod(a, b) > 0.0
  {
  }

  /** A product is zero only when one of its factors is. */
  lemma {:induction false} ProdZero(a: real, b: real)
    requires Prod(a, b) == 0.0
    ensures a == 0.0 || b == 0.0
  {
    if a > 0.0 && b > 0.0 {
      ProdPositive(a, b);
    } else if a > 0.0 && b < 0.0 {
      assert Prod(a, b) == -Prod(a, -b);
      ProdPositive(a, -b);
    } else if a < 0.0 && b > 0.0 {
      assert Prod(a, b) == -Prod(-a, b);
      ProdPositive(-a, b);
    } else if a < 0.0 && b < 0.0 {
      assert Prod(a, b) == Prod(-a, -b);
      ProdPositive(-a, -b);
    }
  }

  /** Squares are nonnegative, and positive for a nonzero argument. */
  lemma {:induction false} SquareNonnegative(a: real)
    ensures Sq(a) >= 0.0
    ensures a != 0.0 ==> Sq(a) > 0.0
  {
    if a > 0.0 {
      assert Sq(a) == Prod(a, a);
      ProdPositive(a, a);
    } else if a < 0.0 {
      assert Sq(a) == Prod(-a, -a);
      ProdPositive(-a, -a);
    }
  }

  /** Two nonnegative numbers with the same square are equal. */
  lemma {:induction false} SquareInjective(r: real, s: real)
    requires r >= 0.0 && s >= 0.0 && Sq(r) == Sq(s)
    ensures r == s
  {
    assert Prod(r - s, r + s) == Sq(r) - Sq(s);
    ProdZero(r - s, r + s);
  }

  /** `sqrt` returns the nonnegative root: `sqrt(r * r) == r` for every `r >= 0`. */
  lemma {:induction false} SqrtOfSquare(lib: MathLib, r: real)
    requires Valid(lib) && r >= 0.0
    ensures lib.sqrt(Sq(r)) == r
  {
    SquareNonnegative(r);
    var s := lib.sqrt(Sq(r));
    assert s >= 0.0 && Sq(s) == Sq(r);
    SquareInjective(s, r);
  }

  /** The square root of a positive number is positive. */
  lemma {:induction false} SqrtPositive(lib: MathLib, x: real)
    requires Valid(lib) && x > 0.0
    ensures lib.sqrt(x) > 0.0
  {
    var s := lib.sqrt(x);
    assert s >= 0.0 && Sq(s) == x;
  }

  /** Dividing by a nonzero `m` and then multiplying by it gives the dividend back. */
  lemma DivMul(lib: MathLib, a: real, m: real)
    requires Valid(lib) && m != 0.0
    ensures Prod(lib.fdiv(a, m), m) == a
  {
  }

  /** Multiplying by a nonzero `m` and then dividing by it gives the factor back. */
  lemma ProdDiv(lib: MathLib, a: real, m: real)
    requires Valid(lib) && m != 0.0
    ensures lib.fdiv(Prod(a, m), m) == a
  {
  }
}
