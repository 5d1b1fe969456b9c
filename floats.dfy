/**
 * The few IEEE 754 behaviours of `float` that the hit tests of raytracer.cpp
 * run into when a divisor is zero: division yields an infinity or NaN, and
 * every ordered comparison with NaN is false.
 *
 * Finite values are exact reals (rounding is not modelled). A zero divisor is
 * taken as +0, so `x / 0` is +infinity for `x > 0` and -infinity for `x < 0`;
 * `0 / 0` is NaN whatever the signs.
 */
module Floats {

  datatype Float = Num(value: real) | PosInf | NegInf | NaN

  /** `x / y` on floats whose operands are finite. */
  function Div(x: real, y: real): (r: Float)
    ensures y != 0.0 ==> r == Num(x / y)
    ensures y == 0.0 ==> (r == NaN <==> x == 0.0)
    ensures y == 0.0 && x > 0.0 ==> r == PosInf
    ensures y == 0.0 && x < 0.0 ==> r == NegInf
  {
    if y != 0.0 then Num(x / y)
    else if x == 0.0 then NaN
    else if x > 0.0 then PosInf
    else NegInf
  }

  /** `a` is NaN. */
  predicate IsNaN(a: Float) { a.NaN? }

  /** `a < b`: false whenever either side is NaN; the infinities bound every finite value. */
  predicate Less(a: Float, b: Float)
  {
    match (a, b)
    case (NaN, _) => false
    case (_, NaN) => false
    case (Num(x), Num(y)) => x < y
    case (NegInf, _) => !b.NegInf?
    case (_, PosInf) => !a.PosInf?
    case _ => false
  }

  /** `a >= b`: false whenever either side is NaN, otherwise `!(a < b)`. */
  predicate GreaterEq(a: Float, b: Float)
  {
    !IsNaN(a) && !IsNaN(b) && !Less(a, b)
  }

  /** `1 - g`. */
  function OneMinus(g: Float): (r: Float)
    ensures g.Num? ==> r == Num(1.0 - g.value)
    ensures IsNaN(r) <==> IsNaN(g)
  {
    match g
    case Num(v) => Num(1.0 - v)
    case PosInf => NegInf
    case NegInf => PosInf
    case NaN => NaN
  }

  /** `std::min(a, b)`, which is `b < a ? b : a`. */
  function StdMin(a: Float, b: Float): (r: Float)
    ensures r == a || r == b
    ensures IsNaN(a) ==> r == a
  {
    if Less(b, a) then b else a
  }

  /** On finite values the comparisons are those of the reals, and `Less` is a strict order on non-NaN values. */
  lemma ComparisonsOnNumbers(x: real, y: real)
    ensures Less(Num(x), Num(y)) <==> x < y
    ensures GreaterEq(Num(x), Num(y)) <==> x >= y
    ensures StdMin(Num(x), Num(y)) == Num(if x <= y then x else y)
  {
  }

  /** NaN compares false with everything, in both directions and both orders. */
  lemma NaNUnordered(a: Float)
    ensures !Less(NaN, a) && !Less(a, NaN)
    ensures !GreaterEq(NaN, a) && !GreaterEq(a, NaN)
  {
  }
}
