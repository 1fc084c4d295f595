/** IEEE floating-point values as the model sees them: exact reals, plus the
    two special values that division of non-negative counters can produce. */
module Floats {

  datatype Float = Finite(v: real) | PosInf | NaN

  /** `a as f32 / b as f32` for counters `a`, `b`: `x/0` is +inf for `x > 0`
      and NaN for `0/0`. */
  function Div(a: nat, b: nat): (r: Float)
    ensures b > 0 <==> r.Finite?
    ensures r.Finite? ==> r.v * (b as real) == a as real
    ensures r == PosInf <==> b == 0 && a > 0
  {
    if b > 0 then Finite(a as real / b as real)
    else if a > 0 then PosInf
    else NaN
  }

  /** `x > value` for a finite `x`; every comparison with NaN is false. */
  predicate Exceeds(x: real, value: Float) {
    match value
    case Finite(v) => x > v
    case PosInf => false
    case NaN => false
  }

  /** The order in which `Exceeds` is antitone: finite values by magnitude,
      with +inf and NaN above every value (no finite number exceeds them). */
  predicate AtMost(a: Float, b: Float) {
    match (a, b)
    case (Finite(x), Finite(y)) => x <= y
    case (_, Finite(_)) => false
    case _ => true
  }

  lemma ExceedsAntitone(x: real, a: Float, b: Float)
    requires AtMost(a, b) && Exceeds(x, b)
    ensures Exceeds(x, a)
  {
  }
}
