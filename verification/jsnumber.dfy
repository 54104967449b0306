/**
 * JavaScript numbers, modelled on exact reals.  Only the operations the
 * calculators use are given: Math.round, Math.floor, Math.ceil, the `%` operator and
 * scaling by a positive factor (which is how NaN and Infinity travel through
 * the split-time arithmetic).
 */
module JsNumber {

  /** A JavaScript number: a finite value, NaN or one of the two infinities. */
  datatype Num = Finite(value: real) | NaN | Infinity | NegInfinity {

    /** `isNaN(x) || !isFinite(x)` is false exactly for finite numbers. */
    predicate IsFinite() {
      Finite?
    }

    /** `x > 0`, with NaN comparing false and Infinity comparing true. */
    predicate IsPositive() {
      (Finite? && value > 0.0) || Infinity?
    }
  }

  /** Math.round: the nearest integer, halves rounded towards +Infinity. */
  function Round(x: real): (r: int)
    ensures x - 0.5 < r as real <= x + 0.5
  {
    (x + 0.5).Floor
  }

  /** Math.floor. */
  function Floor(x: real): (r: int)
    ensures r as real <= x < r as real + 1.0
  {
    x.Floor
  }

  /** Math.ceil. */
  function Ceil(x: real): (r: int)
    ensures x <= r as real < x + 1.0
  {
    -((-x).Floor)
  }

  /** The divisors the calculators take remainders by: a minute and an hour in seconds. */
  predicate ClockDivisor(m: real) {
    m == 60.0 || m == 3600.0
  }

  /** The `%` operator by a clock divisor: the remainder carries the sign of the dividend. */
  function Rem(x: real, m: real): (r: real)
    requires ClockDivisor(m)
    ensures x >= 0.0 ==> 0.0 <= r < m
    ensures x < 0.0 ==> -m < r <= 0.0
    ensures x >= 0.0 ==> x - r == m * (x / m).Floor as real
  {
    if x >= 0.0 then x - m * (x / m).Floor as real
    else -(-x - m * (-x / m).Floor as real)
  }

  /** `k * x` for a positive constant `k`: NaN and the infinities keep their kind. */
  function Scale(k: real, x: Num): (r: Num)
    requires k > 0.0
    ensures r.IsFinite() <==> x.IsFinite()
    ensures r.NaN? <==> x.NaN?
    ensures x.Finite? ==> (r.value < 0.0 <==> x.value < 0.0)
    ensures x.Finite? ==> r == Finite(k * x.value)
    ensures x.Infinity? ==> r.Infinity?
    ensures x.NegInfinity? ==> r.NegInfinity?
  {
    match x
    case Finite(v) => Finite(k * v)
    case NaN => NaN
    case Infinity => Infinity
    case NegInfinity => NegInfinity
  }

  /** Adding a whole number moves the rounded value by exactly that number. */
  lemma RoundShift(x: real, n: int)
    ensures Round(x + n as real) == Round(x) + n
  {
  }

  /** Math.round leaves whole numbers alone. */
  lemma RoundOfInteger(n: int)
    ensures Round(n as real) == n
  {
  }
}
