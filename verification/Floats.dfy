/** Go's float32, by its shortest decimal form, and sums of float32 wall times. */
module Floats {
  import opened Text

  /**
   * (-1)^neg times 0.d1d2... times 10^point, with at most 9 digits and no zero at either end of them; NaN and the
   * infinities are values too. Zero has no digits.
   */
  datatype AnyFloat32 = NaN | Infinite(neg: bool) | Number(neg: bool, digits: string, point: int)

  predicate ShortestForm(f: AnyFloat32) {
    f.Number? ==>
      && |f.digits| <= 9 && AllDigits(f.digits)
      && (if f.digits == "" then f.point == 0
          else -44 <= f.point <= 39 && f.digits[0] != '0' && f.digits[|f.digits| - 1] != '0')
  }

  type Float32 = f: AnyFloat32 | ShortestForm(f) witness Number(false, "", 0)

  const NO_TIME: Float32 := Number(false, "", 0)

  // ---- sums of times ------------------------------------------------------------------------------

  /**
   * A sum of float32 times that is not rounded: so many times 10^-53, of which every float32 is a whole number by its
   * shortest form; or an infinity, or not a number.
   */
  datatype Time = Exact(units: int) | Unbounded(neg: bool) | Undefined

  const LEAST_PLACE := 53

  function Zeros(n: nat): (z: string)
    ensures |z| == n
  {
    seq(n, _ => '0')
  }

  function TimeOf(f: Float32): Time {
    match f
    case NaN => Undefined
    case Infinite(neg) => Unbounded(neg)
    case Number(neg, digits, point) =>
      var units: int := if digits == "" then 0 else Natural(digits + Zeros(LEAST_PLACE + point - |digits|));
      Exact(if neg then -units else units)
  }

  /** A number as that many times 10^-53. */
  function Units(f: Float32): int
    requires f.Number?
  {
    var units := Natural(f.digits) * Pow10(LEAST_PLACE + f.point - |f.digits|);
    if f.neg then -units else units
  }

  lemma TimesTen(a: int, b: int)
    ensures a * (10 * b) == 10 * (a * b)
  {
  }

  lemma {:induction false} NaturalWithZeros(s: string, n: nat)
    requires AllDigits(s)
    ensures AllDigits(s + Zeros(n)) && Natural(s + Zeros(n)) == Natural(s) * Pow10(n)
  {
    var t := s + Zeros(n);
    if n == 0 {
      assert t == s;
    } else {
      NaturalWithZeros(s, n - 1);
      assert t[..|t| - 1] == s + Zeros(n - 1) && t[|t| - 1] == '0';
      assert Natural(t) == 10 * Natural(s + Zeros(n - 1));
      TimesTen(Natural(s), Pow10(n - 1));
    }
  }

  lemma TimeOfNumber(f: Float32)
    requires f.Number?
    ensures TimeOf(f) == Exact(Units(f))
  {
    NaturalWithZeros(f.digits, LEAST_PLACE + f.point - |f.digits|);
  }

  /** IEEE 754 addition but for the rounding: infinities of opposite sign have no sum. */
  function AddTime(a: Time, b: Time): Time {
    match (a, b)
    case (Exact(x), Exact(y)) => Exact(x + y)
    case (Exact(_), Unbounded(_)) => b
    case (Unbounded(_), Exact(_)) => a
    case (Unbounded(m), Unbounded(n)) => if m == n then a else Undefined
    case (_, _) => Undefined
  }

  lemma AddTimeCommutes(a: Time, b: Time, c: Time)
    ensures AddTime(AddTime(a, b), c) == AddTime(AddTime(a, c), b)
  {
  }

  lemma AddTimeIsAssociative(a: Time, b: Time, c: Time)
    ensures AddTime(AddTime(a, b), c) == AddTime(a, AddTime(b, c)) && AddTime(a, Exact(0)) == a
  {
  }

  /** The quotient of a time and a positive number, not rounded either. */
  datatype Average = Average(total: Time, count: int)

  const NO_AVERAGE := Average(Exact(0), 1)

  /** An average as a float32; `round(n, d)` rounds the number n / d times 10^-53. */
  function Rounded(round: (int, int) -> Float32, a: Average): Float32 {
    match a.total
    case Exact(units) => round(units, a.count)
    case Unbounded(neg) => Infinite(neg)
    case Undefined => NaN
  }
}
