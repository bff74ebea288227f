/** The integer behaviour of ECMAScript's `Math.floor(a / b)` and `a % b` for a
    positive divisor. Dafny's `/` and `%` are Euclidean; with `b > 0` the
    quotient is the floor, but JavaScript's `%` takes the sign of `a`. */
module JsMath {

  /** ECMAScript time values count milliseconds. */
  const MillisPerMinute: nat := 60 * 1000
  const MillisPerHour: nat := 60 * MillisPerMinute
  const MillisPerDay: nat := 24 * MillisPerHour

  /** `Math.floor(a / b)` for a positive divisor. */
  function FloorDiv(a: int, b: int): (q: int)
    requires b > 0
    ensures q * b <= a < q * b + b
  {
    a / b
  }

  /** `a % b` in JavaScript: truncating, so the remainder has the sign of `a`. */
  function Rem(a: int, b: int): (r: int)
    requires b > 0
    ensures -b < r < b
    ensures a >= 0 ==> r == a % b
    ensures a < 0 ==> r <= 0 && r == -((-a) % b)
  {
    if a >= 0 then a % b else -((-a) % b)
  }
}
