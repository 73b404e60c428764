/** The C++ conversion `int(x)` from a floating-point value, modelled on reals.
    The conversion truncates toward zero: it is `floor` for non-negative values
    and `ceiling` for negative ones. */
module Numeric {

  /** Truncation toward zero. */
  function Trunc(x: real): (r: int)
    ensures 0.0 <= x ==> 0 <= r && r as real <= x < r as real + 1.0
    ensures x < 0.0 ==> r <= 0 && r as real - 1.0 < x <= r as real
  {
    if x >= 0.0 then x.Floor else -((-x).Floor)
  }

  /** The magnitude of a real, used to state truncation independently of its sign. */
  function AbsReal(x: real): real {
    if x < 0.0 then -x else x
  }

  /** An independent characterisation of truncation: the integer that has the
      sign of `x` and whose magnitude is the largest integer not above `|x|`. */
  ghost predicate IsTruncation(x: real, n: int) {
    && (0.0 <= x ==> 0 <= n)
    && (x <= 0.0 ==> n <= 0)
    && AbsReal(n as real) <= AbsReal(x) < AbsReal(n as real) + 1.0
  }

  /** `Trunc` meets the characterisation, and it is the only integer that does. */
  lemma TruncIsTheTruncation(x: real, n: int)
    ensures IsTruncation(x, Trunc(x))
    ensures IsTruncation(x, n) ==> n == Trunc(x)
  {
  }

  /** Truncation preserves order, so widening a box never shrinks its pixel bounds. */
  lemma TruncMonotone(x: real, y: real)
    requires x <= y
    ensures Trunc(x) <= Trunc(y)
  {
  }

  /** Truncation differs from flooring exactly on negative non-integers. */
  lemma TruncVersusFloor(x: real)
    ensures Trunc(x) == x.Floor <==> (0.0 <= x || x == x.Floor as real)
  {
  }

  function Abs(n: int): (r: nat)
    ensures r == n || r == -n
  {
    if n < 0 then -n else n
  }

  function Max(a: int, b: int): (r: int)
    ensures a <= r && b <= r && (r == a || r == b)
  {
    if a < b then b else a
  }

  function Min(a: int, b: int): (r: int)
    ensures r <= a && r <= b && (r == a || r == b)
  {
    if a < b then a else b
  }
}
