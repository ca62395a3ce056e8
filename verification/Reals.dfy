/** Real arithmetic that several modules use. */
module Reals {
  function Min(a: real, b: real): (m: real)
    ensures m <= a && m <= b && (m == a || m == b)
  {
    if a <= b then a else b
  }

  function Max(a: real, b: real): (m: real)
    ensures m >= a && m >= b && (m == a || m == b)
  {
    if a >= b then a else b
  }

  function Abs(a: real): (m: real)
    ensures m >= 0.0 && (m == a || m == -a)
  {
    if a >= 0.0 then a else -a
  }

  /** y is the point of [low, high] that is nearest to x. */
  ghost predicate Nearest(x: real, low: real, high: real, y: real) {
    low <= y <= high && (y < x ==> y == high) && (y > x ==> y == low)
  }

  function Sum(xs: seq<real>): real {
    if xs == [] then 0.0 else xs[0] + Sum(xs[1..])
  }

  ghost predicate Product(x: real, a: real, b: real) { x == a * b }

  lemma ProductAssociates(x: real, y: real, z: real)
    ensures x * y * z == x * (y * z)
  {
  }

  lemma PositiveProduct(x: real, y: real)
    requires x > 0.0 && y > 0.0
    ensures x * y > 0.0
  {
  }

  lemma ProductIsPositive(x: real, a: real, b: real)
    requires Product(x, a, b) && a > 0.0 && b > 0.0
    ensures x > 0.0
  {
    PositiveProduct(a, b);
  }

  lemma Divided(x: real, y: real)
    requires y > 0.0
    ensures x / y * y == x
  {
  }
}
