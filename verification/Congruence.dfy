/** Integers that agree up to a multiple of q. */
module Congruence {
  predicate Congruent(x: int, y: int, q: int)
    requires q > 0
  {
    (x - y) % q == 0
  }

  lemma AtLeastOnce(c: int, q: int)
    requires q > 0 && c >= 1
    ensures c * q >= q
  {}

  lemma SmallMultiple(c: int, q: int)
    requires q > 0 && -q < c * q < q
    ensures c == 0
  {
    if c >= 1 {
      AtLeastOnce(c, q);
    } else if c <= -1 {
      AtLeastOnce(-c, q);
    }
  }

  lemma MultipleIsZero(m: int, q: int)
    requires q > 0
    ensures (m * q) % q == 0
  {
    var r := (m * q) % q;
    var d := (m * q) / q;
    assert m * q == d * q + r;
    assert (m - d) * q == r;
    SmallMultiple(m - d, q);
  }

  /** The residue is the only remainder below q. */
  lemma Residue(x: int, r: int, m: int, q: int)
    requires q > 0 && 0 <= r < q && x == r + m * q
    ensures x % q == r
  {
    var d := x / q;
    assert x == d * q + x % q;
    assert (m - d) * q == x % q - r;
    SmallMultiple(m - d, q);
  }

  /** Congruent numbers differ by a multiple of q, and conversely. */
  lemma CongruentBy(x: int, y: int, m: int, q: int)
    requires q > 0 && x == y + m * q
    ensures Congruent(x, y, q)
  {
    MultipleIsZero(m, q);
  }

  lemma Quotient(x: int, y: int, q: int) returns (m: int)
    requires q > 0 && Congruent(x, y, q)
    ensures x == y + m * q
  {
    m := (x - y) / q;
  }

  lemma CongruentPlus(x: int, x': int, y: int, y': int, q: int)
    requires q > 0 && Congruent(x, x', q) && Congruent(y, y', q)
    ensures Congruent(x + y, x' + y', q)
  {
    var m := Quotient(x, x', q);
    var k := Quotient(y, y', q);
    assert x + y == x' + y' + (m + k) * q;
    CongruentBy(x + y, x' + y', m + k, q);
  }

  lemma CongruentTimes(x: int, x': int, c: int, q: int)
    requires q > 0 && Congruent(x, x', q)
    ensures Congruent(x * c, x' * c, q)
  {
    var m := Quotient(x, x', q);
    assert x * c == x' * c + (m * c) * q;
    CongruentBy(x * c, x' * c, m * c, q);
  }

  lemma CongruentTransitive(x: int, y: int, z: int, q: int)
    requires q > 0 && Congruent(x, y, q) && Congruent(y, z, q)
    ensures Congruent(x, z, q)
  {
    var m := Quotient(x, y, q);
    var k := Quotient(y, z, q);
    assert x == z + (m + k) * q;
    CongruentBy(x, z, m + k, q);
  }

  lemma ReduceCongruent(x: int, q: int)
    requires q > 0
    ensures Congruent(x % q, x, q)
  {
    CongruentBy(x % q, x, -(x / q), q);
  }

  lemma CongruentSameResidue(x: int, y: int, q: int)
    requires q > 0 && Congruent(x, y, q)
    ensures x % q == y % q
  {
    var m := Quotient(x, y, q);
    var d := x % q - y % q;
    assert x == (x / q) * q + x % q && y == (y / q) * q + y % q;
    assert d == (m - x / q + y / q) * q;
    var c := m - x / q + y / q;
    SmallMultiple(c, q);
  }
}
