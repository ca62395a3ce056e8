/**
 Polynomial addition and multiplication of quarantine/lattice.rs in machine arithmetic, for any
 degree n and modulus q that the integer types can carry.
 */
module LatticePoly {
  import opened Congruence
  import opened NegacyclicRing

  // ---------------------------------------------------------------------------------------
  // Machine arithmetic

  const TWO_31: int := 0x8000_0000
  const TWO_63: int := 0x8000_0000_0000_0000

  /** Two's complement wrap-around; a number in range is itself. */
  function WrapI32(x: int): int {
    if -TWO_31 <= x < TWO_31 then x else (x + TWO_31) % (2 * TWO_31) - TWO_31
  }

  function WrapI64(x: int): int {
    if -TWO_63 <= x < TWO_63 then x else (x + TWO_63) % (2 * TWO_63) - TWO_63
  }

  /** Both results are in their range and differ from x by a multiple of 2^32 or 2^64. */
  lemma WrapsAround(x: int)
    ensures -0x8000_0000 <= WrapI32(x) < 0x8000_0000 && Congruent(x, WrapI32(x), 0x1_0000_0000)
    ensures -0x8000_0000_0000_0000 <= WrapI64(x) < 0x8000_0000_0000_0000 && Congruent(x, WrapI64(x), 0x1_0000_0000_0000_0000)
  {
    MultipleIsZero((x + TWO_31) / (2 * TWO_31), 2 * TWO_31);
    MultipleIsZero((x + TWO_63) / (2 * TWO_63), 2 * TWO_63);
  }

  /** The remainder of truncating division, which takes the sign of the dividend. */
  function Rem(x: int, q: int): int
    requires q > 0
  {
    if x >= 0 then x % q else -((-x) % q)
  }

  lemma RemThenCorrect(x: int, q: int)
    requires q > 0
    ensures -q < Rem(x, q) < q && (x >= 0 ==> Rem(x, q) >= 0) && (x <= 0 ==> Rem(x, q) <= 0)
    ensures (if Rem(x, q) < 0 then Rem(x, q) + q else Rem(x, q)) == x % q
  {
    if x < 0 {
      var r, m := (-x) % q, (-x) / q;
      assert -x == m * q + r;
      if r == 0 {
        assert x == 0 + (-m) * q;
        Residue(x, 0, -m, q);
      } else {
        assert x == (q - r) + (-m - 1) * q;
        Residue(x, q - r, -m - 1, q);
      }
    }
  }

  /** Parameters whose products and sums stay inside the integer types of the source. */
  ghost predicate Fits(n: nat, q: int) {
    0 < n && 2 < q && 2 * q < TWO_31 && 2 * (n * (q * q)) < TWO_63
  }

  lemma SourceParametersFit()
    ensures Fits(256, 3329)
  {}

  predicate Small(a: Poly, q: int) {
    forall i :: 0 <= i < |a| ==> -q < a[i] < q
  }

  predicate Residues(a: Poly, q: int) {
    forall i :: 0 <= i < |a| ==> 0 <= a[i] < q
  }

  // ---------------------------------------------------------------------------------------
  // Schoolbook multiplication

  function ZeroBeyond(a: Poly, j: int): int {
    if 0 <= j < |a| then a[j] else 0
  }

  /** Coefficient k of the plain product, from the first m terms. */
  function Raw(a: Poly, b: Poly, k: int, m: nat): int
    requires m <= |a|
  {
    if m == 0 then 0 else Raw(a, b, k, m - 1) + a[m - 1] * ZeroBeyond(b, k - (m - 1))
  }

  lemma SmallProduct(x: int, y: int, q: int)
    requires -q < x < q && -q < y < q
    ensures -(q * q) <= x * y <= q * q
  {
    if x >= 0 {
      ProductUpTo(x, y, q);
    } else {
      ProductUpTo(-x, y, q);
    }
  }

  lemma ProductUpTo(x: int, y: int, q: int)
    requires 0 <= x < q && -q < y < q
    ensures -(q * q) <= x * y <= q * q
  {
    assert x * (q - y) >= 0 && x * (q + y) >= 0 && (q - x) * q >= 0;
  }

  lemma {:induction false} RawBound(a: Poly, b: Poly, k: int, m: nat, q: int)
    requires q > 0 && m <= |a| && Small(a, q) && Small(b, q)
    ensures -(m * (q * q)) <= Raw(a, b, k, m) <= m * (q * q)
  {
    if m > 0 {
      RawBound(a, b, k, m - 1, q);
      SmallProduct(a[m - 1], ZeroBeyond(b, k - (m - 1)), q);
      assert m * (q * q) == (m - 1) * (q * q) + q * q;
    }
  }

  lemma {:induction false} RawVanishes(a: Poly, b: Poly, k: int, m: nat)
    requires m <= |a| && k - m >= |b| - 1
    ensures Raw(a, b, k, m) == 0
  {
    if m > 0 {
      RawVanishes(a, b, k, m - 1);
    }
  }

  /** Folding the upper half back with opposite sign gives the negacyclic convolution. */
  lemma {:induction false} RawFolds(a: Poly, b: Poly, k: int, m: nat)
    requires |a| == |b| && m <= |a| && 0 <= k < |a|
    ensures Raw(a, b, k, m) - Raw(a, b, k + |a|, m) == ConvSum(a, b, k, 0, m)
  {
    if m > 0 {
      RawFolds(a, b, k, m - 1);
      var i := m - 1;
      CoefFolds(b, k - i);
      assert k + |a| - i == k - i + |b|;
      FoldTerm(a[i], ZeroBeyond(b, k - i), ZeroBeyond(b, k + |a| - i), Coef(b, k - i));
    }
  }

  lemma CoefFolds(b: Poly, j: int)
    requires -|b| < j < |b|
    ensures Coef(b, j) == ZeroBeyond(b, j) - ZeroBeyond(b, j + |b|)
  {}

  lemma FoldTerm(x: int, low: int, high: int, coef: int)
    requires coef == low - high
    ensures x * low - x * high == x * coef
  {}

  lemma RawScaleBound(n: nat, m: nat, q: int)
    requires m <= n && q > 0
    ensures 0 <= m * (q * q) <= n * (q * q)
  {
    assert (n - m) * (q * q) >= 0 && m * (q * q) >= 0;
  }

  lemma RawFits(a: Poly, b: Poly, k: int, m: nat, n: nat, q: int)
    requires Fits(n, q) && m <= |a| == n && Small(a, q) && Small(b, q)
    ensures -TWO_63 <= 2 * Raw(a, b, k, m) < TWO_63
  {
    RawBound(a, b, k, m, q);
    RawScaleBound(n, m, q);
  }

  lemma TermFits(x: int, y: int, n: nat, q: int)
    requires Fits(n, q) && -q < x < q && -q < y < q
    ensures -TWO_63 <= x * y < TWO_63
  {
    SmallProduct(x, y, q);
    RawScaleBound(n, 1, q);
  }

  /** The plain product in 64-bit arithmetic. */
  method Schoolbook(a: Poly, b: Poly, n: nat, q: int, temp: array<int>)
    requires Fits(n, q) && |a| == |b| == n && Small(a, q) && Small(b, q)
    requires temp.Length == 2 * n && forall k :: 0 <= k < 2 * n ==> temp[k] == 0
    modifies temp
    ensures forall k :: 0 <= k < 2 * n ==> temp[k] == Raw(a, b, k, n)
  {
    for i := 0 to n
      invariant forall k :: 0 <= k < 2 * n ==> temp[k] == Raw(a, b, k, i)
    {
      for j := 0 to n
        invariant forall k :: 0 <= k < 2 * n ==>
          temp[k] == if i <= k < i + j then Raw(a, b, k, i + 1) else Raw(a, b, k, i)
      {
        TermFits(a[i], b[j], n, q);
        RawFits(a, b, i + j, i + 1, n, q);
        temp[i + j] := WrapI64(temp[i + j] + WrapI64(a[i] * b[j]));
      }
      forall k | 0 <= k < 2 * n && !(i <= k < i + n) ensures Raw(a, b, k, i + 1) == Raw(a, b, k, i) {
        assert ZeroBeyond(b, k - i) == 0;
      }
    }
  }

  /** Reduction by X^n + 1, from the top down and in place. */
  method Fold(a: Poly, b: Poly, n: nat, temp: array<int>)
    requires |a| == |b| == n > 0
    requires temp.Length == 2 * n && forall k :: 0 <= k < 2 * n ==> temp[k] == Raw(a, b, k, n)
    requires forall k :: 0 <= k < 2 * n ==> -TWO_63 <= 2 * temp[k] < TWO_63
    modifies temp
    ensures forall k :: 0 <= k < n ==> temp[k] == Conv(a, b, k)
  {
    RawVanishes(a, b, 2 * n - 1, n);
    for i := 2 * n - 1 downto n
      invariant n <= i < 2 * n
      invariant forall k :: 0 <= k < n ==>
        temp[k] == if k + n >= i then old(temp[k]) - old(temp[k + n]) else old(temp[k])
      invariant forall k :: n <= k < i ==> temp[k] == old(temp[k])
    {
      temp[i - n] := WrapI64(temp[i - n] - temp[i]);
      temp[i] := 0;
    }
    forall k | 0 <= k < n ensures temp[k] == Conv(a, b, k) {
      RawFolds(a, b, k, n);
    }
  }

  method PolyMul(a: Poly, b: Poly, n: nat, q: int) returns (r: Poly)
    requires Fits(n, q) && |a| == |b| == n && Small(a, q) && Small(b, q)
    ensures r == ModTimes(a, b, q) && |r| == n && Residues(r, q)
  {
    var coeffs, temp := new int[n](_ => 0), new int[2 * n](_ => 0);
    Schoolbook(a, b, n, q, temp);
    forall k | 0 <= k < 2 * n ensures -TWO_63 <= 2 * temp[k] < TWO_63 {
      RawFits(a, b, k, n, n, q);
    }
    Fold(a, b, n, temp);
    for k := 0 to n
      invariant forall l :: 0 <= l < n ==> temp[l] == Conv(a, b, l)
      invariant forall l :: 0 <= l < k ==> coeffs[l] == Conv(a, b, l) % q
    {
      RemThenCorrect(temp[k], q);
      var val := WrapI32(Rem(temp[k], q));
      if val < 0 {
        val := WrapI32(val + q);
      }
      coeffs[k] := val;
    }
    r := coeffs[..];
  }

  method PolyAdd(a: Poly, b: Poly, n: nat, q: int) returns (r: Poly)
    requires Fits(n, q) && |a| == |b| == n && Small(a, q) && Small(b, q)
    ensures r == ModPlus(a, b, q) && |r| == n && Residues(r, q)
  {
    var coeffs := new int[n](_ => 0);
    for i := 0 to n
      invariant forall l :: 0 <= l < i ==> coeffs[l] == (a[l] + b[l]) % q
    {
      RemThenCorrect(a[i] + b[i], q);
      coeffs[i] := Rem(WrapI32(a[i] + b[i]), q);
      if coeffs[i] < 0 {
        coeffs[i] := WrapI32(coeffs[i] + q);
      }
    }
    r := coeffs[..];
  }
}
