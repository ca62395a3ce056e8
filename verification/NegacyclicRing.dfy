/**
 The ring Z[X]/(X^n + 1) and its reduction mod q: the ring R_q of section 2.3 of FIPS 203, here
 for any degree n and any modulus q.
 */
module NegacyclicRing {
  import opened Congruence

  /** Coefficients, lowest power first. */
  type Poly = seq<int>

  // ---------------------------------------------------------------------------------------
  // Negacyclic convolution

  /**
   The coefficient of X^j for every integer j: X^n is -1, so the coefficients continue beyond
   the polynomial with the opposite sign.
   */
  function Coef(a: Poly, j: int): int
    decreases if j < 0 then |a| - j else j
  {
    if a == [] then 0
    else if 0 <= j < |a| then a[j]
    else if j < 0 then -Coef(a, j + |a|)
    else -Coef(a, j - |a|)
  }

  /** The terms i of coefficient k of the product, summed over lo <= i < hi. */
  function ConvSum(a: Poly, b: Poly, k: int, lo: int, hi: int): int
    requires lo <= hi
    decreases hi - lo
  {
    if lo == hi then 0 else ConvSum(a, b, k, lo, hi - 1) + Coef(a, hi - 1) * Coef(b, k - (hi - 1))
  }

  /** Coefficient k of the product. */
  function Conv(a: Poly, b: Poly, k: int): int {
    ConvSum(a, b, k, 0, |a|)
  }

  function Times(a: Poly, b: Poly): (c: Poly)
    ensures |c| == |a| && forall k :: 0 <= k < |a| ==> c[k] == Conv(a, b, k)
  {
    seq(|a|, k => Conv(a, b, k))
  }

  function Plus(a: Poly, b: Poly): (c: Poly)
    requires |a| == |b|
    ensures |c| == |a| && forall k :: 0 <= k < |a| ==> c[k] == a[k] + b[k]
  {
    seq(|a|, k requires 0 <= k < |a| => a[k] + b[k])
  }

  lemma CoefWraps(a: Poly, j: int)
    ensures Coef(a, j + |a|) == -Coef(a, j)
  {}

  lemma SignOfProduct(x: int, y: int, x': int, y': int)
    requires x' == -x && y' == -y
    ensures x' * y' == x * y && x * y' == -(x * y)
  {}

  lemma {:induction false} ConvSumWraps(a: Poly, b: Poly, k: int, lo: int, hi: int)
    requires lo <= hi
    ensures ConvSum(a, b, k + |b|, lo, hi) == -ConvSum(a, b, k, lo, hi)
    decreases hi - lo
  {
    if lo < hi {
      ConvSumWraps(a, b, k, lo, hi - 1);
      CoefWraps(b, k - (hi - 1));
      assert k + |b| - (hi - 1) == k - (hi - 1) + |b|;
      var x := Coef(a, hi - 1);
      SignOfProduct(x, Coef(b, k - (hi - 1)), -x, Coef(b, k + |b| - (hi - 1)));
    }
  }

  lemma {:induction false} ConvSumHead(a: Poly, b: Poly, k: int, lo: int, hi: int)
    requires lo < hi
    ensures ConvSum(a, b, k, lo, hi) == Coef(a, lo) * Coef(b, k - lo) + ConvSum(a, b, k, lo + 1, hi)
    decreases hi - lo
  {
    if lo + 1 < hi {
      ConvSumHead(a, b, k, lo, hi - 1);
    }
  }

  lemma {:induction false} ConvSumReflects(a: Poly, b: Poly, k: int, lo: int, hi: int)
    requires lo <= hi
    ensures ConvSum(a, b, k, lo, hi) == ConvSum(b, a, k, k - hi + 1, k - lo + 1)
    decreases hi - lo
  {
    if lo < hi {
      ConvSumReflects(a, b, k, lo, hi - 1);
      ConvSumHead(b, a, k, k - hi + 1, k - lo + 1);
      assert k - (k - hi + 1) == hi - 1 && k - (hi - 1) + 1 == k - hi + 1 + 1;
    }
  }

  /** The terms repeat with period n, so every window of n terms has the same sum. */
  lemma {:induction false} ConvSumWindow(a: Poly, b: Poly, k: int, s: int)
    requires |a| == |b|
    ensures ConvSum(a, b, k, s, s + |a|) == Conv(a, b, k)
    decreases if s < 0 then -s else s
  {
    if s > 0 {
      ConvSumWindow(a, b, k, s - 1);
      NextWindow(a, b, k, s - 1);
    } else if s < 0 {
      ConvSumWindow(a, b, k, s + 1);
      NextWindow(a, b, k, s);
    }
  }

  lemma NextWindow(a: Poly, b: Poly, k: int, s: int)
    requires |a| == |b|
    ensures ConvSum(a, b, k, s, s + |a|) == ConvSum(a, b, k, s + 1, s + 1 + |a|)
  {
    if |a| > 0 {
      ConvSumHead(a, b, k, s, s + |a|);
      assert s + 1 + |a| - 1 == s + |a|;
      CoefWraps(a, s);
      CoefWraps(b, k - (s + |a|));
      assert k - (s + |a|) + |b| == k - s;
      SignOfProduct(Coef(a, s), Coef(b, k - s), Coef(a, s + |a|), Coef(b, k - (s + |a|)));
    }
  }

  lemma ConvCommutes(a: Poly, b: Poly, k: int)
    requires |a| == |b|
    ensures Conv(a, b, k) == Conv(b, a, k)
  {
    ConvSumReflects(a, b, k, 0, |a|);
    ConvSumWindow(b, a, k, k - |a| + 1);
    assert k - |a| + 1 + |b| == k + 1;
  }

  /** The product's coefficients are the convolution at every power, not just below n. */
  lemma {:induction false} CoefTimes(a: Poly, b: Poly, k: int)
    requires |a| == |b| > 0
    ensures Coef(Times(a, b), k) == Conv(a, b, k)
    decreases if k < 0 then |a| - k else k
  {
    if k < 0 {
      CoefTimes(a, b, k + |a|);
      ConvSumWraps(a, b, k, 0, |a|);
    } else if k >= |a| {
      CoefTimes(a, b, k - |a|);
      ConvSumWraps(a, b, k - |a|, 0, |a|);
    }
  }

  lemma {:induction false} CoefPlus(a: Poly, b: Poly, k: int)
    requires |a| == |b|
    ensures Coef(Plus(a, b), k) == Coef(a, k) + Coef(b, k)
    decreases if k < 0 then |a| - k else k
  {
    if |a| > 0 {
      if k < 0 {
        CoefPlus(a, b, k + |a|);
      } else if k >= |a| {
        CoefPlus(a, b, k - |a|);
      }
    }
  }

  // ---------------------------------------------------------------------------------------
  // Associativity: a grid of triple products summed by rows and by columns

  function Cell(a: Poly, b: Poly, c: Poly, k: int, i: int, j: int): int {
    Coef(a, i) * (Coef(b, j - i) * Coef(c, k - j))
  }

  function RowSum(a: Poly, b: Poly, c: Poly, k: int, i: int, n: nat): int {
    if n == 0 then 0 else RowSum(a, b, c, k, i, n - 1) + Cell(a, b, c, k, i, n - 1)
  }

  function ColumnSum(a: Poly, b: Poly, c: Poly, k: int, j: int, m: nat): int {
    if m == 0 then 0 else ColumnSum(a, b, c, k, j, m - 1) + Cell(a, b, c, k, m - 1, j)
  }

  function ByRows(a: Poly, b: Poly, c: Poly, k: int, m: nat, n: nat): int {
    if m == 0 then 0 else ByRows(a, b, c, k, m - 1, n) + RowSum(a, b, c, k, m - 1, n)
  }

  function ByColumns(a: Poly, b: Poly, c: Poly, k: int, m: nat, n: nat): int {
    if n == 0 then 0 else ByColumns(a, b, c, k, m, n - 1) + ColumnSum(a, b, c, k, n - 1, m)
  }

  lemma {:induction false} AddRow(a: Poly, b: Poly, c: Poly, k: int, m: nat, n: nat)
    requires m > 0
    ensures ByColumns(a, b, c, k, m, n) == ByColumns(a, b, c, k, m - 1, n) + RowSum(a, b, c, k, m - 1, n)
  {
    if n > 0 {
      AddRow(a, b, c, k, m, n - 1);
    }
  }

  lemma {:induction false} NoRows(a: Poly, b: Poly, c: Poly, k: int, n: nat)
    ensures ByColumns(a, b, c, k, 0, n) == 0
  {
    if n > 0 {
      NoRows(a, b, c, k, n - 1);
    }
  }

  lemma {:induction false} RowsAreColumns(a: Poly, b: Poly, c: Poly, k: int, m: nat, n: nat)
    ensures ByRows(a, b, c, k, m, n) == ByColumns(a, b, c, k, m, n)
  {
    if m == 0 {
      NoRows(a, b, c, k, n);
    } else {
      RowsAreColumns(a, b, c, k, m - 1, n);
      AddRow(a, b, c, k, m, n);
    }
  }

  lemma Distribute(c: int, x: int, y: int)
    ensures c * (x + y) == c * x + c * y
  {}

  /** A row is a coefficient of a times part of the convolution of b and c, moved down by i. */
  lemma {:induction false} RowIsConv(a: Poly, b: Poly, c: Poly, k: int, i: int, n: nat)
    ensures RowSum(a, b, c, k, i, n) == Coef(a, i) * ConvSum(b, c, k - i, -i, n - i)
  {
    if n > 0 {
      RowIsConv(a, b, c, k, i, n - 1);
      assert n - i - 1 == n - 1 - i && k - i - (n - i - 1) == k - (n - 1);
      Distribute(Coef(a, i), ConvSum(b, c, k - i, -i, n - 1 - i), Coef(b, n - 1 - i) * Coef(c, k - (n - 1)));
    }
  }

  lemma {:induction false} ColumnIsConv(a: Poly, b: Poly, c: Poly, k: int, j: int, m: nat)
    ensures ColumnSum(a, b, c, k, j, m) == ConvSum(a, b, j, 0, m) * Coef(c, k - j)
  {
    if m > 0 {
      ColumnIsConv(a, b, c, k, j, m - 1);
      var x, y, z := Coef(a, m - 1), Coef(b, j - (m - 1)), Coef(c, k - j);
      Rearrange(x, y, z);
      SumTimes(ConvSum(a, b, j, 0, m - 1), x * y, ConvSum(a, b, j, 0, m), z);
    }
  }

  lemma Rearrange(x: int, y: int, z: int)
    ensures x * (y * z) == (x * y) * z
  {}

  lemma {:induction false} ByRowsIsConv(a: Poly, b: Poly, c: Poly, k: int, m: nat)
    requires |a| == |b| == |c| > 0
    ensures ByRows(a, b, c, k, m, |b|) == ConvSum(a, Times(b, c), k, 0, m)
  {
    if m > 0 {
      ByRowsIsConv(a, b, c, k, m - 1);
      RowIsConv(a, b, c, k, m - 1, |b|);
      ConvSumWindow(b, c, k - (m - 1), -(m - 1));
      assert -(m - 1) + |b| == |b| - (m - 1);
      CoefTimes(b, c, k - (m - 1));
    }
  }

  lemma {:induction false} ByColumnsIsConv(a: Poly, b: Poly, c: Poly, k: int, n: nat)
    requires |a| == |b| == |c| > 0
    ensures ByColumns(a, b, c, k, |a|, n) == ConvSum(Times(a, b), c, k, 0, n)
  {
    if n > 0 {
      ByColumnsIsConv(a, b, c, k, n - 1);
      ColumnIsConv(a, b, c, k, n - 1, |a|);
      CoefTimes(a, b, n - 1);
    }
  }

  // ---------------------------------------------------------------------------------------
  // The laws of Z[X]/(X^n + 1)

  lemma TimesCommutes(a: Poly, b: Poly)
    requires |a| == |b|
    ensures Times(a, b) == Times(b, a)
  {
    forall k | 0 <= k < |a| ensures Times(a, b)[k] == Times(b, a)[k] {
      ConvCommutes(a, b, k);
    }
  }

  lemma TimesAssociates(a: Poly, b: Poly, c: Poly)
    requires |a| == |b| == |c|
    ensures Times(Times(a, b), c) == Times(a, Times(b, c))
  {
    forall k | 0 <= k < |a| ensures Times(Times(a, b), c)[k] == Times(a, Times(b, c))[k] {
      RowsAreColumns(a, b, c, k, |a|, |a|);
      ByRowsIsConv(a, b, c, k, |a|);
      ByColumnsIsConv(a, b, c, k, |a|);
    }
  }

  lemma {:induction false} ConvSumAdds(a: Poly, b: Poly, c: Poly, k: int, lo: int, hi: int)
    requires lo <= hi && |a| == |b|
    ensures ConvSum(Plus(a, b), c, k, lo, hi) == ConvSum(a, c, k, lo, hi) + ConvSum(b, c, k, lo, hi)
    decreases hi - lo
  {
    if lo < hi {
      ConvSumAdds(a, b, c, k, lo, hi - 1);
      CoefPlus(a, b, hi - 1);
      SumTimes(Coef(a, hi - 1), Coef(b, hi - 1), Coef(Plus(a, b), hi - 1), Coef(c, k - (hi - 1)));
    }
  }

  lemma SumTimes(x: int, y: int, sum: int, c: int)
    requires sum == x + y
    ensures sum * c == x * c + y * c
  {}

  lemma TimesDistributes(a: Poly, b: Poly, c: Poly)
    requires |a| == |b| == |c|
    ensures Times(Plus(a, b), c) == Plus(Times(a, c), Times(b, c))
  {
    forall k | 0 <= k < |a| ensures Times(Plus(a, b), c)[k] == Plus(Times(a, c), Times(b, c))[k] {
      ConvSumAdds(a, b, c, k, 0, |a|);
    }
  }

  /** X^m. */
  function Power(m: nat, n: nat): (x: Poly)
    requires m < n
    ensures |x| == n && forall k :: 0 <= k < n ==> x[k] == if k == m then 1 else 0
  {
    seq(n, k => if k == m then 1 else 0)
  }

  lemma {:induction false} PowerTerms(b: Poly, m: nat, k: nat, hi: nat)
    requires m < |b| && k < |b| && hi <= |b|
    ensures ConvSum(Power(m, |b|), b, k, 0, hi) == if m < hi then Coef(b, k - m) else 0
    decreases hi
  {
    if hi > 0 {
      PowerTerms(b, m, k, hi - 1);
      assert Coef(Power(m, |b|), hi - 1) == if hi - 1 == m then 1 else 0;
    }
  }

  /**
   Multiplication by X^m moves every coefficient up by m, and what leaves at the top comes back at
   the bottom with the opposite sign: X^n is -1, and X^0 is the one of the ring.
   */
  lemma PowerShifts(b: Poly, m: nat)
    requires m < |b|
    ensures forall k :: 0 <= k < |b| ==> Times(b, Power(m, |b|))[k] == if k >= m then b[k - m] else -b[k - m + |b|]
  {
    TimesCommutes(b, Power(m, |b|));
    forall k: nat | k < |b| ensures Times(Power(m, |b|), b)[k] == if k >= m then b[k - m] else -b[k - m + |b|] {
      PowerTerms(b, m, k, |b|);
    }
  }

  // ---------------------------------------------------------------------------------------
  // Arithmetic mod q

  function Reduce(a: Poly, q: int): (r: Poly)
    requires q > 0
    ensures |r| == |a| && forall k :: 0 <= k < |a| ==> r[k] == a[k] % q
  {
    seq(|a|, k requires 0 <= k < |a| => a[k] % q)
  }

  function ModTimes(a: Poly, b: Poly, q: int): Poly
    requires q > 0
  {
    Reduce(Times(a, b), q)
  }

  function ModPlus(a: Poly, b: Poly, q: int): Poly
    requires q > 0 && |a| == |b|
  {
    Reduce(Plus(a, b), q)
  }

  ghost predicate SameMod(a: Poly, b: Poly, q: int)
    requires q > 0
  {
    |a| == |b| && forall k :: 0 <= k < |a| ==> Congruent(a[k], b[k], q)
  }

  lemma ReduceSame(a: Poly, q: int)
    requires q > 0
    ensures SameMod(Reduce(a, q), a, q)
  {
    forall k | 0 <= k < |a| ensures Congruent(Reduce(a, q)[k], a[k], q) {
      ReduceCongruent(a[k], q);
    }
  }

  lemma SameReduces(a: Poly, b: Poly, q: int)
    requires q > 0 && SameMod(a, b, q)
    ensures Reduce(a, q) == Reduce(b, q)
  {
    forall k | 0 <= k < |a| ensures a[k] % q == b[k] % q {
      CongruentSameResidue(a[k], b[k], q);
    }
  }

  lemma {:induction false} SameCoef(a: Poly, b: Poly, k: int, q: int)
    requires q > 0 && SameMod(a, b, q)
    ensures Congruent(Coef(a, k), Coef(b, k), q)
    decreases if k < 0 then |a| - k else k
  {
    if |a| > 0 {
      if k < 0 {
        SameCoef(a, b, k + |a|, q);
        CongruentTimes(Coef(a, k + |a|), Coef(b, k + |a|), -1, q);
      } else if k >= |a| {
        SameCoef(a, b, k - |a|, q);
        CongruentTimes(Coef(a, k - |a|), Coef(b, k - |a|), -1, q);
      }
    }
  }

  /** A factor may be replaced by a congruent one. */
  lemma {:induction false} ConvSumSame(a: Poly, a': Poly, b: Poly, k: int, lo: int, hi: int, q: int)
    requires lo <= hi && q > 0 && SameMod(a, a', q)
    ensures Congruent(ConvSum(a, b, k, lo, hi), ConvSum(a', b, k, lo, hi), q)
    decreases hi - lo
  {
    if lo < hi {
      ConvSumSame(a, a', b, k, lo, hi - 1, q);
      SameCoef(a, a', hi - 1, q);
      CongruentTimes(Coef(a, hi - 1), Coef(a', hi - 1), Coef(b, k - (hi - 1)), q);
      CongruentPlus(ConvSum(a, b, k, lo, hi - 1), ConvSum(a', b, k, lo, hi - 1),
                    Coef(a, hi - 1) * Coef(b, k - (hi - 1)), Coef(a', hi - 1) * Coef(b, k - (hi - 1)), q);
    }
  }

  lemma SameTimes(a: Poly, a': Poly, b: Poly, q: int)
    requires q > 0 && SameMod(a, a', q)
    ensures SameMod(Times(a, b), Times(a', b), q)
  {
    forall k | 0 <= k < |a| ensures Congruent(Times(a, b)[k], Times(a', b)[k], q) {
      ConvSumSame(a, a', b, k, 0, |a|, q);
    }
  }

  lemma SamePlus(a: Poly, a': Poly, b: Poly, b': Poly, q: int)
    requires q > 0 && |a| == |b| && SameMod(a, a', q) && SameMod(b, b', q)
    ensures SameMod(Plus(a, b), Plus(a', b'), q)
  {
    forall k | 0 <= k < |a| ensures Congruent(Plus(a, b)[k], Plus(a', b')[k], q) {
      CongruentPlus(a[k], a'[k], b[k], b'[k], q);
    }
  }

  lemma SameTransitive(a: Poly, b: Poly, c: Poly, q: int)
    requires q > 0 && SameMod(a, b, q) && SameMod(b, c, q)
    ensures SameMod(a, c, q)
  {
    forall k | 0 <= k < |a| ensures Congruent(a[k], c[k], q) {
      CongruentTransitive(a[k], b[k], c[k], q);
    }
  }

  // ---------------------------------------------------------------------------------------
  // The laws of R_q

  lemma ModTimesCommutes(a: Poly, b: Poly, q: int)
    requires q > 0 && |a| == |b|
    ensures ModTimes(a, b, q) == ModTimes(b, a, q)
  {
    TimesCommutes(a, b);
  }

  /** Reducing the left factor first makes no difference. */
  lemma ModTimesReduced(a: Poly, b: Poly, q: int)
    requires q > 0
    ensures ModTimes(Reduce(a, q), b, q) == ModTimes(a, b, q)
  {
    ReduceSame(a, q);
    SameTimes(Reduce(a, q), a, b, q);
    SameReduces(Times(Reduce(a, q), b), Times(a, b), q);
  }

  lemma ModTimesAssociates(a: Poly, b: Poly, c: Poly, q: int)
    requires q > 0 && |a| == |b| == |c|
    ensures ModTimes(ModTimes(a, b, q), c, q) == ModTimes(a, ModTimes(b, c, q), q)
  {
    ModTimesReduced(Times(a, b), c, q);
    ModTimesReduced(Times(b, c), a, q);
    TimesCommutes(a, Reduce(Times(b, c), q));
    TimesCommutes(Times(b, c), a);
    TimesAssociates(a, b, c);
  }

  lemma ModTimesDistributes(a: Poly, b: Poly, c: Poly, q: int)
    requires q > 0 && |a| == |b| == |c|
    ensures ModTimes(ModPlus(a, b, q), c, q) == ModPlus(ModTimes(a, c, q), ModTimes(b, c, q), q)
  {
    ModTimesReduced(Plus(a, b), c, q);
    TimesDistributes(a, b, c);
    ReduceSame(Times(a, c), q);
    ReduceSame(Times(b, c), q);
    SamePlus(ModTimes(a, c, q), Times(a, c), ModTimes(b, c, q), Times(b, c), q);
    SameReduces(Plus(ModTimes(a, c, q), ModTimes(b, c, q)), Plus(Times(a, c), Times(b, c)), q);
  }
}
