/**
 The trend test of the edge-crowding detector in src/agent_d.py: a series declines when its
 least-squares slope against 0, 1, ..., n - 1 is negative.
 */
module TrendTest {
  // ---------------------------------------------------------------------------------------
  // The test as the source computes it

  function Total(s: seq<real>, m: nat): real
    requires m <= |s|
  {
    if m == 0 then 0.0 else Total(s, m - 1) + s[m - 1]
  }

  function SlopeNumerator(s: seq<real>, xMean: real, yMean: real, m: nat): real
    requires m <= |s|
  {
    if m == 0 then 0.0
    else SlopeNumerator(s, xMean, yMean, m - 1) + ((m - 1) as real - xMean) * (s[m - 1] - yMean)
  }

  function SlopeDenominator(xMean: real, m: nat): real {
    if m == 0 then 0.0 else SlopeDenominator(xMean, m - 1) + ((m - 1) as real - xMean) * ((m - 1) as real - xMean)
  }

  predicate IsDeclining(s: seq<real>) {
    if |s| < 3 then false
    else
      var n := |s| as real;
      var xMean, yMean := (n - 1.0) / 2.0, Total(s, |s|) / n;
      var denominator := SlopeDenominator(xMean, |s|);
      if denominator == 0.0 then false else SlopeNumerator(s, xMean, yMean, |s|) / denominator < 0.0
  }

  function Negated(s: seq<real>): (t: seq<real>)
    ensures |t| == |s| && forall i :: 0 <= i < |s| ==> t[i] == -s[i]
  {
    seq(|s|, i requires 0 <= i < |s| => -s[i])
  }

  predicate IsIncreasing(s: seq<real>) {
    IsDeclining(Negated(s))
  }

  // ---------------------------------------------------------------------------------------
  // What it decides: the sum of (j - i) * (s[j] - s[i]) over all pairs i < j

  /** The pairs of the last of the first j + 1 elements with the first m. */
  function PairsWith(s: seq<real>, j: nat, m: nat): real
    requires m <= j < |s|
  {
    if m == 0 then 0.0 else PairsWith(s, j, m - 1) + (j - (m - 1)) as real * (s[j] - s[m - 1])
  }

  function PairSum(s: seq<real>, m: nat): real
    requires m <= |s|
  {
    if m == 0 then 0.0 else PairSum(s, m - 1) + PairsWith(s, m - 1, m - 1)
  }

  /** The sum of i * s[i]. */
  function Moment(s: seq<real>, m: nat): real
    requires m <= |s|
  {
    if m == 0 then 0.0 else Moment(s, m - 1) + (m - 1) as real * s[m - 1]
  }

  function Indices(m: nat): real {
    m as real * (m as real - 1.0) / 2.0
  }

  lemma IndicesStep(m: nat)
    requires m > 0
    ensures Indices(m) == Indices(m - 1) + (m - 1) as real
  {}

  /** The numerator with the two means multiplied out. */
  ghost predicate Expanded(numerator: real, moment: real, total: real, indices: real, count: real, x: real, y: real) {
    numerator == moment - x * total - y * indices + count * (x * y)
  }

  function Deviation(k: real, v: real, x: real, y: real): real {
    (k - x) * (v - y)
  }

  lemma NumeratorStep(s: seq<real>, x: real, y: real, m: nat)
    requires 0 < m <= |s|
    ensures SlopeNumerator(s, x, y, m) == SlopeNumerator(s, x, y, m - 1) + Deviation((m - 1) as real, s[m - 1], x, y)
  {}

  lemma {:induction false} NumeratorExpands(s: seq<real>, x: real, y: real, m: nat)
    requires m <= |s|
    ensures Expanded(SlopeNumerator(s, x, y, m), Moment(s, m), Total(s, m), Indices(m), m as real, x, y)
  {
    if m == 0 {
      NothingExpanded(x, y);
    } else {
      NumeratorExpands(s, x, y, m - 1);
      NumeratorStep(s, x, y, m);
      SumsGrow(s, m);
      ExpandTerm((m - 1) as real, s[m - 1], x, y, SlopeNumerator(s, x, y, m - 1), Moment(s, m - 1), Total(s, m - 1), Indices(m - 1),
                 SlopeNumerator(s, x, y, m), Moment(s, m), Total(s, m), Indices(m), m as real);
    }
  }

  lemma NothingExpanded(x: real, y: real)
    ensures Expanded(0.0, 0.0, 0.0, 0.0, 0.0, x, y)
  {}

  lemma ExpandTerm(k: real, v: real, x: real, y: real, numerator: real, moment: real, total: real, indices: real,
                   numerator': real, moment': real, total': real, indices': real, k': real)
    requires Expanded(numerator, moment, total, indices, k, x, y)
    requires Grown(k, v, indices, total, moment, indices', total', moment')
    requires numerator' == numerator + Deviation(k, v, x, y) && k' == k + 1.0
    ensures Expanded(numerator', moment', total', indices', k', x, y)
  {}

  lemma Differences(a: real, b: real, c: real, d: real)
    ensures (a - b) * (c - d) == a * c - d * a - b * c + b * d
  {
    assert (a - b) * (c - d) == a * (c - d) - b * (c - d);
    assert a * (c - d) == a * c - a * d && b * (c - d) == b * c - b * d;
  }

  lemma OverSum(x: real, a: real, b: real)
    ensures x * (a + b) == x * a + x * b
  {}

  /** The pairs of one element with m earlier ones, multiplied out. */
  ghost predicate PairsExpanded(pairs: real, last: real, j: real, count: real, indices: real, total: real, moment: real) {
    pairs == last * (j * count - indices) - j * total + moment
  }

  lemma PairsWithGrows(s: seq<real>, j: nat, m: nat)
    requires 0 < m <= j < |s|
    ensures PairsWith(s, j, m) == PairsWith(s, j, m - 1) + Deviation(j as real, s[j], (m - 1) as real, s[m - 1])
  {
    assert (j - (m - 1)) as real == j as real - (m - 1) as real;
  }

  lemma {:induction false} PairsWithExpands(s: seq<real>, j: nat, m: nat)
    requires m <= j < |s|
    ensures PairsExpanded(PairsWith(s, j, m), s[j], j as real, m as real, Indices(m), Total(s, m), Moment(s, m))
  {
    if m == 0 {
      NoPairs(s[j], j as real);
    } else {
      PairsWithExpands(s, j, m - 1);
      PairsWithGrows(s, j, m);
      SumsGrow(s, m);
      PairTerm(j as real, (m - 1) as real, s[j], s[m - 1], PairsWith(s, j, m - 1), Indices(m - 1), Total(s, m - 1), Moment(s, m - 1),
               PairsWith(s, j, m), m as real, Indices(m), Total(s, m), Moment(s, m));
    }
  }

  lemma NoPairs(last: real, j: real)
    ensures PairsExpanded(0.0, last, j, 0.0, 0.0, 0.0, 0.0)
  {}

  lemma PairTerm(j: real, k: real, last: real, v: real, pairs: real, indices: real, total: real, moment: real,
                 pairs': real, k': real, indices': real, total': real, moment': real)
    requires PairsExpanded(pairs, last, j, k, indices, total, moment)
    requires pairs' == pairs + Deviation(j, last, k, v) && k' == k + 1.0
    requires Grown(k, v, indices, total, moment, indices', total', moment')
    ensures PairsExpanded(pairs', last, j, k', indices', total', moment')
  {
    Differences(j, k, last, v);
    OverSum(j, total, v);
    OverSum(j, k, 1.0);
    OverSum(last, j * k - indices, j - k);
    OverSum(last, j, -k);
  }

  ghost predicate SumExpanded(sum: real, count: real, indices: real, total: real, moment: real) {
    sum == count * moment - indices * total
  }

  /** One more element: what it adds to the three running sums. */
  ghost predicate Grown(k: real, v: real, indices: real, total: real, moment: real,
                        indices': real, total': real, moment': real) {
    indices' == indices + k && total' == total + v && moment' == moment + k * v
  }

  ghost predicate Triangular(k: real, indices: real) {
    indices == k * (k - 1.0) / 2.0
  }

  lemma SumsGrow(s: seq<real>, m: nat)
    requires 0 < m <= |s|
    ensures Grown((m - 1) as real, s[m - 1], Indices(m - 1), Total(s, m - 1), Moment(s, m - 1), Indices(m), Total(s, m), Moment(s, m))
    ensures Triangular((m - 1) as real, Indices(m - 1))
  {
    IndicesStep(m);
  }

  lemma {:induction false} PairSumExpands(s: seq<real>, m: nat)
    requires m <= |s|
    ensures SumExpanded(PairSum(s, m), m as real, Indices(m), Total(s, m), Moment(s, m))
  {
    if m > 0 {
      PairSumExpands(s, m - 1);
      PairsWithExpands(s, m - 1, m - 1);
      SumsGrow(s, m);
      AddElement((m - 1) as real, s[m - 1], PairSum(s, m - 1), PairsWith(s, m - 1, m - 1), Indices(m - 1), Total(s, m - 1), Moment(s, m - 1),
                 Indices(m), Total(s, m), Moment(s, m));
    }
  }

  lemma AddElement(k: real, v: real, sum: real, pairs: real, indices: real, total: real, moment: real,
                   indices': real, total': real, moment': real)
    requires Triangular(k, indices) && SumExpanded(sum, k, indices, total, moment)
    requires PairsExpanded(pairs, v, k, k, indices, total, moment)
    requires Grown(k, v, indices, total, moment, indices', total', moment')
    ensures SumExpanded(sum + pairs, k + 1.0, indices', total', moment')
  {
    TwiceIndices(k, v, indices);
  }

  lemma TwiceIndices(k: real, v: real, indices: real)
    requires indices == k * (k - 1.0) / 2.0
    ensures v * (k * k - indices) == (k + 1.0) * (k * v) - (indices + k) * v
  {
    assert (k + 1.0) * (k * v) == v * (k * k) + k * v;
  }

  /** n times the numerator is the pair sum. */
  lemma NumeratorIsPairSum(s: seq<real>)
    requires |s| > 0
    ensures |s| as real * SlopeNumerator(s, (|s| as real - 1.0) / 2.0, Total(s, |s|) / |s| as real, |s|) == PairSum(s, |s|)
  {
    var n, total, moment, indices := |s| as real, Total(s, |s|), Moment(s, |s|), Indices(|s|);
    var x, y := (n - 1.0) / 2.0, total / n;
    NumeratorExpands(s, x, y, |s|);
    PairSumExpands(s, |s|);
    MeansCancel(n, x, y, total, indices);
    ScaleNumerator(n, moment, x, y, total, indices, SlopeNumerator(s, x, y, |s|), PairSum(s, |s|));
  }

  lemma MeansCancel(n: real, x: real, y: real, total: real, indices: real)
    requires n > 0.0 && y == total / n && x == (n - 1.0) / 2.0 && indices == n * (n - 1.0) / 2.0
    ensures y * indices == n * (x * y) && indices == n * x
  {
    assert indices == n * x;
    assert y * (n * x) == n * (x * y);
  }

  lemma ScaleNumerator(n: real, moment: real, x: real, y: real, total: real, indices: real, numerator: real, sum: real)
    requires Expanded(numerator, moment, total, indices, n, x, y) && SumExpanded(sum, n, indices, total, moment)
    requires y * indices == n * (x * y) && indices == n * x
    ensures n * numerator == sum
  {
    assert numerator == moment - x * total;
    assert n * (x * total) == (n * x) * total;
  }

  lemma {:induction false} DenominatorPositive(x: real, m: nat)
    ensures SlopeDenominator(x, m) >= 0.0
    ensures m >= 2 ==> SlopeDenominator(x, m) > 0.0
  {
    if m > 0 {
      DenominatorPositive(x, m - 1);
      var d := (m - 1) as real - x;
      assert d * d >= 0.0;
      if m == 2 {
        assert SlopeDenominator(x, 1) == (0.0 - x) * (0.0 - x);
        OneDiffers(x);
      }
    }
  }

  lemma OneDiffers(x: real)
    ensures (0.0 - x) * (0.0 - x) + (1.0 - x) * (1.0 - x) > 0.0
  {
    if x <= 0.0 {
      assert (1.0 - x) * (1.0 - x) >= 1.0;
    } else {
      assert x * x > 0.0;
    }
  }

  lemma SignOfQuotient(numerator: real, denominator: real)
    requires denominator > 0.0
    ensures numerator / denominator < 0.0 <==> numerator < 0.0
  {
    var q := numerator / denominator;
    assert q * denominator == numerator;
    if q < 0.0 {
      assert q * denominator < 0.0;
    } else {
      assert q * denominator >= 0.0;
    }
  }

  lemma SignOfMultiple(n: real, numerator: real)
    requires n > 0.0
    ensures n * numerator < 0.0 <==> numerator < 0.0
  {}

  /** The test decides the sign of the pair sum. */
  lemma DecliningIsPairSum(s: seq<real>)
    ensures IsDeclining(s) <==> |s| >= 3 && PairSum(s, |s|) < 0.0
  {
    if |s| >= 3 {
      var n := |s| as real;
      var x, y := (n - 1.0) / 2.0, Total(s, |s|) / n;
      DenominatorPositive(x, |s|);
      NumeratorIsPairSum(s);
      SignOfQuotient(SlopeNumerator(s, x, y, |s|), SlopeDenominator(x, |s|));
      SignOfMultiple(n, SlopeNumerator(s, x, y, |s|));
    }
  }

  // ---------------------------------------------------------------------------------------
  // Consequences

  ghost predicate StrictlyDecreasing(s: seq<real>) {
    forall i, j :: 0 <= i < j < |s| ==> s[i] > s[j]
  }

  ghost predicate NonDecreasing(s: seq<real>) {
    forall i, j :: 0 <= i < j < |s| ==> s[i] <= s[j]
  }

  lemma {:induction false} PairsWithFalling(s: seq<real>, j: nat, m: nat)
    requires m <= j < |s| && StrictlyDecreasing(s)
    ensures PairsWith(s, j, m) <= 0.0 && (m > 0 ==> PairsWith(s, j, m) < 0.0)
  {
    if m > 0 {
      PairsWithFalling(s, j, m - 1);
      PairsWithStep(s, j, m);
      TermSign((j - (m - 1)) as real, s[j] - s[m - 1]);
    }
  }

  lemma {:induction false} PairsWithRising(s: seq<real>, j: nat, m: nat)
    requires m <= j < |s| && NonDecreasing(s)
    ensures PairsWith(s, j, m) >= 0.0
  {
    if m > 0 {
      PairsWithRising(s, j, m - 1);
      PairsWithStep(s, j, m);
      TermSign((j - (m - 1)) as real, s[j] - s[m - 1]);
    }
  }

  lemma {:induction false} PairsWithNegated(s: seq<real>, j: nat, m: nat)
    requires m <= j < |s|
    ensures PairsWith(Negated(s), j, m) == -PairsWith(s, j, m)
  {
    if m > 0 {
      PairsWithNegated(s, j, m - 1);
      PairsWithStep(s, j, m);
      PairsWithStep(Negated(s), j, m);
      TermFlips((j - (m - 1)) as real, s[j] - s[m - 1], Negated(s)[j] - Negated(s)[m - 1]);
    }
  }

  function Term(gap: real, step: real): real {
    gap * step
  }

  lemma PairsWithStep(s: seq<real>, j: nat, m: nat)
    requires 0 < m <= j < |s|
    ensures PairsWith(s, j, m) == PairsWith(s, j, m - 1) + Term((j - (m - 1)) as real, s[j] - s[m - 1])
  {}

  lemma TermSign(gap: real, step: real)
    requires gap > 0.0
    ensures step < 0.0 ==> Term(gap, step) < 0.0
    ensures step >= 0.0 ==> Term(gap, step) >= 0.0
  {}

  lemma TermFlips(gap: real, step: real, flipped: real)
    requires flipped == -step
    ensures Term(gap, flipped) == -Term(gap, step)
  {}

  lemma {:induction false} PairSumFalling(s: seq<real>, m: nat)
    requires m <= |s| && StrictlyDecreasing(s)
    ensures PairSum(s, m) <= 0.0 && (m > 1 ==> PairSum(s, m) < 0.0)
  {
    if m > 0 {
      PairSumFalling(s, m - 1);
      PairsWithFalling(s, m - 1, m - 1);
    }
  }

  lemma {:induction false} PairSumRising(s: seq<real>, m: nat)
    requires m <= |s| && NonDecreasing(s)
    ensures PairSum(s, m) >= 0.0
  {
    if m > 0 {
      PairSumRising(s, m - 1);
      PairsWithRising(s, m - 1, m - 1);
    }
  }

  lemma {:induction false} PairSumNegated(s: seq<real>, m: nat)
    requires m <= |s|
    ensures PairSum(Negated(s), m) == -PairSum(s, m)
  {
    if m > 0 {
      PairSumNegated(s, m - 1);
      PairsWithNegated(s, m - 1, m - 1);
    }
  }

  /** Every strictly falling series of three or more declines; no non-falling series does. */
  lemma MonotoneSeries(s: seq<real>)
    ensures StrictlyDecreasing(s) && |s| >= 3 ==> IsDeclining(s)
    ensures NonDecreasing(s) ==> !IsDeclining(s)
  {
    DecliningIsPairSum(s);
    if StrictlyDecreasing(s) {
      PairSumFalling(s, |s|);
    }
    if NonDecreasing(s) {
      PairSumRising(s, |s|);
    }
  }

  /** Turning the series upside down turns the verdict round, so no series does both. */
  lemma NeverBoth(s: seq<real>)
    ensures IsIncreasing(s) <==> |s| >= 3 && PairSum(s, |s|) > 0.0
    ensures !(IsDeclining(s) && IsIncreasing(s))
  {
    DecliningIsPairSum(s);
    DecliningIsPairSum(Negated(s));
    PairSumNegated(s, |s|);
  }
}
