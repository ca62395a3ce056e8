/**
 The belief tracker of src/agent_b.py: one probability, updated by Bayes' rule on binary evidence
 whose likelihood is scaled by the market state, then clamped.  Time stamps are left out of the
 history.
 */
module BeliefTracker {
  import opened Collections
  import opened Options
  import opened Reals

  const MIN_LIKELIHOOD := 0.1
  const MAX_LIKELIHOOD := 0.9
  const MIN_BELIEF := 0.01
  const MAX_BELIEF := 0.90
  const EXIT_THRESHOLD := 0.35
  const ADD_THRESHOLD := 0.80
  const TINY := 0.0000000001

  datatype Action = Exit | Add | Hold

  /** One call of update: the kind of evidence, an optional explicit likelihood, the market state. */
  datatype Evidence = Evidence(kind: string, value: Option<real>, dhatu: string)

  datatype Entry = Entry(kind: string, likelihood: real, prior: real, posterior: real)

  function Clamp(x: real, low: real, high: real): (r: real)
    requires low <= high
    ensures low <= r <= high
    ensures low <= x <= high <==> r == x
  {
    var capped := if x < high then x else high;
    if low > capped then low else capped
  }

  function BaseLikelihood(kind: string): real {
    if kind == "price_toward_small" then 0.58
    else if kind == "price_toward_medium" then 0.72
    else if kind == "price_toward_large" then 0.85
    else if kind == "price_against_small" then 0.45
    else if kind == "price_against_medium" then 0.30
    else if kind == "volume_confirming" then 0.68
    else if kind == "vix_declining" then 0.62
    else 0.5
  }

  function Scaling(dhatu: string): real {
    if dhatu == "Chala" || dhatu == "Kshaya" then 0.7
    else if dhatu == "Sthira" || dhatu == "Samyoga" || dhatu == "Vriddhi" then 1.2
    else 1.0
  }

  type Likelihood = l: real | MIN_LIKELIHOOD <= l <= MAX_LIKELIHOOD witness 0.5

  function Base(e: Evidence): real {
    match e.value
    case Some(v) => v
    case None => BaseLikelihood(e.kind)
  }

  function Effective(e: Evidence): Likelihood {
    Clamp(0.5 + (Base(e) - 0.5) * Scaling(e.dhatu), MIN_LIKELIHOOD, MAX_LIKELIHOOD)
  }

  /** Scaling never turns supporting evidence into opposing evidence, nor the other way round. */
  lemma ScalingKeepsSide(e: Evidence)
    ensures Effective(e) > 0.5 <==> Base(e) > 0.5
    ensures Effective(e) < 0.5 <==> Base(e) < 0.5
  {
    ScaledSign(Base(e) - 0.5, Scaling(e.dhatu));
  }

  lemma ScaledSign(x: real, s: real)
    requires s > 0.0
    ensures x * s > 0.0 <==> x > 0.0
    ensures x * s < 0.0 <==> x < 0.0
  {
  }

  // One update

  function EvidenceProbability(p: real, l: real): real {
    l * p + (1.0 - l) * (1.0 - p)
  }

  function Guarded(x: real): (r: real)
    ensures r >= TINY
  {
    if x > TINY then x else TINY
  }

  function Posterior(p: real, l: real): real {
    l * p / Guarded(EvidenceProbability(p, l))
  }

  function Next(p: real, l: real): real {
    Clamp(Posterior(p, l), MIN_BELIEF, MAX_BELIEF)
  }

  function ActionFor(belief: real): Action {
    if belief < EXIT_THRESHOLD then Exit else if belief > ADD_THRESHOLD then Add else Hold
  }

  /** How far the market state stretches evidence: less in a volatile market, more in a stable one. */
  ghost predicate Stretch(dhatu: string, scale: real) {
    && (dhatu in {"Chala", "Kshaya"} ==> scale == 0.7)
    && (dhatu in {"Sthira", "Samyoga", "Vriddhi"} ==> scale == 1.2)
    && (dhatu !in {"Chala", "Kshaya", "Sthira", "Samyoga", "Vriddhi"} ==> scale == 1.0)
  }

  /** Posterior times probability of the evidence is likelihood times prior; a probability near zero is not divided by. */
  ghost predicate BayesRatio(p: real, l: real, posterior: real) {
    var probability := l * p + (1.0 - l) * (1.0 - p);
    posterior * (if probability > 0.0000000001 then probability else 0.0000000001) == l * p
  }

  /**
   One update in numbers: the likelihood is stretched about one half and bounded by 0.1 and 0.9, the
   belief follows by Bayes' rule and is bounded by 0.01 and 0.90, and it decides the action.
   */
  lemma UpdateInNumbers(p: real, e: Evidence) returns (scale: real, posterior: real)
    ensures var base, l, belief := (if e.value.Some? then e.value.value else BaseLikelihood(e.kind)), Effective(e), Next(p, Effective(e));
            && Stretch(e.dhatu, scale) && Nearest(0.5 + (base - 0.5) * scale, 0.1, 0.9, l)
            && BayesRatio(p, l, posterior) && Nearest(posterior, 0.01, 0.90, belief)
            && (ActionFor(belief) == Exit <==> belief < 0.35) && (ActionFor(belief) == Add <==> belief > 0.80)
  {
    scale, posterior := Scaling(e.dhatu), Posterior(p, Effective(e));
    PosteriorIsRatio(p, Effective(e));
  }

  lemma PosteriorIsRatio(p: real, l: real)
    ensures BayesRatio(p, l, Posterior(p, l))
  {
    Divided(l * p, Guarded(EvidenceProbability(p, l)));
  }

  /** The kinds of evidence, from the one that confirms most to the one that opposes most. */
  const KINDS: seq<string> := ["price_toward_large", "price_toward_medium", "volume_confirming", "vix_declining",
                               "price_toward_small", "price_against_small", "price_against_medium"]

  /** The table falls strictly along that order, confirms down to a small move toward, and opposes from a small move against. */
  lemma KindsAreOrdered(i: nat, k: nat, kind: string)
    ensures i < k < |KINDS| ==> BaseLikelihood(KINDS[i]) > BaseLikelihood(KINDS[k])
    ensures i < |KINDS| ==> (i <= 4 <==> BaseLikelihood(KINDS[i]) > 0.5) && (i >= 5 <==> BaseLikelihood(KINDS[i]) < 0.5)
    ensures kind !in KINDS ==> BaseLikelihood(kind) == 0.5
  {}

  lemma ProductOrdered(x: real, a: real, b: real)
    requires x >= 0.0 && a <= b
    ensures x * a <= x * b
  {
  }

  lemma NonPositiveProduct(x: real, y: real)
    requires x >= 0.0 && y <= 0.0
    ensures x * y <= 0.0
  {
  }

  /** For a probability the evidence has probability at least 1/10, so the guard is not active. */
  lemma GuardInactive(p: real, l: Likelihood)
    requires 0.0 <= p <= 1.0
    ensures EvidenceProbability(p, l) >= 0.1
    ensures Guarded(EvidenceProbability(p, l)) == EvidenceProbability(p, l)
  {
    EvidenceBetweenExtremes(p, l);
  }

  /** Exactly which beliefs, given by a reset to any number, never need the guard. */
  lemma GuardInactiveExactly(p: real)
    ensures (forall l: Likelihood :: EvidenceProbability(p, l) >= TINY)
            <==> TINY - 0.1 <= 0.8 * p <= 0.9 - TINY
  {
    if TINY - 0.1 <= 0.8 * p <= 0.9 - TINY {
      forall l: Likelihood ensures EvidenceProbability(p, l) >= TINY {
        EvidenceBetweenExtremes(p, l);
      }
    } else {
      var low: Likelihood, high: Likelihood := 0.1, 0.9;
      assert EvidenceProbability(p, low) == 0.9 - 0.8 * p;
      assert EvidenceProbability(p, high) == 0.1 + 0.8 * p;
    }
  }

  lemma EvidenceBetweenExtremes(p: real, l: Likelihood)
    ensures EvidenceProbability(p, l) >= 0.1 + 0.8 * p || EvidenceProbability(p, l) >= 0.9 - 0.8 * p
  {
    EvidenceIsLinear(p, l);
    SlopeBetweenEnds(l, 2.0 * p - 1.0);
    LineBetweenEnds(p, l * (2.0 * p - 1.0), 2.0 * p - 1.0);
  }

  lemma SlopeBetweenEnds(l: Likelihood, slope: real)
    ensures l * slope >= if slope <= 0.0 then 0.9 * slope else 0.1 * slope
  {
    if slope <= 0.0 {
      ProductOrdered(-slope, l, 0.9);
    } else {
      ProductOrdered(slope, 0.1, l);
    }
  }

  lemma LineBetweenEnds(p: real, x: real, slope: real)
    requires slope == 2.0 * p - 1.0
    requires x >= if slope <= 0.0 then 0.9 * slope else 0.1 * slope
    ensures 1.0 - p + x >= 0.1 + 0.8 * p || 1.0 - p + x >= 0.9 - 0.8 * p
  {
  }

  lemma EvidenceIsLinear(p: real, l: real)
    ensures EvidenceProbability(p, l) == 1.0 - p + l * (2.0 * p - 1.0)
  {
  }

  /** The posterior splits the probability of the evidence between the two hypotheses. */
  lemma PosteriorSplits(p: real, l: Likelihood)
    requires 0.0 <= p <= 1.0
    ensures Product(l * p, Posterior(p, l), EvidenceProbability(p, l))
    ensures Product((1.0 - l) * (1.0 - p), 1.0 - Posterior(p, l), EvidenceProbability(p, l))
  {
    GuardInactive(p, l);
    var e := EvidenceProbability(p, l);
    Divided(l * p, e);
    Complement(Posterior(p, l), e);
  }

  lemma Complement(x: real, e: real)
    ensures (1.0 - x) * e == e - x * e
  {
  }

  // Monotonicity

  lemma PosteriorMonotone(p: real, q: real, l: Likelihood)
    requires 0.0 <= p <= q <= 1.0
    ensures Posterior(p, l) <= Posterior(q, l)
  {
    var a, b := EvidenceProbability(p, l), EvidenceProbability(q, l);
    GuardInactive(p, l);
    GuardInactive(q, l);
    PosteriorSplits(p, l);
    PosteriorSplits(q, l);
    CrossOrdered(p, q, l, a, b);
    FractionsOrdered(Posterior(p, l), l * p, a, Posterior(q, l), l * q, b);
  }

  lemma CrossOrdered(p: real, q: real, l: real, a: real, b: real)
    requires p <= q && 0.0 <= l <= 1.0
    requires a == EvidenceProbability(p, l) && b == EvidenceProbability(q, l)
    ensures CrossAtMost(l * p, b, l * q, a)
  {
    var d := (1.0 - l) * (p - q);
    assert p * b - q * a == d by { CrossDifference(p, q, l); }
    assert d <= 0.0 by { NonPositiveProduct(1.0 - l, p - q); }
    ProductOrdered(l, p * b, q * a);
  }

  lemma CrossDifference(p: real, q: real, l: real)
    ensures p * EvidenceProbability(q, l) - q * EvidenceProbability(p, l) == (1.0 - l) * (p - q)
  {
    var m := 1.0 - l;
    assert p * (l * q + m * (1.0 - q)) == l * (p * q) + m * p - m * (p * q);
    assert q * (l * p + m * (1.0 - p)) == l * (p * q) + m * q - m * (p * q);
  }

  ghost predicate CrossAtMost(n: real, b: real, m: real, a: real) { n * b <= m * a }

  lemma FractionsOrdered(x: real, n: real, a: real, y: real, m: real, b: real)
    requires a > 0.0 && b > 0.0
    requires Product(n, x, a) && Product(m, y, b)
    requires CrossAtMost(n, b, m, a)
    ensures x <= y
  {
    if x > y {
      FractionsStrict(x, n, a, y, m, b);
      assert false;
    }
  }

  lemma FractionsReversed(x: real, n: real, a: real, y: real, m: real, b: real)
    requires a > 0.0 && b > 0.0 && x >= y
    requires Product(n, x, a) && Product(m, y, b)
    ensures n * b >= m * a
  {
    if x > y {
      FractionsStrict(x, n, a, y, m, b);
    } else {
      assert n * b == x * (a * b) by { ProductAssociates(x, a, b); }
      assert m * a == x * (b * a) by { ProductAssociates(x, b, a); }
    }
  }

  lemma FractionsStrict(x: real, n: real, a: real, y: real, m: real, b: real)
    requires a > 0.0 && b > 0.0 && x > y
    requires Product(n, x, a) && Product(m, y, b)
    ensures n * b > m * a
  {
    PositiveProduct(a, b);
    var d := a * b;
    assert n * b == x * d by { assert x * a * b == x * (a * b); }
    assert m * a == y * d by { assert y * b * a == y * (a * b); }
    PositiveProduct(x - y, d);
    assert (x - y) * d == x * d - y * d;
  }

  lemma PositiveIs(d: real, x: real, y: real)
    requires x > 0.0 && y > 0.0 && d == x * y
    ensures d > 0.0
  {
    PositiveProduct(x, y);
  }

  lemma PosteriorStrict(p: real, q: real, l: Likelihood)
    requires 0.0 <= p < q <= 1.0
    ensures Posterior(p, l) < Posterior(q, l)
  {
    var a, b := EvidenceProbability(p, l), EvidenceProbability(q, l);
    GuardInactive(p, l);
    GuardInactive(q, l);
    PosteriorSplits(p, l);
    PosteriorSplits(q, l);
    var d := (1.0 - l) * (q - p);
    PositiveIs(d, 1.0 - l, q - p);
    CrossDifference(q, p, l);
    CrossStrict(p, q, l, a, b, d);
    StrictFractions(Posterior(p, l), l * p, a, Posterior(q, l), l * q, b);
  }

  ghost predicate CrossLess(n: real, b: real, m: real, a: real) { n * b < m * a }

  lemma StrictFractions(x: real, n: real, a: real, y: real, m: real, b: real)
    requires a > 0.0 && b > 0.0 && CrossLess(n, b, m, a)
    requires Product(n, x, a) && Product(m, y, b)
    ensures x < y
  {
    if x >= y {
      FractionsReversed(x, n, a, y, m, b);
      assert false;
    }
  }

  lemma CrossStrict(p: real, q: real, l: real, a: real, b: real, d: real)
    requires 0.0 < l && 0.0 < d && q * a - p * b == d
    ensures CrossLess(l * p, b, l * q, a)
  {
    var x, y := p * b, q * a;
    ScaledStrict(l, x, y);
    ProductAssociates(l, q, a);
    ProductAssociates(l, p, b);
  }

  lemma ScaledStrict(l: real, x: real, y: real)
    requires l > 0.0 && x < y
    ensures l * x < l * y
  {
    PositiveProduct(l, y - x);
    assert l * (y - x) == l * y - l * x;
  }

  lemma PosteriorEnds(l: Likelihood)
    ensures Posterior(0.0, l) == 0.0 && Posterior(1.0, l) == 1.0
  {
    assert EvidenceProbability(0.0, l) == 1.0 - l && l * 0.0 == 0.0;
    assert EvidenceProbability(1.0, l) == l && l * 1.0 == l;
    QuotientIs(0.0, 1.0 - l, 0.0);
    QuotientIs(l, l, 1.0);
  }

  lemma QuotientIs(x: real, y: real, q: real)
    requires y > 0.0 && x == q * y
    ensures x / y == q
  {
  }

  /** Certainty in neither direction is reached from a genuine probability. */
  lemma PosteriorOpen(p: real, l: Likelihood)
    requires 0.0 < p < 1.0
    ensures 0.0 < Posterior(p, l) < 1.0
  {
    PosteriorEnds(l);
    PosteriorStrict(0.0, p, l);
    PosteriorStrict(p, 1.0, l);
  }

  function Run(p: real, ls: seq<Likelihood>): real
    decreases |ls|
  {
    if ls == [] then p else Run(Next(p, ls[0]), ls[1..])
  }

  /** Whatever number the belief was reset to, one update brings it into its range for good. */
  lemma {:induction false} BeliefBounded(p: real, ls: seq<Likelihood>)
    requires ls != [] || MIN_BELIEF <= p <= MAX_BELIEF
    ensures MIN_BELIEF <= Run(p, ls) <= MAX_BELIEF
    decreases |ls|
  {
    if ls != [] {
      BeliefBounded(Next(p, ls[0]), ls[1..]);
    }
  }

  /** Under the same evidence, the tracker that starts higher never ends lower. */
  lemma {:induction false} RunMonotone(p: real, q: real, ls: seq<Likelihood>)
    requires 0.0 <= p <= q <= 1.0
    ensures Run(p, ls) <= Run(q, ls)
    decreases |ls|
  {
    if ls != [] {
      PosteriorMonotone(p, q, ls[0]);
      RunMonotone(Next(p, ls[0]), Next(q, ls[0]), ls[1..]);
    }
  }

  // Order

  /** No clamp changes a posterior anywhere in the run. */
  ghost predicate ClampFree(p: real, ls: seq<Likelihood>)
    decreases |ls|
  {
    ls != [] ==> Next(p, ls[0]) == Posterior(p, ls[0]) && ClampFree(Next(p, ls[0]), ls[1..])
  }

  /** A number for the hypothesis and a number against it. */
  datatype Weights = Weights(holds: real, fails: real)

  function Times(a: Weights, b: Weights): Weights {
    Weights(a.holds * b.holds, a.fails * b.fails)
  }

  function Complements(p: real): Weights {
    Weights(p, 1.0 - p)
  }

  /** The joint likelihoods of a list of evidence: plain products, in no particular order. */
  function Joint(ls: seq<Likelihood>): Weights {
    if ls == [] then Weights(1.0, 1.0) else Times(Complements(ls[0]), Joint(ls[1..]))
  }

  predicate AllPositive(w: Weights) {
    w.holds > 0.0 && w.fails > 0.0
  }

  /** The belief r stands for these odds. */
  ghost predicate Odds(r: real, w: Weights) {
    r * (w.holds + w.fails) == w.holds
  }

  lemma {:induction false} JointPositive(ls: seq<Likelihood>)
    ensures AllPositive(Joint(ls))
  {
    if ls != [] {
      JointPositive(ls[1..]);
      var w := Joint(ls[1..]);
      PositiveProduct(ls[0], w.holds);
      PositiveProduct(1.0 - ls[0], w.fails);
    }
  }

  lemma TimesAssociates(a: Weights, b: Weights, c: Weights)
    ensures Times(Times(a, b), c) == Times(a, Times(b, c))
  {
    ProductAssociates(a.holds, b.holds, c.holds);
    ProductAssociates(a.fails, b.fails, c.fails);
  }

  /** The run as it would be without clamps. */
  function Unclamped(p: real, ls: seq<Likelihood>): real
    decreases |ls|
  {
    if ls == [] then p else Unclamped(Posterior(p, ls[0]), ls[1..])
  }

  /** Without clamps, a run multiplies the prior odds by all the likelihood ratios. */
  lemma {:induction false} UnclampedMultipliesOdds(p: real, ls: seq<Likelihood>)
    requires 0.0 < p < 1.0
    ensures Odds(Unclamped(p, ls), Times(Complements(p), Joint(ls)))
    decreases |ls|
  {
    if ls == [] {
      assert Times(Complements(p), Joint(ls)) == Complements(p);
    } else {
      var l, p1, rest := ls[0], Posterior(p, ls[0]), ls[1..];
      PosteriorOpen(p, l);
      UnclampedMultipliesOdds(p1, rest);
      PosteriorInProportion(p, l);
      OddsScaled(Unclamped(p1, rest), Complements(p1), Times(Complements(p), Complements(l)), Joint(rest),
                 EvidenceProbability(p, l));
      TimesAssociates(Complements(p), Complements(l), Joint(rest));
    }
  }

  ghost predicate InProportion(n: Weights, w: Weights, e: real) {
    Product(w.holds, n.holds, e) && Product(w.fails, n.fails, e)
  }

  lemma PosteriorInProportion(p: real, l: Likelihood)
    requires 0.0 <= p <= 1.0
    ensures InProportion(Complements(Posterior(p, l)), Times(Complements(p), Complements(l)), EvidenceProbability(p, l))
  {
    PosteriorSplits(p, l);
  }

  lemma OddsScaled(r: real, n: Weights, w: Weights, j: Weights, e: real)
    requires InProportion(n, w, e) && Odds(r, Times(n, j))
    ensures Odds(r, Times(w, j))
  {
    var x := Times(n, j);
    assert w.holds * j.holds == x.holds * e by { Rotate(n.holds, e, j.holds); }
    assert w.fails * j.fails == x.fails * e by { Rotate(n.fails, e, j.fails); }
    ScaledOdds(r, x.holds, x.fails, e);
  }

  lemma Rotate(p: real, e: real, w: real)
    ensures p * e * w == p * w * e
  {
  }

  lemma ScaledOdds(r: real, x: real, y: real, e: real)
    requires r * (x + y) == x
    ensures r * (x * e + y * e) == x * e
  {
    assert r * (x * e + y * e) == (r * (x + y)) * e;
  }

  lemma OddsUnique(r: real, s: real, w: Weights)
    requires w.holds + w.fails > 0.0 && Odds(r, w) && Odds(s, w)
    ensures r == s
  {
    var t := w.holds + w.fails;
    assert (r - s) * t == r * t - s * t;
    assert (r - s) * t == 0.0;
  }

  lemma TotalPositive(p: real, j: Weights)
    requires 0.0 <= p <= 1.0 && AllPositive(j)
    ensures Times(Complements(p), j).holds + Times(Complements(p), j).fails > 0.0
  {
    MixturePositive(p, 1.0 - p, j.holds, j.fails);
  }

  lemma MixturePositive(p: real, q: real, w: real, v: real)
    requires p >= 0.0 && q >= 0.0 && p + q == 1.0 && w > 0.0 && v > 0.0
    ensures p * w + q * v > 0.0
  {
    if p > 0.0 {
      PositiveProduct(p, w);
    }
    if q > 0.0 {
      PositiveProduct(q, v);
    }
  }

  lemma TimesSwap(a: Weights, b: Weights, c: Weights)
    ensures Times(a, Times(b, c)) == Times(b, Times(a, c))
  {
    TimesAssociates(a, b, c);
    TimesAssociates(b, a, c);
    assert Times(a, b) == Times(b, a);
  }

  lemma {:induction false} JointTakesAny(ls: seq<Likelihood>, i: nat)
    requires i < |ls|
    ensures Joint(ls) == Times(Complements(ls[i]), Joint(ls[..i] + ls[i + 1..]))
    decreases i
  {
    var rest := ls[..i] + ls[i + 1..];
    if i == 0 {
      assert rest == ls[1..];
    } else {
      var tail := ls[1..];
      JointTakesAny(tail, i - 1);
      assert rest[0] == ls[0];
      assert rest[1..] == tail[..i - 1] + tail[i..];
      TimesSwap(Complements(ls[0]), Complements(ls[i]), Joint(rest[1..]));
    }
  }

  lemma {:induction false} JointIgnoresOrder(a: seq<Likelihood>, b: seq<Likelihood>)
    requires multiset(a) == multiset(b)
    ensures Joint(a) == Joint(b)
    decreases |a|
  {
    if a == [] {
      assert |multiset(b)| == 0;
    } else {
      assert a[0] in multiset(b);
      var i :| 0 <= i < |b| && b[i] == a[0];
      RemaindersAgree(a, b, i);
      JointTakesAny(b, i);
      JointIgnoresOrder(a[1..], b[..i] + b[i + 1..]);
    }
  }

  lemma UnclampedIgnoresOrder(p: real, a: seq<Likelihood>, b: seq<Likelihood>)
    requires 0.0 < p < 1.0 && multiset(a) == multiset(b)
    ensures Unclamped(p, a) == Unclamped(p, b)
  {
    UnclampedMultipliesOdds(p, a);
    UnclampedMultipliesOdds(p, b);
    JointIgnoresOrder(a, b);
    JointPositive(a);
    TotalPositive(p, Joint(a));
    OddsUnique(Unclamped(p, a), Unclamped(p, b), Times(Complements(p), Joint(a)));
  }

  lemma {:induction false} UnclampedStrict(p: real, q: real, ls: seq<Likelihood>)
    requires 0.0 < p < q < 1.0
    ensures Unclamped(p, ls) < Unclamped(q, ls)
    decreases |ls|
  {
    if ls != [] {
      PosteriorStrict(p, q, ls[0]);
      PosteriorOpen(p, ls[0]);
      PosteriorOpen(q, ls[0]);
      UnclampedStrict(Posterior(p, ls[0]), Posterior(q, ls[0]), ls[1..]);
    }
  }

  /** The floor changes no posterior in the run; the cap may. */
  ghost predicate FloorFree(p: real, ls: seq<Likelihood>)
    decreases |ls|
  {
    ls != [] ==> MIN_BELIEF <= Posterior(p, ls[0]) && FloorFree(Next(p, ls[0]), ls[1..])
  }

  /** The cap changes no posterior in the run; the floor may. */
  ghost predicate CapFree(p: real, ls: seq<Likelihood>)
    decreases |ls|
  {
    ls != [] ==> Posterior(p, ls[0]) <= MAX_BELIEF && CapFree(Next(p, ls[0]), ls[1..])
  }

  /** The cap only lowers a run, and strictly whenever it bites. */
  lemma {:induction false} CapLowers(p: real, ls: seq<Likelihood>)
    requires 0.0 < p < 1.0 && FloorFree(p, ls)
    ensures Run(p, ls) <= Unclamped(p, ls)
    ensures Run(p, ls) == Unclamped(p, ls) <==> ClampFree(p, ls)
    decreases |ls|
  {
    if ls != [] {
      CapLowers(Next(p, ls[0]), ls[1..]);
      PosteriorOpen(p, ls[0]);
      if Next(p, ls[0]) != Posterior(p, ls[0]) {
        UnclampedStrict(Next(p, ls[0]), Posterior(p, ls[0]), ls[1..]);
      }
    }
  }

  /** The floor only raises a run, and strictly whenever it bites. */
  lemma {:induction false} FloorRaises(p: real, ls: seq<Likelihood>)
    requires 0.0 < p < 1.0 && CapFree(p, ls)
    ensures Run(p, ls) >= Unclamped(p, ls)
    ensures Run(p, ls) == Unclamped(p, ls) <==> ClampFree(p, ls)
    decreases |ls|
  {
    if ls != [] {
      FloorRaises(Next(p, ls[0]), ls[1..]);
      PosteriorOpen(p, ls[0]);
      if Next(p, ls[0]) != Posterior(p, ls[0]) {
        UnclampedStrict(Posterior(p, ls[0]), Next(p, ls[0]), ls[1..]);
      }
    }
  }

  lemma {:induction false} ClampFreeMeetsNeither(p: real, ls: seq<Likelihood>)
    requires ClampFree(p, ls)
    ensures FloorFree(p, ls) && CapFree(p, ls)
    decreases |ls|
  {
    if ls != [] {
      ClampFreeMeetsNeither(Next(p, ls[0]), ls[1..]);
    }
  }

  /** When no clamp bites in either order, the order of the evidence does not matter. */
  lemma OrderIrrelevant(p: real, a: seq<Likelihood>, b: seq<Likelihood>)
    requires 0.0 < p < 1.0
    requires multiset(a) == multiset(b) && ClampFree(p, a) && ClampFree(p, b)
    ensures Run(p, a) == Run(p, b)
  {
    ClampFreeMeetsNeither(p, b);
    OrderIrrelevantExactly(p, a, b);
  }

  /**
   Exactly when another order of clamp-free evidence ends in the same belief: when no clamp bites
   there either.  The other order may meet the cap or the floor, but not both.
   */
  lemma OrderIrrelevantExactly(p: real, a: seq<Likelihood>, b: seq<Likelihood>)
    requires 0.0 < p < 1.0
    requires multiset(a) == multiset(b) && ClampFree(p, a) && (FloorFree(p, b) || CapFree(p, b))
    ensures Run(p, a) == Run(p, b) <==> ClampFree(p, b)
  {
    ClampFreeMeetsNeither(p, a);
    CapLowers(p, a);
    UnclampedIgnoresOrder(p, a, b);
    if FloorFree(p, b) {
      CapLowers(p, b);
    } else {
      FloorRaises(p, b);
    }
  }

  // Any order, with any clamps

  /** The odds by which the clamp after this step multiplies the posterior odds. */
  function Correction(p: real, l: real): Weights {
    var q, n := Posterior(p, l), Next(p, l);
    Weights(n * (1.0 - q), (1.0 - n) * q)
  }

  /** The product of the corrections of a run. */
  function Net(p: real, ls: seq<Likelihood>): Weights
    decreases |ls|
  {
    if ls == [] then Weights(1.0, 1.0) else Times(Correction(p, ls[0]), Net(Next(p, ls[0]), ls[1..]))
  }

  lemma {:induction false} NetPositive(p: real, ls: seq<Likelihood>)
    requires 0.0 < p < 1.0
    ensures AllPositive(Net(p, ls))
    decreases |ls|
  {
    if ls != [] {
      var q, n := Posterior(p, ls[0]), Next(p, ls[0]);
      PosteriorOpen(p, ls[0]);
      NetPositive(n, ls[1..]);
      PositiveProduct(n, 1.0 - q);
      PositiveProduct(1.0 - n, q);
      TimesPositive(Correction(p, ls[0]), Net(n, ls[1..]));
    }
  }

  lemma TimesPositive(a: Weights, b: Weights)
    requires AllPositive(a) && AllPositive(b)
    ensures AllPositive(Times(a, b))
  {
    PositiveProduct(a.holds, b.holds);
    PositiveProduct(a.fails, b.fails);
  }

  lemma CorrectedInProportion(q: real, n: real)
    ensures InProportion(Complements(n), Times(Complements(q), Weights(n * (1.0 - q), (1.0 - n) * q)), q * (1.0 - q))
  {
    var m, r := 1.0 - n, 1.0 - q;
    assert q * (n * r) == n * (q * r) by { SwapFactors(q, n, r); }
    assert r * (m * q) == m * (q * r) by { SwapFactors(r, m, q); }
  }

  lemma Regroup(a: Weights, b: Weights, c: Weights, d: Weights, e: Weights)
    ensures Times(Times(a, b), Times(c, Times(d, e))) == Times(Times(a, Times(b, d)), Times(c, e))
  {
    TimesSwap(c, d, e);
    TimesAssociates(Times(a, b), d, Times(c, e));
    TimesAssociates(a, b, d);
  }

  /** A run multiplies the prior odds by all the likelihood ratios and by the corrections of its clamps. */
  lemma {:induction false} RunMultipliesOdds(p: real, ls: seq<Likelihood>)
    requires 0.0 < p < 1.0
    ensures Odds(Run(p, ls), Times(Times(Complements(p), Joint(ls)), Net(p, ls)))
    decreases |ls|
  {
    if ls == [] {
      assert Times(Times(Complements(p), Joint(ls)), Net(p, ls)) == Complements(p);
    } else {
      var l, rest := ls[0], ls[1..];
      var n, r := Next(p, l), Run(Next(p, l), rest);
      PosteriorOpen(p, l);
      RunMultipliesOdds(n, rest);
      CorrectStep(r, p, l, Joint(rest), Net(n, rest));
      Regroup(Complements(p), Complements(l), Correction(p, l), Joint(rest), Net(n, rest));
    }
  }

  lemma CorrectStep(r: real, p: real, l: Likelihood, joint: Weights, net: Weights)
    requires 0.0 <= p <= 1.0 && Odds(r, Times(Times(Complements(Next(p, l)), joint), net))
    ensures Odds(r, Times(Times(Complements(p), Complements(l)), Times(Correction(p, l), Times(joint, net))))
  {
    var q, n, c, x := Complements(Posterior(p, l)), Complements(Next(p, l)), Correction(p, l), Times(joint, net);
    TimesAssociates(n, joint, net);
    CorrectedInProportion(Posterior(p, l), Next(p, l));
    OddsScaled(r, n, Times(q, c), x, Posterior(p, l) * (1.0 - Posterior(p, l)));
    TimesAssociates(q, c, x);
    PosteriorInProportion(p, l);
    OddsScaled(r, q, Times(Complements(p), Complements(l)), Times(c, x), EvidenceProbability(p, l));
  }

  /** The two odds are the same. */
  ghost predicate SameOdds(a: Weights, b: Weights) {
    a.holds * b.fails == b.holds * a.fails
  }

  lemma OddsDecide(r: real, s: real, x: Weights, y: Weights)
    requires AllPositive(x) && AllPositive(y) && Odds(r, x) && Odds(s, y)
    ensures r == s <==> SameOdds(x, y)
  {
    var t, u := x.holds + x.fails, y.holds + y.fails;
    CrossedOdds(r, s, x, y, t, u);
    PositiveProduct(t, u);
    ZeroFactor(r - s, t * u);
  }

  lemma CrossedOdds(r: real, s: real, x: Weights, y: Weights, t: real, u: real)
    requires t == x.holds + x.fails && u == y.holds + y.fails && r * t == x.holds && s * u == y.holds
    ensures (r - s) * (t * u) == x.holds * y.fails - y.holds * x.fails
  {
    assert (r - s) * (t * u) == (r * t) * u - (s * u) * t;
    assert x.holds * u - y.holds * t == x.holds * y.fails - y.holds * x.fails;
  }

  lemma ZeroFactor(x: real, y: real)
    requires y > 0.0
    ensures x * y == 0.0 <==> x == 0.0
  {}

  lemma CommonFactor(w: Weights, a: Weights, b: Weights)
    requires AllPositive(w)
    ensures SameOdds(Times(w, a), Times(w, b)) <==> SameOdds(a, b)
  {
    var d := a.holds * b.fails - b.holds * a.fails;
    PositiveProduct(w.holds, w.fails);
    CrossTerms(w.holds, w.fails, a.holds, b.fails);
    CrossTerms(w.holds, w.fails, b.holds, a.fails);
    assert d * (w.holds * w.fails) == (w.holds * w.fails) * (a.holds * b.fails) - (w.holds * w.fails) * (b.holds * a.fails);
    ZeroFactor(d, w.holds * w.fails);
  }

  lemma CrossTerms(v: real, w: real, x: real, y: real)
    ensures (v * x) * (w * y) == (v * w) * (x * y)
  {
    assert (v * x) * (w * y) == ((v * x) * w) * y == ((v * w) * x) * y;
  }

  /**
   Exactly when two orders of the same evidence end in the same belief, whatever clamps they meet:
   when the net effects of their clamps on the odds agree.
   */
  lemma SameEndExactly(p: real, a: seq<Likelihood>, b: seq<Likelihood>)
    requires 0.0 < p < 1.0 && multiset(a) == multiset(b)
    ensures Run(p, a) == Run(p, b) <==> SameOdds(Net(p, a), Net(p, b))
  {
    var w := Times(Complements(p), Joint(a));
    JointIgnoresOrder(a, b);
    JointPositive(a);
    TimesPositive(Complements(p), Joint(a));
    NetPositive(p, a);
    NetPositive(p, b);
    TimesPositive(w, Net(p, a));
    TimesPositive(w, Net(p, b));
    RunMultipliesOdds(p, a);
    RunMultipliesOdds(p, b);
    OddsDecide(Run(p, a), Run(p, b), Times(w, Net(p, a)), Times(w, Net(p, b)));
    CommonFactor(w, Net(p, a), Net(p, b));
  }

  // Direction

  /** Evidence above one half raises the belief and evidence below one half lowers it. */
  lemma EvidenceMovesBelief(p: real, l: Likelihood)
    requires 0.0 < p < 1.0
    ensures Posterior(p, l) > p <==> l > 0.5
    ensures Posterior(p, l) < p <==> l < 0.5
  {
    GuardInactive(p, l);
    PosteriorSplits(p, l);
    var e := EvidenceProbability(p, l);
    var x, v := Posterior(p, l), p * (1.0 - p);
    assert v > 0.0 by { PositiveProduct(p, 1.0 - p); }
    Displacement(p, l);
    Spread(x, p, e);
    SameSign(x - p, e, 2.0 * l - 1.0, v);
  }

  lemma SameSign(d: real, e: real, c: real, v: real)
    requires e > 0.0 && v > 0.0 && d * e == c * v
    ensures d > 0.0 <==> c > 0.0
    ensures d < 0.0 <==> c < 0.0
  {
    ScaledSign(d, e);
    ScaledSign(c, v);
  }

  lemma Spread(x: real, p: real, e: real)
    ensures (x - p) * e == x * e - p * e
  {
  }

  lemma Displacement(p: real, l: real)
    ensures l * p - p * EvidenceProbability(p, l) == (2.0 * l - 1.0) * (p * (1.0 - p))
  {
    var c := 2.0 * l - 1.0;
    EvidenceIsLinear(p, l);
    assert l - EvidenceProbability(p, l) == c * (1.0 - p) by { LinearDisplacement(p, l); }
    assert p * (c * (1.0 - p)) == c * (p * (1.0 - p)) by { SwapFactors(p, c, 1.0 - p); }
    assert p * (l - EvidenceProbability(p, l)) == l * p - p * EvidenceProbability(p, l);
  }

  lemma LinearDisplacement(p: real, l: real)
    ensures l - (1.0 - p + l * (2.0 * p - 1.0)) == (2.0 * l - 1.0) * (1.0 - p)
  {
  }

  lemma SwapFactors(x: real, y: real, z: real)
    ensures x * (y * z) == y * (x * z)
  {
    ProductAssociates(x, y, z);
    ProductAssociates(y, x, z);
  }

  /**
   One clamp-free order is not enough for OrderIrrelevant.  At the cap, confirming evidence that
   comes first is lost, so the same two pieces of evidence end strictly lower than the other way
   round.
   */
  lemma ConfirmingFirstIsLost(opposing: Likelihood, confirming: Likelihood)
    requires opposing < 0.5 < confirming
    ensures Run(MAX_BELIEF, [confirming, opposing]) < Run(MAX_BELIEF, [opposing, confirming])
    ensures multiset([confirming, opposing]) == multiset([opposing, confirming])
  {
    EvidenceMovesBelief(MAX_BELIEF, confirming);
    EvidenceMovesBelief(MAX_BELIEF, opposing);
    var lowered := Next(MAX_BELIEF, opposing);
    EvidenceMovesBelief(lowered, confirming);
    RunOfTwo(MAX_BELIEF, confirming, opposing, MAX_BELIEF);
    RunOfTwo(MAX_BELIEF, opposing, confirming, lowered);
  }

  lemma RunOfTwo(p: real, l: Likelihood, m: Likelihood, x: real)
    requires Next(p, l) == x
    ensures Run(p, [l, m]) == Next(x, m)
  {
    assert [l, m][1..] == [m];
    assert Run(x, [m]) == Run(Next(x, m), []);
  }

  // The object

  class Tracker {
    var belief: real
    const prior: real
    var history: seq<Entry>

    constructor (prior: real)
      requires 0.0 < prior < 1.0
      ensures belief == this.prior == prior && history == []
    {
      this.prior := prior;
      belief := prior;
      history := [];
    }

    /** The source raises ValueError for a prior outside the open unit interval. */
    static method Create(prior: real) returns (tracker: Tracker?)
      ensures tracker == null <==> !(0.0 < prior < 1.0)
      ensures tracker != null ==> fresh(tracker) && tracker.belief == tracker.prior == prior && tracker.history == []
    {
      if !(0.0 < prior < 1.0) {
        return null;
      }
      tracker := new Tracker(prior);
    }

    method Update(e: Evidence) returns (action: Action)
      modifies this
      ensures belief == Next(old(belief), Effective(e))
      ensures history == old(history) + [Entry(e.kind, Effective(e), old(belief), belief)]
      ensures action == ActionFor(belief)
    {
      var likelihood := Effective(e);
      var before := belief;
      var probability := likelihood * before + (1.0 - likelihood) * (1.0 - before);
      if probability < TINY {
        probability := TINY;
      }
      assert probability == Guarded(EvidenceProbability(before, likelihood));
      var posterior := likelihood * before / probability;
      assert posterior == Posterior(before, likelihood);
      belief := if posterior < MAX_BELIEF then posterior else MAX_BELIEF;
      if belief < MIN_BELIEF {
        belief := MIN_BELIEF;
      }
      history := history + [Entry(e.kind, likelihood, before, belief)];
      action := ActionFor(belief);
    }

    method Reset(newPrior: Option<real>)
      modifies this
      ensures history == []
      ensures belief == if newPrior.Some? then newPrior.value else prior
    {
      belief := match newPrior
        case Some(p) => p
        case None => prior;
      history := [];
    }
  }
}
