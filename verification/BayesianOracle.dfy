/**
 The regime oracle of src/bayesian_oracle.py: four regimes, a table of likelihoods, sequential
 normalised updates and the decay of the priors toward the uniform distribution.  Logarithms are
 not computed: the log prices are an input beside the prices.
 */
module BayesianOracle {
  import opened Collections
  import opened Reals

  datatype Regime = Bull | Bear | Sideways | HighVol

  /** The evidence buckets of the table, and any label that is not in the table. */
  datatype Bucket =
    | MomentumPositive | MomentumNegative
    | VixLow | VixHigh
    | VolumeExpanding | VolumeContracting
    | BreadthPositive | BreadthNegative
    | Other(text: string)

  /** One number per regime, in the order in which the dictionaries list the regimes. */
  datatype Weights = Weights(bull: real, bear: real, sideways: real, highVol: real) {
    function At(r: Regime): real {
      match r
      case Bull => bull
      case Bear => bear
      case Sideways => sideways
      case HighVol => highVol
    }

    function Total(): real { bull + bear + sideways + highVol }
  }

  const UNIFORM := Weights(0.25, 0.25, 0.25, 0.25)
  const ONES := Weights(1.0, 1.0, 1.0, 1.0)
  const NEGLIGIBLE := 0.000000000000001
  const FLOOR := 0.0125
  const HISTORY_LIMIT := 500

  predicate AtLeast(w: Weights, m: real) {
    w.bull >= m && w.bear >= m && w.sideways >= m && w.highVol >= m
  }

  predicate AtMost(w: Weights, m: real) {
    w.bull <= m && w.bear <= m && w.sideways <= m && w.highVol <= m
  }

  predicate AllPositive(w: Weights) {
    w.bull > 0.0 && w.bear > 0.0 && w.sideways > 0.0 && w.highVol > 0.0
  }

  predicate Distribution(p: Weights) {
    AtLeast(p, 0.0) && p.Total() == 1.0
  }

  /** A distribution that rules no regime out. */
  predicate Floored(p: Weights) {
    AtLeast(p, FLOOR) && p.Total() == 1.0
  }

  // Likelihoods, products and normalisation

  function Likelihood(ev: Bucket): Weights {
    match ev
    case MomentumPositive => Weights(0.70, 0.20, 0.45, 0.40)
    case MomentumNegative => Weights(0.30, 0.80, 0.55, 0.60)
    case VixLow => Weights(0.65, 0.15, 0.55, 0.05)
    case VixHigh => Weights(0.15, 0.70, 0.20, 0.90)
    case VolumeExpanding => Weights(0.60, 0.55, 0.30, 0.65)
    case VolumeContracting => Weights(0.40, 0.45, 0.70, 0.35)
    case BreadthPositive => Weights(0.72, 0.18, 0.48, 0.35)
    case BreadthNegative => Weights(0.28, 0.82, 0.52, 0.65)
    case Other(_) => ONES
  }

  function Times(a: Weights, b: Weights): Weights {
    Weights(a.bull * b.bull, a.bear * b.bear, a.sideways * b.sideways, a.highVol * b.highVol)
  }

  function Normalised(w: Weights): Weights
    requires w.Total() != 0.0
  {
    var t := w.Total();
    Weights(w.bull / t, w.bear / t, w.sideways / t, w.highVol / t)
  }

  /** The joint likelihood of a list of evidence: the plain product, in no particular order. */
  function Joint(evidence: seq<Bucket>): Weights {
    if evidence == [] then ONES else Times(Likelihood(evidence[0]), Joint(evidence[1..]))
  }

  /** Bayes' rule in one shot: prior times joint likelihood, normalised once. */
  function Posterior(p: Weights, evidence: seq<Bucket>): Weights
    requires Times(p, Joint(evidence)).Total() != 0.0
  {
    Normalised(Times(p, Joint(evidence)))
  }

  /** Two buckets that exhaust a feature. */
  ghost predicate Opposite(a: Bucket, b: Bucket) {
    || (a == MomentumPositive && b == MomentumNegative) || (a == VixLow && b == VixHigh)
    || (a == VolumeExpanding && b == VolumeContracting) || (a == BreadthPositive && b == BreadthNegative)
  }

  /** The two likelihoods of a feature add up to one in every regime, exactly unless the feature is the VIX. */
  lemma RowsComplementExactly(a: Bucket, b: Bucket)
    requires Opposite(a, b)
    ensures (forall r :: Likelihood(a).At(r) + Likelihood(b).At(r) == 1.0) <==> a != VixLow
    ensures a == VixLow ==> forall r :: Likelihood(a).At(r) + Likelihood(b).At(r) == Weights(0.80, 0.85, 0.75, 0.95).At(r)
  {
    if a == VixLow {
      assert Likelihood(a).At(Bull) + Likelihood(b).At(Bull) == 0.80;
    }
  }

  /** The regime that a single piece of evidence speaks for most. */
  function SpeaksFor(ev: Bucket): Regime {
    match ev
    case MomentumPositive => Bull
    case MomentumNegative => Bear
    case VixLow => Bull
    case VixHigh => HighVol
    case VolumeExpanding => HighVol
    case VolumeContracting => Sideways
    case BreadthPositive => Bull
    case BreadthNegative => Bear
    case Other(_) => Bull
  }

  lemma EvidenceSpeaks(ev: Bucket, r: Regime)
    requires !ev.Other? && r != SpeaksFor(ev)
    ensures Likelihood(ev).At(r) < Likelihood(ev).At(SpeaksFor(ev))
  {}

  /** The probability of a piece of evidence with these likelihoods. */
  ghost function Mixed(p: Weights, l: Weights): real {
    p.bull * l.bull + p.bear * l.bear + p.sideways * l.sideways + p.highVol * l.highVol
  }

  /** Bayes' rule for one piece of evidence, regime by regime. */
  lemma OneStepIsBayes(p: Weights, ev: Bucket, r: Regime)
    requires Times(p, Joint([ev])).Total() != 0.0
    ensures Product(p.At(r) * Likelihood(ev).At(r), Posterior(p, [ev]).At(r), Mixed(p, Likelihood(ev)))
  {
    JointOfOne(ev);
    MixedShares(p, Likelihood(ev), r);
  }

  lemma MixedShares(p: Weights, l: Weights, r: Regime)
    requires Times(p, l).Total() != 0.0
    ensures Product(p.At(r) * l.At(r), Normalised(Times(p, l)).At(r), Mixed(p, l))
  {
    TotalShares(Times(p, l), r);
  }

  lemma JointOfOne(ev: Bucket)
    ensures Joint([ev]) == Likelihood(ev)
  {
    assert [ev][1..] == [];
  }

  lemma TotalShares(w: Weights, r: Regime)
    requires w.Total() != 0.0
    ensures Product(w.At(r), Normalised(w).At(r), w.Total())
  {
    DividedBy(w.At(r), w.Total());
  }

  lemma DividedBy(x: real, t: real)
    requires t != 0.0
    ensures x / t * t == x
  {}

  lemma TimesAssociates(a: Weights, b: Weights, c: Weights)
    ensures Times(Times(a, b), c) == Times(a, Times(b, c))
  {
    ProductAssociates(a.bull, b.bull, c.bull);
    ProductAssociates(a.bear, b.bear, c.bear);
    ProductAssociates(a.sideways, b.sideways, c.sideways);
    ProductAssociates(a.highVol, b.highVol, c.highVol);
  }

  lemma {:induction false} JointPositive(evidence: seq<Bucket>)
    ensures AllPositive(Joint(evidence))
  {
    if evidence == [] {
    } else {
      JointPositive(evidence[1..]);
      TimesPositive(Likelihood(evidence[0]), Joint(evidence[1..]));
    }
  }

  lemma TimesPositive(a: Weights, b: Weights)
    requires AllPositive(a) && AllPositive(b)
    ensures AllPositive(Times(a, b))
  {
    PositiveProduct(a.bull, b.bull);
    PositiveProduct(a.bear, b.bear);
    PositiveProduct(a.sideways, b.sideways);
    PositiveProduct(a.highVol, b.highVol);
  }

  lemma MinimumProduct(p: real, l: real, m: real)
    requires p >= 0.0 && l >= m
    ensures p * l >= p * m
  {
  }

  lemma Distribute(a: real, b: real, c: real, d: real, m: real)
    ensures a * m + b * m + c * m + d * m == (a + b + c + d) * m
  {
  }

  lemma UnitShares(a: real, b: real, c: real, d: real, m: real)
    requires a + b + c + d == 1.0
    ensures a * m + b * m + c * m + d * m == m
  {
    Distribute(a, b, c, d, m);
  }

  /** A weighted average is at least the smallest value. */
  lemma AverageAtLeast(p: Weights, l: Weights, m: real)
    requires Distribution(p) && AtLeast(l, m)
    ensures Times(p, l).Total() >= m
  {
    TimesOrdered(p, Same(m), l);
    AverageOfSame(p, m);
    BelowTotals(Times(p, Same(m)), Times(p, l));
  }

  lemma AverageAtMost(p: Weights, l: Weights, m: real)
    requires Distribution(p) && AtMost(l, m)
    ensures Times(p, l).Total() <= m
  {
    TimesOrdered(p, l, Same(m));
    AverageOfSame(p, m);
    BelowTotals(Times(p, l), Times(p, Same(m)));
  }

  function Same(m: real): Weights {
    Weights(m, m, m, m)
  }

  lemma AverageOfSame(p: Weights, m: real)
    requires Distribution(p)
    ensures Times(p, Same(m)).Total() == m
  {
    UnitShares(p.bull, p.bear, p.sideways, p.highVol, m);
  }

  lemma BelowTotals(w: Weights, v: Weights)
    requires Below(w, v)
    ensures w.Total() <= v.Total()
  {
  }

  predicate Below(l: Weights, h: Weights) {
    l.bull <= h.bull && l.bear <= h.bear && l.sideways <= h.sideways && l.highVol <= h.highVol
  }

  lemma TimesOrdered(p: Weights, l: Weights, h: Weights)
    requires AtLeast(p, 0.0) && Below(l, h)
    ensures Below(Times(p, l), Times(p, h))
  {
    MinimumProduct(p.bull, h.bull, l.bull);
    MinimumProduct(p.bear, h.bear, l.bear);
    MinimumProduct(p.sideways, h.sideways, l.sideways);
    MinimumProduct(p.highVol, h.highVol, l.highVol);
  }

  /** Whatever the evidence, the unnormalised total is far from the guard that would skip it. */
  lemma StepTotalBounded(p: Weights, ev: Bucket)
    requires Distribution(p)
    ensures Times(p, Likelihood(ev)).Total() >= 0.05 > NEGLIGIBLE
  {
    AverageAtLeast(p, Likelihood(ev), 0.05);
  }

  /** A positive joint likelihood leaves some weight on a distribution. */
  lemma JointTotalPositive(p: Weights, l: Weights)
    requires Distribution(p) && AllPositive(l)
    ensures Times(p, l).Total() > 0.0
  {
    AverageAtLeast(p, l, Smallest(l));
  }

  function Smallest(l: Weights): (m: real)
    ensures AtLeast(l, m) && (AllPositive(l) ==> m > 0.0)
  {
    var x := if l.bull <= l.bear then l.bull else l.bear;
    var y := if l.sideways <= l.highVol then l.sideways else l.highVol;
    if x <= y then x else y
  }

  lemma NormalisedIsDistribution(w: Weights)
    requires AtLeast(w, 0.0) && w.Total() > 0.0
    ensures Distribution(Normalised(w))
  {
    var t := w.Total();
    Share(w.bull, t);
    Share(w.bear, t);
    Share(w.sideways, t);
    Share(w.highVol, t);
    var n := Normalised(w);
    Distribute(n.bull, n.bear, n.sideways, n.highVol, t);
    CancelFactor(n.Total(), 1.0, t);
  }

  lemma Share(x: real, t: real)
    requires t > 0.0
    ensures (x / t) * t == x
    ensures x >= 0.0 ==> x / t >= 0.0
  {
  }

  lemma CancelFactor(x: real, y: real, t: real)
    requires t != 0.0 && x * t == y * t
    ensures x == y
  {
    assert (x - y) * t == 0.0;
  }

  // The sequential update

  /** One turn of the loop, with its two reasons to leave the posteriors alone. */
  function Step(p: Weights, ev: Bucket): Weights {
    if ev.Other? then p
    else
      var unnormalised := Times(p, Likelihood(ev));
      if unnormalised.Total() < NEGLIGIBLE then p else Normalised(unnormalised)
  }

  function Sequential(p: Weights, evidence: seq<Bucket>): Weights
    decreases |evidence|
  {
    if evidence == [] then p else Sequential(Step(p, evidence[0]), evidence[1..])
  }

  lemma TimesOnes(p: Weights)
    ensures Times(p, ONES) == p
  {
  }

  lemma TimesNonNegative(a: Weights, b: Weights)
    requires AtLeast(a, 0.0) && AtLeast(b, 0.0)
    ensures AtLeast(Times(a, b), 0.0)
  {
    MinimumProduct(a.bull, b.bull, 0.0);
    MinimumProduct(a.bear, b.bear, 0.0);
    MinimumProduct(a.sideways, b.sideways, 0.0);
    MinimumProduct(a.highVol, b.highVol, 0.0);
  }

  /** On a distribution a turn of the loop always normalises: the skip is never taken. */
  lemma StepNormalises(p: Weights, ev: Bucket)
    requires Distribution(p)
    ensures Times(p, Likelihood(ev)).Total() > 0.0
    ensures Step(p, ev) == Normalised(Times(p, Likelihood(ev)))
    ensures Distribution(Step(p, ev))
  {
    StepTotalBounded(p, ev);
    var w := Times(p, Likelihood(ev));
    TimesNonNegative(p, Likelihood(ev));
    NormalisedIsDistribution(w);
    if ev.Other? {
      TimesOnes(p);
    }
  }

  ghost predicate InProportion(n: Weights, v: Weights, t: real) {
    && Product(v.bull, n.bull, t)
    && Product(v.bear, n.bear, t)
    && Product(v.sideways, n.sideways, t)
    && Product(v.highVol, n.highVol, t)
  }

  lemma NormalisedInProportion(w: Weights)
    requires w.Total() > 0.0
    ensures InProportion(Normalised(w), w, w.Total())
  {
    Share(w.bull, w.Total());
    Share(w.bear, w.Total());
    Share(w.sideways, w.Total());
    Share(w.highVol, w.Total());
  }

  lemma TimesInProportion(n: Weights, v: Weights, l: Weights, t: real)
    requires InProportion(n, v, t)
    ensures InProportion(Times(n, l), Times(v, l), t)
  {
    ScaledTerm(n.bull, v.bull, l.bull, t);
    ScaledTerm(n.bear, v.bear, l.bear, t);
    ScaledTerm(n.sideways, v.sideways, l.sideways, t);
    ScaledTerm(n.highVol, v.highVol, l.highVol, t);
  }

  /** Two lists of weights in proportion to each other normalise to the same shares. */
  lemma ProportionKeepsShares(n: Weights, v: Weights, t: real)
    requires t > 0.0 && v.Total() > 0.0 && InProportion(n, v, t)
    ensures n.Total() > 0.0 && Normalised(n) == Normalised(v)
  {
    Distribute(n.bull, n.bear, n.sideways, n.highVol, t);
    PositiveQuotient(n.Total(), t, v.Total());
    SameRatio(n.bull, n.Total(), t, v.bull, v.Total());
    SameRatio(n.bear, n.Total(), t, v.bear, v.Total());
    SameRatio(n.sideways, n.Total(), t, v.sideways, v.Total());
    SameRatio(n.highVol, n.Total(), t, v.highVol, v.Total());
  }

  /** Normalising before a multiplication does not matter once the result is normalised. */
  lemma NormaliseOnce(w: Weights, l: Weights)
    requires w.Total() > 0.0 && Times(w, l).Total() > 0.0
    ensures Times(Normalised(w), l).Total() > 0.0
    ensures Normalised(Times(Normalised(w), l)) == Normalised(Times(w, l))
  {
    NormalisedInProportion(w);
    TimesInProportion(Normalised(w), w, l, w.Total());
    ProportionKeepsShares(Times(Normalised(w), l), Times(w, l), w.Total());
  }

  lemma ScaledTerm(n: real, v: real, l: real, t: real)
    requires Product(v, n, t)
    ensures Product(v * l, n * l, t)
  {
    assert n * l * t == (n * t) * l;
  }

  lemma PositiveQuotient(x: real, t: real, y: real)
    requires t > 0.0 && y > 0.0 && x * t == y
    ensures x > 0.0
  {
    if x <= 0.0 {
      MinimumProduct(t, 0.0, x);
      assert false;
    }
  }

  lemma SameRatio(a: real, s: real, t: real, x: real, y: real)
    requires s > 0.0 && t > 0.0 && y > 0.0
    requires a * t == x && s * t == y
    ensures a / s == x / y
  {
    Share(a, s);
    Share(x, y);
    var p, q := a / s, x / y;
    assert p * y == (p * s) * t;
    assert p * y == q * y;
    CancelFactor(p, q, y);
  }

  /** Sequential normalised updating is Bayes' rule applied once to the whole list. */
  lemma {:induction false} SequentialIsOneShot(p: Weights, evidence: seq<Bucket>)
    requires Distribution(p)
    ensures Times(p, Joint(evidence)).Total() > 0.0
    ensures Sequential(p, evidence) == Posterior(p, evidence)
    ensures Distribution(Sequential(p, evidence))
    decreases |evidence|
  {
    JointPositive(evidence);
    JointTotalPositive(p, Joint(evidence));
    if evidence == [] {
      TimesOnes(p);
    } else {
      var l, rest := Likelihood(evidence[0]), Joint(evidence[1..]);
      StepNormalises(p, evidence[0]);
      SequentialIsOneShot(Step(p, evidence[0]), evidence[1..]);
      TimesAssociates(p, l, rest);
      NormaliseOnce(Times(p, l), rest);
    }
  }

  // Order

  lemma TimesSwap(a: Weights, b: Weights, c: Weights)
    ensures Times(a, Times(b, c)) == Times(b, Times(a, c))
  {
    TimesAssociates(a, b, c);
    TimesAssociates(b, a, c);
    assert Times(a, b) == Times(b, a);
  }

  lemma {:induction false} JointTakesAny(evidence: seq<Bucket>, i: nat)
    requires i < |evidence|
    ensures Joint(evidence) == Times(Likelihood(evidence[i]), Joint(evidence[..i] + evidence[i + 1..]))
    decreases i
  {
    var rest := evidence[..i] + evidence[i + 1..];
    if i == 0 {
      assert rest == evidence[1..];
    } else {
      var tail := evidence[1..];
      JointTakesAny(tail, i - 1);
      assert rest[0] == evidence[0];
      assert rest[1..] == tail[..i - 1] + tail[i..];
      TimesSwap(Likelihood(evidence[0]), Likelihood(evidence[i]), Joint(rest[1..]));
    }
  }

  lemma {:induction false} JointIgnoresOrder(a: seq<Bucket>, b: seq<Bucket>)
    requires multiset(a) == multiset(b)
    ensures Joint(a) == Joint(b)
    decreases |a|
  {
    if a == [] {
      assert |multiset(b)| == 0;
    } else {
      assert a[0] in multiset(b);
      var i :| 0 <= i < |b| && b[i] == a[0];
      var rest := b[..i] + b[i + 1..];
      RemaindersAgree(a, b, i);
      JointTakesAny(b, i);
      JointIgnoresOrder(a[1..], rest);
    }
  }

  /** The same evidence in any order, with any unknown labels left in, gives the same posteriors. */
  lemma EvidenceOrderIrrelevant(p: Weights, a: seq<Bucket>, b: seq<Bucket>)
    requires Distribution(p) && multiset(a) == multiset(b)
    ensures Sequential(p, a) == Sequential(p, b)
  {
    SequentialIsOneShot(p, a);
    SequentialIsOneShot(p, b);
    JointIgnoresOrder(a, b);
  }

  // The most probable regime and the decay of the priors

  /** The first regime, in dictionary order, with the largest value. */
  function Leader(p: Weights): (best: Regime)
    ensures forall r: Regime :: p.At(r) <= p.At(best)
    ensures forall r: Regime :: Earlier(r, best) ==> p.At(r) < p.At(best)
  {
    var first := if p.bear > p.bull then Bear else Bull;
    var second := if p.sideways > p.At(first) then Sideways else first;
    if p.highVol > p.At(second) then HighVol else second
  }

  predicate Earlier(r: Regime, s: Regime) {
    match s
    case Bull => false
    case Bear => r.Bull?
    case Sideways => r.Bull? || r.Bear?
    case HighVol => !r.HighVol?
  }

  function Decayed(p: Weights): Weights {
    Weights(0.95 * p.bull + 0.05 * 0.25, 0.95 * p.bear + 0.05 * 0.25,
            0.95 * p.sideways + 0.05 * 0.25, 0.95 * p.highVol + 0.05 * 0.25)
  }

  /** The decay gives every regime at least 1/80, stays a distribution and keeps the ranking. */
  lemma DecayKeepsRanking(p: Weights, r: Regime, s: Regime)
    requires Distribution(p)
    ensures Floored(Decayed(p)) && Distribution(Decayed(p))
    ensures Decayed(p).At(r) < Decayed(p).At(s) <==> p.At(r) < p.At(s)
  {
    assert Decayed(p).At(r) == 0.95 * p.At(r) + FLOOR;
    assert Decayed(p).At(s) == 0.95 * p.At(s) + FLOOR;
  }

  lemma DecayKeepsLeader(p: Weights)
    requires Distribution(p)
    ensures Leader(Decayed(p)) == Leader(p) && p.At(Leader(p)) >= 0.25
  {
    DecayKeepsRanking(p, Bull, Bear);
    DecayKeepsRanking(p, if p.bear > p.bull then Bear else Bull, Sideways);
    var first := if p.bear > p.bull then Bear else Bull;
    DecayKeepsRanking(p, if p.sideways > p.At(first) then Sideways else first, HighVol);
    LeaderIsLargest(p);
  }

  lemma LeaderIsLargest(p: Weights)
    requires Distribution(p)
    ensures p.At(Leader(p)) >= 0.25
  {
    assert p.At(Bull) <= p.At(Leader(p)) && p.At(Bear) <= p.At(Leader(p));
    assert p.At(Sideways) <= p.At(Leader(p)) && p.At(HighVol) <= p.At(Leader(p));
  }

  /** The priors after a run of updates, one list of evidence per update. */
  /** A quarter of the way to certainty or back: the decay shrinks every distance from 1/4 by 5%. */
  lemma DecayShrinksDistance(p: Weights, r: Regime)
    ensures Decayed(p).At(r) - 0.25 == 0.95 * (p.At(r) - 0.25)
  {}

  function PriorsAfter(p: Weights, updates: seq<seq<Bucket>>): Weights
    decreases |updates|
  {
    if updates == [] then p else PriorsAfter(Decayed(Sequential(p, updates[0])), updates[1..])
  }

  /** From any floored distribution, and so from the uniform start, no run rules a regime out. */
  lemma {:induction false} RunKeepsFloor(p: Weights, updates: seq<seq<Bucket>>)
    requires Floored(p)
    ensures Floored(PriorsAfter(p, updates))
    ensures AtMost(PriorsAfter(p, updates), 1.0 - 3.0 * FLOOR)
    decreases |updates|
  {
    if updates == [] {
    } else {
      SequentialIsOneShot(p, updates[0]);
      DecayKeepsRanking(Sequential(p, updates[0]), Bull, Bull);
      RunKeepsFloor(Decayed(Sequential(p, updates[0])), updates[1..]);
    }
  }

  ghost predicate KeepsShare(posterior: real, likelihood: real, m: real) {
    posterior * m >= FLOOR * likelihood
  }

  /**
   Because of the floor, a regime can always come back: whatever happened before, its posterior is
   at least 1/80 of its share of the largest joint likelihood of the new evidence.
   */
  lemma NoRegimeLockedOut(updates: seq<seq<Bucket>>, evidence: seq<Bucket>, r: Regime, m: real)
    requires AtMost(Joint(evidence), m)
    ensures KeepsShare(Sequential(PriorsAfter(UNIFORM, updates), evidence).At(r), Joint(evidence).At(r), m)
  {
    RunKeepsFloor(UNIFORM, updates);
    PosteriorKeepsShare(PriorsAfter(UNIFORM, updates), evidence, r, m);
  }

  lemma PosteriorKeepsShare(p: Weights, evidence: seq<Bucket>, r: Regime, m: real)
    requires Floored(p) && AtMost(Joint(evidence), m)
    ensures KeepsShare(Sequential(p, evidence).At(r), Joint(evidence).At(r), m)
  {
    SequentialIsOneShot(p, evidence);
    JointPositive(evidence);
    AverageAtMost(p, Joint(evidence), m);
    NormalisedKeepsShare(p, Joint(evidence), r, m);
  }

  lemma NormalisedKeepsShare(p: Weights, l: Weights, r: Regime, m: real)
    requires Floored(p) && AllPositive(l) && 0.0 < Times(p, l).Total() <= m
    ensures KeepsShare(Normalised(Times(p, l)).At(r), l.At(r), m)
  {
    var w := Times(p, l);
    TimesAt(p, l, r);
    NormalisedAt(w, r);
    LeastAt(p, l, r);
    Recovery(Normalised(w).At(r), p.At(r), l.At(r), w.At(r), w.Total(), m);
  }

  lemma TimesAt(a: Weights, b: Weights, r: Regime)
    ensures Product(Times(a, b).At(r), a.At(r), b.At(r))
  {
  }

  lemma NormalisedAt(w: Weights, r: Regime)
    requires w.Total() > 0.0
    ensures Product(w.At(r), Normalised(w).At(r), w.Total())
  {
    Share(w.At(r), w.Total());
  }

  lemma LeastAt(p: Weights, l: Weights, r: Regime)
    requires Floored(p) && AllPositive(l)
    ensures p.At(r) >= FLOOR && l.At(r) > 0.0
  {
  }

  lemma Recovery(q: real, p: real, l: real, x: real, total: real, m: real)
    requires p >= FLOOR && l > 0.0 && 0.0 < total <= m
    requires Product(x, p, l) && Product(x, q, total)
    ensures KeepsShare(q, l, m)
  {
    PositiveProduct(p, l);
    PositiveQuotient(q, total, x);
    assert q * m >= x by { MinimumProduct(q, m, total); }
    assert x >= l * FLOOR by { MinimumProduct(l, p, FLOOR); }
  }

  // Evidence from market data

  type Volume = v: real | v >= 0.0 witness 0.0

  /** The inputs of one update, with the logarithm of each price beside the price. */
  datatype Market = Market(prices: seq<real>, logs: seq<real>, volumes: seq<Volume>, vix: real)

  ghost predicate Usable(m: Market) {
    |m.logs| == |m.prices|
  }

  lemma {:induction false} VolumesAddUp(vs: seq<Volume>)
    ensures Sum(vs) >= 0.0
  {
    if vs != [] {
      VolumesAddUp(vs[1..]);
    }
  }

  /** Consecutive differences: one fewer than there are values. */
  function Diffs(xs: seq<real>): (ds: seq<real>)
    ensures |ds| == if xs == [] then 0 else |xs| - 1
    ensures forall i :: 0 <= i < |ds| ==> ds[i] == xs[i + 1] - xs[i]
  {
    seq(if xs == [] then 0 else |xs| - 1, i requires 0 <= i < |xs| - 1 => xs[i + 1] - xs[i])
  }

  /** At most the last n elements. */
  function Last<T>(xs: seq<T>, n: nat): seq<T> {
    if |xs| <= n then xs else xs[|xs| - n..]
  }

  function Momentum(logs: seq<real>): real {
    Sum(Last(Diffs(logs), 21))
  }

  function CountPositive(ds: seq<real>): nat {
    if ds == [] then 0 else (if ds[0] > 0.0 then 1 else 0) + CountPositive(ds[1..])
  }

  function VolumeTrend(volumes: seq<Volume>): real
    requires |volumes| >= 10
  {
    VolumesAddUp(Last(volumes, 10));
    (Sum(Last(volumes, 5)) / 5.0) / (Sum(Last(volumes, 10)) / 10.0 + 0.0000000001)
  }

  function MomentumEvidence(m: Market): (r: seq<Bucket>)
    ensures |r| <= 1 && forall ev :: ev in r ==> ev.MomentumPositive? || ev.MomentumNegative?
  {
    if |m.prices| < 21 then [] else [if Momentum(m.logs) > 0.0 then MomentumPositive else MomentumNegative]
  }

  function VixEvidence(m: Market): (r: Bucket)
    ensures r.VixHigh? <==> m.vix > 20.0
    ensures r.VixLow? <==> m.vix <= 20.0
  {
    if m.vix > 20.0 then VixHigh else VixLow
  }

  function VolumeEvidence(m: Market): (r: seq<Bucket>)
    ensures |r| <= 1 && forall ev :: ev in r ==> ev.VolumeExpanding? || ev.VolumeContracting?
  {
    if |m.volumes| < 10 then []
    else [if VolumeTrend(m.volumes) > 1.05 then VolumeExpanding else VolumeContracting]
  }

  function BreadthEvidence(m: Market): (r: seq<Bucket>)
    ensures |r| <= 1 && forall ev :: ev in r ==> ev.BreadthPositive? || ev.BreadthNegative?
  {
    if |m.prices| < 11 then []
    else [if CountPositive(Diffs(Last(m.prices, 11))) >= 6 then BreadthPositive else BreadthNegative]
  }

  function Evidence(m: Market): (evidence: seq<Bucket>)
    ensures 1 <= |evidence| <= 4
    ensures forall ev :: ev in evidence ==> !ev.Other?
    ensures VixHigh in evidence <==> m.vix > 20.0
    ensures VixLow in evidence <==> m.vix <= 20.0
  {
    MomentumEvidence(m) + [VixEvidence(m)] + VolumeEvidence(m) + BreadthEvidence(m)
  }

  lemma SumOfFive(xs: seq<real>)
    requires |xs| == 5
    ensures Sum(xs) == xs[0] + xs[1] + xs[2] + xs[3] + xs[4]
  {
    SumFirst(xs);
    SumFirst(xs[1..]);
    SumFirst(xs[1..][1..]);
    SumFirst(xs[1..][1..][1..]);
    SumFirst(xs[1..][1..][1..][1..]);
  }

  lemma SumFirst(xs: seq<real>)
    requires xs != []
    ensures Sum(xs) == xs[0] + Sum(xs[1..])
  {}

  lemma {:induction false} SumSplits(xs: seq<real>, i: nat)
    requires i <= |xs|
    ensures Sum(xs) == Sum(xs[..i]) + Sum(xs[i..])
  {
    if i > 0 {
      SumSplits(xs[1..], i - 1);
      assert xs[..i][1..] == xs[1..][..i - 1] && xs[i..] == xs[1..][i - 1..];
    }
  }

  /** The volumes i, ..., i + 4 together. */
  ghost function FiveVolumes(m: Market, i: nat): real
    requires i + 5 <= |m.volumes|
  {
    m.volumes[i] + m.volumes[i + 1] + m.volumes[i + 2] + m.volumes[i + 3] + m.volumes[i + 4]
  }

  /** Volume expands when the average of the last five is more than 1.05 times that of the last ten. */
  lemma VolumeComparesAverages(m: Market)
    requires |m.volumes| >= 10
    ensures var n := |m.volumes|;
            var five, ten := FiveVolumes(m, n - 5), FiveVolumes(m, n - 10) + FiveVolumes(m, n - 5);
            && (VolumeExpanding in Evidence(m) <==> five / 5.0 > 1.05 * (ten / 10.0 + 0.0000000001))
            && (VolumeContracting in Evidence(m) <==> VolumeExpanding !in Evidence(m))
  {
    var n := |m.volumes|;
    var lastTen: seq<real>, lastFive: seq<real> := m.volumes[n - 10..], m.volumes[n - 5..];
    assert lastTen[5..] == lastFive;
    SumSplits(lastTen, 5);
    SumOfFive(lastTen[..5]);
    SumOfFive(lastFive);
    VolumesAddUp(m.volumes[n - 10..]);
    assert Last(m.volumes, 10) == m.volumes[n - 10..] && Last(m.volumes, 5) == m.volumes[n - 5..];
    RatioExceeds(Sum(lastFive) / 5.0, Sum(lastTen) / 10.0 + 0.0000000001, VolumeTrend(m.volumes));
    VolumeIsEvidence(m);
    assert VolumeEvidence(m) == [if VolumeTrend(m.volumes) > 1.05 then VolumeExpanding else VolumeContracting];
  }

  lemma RatioExceeds(x: real, y: real, q: real)
    requires y > 0.0 && q == x / y
    ensures q > 1.05 <==> x > 1.05 * y
  {
    Divided(x, y);
    assert (q - 1.05) * y == x - 1.05 * y;
    if q > 1.05 {
      PositiveProduct(q - 1.05, y);
    } else {
      MinimumProduct(y, 0.0, q - 1.05);
      assert y * (q - 1.05) == (q - 1.05) * y;
    }
  }

  /** The days of the last ten on which the price rose. */
  ghost function RisingDays(prices: seq<real>): set<nat> {
    set i: nat | i < |prices| && i + 10 >= |prices| && RisesOn(prices, i)
  }

  ghost predicate RisesOn(prices: seq<real>, day: nat) {
    1 <= day < |prices| && prices[day] > prices[day - 1]
  }

  ghost function Rises(ds: seq<real>, from: nat): set<nat> {
    set i: nat | i < from + |ds| && PositiveAt(ds, from, i)
  }

  ghost predicate PositiveAt(ds: seq<real>, from: nat, i: nat) {
    from <= i < from + |ds| && ds[i - from] > 0.0
  }

  lemma {:induction false} PositiveAreRises(ds: seq<real>, from: nat)
    ensures CountPositive(ds) == |Rises(ds, from)|
  {
    if ds == [] {
      assert Rises(ds, from) == {};
    } else {
      PositiveAreRises(ds[1..], from + 1);
      assert Rises(ds, from) == (if ds[0] > 0.0 then {from} else {}) + Rises(ds[1..], from + 1);
    }
  }

  /** Breadth is positive when the price rose on at least six of the last ten days. */
  lemma BreadthCountsDays(m: Market)
    requires |m.prices| >= 11
    ensures BreadthPositive in Evidence(m) <==> |RisingDays(m.prices)| >= 6
    ensures BreadthNegative in Evidence(m) <==> BreadthPositive !in Evidence(m)
  {
    RisingDaysCounted(m.prices);
    BreadthIsEvidence(m);
  }

  lemma RisingDaysCounted(prices: seq<real>)
    requires |prices| >= 11
    ensures CountPositive(Diffs(Last(prices, 11))) == |RisingDays(prices)|
  {
    var n, ds := |prices|, Diffs(Last(prices, 11));
    PositiveAreRises(ds, n - 10);
    forall i: nat ensures i in RisingDays(prices) <==> i in Rises(ds, n - 10) {
      if n - 10 <= i < n {
        RiseOfDay(prices, i);
      }
    }
    assert RisingDays(prices) == Rises(ds, n - 10);
  }

  lemma RiseOfDay(prices: seq<real>, day: nat)
    requires |prices| >= 11 && |prices| - 10 <= day < |prices|
    ensures |Diffs(Last(prices, 11))| == 10
    ensures Diffs(Last(prices, 11))[day - (|prices| - 10)] == prices[day] - prices[day - 1]
  {
    var last, k := prices[|prices| - 11..], day - (|prices| - 10);
    assert Last(prices, 11) == last && last[k + 1] == prices[day] && last[k] == prices[day - 1];
  }

  lemma BreadthIsEvidence(m: Market)
    ensures BreadthPositive in Evidence(m) <==> BreadthPositive in BreadthEvidence(m)
    ensures BreadthNegative in Evidence(m) <==> BreadthNegative in BreadthEvidence(m)
  {}

  /** Features without enough data give no evidence. */
  lemma ShortDataGivesNothing(m: Market)
    ensures |m.prices| < 21 ==> MomentumPositive !in Evidence(m) && MomentumNegative !in Evidence(m)
    ensures |m.prices| >= 21 ==> (MomentumNegative in Evidence(m) <==> MomentumPositive !in Evidence(m))
    ensures |m.volumes| < 10 ==> VolumeExpanding !in Evidence(m) && VolumeContracting !in Evidence(m)
    ensures |m.prices| < 11 ==> BreadthPositive !in Evidence(m) && BreadthNegative !in Evidence(m)
  {
    MomentumIsEvidence(m);
    VolumeIsEvidence(m);
    BreadthIsEvidence(m);
  }

  lemma MomentumIsEvidence(m: Market)
    ensures MomentumPositive in Evidence(m) <==> MomentumPositive in MomentumEvidence(m)
    ensures MomentumNegative in Evidence(m) <==> MomentumNegative in MomentumEvidence(m)
  {}

  lemma VolumeIsEvidence(m: Market)
    ensures VolumeExpanding in Evidence(m) <==> VolumeExpanding in VolumeEvidence(m)
    ensures VolumeContracting in Evidence(m) <==> VolumeContracting in VolumeEvidence(m)
  {}

  lemma {:induction false} DiffsTelescope(xs: seq<real>, from: nat)
    requires from < |xs|
    ensures Sum(Diffs(xs)[from..]) == xs[|xs| - 1] - xs[from]
    decreases |xs| - from
  {
    var ds := Diffs(xs);
    if from < |xs| - 1 {
      assert ds[from..][1..] == ds[from + 1..];
      DiffsTelescope(xs, from + 1);
    }
  }

  /** The price against which momentum is measured: 21 bars back, or the oldest one there is. */
  function Reference(n: nat): (k: nat)
    requires n > 0
    ensures k < n
  {
    if n < 22 then 0 else n - 22
  }

  /** When logarithms are ordered as their prices are, momentum only compares two prices. */
  lemma MomentumComparesTwoPrices(m: Market)
    requires Usable(m) && |m.prices| >= 21
    requires forall i, j :: 0 <= i < |m.prices| && 0 <= j < |m.prices| ==>
               (m.logs[i] < m.logs[j] <==> m.prices[i] < m.prices[j])
    ensures MomentumPositive in Evidence(m) <==>
            m.prices[Reference(|m.prices|)] < m.prices[|m.prices| - 1]
  {
    var n := |m.prices|;
    DiffsTelescope(m.logs, Reference(n));
    var ds := Diffs(m.logs);
    assert Last(ds, 21) == ds[Reference(n)..];
    MomentumIsEvidence(m);
  }

  // The object

  datatype State = State(regime: Regime, confidence: real, posteriors: Weights)

  function Recent(states: seq<State>): seq<State> {
    Last(states, HISTORY_LIMIT)
  }

  /** The history after appending states one at a time and dropping the oldest when there are too many. */
  function Appended(history: seq<State>, states: seq<State>): seq<State>
    decreases |states|
  {
    if states == [] then history else Appended(Recent(history + [states[0]]), states[1..])
  }

  lemma {:induction false} AppendedIsRecent(history: seq<State>, states: seq<State>)
    requires |history| <= HISTORY_LIMIT
    ensures Appended(history, states) == Recent(history + states)
    decreases |states|
  {
    if states == [] {
      assert history + states == history;
    } else {
      var next := Recent(history + [states[0]]);
      AppendedIsRecent(next, states[1..]);
      assert history + states == (history + [states[0]]) + states[1..];
      assert Recent(next + states[1..]) == Recent(history + states);
    }
  }

  /** The bounded history always holds the most recent 500 states, in order. */
  lemma HistoryHoldsRecent(history: seq<State>, states: seq<State>)
    requires |history| <= 500
    ensures var all := history + states;
            Appended(history, states) == if |all| <= 500 then all else all[|all| - 500..]
  {
    AppendedIsRecent(history, states);
  }

  method BayesUpdate(priors: Weights, evidence: seq<Bucket>) returns (posteriors: Weights)
    requires Distribution(priors)
    ensures Times(priors, Joint(evidence)).Total() > 0.0
    ensures posteriors == Posterior(priors, evidence)
    ensures Distribution(posteriors)
  {
    SequentialIsOneShot(priors, evidence);
    posteriors := priors;
    for i := 0 to |evidence|
      invariant Distribution(posteriors)
      invariant Sequential(posteriors, evidence[i..]) == Sequential(priors, evidence)
    {
      var ev := evidence[i];
      StepNormalises(posteriors, ev);
      assert evidence[i..][1..] == evidence[i + 1..];
      if ev.Other? {
        continue;
      }
      var unnormalised := Times(posteriors, Likelihood(ev));
      var total := unnormalised.Total();
      if total < NEGLIGIBLE {
        continue;
      }
      posteriors := Weights(unnormalised.bull / total, unnormalised.bear / total,
                            unnormalised.sideways / total, unnormalised.highVol / total);
    }
  }

  class Oracle {
    var priors: Weights
    var history: seq<State>
    var updateCount: nat

    ghost predicate Valid()
      reads this
    {
      Floored(priors) && |history| <= HISTORY_LIMIT
    }

    constructor ()
      ensures Valid() && priors == UNIFORM && history == [] && updateCount == 0
      ensures forall r :: priors.At(r) == 0.25
    {
      priors := UNIFORM;
      history := [];
      updateCount := 0;
    }

    method Update(market: Market) returns (state: State)
      requires Valid() && Usable(market)
      modifies this
      ensures Valid()
      ensures Times(old(priors), Joint(Evidence(market))).Total() > 0.0
      ensures state.posteriors == Posterior(old(priors), Evidence(market))
      ensures state.regime == Leader(state.posteriors) == Leader(priors)
      ensures state.confidence == state.posteriors.At(state.regime) >= 0.25
      ensures priors == Decayed(state.posteriors)
      ensures history == Recent(old(history) + [state])
      ensures updateCount == old(updateCount) + 1
    {
      var evidence := Evidence(market);
      var posteriors := BayesUpdate(priors, evidence);
      state := Adopt(posteriors);
      Record(state);
      updateCount := updateCount + 1;
    }

    /** The leading regime becomes the state, and the decayed posterior the next prior. */
    method Adopt(posteriors: Weights) returns (state: State)
      requires Distribution(posteriors)
      modifies this`priors
      ensures Floored(priors) && priors == Decayed(posteriors)
      ensures state.posteriors == posteriors && state.regime == Leader(posteriors) == Leader(priors)
      ensures state.confidence == posteriors.At(state.regime) >= 0.25
    {
      DecayKeepsRanking(posteriors, Bull, Bull);
      DecayKeepsLeader(posteriors);
      var best := Leader(posteriors);
      priors := Decayed(posteriors);
      state := State(best, posteriors.At(best), posteriors);
    }

    method Record(state: State)
      requires |history| <= HISTORY_LIMIT
      modifies this`history
      ensures history == Recent(old(history) + [state]) && |history| <= HISTORY_LIMIT
    {
      history := history + [state];
      if |history| > HISTORY_LIMIT {
        history := history[1..];
      }
    }
  }
}
