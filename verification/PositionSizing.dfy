/**
 The eight-step sizing chain of src/agent_c_ibkr.py.  Configuration values are parameters, the
 impact estimate is a function parameter, and prices are taken as already parsed.
 */
module PositionSizing {
  import opened Options
  import opened Reals

  datatype Config = Config(systemMaxRisk: real, cashRatio: real, riskPerTrade: real, commission: real, hardCap: real)

  /** `bars` is the length of the price history, if there is one; `target` may be missing. */
  datatype Request = Request(
    winProb: real, rewardRisk: real, balance: real, nav: real, gapModifier: real, regimeModifier: real,
    drawdownModifier: real, lossModifier: real, price: real, stop: real, spread: real, target: Option<real>,
    bars: Option<nat>, isProbe: bool, impact: nat -> real)

  function AtLeastOne(a: int): int { if a >= 1 then a else 1 }

  /** Truncation toward zero. */
  function Truncate(x: real): int {
    if x >= 0.0 then x.Floor else -(-x).Floor
  }

  /** Rounding to the nearest integer, ties to the even one. */
  function Round(x: real): int {
    var low := x.Floor;
    var rest := x - low as real;
    if rest < 0.5 then low
    else if rest > 0.5 then low + 1
    else if low % 2 == 0 then low else low + 1
  }

  // ---------------------------------------------------------------------------------------
  // The chain as functions

  /** 99% of the smaller of balance and net asset value. */
  function Usable(r: Request): real {
    Min(r.balance, r.nav) * 0.99
  }

  function Kelly(r: Request): real {
    if r.rewardRisk > 0.0 then (r.winProb - (1.0 - r.winProb) / r.rewardRisk) / 2.0 else 0.0
  }

  function RegimeFactor(r: Request): real {
    Max(0.1, Min(1.5, r.regimeModifier))
  }

  /** Half the Kelly risk, under the system and cash limits. */
  function LimitedRisk(c: Config, usable: real, kelly: real): real {
    Min(Min(usable * Max(0.0, kelly), usable * c.systemMaxRisk), usable * c.cashRatio)
  }

  function GapAdjusted(risk: real, gapModifier: real): real {
    risk * Max(0.5, Min(1.5, gapModifier))
  }

  function RegimeAdjusted(risk: real, regimeFactor: real, winProb: real): real {
    risk * regimeFactor * (if winProb < 0.6 then 0.82 else 1.0)
  }

  /** Dollar risk after step 6. */
  function Step6(c: Config, r: Request): real {
    RegimeAdjusted(GapAdjusted(LimitedRisk(c, Usable(r), Kelly(r)), r.gapModifier), RegimeFactor(r), r.winProb)
  }

  /** The ceiling on the dollar risk of one trade. */
  function RiskLimit(c: Config, usable: real, regimeFactor: real): real {
    (if c.riskPerTrade > 0.0 then usable * c.riskPerTrade else usable * 0.01) * Max(1.0, regimeFactor)
  }

  function SafetyFactor(r: Request): real {
    Min(Max(r.drawdownModifier, 0.5), 1.0) * Min(Max(r.lossModifier, 0.5), 1.0)
  }

  /** Floor, ceiling and safety multipliers, and a last floor for small accounts. */
  function FinalRisk(step6: real, usable: real, limit: real, safety: real): real {
    var floor := if usable < 1000.0 then 2.0 else usable * 0.001;
    var risk := Min(Max(step6, floor), limit) * safety;
    if usable < 1000.0 then Max(risk, 2.0) else risk
  }

  /** Dollar risk after step 7. */
  function Step7(c: Config, r: Request): real {
    FinalRisk(Step6(c, r), Usable(r), RiskLimit(c, Usable(r), RegimeFactor(r)), SafetyFactor(r))
  }

  function RiskPerShare(r: Request): real {
    Abs(r.price - r.stop) + Max(0.0, r.spread)
  }

  /** 10% of the usable balance, or the instrument's hard cap if that is lower. */
  function MaxNotional(c: Config, r: Request): real {
    Min(Usable(r) * 0.10, c.hardCap)
  }

  function SharesFor(risk: real, riskPerShare: real): int {
    if riskPerShare > 0.0 then Round(risk / riskPerShare) else 0
  }

  /** At least 2% of the usable balance is put to work. */
  function Raised(shares: int, minValue: real, price: real, risk: real): int
    requires price > 0.0
  {
    if shares >= 0 && shares as real * price < minValue && risk > 0.0
    then AtLeastOne(Round(minValue / price)) else shares
  }

  function Capped(shares: int, cap: real, price: real): int
    requires price > 0.0
  {
    if shares > 0 && shares as real * price > cap then AtLeastOne(Truncate(cap / price)) else shares
  }

  function SmallAccount(shares: int, risk: real, price: real): int {
    if shares == 0 && risk > price * 0.5 then 1 else shares
  }

  function CappedShares(c: Config, r: Request): int
    requires r.price > 0.0
  {
    var risk := Step7(c, r);
    var raised := Raised(SharesFor(risk, RiskPerShare(r)), Usable(r) * 0.02, r.price, risk);
    SmallAccount(Capped(raised, MaxNotional(c, r), r.price), risk, r.price)
  }

  /** Half when the estimated impact eats the reward; 70% when there is no history to estimate from. */
  function Downsized(r: Request, shares: int): int
    requires r.price > 0.0
  {
    if r.bars.Some? && shares > 0 then
      var reward := Abs((if r.target.Some? then r.target.value else r.price * 1.02) - r.price) / r.price;
      if r.impact(shares) > reward * 0.15 then AtLeastOne(Round(shares as real * 0.5)) else shares
    else if r.bars.None? && shares > 0 && !r.isProbe then AtLeastOne(Round(shares as real * 0.7))
    else shares
  }

  function ExpectedReward(r: Request, shares: int): real {
    if shares > 0 then shares as real * Abs(r.price - if r.target.Some? then r.target.value else r.price * 1.03) else 0.0
  }

  /** The last check before an order: positive balance and at most 3% of it at risk. */
  predicate Audit(risk: real, balance: real) {
    balance > 0.0 && risk >= 0.0 && risk / balance <= 0.03
  }

  /** The vetoes that come before a share count. */
  predicate Vetoed(c: Config, r: Request) {
    || r.regimeModifier <= 0.0
    || r.price <= 0.0
    || RiskPerShare(r) < r.price * 0.0001
    || Step7(c, r) <= 0.0 || Step6(c, r) <= 0.0
  }

  function Sized(c: Config, r: Request): int {
    if Vetoed(c, r) then 0
    else
      var capped := CappedShares(c, r);
      if r.bars.Some? && r.bars.value < 50 && !r.isProbe then 0
      else
        var shares := Downsized(r, capped);
        var reward := ExpectedReward(r, shares);
        if 0.0 < reward < c.commission then 0
        else if !Audit(Step7(c, r), Usable(r)) then 0
        else if shares > 0 then shares else 0
  }

  // ---------------------------------------------------------------------------------------
  // What the chain promises

  lemma ProductSign(a: real, b: real, ab: real)
    requires ab == a * b && b >= 0.0
    ensures a <= 0.0 ==> ab <= 0.0
    ensures a >= 0.0 ==> ab >= 0.0
  {}

  /** The bet loses on average: what is won with its probability does not make up for what is lost. */
  ghost predicate NoEdge(r: Request) {
    r.rewardRisk <= 0.0 || r.winProb * (1.0 + r.rewardRisk) <= 1.0
  }

  /** The Kelly fraction is half the expected gain of a bet of one, per unit of reward. */
  lemma KellyIs(r: Request)
    ensures r.rewardRisk <= 0.0 ==> Kelly(r) == 0.0
    ensures r.rewardRisk > 0.0 ==>
              2.0 * r.rewardRisk * Kelly(r) == r.winProb * r.rewardRisk - (1.0 - r.winProb)
  {
    if r.rewardRisk > 0.0 {
      Divided(1.0 - r.winProb, r.rewardRisk);
      KellyScaled(r.winProb, r.rewardRisk, (1.0 - r.winProb) / r.rewardRisk, Kelly(r));
    }
  }

  lemma KellyScaled(p: real, b: real, q: real, kelly: real)
    requires q * b == 1.0 - p && kelly == (p - q) / 2.0
    ensures 2.0 * b * kelly == p * b - (1.0 - p)
  {
    assert 2.0 * b * kelly == b * (p - q);
    assert b * (p - q) == p * b - q * b;
  }

  lemma EdgeExactly(r: Request)
    ensures Kelly(r) > 0.0 <==> !NoEdge(r)
  {
    KellyIs(r);
    if r.rewardRisk > 0.0 {
      EdgeSign(r.winProb, r.rewardRisk, Kelly(r));
    }
  }

  lemma EdgeSign(p: real, b: real, kelly: real)
    requires b > 0.0 && 2.0 * b * kelly == p * b - (1.0 - p)
    ensures kelly > 0.0 <==> p * (1.0 + b) > 1.0
  {
    assert p * (1.0 + b) == p + p * b;
    assert 2.0 * (b * kelly) == 2.0 * b * kelly;
    if kelly > 0.0 {
      PositiveProduct(b, kelly);
    } else {
      ProductSign(kelly, b, kelly * b);
      assert kelly * b == b * kelly;
    }
  }

  /** Without a positive balance, net asset value or edge there is no risk to take. */
  lemma NoEdgeNoRisk(c: Config, r: Request)
    requires r.balance <= 0.0 || r.nav <= 0.0 || NoEdge(r)
    ensures Step6(c, r) <= 0.0
  {
    EdgeExactly(r);
    var usable, kelly, gap, regime := Usable(r), Kelly(r), Max(0.5, Min(1.5, r.gapModifier)), RegimeFactor(r);
    var step3 := LimitedRisk(c, usable, kelly);
    ProductSign(usable, Max(0.0, kelly), usable * Max(0.0, kelly));
    assert step3 <= 0.0;
    var step4 := GapAdjusted(step3, r.gapModifier);
    ProductSign(step3, gap, step4);
    TwoFactors(step4, regime, if r.winProb < 0.6 then 0.82 else 1.0, Step6(c, r));
  }

  lemma TwoFactors(x: real, a: real, b: real, xab: real)
    requires x <= 0.0 && a >= 0.0 && b >= 0.0 && xab == x * a * b
    ensures xab <= 0.0
  {
    ProductSign(x, a, x * a);
    ProductSign(x * a, b, xab);
  }

  lemma NothingToTrade(c: Config, r: Request)
    requires r.balance <= 0.0 || r.nav <= 0.0 || NoEdge(r) || r.regimeModifier <= 0.0
    ensures Sized(c, r) == 0
  {
    if r.regimeModifier > 0.0 {
      NoEdgeNoRisk(c, r);
    }
  }

  lemma TruncateFits(cap: real, price: real, shares: int)
    requires price > 0.0 && shares == Truncate(cap / price) && shares >= 1
    ensures shares as real * price <= cap
  {
    var q := cap / price;
    assert q * price == cap;
    assert shares as real <= q;
    LessTimes(shares as real, q, price, shares as real * price, cap);
  }

  lemma LessTimes(a: real, b: real, price: real, ap: real, bp: real)
    requires a <= b && price > 0.0 && ap == a * price && bp == b * price
    ensures ap <= bp
  {
    assert (b - a) * price >= 0.0;
  }

  lemma RoundNear(x: real)
    ensures x - 0.5 <= Round(x) as real <= x + 0.5
  {}

  lemma SharesNonNegative(risk: real, riskPerShare: real)
    requires risk > 0.0
    ensures SharesFor(risk, riskPerShare) >= 0
  {
    if riskPerShare > 0.0 {
      RoundNear(risk / riskPerShare);
      PositiveQuotient(risk, riskPerShare, risk / riskPerShare);
    }
  }

  lemma PositiveQuotient(x: real, y: real, q: real)
    requires x > 0.0 && y > 0.0 && q == x / y
    ensures q > 0.0
  {
    assert q * y == x;
    if q <= 0.0 {
      ProductSign(q, y, x);
    }
  }

  /** Within the cap, or at most the one share that is always allowed. */
  ghost predicate Fits(shares: int, cap: real, price: real) {
    0 <= shares <= 1 || shares as real * price <= cap
  }

  lemma CappedFits(shares: int, cap: real, price: real)
    requires price > 0.0 && shares >= 0
    ensures Fits(Capped(shares, cap, price), cap, price) && Capped(shares, cap, price) >= 0
  {
    if Truncate(cap / price) >= 1 {
      TruncateFits(cap, price, Truncate(cap / price));
    }
  }

  lemma CappedSharesFit(c: Config, r: Request, risk: real)
    requires r.price > 0.0 && risk > 0.0
    ensures risk == Step7(c, r) ==> Fits(CappedShares(c, r), MaxNotional(c, r), r.price) && CappedShares(c, r) >= 0
  {
    SharesNonNegative(risk, RiskPerShare(r));
    CappedFits(Raised(SharesFor(risk, RiskPerShare(r)), Usable(r) * 0.02, r.price, risk), MaxNotional(c, r), r.price);
  }

  /** Scaling a positive share count down, rounding and keeping at least one never raises it. */
  lemma ScaledDown(shares: int, factor: real)
    requires shares >= 1 && 0.0 < factor <= 0.7
    ensures 1 <= AtLeastOne(Round(shares as real * factor)) <= shares
  {
    var x := shares as real * factor;
    LessTimes(factor, 0.7, shares as real, x, shares as real * 0.7);
    RoundNear(x);
    if shares >= 2 {
      assert Round(x) as real <= shares as real * 0.7 + 0.5;
      assert shares as real * 0.3 >= 0.6;
    } else {
      assert Round(x) as real <= 1.2;
    }
  }

  lemma DownsizedShrinks(r: Request, shares: int)
    requires r.price > 0.0 && shares >= 0
    ensures 0 <= Downsized(r, shares) <= shares
  {
    if shares >= 1 {
      ScaledDown(shares, 0.5);
      ScaledDown(shares, 0.7);
    }
  }

  lemma FewerFit(shares: int, fewer: int, cap: real, price: real)
    requires price > 0.0 && 0 <= fewer <= shares && Fits(shares, cap, price)
    ensures Fits(fewer, cap, price)
  {
    LessTimes(fewer as real, shares as real, price, fewer as real * price, shares as real * price);
  }

  /** The result is 0, 1, or a count whose notional fits both 10% of the usable balance and the hard cap. */
  lemma SizeFitsCap(c: Config, r: Request)
    ensures Fits(Sized(c, r), MaxNotional(c, r), r.price) && Sized(c, r) >= 0
  {
    if !Vetoed(c, r) {
      CappedSharesFit(c, r, Step7(c, r));
      DownsizedShrinks(r, CappedShares(c, r));
      FewerFit(CappedShares(c, r), Downsized(r, CappedShares(c, r)), MaxNotional(c, r), r.price);
    }
  }

  ghost predicate NotionalWithin(shares: int, price: real, cap: real) {
    shares as real * price <= cap
  }

  /** Exactly when a proposed size respects the cap: when one share does. */
  lemma SizeFitsCapExactly(c: Config, r: Request)
    ensures Sized(c, r) > 0 ==> (NotionalWithin(Sized(c, r), r.price, MaxNotional(c, r)) <==> r.price <= MaxNotional(c, r))
  {
    SizeFitsCap(c, r);
    SizedIsPriced(c, r);
    OneShareFits(Sized(c, r), r.price, MaxNotional(c, r));
  }

  lemma SizedIsPriced(c: Config, r: Request)
    ensures Sized(c, r) > 0 ==> r.price > 0.0
  {}

  lemma OneShareFits(shares: int, price: real, cap: real)
    requires shares > 0 ==> price > 0.0 && Fits(shares, cap, price)
    ensures shares > 0 ==> (NotionalWithin(shares, price, cap) <==> price <= cap)
  {
    if shares > 1 {
      LessTimes(1.0, shares as real, price, price, shares as real * price);
    }
  }

  /** The cap yields to the one-share minimum: one share above 10% of the balance is still proposed. */
  lemma OneShareMayExceedCap(impact: nat -> real)
    ensures var c := Config(0.04, 0.80, 0.02, 1.0, 40000.0);
            var r := Request(0.7, 2.0, 500.0, 500.0, 1.0, 1.0, 1.0, 1.0, 100.0, 99.0, 0.0, Some(104.0), None, true, impact);
            Sized(c, r) == 1 && 1.0 * r.price > MaxNotional(c, r)
  {
    var c := Config(0.04, 0.80, 0.02, 1.0, 40000.0);
    var r := Request(0.7, 2.0, 500.0, 500.0, 1.0, 1.0, 1.0, 1.0, 100.0, 99.0, 0.0, Some(104.0), None, true, impact);
    assert Usable(r) == 495.0;
    assert Kelly(r) == 0.275;
    assert Step6(c, r) == 19.8;
    assert Step7(c, r) == 9.9;
    assert RiskPerShare(r) == 1.0;
    assert SharesFor(9.9, 1.0) == 10;
    assert MaxNotional(c, r) == 49.5;
    assert CappedShares(c, r) == 1;
  }

  // ---------------------------------------------------------------------------------------
  // The chain in terms of the inputs

  /** 99% of the smaller of the balance and the net asset value. */
  ghost predicate UsableOf(r: Request, usable: real) {
    usable <= 0.99 * r.balance && usable <= 0.99 * r.nav && (usable == 0.99 * r.balance || usable == 0.99 * r.nav)
  }

  /** Half the expected gain of a bet of one, per unit of reward. */
  ghost predicate KellyOf(r: Request, kelly: real) {
    && (r.rewardRisk <= 0.0 ==> kelly == 0.0)
    && (r.rewardRisk > 0.0 ==> 2.0 * r.rewardRisk * kelly == r.winProb * r.rewardRisk - (1.0 - r.winProb))
  }

  /** The least of three shares of an amount. */
  ghost predicate LeastShare(m: real, amount: real, a: real, b: real, c: real) {
    && m <= amount * a && m <= amount * b && m <= amount * c
    && (m == amount * a || m == amount * b || m == amount * c)
  }

  ghost predicate Scaled(risk: real, base: real, gap: real, regime: real, tail: real) {
    risk == base * gap * regime * tail
  }

  /** The dollar risk of steps 1 to 6: the least of three limits, scaled by three bounded factors. */
  ghost predicate RiskChain(c: Config, r: Request, usable: real, kelly: real, base: real, gap: real, regime: real, risk: real) {
    && UsableOf(r, usable) && KellyOf(r, kelly)
    && LeastShare(base, usable, Max(0.0, kelly), c.systemMaxRisk, c.cashRatio)
    && Nearest(r.gapModifier, 0.5, 1.5, gap) && Nearest(r.regimeModifier, 0.1, 1.5, regime)
    && Scaled(risk, base, gap, regime, if r.winProb < 0.6 then 0.82 else 1.0)
  }

  /** The most that one trade may risk: a configured share, or one percent, more in a favourable regime. */
  ghost predicate LimitOf(limit: real, usable: real, share: real, regime: real) {
    limit == usable * (if share > 0.0 then share else 0.01) * (if regime > 1.0 then regime else 1.0)
  }

  /** x is raised to a floor and then cut to a limit. */
  ghost predicate Between(x: real, floor: real, limit: real, y: real) {
    y == if x >= limit || floor >= limit then limit else if x >= floor then x else floor
  }

  /** The dollar risk of step 7: raised to a floor, cut to the limit of one trade, scaled down, and at least 2 dollars for a small account. */
  ghost predicate FinalChain(c: Config, r: Request, usable: real, regime: real, risk: real, limit: real, cut: real,
                             drawdown: real, loss: real, scaled: real, final: real) {
    && LimitOf(limit, usable, c.riskPerTrade, regime)
    && Between(risk, if usable < 1000.0 then 2.0 else usable / 1000.0, limit, cut)
    && Nearest(r.drawdownModifier, 0.5, 1.0, drawdown) && Nearest(r.lossModifier, 0.5, 1.0, loss)
    && Product(scaled, cut, drawdown * loss) && final == if usable < 1000.0 && scaled < 2.0 then 2.0 else scaled
  }

  lemma ClampIsNearest(x: real, low: real, high: real)
    requires low <= high
    ensures Nearest(x, low, high, Max(low, Min(high, x))) && Nearest(x, low, high, Min(Max(x, low), high))
  {}

  lemma LeastShareIs(amount: real, a: real, b: real, c: real)
    ensures LeastShare(Min(Min(amount * a, amount * b), amount * c), amount, a, b, c)
  {}

  lemma LimitedIs(c: Config, usable: real, kelly: real)
    ensures LeastShare(LimitedRisk(c, usable, kelly), usable, Max(0.0, kelly), c.systemMaxRisk, c.cashRatio)
  {
    LeastShareIs(usable, Max(0.0, kelly), c.systemMaxRisk, c.cashRatio);
  }

  lemma AdjustedIs(base: real, gapModifier: real, regime: real, winProb: real)
    ensures Scaled(RegimeAdjusted(GapAdjusted(base, gapModifier), regime, winProb), base, Max(0.5, Min(1.5, gapModifier)), regime,
                   if winProb < 0.6 then 0.82 else 1.0)
  {}

  /** The risk of step 6 follows from the inputs. */
  lemma RiskFollows(c: Config, r: Request) returns (usable: real, kelly: real, base: real, gap: real, regime: real)
    ensures RiskChain(c, r, usable, kelly, base, gap, regime, Step6(c, r))
    ensures usable == Usable(r) && regime == RegimeFactor(r)
  {
    usable, kelly, regime := Usable(r), Kelly(r), RegimeFactor(r);
    KellyIs(r);
    gap := ChainFrom(c, r, usable, kelly, regime);
    base := LimitedRisk(c, usable, kelly);
  }

  lemma ChainFrom(c: Config, r: Request, usable: real, kelly: real, regime: real) returns (gap: real)
    requires UsableOf(r, usable) && KellyOf(r, kelly) && regime == Max(0.1, Min(1.5, r.regimeModifier))
    ensures var base := LimitedRisk(c, usable, kelly);
            RiskChain(c, r, usable, kelly, base, gap, regime, RegimeAdjusted(GapAdjusted(base, r.gapModifier), regime, r.winProb))
  {
    gap := Max(0.5, Min(1.5, r.gapModifier));
    LimitedIs(c, usable, kelly);
    AdjustedIs(LimitedRisk(c, usable, kelly), r.gapModifier, regime, r.winProb);
    ClampIsNearest(r.gapModifier, 0.5, 1.5);
    ClampIsNearest(r.regimeModifier, 0.1, 1.5);
  }

  /** And the risk of step 7 from it. */
  lemma FinalFollows(c: Config, r: Request, usable: real, regime: real, risk: real)
    returns (limit: real, cut: real, drawdown: real, loss: real, scaled: real)
    ensures FinalChain(c, r, usable, regime, risk, limit, cut, drawdown, loss, scaled,
                       FinalRisk(risk, usable, RiskLimit(c, usable, regime), SafetyFactor(r)))
  {
    limit := RiskLimit(c, usable, regime);
    drawdown, loss := Min(Max(r.drawdownModifier, 0.5), 1.0), Min(Max(r.lossModifier, 0.5), 1.0);
    ClampIsNearest(r.drawdownModifier, 0.5, 1.0);
    ClampIsNearest(r.lossModifier, 0.5, 1.0);
    LimitIs(c, usable, regime);
    cut, scaled := FinalIs(risk, usable, limit, drawdown * loss);
  }

  lemma LimitIs(c: Config, usable: real, regime: real)
    ensures LimitOf(RiskLimit(c, usable, regime), usable, c.riskPerTrade, regime)
  {}

  lemma FinalIs(risk: real, usable: real, limit: real, safety: real) returns (cut: real, scaled: real)
    ensures Between(risk, if usable < 1000.0 then 2.0 else usable / 1000.0, limit, cut) && Product(scaled, cut, safety)
    ensures FinalRisk(risk, usable, limit, safety) == if usable < 1000.0 && scaled < 2.0 then 2.0 else scaled
  {
    cut := Min(Max(risk, if usable < 1000.0 then 2.0 else usable * 0.001), limit);
    scaled := cut * safety;
  }

  /** The dollar risk of a trade, from the inputs to the end of step 7. */
  lemma RisksFollow(c: Config, r: Request)
    returns (usable: real, kelly: real, base: real, gap: real, regime: real, limit: real, cut: real, drawdown: real, loss: real, scaled: real)
    ensures RiskChain(c, r, usable, kelly, base, gap, regime, Step6(c, r))
    ensures FinalChain(c, r, usable, regime, Step6(c, r), limit, cut, drawdown, loss, scaled, Step7(c, r))
  {
    usable, kelly, base, gap, regime := RiskFollows(c, r);
    limit, cut, drawdown, loss, scaled := FinalFollows(c, r, usable, regime, Step6(c, r));
  }

  /**
   Exactly when the risk of step 7 respects the limit of one trade: when the account is not small, or
   the limit is at least the 2 dollars to which a small account is raised after the cut.
   */
  lemma RiskLimitHoldsExactly(c: Config, r: Request)
    requires r.balance > 0.0 && r.nav > 0.0
    ensures Step7(c, r) <= RiskLimit(c, Usable(r), RegimeFactor(r)) <==>
            Usable(r) >= 1000.0 || RiskLimit(c, Usable(r), RegimeFactor(r)) >= 2.0
  {
    var usable, limit, safety := Usable(r), RiskLimit(c, Usable(r), RegimeFactor(r)), SafetyFactor(r);
    LimitIs(c, usable, RegimeFactor(r));
    LimitPositive(usable, c.riskPerTrade, RegimeFactor(r), limit);
    SafetyReduces(Min(Max(r.drawdownModifier, 0.5), 1.0), Min(Max(r.lossModifier, 0.5), 1.0), safety);
    FinalWithin(Step6(c, r), usable, limit, safety);
  }

  lemma FinalWithin(risk: real, usable: real, limit: real, safety: real)
    requires usable > 0.0 && limit > 0.0 && 0.0 < safety <= 1.0
    ensures FinalRisk(risk, usable, limit, safety) <= limit <==> usable >= 1000.0 || limit >= 2.0
  {
    var cut, scaled := FinalIs(risk, usable, limit, safety);
    CutPositive(risk, usable, limit, cut);
    Reduced(cut, safety, scaled);
  }

  lemma CutPositive(risk: real, usable: real, limit: real, cut: real)
    requires usable > 0.0 && limit > 0.0 && Between(risk, if usable < 1000.0 then 2.0 else usable / 1000.0, limit, cut)
    ensures 0.0 < cut <= limit
  {}

  lemma LimitPositive(usable: real, share: real, regime: real, limit: real)
    requires usable > 0.0 && LimitOf(limit, usable, share, regime)
    ensures limit > 0.0
  {
    var part, factor := if share > 0.0 then share else 0.01, if regime > 1.0 then regime else 1.0;
    ProductIsPositive(usable * part, usable, part);
    ProductIsPositive(limit, usable * part, factor);
  }

  lemma SafetyReduces(a: real, b: real, ab: real)
    requires 0.0 < a <= 1.0 && 0.0 < b <= 1.0 && Product(ab, a, b)
    ensures 0.0 < ab <= 1.0
  {
    ProductIsPositive(ab, a, b);
    Reduced(a, b, ab);
  }

  lemma Reduced(x: real, safety: real, scaled: real)
    requires x > 0.0 && 0.0 < safety <= 1.0 && Product(scaled, x, safety)
    ensures scaled <= x
  {
    ProductSign(1.0 - safety, x, (1.0 - safety) * x);
    assert (1.0 - safety) * x == x - x * safety;
  }

  /** n is the integer nearest to x, the even one of two. */
  ghost predicate NearestCount(x: real, n: int) {
    -1.0 <= 2.0 * n as real - 2.0 * x <= 1.0 && (2.0 * n as real - 2.0 * x == 1.0 || 2.0 * n as real - 2.0 * x == -1.0 ==> n % 2 == 0)
  }

  lemma RoundIsNearest(x: real)
    ensures NearestCount(x, Round(x))
  {}

  /** m is the nearest count to x, but at least one. */
  ghost predicate NearestShares(x: real, m: int) {
    m >= 1 && exists n :: NearestCount(x, n) && (if n >= 1 then m == n else m == 1)
  }

  ghost predicate Worth(shares: int, price: real, value: real) {
    value == shares as real * price
  }

  /** Below the minimum value, the count is the one nearest to that value. */
  ghost predicate RaisedTo(shares: int, minValue: real, price: real, raised: int)
    requires price > 0.0
  {
    if shares as real * price < minValue then NearestShares(minValue / price, raised) else raised == shares
  }

  /** Above the cap, the count is the largest that fits, but at least one. */
  ghost predicate CutTo(shares: int, cap: real, price: real, cut: int) {
    if shares > 0 && shares as real * price > cap
    then cut >= 1 && (cut == 1 || cut as real * price <= cap) && (cut + 1) as real * price > cap
    else cut == shares
  }

  /** What is left of the count after the estimate of the impact, or without a history to estimate it from. */
  ghost predicate DownsizedTo(r: Request, shares: int, left: int) {
    var move := Abs((if r.target.Some? then r.target.value else 1.02 * r.price) - r.price);
    if shares <= 0 then left == shares
    else if r.bars.Some? then
      if r.impact(shares) * r.price > 0.15 * move then NearestShares(shares as real / 2.0, left) else left == shares
    else if r.isProbe then left == shares
    else NearestShares(shares as real * 0.7, left)
  }

  lemma AtLeastOneNearest(x: real)
    ensures NearestShares(x, AtLeastOne(Round(x)))
  {
    RoundIsNearest(x);
  }

  lemma RaisedFollows(shares: int, minValue: real, price: real, risk: real)
    requires price > 0.0 && risk > 0.0 && shares >= 0
    ensures RaisedTo(shares, minValue, price, Raised(shares, minValue, price, risk))
  {
    AtLeastOneNearest(minValue / price);
  }

  lemma CutFollows(shares: int, cap: real, price: real)
    requires price > 0.0
    ensures CutTo(shares, cap, price, Capped(shares, cap, price))
  {
    var q := cap / price;
    Divided(cap, price);
    var n := Truncate(q);
    if n >= 1 {
      TruncateFits(cap, price, n);
      BelowNext(q, n + 1, price, cap);
    } else {
      BelowNext(q, 2, price, cap);
    }
  }

  lemma BelowNext(q: real, n: int, price: real, cap: real)
    requires q < n as real && price > 0.0 && q * price == cap
    ensures n as real * price > cap
  {
    PositiveProduct(n as real - q, price);
    assert (n as real - q) * price == n as real * price - q * price;
  }

  lemma DownsizedFollows(r: Request, shares: int)
    requires r.price > 0.0
    ensures DownsizedTo(r, shares, Downsized(r, shares))
  {
    AtLeastOneNearest(shares as real * 0.5);
    AtLeastOneNearest(shares as real * 0.7);
    assert shares as real * 0.5 == shares as real / 2.0;
    if r.bars.Some? && shares > 0 {
      var move := Abs((if r.target.Some? then r.target.value else r.price * 1.02) - r.price);
      ShareOfReward(r.impact(shares), move, r.price, move / r.price);
    }
  }

  lemma ShareOfReward(impact: real, move: real, price: real, reward: real)
    requires price > 0.0 && reward == move / price
    ensures impact > reward * 0.15 <==> impact * price > 0.15 * move
  {
    Divided(move, price);
    assert (impact - reward * 0.15) * price == impact * price - 0.15 * move;
    if impact > reward * 0.15 {
      PositiveProduct(impact - reward * 0.15, price);
    } else {
      ProductSign(impact - reward * 0.15, price, (impact - reward * 0.15) * price);
    }
  }

  /** The counts of step 8, one after the other, from the risk of step 7. */
  ghost predicate CountChain(c: Config, r: Request, risk: real, shares: int, raised: int, cut: int, held: int, left: int) {
    var usable := 0.99 * Min(r.balance, r.nav);
    var perShare := Abs(r.price - r.stop) + (if r.spread > 0.0 then r.spread else 0.0);
    && r.price > 0.0 && perShare > 0.0 && NearestCount(risk / perShare, shares)
    && RaisedTo(shares, 0.02 * usable, r.price, raised)
    && CutTo(raised, Min(usable / 10.0, c.hardCap), r.price, cut)
    && held == (if cut == 0 && 2.0 * risk > r.price then 1 else cut)
    && DownsizedTo(r, held, left)
  }

  /** What is refused before a count is made. */
  ghost predicate Refused(c: Config, r: Request) {
    || r.regimeModifier <= 0.0 || r.price <= 0.0
    || 10000.0 * (Abs(r.price - r.stop) + (if r.spread > 0.0 then r.spread else 0.0)) < r.price
    || Step6(c, r) <= 0.0 || Step7(c, r) <= 0.0
    || (r.bars.Some? && r.bars.value < 50 && !r.isProbe)
  }

  /** A count whose reward does not cover the commission, or a risk above 3% of the usable balance. */
  ghost predicate Rejected(c: Config, r: Request, left: int) {
    var usable := 0.99 * Min(r.balance, r.nav);
    var reward := left as real * Abs(r.price - if r.target.Some? then r.target.value else 1.03 * r.price);
    || (left > 0 && 0.0 < reward < c.commission)
    || usable <= 0.0 || Step7(c, r) > 0.03 * usable
  }

  lemma PerShareIs(r: Request)
    ensures RiskPerShare(r) == Abs(r.price - r.stop) + (if r.spread > 0.0 then r.spread else 0.0)
  {}

  lemma CountsFollow(c: Config, r: Request, risk: real)
    returns (shares: int, raised: int, cut: int, held: int)
    requires r.price > 0.0 && risk > 0.0 && RiskPerShare(r) > 0.0
    ensures CountChain(c, r, risk, shares, raised, cut, held, Downsized(r, held))
    ensures risk == Step7(c, r) ==> held == CappedShares(c, r)
  {
    var usable, perShare := Usable(r), RiskPerShare(r);
    shares := SharesFor(risk, perShare);
    raised := Raised(shares, usable * 0.02, r.price, risk);
    cut := Capped(raised, MaxNotional(c, r), r.price);
    held := SmallAccount(cut, risk, r.price);
    PerShareIs(r);
    RoundIsNearest(risk / perShare);
    SharesNonNegative(risk, perShare);
    RaisedFollows(shares, usable * 0.02, r.price, risk);
    CutFollows(raised, MaxNotional(c, r), r.price);
    DownsizedFollows(r, held);
  }

  lemma AuditIs(risk: real, usable: real)
    requires risk > 0.0
    ensures Audit(risk, usable) <==> usable > 0.0 && risk <= 0.03 * usable
  {
    if usable > 0.0 {
      Divided(risk, usable);
      RatioAtMost(risk / usable, usable, risk);
    }
  }

  lemma RatioAtMost(ratio: real, y: real, x: real)
    requires y > 0.0 && ratio * y == x
    ensures ratio <= 0.03 <==> x <= 0.03 * y
  {
    assert (0.03 - ratio) * y == 0.03 * y - x;
    if ratio > 0.03 {
      PositiveProduct(ratio - 0.03, y);
    } else {
      ProductSign(0.03 - ratio, y, (0.03 - ratio) * y);
    }
  }

  lemma RefusedIsVetoed(c: Config, r: Request)
    ensures Refused(c, r) <==> Vetoed(c, r) || (r.bars.Some? && r.bars.value < 50 && !r.isProbe)
  {
    PerShareIs(r);
  }

  lemma RejectedIs(c: Config, r: Request, left: int)
    requires Step7(c, r) > 0.0
    ensures Rejected(c, r, left) <==> 0.0 < ExpectedReward(r, left) < c.commission || !Audit(Step7(c, r), Usable(r))
  {
    AuditIs(Step7(c, r), Usable(r));
  }

  /** The size follows from the inputs and the risk of step 7: refused, rejected or the last count. */
  lemma SizeFollows(c: Config, r: Request) returns (shares: int, raised: int, cut: int, held: int, left: int)
    ensures Refused(c, r) ==> Sized(c, r) == 0
    ensures !Refused(c, r) ==>
              && CountChain(c, r, Step7(c, r), shares, raised, cut, held, left)
              && Sized(c, r) == if Rejected(c, r, left) || left < 0 then 0 else left
  {
    RefusedIsVetoed(c, r);
    shares, raised, cut, held, left := 0, 0, 0, 0, 0;
    if !Refused(c, r) {
      shares, raised, cut, held := CountsFollow(c, r, Step7(c, r));
      left := Downsized(r, held);
      RejectedIs(c, r, left);
    }
  }

  // ---------------------------------------------------------------------------------------
  // The method of the source

  method Calculate(c: Config, r: Request) returns (shares: int, risk: real)
    ensures shares == Sized(c, r)
    ensures Fits(shares, MaxNotional(c, r), r.price) && shares >= 0
    ensures r.balance <= 0.0 || r.nav <= 0.0 || NoEdge(r) || r.regimeModifier <= 0.0 ==> shares == 0
    ensures shares > 0 ==> risk == Step7(c, r)
  {
    SizeFitsCap(c, r);
    if r.balance <= 0.0 || r.nav <= 0.0 || NoEdge(r) || r.regimeModifier <= 0.0 {
      NothingToTrade(c, r);
    }
    shares, risk := 0, 0.0;
    var balance := Min(r.balance, r.nav) * 0.99;
    var dollars := LimitedRisk(c, balance, Kelly(r));
    dollars := GapAdjusted(dollars, r.gapModifier);
    if r.regimeModifier <= 0.0 {
      return;
    }
    dollars := RegimeAdjusted(dollars, RegimeFactor(r), r.winProb);
    var final := FinalRisk(dollars, balance, RiskLimit(c, balance, RegimeFactor(r)), SafetyFactor(r));
    if r.price <= 0.0 {
      return;
    }
    var riskPerShare := RiskPerShare(r);
    if riskPerShare < r.price * 0.0001 {
      return;
    }
    if final <= 0.0 || dollars <= 0.0 {
      return;
    }
    var count := SharesFor(final, riskPerShare);
    count := Raised(count, balance * 0.02, r.price, final);
    count := Capped(count, Min(balance * 0.10, c.hardCap), r.price);
    count := SmallAccount(count, final, r.price);
    if r.bars.Some? && r.bars.value < 50 && !r.isProbe {
      return;
    }
    count := Downsized(r, count);
    var reward := ExpectedReward(r, count);
    if reward > 0.0 && reward < c.commission {
      return;
    }
    if !Audit(final, balance) {
      return;
    }
    shares, risk := if count > 0 then count else 0, final;
  }
}
