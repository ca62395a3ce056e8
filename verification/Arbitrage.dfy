/**
 The cross-exchange arbitrage detector of src/arbitrage.rs.

 The source keeps a distance -ln(product of net rates) per asset and relaxes with
 Bellman-Ford.  Here each asset keeps the product itself, its "gain": a gain g stands for the
 distance -ln g, so gain 1 is distance 0, gain 0 is distance infinity, and "smaller distance"
 is "larger gain".
 */
module Arbitrage {
  import opened Collections
  import opened Options

  type Asset = string

  datatype ArbEdge = ArbEdge(
    fromAsset: Asset, toAsset: Asset, exchange: string, rate: real, fee: real, capacity: real)
  {
    function NetRate(): real {
      rate * (1.0 - fee)
    }

    predicate Usable() {
      NetRate() > 0.0
    }

    predicate SameMarket(other: ArbEdge) {
      fromAsset == other.fromAsset && toAsset == other.toAsset && exchange == other.exchange
    }
  }

  // ---------------------------------------------------------------------------------------
  // What an arbitrage opportunity is, independently of any algorithm

  ghost predicate Linked(walk: seq<ArbEdge>) {
    forall i, k :: 0 <= i < k < |walk| && k == i + 1 ==> walk[i].toAsset == walk[k].fromAsset
  }

  ghost predicate DrawnFrom(edges: seq<ArbEdge>, walk: seq<ArbEdge>) {
    forall e :: e in walk ==> e in edges && e.Usable()
  }

  function Product(walk: seq<ArbEdge>): real {
    if walk == [] then 1.0 else walk[0].NetRate() * Product(walk[1..])
  }

  ghost predicate ClosedWalk(walk: seq<ArbEdge>) {
    |walk| > 0 && Linked(walk) && walk[|walk| - 1].toAsset == walk[0].fromAsset
  }

  /** A cycle of usable edges that returns more than was put in. */
  ghost predicate GainCycle(edges: seq<ArbEdge>, walk: seq<ArbEdge>) {
    ClosedWalk(walk) && DrawnFrom(edges, walk) && Product(walk) > 1.0
  }

  ghost predicate WalkBetween(edges: seq<ArbEdge>, source: Asset, target: Asset, walk: seq<ArbEdge>) {
    && Linked(walk)
    && DrawnFrom(edges, walk)
    && if walk == [] then source == target
       else walk[0].fromAsset == source && walk[|walk| - 1].toAsset == target
  }

  ghost predicate Reachable(edges: seq<ArbEdge>, source: Asset, target: Asset) {
    exists walk :: WalkBetween(edges, source, target, walk)
  }

  ghost predicate ReachableGainCycle(edges: seq<ArbEdge>, start: Asset) {
    exists walk: seq<ArbEdge> :: GainCycle(edges, walk) && Reachable(edges, start, walk[0].fromAsset)
  }

  /** Some contiguous stretch of the walk is a gain cycle. */
  ghost predicate ContainsGainCycle(edges: seq<ArbEdge>, walk: seq<ArbEdge>) {
    exists i, j :: 0 <= i < j <= |walk| && GainCycle(edges, walk[i..j])
  }

  // ---------------------------------------------------------------------------------------
  // The same in terms of trades

  /** What x of one asset buys of the other: the proceeds at the rate, less the fee on them. */
  function Traded(x: real, e: ArbEdge): real {
    var bought := x * e.rate;
    bought - bought * e.fee
  }

  /** What is left of x after a series of trades. */
  function TradedAlong(x: real, walk: seq<ArbEdge>): real
    decreases |walk|
  {
    if walk == [] then x else TradedAlong(Traded(x, walk[0]), walk[1..])
  }

  /** Edges of the graph whose trades leave something. */
  ghost predicate Trades(edges: seq<ArbEdge>, walk: seq<ArbEdge>) {
    forall e :: e in walk ==> e in edges && Traded(1.0, e) > 0.0
  }

  ghost predicate Leads(walk: seq<ArbEdge>, source: Asset, target: Asset) {
    Linked(walk) && if walk == [] then source == target else walk[0].fromAsset == source && walk[|walk| - 1].toAsset == target
  }

  /** Some tour that can be reached from `start` by trading returns more than it takes. */
  ghost predicate ProfitableTour(edges: seq<ArbEdge>, start: Asset) {
    exists path, tour: seq<ArbEdge> ::
      && Trades(edges, path) && Trades(edges, tour) && tour != []
      && Leads(path, start, tour[0].fromAsset) && Leads(tour, tour[0].fromAsset, tour[0].fromAsset)
      && TradedAlong(1.0, tour) > 1.0
  }

  lemma TradedIs(x: real, e: ArbEdge)
    ensures Traded(x, e) == x * e.NetRate()
  {
    TradedScaled(x, e.rate, e.fee);
  }

  lemma TradedScaled(x: real, rate: real, fee: real)
    ensures x * rate - x * rate * fee == x * (rate * (1.0 - fee))
  {
    assert x * (rate * (1.0 - fee)) == x * rate * (1.0 - fee);
  }

  lemma {:induction false} TradedAlongIs(x: real, walk: seq<ArbEdge>)
    ensures TradedAlong(x, walk) == x * Product(walk)
    decreases |walk|
  {
    if walk != [] {
      var rate, rest := walk[0].NetRate(), Product(walk[1..]);
      TradedIs(x, walk[0]);
      TradedAlongIs(Traded(x, walk[0]), walk[1..]);
      TimesInTurn(x, rate, rest);
    }
  }

  lemma TimesInTurn(x: real, rate: real, rest: real)
    ensures x * rate * rest == x * (rate * rest)
  {}

  lemma TradesAreDrawn(edges: seq<ArbEdge>, walk: seq<ArbEdge>)
    ensures Trades(edges, walk) <==> DrawnFrom(edges, walk)
  {
    forall e | e in walk ensures Traded(1.0, e) > 0.0 <==> e.Usable() {
      TradedIs(1.0, e);
    }
  }

  /** There is a reachable gain cycle exactly if some tour makes money. */
  lemma GainsAreProfits(edges: seq<ArbEdge>, start: Asset)
    ensures ReachableGainCycle(edges, start) <==> ProfitableTour(edges, start)
  {
    if ReachableGainCycle(edges, start) {
      var tour: seq<ArbEdge> :| GainCycle(edges, tour) && Reachable(edges, start, tour[0].fromAsset);
      var path :| WalkBetween(edges, start, tour[0].fromAsset, path);
      TradesAreDrawn(edges, path);
      TradesAreDrawn(edges, tour);
      TradedAlongIs(1.0, tour);
      assert Leads(path, start, tour[0].fromAsset) && Leads(tour, tour[0].fromAsset, tour[0].fromAsset);
    }
    if ProfitableTour(edges, start) {
      var path, tour: seq<ArbEdge> :|
        && Trades(edges, path) && Trades(edges, tour) && tour != []
        && Leads(path, start, tour[0].fromAsset) && Leads(tour, tour[0].fromAsset, tour[0].fromAsset)
        && TradedAlong(1.0, tour) > 1.0;
      TradesAreDrawn(edges, path);
      TradesAreDrawn(edges, tour);
      TradedAlongIs(1.0, tour);
      assert WalkBetween(edges, start, tour[0].fromAsset, path);
      assert GainCycle(edges, tour);
    }
  }

  function Assets(edges: seq<ArbEdge>): set<Asset> {
    (set e | e in edges :: e.fromAsset) + (set e | e in edges :: e.toAsset)
  }

  // ---------------------------------------------------------------------------------------
  // The relaxation passes as functions

  function Lookup(gains: map<Asset, real>, a: Asset): real {
    if a in gains then gains[a] else 0.0
  }

  /** The gain an edge would carry over to its target. */
  function Offer(gains: map<Asset, real>, e: ArbEdge): real {
    Lookup(gains, e.fromAsset) * e.NetRate()
  }

  /**
   The two tables of the source, `gain` for its `distances` and `pred` for its `predecessors`,
   with a record of when each asset last improved: `round` is the pass number, `tick` the serial
   number of the improvement.
   */
  datatype Journal = Journal(
    gain: map<Asset, real>, pred: map<Asset, ArbEdge>, round: map<Asset, nat>, tick: map<Asset, nat>, now: nat)
  {
    function Gain(a: Asset): real {
      Lookup(gain, a)
    }

    function Round(a: Asset): nat {
      if a in round then round[a] else 0
    }

    /** The comparison the source makes before it updates a table entry. */
    predicate Relaxable(e: ArbEdge) {
      e.Usable() && Gain(e.fromAsset) != 0.0 && Offer(gain, e) > Gain(e.toAsset)
    }

    function Relax(e: ArbEdge, k: nat): Journal {
      if Relaxable(e) then
        Journal(gain[e.toAsset := Offer(gain, e)], pred[e.toAsset := e],
                round[e.toAsset := k], tick[e.toAsset := now], now + 1)
      else this
    }

    /** Pass k over the first i edges. */
    function Pass(edges: seq<ArbEdge>, k: nat, i: nat): Journal
      requires i <= |edges|
    {
      if i == 0 then this else Pass(edges, k, i - 1).Relax(edges[i - 1], k)
    }
  }

  function Initial(edges: seq<ArbEdge>, start: Asset): Journal {
    var unreached := map a | a in Assets(edges) :: 0.0;
    Journal(unreached[start := 1.0], map[], map[], map[], 0)
  }

  function Passes(edges: seq<ArbEdge>, start: Asset, k: nat): Journal {
    if k == 0 then Initial(edges, start) else Passes(edges, start, k - 1).Pass(edges, k, |edges|)
  }

  /** The number of passes: one less than the number of assets, or none for an empty graph. */
  function PassCount(edges: seq<ArbEdge>): nat {
    if |Assets(edges)| == 0 then 0 else |Assets(edges)| - 1
  }

  /** The tables after the last relaxation pass. */
  function Settled(edges: seq<ArbEdge>, start: Asset): Journal {
    Passes(edges, start, PassCount(edges))
  }

  // ---------------------------------------------------------------------------------------
  // The invariant of the relaxation

  /** Along this edge the target holds at most what the edge can deliver. */
  ghost predicate Delivers(j: Journal, e: ArbEdge) {
    e.Usable() && 0.0 < j.Gain(e.toAsset) <= Offer(j.gain, e)
  }

  ghost predicate DeliversMore(j: Journal, e: ArbEdge) {
    Delivers(j, e) && j.Gain(e.toAsset) < Offer(j.gain, e)
  }

  ghost predicate PredecessorOk(edges: seq<ArbEdge>, j: Journal, k: nat, a: Asset)
    requires a in j.pred
  {
    var e := j.pred[a];
    && e in edges && e.Usable() && e.toAsset == a
    && a in j.tick && j.tick[a] < j.now
    && 1 <= j.Round(a) <= k
    && Delivers(j, e)
    && j.Round(a) <= j.Round(e.fromAsset) + 1
    && (e.fromAsset in j.pred && e.fromAsset in j.tick && j.tick[a] <= j.tick[e.fromAsset]
        ==> DeliversMore(j, e))
  }

  /** An edge whose source has not improved since the edge was last looked at has nothing to offer. */
  ghost predicate EdgeOk(edges: seq<ArbEdge>, j: Journal, k: nat, i: nat, m: nat)
    requires m < |edges|
  {
    var e := edges[m];
    e.Usable() && j.Round(e.fromAsset) + (if m < i then 0 else 1) < k
    ==> Offer(j.gain, e) <= j.Gain(e.toAsset)
  }

  ghost predicate AssetOk(edges: seq<ArbEdge>, start: Asset, j: Journal, a: Asset) {
    && j.Gain(a) >= 0.0
    && (j.Gain(a) > 0.0 ==> Reachable(edges, start, a))
    && (a !in j.pred ==> a !in j.round && j.Gain(a) == if a == start then 1.0 else 0.0)
  }

  /** Holds in pass k once the first i edges have been relaxed. */
  ghost predicate Inv(edges: seq<ArbEdge>, start: Asset, j: Journal, k: nat, i: nat) {
    && j.Gain(start) >= 1.0
    && (forall a {:trigger AssetOk(edges, start, j, a)} :: AssetOk(edges, start, j, a))
    && (forall a {:trigger PredecessorOk(edges, j, k, a)} :: a in j.pred ==> PredecessorOk(edges, j, k, a))
    && (forall m: nat :: m < |edges| ==> EdgeOk(edges, j, k, i, m))
  }

  lemma ReachableStep(edges: seq<ArbEdge>, start: Asset, e: ArbEdge)
    requires Reachable(edges, start, e.fromAsset) && e in edges && e.Usable()
    ensures Reachable(edges, start, e.toAsset)
  {
    var walk :| WalkBetween(edges, start, e.fromAsset, walk);
    assert WalkBetween(edges, start, e.toAsset, walk + [e]);
  }

  lemma InitialInv(edges: seq<ArbEdge>, start: Asset)
    ensures Inv(edges, start, Initial(edges, start), 1, 0)
  {
    assert WalkBetween(edges, start, start, []);
  }

  lemma RelaxKeepsInv(edges: seq<ArbEdge>, start: Asset, j: Journal, k: nat, i: nat)
    requires k >= 1 && i < |edges| && Inv(edges, start, j, k, i)
    ensures Inv(edges, start, j.Relax(edges[i], k), k, i + 1)
  {
    var e := edges[i];
    var j' := j.Relax(e, k);
    assert AssetOk(edges, start, j, e.fromAsset) && AssetOk(edges, start, j, e.toAsset);
    assert EdgeOk(edges, j, k, i, i);
    if j.Relaxable(e) {
      ReachableStep(edges, start, e);
      forall a ensures AssetOk(edges, start, j', a) {
        assert AssetOk(edges, start, j, a);
      }
      forall a | a in j'.pred ensures PredecessorOk(edges, j', k, a) {
        if a != e.toAsset {
          assert PredecessorOk(edges, j, k, a);
          RelaxKeepsPredecessor(edges, j, e, k, a);
        } else {
          RelaxSetsPredecessor(edges, start, j, e, k);
        }
      }
    }
    var i' := i + 1;
    forall m: nat | m < |edges| ensures EdgeOk(edges, j', k, i', m) {
      assert EdgeOk(edges, j, k, i, m);
      RelaxKeepsEdge(edges, j, k, i, m);
    }
  }

  lemma RelaxKeepsEdge(edges: seq<ArbEdge>, j: Journal, k: nat, i: nat, m: nat)
    requires i < |edges| && m < |edges| && EdgeOk(edges, j, k, i, m)
    requires j.Gain(edges[i].fromAsset) >= 0.0 && j.Gain(edges[i].toAsset) >= 0.0
    ensures EdgeOk(edges, j.Relax(edges[i], k), k, i + 1, m)
  {
    var e, f := edges[i], edges[m];
    if !j.Relaxable(e) && m == i && j.Gain(e.fromAsset) == 0.0 {
      assert Offer(j.gain, e) == 0.0;
    }
  }

  lemma RelaxKeepsPredecessor(edges: seq<ArbEdge>, j: Journal, e: ArbEdge, k: nat, a: Asset)
    requires j.Relaxable(e) && a in j.pred && a != e.toAsset && PredecessorOk(edges, j, k, a)
    requires e.toAsset in j.pred ==> PredecessorOk(edges, j, k, e.toAsset)
    requires e.toAsset !in j.pred ==> e.toAsset !in j.round
    ensures PredecessorOk(edges, j.Relax(e, k), k, a)
  {
    var j' := j.Relax(e, k);
    var p := j.pred[a];
    if p.fromAsset == e.toAsset {
      var g, g' := Lookup(j.gain, p.fromAsset), Lookup(j'.gain, p.fromAsset);
      OfferIs(j.gain, p, g, p.NetRate());
      OfferIs(j'.gain, p, g', p.NetRate());
      OfferRises(g, g', p.NetRate(), Offer(j.gain, p), Offer(j'.gain, p));
    }
  }

  lemma OfferRises(g: real, g': real, rate: real, x: real, x': real)
    requires g < g' && rate > 0.0 && x == g * rate && x' == g' * rate
    ensures x < x'
  {
    assert (g' - g) * rate > 0.0;
  }

  lemma RelaxSetsPredecessor(edges: seq<ArbEdge>, start: Asset, j: Journal, e: ArbEdge, k: nat)
    requires k >= 1 && j.Relaxable(e) && e in edges
    requires AssetOk(edges, start, j, e.fromAsset) && AssetOk(edges, start, j, e.toAsset)
    requires e.fromAsset in j.pred ==> PredecessorOk(edges, j, k, e.fromAsset)
    requires j.Round(e.fromAsset) + 1 >= k
    ensures PredecessorOk(edges, j.Relax(e, k), k, e.toAsset)
  {
    var j' := j.Relax(e, k);
    OfferPositive(j, e);
    if e.fromAsset == e.toAsset {
      ScaleUp(j.Gain(e.fromAsset), e.NetRate(), j.Gain(e.fromAsset));
      OfferExceeds(j', e);
    } else {
      assert Lookup(j'.gain, e.fromAsset) == Lookup(j.gain, e.fromAsset);
      assert Offer(j'.gain, e) == Offer(j.gain, e);
    }
  }

  lemma OfferPositive(j: Journal, e: ArbEdge)
    requires e.Usable() && j.Gain(e.fromAsset) > 0.0
    ensures Offer(j.gain, e) > 0.0
  {}

  lemma OfferExceeds(j: Journal, e: ArbEdge)
    requires e.NetRate() > 1.0 && j.Gain(e.fromAsset) > 0.0
    ensures Offer(j.gain, e) > j.Gain(e.fromAsset)
  {
    ScaleUpStrict(j.Gain(e.fromAsset), e.NetRate(), Offer(j.gain, e));
  }

  lemma OfferIs(gains: map<Asset, real>, e: ArbEdge, g: real, rate: real)
    requires g == Lookup(gains, e.fromAsset) && rate == e.NetRate()
    ensures Offer(gains, e) == g * rate
  {}

  lemma ScaleUpStrict(g: real, factor: real, scaled: real)
    requires g > 0.0 && factor > 1.0 && scaled == g * factor
    ensures scaled > g
  {}

  lemma {:induction false} PassKeepsInv(edges: seq<ArbEdge>, start: Asset, j: Journal, k: nat, i: nat)
    requires k >= 1 && i <= |edges| && Inv(edges, start, j, k, 0)
    ensures Inv(edges, start, j.Pass(edges, k, i), k, i)
  {
    if i > 0 {
      PassKeepsInv(edges, start, j, k, i - 1);
      RelaxKeepsInv(edges, start, j.Pass(edges, k, i - 1), k, i - 1);
    }
  }

  lemma NextPass(edges: seq<ArbEdge>, start: Asset, j: Journal, k: nat)
    requires Inv(edges, start, j, k, |edges|)
    ensures Inv(edges, start, j, k + 1, 0)
  {
    var k' := k + 1;
    forall m: nat | m < |edges| ensures EdgeOk(edges, j, k', 0, m) {
      assert EdgeOk(edges, j, k, |edges|, m);
    }
    forall a | a in j.pred ensures PredecessorOk(edges, j, k + 1, a) {
      assert PredecessorOk(edges, j, k, a);
    }
  }

  /** After k passes an edge is still relaxable only if its source improved in pass k. */
  lemma {:induction false} PassesInv(edges: seq<ArbEdge>, start: Asset, k: nat)
    ensures Inv(edges, start, Passes(edges, start, k), k + 1, 0)
  {
    if k == 0 {
      InitialInv(edges, start);
    } else {
      PassesInv(edges, start, k - 1);
      PassKeepsInv(edges, start, Passes(edges, start, k - 1), k, |edges|);
      NextPass(edges, start, Passes(edges, start, k), k);
    }
  }

  // ---------------------------------------------------------------------------------------
  // Products round a walk against the gains at its ends

  ghost predicate AtMostTimes(x: real, g: real, factor: real) { x <= g * factor }

  ghost predicate LessThanTimes(x: real, g: real, factor: real) { x < g * factor }

  lemma {:induction false} DeliveredProduct(j: Journal, walk: seq<ArbEdge>)
    requires |walk| > 0 && Linked(walk)
    requires forall e :: e in walk ==> Delivers(j, e)
    ensures AtMostTimes(j.Gain(walk[|walk| - 1].toAsset), j.Gain(walk[0].fromAsset), Product(walk))
    ensures (exists e :: e in walk && DeliversMore(j, e))
            ==> LessThanTimes(j.Gain(walk[|walk| - 1].toAsset), j.Gain(walk[0].fromAsset), Product(walk))
    ensures Product(walk) > 0.0
  {
    var e, rest := walk[0], walk[1..];
    assert walk == [e] + rest;
    DeliversStep(j, e);
    var here, there, rate := j.Gain(e.fromAsset), j.Gain(e.toAsset), e.NetRate();
    if rest == [] {
      assert Product(rest) == 1.0;
      assert Product(walk) == rate * Product(rest);
      DeliverOnce(here, rate, there, Product(walk));
    } else {
      DeliveredProduct(j, rest);
      assert rest[0].fromAsset == e.toAsset;
      DeliverOn(here, rate, there, Product(rest), j.Gain(walk[|walk| - 1].toAsset), Product(walk));
    }
  }

  lemma DeliversStep(j: Journal, e: ArbEdge)
    requires Delivers(j, e)
    ensures e.NetRate() > 0.0 && AtMostTimes(j.Gain(e.toAsset), j.Gain(e.fromAsset), e.NetRate())
    ensures DeliversMore(j, e) ==> LessThanTimes(j.Gain(e.toAsset), j.Gain(e.fromAsset), e.NetRate())
  {
    OfferIs(j.gain, e, j.Gain(e.fromAsset), e.NetRate());
  }

  lemma DeliverOnce(here: real, rate: real, there: real, all: real)
    requires AtMostTimes(there, here, rate) && rate > 0.0 && all == rate * 1.0
    ensures AtMostTimes(there, here, all) && all > 0.0
    ensures LessThanTimes(there, here, rate) ==> LessThanTimes(there, here, all)
  {
    assert all == rate;
  }

  lemma DeliverOn(here: real, rate: real, there: real, rest: real, end: real, all: real)
    requires AtMostTimes(there, here, rate) && AtMostTimes(end, there, rest)
    requires rest > 0.0 && rate > 0.0 && all == rate * rest
    ensures AtMostTimes(end, here, all) && all > 0.0
    ensures LessThanTimes(there, here, rate) || LessThanTimes(end, there, rest) ==> LessThanTimes(end, here, all)
  {
    assert here * all == (here * rate) * rest;
    if there < here * rate {
      assert (here * rate - there) * rest > 0.0;
    }
  }

  lemma DeliveringCycleGains(edges: seq<ArbEdge>, j: Journal, walk: seq<ArbEdge>, extra: ArbEdge)
    requires ClosedWalk(walk) && DrawnFrom(edges, walk)
    requires forall e :: e in walk ==> Delivers(j, e)
    requires extra in walk && DeliversMore(j, extra)
    ensures GainCycle(edges, walk)
  {
    DeliveredProduct(j, walk);
    var last := walk[|walk| - 1];
    assert Delivers(j, last) && last.toAsset == walk[0].fromAsset;
    ScaleUp(j.Gain(last.toAsset), Product(walk), j.Gain(walk[0].fromAsset));
  }

  lemma ScaleUp(g: real, factor: real, h: real)
    requires 0.0 < g < h * factor && g == h
    ensures factor > 1.0
  {
    if factor <= 1.0 {
      ScaleDown(h, factor);
    }
  }

  lemma ScaleDown(h: real, factor: real)
    requires h > 0.0 && factor <= 1.0
    ensures h * factor <= h
  {
    assert h * (1.0 - factor) >= 0.0;
  }

  ghost predicate Quiet(j: Journal, e: ArbEdge) {
    e.Usable() && Offer(j.gain, e) <= j.Gain(e.toAsset)
  }

  /** If no edge of a walk can improve its target, the walk multiplies by no more than the gains do. */
  lemma {:induction false} QuietProduct(j: Journal, walk: seq<ArbEdge>)
    requires |walk| > 0 && Linked(walk)
    requires forall e :: e in walk ==> Quiet(j, e)
    ensures j.Gain(walk[0].fromAsset) * Product(walk) <= j.Gain(walk[|walk| - 1].toAsset)
    ensures Product(walk) > 0.0
  {
    var e, rest := walk[0], walk[1..];
    assert walk == [e] + rest && Quiet(j, e);
    var here, there, rate := j.Gain(e.fromAsset), j.Gain(e.toAsset), e.NetRate();
    if rest == [] {
      OfferIs(j.gain, e, here, rate);
      QuietOn(here, rate, there, 1.0, there, Product(walk));
    } else {
      QuietProduct(j, rest);
      assert rest[0].fromAsset == e.toAsset;
      OfferIs(j.gain, e, here, rate);
      QuietOn(here, rate, there, Product(rest), j.Gain(walk[|walk| - 1].toAsset), Product(walk));
    }
  }

  lemma QuietOn(here: real, rate: real, there: real, rest: real, end: real, all: real)
    requires here * rate <= there && there * rest <= end && rest > 0.0 && rate > 0.0 && all == rate * rest
    ensures here * all <= end && all > 0.0
  {
    assert here * all == (here * rate) * rest;
  }

  lemma {:induction false} QuietSpreadsGain(edges: seq<ArbEdge>, start: Asset, j: Journal, walk: seq<ArbEdge>, target: Asset)
    requires j.Gain(start) > 0.0 && WalkBetween(edges, start, target, walk)
    requires forall a :: j.Gain(a) >= 0.0
    requires forall e :: e in edges ==> !j.Relaxable(e)
    ensures j.Gain(target) > 0.0
  {
    if walk != [] {
      var last := walk[|walk| - 1];
      var before := walk[..|walk| - 1];
      assert before != [] ==> before[|before| - 1] == walk[|walk| - 2] && walk[|walk| - 2].toAsset == last.fromAsset;
      assert WalkBetween(edges, start, last.fromAsset, before);
      QuietSpreadsGain(edges, start, j, before, last.fromAsset);
      assert last in edges && last.Usable();
      assert Offer(j.gain, last) > 0.0;
    }
  }

  /** Completeness: when no edge is relaxable any more, no gain cycle can be reached. */
  lemma QuietMeansNoArbitrage(edges: seq<ArbEdge>, start: Asset)
    requires forall e :: e in edges ==> !Settled(edges, start).Relaxable(e)
    ensures !ReachableGainCycle(edges, start)
  {
    var j := Settled(edges, start);
    PassesInv(edges, start, PassCount(edges));
    forall a ensures j.Gain(a) >= 0.0 {
      assert AssetOk(edges, start, j, a);
    }
    forall walk: seq<ArbEdge> | GainCycle(edges, walk) && Reachable(edges, start, walk[0].fromAsset) ensures false {
      QuietCycleGainsNothing(edges, start, j, walk);
    }
  }

  lemma QuietCycleGainsNothing(edges: seq<ArbEdge>, start: Asset, j: Journal, walk: seq<ArbEdge>)
    requires j.Gain(start) > 0.0 && (forall a :: j.Gain(a) >= 0.0)
    requires forall e :: e in edges ==> !j.Relaxable(e)
    requires ClosedWalk(walk) && DrawnFrom(edges, walk) && Reachable(edges, start, walk[0].fromAsset)
    ensures Product(walk) <= 1.0
  {
    var path :| WalkBetween(edges, start, walk[0].fromAsset, path);
    QuietSpreadsGain(edges, start, j, path, walk[0].fromAsset);
    QuietProduct(j, walk);
    var last := walk[|walk| - 1];
    assert last.toAsset == walk[0].fromAsset;
    NoScaleUp(j.Gain(last.toAsset), Product(walk), j.Gain(walk[0].fromAsset));
  }

  lemma NoScaleUp(g: real, factor: real, h: real)
    requires 0.0 < g && h * factor <= g && g == h
    ensures factor <= 1.0
  {}

  // ---------------------------------------------------------------------------------------
  // The predecessor trace-back

  /**
   `chain` lists the assets visited by the trace from chain[0], latest last; `trail` lists the
   predecessor edges followed, and `end` is where the trace stands.
   */
  ghost predicate Trace(preds: map<Asset, ArbEdge>, chain: seq<Asset>, trail: seq<ArbEdge>, end: Asset) {
    && |chain| == |trail|
    && (forall t :: 0 <= t < |chain| ==> chain[t] in preds && trail[t] == preds[chain[t]])
    && (forall t, u :: 0 <= t < u < |chain| && u == t + 1 ==> trail[t].fromAsset == chain[u])
    && (|chain| > 0 ==> trail[|chain| - 1].fromAsset == end)
    && Distinct(chain)
  }

  function Reversed(s: seq<ArbEdge>): (r: seq<ArbEdge>)
    ensures |r| == |s| && forall i :: 0 <= i < |s| ==> r[i] == s[|s| - 1 - i]
  {
    if s == [] then [] else Reversed(s[1..]) + [s[0]]
  }

  lemma ReversedTrailLinked(edges: seq<ArbEdge>, j: Journal, k: nat, chain: seq<Asset>, trail: seq<ArbEdge>, end: Asset)
    requires Trace(j.pred, chain, trail, end)
    requires forall a {:trigger PredecessorOk(edges, j, k, a)} :: a in j.pred ==> PredecessorOk(edges, j, k, a)
    ensures Linked(Reversed(trail)) && DrawnFrom(edges, Reversed(trail))
    ensures forall e :: e in Reversed(trail) ==> Delivers(j, e)
  {
    var walk := Reversed(trail);
    forall t | 0 <= t < |trail|
      ensures trail[t].toAsset == chain[t] && trail[t] in edges && Delivers(j, trail[t])
    {
      assert PredecessorOk(edges, j, k, chain[t]);
    }
  }

  /** The pass in which an asset last improved drops by at most one per predecessor step. */
  lemma {:induction false} RoundsAlongTrace(edges: seq<ArbEdge>, j: Journal, k: nat, chain: seq<Asset>, trail: seq<ArbEdge>, end: Asset, x: Asset)
    requires Trace(j.pred, chain, trail, end) && x == (if chain == [] then end else chain[0])
    requires forall a {:trigger PredecessorOk(edges, j, k, a)} :: a in j.pred ==> PredecessorOk(edges, j, k, a)
    ensures j.Round(end) + |chain| >= j.Round(x)
  {
    if chain != [] {
      var n := |chain| - 1;
      assert PredecessorOk(edges, j, k, chain[n]);
      assert Trace(j.pred, chain[..n], trail[..n], chain[n]);
      RoundsAlongTrace(edges, j, k, chain[..n], trail[..n], chain[n], x);
    }
  }

  /** Ticks cannot fall all the way round a predecessor loop. */
  lemma {:induction false} TickRises(j: Journal, chain: seq<Asset>, trail: seq<ArbEdge>, end: Asset, s: nat)
    returns (t: nat)
    requires Trace(j.pred, chain, trail, end) && s < |chain| && end == chain[s]
    requires forall a :: a in j.pred ==> a in j.tick
    ensures s <= t < |chain| && trail[t].fromAsset in j.pred
    ensures j.tick[chain[t]] <= j.tick[trail[t].fromAsset]
  {
    t := s;
    while t + 1 < |chain| && j.tick[chain[t + 1]] < j.tick[chain[t]]
      invariant s <= t < |chain|
      invariant j.tick[chain[t]] <= j.tick[chain[s]]
    {
      t := t + 1;
    }
    if t + 1 < |chain| {
      assert trail[t].fromAsset == chain[t + 1];
    }
  }

  /** A trace that runs into itself has gone round a gain cycle. */
  lemma LoopingTraceGains(edges: seq<ArbEdge>, start: Asset, j: Journal, k: nat, chain: seq<Asset>, trail: seq<ArbEdge>, end: Asset)
    requires Inv(edges, start, j, k, 0) && Trace(j.pred, chain, trail, end) && end in chain
    ensures ContainsGainCycle(edges, Reversed(trail))
  {
    var s :| 0 <= s < |chain| && chain[s] == end;
    var n := |trail|;
    var walk := Reversed(trail);
    ReversedTrailLinked(edges, j, k, chain, trail, end);
    forall a | a in j.pred ensures a in j.tick {
      assert PredecessorOk(edges, j, k, a);
    }
    var t := TickRises(j, chain, trail, end, s);
    assert PredecessorOk(edges, j, k, chain[t]);
    assert walk[n - 1 - t] == trail[t];
    assert walk[0] == trail[n - 1] && walk[n - s - 1] == trail[s];
    assert PredecessorOk(edges, j, k, chain[s]);
    ClosedStretchGains(edges, j, walk, 0, n - s, n - 1 - t);
  }

  /** The assets a trace has stood on. */
  ghost function Stations(chain: seq<Asset>, end: Asset): seq<Asset> {
    chain + [end]
  }

  lemma StationsInGraph(edges: seq<ArbEdge>, start: Asset, j: Journal, k: nat, chain: seq<Asset>, trail: seq<ArbEdge>, end: Asset, e: ArbEdge)
    requires Inv(edges, start, j, k, 0) && Trace(j.pred, chain, trail, end)
    requires e in edges && e.fromAsset == if chain == [] then end else chain[0]
    ensures forall a :: a in Stations(chain, end) ==> a in Assets(edges)
  {
    forall t | 0 <= t < |chain| ensures chain[t] in Assets(edges) && trail[t].fromAsset in Assets(edges) {
      assert PredecessorOk(edges, j, k, chain[t]);
    }
  }

  /** A trace from a still relaxable edge that runs out of predecessors has come back to the start. */
  lemma ExhaustedTraceAtStart(edges: seq<ArbEdge>, start: Asset, j: Journal, k: nat, e: ArbEdge, chain: seq<Asset>, trail: seq<ArbEdge>, end: Asset)
    requires Inv(edges, start, j, k, 0) && Trace(j.pred, chain, trail, end) && end !in j.pred
    requires j.Gain(e.fromAsset) > 0.0 && e.fromAsset == if chain == [] then end else chain[0]
    ensures end == start
  {
    assert AssetOk(edges, start, j, end);
    var n := |chain|;
    if n > 0 {
      assert PredecessorOk(edges, j, k, chain[n - 1]);
      ZeroTimes(trail[n - 1].NetRate());
    }
  }

  lemma ZeroTimes(x: real)
    ensures 0.0 * x == 0.0
  {}

  /** ... and it has made at least one step for every pass. */
  lemma ExhaustedTraceIsLong(edges: seq<ArbEdge>, start: Asset, e: ArbEdge, chain: seq<Asset>, trail: seq<ArbEdge>, end: Asset)
    requires e in edges && Settled(edges, start).Relaxable(e)
    requires Trace(Settled(edges, start).pred, chain, trail, end) && end !in Settled(edges, start).pred
    requires e.fromAsset == if chain == [] then end else chain[0]
    ensures |chain| >= PassCount(edges)
  {
    var j, k := Settled(edges, start), PassCount(edges) + 1;
    PassesInv(edges, start, PassCount(edges));
    var m :| 0 <= m < |edges| && edges[m] == e;
    assert EdgeOk(edges, j, k, 0, m);
    assert j.Round(e.fromAsset) >= PassCount(edges);
    RoundsAlongTrace(edges, j, k, chain, trail, end, e.fromAsset);
    assert AssetOk(edges, start, j, end);
  }

  /** A trace as long as the graph allows has stood on every asset. */
  lemma LongTraceCoversGraph(edges: seq<ArbEdge>, start: Asset, j: Journal, k: nat, chain: seq<Asset>, trail: seq<ArbEdge>, end: Asset, e: ArbEdge)
    requires Inv(edges, start, j, k, 0) && Trace(j.pred, chain, trail, end) && end !in chain
    requires e in edges && e.fromAsset == if chain == [] then end else chain[0]
    requires |chain| >= PassCount(edges)
    ensures |chain| == PassCount(edges) == |Assets(edges)| - 1
    ensures forall a :: a in Assets(edges) ==> a in Stations(chain, end)
  {
    var stations := Stations(chain, end);
    var visited := set a | a in stations;
    StationsInGraph(edges, start, j, k, chain, trail, end, e);
    DistinctCount(stations);
    SubsetSize(visited, Assets(edges));
    assert e.fromAsset in Assets(edges);
    SubsetOfSameSize(visited, Assets(edges));
  }

  /**
   A trace that runs out of predecessors has come back to the start through every asset of the
   graph, so the edge that set it off closes a gain cycle with the last part of the trail.
   */
  lemma ExhaustedTraceGains(edges: seq<ArbEdge>, start: Asset, e: ArbEdge, chain: seq<Asset>, trail: seq<ArbEdge>, end: Asset)
    requires e in edges && Settled(edges, start).Relaxable(e)
    requires Trace(Settled(edges, start).pred, chain, trail, end) && end !in chain && end !in Settled(edges, start).pred
    requires e.fromAsset == if chain == [] then end else chain[0]
    ensures end == start && |trail| == |Assets(edges)| - 1
    ensures ContainsGainCycle(edges, Reversed(trail) + [e])
  {
    var j, k := Settled(edges, start), PassCount(edges) + 1;
    PassesInv(edges, start, PassCount(edges));
    assert AssetOk(edges, start, j, e.fromAsset);
    ExhaustedTraceAtStart(edges, start, j, k, e, chain, trail, end);
    ExhaustedTraceIsLong(edges, start, e, chain, trail, end);
    CoveringTraceGains(edges, start, j, k, e, chain, trail, end);
  }

  lemma CoveringTraceGains(edges: seq<ArbEdge>, start: Asset, j: Journal, k: nat, e: ArbEdge, chain: seq<Asset>, trail: seq<ArbEdge>, end: Asset)
    requires Inv(edges, start, j, k, 0) && e in edges && j.Relaxable(e)
    requires Trace(j.pred, chain, trail, end) && end !in chain && |chain| >= PassCount(edges)
    requires e.fromAsset == if chain == [] then end else chain[0]
    requires end == start
    ensures |trail| == |Assets(edges)| - 1
    ensures ContainsGainCycle(edges, Reversed(trail) + [e])
  {
    LongTraceCoversGraph(edges, start, j, k, chain, trail, end, e);
    assert e.toAsset in Stations(chain, end);
    var t: nat :| t < |Stations(chain, end)| && Stations(chain, end)[t] == e.toAsset;
    if t < |chain| {
      assert PredecessorOk(edges, j, k, chain[t]);
    }
    ClosingEdgeGains(edges, j, k, chain, trail, end, e, t);
  }

  lemma TrailMeetsTrigger(edges: seq<ArbEdge>, j: Journal, k: nat, chain: seq<Asset>, trail: seq<ArbEdge>, end: Asset, trigger: ArbEdge)
    requires Trace(j.pred, chain, trail, end) && trigger in edges && trigger.Usable()
    requires trigger.fromAsset == if chain == [] then end else chain[0]
    requires forall a {:trigger PredecessorOk(edges, j, k, a)} :: a in j.pred ==> PredecessorOk(edges, j, k, a)
    ensures Linked(Reversed(trail) + [trigger]) && DrawnFrom(edges, Reversed(trail) + [trigger])
  {
    ReversedTrailLinked(edges, j, k, chain, trail, end);
    if chain != [] {
      assert PredecessorOk(edges, j, k, chain[0]);
      assert Reversed(trail)[|trail| - 1] == trail[0];
    }
  }

  lemma ClosingEdgeGains(edges: seq<ArbEdge>, j: Journal, k: nat, chain: seq<Asset>, trail: seq<ArbEdge>, end: Asset, e: ArbEdge, t: nat)
    requires Trace(j.pred, chain, trail, end) && e in edges && e.Usable()
    requires forall a {:trigger PredecessorOk(edges, j, k, a)} :: a in j.pred ==> PredecessorOk(edges, j, k, a)
    requires e.fromAsset == (if chain == [] then end else chain[0])
    requires t <= |chain| && Stations(chain, end)[t] == e.toAsset
    requires 0.0 < j.Gain(e.toAsset) < Offer(j.gain, e)
    ensures ContainsGainCycle(edges, Reversed(trail) + [e])
  {
    var n, walk := |chain|, Reversed(trail) + [e];
    TrailMeetsTrigger(edges, j, k, chain, trail, end, e);
    ReversedTrailLinked(edges, j, k, chain, trail, end);
    assert DeliversMore(j, e) && walk[n] == e;
    if t > 0 {
      assert walk[n - t] == Reversed(trail)[n - t] == trail[t - 1];
    }
    ClosedStretchGains(edges, j, walk, n - t, n + 1, n);
  }

  /** A stretch of delivering edges that returns to its start, one of which could deliver more, gains. */
  lemma ClosedStretchGains(edges: seq<ArbEdge>, j: Journal, walk: seq<ArbEdge>, lo: nat, hi: nat, m: nat)
    requires Linked(walk) && DrawnFrom(edges, walk) && forall e :: e in walk ==> Delivers(j, e)
    requires lo <= m < hi <= |walk| && walk[hi - 1].toAsset == walk[lo].fromAsset && DeliversMore(j, walk[m])
    ensures ContainsGainCycle(edges, walk)
  {
    StretchLinked(edges, walk, lo, hi);
    var cycle := walk[lo..hi];
    assert cycle[m - lo] == walk[m] && cycle[0] == walk[lo] && cycle[|cycle| - 1] == walk[hi - 1];
    assert forall e :: e in cycle ==> e in walk;
    DeliveringCycleGains(edges, j, cycle, walk[m]);
  }

  lemma StretchLinked(edges: seq<ArbEdge>, walk: seq<ArbEdge>, lo: nat, hi: nat)
    requires Linked(walk) && DrawnFrom(edges, walk) && lo <= hi <= |walk|
    ensures Linked(walk[lo..hi]) && DrawnFrom(edges, walk[lo..hi])
  {
    var part := walk[lo..hi];
    forall i, m | 0 <= i < m < |part| && m == i + 1 ensures part[i].toAsset == part[m].fromAsset {
      assert part[i] == walk[lo + i] && part[m] == walk[lo + m];
    }
  }

  // ---------------------------------------------------------------------------------------
  // What a detection returns

  /**
   The returned walk, followed by the still relaxable edge that set off the trace, is linked and
   goes round a gain cycle: inside the returned walk when the predecessors loop, and otherwise by
   closing a walk that leads from the start through every asset.
   */
  ghost predicate Witness(edges: seq<ArbEdge>, start: Asset, walk: seq<ArbEdge>, trigger: ArbEdge) {
    && trigger in edges && Settled(edges, start).Relaxable(trigger)
    && Linked(walk + [trigger]) && DrawnFrom(edges, walk + [trigger])
    && ContainsGainCycle(edges, walk + [trigger])
    && (|| ContainsGainCycle(edges, walk)
        || (&& |walk| == |Assets(edges)| - 1
            && (walk + [trigger])[0].fromAsset == start
            && forall a :: a in Assets(edges) ==> exists e :: e in walk + [trigger] && e.fromAsset == a))
  }

  /** What the trace-back computes from the settled tables proves the opportunity. */
  lemma TraceIsWitness(edges: seq<ArbEdge>, start: Asset, trigger: ArbEdge, chain: seq<Asset>, trail: seq<ArbEdge>, end: Asset)
    requires trigger in edges && Settled(edges, start).Relaxable(trigger)
    requires Trace(Settled(edges, start).pred, chain, trail, end)
    requires trigger.fromAsset == if chain == [] then end else chain[0]
    requires end in chain || end !in Settled(edges, start).pred
    ensures Witness(edges, start, Reversed(trail), trigger)
    ensures ReachableGainCycle(edges, start)
  {
    var j, k := Settled(edges, start), PassCount(edges) + 1;
    PassesInv(edges, start, PassCount(edges));
    TrailMeetsTrigger(edges, j, k, chain, trail, end, trigger);
    if end in chain {
      LoopingTraceGains(edges, start, j, k, chain, trail, end);
      LongerWalkContains(edges, Reversed(trail), trigger);
    } else {
      ExhaustedTraceGains(edges, start, trigger, chain, trail, end);
      ExhaustedTraceCovers(edges, start, trigger, chain, trail, end);
    }
    TraceHasGains(edges, start, j, k, trigger, chain, trail, end);
    GainCycleIsReachable(edges, start, j, k, Reversed(trail) + [trigger]);
  }

  lemma ExhaustedTraceCovers(edges: seq<ArbEdge>, start: Asset, trigger: ArbEdge, chain: seq<Asset>, trail: seq<ArbEdge>, end: Asset)
    requires trigger in edges && Settled(edges, start).Relaxable(trigger)
    requires Trace(Settled(edges, start).pred, chain, trail, end) && end !in chain && end !in Settled(edges, start).pred
    requires trigger.fromAsset == if chain == [] then end else chain[0]
    ensures (Reversed(trail) + [trigger])[0].fromAsset == end
    ensures forall a :: a in Assets(edges) ==> exists e :: e in Reversed(trail) + [trigger] && e.fromAsset == a
  {
    PassesInv(edges, start, PassCount(edges));
    ExhaustedTraceIsLong(edges, start, trigger, chain, trail, end);
    LongTraceCoversGraph(edges, start, Settled(edges, start), PassCount(edges) + 1, chain, trail, end, trigger);
    StationsAreSources(chain, trail, end, trigger, Settled(edges, start));
  }

  /** Only in a graph of a single asset, where no pass is made, is there no edge to trace back. */
  lemma EmptyTraceExactly(edges: seq<ArbEdge>, start: Asset, trigger: ArbEdge, chain: seq<Asset>, trail: seq<ArbEdge>, end: Asset)
    requires trigger in edges && Settled(edges, start).Relaxable(trigger)
    requires Trace(Settled(edges, start).pred, chain, trail, end)
    requires trigger.fromAsset == if chain == [] then end else chain[0]
    requires end in chain || end !in Settled(edges, start).pred
    ensures Reversed(trail) == [] <==> |Assets(edges)| == 1
  {
    if end !in chain {
      PassesInv(edges, start, PassCount(edges));
      ExhaustedTraceIsLong(edges, start, trigger, chain, trail, end);
      LongTraceCoversGraph(edges, start, Settled(edges, start), PassCount(edges) + 1, chain, trail, end, trigger);
    } else {
      assert chain[0] in Settled(edges, start).pred;
    }
  }

  lemma TraceHasGains(edges: seq<ArbEdge>, start: Asset, j: Journal, k: nat, trigger: ArbEdge, chain: seq<Asset>, trail: seq<ArbEdge>, end: Asset)
    requires Inv(edges, start, j, k, 0) && Trace(j.pred, chain, trail, end) && j.Relaxable(trigger)
    ensures forall e :: e in Reversed(trail) + [trigger] ==> j.Gain(e.fromAsset) > 0.0
  {
    var walk := Reversed(trail);
    ReversedTrailLinked(edges, j, k, chain, trail, end);
    forall e | e in walk + [trigger] ensures j.Gain(e.fromAsset) > 0.0 {
      if e in walk {
        assert Delivers(j, e);
        PositiveSource(j.Gain(e.fromAsset), e.NetRate());
      } else {
        assert AssetOk(edges, start, j, e.fromAsset);
      }
    }
  }

  lemma StationsAreSources(chain: seq<Asset>, trail: seq<ArbEdge>, end: Asset, trigger: ArbEdge, j: Journal)
    requires Trace(j.pred, chain, trail, end) && trigger.fromAsset == if chain == [] then end else chain[0]
    ensures forall a :: a in Stations(chain, end) ==> exists e :: e in Reversed(trail) + [trigger] && e.fromAsset == a
    ensures (Reversed(trail) + [trigger])[0].fromAsset == end
  {
    var n, walk := |chain|, Reversed(trail) + [trigger];
    forall a | a in Stations(chain, end) ensures exists e :: e in walk && e.fromAsset == a {
      var t :| 0 <= t <= n && Stations(chain, end)[t] == a;
      if t == 0 {
        assert walk[n] == trigger;
      } else {
        assert walk[n - t] == trail[t - 1];
      }
    }
  }

  lemma LongerWalkContains(edges: seq<ArbEdge>, walk: seq<ArbEdge>, trigger: ArbEdge)
    requires ContainsGainCycle(edges, walk)
    ensures ContainsGainCycle(edges, walk + [trigger])
  {
    var i, k :| 0 <= i < k <= |walk| && GainCycle(edges, walk[i..k]);
    var longer := walk + [trigger];
    assert longer[i..k] == walk[i..k];
    assert GainCycle(edges, longer[i..k]);
  }

  lemma PositiveSource(gain: real, rate: real)
    requires rate > 0.0 && gain * rate > 0.0
    ensures gain > 0.0
  {
    if gain <= 0.0 {
      ScaleNonPositive(gain, rate);
    }
  }

  lemma ScaleNonPositive(gain: real, rate: real)
    requires rate > 0.0 && gain <= 0.0
    ensures gain * rate <= 0.0
  {}

  lemma GainCycleIsReachable(edges: seq<ArbEdge>, start: Asset, j: Journal, k: nat, walk: seq<ArbEdge>)
    requires Inv(edges, start, j, k, 0) && ContainsGainCycle(edges, walk)
    requires forall e :: e in walk ==> j.Gain(e.fromAsset) > 0.0
    ensures ReachableGainCycle(edges, start)
  {
    var i, l :| 0 <= i < l <= |walk| && GainCycle(edges, walk[i..l]);
    assert walk[i..l][0] == walk[i] && walk[i] in walk;
    assert AssetOk(edges, start, j, walk[i].fromAsset);
  }

  // ---------------------------------------------------------------------------------------
  // The edge list as a book of quotes

  /** Replaces the first edge of the same market, or appends. */
  function Upsert(edges: seq<ArbEdge>, edge: ArbEdge): seq<ArbEdge> {
    if edges == [] then [edge]
    else if edges[0].SameMarket(edge) then [edge] + edges[1..]
    else [edges[0]] + Upsert(edges[1..], edge)
  }

  /** The quote a market has in the list. */
  function Quote(edges: seq<ArbEdge>, market: ArbEdge): Option<ArbEdge> {
    if edges == [] then None
    else if edges[0].SameMarket(market) then Some(edges[0])
    else Quote(edges[1..], market)
  }

  ghost predicate OneEdgePerMarket(edges: seq<ArbEdge>) {
    forall i, k :: 0 <= i < k < |edges| ==> !edges[i].SameMarket(edges[k])
  }

  lemma {:induction false} UpsertQuote(edges: seq<ArbEdge>, edge: ArbEdge, market: ArbEdge)
    ensures Quote(Upsert(edges, edge), market) == if edge.SameMarket(market) then Some(edge) else Quote(edges, market)
  {
    if edges != [] && !edges[0].SameMarket(edge) {
      UpsertQuote(edges[1..], edge, market);
    }
  }

  lemma {:induction false} UpsertKeepsOneEdgePerMarket(edges: seq<ArbEdge>, edge: ArbEdge)
    requires OneEdgePerMarket(edges)
    ensures OneEdgePerMarket(Upsert(edges, edge))
    ensures forall e :: e in Upsert(edges, edge) ==> e == edge || e in edges
    ensures |Upsert(edges, edge)| == |edges| + if Quote(edges, edge).Some? then 0 else 1
  {
    if edges != [] && !edges[0].SameMarket(edge) {
      UpsertKeepsOneEdgePerMarket(edges[1..], edge);
      forall e | e in Upsert(edges[1..], edge) ensures !edges[0].SameMarket(e) {
        if e in edges[1..] {
          var k :| 0 <= k < |edges[1..]| && edges[1..][k] == e;
          assert e == edges[k + 1];
        }
      }
    }
  }

  /** Two edges between the same assets on the same exchange, whatever their rates. */
  ghost predicate Rivals(a: ArbEdge, b: ArbEdge) {
    a.fromAsset == b.fromAsset && a.toAsset == b.toAsset && a.exchange == b.exchange
  }

  ghost predicate NoRivals(edges: seq<ArbEdge>) {
    forall i, k :: 0 <= i < k < |edges| ==> !Rivals(edges[i], edges[k])
  }

  /** An update puts the edge in and takes out exactly its rival, if there is one. */
  lemma {:induction false} UpsertReplacesRival(edges: seq<ArbEdge>, edge: ArbEdge)
    requires NoRivals(edges)
    ensures forall e :: e in Upsert(edges, edge) <==> e == edge || (e in edges && !Rivals(e, edge))
    ensures NoRivals(Upsert(edges, edge))
  {
    if edges != [] {
      var first, rest := edges[0], edges[1..];
      assert edges == [first] + rest;
      RestHasNoRivals(edges);
      if !Rivals(first, edge) {
        UpsertReplacesRival(rest, edge);
        FirstWithoutRival(first, Upsert(rest, edge));
      } else {
        assert Upsert(edges, edge) == [edge] + rest;
        FirstWithoutRival(edge, rest);
      }
    }
  }

  lemma RestHasNoRivals(edges: seq<ArbEdge>)
    requires edges != [] && NoRivals(edges)
    ensures NoRivals(edges[1..]) && forall e :: e in edges[1..] ==> !Rivals(edges[0], e)
  {
    forall e | e in edges[1..] ensures !Rivals(edges[0], e) {
      var k :| 0 <= k < |edges[1..]| && edges[1..][k] == e;
      assert e == edges[k + 1];
    }
  }

  lemma FirstWithoutRival(first: ArbEdge, rest: seq<ArbEdge>)
    requires NoRivals(rest) && forall e :: e in rest ==> !Rivals(first, e)
    ensures NoRivals([first] + rest)
  {}

  lemma {:induction false} UpsertAt(edges: seq<ArbEdge>, edge: ArbEdge, i: nat)
    requires i <= |edges| && forall k :: 0 <= k < i ==> !edges[k].SameMarket(edge)
    requires i < |edges| ==> edges[i].SameMarket(edge)
    ensures Upsert(edges, edge) == if i < |edges| then edges[i := edge] else edges + [edge]
  {
    if i > 0 {
      UpsertAt(edges[1..], edge, i - 1);
      if i < |edges| {
        assert edges[i := edge] == [edges[0]] + edges[1..][i - 1 := edge];
      }
    }
  }

  ghost predicate Listing(nodes: seq<Asset>, assets: set<Asset>) {
    && (forall a :: a in nodes <==> a in assets)
    && Distinct(nodes)
  }

  lemma AssetsStep(edges: seq<ArbEdge>, i: nat)
    requires i < |edges|
    ensures Assets(edges[..i + 1]) == Assets(edges[..i]) + {edges[i].fromAsset, edges[i].toAsset}
  {
    assert edges[..i + 1] == edges[..i] + [edges[i]];
  }

  /** The assets in order of first appearance, each unreached. */
  method CollectAssets(edges: seq<ArbEdge>) returns (nodes: seq<Asset>, gains: map<Asset, real>)
    ensures |nodes| == |Assets(edges)| && Listing(nodes, Assets(edges))
    ensures gains == map a | a in Assets(edges) :: 0.0
  {
    gains, nodes := map[], [];
    for i := 0 to |edges|
      invariant gains == map a | a in Assets(edges[..i]) :: 0.0
      invariant Listing(nodes, Assets(edges[..i]))
    {
      var e := edges[i];
      AssetsStep(edges, i);
      if e.fromAsset !in nodes {
        nodes := nodes + [e.fromAsset];
      }
      if e.toAsset !in nodes {
        nodes := nodes + [e.toAsset];
      }
      gains := gains[e.fromAsset := 0.0][e.toAsset := 0.0];
    }
    assert edges[..|edges|] == edges;
    DistinctCount(nodes);
    assert (set a | a in nodes) == Assets(edges);
  }

  /** One less pass than there are assets, each over every edge, on tables updated in place. */
  method RelaxRepeatedly(edges: seq<ArbEdge>, start: Asset, assetCount: nat, initial: map<Asset, real>)
    returns (gains: map<Asset, real>, preds: map<Asset, ArbEdge>)
    requires assetCount == |Assets(edges)| && initial == Initial(edges, start).gain
    ensures gains == Settled(edges, start).gain && preds == Settled(edges, start).pred
  {
    gains, preds := initial, map[];
    ghost var j := Initial(edges, start);
    for k := 0 to if assetCount == 0 then 0 else assetCount - 1
      invariant j == Passes(edges, start, k) && gains == j.gain && preds == j.pred
    {
      for i := 0 to |edges|
        invariant j == Passes(edges, start, k).Pass(edges, k + 1, i) && gains == j.gain && preds == j.pred
      {
        var e := edges[i];
        j := j.Relax(e, k + 1);
        if e.NetRate() <= 0.0 {
          continue;
        }
        if Lookup(gains, e.fromAsset) != 0.0 && Offer(gains, e) > Lookup(gains, e.toAsset) {
          gains := gains[e.toAsset := Offer(gains, e)];
          preds := preds[e.toAsset := e];
        }
      }
    }
  }

  /** Follows predecessor edges until there is none or an asset repeats, and reverses the trail. */
  method TraceBack(preds: map<Asset, ArbEdge>, source: Asset)
    returns (cycle: seq<ArbEdge>, visited: seq<Asset>, curr: Asset)
    ensures Trace(preds, visited, Reversed(cycle), curr)
    ensures source == if visited == [] then curr else visited[0]
    ensures curr in visited || curr !in preds
  {
    curr, visited, cycle := source, [], [];
    while curr in preds
      invariant Trace(preds, visited, cycle, curr)
      invariant source == if visited == [] then curr else visited[0]
      decreases |preds.Keys| - |visited|
    {
      if curr in visited {
        break;
      }
      VisitedFits(preds, visited + [curr]);
      visited := visited + [curr];
      cycle := cycle + [preds[curr]];
      curr := preds[curr].fromAsset;
    }
    ReversedTwice(cycle);
    cycle := Reversed(cycle);
  }

  lemma ReversedTwice(s: seq<ArbEdge>)
    ensures Reversed(Reversed(s)) == s
  {
  }

  lemma VisitedFits(preds: map<Asset, ArbEdge>, visited: seq<Asset>)
    requires Distinct(visited)
    requires forall a :: a in visited ==> a in preds
    ensures |visited| <= |preds.Keys|
  {
    DistinctCount(visited);
    SubsetSize((set a | a in visited), preds.Keys);
  }

  class ArbGraph {
    var edges: seq<ArbEdge>

    constructor ()
      ensures edges == []
    {
      edges := [];
    }

    method UpdateEdge(edge: ArbEdge)
      modifies this
      ensures edges == Upsert(old(edges), edge)
    {
      var i := 0;
      while i < |edges| && !edges[i].SameMarket(edge)
        invariant 0 <= i <= |edges|
        invariant forall k :: 0 <= k < i ==> !edges[k].SameMarket(edge)
      {
        i := i + 1;
      }
      UpsertAt(edges, edge, i);
      if i < |edges| {
        edges := edges[i := edge];
      } else {
        edges := edges + [edge];
      }
    }

    /**
     Reports an opportunity exactly when some gain cycle can be reached from `start`, and reports it
     as an empty list exactly when the graph has a single asset.
     */
    method DetectCrossExchangeArb(start: Asset) returns (r: Option<seq<ArbEdge>>)
      ensures r.Some? <==> ReachableGainCycle(edges, start)
      ensures r.Some? <==> ProfitableTour(edges, start)
      ensures r.Some? ==> exists trigger :: Witness(edges, start, r.value, trigger)
      ensures r.Some? ==> (r.value == [] <==> |Assets(edges)| == 1)
    {
      GainsAreProfits(edges, start);
      var nodes, gains := CollectAssets(edges);
      gains := gains[start := 1.0];
      ghost var j := Settled(edges, start);
      var preds;
      gains, preds := RelaxRepeatedly(edges, start, |nodes|, gains);

      for i := 0 to |edges|
        invariant forall m :: 0 <= m < i ==> !j.Relaxable(edges[m])
      {
        var e := edges[i];
        if e.NetRate() <= 0.0 {
          continue;
        }
        if Lookup(gains, e.fromAsset) != 0.0 && Offer(gains, e) > Lookup(gains, e.toAsset) {
          var cycle, visited, curr := TraceBack(preds, e.fromAsset);
          TraceIsWitness(edges, start, e, visited, Reversed(cycle), curr);
          EmptyTraceExactly(edges, start, e, visited, Reversed(cycle), curr);
          ReversedTwice(cycle);
          return Some(cycle);
        }
      }
      QuietMeansNoArbitrage(edges, start);
      return None;
    }
  }
}
