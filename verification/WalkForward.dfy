/**
 The walk-forward engine of src/backtest_engine.py.

 The signal model is a parameter with a state of its own: the source's consensus object keeps
 filter state from call to call, so `fit` and `evaluate` take its state and return the next one.
 Bar indices inside a window count from the first test bar, as in the source.
 */
module WalkForward {
  import opened Options
  import opened Reals

  datatype Side = Long | Short
  datatype Phase = Buy | Sell | Hold

  datatype Query = Query(
    prices: seq<real>, volumes: seq<real>, winRate: real, avgWin: real, avgLoss: real, portfolio: real)

  datatype Consensus = Consensus(phase: Phase, confidence: real, regimeVeto: bool, regime: string, positionUsd: real)

  type Positive = n: nat | n > 0 witness 1

  /** `friction` is the one-way friction of the symbol; None in a filter admits everything. */
  datatype Engine<!M> = Engine(
    trainBars: nat, testBars: Positive, stopLossPct: real, takeProfitPct: real, capital: real,
    friction: real, commission: real, minConfidence: real, maxHoldingBars: Positive,
    allowedSides: Option<set<Side>>, allowedRegimes: Option<set<string>>,
    fit: (M, seq<real>) -> M, evaluate: (M, Query) -> (M, Consensus))

  datatype Bar = Bar(open: real, high: real, low: real, close: real, volume: real)

  /** The parallel arrays of the source, which are all read from the same rows. */
  type Bars = seq<Bar>

  function Closes(bars: Bars): (s: seq<real>)
    ensures |s| == |bars| && forall j :: 0 <= j < |bars| ==> s[j] == bars[j].close
  {
    seq(|bars|, j requires 0 <= j < |bars| => bars[j].close)
  }

  function Volumes(bars: Bars): (s: seq<real>)
    ensures |s| == |bars| && forall j :: 0 <= j < |bars| ==> s[j] == bars[j].volume
  {
    seq(|bars|, j requires 0 <= j < |bars| => bars[j].volume)
  }

  /** Two series of the same length that share their first `upTo` bars. */
  ghost predicate Agree(b: Bars, b': Bars, upTo: nat) {
    |b| == |b'| && upTo <= |b| && b[..upTo] == b'[..upTo]
  }

  datatype Trade = Trade(
    entryPrice: real, exitPrice: real, entryIdx: nat, exitIdx: nat, side: Side, commission: real, sizeUsd: real,
    grossPnlPct: real, pnlUsd: real, pnlPct: real, confidence: real, regime: string)

  function MinNat(a: nat, b: nat): nat { if a <= b then a else b }

  function Sign(side: Side): real {
    if side == Long then 1.0 else -1.0
  }

  /** None where the source raises ValueError. */
  function MakeTrade(entry: real, exit: real, entryIdx: nat, exitIdx: nat, side: Side, size: real,
                     commission: real, confidence: real, regime: string): Option<Trade> {
    if entry <= 0.0 || size <= 0.0 then None
    else
      var gross := Sign(side) * (exit - entry) / entry;
      var net := gross * size - commission;
      Some(Trade(entry, exit, entryIdx, exitIdx, side, commission, size, gross, net, net / size, confidence, regime))
  }

  // ---------------------------------------------------------------------------------------
  // Rolling statistics

  function TotalPnl(trades: seq<Trade>): real {
    if trades == [] then 0.0 else TotalPnl(trades[..|trades| - 1]) + trades[|trades| - 1].pnlUsd
  }

  function Wins(trades: seq<Trade>): nat {
    if trades == [] then 0
    else Wins(trades[..|trades| - 1]) + if trades[|trades| - 1].pnlUsd > 0.0 then 1 else 0
  }

  function GrossWin(trades: seq<Trade>): real {
    if trades == [] then 0.0
    else GrossWin(trades[..|trades| - 1]) + if trades[|trades| - 1].pnlUsd > 0.0 then trades[|trades| - 1].pnlUsd else 0.0
  }

  function GrossLoss(trades: seq<Trade>): real {
    if trades == [] then 0.0
    else GrossLoss(trades[..|trades| - 1]) + if trades[|trades| - 1].pnlUsd > 0.0 then 0.0 else -trades[|trades| - 1].pnlUsd
  }

  lemma {:induction false} WinsWithin(trades: seq<Trade>)
    ensures Wins(trades) <= |trades|
    ensures TotalPnl(trades) == GrossWin(trades) - GrossLoss(trades)
    ensures GrossWin(trades) >= 0.0 && GrossLoss(trades) >= 0.0
  {
    if trades != [] {
      WinsWithin(trades[..|trades| - 1]);
    }
  }

  function WinRate(trades: seq<Trade>): real {
    if trades == [] then 0.0 else Wins(trades) as real / |trades| as real
  }

  function AvgWin(trades: seq<Trade>): real {
    if Wins(trades) == 0 then 0.0 else GrossWin(trades) / Wins(trades) as real
  }

  function AvgLoss(trades: seq<Trade>): real {
    if Wins(trades) == |trades| then 1.0 else GrossLoss(trades) / (|trades| - Wins(trades)) as real
  }

  // ---------------------------------------------------------------------------------------
  // One window

  datatype Window = Window(trainCloses: seq<real>, trainVolumes: seq<real>, test: Bars)

  datatype Scan<M> = Scan(
    model: M, i: nat, equity: real, winRate: real, avgWin: real, avgLoss: real, trades: seq<Trade>, raised: bool)

  function Last100(s: seq<real>): seq<real> {
    if |s| <= 100 then s else s[|s| - 100..]
  }

  function QueryAt<M>(w: Window, s: Scan<M>): Query
    requires s.i <= |w.test|
  {
    Query(Last100(w.trainCloses) + Closes(w.test[..s.i]), Last100(w.trainVolumes) + Volumes(w.test[..s.i]),
          s.winRate, s.avgWin, s.avgLoss, s.equity)
  }

  datatype Order = Order(side: Side, confidence: real, regime: string, positionUsd: real)

  /** The order the consensus calls for, or None if a filter blocks it. */
  function OrderOf<M>(g: Engine<M>, c: Consensus): Option<Order> {
    var side := if c.phase == Buy then Long else Short;
    if c.phase == Hold || c.regimeVeto || c.confidence < g.minConfidence then None
    else if g.allowedSides.Some? && side !in g.allowedSides.value then None
    else if g.allowedRegimes.Some? && c.regime !in g.allowedRegimes.value then None
    else Some(Order(side, c.confidence, c.regime, c.positionUsd))
  }

  function EntryPrice<M>(g: Engine<M>, open: real, side: Side): real {
    if side == Long then open * (1.0 + g.friction) else open * (1.0 - g.friction)
  }

  function StopPrice<M>(g: Engine<M>, entry: real, side: Side): real {
    entry * (1.0 - Sign(side) * g.stopLossPct)
  }

  function TargetPrice<M>(g: Engine<M>, entry: real, side: Side): real {
    entry * (1.0 + Sign(side) * g.takeProfitPct)
  }

  /** What bar j does to an open position: the stop is looked at before the target. */
  function ExitPriceAt(test: Bars, side: Side, stop: real, target: real, friction: real, j: nat): Option<real>
    requires j < |test|
  {
    if side == Long then
      if test[j].low <= stop then Some(stop * (1.0 - friction))
      else if test[j].high >= target then Some(target * (1.0 - friction))
      else None
    else
      if test[j].high >= stop then Some(stop * (1.0 + friction))
      else if test[j].low <= target then Some(target * (1.0 + friction))
      else None
  }

  /** The first of the bars lo, ..., hi - 1 that closes the position. */
  function FirstExit(test: Bars, side: Side, stop: real, target: real, friction: real, lo: nat, hi: nat): (r: Option<(real, nat)>)
    requires hi <= |test|
    ensures r.Some? ==> lo <= r.value.1 < hi
    decreases hi - lo
  {
    if lo >= hi then None
    else
      var price := ExitPriceAt(test, side, stop, target, friction, lo);
      if price.Some? then Some((price.value, lo))
      else FirstExit(test, side, stop, target, friction, lo + 1, hi)
  }

  /** The exit of a position entered on the signal of bar i: price and bar. */
  function Exit<M>(g: Engine<M>, test: Bars, i: nat, entry: real, side: Side): (r: (real, nat))
    requires i + 1 < |test|
    ensures i < r.1 < |test|
  {
    var stop, target := StopPrice(g, entry, side), TargetPrice(g, entry, side);
    var first := FirstExit(test, side, stop, target, g.friction, i + 2, MinNat(i + g.maxHoldingBars + 1, |test|));
    if first.Some? then first.value
    else
      var last := MinNat(i + g.maxHoldingBars, |test| - 1);
      (test[last].close, last)
  }

  function OpenTrade<M>(g: Engine<M>, test: Bars, i: nat, equity: real, order: Order): (r: Option<Trade>)
    requires i + 1 < |test|
    ensures r.Some? ==> r.value.entryIdx == i < r.value.exitIdx < |test|
  {
    var entry := EntryPrice(g, test[i + 1].open, order.side);
    var size := Max(10.0, Min(order.positionUsd, equity * 0.10));
    var exit := Exit(g, test, i, entry, order.side);
    MakeTrade(entry, exit.0, i, exit.1, order.side, size, g.commission, order.confidence, order.regime)
  }

  /** One turn of the scan loop. */
  function Step<M>(g: Engine<M>, w: Window, s: Scan<M>): (s': Scan<M>)
    requires s.i + 1 < |w.test|
    ensures s.i < s'.i || s'.raised
  {
    var (model, consensus) := g.evaluate(s.model, QueryAt(w, s));
    var order := OrderOf(g, consensus);
    if order.None? then s.(model := model, i := s.i + 1)
    else
      var trade := OpenTrade(g, w.test, s.i, s.equity, order.value);
      if trade.None? then s.(model := model, raised := true)
      else
        var trades := s.trades + [trade.value];
        var rolling := |trades| >= 5;
        Scan(model, trade.value.exitIdx + 1, s.equity + trade.value.pnlUsd,
             if rolling then WinRate(trades) else s.winRate,
             if rolling && AvgWin(trades) != 0.0 then AvgWin(trades) else s.avgWin,
             if rolling && AvgLoss(trades) != 0.0 then AvgLoss(trades) else s.avgLoss,
             trades, false)
  }

  function ScanFrom<M>(g: Engine<M>, w: Window, s: Scan<M>): Scan<M>
    decreases |w.test| - s.i, !s.raised
  {
    if s.raised || s.i + 1 >= |w.test| then s else ScanFrom(g, w, Step(g, w, s))
  }

  function Start<M>(g: Engine<M>, model: M): Scan<M> {
    Scan(model, 50, g.capital, 0.5, g.stopLossPct * 2.0, g.stopLossPct, [], false)
  }

  // ---------------------------------------------------------------------------------------
  // What holds inside a window

  /** Trades follow one another without overlap inside a window of n bars. */
  ghost predicate TradesOk(trades: seq<Trade>, n: nat) {
    && (forall k :: 0 <= k < |trades| ==> trades[k].entryIdx < trades[k].exitIdx < n)
    && (forall k, l :: 0 <= k < l < |trades| ==> trades[k].exitIdx < trades[l].entryIdx)
  }

  ghost predicate ClosedByNow(trades: seq<Trade>, i: nat) {
    forall k :: 0 <= k < |trades| ==> trades[k].exitIdx < i
  }

  /** All trades so far are closed, and the equity accounts for them. */
  ghost predicate ScanOk<M>(g: Engine<M>, w: Window, s: Scan<M>) {
    && TradesOk(s.trades, |w.test|) && ClosedByNow(s.trades, s.i)
    && s.equity == g.capital + TotalPnl(s.trades)
  }

  lemma AppendTrade(trades: seq<Trade>, t: Trade, i: nat, n: nat)
    requires TradesOk(trades, n) && ClosedByNow(trades, i) && i <= t.entryIdx < t.exitIdx < n
    ensures TradesOk(trades + [t], n) && ClosedByNow(trades + [t], t.exitIdx + 1)
    ensures TotalPnl(trades + [t]) == TotalPnl(trades) + t.pnlUsd
  {
    assert (trades + [t])[..|trades|] == trades;
  }

  /** A turn books one trade, entered on this bar and closed before the next turn, or none. */
  lemma StepBooks<M>(g: Engine<M>, w: Window, s: Scan<M>) returns (trade: Option<Trade>)
    requires s.i + 1 < |w.test|
    ensures var s' := Step(g, w, s);
            match trade
            case None => s'.trades == s.trades && s'.equity == s.equity && s.i <= s'.i
            case Some(t) =>
              && s'.trades == s.trades + [t] && s'.equity == s.equity + t.pnlUsd
              && s.i == t.entryIdx < t.exitIdx < |w.test| && s'.i == t.exitIdx + 1
  {
    var order := OrderOf(g, g.evaluate(s.model, QueryAt(w, s)).1);
    trade := if order.None? then None else OpenTrade(g, w.test, s.i, s.equity, order.value);
  }

  lemma StepOk<M>(g: Engine<M>, w: Window, s: Scan<M>)
    requires s.i + 1 < |w.test| && ScanOk(g, w, s)
    ensures ScanOk(g, w, Step(g, w, s))
    ensures s.trades <= Step(g, w, s).trades
  {
    var trade := StepBooks(g, w, s);
    if trade.Some? {
      AppendTrade(s.trades, trade.value, s.i, |w.test|);
    }
  }

  lemma {:induction false} ScanFromOk<M>(g: Engine<M>, w: Window, s: Scan<M>)
    requires ScanOk(g, w, s)
    ensures ScanOk(g, w, ScanFrom(g, w, s))
    ensures s.trades <= ScanFrom(g, w, s).trades
    decreases |w.test| - s.i, !s.raised
  {
    if !s.raised && s.i + 1 < |w.test| {
      StepOk(g, w, s);
      ScanFromOk(g, w, Step(g, w, s));
    }
  }

  // ---------------------------------------------------------------------------------------
  // What a trade is, in terms of the bars and the percentages of the engine

  /** The low of a long, or the high of a short, comes to the stop on this bar. */
  ghost predicate StopReached<M>(g: Engine<M>, bar: Bar, entry: real, side: Side) {
    if side == Long then bar.low <= entry * (1.0 - g.stopLossPct) else bar.high >= entry * (1.0 + g.stopLossPct)
  }

  ghost predicate TargetReached<M>(g: Engine<M>, bar: Bar, entry: real, side: Side) {
    if side == Long then bar.high >= entry * (1.0 + g.takeProfitPct) else bar.low <= entry * (1.0 - g.takeProfitPct)
  }

  ghost predicate FilledAtStop<M>(g: Engine<M>, entry: real, side: Side, price: real) {
    price == if side == Long then entry * (1.0 - g.stopLossPct) * (1.0 - g.friction)
             else entry * (1.0 + g.stopLossPct) * (1.0 + g.friction)
  }

  ghost predicate FilledAtTarget<M>(g: Engine<M>, entry: real, side: Side, price: real) {
    price == if side == Long then entry * (1.0 + g.takeProfitPct) * (1.0 - g.friction)
             else entry * (1.0 - g.takeProfitPct) * (1.0 + g.friction)
  }

  /**
   A position leaves on the first bar after its entry bar that reaches its stop or its target, at the
   stop if that bar reaches both; otherwise at the close of the last bar it may be held for.
   */
  ghost predicate LeavesRightly<M>(g: Engine<M>, test: Bars, i: nat, entry: real, side: Side, price: real, exitIdx: nat) {
    && i < exitIdx < |test| && exitIdx <= i + g.maxHoldingBars
    && (forall j :: i + 2 <= j < exitIdx ==> !StopReached(g, test[j], entry, side) && !TargetReached(g, test[j], entry, side))
    && if exitIdx >= i + 2 && StopReached(g, test[exitIdx], entry, side) then FilledAtStop(g, entry, side, price)
       else if exitIdx >= i + 2 && TargetReached(g, test[exitIdx], entry, side) then FilledAtTarget(g, entry, side, price)
       else (exitIdx == i + g.maxHoldingBars || exitIdx == |test| - 1) && price == test[exitIdx].close
  }

  lemma StopReachedIs<M>(g: Engine<M>, bar: Bar, entry: real, side: Side)
    ensures StopReached(g, bar, entry, side) <==>
            if side == Long then bar.low <= StopPrice(g, entry, side) else bar.high >= StopPrice(g, entry, side)
  {}

  lemma TargetReachedIs<M>(g: Engine<M>, bar: Bar, entry: real, side: Side)
    ensures TargetReached(g, bar, entry, side) <==>
            if side == Long then bar.high >= TargetPrice(g, entry, side) else bar.low <= TargetPrice(g, entry, side)
  {}

  lemma StopFilled<M>(g: Engine<M>, entry: real, side: Side, price: real)
    requires Product(price, StopPrice(g, entry, side), if side == Long then 1.0 - g.friction else 1.0 + g.friction)
    ensures FilledAtStop(g, entry, side, price)
  {}

  lemma TargetFilled<M>(g: Engine<M>, entry: real, side: Side, price: real)
    requires Product(price, TargetPrice(g, entry, side), if side == Long then 1.0 - g.friction else 1.0 + g.friction)
    ensures FilledAtTarget(g, entry, side, price)
  {}

  /** On a bar the stop comes before the target. */
  lemma StopFirst(test: Bars, side: Side, stop: real, target: real, friction: real, j: nat)
    requires j < |test| && if side == Long then test[j].low <= stop else test[j].high >= stop
    ensures var price := ExitPriceAt(test, side, stop, target, friction, j);
            price.Some? && Product(price.value, stop, if side == Long then 1.0 - friction else 1.0 + friction)
  {}

  lemma ThenTarget(test: Bars, side: Side, stop: real, target: real, friction: real, j: nat)
    requires j < |test| && if side == Long then stop < test[j].low && test[j].high >= target else test[j].high < stop && test[j].low <= target
    ensures var price := ExitPriceAt(test, side, stop, target, friction, j);
            price.Some? && Product(price.value, target, if side == Long then 1.0 - friction else 1.0 + friction)
  {}

  /** What bar j does to an open position. */
  function ExitAt<M>(g: Engine<M>, test: Bars, entry: real, side: Side, j: nat): Option<real>
    requires j < |test|
  {
    ExitPriceAt(test, side, StopPrice(g, entry, side), TargetPrice(g, entry, side), g.friction, j)
  }

  lemma ExitAtStop<M>(g: Engine<M>, test: Bars, entry: real, side: Side, j: nat)
    requires j < |test| && StopReached(g, test[j], entry, side)
    ensures ExitAt(g, test, entry, side, j).Some? && FilledAtStop(g, entry, side, ExitAt(g, test, entry, side, j).value)
  {
    StopReachedIs(g, test[j], entry, side);
    StopFirst(test, side, StopPrice(g, entry, side), TargetPrice(g, entry, side), g.friction, j);
    StopFilled(g, entry, side, ExitAt(g, test, entry, side, j).value);
  }

  lemma ExitAtTarget<M>(g: Engine<M>, test: Bars, entry: real, side: Side, j: nat)
    requires j < |test| && !StopReached(g, test[j], entry, side) && TargetReached(g, test[j], entry, side)
    ensures ExitAt(g, test, entry, side, j).Some? && FilledAtTarget(g, entry, side, ExitAt(g, test, entry, side, j).value)
  {
    StopReachedIs(g, test[j], entry, side);
    TargetReachedIs(g, test[j], entry, side);
    ThenTarget(test, side, StopPrice(g, entry, side), TargetPrice(g, entry, side), g.friction, j);
    TargetFilled(g, entry, side, ExitAt(g, test, entry, side, j).value);
  }

  lemma NoExitAt<M>(g: Engine<M>, test: Bars, entry: real, side: Side, j: nat)
    requires j < |test| && !StopReached(g, test[j], entry, side) && !TargetReached(g, test[j], entry, side)
    ensures ExitAt(g, test, entry, side, j) == None
  {
    StopReachedIs(g, test[j], entry, side);
    TargetReachedIs(g, test[j], entry, side);
  }

  ghost predicate Untouched<M>(g: Engine<M>, test: Bars, entry: real, side: Side, lo: nat, hi: nat) {
    forall j :: lo <= j < hi && j < |test| ==> !StopReached(g, test[j], entry, side) && !TargetReached(g, test[j], entry, side)
  }

  lemma {:induction false} FirstExitIs<M>(g: Engine<M>, test: Bars, entry: real, side: Side, lo: nat, hi: nat)
    requires hi <= |test|
    ensures var r := FirstExit(test, side, StopPrice(g, entry, side), TargetPrice(g, entry, side), g.friction, lo, hi);
            match r
            case None => Untouched(g, test, entry, side, lo, hi)
            case Some((price, j)) =>
              && Untouched(g, test, entry, side, lo, j)
              && if StopReached(g, test[j], entry, side) then FilledAtStop(g, entry, side, price)
                 else TargetReached(g, test[j], entry, side) && FilledAtTarget(g, entry, side, price)
    decreases hi - lo
  {
    if lo < hi {
      if StopReached(g, test[lo], entry, side) {
        ExitAtStop(g, test, entry, side, lo);
      } else if TargetReached(g, test[lo], entry, side) {
        ExitAtTarget(g, test, entry, side, lo);
      } else {
        NoExitAt(g, test, entry, side, lo);
        FirstExitIs(g, test, entry, side, lo + 1, hi);
      }
    }
  }

  lemma ExitLeavesRightly<M>(g: Engine<M>, test: Bars, i: nat, entry: real, side: Side)
    requires i + 1 < |test|
    ensures LeavesRightly(g, test, i, entry, side, Exit(g, test, i, entry, side).0, Exit(g, test, i, entry, side).1)
  {
    var hi := MinNat(i + g.maxHoldingBars + 1, |test|);
    var first := FirstExit(test, side, StopPrice(g, entry, side), TargetPrice(g, entry, side), g.friction, i + 2, hi);
    FirstExitIs(g, test, entry, side, i + 2, hi);
    if first.None? {
      assert hi == Exit(g, test, i, entry, side).1 + 1;
    }
  }

  /** As much as is wanted, up to a tenth of the equity, but never less than ten dollars. */
  ghost predicate SizedRightly(size: real, wanted: real, equity: real) {
    && size >= 10.0 && (size > 10.0 ==> size <= wanted && 10.0 * size <= equity)
    && (wanted <= size || equity <= 10.0 * size)
  }

  /** Entered at the next open and left as it should be; the result is the move less the commission. */
  ghost predicate TradedRightly<M>(g: Engine<M>, test: Bars, t: Trade) {
    && t.entryIdx + 1 < |test| && t.entryPrice > 0.0
    && t.entryPrice == test[t.entryIdx + 1].open * (if t.side == Long then 1.0 + g.friction else 1.0 - g.friction)
    && LeavesRightly(g, test, t.entryIdx, t.entryPrice, t.side, t.exitPrice, t.exitIdx)
    && t.sizeUsd >= 10.0 && t.commission == g.commission
    && t.grossPnlPct * t.entryPrice == (if t.side == Long then t.exitPrice - t.entryPrice else t.entryPrice - t.exitPrice)
    && t.pnlUsd == t.grossPnlPct * t.sizeUsd - g.commission
    && t.pnlPct * t.sizeUsd == t.pnlUsd
  }

  lemma MadeRightly(entry: real, exit: real, entryIdx: nat, exitIdx: nat, side: Side, size: real, commission: real,
                    confidence: real, regime: string)
    requires entry > 0.0 && size > 0.0
    ensures var made := MakeTrade(entry, exit, entryIdx, exitIdx, side, size, commission, confidence, regime);
            && made.Some?
            && made.value.grossPnlPct * entry == (if side == Long then exit - entry else entry - exit)
            && made.value.pnlUsd == made.value.grossPnlPct * size - commission
            && made.value.pnlPct * size == made.value.pnlUsd
  {
    var t := MakeTrade(entry, exit, entryIdx, exitIdx, side, size, commission, confidence, regime).value;
    Divided(Sign(side) * (exit - entry), entry);
    Divided(t.pnlUsd, size);
  }

  /** The price after friction at which a position would be entered is not positive. */
  ghost predicate NoEntry<M>(g: Engine<M>, bar: Bar, side: Side) {
    bar.open * (if side == Long then 1.0 + g.friction else 1.0 - g.friction) <= 0.0
  }

  /** The trade t carries out an order given at bar i. */
  ghost predicate CarriesOut<M>(g: Engine<M>, test: Bars, i: nat, equity: real, order: Order, t: Trade) {
    && TradedRightly(g, test, t) && SizedRightly(t.sizeUsd, order.positionUsd, equity)
    && t.entryIdx == i && t.side == order.side && t.confidence == order.confidence && t.regime == order.regime
  }

  /** An order opens the trade that carries it out, exactly if the next open gives a positive entry price. */
  lemma OpenedRightly<M>(g: Engine<M>, test: Bars, i: nat, equity: real, order: Order)
    requires i + 1 < |test|
    ensures match OpenTrade(g, test, i, equity, order)
            case None => NoEntry(g, test[i + 1], order.side)
            case Some(t) => CarriesOut(g, test, i, equity, order, t)
  {
    var entry, size := EntryPrice(g, test[i + 1].open, order.side), Max(10.0, Min(order.positionUsd, equity * 0.10));
    var exit := Exit(g, test, i, entry, order.side);
    ClampedSize(order.positionUsd, equity);
    ExitLeavesRightly(g, test, i, entry, order.side);
    BookedRightly(g, test, i, entry, exit.0, exit.1, size, order);
  }

  lemma ClampedSize(wanted: real, equity: real)
    ensures SizedRightly(Max(10.0, Min(wanted, equity * 0.10)), wanted, equity)
  {}

  lemma BookedRightly<M>(g: Engine<M>, test: Bars, i: nat, entry: real, exit: real, exitIdx: nat, size: real, order: Order)
    requires i + 1 < |test| && LeavesRightly(g, test, i, entry, order.side, exit, exitIdx) && size >= 10.0
    requires entry == test[i + 1].open * (if order.side == Long then 1.0 + g.friction else 1.0 - g.friction)
    ensures match MakeTrade(entry, exit, i, exitIdx, order.side, size, g.commission, order.confidence, order.regime)
            case None => entry <= 0.0
            case Some(t) =>
              && TradedRightly(g, test, t) && t.sizeUsd == size
              && t.entryIdx == i && t.side == order.side && t.confidence == order.confidence && t.regime == order.regime
  {
    if entry > 0.0 {
      MadeRightly(entry, exit, i, exitIdx, order.side, size, g.commission, order.confidence, order.regime);
    }
  }

  /** A stopped trade loses the stop and the friction on it. */
  lemma StoppedLoses<M>(g: Engine<M>, test: Bars, t: Trade)
    requires TradedRightly(g, test, t) && t.exitIdx >= t.entryIdx + 2 && StopReached(g, test[t.exitIdx], t.entryPrice, t.side)
    ensures t.grossPnlPct == -g.stopLossPct - (if t.side == Long then 1.0 - g.stopLossPct else 1.0 + g.stopLossPct) * g.friction
    ensures g.friction >= 0.0 && -1.0 <= g.stopLossPct <= 1.0 ==> t.grossPnlPct <= -g.stopLossPct
  {
    if t.side == Long {
      LossAt(t.entryPrice, 1.0 - g.stopLossPct, 1.0 - g.friction, t.exitPrice, t.grossPnlPct);
      TakesMore(1.0 - g.stopLossPct, g.friction);
    } else {
      LossAt(t.entryPrice, 1.0 + g.stopLossPct, 1.0 + g.friction, t.exitPrice, -t.grossPnlPct);
      TakesMore(1.0 + g.stopLossPct, g.friction);
    }
  }

  /** A fill at a factor of the entry price moves by that factor less one. */
  lemma LossAt(entry: real, kept: real, fill: real, exit: real, move: real)
    requires entry > 0.0 && exit == entry * kept * fill && move * entry == exit - entry
    ensures move == kept * fill - 1.0
  {
    ProductAssociates(entry, kept, fill);
    SameFactor(entry, move, kept * fill - 1.0);
  }

  lemma TakesMore(kept: real, friction: real)
    ensures kept * (1.0 - friction) == kept - kept * friction && kept * (1.0 + friction) == kept + kept * friction
    ensures kept >= 0.0 && friction >= 0.0 ==> kept * friction >= 0.0
  {}

  lemma SameFactor(entry: real, x: real, y: real)
    requires entry > 0.0 && x * entry == y * entry
    ensures x == y
  {
    assert (x - y) * entry == 0.0;
  }

  // ---------------------------------------------------------------------------------------
  // What the scan makes of a signal

  /** The last n values of the training data, and then those of the test bars. */
  ghost predicate LastThen(xs: seq<real>, train: seq<real>, n: nat, test: seq<real>) {
    n <= |train| && |xs| == n + |test| && xs[..n] == train[|train| - n..] && xs[n..] == test
  }

  lemma HundredThen(train: seq<real>, test: seq<real>)
    ensures LastThen(Last100(train) + test, train, MinNat(100, |train|), test)
  {}

  /** The signal is computed from the last hundred training values and the test bars before i, and from the figures so far. */
  lemma QueryHolds<M>(w: Window, s: Scan<M>)
    requires s.i <= |w.test|
    ensures var q, past := QueryAt(w, s), w.test[..s.i];
            && LastThen(q.prices, w.trainCloses, MinNat(100, |w.trainCloses|), Closes(past))
            && LastThen(q.volumes, w.trainVolumes, MinNat(100, |w.trainVolumes|), Volumes(past))
            && q.winRate == s.winRate && q.avgWin == s.avgWin && q.avgLoss == s.avgLoss && q.portfolio == s.equity
  {
    HundredThen(w.trainCloses, Closes(w.test[..s.i]));
    HundredThen(w.trainVolumes, Volumes(w.test[..s.i]));
  }

  /** A signal that passes every filter. */
  ghost predicate Admitted<M>(g: Engine<M>, c: Consensus) {
    && c.phase != Hold && !c.regimeVeto && c.confidence >= g.minConfidence
    && (g.allowedSides.Some? ==> (c.phase == Buy && Long in g.allowedSides.value) || (c.phase == Sell && Short in g.allowedSides.value))
    && (g.allowedRegimes.Some? ==> c.regime in g.allowedRegimes.value)
  }

  /** What an admitted signal calls for: long on a purchase signal and short on a sale signal. */
  ghost function Called(c: Consensus): Order {
    Order(if c.phase == Buy then Long else Short, c.confidence, c.regime, c.positionUsd)
  }

  /** A blocked signal moves the scan on by a bar; an admitted one opens the trade it calls for, if there is an entry price. */
  lemma StepFollowsSignal<M>(g: Engine<M>, w: Window, s: Scan<M>) returns (trade: Option<Trade>)
    requires s.i + 1 < |w.test|
    ensures var (model, c), s' := g.evaluate(s.model, QueryAt(w, s)), Step(g, w, s);
            if !Admitted(g, c) then trade == None && s' == s.(model := model, i := s.i + 1)
            else
              match trade
              case None => NoEntry(g, w.test[s.i + 1], Called(c).side) && s' == s.(model := model, raised := true)
              case Some(t) =>
                && CarriesOut(g, w.test, s.i, s.equity, Called(c), t)
                && s'.model == model && s'.trades == s.trades + [t] && s'.equity == s.equity + t.pnlUsd && s'.i == t.exitIdx + 1
  {
    var c := g.evaluate(s.model, QueryAt(w, s)).1;
    var order := OrderOf(g, c);
    OrderIsAdmitted(g, c);
    StepCases(g, w, s);
    trade := None;
    if order.Some? {
      OpenedRightly(g, w.test, s.i, s.equity, order.value);
      trade := OpenTrade(g, w.test, s.i, s.equity, order.value);
    }
  }

  /** The three ways a turn can go. */
  lemma StepCases<M>(g: Engine<M>, w: Window, s: Scan<M>)
    requires s.i + 1 < |w.test|
    ensures var (model, c), s' := g.evaluate(s.model, QueryAt(w, s)), Step(g, w, s);
            var order := OrderOf(g, c);
            && s'.model == model
            && (order.None? ==> s' == s.(model := model, i := s.i + 1))
            && (order.Some? ==>
                  match OpenTrade(g, w.test, s.i, s.equity, order.value)
                  case None => s' == s.(model := model, raised := true)
                  case Some(t) => s'.trades == s.trades + [t] && s'.equity == s.equity + t.pnlUsd && s'.i == t.exitIdx + 1)
  {}

  lemma OrderIsAdmitted<M>(g: Engine<M>, c: Consensus)
    ensures OrderOf(g, c).Some? <==> Admitted(g, c)
    ensures Admitted(g, c) ==> OrderOf(g, c).value == Called(c)
  {}

  /** The number of winning trades. */
  ghost function Winning(trades: seq<Trade>): set<nat> {
    set k: nat | k < |trades| && trades[k].pnlUsd > 0.0
  }

  lemma {:induction false} WinsAreWinning(trades: seq<Trade>)
    ensures Wins(trades) == |Winning(trades)|
  {
    if trades == [] {
      assert Winning(trades) == {};
    } else {
      var n := |trades| - 1;
      WinsAreWinning(trades[..n]);
      assert Winning(trades) == Winning(trades[..n]) + if trades[n].pnlUsd > 0.0 then {n} else {};
    }
  }

  ghost predicate PerCase(figure: real, cases: int, amount: real) {
    figure * cases as real == amount
  }

  /** The figures a signal is given: fixed ones before the fifth trade, and those of the trades so far from then on. */
  ghost predicate StatsOk<M>(g: Engine<M>, s: Scan<M>) {
    var won := |Winning(s.trades)|;
    if |s.trades| < 5 then s.winRate == 0.5 && s.avgWin == 2.0 * g.stopLossPct && s.avgLoss == g.stopLossPct
    else
      && PerCase(s.winRate, |s.trades|, won as real)
      && (won > 0 ==> PerCase(s.avgWin, won, GrossWin(s.trades)))
      && (won == |s.trades| ==> s.avgLoss == 1.0)
      && (GrossLoss(s.trades) > 0.0 ==> PerCase(s.avgLoss, |s.trades| - won, GrossLoss(s.trades)))
  }

  lemma {:induction false} SomeWin(trades: seq<Trade>)
    ensures Wins(trades) > 0 <==> GrossWin(trades) > 0.0
    ensures GrossLoss(trades) > 0.0 ==> Wins(trades) < |trades|
  {
    if trades != [] {
      WinsWithin(trades[..|trades| - 1]);
      SomeWin(trades[..|trades| - 1]);
    }
  }

  lemma WinRateIs(trades: seq<Trade>)
    requires trades != []
    ensures PerCase(WinRate(trades), |trades|, |Winning(trades)| as real)
  {
    WinsAreWinning(trades);
    Divided(Wins(trades) as real, |trades| as real);
  }

  lemma AvgWinIs(trades: seq<Trade>)
    ensures AvgWin(trades) == 0.0 <==> |Winning(trades)| == 0
    ensures |Winning(trades)| > 0 ==> PerCase(AvgWin(trades), |Winning(trades)|, GrossWin(trades))
  {
    WinsAreWinning(trades);
    SomeWin(trades);
    if Wins(trades) > 0 {
      PositiveRatio(AvgWin(trades), GrossWin(trades), Wins(trades));
    }
  }

  lemma AvgLossIs(trades: seq<Trade>)
    ensures |Winning(trades)| == |trades| ==> AvgLoss(trades) == 1.0
    ensures GrossLoss(trades) > 0.0 ==>
              AvgLoss(trades) != 0.0 && PerCase(AvgLoss(trades), |trades| - |Winning(trades)|, GrossLoss(trades))
  {
    WinsAreWinning(trades);
    SomeWin(trades);
    if GrossLoss(trades) > 0.0 {
      PositiveRatio(AvgLoss(trades), GrossLoss(trades), |trades| - Wins(trades));
    }
  }

  lemma PositiveRatio(figure: real, amount: real, cases: int)
    requires amount > 0.0 && cases > 0 && figure == amount / cases as real
    ensures figure != 0.0 && PerCase(figure, cases, amount)
  {
    Divided(amount, cases as real);
  }

  /** The figures after a turn: unchanged without a trade or before the fifth, otherwise those of the trades unless they are zero. */
  ghost predicate FiguresFrom<M>(s: Scan<M>, s': Scan<M>) {
    if s'.trades == s.trades || |s'.trades| < 5
    then |s.trades| <= |s'.trades| && s'.winRate == s.winRate && s'.avgWin == s.avgWin && s'.avgLoss == s.avgLoss
    else
      && s'.winRate == WinRate(s'.trades)
      && (AvgWin(s'.trades) != 0.0 ==> s'.avgWin == AvgWin(s'.trades))
      && (AvgLoss(s'.trades) != 0.0 ==> s'.avgLoss == AvgLoss(s'.trades))
  }

  lemma StepFigures<M>(g: Engine<M>, w: Window, s: Scan<M>)
    requires s.i + 1 < |w.test|
    ensures FiguresFrom(s, Step(g, w, s))
  {}

  lemma FiguresOk<M>(g: Engine<M>, s: Scan<M>, s': Scan<M>)
    requires StatsOk(g, s) && FiguresFrom(s, s')
    ensures StatsOk(g, s')
  {
    if s'.trades != s.trades && |s'.trades| >= 5 {
      WinRateIs(s'.trades);
      AvgWinIs(s'.trades);
      AvgLossIs(s'.trades);
    }
  }

  lemma StepKeepsStats<M>(g: Engine<M>, w: Window, s: Scan<M>)
    requires s.i + 1 < |w.test| && StatsOk(g, s)
    ensures StatsOk(g, Step(g, w, s))
  {
    StepFigures(g, w, s);
    FiguresOk(g, s, Step(g, w, s));
  }

  lemma {:induction false} ScanFromKeepsStats<M>(g: Engine<M>, w: Window, s: Scan<M>)
    requires StatsOk(g, s)
    ensures StatsOk(g, ScanFrom(g, w, s))
    decreases |w.test| - s.i, !s.raised
  {
    if !s.raised && s.i + 1 < |w.test| {
      StepKeepsStats(g, w, s);
      ScanFromKeepsStats(g, w, Step(g, w, s));
    }
  }

  /** Every trade is entered after fifty bars, at the next open, and left as it should be. */
  ghost predicate AllRight<M>(g: Engine<M>, test: Bars, trades: seq<Trade>) {
    forall k :: 0 <= k < |trades| ==> trades[k].entryIdx >= 50 && TradedRightly(g, test, trades[k])
  }

  lemma StepTradesRightly<M>(g: Engine<M>, w: Window, s: Scan<M>)
    requires s.i + 1 < |w.test| && s.i >= 50 && AllRight(g, w.test, s.trades)
    ensures AllRight(g, w.test, Step(g, w, s).trades) && Step(g, w, s).i >= 50
  {
    var trade := StepFollowsSignal(g, w, s);
    if trade.Some? {
      AppendRight(g, w.test, s.trades, trade.value);
    }
  }

  lemma AppendRight<M>(g: Engine<M>, test: Bars, trades: seq<Trade>, t: Trade)
    requires AllRight(g, test, trades) && t.entryIdx >= 50 && TradedRightly(g, test, t)
    ensures AllRight(g, test, trades + [t])
  {}

  lemma {:induction false} ScanTradesRightly<M>(g: Engine<M>, w: Window, s: Scan<M>)
    requires s.i >= 50 && AllRight(g, w.test, s.trades)
    ensures AllRight(g, w.test, ScanFrom(g, w, s).trades)
    decreases |w.test| - s.i, !s.raised
  {
    if !s.raised && s.i + 1 < |w.test| {
      StepTradesRightly(g, w, s);
      ScanTradesRightly(g, w, Step(g, w, s));
    }
  }

  // ---------------------------------------------------------------------------------------
  // No look-ahead inside a window

  ghost predicate SameTraining(w: Window, w': Window) {
    w.trainCloses == w'.trainCloses && w.trainVolumes == w'.trainVolumes
  }

  lemma AgreesAt(b: Bars, b': Bars, upTo: nat, j: nat)
    requires Agree(b, b', upTo) && j < upTo
    ensures b[j] == b'[j]
  {
    assert b[j] == b[..upTo][j] && b'[j] == b'[..upTo][j];
  }

  /** The signal for a fill at bar i + 1 reads only test bars before i. */
  lemma SignalReadsThePast<M>(g: Engine<M>, w: Window, w': Window, s: Scan<M>)
    requires Agree(w.test, w'.test, s.i) && SameTraining(w, w')
    ensures QueryAt(w, s) == QueryAt(w', s)
  {
  }

  lemma AgreesLess(b: Bars, b': Bars, upTo: nat, fewer: nat)
    requires Agree(b, b', upTo) && fewer <= upTo
    ensures Agree(b, b', fewer)
  {
    assert b[..fewer] == b[..upTo][..fewer] && b'[..fewer] == b'[..upTo][..fewer];
  }

  lemma {:induction false} SameFirstExit(b: Bars, b': Bars, side: Side, stop: real, target: real, friction: real, lo: nat, hi: nat, upTo: nat)
    requires Agree(b, b', upTo) && hi <= |b|
    requires var r := FirstExit(b, side, stop, target, friction, lo, hi); if r.Some? then r.value.1 < upTo else hi <= upTo
    ensures FirstExit(b, side, stop, target, friction, lo, hi) == FirstExit(b', side, stop, target, friction, lo, hi)
    decreases hi - lo
  {
    if lo < hi {
      AgreesAt(b, b', upTo, lo);
      if ExitPriceAt(b, side, stop, target, friction, lo).None? {
        SameFirstExit(b, b', side, stop, target, friction, lo + 1, hi, upTo);
      }
    }
  }

  /** An exit depends on no bar after it. */
  lemma SameExit<M>(g: Engine<M>, b: Bars, b': Bars, i: nat, entry: real, side: Side, upTo: nat)
    requires Agree(b, b', upTo) && i + 1 < |b|
    requires Exit(g, b, i, entry, side).1 < upTo
    ensures Exit(g, b, i, entry, side) == Exit(g, b', i, entry, side)
  {
    var stop, target := StopPrice(g, entry, side), TargetPrice(g, entry, side);
    SameFirstExit(b, b', side, stop, target, g.friction, i + 2, MinNat(i + g.maxHoldingBars + 1, |b|), upTo);
    AgreesAt(b, b', upTo, Exit(g, b, i, entry, side).1);
  }

  lemma SameTrade<M>(g: Engine<M>, b: Bars, b': Bars, i: nat, equity: real, order: Order, upTo: nat)
    requires Agree(b, b', upTo) && i + 1 < |b|
    requires var r := OpenTrade(g, b, i, equity, order); r.Some? && r.value.exitIdx < upTo
    ensures OpenTrade(g, b, i, equity, order) == OpenTrade(g, b', i, equity, order)
  {
    AgreesAt(b, b', upTo, i + 1);
    SameExit(g, b, b', i, EntryPrice(g, b[i + 1].open, order.side), order.side, upTo);
  }

  /** A turn that opens no trade, or one that closes before bar upTo, does not see bar upTo. */
  lemma SameStep<M>(g: Engine<M>, w: Window, w': Window, s: Scan<M>, upTo: nat)
    requires Agree(w.test, w'.test, upTo) && SameTraining(w, w')
    requires s.i + 1 < |w.test| && s.i < upTo && !Step(g, w, s).raised
    requires |Step(g, w, s).trades| > |s.trades| ==> Step(g, w, s).trades[|s.trades|].exitIdx < upTo
    ensures Step(g, w, s) == Step(g, w', s)
  {
    AgreesLess(w.test, w'.test, upTo, s.i);
    SignalReadsThePast(g, w, w', s);
    var (model, consensus) := g.evaluate(s.model, QueryAt(w, s));
    var order := OrderOf(g, consensus);
    if order.Some? {
      SameTrade(g, w.test, w'.test, s.i, s.equity, order.value, upTo);
    }
  }

  /**
   No look-ahead: if the first k trades of a window are all closed before bar upTo, then every
   window with the same training data and the same bars before upTo has the same first k trades.
   */
  lemma {:induction false} NoLookAhead<M>(g: Engine<M>, w: Window, w': Window, s: Scan<M>, k: nat, upTo: nat)
    requires Agree(w.test, w'.test, upTo) && SameTraining(w, w')
    requires ScanOk(g, w, s) && ScanOk(g, w', s)
    requires k <= |ScanFrom(g, w, s).trades|
    requires k > 0 ==> ScanFrom(g, w, s).trades[k - 1].exitIdx < upTo
    ensures k <= |ScanFrom(g, w', s).trades|
    ensures ScanFrom(g, w', s).trades[..k] == ScanFrom(g, w, s).trades[..k]
    decreases |w.test| - s.i, !s.raised
  {
    ScanFromOk(g, w, s);
    ScanFromOk(g, w', s);
    if k > |s.trades| {
      var next, final := Step(g, w, s), ScanFrom(g, w, s);
      StepOk(g, w, s);
      ScanFromOk(g, w, next);
      NextTradeIsLater(g, w, s, k);
      SameStep(g, w, w', s, upTo);
      StepOk(g, w', s);
      NoLookAhead(g, w, w', next, k, upTo);
    }
  }

  /** The trades from number `first` on are opened at bar i or later. */
  ghost predicate OpenedFrom(trades: seq<Trade>, first: nat, i: nat) {
    first <= |trades| && forall l :: first <= l < |trades| ==> i <= trades[l].entryIdx < trades[l].exitIdx
  }

  lemma {:induction false} NewTradesStartLater<M>(g: Engine<M>, w: Window, s: Scan<M>)
    requires ScanOk(g, w, s)
    ensures OpenedFrom(ScanFrom(g, w, s).trades, |s.trades|, s.i)
    decreases |w.test| - s.i, !s.raised
  {
    if !s.raised && s.i + 1 < |w.test| {
      var next := Step(g, w, s);
      StepOk(g, w, s);
      ScanFromOk(g, w, next);
      NewTradesStartLater(g, w, next);
      NextTrade(g, w, s);
    }
  }

  /** A turn adds at most one trade, on the signal of its bar. */
  lemma NextTrade<M>(g: Engine<M>, w: Window, s: Scan<M>)
    requires s.i + 1 < |w.test|
    ensures |s.trades| <= |Step(g, w, s).trades| <= |s.trades| + 1
    ensures |Step(g, w, s).trades| > |s.trades| ==>
              var t := Step(g, w, s).trades[|s.trades|]; t.entryIdx == s.i < t.exitIdx
    ensures Step(g, w, s).raised || s.i < Step(g, w, s).i
  {}

  /** While trade k is still to come, the scan stands before its exit and any trade opened now is closed by then. */
  lemma NextTradeIsLater<M>(g: Engine<M>, w: Window, s: Scan<M>, k: nat)
    requires ScanOk(g, w, s)
    requires |s.trades| < k <= |ScanFrom(g, w, s).trades|
    ensures !s.raised && s.i + 1 < |w.test| && !Step(g, w, s).raised
    ensures s.i < ScanFrom(g, w, s).trades[k - 1].exitIdx
    ensures |Step(g, w, s).trades| > |s.trades| ==>
              Step(g, w, s).trades[|s.trades|].exitIdx <= ScanFrom(g, w, s).trades[k - 1].exitIdx
  {
    var next, final := Step(g, w, s), ScanFrom(g, w, s);
    StepOk(g, w, s);
    ScanFromOk(g, w, next);
    NewTradesStartLater(g, w, s);
    assert final.trades[|s.trades|].exitIdx <= final.trades[k - 1].exitIdx;
  }

  // ---------------------------------------------------------------------------------------
  // The whole run

  datatype WindowResult = WindowResult(start: nat, end: nat, trades: seq<Trade>)

  function WindowAt<M>(g: Engine<M>, bars: Bars, start: nat): (w: Window)
    requires start + g.trainBars + g.testBars <= |bars|
    ensures |w.test| == g.testBars
  {
    var trainEnd := start + g.trainBars;
    Window(Closes(bars[start..trainEnd]), Volumes(bars[start..trainEnd]), bars[trainEnd..trainEnd + g.testBars])
  }

  /** The scan of the window whose training data begin at `start`. */
  function ScanWindowAt<M>(g: Engine<M>, bars: Bars, start: nat, model: M): Scan<M>
    requires start + g.trainBars + g.testBars <= |bars|
  {
    var w := WindowAt(g, bars, start);
    ScanFrom(g, w, Start(g, g.fit(model, w.trainCloses)))
  }

  /** The windows from `start` on; None if some trade cannot be built. */
  function RunFrom<M>(g: Engine<M>, bars: Bars, start: nat, model: M): Option<seq<WindowResult>>
    decreases |bars| - start
  {
    if start + g.trainBars + g.testBars > |bars| then Some([])
    else
      var scan := ScanWindowAt(g, bars, start, model);
      if scan.raised then None
      else
        var rest := RunFrom(g, bars, start + g.testBars, scan.model);
        var trainEnd := start + g.trainBars;
        if rest.None? then None
        else Some([WindowResult(trainEnd, trainEnd + g.testBars, scan.trades)] + rest.value)
  }

  /** The run from `start` completes with the results r. */
  ghost predicate RunsTo<M>(g: Engine<M>, bars: Bars, start: nat, model: M, r: seq<WindowResult>)
  {
    RunFrom(g, bars, start, model) == Some(r)
  }

  function WindowCount(n: int, train: nat, test: nat): int
    requires test > 0
  {
    if n < train then 0 else (n - train) / test
  }

  lemma WindowCountStep(n: int, train: nat, test: nat)
    requires test > 0 && n >= train + test
    ensures WindowCount(n, train, test) == 1 + WindowCount(n - test, train, test)
  {
    var x := n - train;
    var d := x / test;
    assert x == d * test + x % test;
    assert x - test == (d - 1) * test + x % test;
    QuotientIs(x - test, d - 1, x % test, test);
  }

  lemma QuotientIs(x: int, d: int, r: int, test: int)
    requires test > 0 && x == d * test + r && 0 <= r < test
    ensures x / test == d
  {
    var c := x / test - d;
    assert x == (x / test) * test + x % test;
    assert c * test == r - x % test;
    if c >= 1 {
      AtLeast(c, test);
    } else if c <= -1 {
      AtLeast(-c, test);
    }
  }

  lemma AtLeast(c: int, t: int)
    requires c >= 1 && t > 0
    ensures c * t >= t
  {}

  lemma NoWindow(n: int, train: nat, test: nat)
    requires test > 0 && n < train + test
    ensures WindowCount(n, train, test) == 0
  {
    if n >= train {
      QuotientIs(n - train, 0, n - train, test);
    }
  }

  /** Window k of a run tests the bars from start + train + k * test on, and its trades lie inside it. */
  ghost predicate Placed<M>(g: Engine<M>, r: seq<WindowResult>, start: nat, k: nat)
    requires k < |r|
  {
    && r[k].start == start + g.trainBars + k * g.testBars && r[k].end == r[k].start + g.testBars
    && TradesOk(r[k].trades, g.testBars)
  }

  ghost predicate AllPlaced<M>(g: Engine<M>, r: seq<WindowResult>, start: nat) {
    forall k: nat {:trigger Placed(g, r, start, k)} :: k < |r| ==> Placed(g, r, start, k)
  }

  lemma PlacedAfter<M>(g: Engine<M>, r: seq<WindowResult>, start: nat)
    requires |r| > 0 && Placed(g, r, start, 0) && AllPlaced(g, r[1..], start + g.testBars)
    ensures AllPlaced(g, r, start)
  {
    forall k: nat | k < |r| ensures Placed(g, r, start, k) {
      if k > 0 {
        assert Placed(g, r[1..], start + g.testBars, k - 1);
        OneMore(k, g.testBars);
      }
    }
  }

  lemma OneMore(k: nat, t: nat)
    requires k > 0
    ensures (k - 1) * t + t == k * t
  {}

  /** Test windows are adjacent. */
  lemma PlacedAdjacent<M>(g: Engine<M>, r: seq<WindowResult>, start: nat, k: nat)
    requires AllPlaced(g, r, start) && k + 1 < |r|
    ensures r[k].end == r[k + 1].start
  {
    assert Placed(g, r, start, k) && Placed(g, r, start, k + 1);
    OneMore(k + 1, g.testBars);
  }

  ghost predicate WindowFits<M>(g: Engine<M>, bars: Bars, start: nat) {
    start + g.trainBars + g.testBars <= |bars|
  }

  lemma RunStep<M>(g: Engine<M>, bars: Bars, start: nat, model: M, r: seq<WindowResult>)
    requires (|r| > 0 || WindowFits(g, bars, start)) && RunsTo(g, bars, start, model, r)
    ensures WindowFits(g, bars, start)
    ensures |r| > 0 && r[0] == WindowResult(start + g.trainBars, start + g.trainBars + g.testBars, ScanWindowAt(g, bars, start, model).trades)
    ensures RunsTo(g, bars, start + g.testBars, ScanWindowAt(g, bars, start, model).model, r[1..])
  {}

  lemma WindowTradesOk<M>(g: Engine<M>, bars: Bars, start: nat, model: M)
    requires WindowFits(g, bars, start)
    ensures TradesOk(ScanWindowAt(g, bars, start, model).trades, g.testBars)
  {
    var w := WindowAt(g, bars, start);
    ScanFromOk(g, w, Start(g, g.fit(model, w.trainCloses)));
  }

  /** As many windows as fit, one after the other. */
  lemma {:induction false} RunWindows<M>(g: Engine<M>, bars: Bars, start: nat, model: M, r: seq<WindowResult>)
    requires RunsTo(g, bars, start, model, r)
    ensures |r| == WindowCount(|bars| - start, g.trainBars, g.testBars)
    ensures AllPlaced(g, r, start)
    decreases |bars| - start
  {
    if !WindowFits(g, bars, start) {
      NoWindow(|bars| - start, g.trainBars, g.testBars);
    } else {
      RunStep(g, bars, start, model, r);
      WindowTradesOk(g, bars, start, model);
      RunWindows(g, bars, start + g.testBars, ScanWindowAt(g, bars, start, model).model, r[1..]);
      WindowCountStep(|bars| - start, g.trainBars, g.testBars);
      PlacedAfter(g, r, start);
    }
  }

  /** The trades of a window of a run, on the bars it tests. */
  ghost predicate WindowRight<M>(g: Engine<M>, bars: Bars, r: WindowResult) {
    r.start <= r.end <= |bars| && AllRight(g, bars[r.start..r.end], r.trades)
  }

  /** The training data of a window are the bars before it. */
  lemma TrainingPrecedes<M>(g: Engine<M>, bars: Bars, start: nat)
    requires WindowFits(g, bars, start)
    ensures var w := WindowAt(g, bars, start);
            && |w.trainCloses| == |w.trainVolumes| == g.trainBars && |w.test| == g.testBars
            && (forall j :: 0 <= j < g.trainBars ==> w.trainCloses[j] == bars[start + j].close && w.trainVolumes[j] == bars[start + j].volume)
            && (forall j :: 0 <= j < g.testBars ==> w.test[j] == bars[start + g.trainBars + j])
  {}

  lemma FirstWindowRight<M>(g: Engine<M>, bars: Bars, start: nat, model: M)
    requires WindowFits(g, bars, start)
    ensures var trainEnd := start + g.trainBars;
            WindowRight(g, bars, WindowResult(trainEnd, trainEnd + g.testBars, ScanWindowAt(g, bars, start, model).trades))
  {
    var w := WindowAt(g, bars, start);
    ScanTradesRightly(g, w, Start(g, g.fit(model, w.trainCloses)));
  }

  lemma WindowKeepsStats<M>(g: Engine<M>, bars: Bars, start: nat, model: M)
    requires WindowFits(g, bars, start)
    ensures StatsOk(g, ScanWindowAt(g, bars, start, model))
  {
    var w := WindowAt(g, bars, start);
    var s := Start(g, g.fit(model, w.trainCloses));
    assert Winning(s.trades) == {};
    ScanFromKeepsStats(g, w, s);
  }

  /** Every trade of every window of a run is entered, left and booked rightly on the bars of its window. */
  lemma {:induction false} RunTradesRightly<M>(g: Engine<M>, bars: Bars, start: nat, model: M, r: seq<WindowResult>)
    requires RunsTo(g, bars, start, model, r)
    ensures forall k :: 0 <= k < |r| ==> WindowRight(g, bars, r[k])
    decreases |r|
  {
    if r != [] {
      RunStep(g, bars, start, model, r);
      FirstWindowRight(g, bars, start, model);
      RunTradesRightly(g, bars, start + g.testBars, ScanWindowAt(g, bars, start, model).model, r[1..]);
      TailRight(g, bars, r);
    }
  }

  lemma TailRight<M>(g: Engine<M>, bars: Bars, r: seq<WindowResult>)
    requires r != [] && WindowRight(g, bars, r[0]) && forall k :: 0 <= k < |r| - 1 ==> WindowRight(g, bars, r[1..][k])
    ensures forall k :: 0 <= k < |r| ==> WindowRight(g, bars, r[k])
  {
    forall k | 0 <= k < |r| ensures WindowRight(g, bars, r[k]) {
      if k > 0 {
        assert r[k] == r[1..][k - 1];
      }
    }
  }

  lemma SliceOfSlice(bars: Bars, upTo: nat, lo: nat, hi: nat)
    requires lo <= hi <= upTo <= |bars|
    ensures bars[..upTo][lo..hi] == bars[lo..hi]
  {}

  lemma SliceHead(bars: Bars, lo: nat, hi: nat, n: nat)
    requires lo + n <= hi <= |bars|
    ensures bars[lo..hi][..n] == bars[lo..lo + n]
  {}

  lemma TrainingAgrees<M>(g: Engine<M>, bars: Bars, bars': Bars, start: nat, upTo: nat)
    requires Agree(bars, bars', upTo) && WindowFits(g, bars, start) && start + g.trainBars <= upTo
    ensures SameTraining(WindowAt(g, bars, start), WindowAt(g, bars', start))
  {
    var trainEnd := start + g.trainBars;
    SliceOfSlice(bars, upTo, start, trainEnd);
    SliceOfSlice(bars', upTo, start, trainEnd);
  }

  lemma TestAgrees<M>(g: Engine<M>, bars: Bars, bars': Bars, start: nat, upTo: nat)
    requires Agree(bars, bars', upTo) && WindowFits(g, bars, start) && start + g.trainBars <= upTo
    ensures Agree(WindowAt(g, bars, start).test, WindowAt(g, bars', start).test, MinNat(upTo - (start + g.trainBars), g.testBars))
  {
    var trainEnd := start + g.trainBars;
    var shared := MinNat(upTo - trainEnd, g.testBars);
    SliceOfSlice(bars, upTo, trainEnd, trainEnd + shared);
    SliceOfSlice(bars', upTo, trainEnd, trainEnd + shared);
    SliceHead(bars, trainEnd, trainEnd + g.testBars, shared);
    SliceHead(bars', trainEnd, trainEnd + g.testBars, shared);
  }

  lemma AgreeingWhole(b: Bars, b': Bars)
    requires Agree(b, b', |b|)
    ensures b == b'
  {
    assert b == b[..|b|] && b' == b'[..|b|];
  }

  /** The first k trades of a window are closed before bar upTo of the series. */
  ghost predicate ClosedBefore(r: WindowResult, k: nat, upTo: nat) {
    1 <= k <= |r.trades| && r.start + r.trades[k - 1].exitIdx < upTo
  }

  ghost predicate SameFirstTrades(r: WindowResult, r': WindowResult, k: nat) {
    k <= |r.trades| && k <= |r'.trades| && r.trades[..k] == r'.trades[..k]
  }

  lemma ClosedAfterFirst<M>(g: Engine<M>, r: seq<WindowResult>, start: nat, i: nat, k: nat, upTo: nat)
    requires AllPlaced(g, r, start) && i < |r| && ClosedBefore(r[i], k, upTo)
    ensures start + g.trainBars <= upTo
    ensures i > 0 ==> start + g.trainBars + g.testBars <= upTo
  {
    assert Placed(g, r, start, i);
    if i > 0 {
      AtLeast(i, g.testBars);
    }
  }

  lemma ClosedInRun<M>(g: Engine<M>, bars: Bars, start: nat, model: M, r: seq<WindowResult>, i: nat, k: nat, upTo: nat)
    requires RunsTo(g, bars, start, model, r) && i < |r| && ClosedBefore(r[i], k, upTo)
    ensures start + g.trainBars <= upTo
    ensures i > 0 ==> start + g.trainBars + g.testBars <= upTo
  {
    RunWindows(g, bars, start, model, r);
    ClosedAfterFirst(g, r, start, i, k, upTo);
  }

  /**
   No look-ahead across the whole run: two bar series of the same length that agree before bar
   upTo give the same first k trades in every window in which those trades are closed by then.
   */
  lemma {:induction false} RunNoLookAhead<M>(g: Engine<M>, bars: Bars, bars': Bars, start: nat, model: M,
                                             r: seq<WindowResult>, r': seq<WindowResult>, i: nat, k: nat, upTo: nat)
    requires Agree(bars, bars', upTo)
    requires RunsTo(g, bars, start, model, r) && RunsTo(g, bars', start, model, r')
    requires i < |r| && ClosedBefore(r[i], k, upTo)
    ensures i < |r'| && SameFirstTrades(r[i], r'[i], k)
    decreases i
  {
    ClosedInRun(g, bars, start, model, r, i, k, upTo);
    if i == 0 {
      FirstResultNoLookAhead(g, bars, bars', start, model, r, r', k, upTo);
    } else {
      var next := FirstResultSame(g, bars, bars', start, model, r, r', upTo);
      assert r[1..][i - 1] == r[i];
      RunNoLookAhead(g, bars, bars', start + g.testBars, next, r[1..], r'[1..], i - 1, k, upTo);
    }
  }

  lemma FirstResultNoLookAhead<M>(g: Engine<M>, bars: Bars, bars': Bars, start: nat, model: M,
                                  r: seq<WindowResult>, r': seq<WindowResult>, k: nat, upTo: nat)
    requires Agree(bars, bars', upTo)
    requires RunsTo(g, bars, start, model, r) && RunsTo(g, bars', start, model, r')
    requires 0 < |r| && ClosedBefore(r[0], k, upTo)
    ensures 0 < |r'| && SameFirstTrades(r[0], r'[0], k)
  {
    RunStep(g, bars, start, model, r);
    RunStep(g, bars', start, model, r');
    FirstWindowNoLookAhead(g, bars, bars', start, model, k, upTo);
  }

  /** A first window that has ended is the same in both runs, and leaves the same rest to do. */
  lemma FirstResultSame<M>(g: Engine<M>, bars: Bars, bars': Bars, start: nat, model: M,
                           r: seq<WindowResult>, r': seq<WindowResult>, upTo: nat) returns (next: M)
    requires Agree(bars, bars', upTo) && start + g.trainBars + g.testBars <= upTo
    requires RunsTo(g, bars, start, model, r) && RunsTo(g, bars', start, model, r')
    requires 0 < |r|
    ensures 0 < |r'|
    ensures RunsTo(g, bars, start + g.testBars, next, r[1..]) && RunsTo(g, bars', start + g.testBars, next, r'[1..])
  {
    RunStep(g, bars, start, model, r);
    RunStep(g, bars', start, model, r');
    FirstWindowSame(g, bars, bars', start, model, upTo);
    next := ScanWindowAt(g, bars, start, model).model;
  }

  lemma FirstWindowNoLookAhead<M>(g: Engine<M>, bars: Bars, bars': Bars, start: nat, model: M, k: nat, upTo: nat)
    requires Agree(bars, bars', upTo)
    requires start + g.trainBars + g.testBars <= |bars|
    requires var trades := ScanWindowAt(g, bars, start, model).trades;
             1 <= k <= |trades| && start + g.trainBars + trades[k - 1].exitIdx < upTo
    ensures k <= |ScanWindowAt(g, bars', start, model).trades|
    ensures ScanWindowAt(g, bars', start, model).trades[..k] == ScanWindowAt(g, bars, start, model).trades[..k]
  {
    var w, w' := WindowAt(g, bars, start), WindowAt(g, bars', start);
    var s := Start(g, g.fit(model, w.trainCloses));
    TrainingAgrees(g, bars, bars', start, upTo);
    TestAgrees(g, bars, bars', start, upTo);
    ScanFromOk(g, w, s);
    NoLookAhead(g, w, w', s, k, MinNat(upTo - (start + g.trainBars), g.testBars));
  }

  lemma FirstWindowSame<M>(g: Engine<M>, bars: Bars, bars': Bars, start: nat, model: M, upTo: nat)
    requires Agree(bars, bars', upTo)
    requires start + g.trainBars + g.testBars <= upTo
    ensures ScanWindowAt(g, bars, start, model) == ScanWindowAt(g, bars', start, model)
  {
    TrainingAgrees(g, bars, bars', start, upTo);
    TestAgrees(g, bars, bars', start, upTo);
    AgreeingWhole(WindowAt(g, bars, start).test, WindowAt(g, bars', start).test);
  }

  // ---------------------------------------------------------------------------------------
  // The loops of the source

  /** The bars after the entry bar are looked at one by one, for at most maxHoldingBars. */
  method FindExit<M>(g: Engine<M>, test: Bars, i: nat, entry: real, side: Side) returns (price: real, exitIdx: nat)
    requires i + 1 < |test|
    ensures (price, exitIdx) == Exit(g, test, i, entry, side)
    ensures LeavesRightly(g, test, i, entry, side, price, exitIdx)
  {
    ExitLeavesRightly(g, test, i, entry, side);
    var stop, target := StopPrice(g, entry, side), TargetPrice(g, entry, side);
    var hi := MinNat(i + g.maxHoldingBars + 1, |test|);
    var j := i + 2;
    while j < hi
      invariant i + 2 <= j
      invariant FirstExit(test, side, stop, target, g.friction, i + 2, hi) == FirstExit(test, side, stop, target, g.friction, j, hi)
    {
      var hit := ExitPriceAt(test, side, stop, target, g.friction, j);
      if hit.Some? {
        return hit.value, j;
      }
      j := j + 1;
    }
    exitIdx := MinNat(i + g.maxHoldingBars, |test| - 1);
    price := test[exitIdx].close;
  }

  /** Enter at the next open, size, exit and book the trade; None where the source raises. */
  method TakeTrade<M>(g: Engine<M>, test: Bars, i: nat, equity: real, order: Order) returns (trade: Option<Trade>)
    requires i + 1 < |test|
    ensures trade == OpenTrade(g, test, i, equity, order)
    ensures trade.Some? ==> TradedRightly(g, test, trade.value) && SizedRightly(trade.value.sizeUsd, order.positionUsd, equity)
  {
    OpenedRightly(g, test, i, equity, order);
    var entry := EntryPrice(g, test[i + 1].open, order.side);
    var size := Max(10.0, Min(order.positionUsd, equity * 0.10));
    var exitPrice, exitIdx := FindExit(g, test, i, entry, order.side);
    trade := MakeTrade(entry, exitPrice, i, exitIdx, order.side, size, g.commission, order.confidence, order.regime);
  }

  method ScanWindow<M>(g: Engine<M>, w: Window, initial: M) returns (model: M, trades: seq<Trade>, equity: real, raised: bool)
    ensures var final := ScanFrom(g, w, Start(g, initial));
            model == final.model && trades == final.trades && equity == final.equity && raised == final.raised
  {
    var i, winRate, avgWin, avgLoss := 50, 0.5, g.stopLossPct * 2.0, g.stopLossPct;
    model, trades, equity, raised := initial, [], g.capital, false;
    ghost var s := Start(g, initial);
    while i + 1 < |w.test|
      invariant !raised && s == Scan(model, i, equity, winRate, avgWin, avgLoss, trades, false)
      invariant ScanFrom(g, w, s) == ScanFrom(g, w, Start(g, initial))
      decreases |w.test| - i
    {
      var query := Query(Last100(w.trainCloses) + Closes(w.test[..i]), Last100(w.trainVolumes) + Volumes(w.test[..i]),
                         winRate, avgWin, avgLoss, equity);
      assert query == QueryAt(w, s);
      s := Step(g, w, s);
      var (model', consensus) := g.evaluate(model, query);
      model := model';
      var order := OrderOf(g, consensus);
      if order.None? {
        i := i + 1;
        continue;
      }
      var trade := TakeTrade(g, w.test, i, equity, order.value);
      if trade.None? {
        raised := true;
        return;
      }
      trades := trades + [trade.value];
      equity := equity + trade.value.pnlUsd;
      if |trades| >= 5 {
        winRate := WinRate(trades);
        avgWin := if AvgWin(trades) != 0.0 then AvgWin(trades) else avgWin;
        avgLoss := if AvgLoss(trades) != 0.0 then AvgLoss(trades) else avgLoss;
      }
      i := trade.value.exitIdx + 1;
    }
  }

  lemma RunUnfolds<M>(g: Engine<M>, bars: Bars, start: nat, model: M)
    requires WindowFits(g, bars, start)
    ensures var scan, trainEnd := ScanWindowAt(g, bars, start, model), start + g.trainBars;
            RunFrom(g, bars, start, model) ==
            if scan.raised then None
            else Prepended([WindowResult(trainEnd, trainEnd + g.testBars, scan.trades)], RunFrom(g, bars, start + g.testBars, scan.model))
  {}

  /** With these results done, the rest of the run from `start` completes it. */
  ghost predicate Reaches<M>(g: Engine<M>, bars: Bars, done: seq<WindowResult>, start: nat, model: M, whole: Option<seq<WindowResult>>) {
    Prepended(done, RunFrom(g, bars, start, model)) == whole
  }

  /** A window moves one result from the rest of the run to those done. */
  lemma RunAdvances<M>(g: Engine<M>, bars: Bars, done: seq<WindowResult>, start: nat, model: M, whole: Option<seq<WindowResult>>)
    requires WindowFits(g, bars, start) && Reaches(g, bars, done, start, model, whole)
    ensures var scan, trainEnd := ScanWindowAt(g, bars, start, model), start + g.trainBars;
            if scan.raised then whole == None
            else Reaches(g, bars, done + [WindowResult(trainEnd, trainEnd + g.testBars, scan.trades)], start + g.testBars, scan.model, whole)
  {
    var scan, trainEnd := ScanWindowAt(g, bars, start, model), start + g.trainBars;
    RunUnfolds(g, bars, start, model);
    PrependOne(done, WindowResult(trainEnd, trainEnd + g.testBars, scan.trades), RunFrom(g, bars, start + g.testBars, scan.model));
  }

  lemma RunEnds<M>(g: Engine<M>, bars: Bars, done: seq<WindowResult>, start: nat, model: M, whole: Option<seq<WindowResult>>)
    requires !WindowFits(g, bars, start) && Reaches(g, bars, done, start, model, whole)
    ensures whole == Some(done)
  {
    assert done + [] == done;
  }

  /** One window: fit on the training bars, then trade the test bars; None where a trade cannot be built. */
  method RunWindow<M>(g: Engine<M>, bars: Bars, start: nat, initial: M) returns (model: M, result: Option<WindowResult>)
    requires WindowFits(g, bars, start)
    ensures var scan, trainEnd := ScanWindowAt(g, bars, start, initial), start + g.trainBars;
            && model == scan.model
            && result == if scan.raised then None else Some(WindowResult(trainEnd, trainEnd + g.testBars, scan.trades))
  {
    var trainEnd := start + g.trainBars;
    var testEnd := trainEnd + g.testBars;
    var w := Window(Closes(bars[start..trainEnd]), Volumes(bars[start..trainEnd]), bars[trainEnd..testEnd]);
    assert w == WindowAt(g, bars, start);
    model := g.fit(initial, w.trainCloses);
    var trades, equity, raised;
    model, trades, equity, raised := ScanWindow(g, w, model);
    result := if raised then None else Some(WindowResult(trainEnd, testEnd, trades));
  }

  /** Roll forward until the data run out; None where a trade cannot be built. */
  method Run<M>(g: Engine<M>, bars: Bars, initial: M) returns (r: Option<seq<WindowResult>>)
    ensures r == RunFrom(g, bars, 0, initial)
    ensures r.Some? ==> forall k :: 0 <= k < |r.value| ==> WindowRight(g, bars, r.value[k])
  {
    var results: seq<WindowResult>, start, model := [], 0, initial;
    ghost var whole := RunFrom(g, bars, start, model);
    PrependNothing(whole);
    if |bars| < g.trainBars + g.testBars {
      RunEnds(g, bars, results, start, model, whole);
      RunTradesRightly(g, bars, 0, initial, []);
      return Some([]);
    }
    while start + g.trainBars + g.testBars <= |bars|
      invariant Reaches(g, bars, results, start, model, whole)
      decreases |bars| - start
    {
      RunAdvances(g, bars, results, start, model, whole);
      var result;
      model, result := RunWindow(g, bars, start, model);
      if result.None? {
        return None;
      }
      results := results + [result.value];
      start := start + g.testBars;
    }
    RunEnds(g, bars, results, start, model, whole);
    RunTradesRightly(g, bars, 0, initial, results);
    return Some(results);
  }

  function Prepended(done: seq<WindowResult>, rest: Option<seq<WindowResult>>): Option<seq<WindowResult>> {
    if rest.None? then None else Some(done + rest.value)
  }

  lemma PrependNothing(rest: Option<seq<WindowResult>>)
    ensures Prepended([], rest) == rest
  {
    if rest.Some? {
      assert [] + rest.value == rest.value;
    }
  }

  lemma PrependOne(done: seq<WindowResult>, one: WindowResult, rest: Option<seq<WindowResult>>)
    ensures Prepended(done + [one], rest) == Prepended(done, Prepended([one], rest))
  {
    if rest.Some? {
      assert done + [one] + rest.value == done + ([one] + rest.value);
    }
  }
}
