/**
 The summary of simulated trades in src/backtester.py: filtering, win rate, gross amounts, the
 drawdown of the equity curve and the count of trades per pattern.  Everything is exact: the
 rounding of the reported figures is left out, and the sample deviation, a square root, is a parameter.
 */
module TradeSummary {
  import opened Collections
  import opened Options
  import opened Reals

  datatype Trade = Trade(outcome: string, rMultiple: real, pattern: Option<string>)

  datatype Summary = Summary(
    totalSignals: int,
    simulatedTrades: nat,
    winRate: real,
    avgR: real,
    sharpe: real,
    profitFactor: real,
    maxDrawdown: real,
    patterns: seq<(string, nat)>,
    trades: seq<Trade>)

  // Filters and sums

  function Valid(trades: seq<Trade>): (valid: seq<Trade>)
    ensures |valid| <= |trades|
    ensures forall t :: t in valid <==> t in trades && t.outcome != "invalid"
  {
    if trades == [] then []
    else (if trades[0].outcome != "invalid" then [trades[0]] else []) + Valid(trades[1..])
  }

  function Multiples(trades: seq<Trade>): (rs: seq<real>)
    ensures |rs| == |trades|
    ensures forall i :: 0 <= i < |rs| ==> rs[i] == trades[i].rMultiple
  {
    seq(|trades|, i requires 0 <= i < |trades| => trades[i].rMultiple)
  }

  function Winners(rs: seq<real>): (w: seq<real>)
    ensures |w| <= |rs| && forall x :: x in w ==> x > 0.0
  {
    if rs == [] then [] else (if rs[0] > 0.0 then [rs[0]] else []) + Winners(rs[1..])
  }

  function Losers(rs: seq<real>): (l: seq<real>)
    ensures |l| <= |rs| && forall x :: x in l ==> x < 0.0
  {
    if rs == [] then [] else (if rs[0] < 0.0 then [rs[0]] else []) + Losers(rs[1..])
  }

  function GrossWin(rs: seq<real>): real { Sum(Winners(rs)) }

  function GrossLoss(rs: seq<real>): real { Abs(Sum(Losers(rs))) }

  lemma {:induction false} ValidAppends(trades: seq<Trade>, more: seq<Trade>)
    ensures Valid(trades + more) == Valid(trades) + Valid(more)
    decreases |trades|
  {
    if trades == [] {
      assert trades + more == more;
    } else {
      assert (trades + more)[0] == trades[0] && (trades + more)[1..] == trades[1..] + more;
      ValidAppends(trades[1..], more);
    }
  }

  /** The valid trades are the others, in their order and with their copies. */
  lemma ValidFilters(trades: seq<Trade>, more: seq<Trade>, t: Trade)
    ensures Valid(trades + more) == Valid(trades) + Valid(more)
    ensures Valid([t]) == if t.outcome == "invalid" then [] else [t]
  {
    ValidAppends(trades, more);
  }

  /** The positions of the winning and of the losing values. */
  ghost function WinningAt(rs: seq<real>): set<nat> {
    set i: nat | i < |rs| && rs[i] > 0.0
  }

  ghost function LosingAt(rs: seq<real>): set<nat> {
    set i: nat | i < |rs| && rs[i] < 0.0
  }

  lemma {:induction false} WinnersAppend(rs: seq<real>, x: real)
    ensures Winners(rs + [x]) == Winners(rs) + if x > 0.0 then [x] else []
  {
    if rs == [] {
      assert rs + [x] == [x];
    } else {
      assert (rs + [x])[0] == rs[0] && (rs + [x])[1..] == rs[1..] + [x];
      WinnersAppend(rs[1..], x);
    }
  }

  lemma {:induction false} LosersAppend(rs: seq<real>, x: real)
    ensures Losers(rs + [x]) == Losers(rs) + if x < 0.0 then [x] else []
  {
    if rs == [] {
      assert rs + [x] == [x];
    } else {
      assert (rs + [x])[0] == rs[0] && (rs + [x])[1..] == rs[1..] + [x];
      LosersAppend(rs[1..], x);
    }
  }

  lemma WinningNext(rs: seq<real>, n: nat)
    requires |rs| == n + 1
    ensures WinningAt(rs) == WinningAt(rs[..n]) + if rs[n] > 0.0 then {n} else {}
  {}

  lemma LosingNext(rs: seq<real>, n: nat)
    requires |rs| == n + 1
    ensures LosingAt(rs) == LosingAt(rs[..n]) + if rs[n] < 0.0 then {n} else {}
  {}

  lemma {:induction false} WinnersAreWinning(rs: seq<real>)
    ensures |Winners(rs)| == |WinningAt(rs)|
  {
    if rs != [] {
      var n := |rs| - 1;
      WinnersAreWinning(rs[..n]);
      WinnersAppend(rs[..n], rs[n]);
      WinningNext(rs, n);
      assert rs == rs[..n] + [rs[n]];
    }
  }

  lemma {:induction false} LosersAreLosing(rs: seq<real>)
    ensures |Losers(rs)| == |LosingAt(rs)|
  {
    if rs != [] {
      var n := |rs| - 1;
      LosersAreLosing(rs[..n]);
      LosersAppend(rs[..n], rs[n]);
      LosingNext(rs, n);
      assert rs == rs[..n] + [rs[n]];
    }
  }

  /** The winners are as many as there are positive values, and the losers as negative ones. */
  lemma WinnersCount(rs: seq<real>)
    ensures |Winners(rs)| == |WinningAt(rs)| && |Losers(rs)| == |LosingAt(rs)|
  {
    WinnersAreWinning(rs);
    LosersAreLosing(rs);
  }

  lemma {:induction false} SumPrepend(x: real, rs: seq<real>)
    ensures Sum([x] + rs) == x + Sum(rs)
  {
    assert ([x] + rs)[1..] == rs;
  }

  /** Gross wins less gross losses is the total, and a gross amount is zero exactly without trades of its kind. */
  lemma {:induction false} GrossAmounts(rs: seq<real>)
    ensures GrossWin(rs) - GrossLoss(rs) == Sum(rs)
    ensures GrossWin(rs) >= 0.0 && (GrossWin(rs) == 0.0 <==> Winners(rs) == [])
    ensures Sum(Losers(rs)) == -GrossLoss(rs) <= 0.0 && (GrossLoss(rs) == 0.0 <==> Losers(rs) == [])
  {
    if rs != [] {
      var rest := rs[1..];
      GrossAmounts(rest);
      SumPrepend(rs[0], Winners(rest));
      SumPrepend(rs[0], Losers(rest));
      assert rs[0] <= 0.0 ==> Winners(rs) == Winners(rest);
      assert rs[0] >= 0.0 ==> Losers(rs) == Losers(rest);
    }
  }

  // The equity curve and its drawdown

  /** The running total, starting with the value before the first trade. */
  function Curve(start: real, rs: seq<real>): (curve: seq<real>)
    ensures |curve| == |rs| + 1 && curve[0] == start
    decreases |rs|
  {
    [start] + (if rs == [] then [] else Curve(start + rs[0], rs[1..]))
  }

  function Larger(x: real, y: real): real { if x < y then y else x }

  function Smaller(x: real, y: real): real { if y < x then y else x }

  /** The running maximum of the values, and of a peak that came before them. */
  function Peaks(peak: real, xs: seq<real>): (peaks: seq<real>)
    ensures |peaks| == |xs|
    decreases |xs|
  {
    if xs == [] then [] else
      var p := Larger(peak, xs[0]);
      [p] + Peaks(p, xs[1..])
  }

  function Minimum(xs: seq<real>): real
    requires xs != []
  {
    if |xs| == 1 then xs[0] else Smaller(xs[0], Minimum(xs[1..]))
  }

  function Differences(xs: seq<real>, ys: seq<real>): (ds: seq<real>)
    requires |xs| == |ys|
    ensures |ds| == |xs| && forall i :: 0 <= i < |ds| ==> ds[i] == xs[i] - ys[i]
  {
    seq(|xs|, i requires 0 <= i < |xs| => xs[i] - ys[i])
  }

  /** One pass over the curve: the lowest distance below the running peak. */
  function MaxDrawdown(rs: seq<real>): real {
    var curve := Curve(0.0, rs);
    Minimum(Differences(curve, Peaks(curve[0], curve)))
  }

  /** The equity after the first t trades. */
  function Equity(rs: seq<real>, t: nat): real
    requires t <= |rs|
  {
    Sum(rs[..t])
  }

  lemma {:induction false} CurveAt(start: real, rs: seq<real>, t: nat)
    requires t <= |rs|
    ensures Curve(start, rs)[t] == start + Equity(rs, t)
    decreases t
  {
    if t == 0 {
      assert rs[..0] == [];
    } else {
      CurveAt(start + rs[0], rs[1..], t - 1);
      EquityStep(rs, t);
      CurveStep(start, rs, t);
    }
  }

  lemma CurveStep(start: real, rs: seq<real>, t: nat)
    requires 0 < t <= |rs|
    ensures Curve(start, rs)[t] == Curve(start + rs[0], rs[1..])[t - 1]
  {}

  ghost predicate Bounds(xs: seq<real>, t: nat, bound: real) {
    t < |xs| && forall s :: 0 <= s <= t ==> xs[s] <= bound
  }

  /** A running peak is the largest value so far, and one of the values so far attains it. */
  lemma {:induction false} PeakAt(peak: real, xs: seq<real>, t: nat) returns (s: int)
    requires t < |xs|
    ensures Bounds(xs, t, Peaks(peak, xs)[t]) && peak <= Peaks(peak, xs)[t]
    ensures -1 <= s <= t && Peaks(peak, xs)[t] == if s == -1 then peak else xs[s]
    decreases t
  {
    var p := Larger(peak, xs[0]);
    if t == 0 {
      s := if peak < xs[0] then 0 else -1;
    } else {
      var r := PeakAt(p, xs[1..], t - 1);
      assert Peaks(peak, xs)[t] == Peaks(p, xs[1..])[t - 1];
      assert forall k :: 1 <= k <= t ==> xs[k] == xs[1..][k - 1];
      s := if r >= 0 then r + 1 else if peak < xs[0] then 0 else -1;
    }
  }

  lemma {:induction false} MinimumAttained(xs: seq<real>) returns (i: nat)
    requires xs != []
    ensures i < |xs| && Minimum(xs) == xs[i]
    ensures forall k :: 0 <= k < |xs| ==> Minimum(xs) <= xs[k]
    decreases |xs|
  {
    if |xs| == 1 {
      i := 0;
    } else {
      var j := MinimumAttained(xs[1..]);
      assert forall k :: 1 <= k < |xs| ==> xs[k] == xs[1..][k - 1];
      i := if Minimum(xs[1..]) < xs[0] then j + 1 else 0;
    }
  }

  function Fall(rs: seq<real>, s: nat, t: nat): real
    requires s <= t <= |rs|
  {
    Equity(rs, t) - Equity(rs, s)
  }

  /** No later point of the curve lies further below an earlier one. */
  ghost predicate WorstFall(rs: seq<real>, fall: real) {
    && (forall s, t :: 0 <= s <= t <= |rs| ==> fall <= Fall(rs, s, t))
    && (exists s, t :: 0 <= s <= t <= |rs| && fall == Fall(rs, s, t))
  }

  /** The one-pass drawdown is the minimum over all pairs of points in order. */
  lemma DrawdownIsWorstFall(rs: seq<real>)
    ensures WorstFall(rs, MaxDrawdown(rs))
  {
    var curve := Curve(0.0, rs);
    var peaks := Peaks(curve[0], curve);
    var falls := Differences(curve, peaks);
    var t := MinimumAttained(falls);
    var s := PeakAt(curve[0], curve, t);
    CurveAt(0.0, rs, t);
    CurveAt(0.0, rs, if s == -1 then 0 else s);
    assert MaxDrawdown(rs) == Fall(rs, if s == -1 then 0 else s, t);
    forall a, b | 0 <= a <= b <= |rs| ensures MaxDrawdown(rs) <= Fall(rs, a, b) {
      CurveAt(0.0, rs, a);
      CurveAt(0.0, rs, b);
      var peak := PeakAt(curve[0], curve, b);
      assert curve[a] <= peaks[b];
      assert MaxDrawdown(rs) <= falls[b];
    }
  }

  lemma LossStep(rs: seq<real>)
    requires rs != []
    ensures GrossLoss(rs) == GrossLoss(rs[1..]) + if rs[0] < 0.0 then -rs[0] else 0.0
  {
    GrossAmounts(rs);
    GrossAmounts(rs[1..]);
    SumPrepend(rs[0], Losers(rs[1..]));
    assert rs[0] >= 0.0 ==> Losers(rs) == Losers(rs[1..]);
  }

  lemma EquityStep(rs: seq<real>, t: nat)
    requires 0 < t <= |rs|
    ensures Equity(rs, t) == rs[0] + Equity(rs[1..], t - 1)
  {
    assert rs[..t] == [rs[0]] + rs[1..][..t - 1];
    SumPrepend(rs[0], rs[1..][..t - 1]);
  }

  lemma {:induction false} SumBetween(rs: seq<real>, s: nat, t: nat)
    requires s <= t <= |rs|
    ensures Fall(rs, s, t) >= -GrossLoss(rs)
    decreases |rs|
  {
    GrossAmounts(rs);
    if t > 0 {
      LossStep(rs);
      EquityStep(rs, t);
      if s == 0 {
        SumBetween(rs[1..], 0, t - 1);
        assert rs[..0] == rs[1..][..0] == [];
      } else {
        EquityStep(rs, s);
        SumBetween(rs[1..], s - 1, t - 1);
      }
    }
  }

  /** A drawdown is never positive, never beyond the gross loss, and zero exactly without losers. */
  lemma DrawdownRange(rs: seq<real>)
    ensures -GrossLoss(rs) <= MaxDrawdown(rs) <= 0.0
    ensures MaxDrawdown(rs) == 0.0 <==> Losers(rs) == []
  {
    DrawdownIsWorstFall(rs);
    GrossAmounts(rs);
    assert MaxDrawdown(rs) <= Fall(rs, 0, 0);
    var s, t :| 0 <= s <= t <= |rs| && MaxDrawdown(rs) == Fall(rs, s, t);
    SumBetween(rs, s, t);
    if Losers(rs) != [] {
      var i := LoserAt(rs);
      assert rs[..i + 1] == rs[..i] + [rs[i]];
      SumAppend(rs[..i], rs[i]);
      assert MaxDrawdown(rs) <= Fall(rs, i, i + 1);
    }
  }

  lemma {:induction false} SumAppend(rs: seq<real>, x: real)
    ensures Sum(rs + [x]) == Sum(rs) + x
    decreases |rs|
  {
    if rs != [] {
      assert (rs + [x])[1..] == rs[1..] + [x];
      SumAppend(rs[1..], x);
    }
  }

  lemma {:induction false} LoserAt(rs: seq<real>) returns (i: nat)
    requires Losers(rs) != []
    ensures i < |rs| && rs[i] < 0.0
    decreases |rs|
  {
    if rs[0] < 0.0 {
      i := 0;
    } else {
      var j := LoserAt(rs[1..]);
      i := j + 1;
    }
  }

  // Ratios

  function ProfitFactor(rs: seq<real>): real {
    if GrossLoss(rs) > 0.0 then GrossWin(rs) / GrossLoss(rs) else 0.0
  }

  lemma QuotientAboveOne(x: real, y: real)
    requires y > 0.0
    ensures x / y > 1.0 <==> x > y
  {
  }

  /** The profit factor exceeds one exactly when there are losers and the trades still gain. */
  lemma ProfitFactorAboveOne(rs: seq<real>)
    ensures ProfitFactor(rs) > 1.0 <==> Losers(rs) != [] && Sum(rs) > 0.0
  {
    GrossAmounts(rs);
    if GrossLoss(rs) > 0.0 {
      QuotientAboveOne(GrossWin(rs), GrossLoss(rs));
    }
  }

  // Patterns

  function Name(t: Trade): string {
    match t.pattern
    case Some(name) => name
    case None => "UNKNOWN"
  }

  /** How many of the trades carry a pattern name. */
  function Tally(trades: seq<Trade>, name: string): nat {
    if trades == [] then 0 else (if Name(trades[0]) == name then 1 else 0) + Tally(trades[1..], name)
  }

  /** A trade without a pattern counts as unknown. */
  ghost predicate HasPattern(t: Trade, name: string) {
    t.pattern == Some(name) || (t.pattern == None && name == "UNKNOWN")
  }

  ghost function OfPattern(trades: seq<Trade>, name: string): set<nat> {
    set i: nat | i < |trades| && HasPattern(trades[i], name)
  }

  lemma PatternNext(trades: seq<Trade>, name: string, n: nat)
    requires |trades| == n + 1
    ensures OfPattern(trades, name) == OfPattern(trades[..n], name) + if HasPattern(trades[n], name) then {n} else {}
  {}

  /** The tally of a name is the number of trades of the pattern. */
  lemma {:induction false} TallyCounts(trades: seq<Trade>, name: string)
    ensures Tally(trades, name) == |OfPattern(trades, name)|
    decreases |trades|
  {
    if trades == [] {
      assert OfPattern(trades, name) == {};
    } else {
      var n := |trades| - 1;
      TallyCounts(trades[..n], name);
      TallyAppend(trades[..n], trades[n], name);
      PatternNext(trades, name, n);
      assert trades == trades[..n] + [trades[n]];
    }
  }

  lemma {:induction false} TallyAppend(trades: seq<Trade>, t: Trade, name: string)
    ensures Tally(trades + [t], name) == Tally(trades, name) + if Name(t) == name then 1 else 0
    decreases |trades|
  {
    if trades != [] {
      assert (trades + [t])[1..] == trades[1..] + [t];
      TallyAppend(trades[1..], t, name);
    }
  }

  /** A map holds the tallies: no name is missing, none is there without a trade. */
  ghost predicate Tallies(counts: map<string, nat>, trades: seq<Trade>) {
    forall name :: HoldsTally(counts, trades, name)
  }

  ghost predicate HoldsTally(counts: map<string, nat>, trades: seq<Trade>, name: string) {
    Tally(trades, name) == if name in counts then counts[name] else 0
  }

  /** The pattern names in the order in which they first appear. */
  function Names(trades: seq<Trade>): seq<string> {
    if trades == [] then []
    else
      var before, name := Names(trades[..|trades| - 1]), Name(trades[|trades| - 1]);
      if name in before then before else before + [name]
  }

  lemma {:induction false} NamesComplete(trades: seq<Trade>)
    ensures Distinct(Names(trades))
    ensures forall n :: n in Names(trades) <==> Tally(trades, n) > 0
  {
    if trades != [] {
      var before, last := trades[..|trades| - 1], trades[|trades| - 1];
      NamesComplete(before);
      assert trades == before + [last];
      forall n ensures n in Names(trades) <==> Tally(trades, n) > 0 {
        TallyAppend(before, last, n);
      }
    }
  }

  lemma {:induction false} SomeTrade(trades: seq<Trade>, name: string) returns (a: nat)
    requires Tally(trades, name) > 0
    ensures a < |trades| && Name(trades[a]) == name
    decreases |trades|
  {
    if Name(trades[0]) == name {
      a := 0;
    } else {
      var b := SomeTrade(trades[1..], name);
      a := b + 1;
    }
  }

  /** A name that comes before another has appeared before it. */
  lemma {:induction false} NamesInOrder(trades: seq<Trade>, i: nat, j: nat) returns (a: nat)
    requires i < j < |Names(trades)|
    ensures a < |trades| && Name(trades[a]) == Names(trades)[i]
    ensures forall b :: 0 <= b <= a ==> Name(trades[b]) != Names(trades)[j]
    decreases |trades|
  {
    var before := trades[..|trades| - 1];
    if j < |Names(before)| {
      a := NamesInOrder(before, i, j);
    } else {
      var name := Names(trades)[j];
      NamesComplete(before);
      assert Names(trades)[i] in Names(before) && name !in Names(before);
      a := SomeTrade(before, Names(trades)[i]);
      forall b | 0 <= b <= a ensures Name(trades[b]) != name {
        assert before[b] == trades[b] && before[b] in before;
        TallyPositive(before, before[b]);
      }
    }
  }

  /** The counting loop: a dictionary of tallies, and the order in which its keys were inserted. */
  method CountPatterns(trades: seq<Trade>) returns (counts: map<string, nat>, order: seq<string>)
    ensures Tallies(counts, trades) && order == Names(trades)
    ensures forall name :: name in order <==> name in counts
  {
    counts, order := map[], [];
    for i := 0 to |trades|
      invariant Tallies(counts, trades[..i]) && order == Names(trades[..i])
      invariant forall name :: name in order <==> name in counts
    {
      var name := Name(trades[i]);
      ghost var before := counts;
      if name !in counts {
        order := order + [name];
      }
      counts := counts[name := (if name in counts then counts[name] else 0) + 1];
      ghost var grown := trades[..i + 1];
      assert grown == trades[..i] + [trades[i]] && grown[..|grown| - 1] == trades[..i];
      forall n ensures HoldsTally(counts, grown, n) {
        TallyAppend(trades[..i], trades[i], n);
        assert HoldsTally(before, trades[..i], n);
      }
    }
    assert trades[..|trades|] == trades;
  }

  // The listing by falling count

  /** The names with their tallies. */
  function Tallied(names: seq<string>, trades: seq<Trade>): seq<(string, nat)> {
    if names == [] then [] else [(names[0], Tally(trades, names[0]))] + Tallied(names[1..], trades)
  }

  /** Before the first item that does not have a larger count. */
  function Placed(item: (string, nat), items: seq<(string, nat)>): seq<(string, nat)> {
    if items == [] || items[0].1 <= item.1 then [item] + items else [items[0]] + Placed(item, items[1..])
  }

  /** A stable sort by falling count. */
  function ByCount(items: seq<(string, nat)>): seq<(string, nat)> {
    if items == [] then [] else Placed(items[0], ByCount(items[1..]))
  }

  ghost predicate Falling(items: seq<(string, nat)>) {
    forall i, j :: 0 <= i < j < |items| ==> items[i].1 >= items[j].1
  }

  /** The items with a count, in their order. */
  function WithCount(items: seq<(string, nat)>, count: nat): seq<(string, nat)> {
    if items == [] then [] else (if items[0].1 == count then [items[0]] else []) + WithCount(items[1..], count)
  }

  lemma WithCountCons(item: (string, nat), rest: seq<(string, nat)>, count: nat)
    ensures WithCount([item] + rest, count) == (if item.1 == count then [item] else []) + WithCount(rest, count)
  {
    assert ([item] + rest)[1..] == rest;
  }

  lemma {:induction false} PlacedFalls(item: (string, nat), items: seq<(string, nat)>)
    requires Falling(items)
    ensures Falling(Placed(item, items))
    ensures forall x :: x in Placed(item, items) ==> x == item || x in items
  {
    if items != [] && items[0].1 > item.1 {
      var rest := Placed(item, items[1..]);
      PlacedFalls(item, items[1..]);
      assert forall x :: x in rest ==> x.1 <= items[0].1;
    }
  }

  lemma {:induction false} PlacedIsStable(item: (string, nat), items: seq<(string, nat)>, count: nat)
    ensures WithCount(Placed(item, items), count) == WithCount([item] + items, count)
  {
    if items != [] && items[0].1 > item.1 {
      PlacedIsStable(item, items[1..], count);
      WithCountCons(items[0], Placed(item, items[1..]), count);
      WithCountCons(item, items[1..], count);
      WithCountCons(item, items, count);
      SwapParts(if items[0].1 == count then [items[0]] else [], if item.1 == count then [item] else [], WithCount(items[1..], count));
    }
  }

  lemma SwapParts(x: seq<(string, nat)>, y: seq<(string, nat)>, rest: seq<(string, nat)>)
    requires x == [] || y == []
    ensures x + (y + rest) == y + (x + rest)
  {}

  /** The listing falls by count, and items of equal count keep their order. */
  lemma {:induction false} ByCountSorts(items: seq<(string, nat)>, count: nat)
    ensures Falling(ByCount(items))
    ensures WithCount(ByCount(items), count) == WithCount(items, count)
  {
    if items != [] {
      ByCountSorts(items[1..], count);
      PlacedFalls(items[0], ByCount(items[1..]));
      PlacedIsStable(items[0], ByCount(items[1..]), count);
      WithCountCons(items[0], ByCount(items[1..]), count);
    }
  }

  function CountSum(items: seq<(string, nat)>): nat {
    if items == [] then 0 else items[0].1 + CountSum(items[1..])
  }

  lemma {:induction false} PlacedSum(item: (string, nat), items: seq<(string, nat)>)
    ensures CountSum(Placed(item, items)) == item.1 + CountSum(items)
  {
    if items == [] || items[0].1 <= item.1 {
      assert ([item] + items)[1..] == items;
    } else {
      PlacedSum(item, items[1..]);
      assert ([items[0]] + Placed(item, items[1..]))[1..] == Placed(item, items[1..]);
    }
  }

  lemma {:induction false} ByCountSum(items: seq<(string, nat)>)
    ensures CountSum(ByCount(items)) == CountSum(items)
  {
    if items != [] {
      ByCountSum(items[1..]);
      PlacedSum(items[0], ByCount(items[1..]));
    }
  }

  /** The sum of the tallies of a set of names. */
  ghost function TallySum(trades: seq<Trade>, names: set<string>): nat
    decreases |trades|
  {
    if trades == [] then 0
    else (if Name(trades[0]) in names then 1 else 0) + TallySum(trades[1..], names)
  }

  ghost function Elements(names: seq<string>): set<string> {
    set n | n in names
  }

  lemma {:induction false} TallySumSplits(trades: seq<Trade>, name: string, rest: set<string>)
    requires name !in rest
    ensures TallySum(trades, {name} + rest) == Tally(trades, name) + TallySum(trades, rest)
    decreases |trades|
  {
    if trades != [] {
      TallySumSplits(trades[1..], name, rest);
    }
  }

  lemma {:induction false} TallySumOfNone(trades: seq<Trade>)
    ensures TallySum(trades, {}) == 0
  {
    if trades != [] {
      TallySumOfNone(trades[1..]);
    }
  }

  lemma {:induction false} TalliedSum(names: seq<string>, trades: seq<Trade>)
    requires Distinct(names)
    ensures CountSum(Tallied(names, trades)) == TallySum(trades, Elements(names))
  {
    if names == [] {
      assert Elements(names) == {};
      TallySumOfNone(trades);
    } else {
      var rest := names[1..];
      TalliedSum(rest, trades);
      assert Elements(names) == {names[0]} + Elements(rest);
      TallySumSplits(trades, names[0], Elements(rest));
      assert Tallied(names, trades)[1..] == Tallied(rest, trades);
    }
  }

  lemma {:induction false} TallySumOfAll(trades: seq<Trade>, names: set<string>)
    requires forall t :: t in trades ==> Name(t) in names
    ensures TallySum(trades, names) == |trades|
    decreases |trades|
  {
    if trades != [] {
      assert trades[0] in trades;
      TallySumOfAll(trades[1..], names);
    }
  }

  /** The listing of a summary: every pattern of the trades with its tally. */
  function Listing(trades: seq<Trade>): seq<(string, nat)> {
    ByCount(Tallied(Names(trades), trades))
  }

  /** The counts of the listed patterns add up to the number of trades. */
  lemma CountsAddUp(trades: seq<Trade>)
    ensures CountSum(Listing(trades)) == |trades|
  {
    NamesComplete(trades);
    ByCountSum(Tallied(Names(trades), trades));
    TalliedSum(Names(trades), trades);
    forall t | t in trades ensures Name(t) in Elements(Names(trades)) {
      TallyPositive(trades, t);
    }
    TallySumOfAll(trades, Elements(Names(trades)));
  }

  /** The pairs of the dictionary, in insertion order. */
  function Items(counts: map<string, nat>, order: seq<string>): seq<(string, nat)>
    requires forall n :: n in order ==> n in counts
  {
    if order == [] then [] else [(order[0], counts[order[0]])] + Items(counts, order[1..])
  }

  lemma {:induction false} ItemsAreTallied(counts: map<string, nat>, order: seq<string>, trades: seq<Trade>)
    requires Tallies(counts, trades) && forall n :: n in order ==> n in counts
    ensures Items(counts, order) == Tallied(order, trades)
  {
    if order != [] {
      assert HoldsTally(counts, trades, order[0]);
      ItemsAreTallied(counts, order[1..], trades);
    }
  }

  lemma {:induction false} TallyPositive(trades: seq<Trade>, t: Trade)
    requires t in trades
    ensures Tally(trades, Name(t)) > 0
    decreases |trades|
  {
    if trades[0] != t {
      TallyPositive(trades[1..], t);
    }
  }

  // The summary

  /** The gross win per unit of gross loss, and zero without a loss. */
  ghost predicate PerLoss(factor: real, rs: seq<real>) {
    if Losers(rs) == [] then factor == 0.0 else factor * GrossLoss(rs) == GrossWin(rs)
  }

  lemma ProfitFactorPerLoss(rs: seq<real>)
    ensures PerLoss(ProfitFactor(rs), rs)
  {
    GrossAmounts(rs);
    if GrossLoss(rs) > 0.0 {
      Divided(GrossWin(rs), GrossLoss(rs));
    }
  }

  /** A figure per trade, times the number of trades, is the amount. */
  ghost predicate PerTrade(figure: real, rs: seq<real>, amount: real) {
    figure * |rs| as real == amount
  }

  /** The sum of the squared distances from a mean. */
  function Spread(rs: seq<real>, mean: real): real {
    if rs == [] then 0.0 else (rs[0] - mean) * (rs[0] - mean) + Spread(rs[1..], mean)
  }

  lemma Square(x: real)
    ensures x * x >= 0.0
    ensures x * x == 0.0 <==> x == 0.0
  {
    var y := Abs(x);
    assert y * y == x * x;
    if x != 0.0 {
      ProductIsPositive(x * x, y, y);
    }
  }

  /** All values are x. */
  ghost predicate Only(rs: seq<real>, x: real) {
    forall r :: r in rs ==> r == x
  }

  lemma OnlySplits(rs: seq<real>, x: real)
    requires rs != []
    ensures Only(rs, x) <==> rs[0] == x && Only(rs[1..], x)
  {
    assert rs == [rs[0]] + rs[1..];
    if Only(rs, x) {
      assert rs[0] in rs;
      forall r | r in rs[1..] ensures r == x {
        assert r in rs;
      }
    }
  }

  /** There is no spread exactly when all values are the mean. */
  lemma {:induction false} NoSpreadExactly(rs: seq<real>, mean: real)
    ensures Spread(rs, mean) >= 0.0
    ensures Spread(rs, mean) == 0.0 <==> Only(rs, mean)
  {
    if rs != [] {
      Square(rs[0] - mean);
      NoSpreadExactly(rs[1..], mean);
      OnlySplits(rs, mean);
    }
  }

  function Mean(rs: seq<real>): real
    requires rs != []
  {
    Sum(rs) / |rs| as real
  }

  /** The sample deviation, with one degree of freedom less than there are values. */
  ghost predicate SampleDeviation(deviation: real, rs: seq<real>) {
    deviation >= 0.0 && (|rs| > 1 ==> deviation * deviation * (|rs| - 1) as real == Spread(rs, Mean(rs)))
  }

  /**
   The square of the ratio of mean and sample deviation, with the sign of the mean; zero for fewer
   than two values or without spread.
   */
  ghost predicate SharpeOk(sharpe: real, rs: seq<real>) {
    if |rs| <= 1 || Only(rs, Mean(rs)) then sharpe == 0.0
    else
      && sharpe * sharpe * Spread(rs, Mean(rs)) == Mean(rs) * Mean(rs) * (|rs| - 1) as real
      && (sharpe > 0.0 <==> Equity(rs, |rs|) > 0.0) && (sharpe < 0.0 <==> Equity(rs, |rs|) < 0.0)
  }

  function Sharpe(avg: real, deviation: real): real {
    if deviation > 0.0 then avg / deviation else 0.0
  }

  lemma RatioSign(x: real, y: real, q: real)
    requires y > 0.0 && q * y == x
    ensures (q > 0.0 <==> x > 0.0) && (q < 0.0 <==> x < 0.0)
  {
    if q > 0.0 {
      PositiveProduct(q, y);
    } else if q < 0.0 {
      PositiveProduct(-q, y);
      assert -q * y == -x;
    }
  }

  lemma SquaredRatio(q: real, d: real, avg: real, m: real, spread: real)
    requires q * d == avg && d * d * m == spread
    ensures q * q * spread == avg * avg * m
  {
    assert q * q * (d * d * m) == (q * d) * (q * d) * m;
  }

  lemma SharpeFromDeviation(rs: seq<real>, deviation: real)
    requires rs != [] && SampleDeviation(deviation, rs)
    ensures SharpeOk(if |rs| > 1 then Sharpe(Mean(rs), deviation) else 0.0, rs)
  {
    if |rs| > 1 {
      var n, mean, spread := (|rs| - 1) as real, Mean(rs), Spread(rs, Mean(rs));
      NoSpreadExactly(rs, mean);
      if deviation > 0.0 {
        SpreadOfDeviation(deviation, n, spread);
        Divided(mean, deviation);
        SquaredRatio(Sharpe(mean, deviation), deviation, mean, n, spread);
        RatioSign(mean, deviation, Sharpe(mean, deviation));
        MeanSign(rs);
      }
    }
  }

  lemma SpreadOfDeviation(d: real, n: real, spread: real)
    requires d > 0.0 && n > 0.0 && d * d * n == spread
    ensures spread > 0.0
  {
    ProductIsPositive(d * d, d, d);
    ProductIsPositive(spread, d * d, n);
  }

  lemma MeanSign(rs: seq<real>)
    requires rs != []
    ensures (Mean(rs) > 0.0 <==> Equity(rs, |rs|) > 0.0) && (Mean(rs) < 0.0 <==> Equity(rs, |rs|) < 0.0)
  {
    assert rs[..|rs|] == rs;
    Divided(Sum(rs), |rs| as real);
    RatioSign(Sum(rs), |rs| as real, Mean(rs));
  }

  /** What the figures of a summary say about the valid trades. */
  ghost predicate Consistent(s: Summary, rs: seq<real>) {
    && s.simulatedTrades == |rs|
    && PerTrade(s.winRate, rs, |Winners(rs)| as real)
    && PerTrade(s.avgR, rs, GrossWin(rs) - GrossLoss(rs))
    && GrossWin(rs) - GrossLoss(rs) == Equity(rs, |rs|)
    && SharpeOk(s.sharpe, rs)
    && WorstFall(rs, s.maxDrawdown)
    && PerLoss(s.profitFactor, rs)
    && (s.profitFactor > 1.0 <==> Losers(rs) != [] && Equity(rs, |rs|) > 0.0)
  }

  lemma Ratios(rs: seq<real>)
    requires rs != []
    ensures PerTrade(|Winners(rs)| as real / |rs| as real, rs, |Winners(rs)| as real)
    ensures PerTrade(Sum(rs) / |rs| as real, rs, GrossWin(rs) - GrossLoss(rs))
    ensures GrossWin(rs) - GrossLoss(rs) == Equity(rs, |rs|)
  {
    GrossAmounts(rs);
    assert rs[..|rs|] == rs;
    Divided(|Winners(rs)| as real, |rs| as real);
    Divided(Sum(rs), |rs| as real);
  }

  /** The figures of a non-empty list. */
  lemma FiguresConsistent(s: Summary, rs: seq<real>)
    requires rs != [] && s.simulatedTrades == |rs|
    requires s.winRate == |Winners(rs)| as real / |rs| as real && s.avgR == Sum(rs) / |rs| as real
    requires s.profitFactor == ProfitFactor(rs) && s.maxDrawdown == MaxDrawdown(rs) && SharpeOk(s.sharpe, rs)
    ensures Consistent(s, rs)
  {
    Ratios(rs);
    DrawdownIsWorstFall(rs);
    ProfitFactorAboveOne(rs);
    ProfitFactorPerLoss(rs);
    assert rs[..|rs|] == rs;
  }

  lemma NoFigures(s: Summary, rs: seq<real>)
    requires rs == [] && s.simulatedTrades == 0
    requires s.winRate == s.avgR == s.sharpe == s.profitFactor == s.maxDrawdown == 0.0
    ensures Consistent(s, rs)
  {
    EmptyCurve(rs);
    GrossAmounts(rs);
  }

  /** `deviation` is the square root that the source's library takes of the sample variance. */
  method Summarize(trades: seq<Trade>, signalCount: Option<int>, deviation: real) returns (s: Summary)
    requires SampleDeviation(deviation, Multiples(Valid(trades)))
    ensures s.trades == Valid(trades)
    ensures Consistent(s, Multiples(Valid(trades)))
    ensures s.patterns == Listing(Valid(trades))
    ensures s.totalSignals == match signalCount case Some(n) => n case None => |Valid(trades)|
  {
    var valid := Valid(trades);
    var total := |valid|;
    var signals := match signalCount case Some(n) => n case None => total;
    var rs := Multiples(valid);
    if total == 0 {
      s := Summary(signals, 0, 0.0, 0.0, 0.0, 0.0, 0.0, [], []);
      NoFigures(s, rs);
      return;
    }
    var winRate := |Winners(rs)| as real / |rs| as real;
    var avgR := Sum(rs) / |rs| as real;
    var std := if total > 1 then deviation else 0.0;
    var sharpe := Sharpe(avgR, std);
    SharpeFromDeviation(rs, deviation);
    var counts, order := CountPatterns(valid);
    ItemsAreTallied(counts, order, valid);
    s := Summary(signals, total, winRate, avgR, sharpe, ProfitFactor(rs), MaxDrawdown(rs), ByCount(Items(counts, order)), valid);
    FiguresConsistent(s, rs);
  }

  lemma EmptyCurve(rs: seq<real>)
    requires rs == []
    ensures WorstFall(rs, 0.0) && Equity(rs, 0) == 0.0
  {
    assert Fall(rs, 0, 0) == 0.0;
  }
}
