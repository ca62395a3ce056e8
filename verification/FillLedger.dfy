/**
 The fill accounting of src/agent_c_ibkr.py: execution and commission callbacks, which the broker
 may deliver more than once and in any order, update per-order totals and the entry price and
 costs of the matching position.
 */
module FillLedger {
  import opened Collections
  import opened Options
  import opened Reals

  type Id = string

  /** An execution callback; `price` falls back on `avgPrice` when it is zero. */
  datatype Fill = Fill(execId: Id, orderId: Id, parentId: Id, symbol: string, bought: bool, shares: real, price: real, avgPrice: real) {
    function EffectivePrice(): real {
      if price != 0.0 then price else avgPrice
    }

    function Notional(): real {
      shares * EffectivePrice()
    }
  }

  datatype Report = Report(execId: Id, orderId: Id, parentId: Id, symbol: string, commission: real)

  datatype Callback = Executed(fill: Fill) | Charged(report: Report)

  datatype Economics = Economics(quantity: real, notional: real, avgPrice: real, commission: real)

  const NOTHING := Economics(0.0, 0.0, 0.0, 0.0)

  /** The in-memory state of the connection; `latest` names the order whose totals a symbol shows. */
  datatype Ledger = Ledger(seenFills: set<Id>, seenReports: set<Id>, orders: map<Id, Economics>, latest: map<string, Id>) {
    function Order(o: Id): Economics {
      if o in orders then orders[o] else NOTHING
    }
  }

  const EMPTY := Ledger({}, {}, map[], map[])

  function AddFill(e: Economics, f: Fill): Economics {
    var quantity, notional := e.quantity + f.shares, e.notional + f.Notional();
    Economics(quantity, notional, if quantity > 0.0 then notional / quantity else e.avgPrice, e.commission)
  }

  predicate Repeated(seen: set<Id>, id: Id) {
    id != "" && id in seen
  }

  function Remember(seen: set<Id>, id: Id): set<Id> {
    if id != "" then seen + {id} else seen
  }

  function AfterFill(l: Ledger, f: Fill): Ledger {
    if Repeated(l.seenFills, f.execId) then l
    else l.(seenFills := Remember(l.seenFills, f.execId),
            orders := l.orders[f.orderId := AddFill(l.Order(f.orderId), f)],
            latest := l.latest[f.symbol := f.orderId])
  }

  function AfterReport(l: Ledger, r: Report): Ledger {
    if Repeated(l.seenReports, r.execId) then l
    else
      var e := l.Order(r.orderId);
      l.(seenReports := Remember(l.seenReports, r.execId),
         orders := l.orders[r.orderId := e.(commission := e.commission + r.commission)])
  }

  function After(l: Ledger, c: Callback): Ledger {
    match c
    case Executed(f) => AfterFill(l, f)
    case Charged(r) => AfterReport(l, r)
  }

  function Deliver(callbacks: seq<Callback>): Ledger {
    if callbacks == [] then EMPTY else After(Deliver(callbacks[..|callbacks| - 1]), callbacks[|callbacks| - 1])
  }

  // ---------------------------------------------------------------------------------------
  // Each execution counted once: a book of distinct ids

  datatype Entry = Entry(order: Id, amount: real)
  datatype Measure = Quantity | Notional | Commission

  /** What a callback adds to a measure, under its id. */
  function Posting(c: Callback, m: Measure): Option<(Id, Entry)> {
    match (c, m)
    case (Executed(f), Quantity) => Some((f.execId, Entry(f.orderId, f.shares)))
    case (Executed(f), Notional) => Some((f.execId, Entry(f.orderId, f.Notional())))
    case (Charged(r), Commission) => Some((r.execId, Entry(r.orderId, r.commission)))
    case (_, _) => None
  }

  /** The first posting of every id. */
  function Book(callbacks: seq<Callback>, m: Measure): map<Id, Entry> {
    if callbacks == [] then map[]
    else
      var before, posting := Book(callbacks[..|callbacks| - 1], m), Posting(callbacks[|callbacks| - 1], m);
      if posting.None? || posting.value.0 in before then before else before[posting.value.0 := posting.value.1]
  }

  function AmountFor(e: Entry, o: Id): real {
    if e.order == o then e.amount else 0.0
  }

  /** The sum over the distinct ids of a book, for one order. */
  ghost function SumFor(book: map<Id, Entry>, o: Id): real
    decreases |book|
  {
    if book == map[] then 0.0
    else
      var id :| id in book;
      AmountFor(book[id], o) + SumFor(book - {id}, o)
  }

  /** The sum does not depend on which id is taken first. */
  lemma {:induction false} SumTakesAny(book: map<Id, Entry>, o: Id, id: Id)
    requires id in book
    ensures SumFor(book, o) == AmountFor(book[id], o) + SumFor(book - {id}, o)
    decreases |book|
  {
    var first :| first in book && SumFor(book, o) == AmountFor(book[first], o) + SumFor(book - {first}, o);
    if first != id {
      SumTakesAny(book - {first}, o, id);
      SumTakesAny(book - {id}, o, first);
      assert book - {first} - {id} == book - {id} - {first};
    }
  }

  lemma SumOfNew(book: map<Id, Entry>, o: Id, id: Id, e: Entry)
    requires id !in book
    ensures SumFor(book[id := e], o) == SumFor(book, o) + AmountFor(e, o)
  {
    SumTakesAny(book[id := e], o, id);
    assert book[id := e] - {id} == book;
  }

  function Total(e: Economics, m: Measure): real {
    match m
    case Quantity => e.quantity
    case Notional => e.notional
    case Commission => e.commission
  }

  ghost predicate Identified(callbacks: seq<Callback>) {
    forall c :: c in callbacks ==> if c.Executed? then c.fill.execId != "" else c.report.execId != ""
  }

  /** The seen sets hold exactly the ids of the books. */
  lemma {:induction false} SeenIsBooked(callbacks: seq<Callback>)
    requires Identified(callbacks)
    ensures Deliver(callbacks).seenFills == Book(callbacks, Quantity).Keys == Book(callbacks, Notional).Keys
    ensures Deliver(callbacks).seenReports == Book(callbacks, Commission).Keys
  {
    if callbacks != [] {
      var before, last := callbacks[..|callbacks| - 1], callbacks[|callbacks| - 1];
      assert last in callbacks && forall c :: c in before ==> c in callbacks;
      SeenIsBooked(before);
    }
  }

  /** For every delivery, the totals of an order are the sums over the distinct ids. */
  lemma {:induction false} TotalsAreSums(callbacks: seq<Callback>, o: Id, m: Measure)
    requires Identified(callbacks)
    ensures Total(Deliver(callbacks).Order(o), m) == SumFor(Book(callbacks, m), o)
  {
    if callbacks != [] {
      var before, last := callbacks[..|callbacks| - 1], callbacks[|callbacks| - 1];
      assert last in callbacks && forall c :: c in before ==> c in callbacks;
      TotalsAreSums(before, o, m);
      SeenIsBooked(before);
      var posting := Posting(last, m);
      if posting.Some? && posting.value.0 !in Book(before, m) {
        SumOfNew(Book(before, m), o, posting.value.0, posting.value.1);
      }
    }
  }

  function IdOf(c: Callback): Id {
    match c
    case Executed(f) => f.execId
    case Charged(r) => r.execId
  }

  /** Callbacks of the same kind with the same id are copies of one another. */
  ghost predicate CopiesOnly(callbacks: seq<Callback>) {
    forall c, d :: c in callbacks && d in callbacks && c.Executed? == d.Executed? && IdOf(c) == IdOf(d) ==> c == d
  }

  ghost predicate Booked(callbacks: seq<Callback>, m: Measure, id: Id, e: Entry) {
    exists c :: c in callbacks && Posting(c, m) == Some((id, e))
  }

  lemma {:induction false} BookComesFromPostings(callbacks: seq<Callback>, m: Measure, id: Id)
    requires id in Book(callbacks, m)
    ensures Booked(callbacks, m, id, Book(callbacks, m)[id])
  {
    var before, last := callbacks[..|callbacks| - 1], callbacks[|callbacks| - 1];
    assert callbacks == before + [last];
    if id in Book(before, m) {
      BookComesFromPostings(before, m, id);
      var c :| c in before && Posting(c, m) == Some((id, Book(before, m)[id]));
      assert c in callbacks;
    } else {
      assert last in callbacks && Posting(last, m) == Some((id, Book(callbacks, m)[id]));
    }
  }

  lemma {:induction false} PostingsAreBooked(callbacks: seq<Callback>, m: Measure, c: Callback)
    requires c in callbacks && Posting(c, m).Some?
    ensures Posting(c, m).value.0 in Book(callbacks, m)
  {
    var before, last := callbacks[..|callbacks| - 1], callbacks[|callbacks| - 1];
    assert callbacks == before + [last];
    if c in before {
      PostingsAreBooked(before, m, c);
    }
  }

  /** With copies only, the book holds exactly what was posted. */
  lemma BookHoldsPostings(callbacks: seq<Callback>, m: Measure, id: Id, e: Entry)
    requires CopiesOnly(callbacks)
    ensures Booked(callbacks, m, id, e) <==> Holds(Book(callbacks, m), id, e)
  {
    if Booked(callbacks, m, id, e) {
      var c :| c in callbacks && Posting(c, m) == Some((id, e));
      PostingsAreBooked(callbacks, m, c);
      BookComesFromPostings(callbacks, m, id);
      var d :| d in callbacks && Posting(d, m) == Some((id, Book(callbacks, m)[id]));
      assert c == d;
    } else if id in Book(callbacks, m) {
      BookComesFromPostings(callbacks, m, id);
    }
  }

  /** Two deliveries of the same callbacks, each any number of times and in any order, agree on every total. */
  lemma DeliveryOrderIrrelevant(callbacks: seq<Callback>, again: seq<Callback>, o: Id, m: Measure)
    requires Identified(callbacks) && CopiesOnly(callbacks)
    requires forall c :: c in callbacks <==> c in again
    ensures Total(Deliver(again).Order(o), m) == Total(Deliver(callbacks).Order(o), m)
  {
    forall id, e ensures Holds(Book(callbacks, m), id, e) <==> Holds(Book(again, m), id, e) {
      BookHoldsPostings(callbacks, m, id, e);
      BookHoldsPostings(again, m, id, e);
    }
    SameEntries(Book(callbacks, m), Book(again, m));
    assert Book(callbacks, m) == Book(again, m);
    TotalsAreSums(callbacks, o, m);
    TotalsAreSums(again, o, m);
  }

  predicate Holds(book: map<Id, Entry>, id: Id, e: Entry) {
    id in book && book[id] == e
  }

  lemma SameEntries(a: map<Id, Entry>, b: map<Id, Entry>)
    requires forall id, e :: Holds(a, id, e) <==> Holds(b, id, e)
    ensures a == b
  {
    forall id ensures id in a ==> id in b && b[id] == a[id] ensures id in b ==> id in a {
      if id in a {
        assert Holds(a, id, a[id]);
      }
      if id in b {
        assert Holds(b, id, b[id]);
      }
    }
  }

  // ---------------------------------------------------------------------------------------
  // The average price

  ghost predicate FillsBetween(callbacks: seq<Callback>, o: Id, lo: real, hi: real) {
    forall c :: c in callbacks && c.Executed? && c.fill.orderId == o ==>
      c.fill.shares > 0.0 && lo <= c.fill.EffectivePrice() <= hi
  }

  ghost predicate Within(quantity: real, notional: real, lo: real, hi: real) {
    lo * quantity <= notional <= hi * quantity
  }

  ghost predicate Weighted(e: Economics, lo: real, hi: real) {
    && e.quantity >= 0.0 && Within(e.quantity, e.notional, lo, hi)
    && (e.quantity > 0.0 ==> e.avgPrice == e.notional / e.quantity && lo <= e.avgPrice <= hi)
  }

  lemma WeightedStep(e: Economics, f: Fill, lo: real, hi: real)
    requires Weighted(e, lo, hi) && f.shares > 0.0 && lo <= f.EffectivePrice() <= hi
    ensures Weighted(AddFill(e, f), lo, hi)
  {
    var e' := AddFill(e, f);
    AveragesIn(e.quantity, f.shares, f.EffectivePrice(), e.notional, f.Notional(), lo, hi, e'.quantity, e'.notional, e'.avgPrice);
  }

  lemma AveragesIn(q: real, shares: real, price: real, n: real, m: real, lo: real, hi: real, q': real, n': real, avg: real)
    requires q >= 0.0 && Within(q, n, lo, hi) && shares > 0.0 && lo <= price <= hi && m == shares * price
    requires q' == q + shares && n' == n + m && avg == n' / q'
    ensures Within(q', n', lo, hi) && lo <= avg <= hi
  {
    ProductBounds(shares, price, lo, hi, m);
    SumBounds(q, shares, n, m, lo, hi, q', n');
    QuotientBounds(n', q', lo, hi, avg);
  }

  lemma ProductBounds(shares: real, price: real, lo: real, hi: real, notional: real)
    requires shares > 0.0 && lo <= price <= hi && notional == shares * price
    ensures Within(shares, notional, lo, hi)
  {
    assert (price - lo) * shares >= 0.0 && (hi - price) * shares >= 0.0;
  }

  lemma SumBounds(q: real, r: real, n: real, m: real, lo: real, hi: real, q': real, n': real)
    requires Within(q, n, lo, hi) && Within(r, m, lo, hi) && q' == q + r && n' == n + m
    ensures Within(q', n', lo, hi)
  {}

  lemma QuotientBounds(notional: real, quantity: real, lo: real, hi: real, avg: real)
    requires quantity > 0.0 && Within(quantity, notional, lo, hi) && avg == notional / quantity
    ensures lo <= avg <= hi
  {
    assert avg * quantity == notional;
    assert (avg - lo) * quantity >= 0.0 && (hi - avg) * quantity >= 0.0;
    SignOfFactor(avg - lo, quantity);
    SignOfFactor(hi - avg, quantity);
  }

  lemma SignOfFactor(x: real, quantity: real)
    requires quantity > 0.0 && x * quantity >= 0.0
    ensures x >= 0.0
  {
    if x < 0.0 {
      NegativeProduct(x, quantity);
    }
  }

  lemma NegativeProduct(x: real, y: real)
    requires x < 0.0 < y
    ensures x * y < 0.0
  {}

  lemma {:induction false} OrderWeighted(callbacks: seq<Callback>, o: Id, lo: real, hi: real)
    requires FillsBetween(callbacks, o, lo, hi)
    ensures Weighted(Deliver(callbacks).Order(o), lo, hi)
  {
    if callbacks != [] {
      var before, last := callbacks[..|callbacks| - 1], callbacks[|callbacks| - 1];
      assert callbacks == before + [last] && last in callbacks;
      OrderWeighted(before, o, lo, hi);
      if last.Executed? && last.fill.orderId == o {
        WeightedStep(Deliver(before).Order(o), last.fill, lo, hi);
      }
    }
  }

  /** A seen execution id comes from an earlier copy. */
  lemma RepeatedFillWasDelivered(before: seq<Callback>, all: seq<Callback>, c: Callback)
    requires Identified(before) && CopiesOnly(all) && c in all && c.Executed? && forall d :: d in before ==> d in all
    requires Repeated(Deliver(before).seenFills, c.fill.execId)
    ensures c in before
  {
    SeenIsBooked(before);
    BookComesFromPostings(before, Quantity, c.fill.execId);
    var d :| d in before && Posting(d, Quantity) == Some((c.fill.execId, Book(before, Quantity)[c.fill.execId]));
    assert d == c;
  }

  /** An order with a fill has a positive quantity. */
  lemma {:induction false} FilledOrderHasQuantity(callbacks: seq<Callback>, c: Callback, lo: real, hi: real)
    requires Identified(callbacks) && CopiesOnly(callbacks) && c in callbacks && c.Executed?
    requires FillsBetween(callbacks, c.fill.orderId, lo, hi)
    ensures Deliver(callbacks).Order(c.fill.orderId).quantity > 0.0
  {
    var o, before, last := c.fill.orderId, callbacks[..|callbacks| - 1], callbacks[|callbacks| - 1];
    assert callbacks == before + [last] && last in callbacks;
    OrderWeighted(before, o, lo, hi);
    if Repeated(Deliver(before).seenFills, c.fill.execId) {
      RepeatedFillWasDelivered(before, callbacks, c);
    }
    if c in before {
      FilledOrderHasQuantity(before, c, lo, hi);
    }
  }

  /** The average price of a filled order is notional over quantity and lies between the lowest and highest fill. */
  lemma AveragePriceBetweenFills(callbacks: seq<Callback>, c: Callback, lo: real, hi: real)
    requires Identified(callbacks) && CopiesOnly(callbacks) && c in callbacks && c.Executed?
    requires FillsBetween(callbacks, c.fill.orderId, lo, hi)
    ensures var e := Deliver(callbacks).Order(c.fill.orderId);
            e.quantity > 0.0 && e.avgPrice == e.notional / e.quantity && lo <= e.avgPrice <= hi
  {
    FilledOrderHasQuantity(callbacks, c, lo, hi);
    OrderWeighted(callbacks, c.fill.orderId, lo, hi);
  }

  // ---------------------------------------------------------------------------------------
  // Positions

  predicate StartsAt(s: string, part: string, i: nat)
    requires i <= |s|
  {
    part <= s[i..]
  }

  /** The substring test of the source. */
  predicate Contains(s: string, part: string) {
    exists i :: 0 <= i <= |s| && StartsAt(s, part, i)
  }

  /** What identifies a position to a callback, and its signed quantity. */
  datatype Holding = Holding(symbol: string, tradeId: Id, qty: real) {
    predicate Matches(symbol: string, orderId: Id, parentId: Id) {
      this.symbol == symbol &&
      (tradeId == orderId || tradeId == parentId || Contains(tradeId, "ADOPTED-" + orderId) || Contains(tradeId, "ADOPTED-" + parentId))
    }

    predicate IsEntry(bought: bool) {
      (bought && qty > 0.0) || (!bought && qty < 0.0)
    }

    predicate IsEntryCommission(orderId: Id) {
      tradeId == orderId || Contains(tradeId, "ADOPTED-" + orderId)
    }
  }

  /** The prices and costs of a position; the first entry fill fixes the intended price and quantity. */
  datatype Costs = Costs(entryPrice: real, slippage: real, commission: real, improvement: real,
                         intended: Option<real>, entryQty: Option<real>) {
    function Intended(): real {
      if intended.Some? then intended.value else entryPrice
    }

    function Signed(qty: real): real {
      if entryQty.Some? then entryQty.value else qty
    }
  }

  /** The entry price moves to the average; what that costs against the intended price is recorded. */
  function Aligned(c: Costs, qty: real, avg: real): Costs {
    var intended, signed := c.Intended(), c.Signed(qty);
    var adverse := Max(if signed > 0.0 then avg - intended else intended - avg, 0.0);
    var better := Max(if signed > 0.0 then intended - avg else avg - intended, 0.0);
    Costs(avg, adverse * Abs(signed), c.commission, better * Abs(signed), Some(intended), Some(signed))
  }

  /** Slippage less improvement is the signed quantity times the move from the intended price. */
  ghost predicate CostIdentity(c: Costs, signed: real, intended: real) {
    && c.slippage >= 0.0 && c.improvement >= 0.0 && (c.slippage == 0.0 || c.improvement == 0.0)
    && c.slippage - c.improvement == signed * (c.entryPrice - intended)
  }

  lemma AlignedMeetsIdentity(c: Costs, qty: real, avg: real)
    ensures CostIdentity(Aligned(c, qty, avg), c.Signed(qty), c.Intended())
  {
    var intended, signed := c.Intended(), c.Signed(qty);
    SlippageIdentity(signed, avg - intended, Max(if signed > 0.0 then avg - intended else intended - avg, 0.0),
                     Max(if signed > 0.0 then intended - avg else avg - intended, 0.0));
  }

  lemma SlippageIdentity(signed: real, move: real, adverse: real, better: real)
    requires adverse == Max(if signed > 0.0 then move else -move, 0.0)
    requires better == Max(if signed > 0.0 then -move else move, 0.0)
    ensures adverse * Abs(signed) - better * Abs(signed) == signed * move
    ensures adverse * Abs(signed) >= 0.0 && better * Abs(signed) >= 0.0
    ensures adverse * Abs(signed) == 0.0 || better * Abs(signed) == 0.0
  {}

  /** The position a callback concerns: the first that matches. */
  function FirstMatch(who: seq<Holding>, symbol: string, orderId: Id, parentId: Id, n: nat): (r: Option<nat>)
    requires n <= |who|
    ensures r.Some? ==> n <= r.value < |who| && who[r.value].Matches(symbol, orderId, parentId)
    decreases |who| - n
  {
    if n == |who| then None
    else if who[n].Matches(symbol, orderId, parentId) then Some(n)
    else FirstMatch(who, symbol, orderId, parentId, n + 1)
  }

  /** The fill enters position k. */
  predicate Enters(who: seq<Holding>, k: nat, f: Fill)
    requires k < |who|
  {
    FirstMatch(who, f.symbol, f.orderId, f.parentId, 0) == Some(k) && who[k].IsEntry(f.bought)
  }

  /** The report charges the entry of position k. */
  predicate ChargesEntry(who: seq<Holding>, k: nat, r: Report)
    requires k < |who|
  {
    FirstMatch(who, r.symbol, r.orderId, r.parentId, 0) == Some(k) && who[k].IsEntryCommission(r.orderId)
  }

  /** What one callback does to position k of a connection with this ledger. */
  function PositionStep(who: seq<Holding>, k: nat, l: Ledger, costs: Costs, c: Callback): Costs
    requires k < |who|
  {
    match c
    case Executed(f) =>
      if Repeated(l.seenFills, f.execId) || !Enters(who, k, f) then costs
      else Aligned(costs, who[k].qty, AfterFill(l, f).Order(f.orderId).avgPrice)
    case Charged(r) =>
      if Repeated(l.seenReports, r.execId) || !ChargesEntry(who, k, r) then costs
      else costs.(commission := costs.commission + r.commission)
  }

  /** Position k after a delivery to a new connection. */
  function CostsAfter(who: seq<Holding>, k: nat, initial: Costs, callbacks: seq<Callback>): Costs
    requires k < |who|
  {
    if callbacks == [] then initial
    else
      var before, last := callbacks[..|callbacks| - 1], callbacks[|callbacks| - 1];
      PositionStep(who, k, Deliver(before), CostsAfter(who, k, initial, before), last)
  }

  // ---------------------------------------------------------------------------------------
  // One callback in terms of identities, sides and prices

  /** The trade id of an adopted position carries the order id. */
  ghost predicate Mentions(tradeId: string, orderId: Id) {
    exists before, after :: tradeId == before + ("ADOPTED-" + orderId) + after
  }

  ghost predicate Concerns(h: Holding, symbol: string, orderId: Id, parentId: Id) {
    h.symbol == symbol &&
    (h.tradeId == orderId || h.tradeId == parentId || Mentions(h.tradeId, orderId) || Mentions(h.tradeId, parentId))
  }

  /** Position k is the first that a callback for these ids concerns. */
  ghost predicate Concerned(who: seq<Holding>, k: nat, symbol: string, orderId: Id, parentId: Id)
    requires k < |who|
  {
    Concerns(who[k], symbol, orderId, parentId) && forall j :: 0 <= j < k ==> !Concerns(who[j], symbol, orderId, parentId)
  }

  /** The fill trades in the direction of the position: a purchase for a long, a sale for a short. */
  ghost predicate SameSide(h: Holding, f: Fill) {
    if f.bought then h.qty > 0.0 else h.qty < 0.0
  }

  ghost predicate Entering(who: seq<Holding>, k: nat, f: Fill)
    requires k < |who|
  {
    Concerned(who, k, f.symbol, f.orderId, f.parentId) && SameSide(who[k], f)
  }

  ghost predicate EntryCharge(who: seq<Holding>, k: nat, r: Report)
    requires k < |who|
  {
    && Concerned(who, k, r.symbol, r.orderId, r.parentId)
    && (who[k].tradeId == r.orderId || Mentions(who[k].tradeId, r.orderId))
  }

  lemma ContainsIsMention(tradeId: string, orderId: Id)
    ensures Contains(tradeId, "ADOPTED-" + orderId) <==> Mentions(tradeId, orderId)
  {
    var part := "ADOPTED-" + orderId;
    if Contains(tradeId, part) {
      var i :| 0 <= i <= |tradeId| && StartsAt(tradeId, part, i);
      assert tradeId == tradeId[..i] + part + tradeId[i + |part|..];
    }
    if Mentions(tradeId, orderId) {
      var before, after :| tradeId == before + part + after;
      assert tradeId[|before|..] == part + after;
      assert StartsAt(tradeId, part, |before|);
    }
  }

  lemma MatchesIsConcern(h: Holding, symbol: string, orderId: Id, parentId: Id)
    ensures h.Matches(symbol, orderId, parentId) <==> Concerns(h, symbol, orderId, parentId)
  {
    ContainsIsMention(h.tradeId, orderId);
    ContainsIsMention(h.tradeId, parentId);
  }

  lemma {:induction false} FirstMatchIs(who: seq<Holding>, symbol: string, orderId: Id, parentId: Id, n: nat, k: nat)
    requires n <= k < |who|
    ensures FirstMatch(who, symbol, orderId, parentId, n) == Some(k) <==>
            Concerns(who[k], symbol, orderId, parentId) && forall j :: n <= j < k ==> !Concerns(who[j], symbol, orderId, parentId)
    decreases |who| - n
  {
    MatchesIsConcern(who[n], symbol, orderId, parentId);
    if n < k {
      FirstMatchIs(who, symbol, orderId, parentId, n + 1, k);
    }
  }

  lemma EntersIsEntering(who: seq<Holding>, k: nat, f: Fill)
    requires k < |who|
    ensures Enters(who, k, f) <==> Entering(who, k, f)
  {
    FirstMatchIs(who, f.symbol, f.orderId, f.parentId, 0, k);
  }

  lemma ChargesIsEntryCharge(who: seq<Holding>, k: nat, r: Report)
    requires k < |who|
    ensures ChargesEntry(who, k, r) <==> EntryCharge(who, k, r)
  {
    FirstMatchIs(who, r.symbol, r.orderId, r.parentId, 0, k);
    ContainsIsMention(who[k].tradeId, r.orderId);
  }

  /** What a new fill adds to its order; every other order stays. */
  lemma FillAdds(l: Ledger, f: Fill)
    requires !(f.execId != "" && f.execId in l.seenFills)
    ensures var before, after, price := l.Order(f.orderId), AfterFill(l, f).Order(f.orderId), if f.price != 0.0 then f.price else f.avgPrice;
            && after.quantity == before.quantity + f.shares && after.notional == before.notional + f.shares * price
            && after.commission == before.commission
            && (if after.quantity > 0.0 then after.avgPrice * after.quantity == after.notional else after.avgPrice == before.avgPrice)
    ensures forall o :: o != f.orderId ==> AfterFill(l, f).Order(o) == l.Order(o)
    ensures f.symbol in AfterFill(l, f).latest && AfterFill(l, f).latest[f.symbol] == f.orderId
  {
    var after := AfterFill(l, f).Order(f.orderId);
    if after.quantity > 0.0 {
      Divided(after.notional, after.quantity);
    }
  }

  /**
   A new fill moves the first position it concerns to the average of its order, if it trades in the
   direction of the position: the intended price and quantity stay what they first were.  A fill
   against the position, or one that concerns another, leaves it as it is.
   */
  lemma FillMoves(who: seq<Holding>, k: nat, l: Ledger, costs: Costs, f: Fill)
    requires k < |who| && !(f.execId != "" && f.execId in l.seenFills)
    ensures var after, order := PositionStep(who, k, l, costs, Executed(f)), AfterFill(l, f).Order(f.orderId);
            var intended := if costs.intended.Some? then costs.intended.value else costs.entryPrice;
            var signed := if costs.entryQty.Some? then costs.entryQty.value else who[k].qty;
            if Concerned(who, k, f.symbol, f.orderId, f.parentId) && SameSide(who[k], f) then
              && (order.quantity > 0.0 ==> after.entryPrice * order.quantity == order.notional)
              && after.commission == costs.commission && after.intended == Some(intended) && after.entryQty == Some(signed)
              && CostIdentity(after, signed, intended)
            else after == costs
  {
    EntersIsEntering(who, k, f);
    FillAdds(l, f);
    AlignedMeetsIdentity(costs, who[k].qty, AfterFill(l, f).Order(f.orderId).avgPrice);
  }

  /** A new report charges the first position it concerns, if it is for the entry order, and its own order. */
  lemma ReportCharges(who: seq<Holding>, k: nat, l: Ledger, costs: Costs, r: Report)
    requires k < |who| && !(r.execId != "" && r.execId in l.seenReports)
    ensures PositionStep(who, k, l, costs, Charged(r)) ==
            if EntryCharge(who, k, r) then costs.(commission := costs.commission + r.commission) else costs
    ensures var before := l.Order(r.orderId);
            AfterReport(l, r).Order(r.orderId) == before.(commission := before.commission + r.commission)
    ensures forall o :: o != r.orderId ==> AfterReport(l, r).Order(o) == l.Order(o)
  {
    ChargesIsEntryCharge(who, k, r);
  }

  /** A copy of a callback that carries an id changes nothing. */
  lemma CopiesChangeNothing(who: seq<Holding>, k: nat, l: Ledger, costs: Costs, c: Callback)
    requires k < |who| && IdOf(c) != "" && IdOf(c) in if c.Executed? then l.seenFills else l.seenReports
    ensures After(l, c) == l && PositionStep(who, k, l, costs, c) == costs
  {}

  // ---------------------------------------------------------------------------------------
  // A whole delivery and the position it fills

  predicate FillOf(c: Callback, o: Id) {
    c.Executed? && c.fill.orderId == o
  }

  ghost predicate Filled(callbacks: seq<Callback>, o: Id) {
    exists c :: c in callbacks && FillOf(c, o)
  }

  /** The entry fills of position k are the fills of order o, and its entry commissions are those of o. */
  ghost predicate OwnOrder(who: seq<Holding>, k: nat, o: Id, callbacks: seq<Callback>)
    requires k < |who|
  {
    forall c :: c in callbacks ==> Owns(who, k, o, c)
  }

  ghost predicate Owns(who: seq<Holding>, k: nat, o: Id, c: Callback)
    requires k < |who|
  {
    match c
    case Executed(f) => Entering(who, k, f) <==> f.orderId == o
    case Charged(r) => EntryCharge(who, k, r) <==> r.orderId == o
  }

  ghost predicate Shares(callbacks: seq<Callback>, o: Id) {
    forall c :: c in callbacks && FillOf(c, o) ==> c.fill.shares > 0.0
  }

  ghost predicate RatioOk(e: Economics) {
    e.quantity >= 0.0 && (e.quantity > 0.0 ==> e.avgPrice == e.notional / e.quantity)
  }

  lemma RatioStep(e: Economics, f: Fill)
    requires RatioOk(e) && f.shares > 0.0
    ensures RatioOk(AddFill(e, f)) && AddFill(e, f).quantity > 0.0
  {}

  /** The average of an order is notional over quantity once the order is filled. */
  lemma {:induction false} AverageIsRatio(callbacks: seq<Callback>, o: Id)
    requires Identified(callbacks) && CopiesOnly(callbacks) && Shares(callbacks, o)
    ensures RatioOk(Deliver(callbacks).Order(o))
    ensures Filled(callbacks, o) ==> Deliver(callbacks).Order(o).quantity > 0.0
  {
    if callbacks != [] {
      var before, last := callbacks[..|callbacks| - 1], callbacks[|callbacks| - 1];
      assert callbacks == before + [last] && last in callbacks;
      AverageIsRatio(before, o);
      FilledBefore(callbacks, o);
      if FillOf(last, o) {
        RatioStep(Deliver(before).Order(o), last.fill);
      }
    }
  }

  /** A fill that is not the last callback, or that is repeated, was delivered before. */
  lemma FilledBefore(callbacks: seq<Callback>, o: Id)
    requires Identified(callbacks) && CopiesOnly(callbacks) && callbacks != []
    ensures var before, last := callbacks[..|callbacks| - 1], callbacks[|callbacks| - 1];
            && (Filled(before, o) || FillOf(last, o) <==> Filled(callbacks, o))
            && (FillOf(last, o) && Repeated(Deliver(before).seenFills, last.fill.execId) ==> Filled(before, o))
  {
    var before, last := callbacks[..|callbacks| - 1], callbacks[|callbacks| - 1];
    assert callbacks == before + [last] && last in callbacks;
    if Filled(before, o) {
      var c :| c in before && FillOf(c, o);
      assert c in callbacks;
    }
    if Filled(callbacks, o) && !FillOf(last, o) {
      var c :| c in callbacks && FillOf(c, o);
      assert c in before;
    }
    if FillOf(last, o) && Repeated(Deliver(before).seenFills, last.fill.execId) {
      RepeatedFillWasDelivered(before, callbacks, last);
    }
  }

  /** Where the position stands: at the order's average, or untouched, apart from its commission. */
  function Expected(initial: Costs, qty: real, filled: bool, e: Economics): Costs {
    (if filled then Aligned(initial, qty, e.avgPrice) else initial).(commission := initial.commission + e.commission)
  }

  /** A new alignment replaces the one before it. */
  lemma AlignedAgain(initial: Costs, qty: real, filled: bool, e: Economics, avg: real)
    ensures Aligned(Expected(initial, qty, filled, e), qty, avg) ==
            Expected(initial, qty, true, e.(avgPrice := avg))
  {}

  lemma ChargedMore(initial: Costs, qty: real, filled: bool, e: Economics, commission: real)
    ensures var costs := Expected(initial, qty, filled, e);
            costs.(commission := costs.commission + commission) ==
            Expected(initial, qty, filled, e.(commission := e.commission + commission))
  {}

  /** Of the order only the average price and the commission show in the position. */
  lemma ExpectedDepends(initial: Costs, qty: real, filled: bool, e: Economics, e': Economics)
    requires e.commission == e'.commission && (filled ==> e.avgPrice == e'.avgPrice)
    ensures Expected(initial, qty, filled, e) == Expected(initial, qty, filled, e')
  {}

  lemma FillFollows(who: seq<Holding>, k: nat, o: Id, initial: Costs, l: Ledger, filled: bool, f: Fill)
    requires k < |who| && Owns(who, k, o, Executed(f))
    requires f.orderId == o && Repeated(l.seenFills, f.execId) ==> filled
    ensures PositionStep(who, k, l, Expected(initial, who[k].qty, filled, l.Order(o)), Executed(f)) ==
            Expected(initial, who[k].qty, filled || f.orderId == o, AfterFill(l, f).Order(o))
  {
    var e, e' := l.Order(o), AfterFill(l, f).Order(o);
    EntersIsEntering(who, k, f);
    if f.orderId == o && !Repeated(l.seenFills, f.execId) {
      AlignedAgain(initial, who[k].qty, filled, e, e'.avgPrice);
      ExpectedDepends(initial, who[k].qty, true, e.(avgPrice := e'.avgPrice), e');
    }
  }

  lemma ReportFollows(who: seq<Holding>, k: nat, o: Id, initial: Costs, l: Ledger, filled: bool, r: Report)
    requires k < |who| && Owns(who, k, o, Charged(r))
    ensures PositionStep(who, k, l, Expected(initial, who[k].qty, filled, l.Order(o)), Charged(r)) ==
            Expected(initial, who[k].qty, filled, AfterReport(l, r).Order(o))
  {
    ChargesIsEntryCharge(who, k, r);
    ChargedMore(initial, who[k].qty, filled, l.Order(o), r.commission);
  }

  lemma UnfilledExpected(initial: Costs, qty: real)
    ensures Expected(initial, qty, false, NOTHING) == initial
  {}

  lemma {:induction false} PositionFollowsOrder(who: seq<Holding>, k: nat, o: Id, initial: Costs, callbacks: seq<Callback>)
    requires k < |who| && Identified(callbacks) && CopiesOnly(callbacks) && OwnOrder(who, k, o, callbacks)
    ensures CostsAfter(who, k, initial, callbacks) ==
            Expected(initial, who[k].qty, Filled(callbacks, o), Deliver(callbacks).Order(o))
  {
    if callbacks == [] {
      UnfilledExpected(initial, who[k].qty);
    } else {
      var before, last := callbacks[..|callbacks| - 1], callbacks[|callbacks| - 1];
      EarlierCallbacks(who, k, o, callbacks);
      PositionFollowsOrder(who, k, o, initial, before);
      FilledBefore(callbacks, o);
      match last
      case Executed(f) => FillFollows(who, k, o, initial, Deliver(before), Filled(before, o), f);
      case Charged(r) => ReportFollows(who, k, o, initial, Deliver(before), Filled(before, o), r);
    }
  }

  lemma EarlierCallbacks(who: seq<Holding>, k: nat, o: Id, callbacks: seq<Callback>)
    requires k < |who| && Identified(callbacks) && CopiesOnly(callbacks) && OwnOrder(who, k, o, callbacks) && callbacks != []
    ensures var before := callbacks[..|callbacks| - 1];
            Identified(before) && CopiesOnly(before) && OwnOrder(who, k, o, before)
    ensures Owns(who, k, o, callbacks[|callbacks| - 1])
  {
    assert forall c :: c in callbacks[..|callbacks| - 1] ==> c in callbacks;
    assert callbacks[|callbacks| - 1] in callbacks;
  }

  lemma SettledCosts(initial: Costs, qty: real, e: Economics)
    ensures var costs := Expected(initial, qty, true, e);
            && costs.entryPrice == e.avgPrice && costs.commission == initial.commission + e.commission
            && costs.intended == Some(initial.Intended()) && costs.entryQty == Some(initial.Signed(qty))
            && CostIdentity(costs, initial.Signed(qty), initial.Intended())
  {
    AlignedMeetsIdentity(initial, qty, e.avgPrice);
  }

  /**
   After any duplicated and reordered delivery with a fill of its order, a position stands at the
   sum of the notionals over the sum of the quantities of the distinct fills; the intended price and
   quantity are those from before the delivery, and the costs meet the identity in them.
   */
  lemma DeliverySettlesPosition(who: seq<Holding>, k: nat, o: Id, initial: Costs, callbacks: seq<Callback>)
    requires k < |who| && Identified(callbacks) && CopiesOnly(callbacks) && OwnOrder(who, k, o, callbacks)
    requires Shares(callbacks, o) && Filled(callbacks, o)
    ensures SumFor(Book(callbacks, Quantity), o) > 0.0
    ensures var costs, qty := CostsAfter(who, k, initial, callbacks), initial.Signed(who[k].qty);
            && costs.entryPrice == SumFor(Book(callbacks, Notional), o) / SumFor(Book(callbacks, Quantity), o)
            && costs.commission == initial.commission + SumFor(Book(callbacks, Commission), o)
            && costs.intended == Some(initial.Intended()) && costs.entryQty == Some(qty)
            && CostIdentity(costs, qty, initial.Intended())
  {
    PositionFollowsOrder(who, k, o, initial, callbacks);
    OrderIsSums(callbacks, o);
    SettledCosts(initial, who[k].qty, Deliver(callbacks).Order(o));
  }

  lemma OrderIsSums(callbacks: seq<Callback>, o: Id)
    requires Identified(callbacks) && CopiesOnly(callbacks) && Shares(callbacks, o) && Filled(callbacks, o)
    ensures var e := Deliver(callbacks).Order(o);
            && SumFor(Book(callbacks, Quantity), o) > 0.0
            && e.avgPrice == SumFor(Book(callbacks, Notional), o) / SumFor(Book(callbacks, Quantity), o)
            && e.commission == SumFor(Book(callbacks, Commission), o)
  {
    AverageIsRatio(callbacks, o);
    TotalsAreSums(callbacks, o, Quantity);
    TotalsAreSums(callbacks, o, Notional);
    TotalsAreSums(callbacks, o, Commission);
  }

  /** The fill closes position k: it concerns it and trades against it. */
  ghost predicate Closing(who: seq<Holding>, k: nat, f: Fill)
    requires k < |who|
  {
    Concerned(who, k, f.symbol, f.orderId, f.parentId) && if f.bought then who[k].qty < 0.0 else who[k].qty > 0.0
  }

  /** The entry order o of position k, in its direction, with whatever exit orders against it, and their charges. */
  ghost predicate RoundTrip(who: seq<Holding>, k: nat, o: Id, callbacks: seq<Callback>)
    requires k < |who|
  {
    forall c :: c in callbacks ==>
      match c
      case Executed(f) =>
        if f.orderId == o then Entering(who, k, f)
        else Closing(who, k, f) || !Concerned(who, k, f.symbol, f.orderId, f.parentId)
      case Charged(r) => EntryCharge(who, k, r) <==> r.orderId == o
  }

  /** Through a whole round trip, exits included, a position stands at the average of its entry order. */
  lemma RoundTripSettles(who: seq<Holding>, k: nat, o: Id, initial: Costs, callbacks: seq<Callback>)
    requires k < |who| && Identified(callbacks) && CopiesOnly(callbacks) && RoundTrip(who, k, o, callbacks)
    requires Shares(callbacks, o) && Filled(callbacks, o)
    ensures var costs, quantity := CostsAfter(who, k, initial, callbacks), SumFor(Book(callbacks, Quantity), o);
            && quantity > 0.0 && costs.entryPrice == SumFor(Book(callbacks, Notional), o) / quantity
            && costs.commission == initial.commission + SumFor(Book(callbacks, Commission), o)
  {
    forall c | c in callbacks ensures Owns(who, k, o, c) {
    }
    DeliverySettlesPosition(who, k, o, initial, callbacks);
  }

  /** Two deliveries of the same callbacks, in any order and number of copies, leave the same costs. */
  lemma DeliveryOrderIrrelevantToPosition(who: seq<Holding>, k: nat, o: Id, initial: Costs,
                                          callbacks: seq<Callback>, again: seq<Callback>)
    requires k < |who| && Identified(callbacks) && CopiesOnly(callbacks) && OwnOrder(who, k, o, callbacks)
    requires Shares(callbacks, o) && forall c :: c in callbacks <==> c in again
    ensures CostsAfter(who, k, initial, again) == CostsAfter(who, k, initial, callbacks)
  {
    SameOrder(callbacks, again, o);
    PositionFollowsOrder(who, k, o, initial, callbacks);
    PositionFollowsOrder(who, k, o, initial, again);
    ExpectedDepends(initial, who[k].qty, Filled(callbacks, o), Deliver(callbacks).Order(o), Deliver(again).Order(o));
  }

  lemma SameOrder(callbacks: seq<Callback>, again: seq<Callback>, o: Id)
    requires Identified(callbacks) && CopiesOnly(callbacks) && Shares(callbacks, o)
    requires forall c :: c in callbacks <==> c in again
    ensures Filled(callbacks, o) <==> Filled(again, o)
    ensures var e, e' := Deliver(callbacks).Order(o), Deliver(again).Order(o);
            e.commission == e'.commission && (Filled(callbacks, o) ==> e.avgPrice == e'.avgPrice)
  {
    AverageIsRatio(callbacks, o);
    AverageIsRatio(again, o);
    DeliveryOrderIrrelevant(callbacks, again, o, Quantity);
    DeliveryOrderIrrelevant(callbacks, again, o, Notional);
    DeliveryOrderIrrelevant(callbacks, again, o, Commission);
  }

  // ---------------------------------------------------------------------------------------
  // The callbacks of the source

  class Position {
    const holding: Holding
    var entryPrice: real
    var slippageCost: real
    var commissionCost: real
    var improvement: real
    var intendedEntry: Option<real>
    var entryQty: Option<real>

    constructor (symbol: string, tradeId: Id, qty: real, entryPrice: real)
      ensures holding == Holding(symbol, tradeId, qty)
      ensures State() == Costs(entryPrice, 0.0, 0.0, 0.0, None, None)
    {
      holding, this.entryPrice := Holding(symbol, tradeId, qty), entryPrice;
      slippageCost, commissionCost, improvement := 0.0, 0.0, 0.0;
      intendedEntry, entryQty := None, None;
    }

    function State(): Costs
      reads this
    {
      Costs(entryPrice, slippageCost, commissionCost, improvement, intendedEntry, entryQty)
    }

    method AlignEntry(avgPrice: real)
      modifies this
      ensures State() == Aligned(old(State()), holding.qty, avgPrice)
    {
      if intendedEntry.None? {
        intendedEntry := Some(entryPrice);
      }
      if entryQty.None? {
        entryQty := Some(holding.qty);
      }
      var intended, signed := intendedEntry.value, entryQty.value;
      entryPrice := avgPrice;
      var adverse, better;
      if signed > 0.0 {
        adverse, better := Max(entryPrice - intended, 0.0), Max(intended - entryPrice, 0.0);
      } else {
        adverse, better := Max(intended - entryPrice, 0.0), Max(entryPrice - intended, 0.0);
      }
      slippageCost := adverse * Abs(signed);
      improvement := better * Abs(signed);
    }
  }

  class Connection {
    var seenFills: set<Id>
    var seenReports: set<Id>
    var orders: map<Id, Economics>
    var latest: map<string, Id>
    const positions: seq<Position>

    constructor (positions: seq<Position>)
      requires Distinct(positions)
      ensures State() == EMPTY && this.positions == positions && Valid()
    {
      seenFills, seenReports, orders, latest := {}, {}, map[], map[];
      this.positions := positions;
    }

    /** The book of positions lists every position once. */
    ghost predicate Valid() {
      Distinct(positions)
    }

    function State(): Ledger
      reads this
    {
      Ledger(seenFills, seenReports, orders, latest)
    }

    function Who(): (who: seq<Holding>)
      ensures |who| == |positions| && forall k :: 0 <= k < |who| ==> who[k] == positions[k].holding
    {
      seq(|positions|, k requires 0 <= k < |positions| => positions[k].holding)
    }

    /** The first position that matches is aligned, if the fill enters it. */
    method AlignFirstMatch(f: Fill, avg: real)
      requires Valid()
      modifies positions
      ensures forall k: nat :: k < |positions| ==>
                positions[k].State() ==
                if Enters(Who(), k, f) then Aligned(old(positions[k].State()), positions[k].holding.qty, avg)
                else old(positions[k].State())
      ensures forall k: nat :: k < |positions| ==>
                if Entering(Who(), k, f) then positions[k].entryPrice == avg else positions[k].State() == old(positions[k].State())
    {
      forall k: nat | k < |positions| ensures Enters(Who(), k, f) <==> Entering(Who(), k, f) {
        EntersIsEntering(Who(), k, f);
      }
      var i := 0;
      while i < |positions|
        invariant 0 <= i <= |positions|
        invariant FirstMatch(Who(), f.symbol, f.orderId, f.parentId, 0) == FirstMatch(Who(), f.symbol, f.orderId, f.parentId, i)
        invariant forall p :: p in positions ==> unchanged(p)
      {
        if positions[i].holding.Matches(f.symbol, f.orderId, f.parentId) {
          if positions[i].holding.IsEntry(f.bought) {
            positions[i].AlignEntry(avg);
          }
          return;
        }
        i := i + 1;
      }
    }

    method OnExecDetails(f: Fill)
      requires Valid()
      modifies this, positions
      ensures State() == After(old(State()), Executed(f))
      ensures forall k: nat :: k < |positions| ==>
                positions[k].State() == PositionStep(Who(), k, old(State()), old(positions[k].State()), Executed(f))
    {
      if f.execId != "" && f.execId in seenFills {
        return;
      }
      if f.execId != "" {
        seenFills := seenFills + {f.execId};
      }
      var e := if f.orderId in orders then orders[f.orderId] else NOTHING;
      e := e.(quantity := e.quantity + f.shares);
      e := e.(notional := e.notional + f.Notional());
      if e.quantity > 0.0 {
        e := e.(avgPrice := e.notional / e.quantity);
      }
      orders := orders[f.orderId := e];
      latest := latest[f.symbol := f.orderId];
      assert State() == AfterFill(old(State()), f);
      AlignFirstMatch(f, e.avgPrice);
    }

    /** The first position that matches is charged, if the report charges its entry. */
    method ChargeFirstMatch(r: Report)
      requires Valid()
      modifies positions
      ensures forall k: nat :: k < |positions| ==>
                positions[k].State() ==
                var before := old(positions[k].State());
                if ChargesEntry(Who(), k, r) then before.(commission := before.commission + r.commission) else before
    {
      var i := 0;
      while i < |positions|
        invariant 0 <= i <= |positions|
        invariant FirstMatch(Who(), r.symbol, r.orderId, r.parentId, 0) == FirstMatch(Who(), r.symbol, r.orderId, r.parentId, i)
        invariant forall p :: p in positions ==> unchanged(p)
      {
        if positions[i].holding.Matches(r.symbol, r.orderId, r.parentId) {
          if positions[i].holding.IsEntryCommission(r.orderId) {
            positions[i].commissionCost := positions[i].commissionCost + r.commission;
          }
          return;
        }
        i := i + 1;
      }
    }

    method OnCommissionReport(r: Report)
      requires Valid()
      modifies this, positions
      ensures State() == After(old(State()), Charged(r))
      ensures forall k: nat :: k < |positions| ==>
                positions[k].State() == PositionStep(Who(), k, old(State()), old(positions[k].State()), Charged(r))
    {
      if r.execId != "" && r.execId in seenReports {
        return;
      }
      if r.execId != "" {
        seenReports := seenReports + {r.execId};
      }
      var e := if r.orderId in orders then orders[r.orderId] else NOTHING;
      orders := orders[r.orderId := e.(commission := e.commission + r.commission)];
      ChargeFirstMatch(r);
    }
  }
}
