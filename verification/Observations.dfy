/**
 The forward-return matcher of src/agent_d.py: every stored observation is paired, for each of
 three horizons, with the first later sample of its symbol that is old enough, and its status
 moves from PENDING through PARTIAL to RESOLVED or EXPIRED.
 */
module Observations {
  import opened Options
  import opened Reals

  datatype Status = Pending | Partial | Resolved | Expired
  datatype Horizon = FiveMinutes | FifteenMinutes | SixtyMinutes

  datatype Forward = Forward(five: Option<real>, fifteen: Option<real>, sixty: Option<real>) {
    function At(h: Horizon): Option<real> {
      match h
      case FiveMinutes => five
      case FifteenMinutes => fifteen
      case SixtyMinutes => sixty
    }

    predicate Complete() {
      five.Some? && fifteen.Some? && sixty.Some?
    }

    predicate Started() {
      five.Some? || fifteen.Some? || sixty.Some?
    }
  }

  type Price = p: real | p > 0.0 witness 1.0

  /** A row with a readable timestamp and a positive price; rows without are never matched. */
  datatype Row = Row(epoch: real, price: Price, status: Status, forward: Forward)

  function MinAge(h: Horizon): real {
    match h
    case FiveMinutes => 300.0
    case FifteenMinutes => 900.0
    case SixtyMinutes => 3600.0
  }

  function MaxAge(h: Horizon): real {
    match h
    case FiveMinutes => 480.0
    case FifteenMinutes => 1200.0
    case SixtyMinutes => 4200.0
  }

  function ForwardReturn(base: Price, current: Price): real {
    (current - base) / base * 100.0
  }

  // ---------------------------------------------------------------------------------------
  // What one run of the matcher computes for the rows of one symbol

  /** The rows of a symbol in (epoch, id) order. */
  ghost predicate Sorted(rows: seq<Row>) {
    forall i, k :: 0 <= i < k < |rows| ==> rows[i].epoch <= rows[k].epoch
  }

  /** The first row from `lo` on whose epoch reaches `target`, or the number of rows. */
  function FirstAt(rows: seq<Row>, lo: nat, target: real): (j: nat)
    requires lo <= |rows|
    ensures lo <= j <= |rows|
    ensures j < |rows| ==> rows[j].epoch >= target
    decreases |rows| - lo
  {
    if lo == |rows| || rows[lo].epoch >= target then lo else FirstAt(rows, lo + 1, target)
  }

  lemma {:induction false} FirstAtIsFirst(rows: seq<Row>, lo: nat, target: real, k: nat)
    requires lo <= k < |rows| && rows[k].epoch >= target
    ensures FirstAt(rows, lo, target) <= k
    decreases k - lo
  {
    if lo < k {
      FirstAtIsFirst(rows, lo + 1, target, k);
    }
  }

  /** The sample that fills a horizon of row i: the first that is old enough, if it is not too old. */
  function Found(rows: seq<Row>, i: nat, h: Horizon): Option<Row>
    requires i < |rows|
  {
    InTolerance(rows, FirstAt(rows, i + 1, rows[i].epoch + MinAge(h)), rows[i].epoch + MaxAge(h))
  }

  function InTolerance(rows: seq<Row>, j: nat, latest: real): Option<Row> {
    if j < |rows| && rows[j].epoch <= latest then Some(rows[j]) else None
  }

  function ReturnFrom(base: Row, found: Option<Row>): Option<real> {
    match found
    case Some(row) => Some(ForwardReturn(base.price, row.price))
    case None => None
  }

  function Match(rows: seq<Row>, i: nat, h: Horizon): Option<real>
    requires i < |rows|
  {
    ReturnFrom(rows[i], Found(rows, i, h))
  }

  function Fill(rows: seq<Row>, i: nat, h: Horizon): Option<real>
    requires i < |rows|
  {
    if rows[i].forward.At(h).Some? then rows[i].forward.At(h) else Match(rows, i, h)
  }

  function StatusOf(forward: Forward, age: real): Status {
    if forward.Complete() then Resolved
    else if age > MaxAge(SixtyMinutes) then Expired
    else if forward.Started() then Partial
    else Pending
  }

  /** Row i after a run over these rows. */
  function Matured(rows: seq<Row>, i: nat): (r: Row)
    requires i < |rows|
    ensures r.epoch == rows[i].epoch && r.price == rows[i].price
  {
    var row := rows[i];
    if row.status == Resolved || row.status == Expired then row
    else
      var forward := Forward(Fill(rows, i, FiveMinutes), Fill(rows, i, FifteenMinutes), Fill(rows, i, SixtyMinutes));
      row.(forward := forward, status := StatusOf(forward, rows[|rows| - 1].epoch - row.epoch))
  }

  function Backfilled(rows: seq<Row>): (r: seq<Row>)
    ensures |r| == |rows| && forall i :: 0 <= i < |rows| ==> r[i] == Matured(rows, i)
  {
    seq(|rows|, i requires 0 <= i < |rows| => Matured(rows, i))
  }

  /** A row as it is inserted. */
  function Fresh(row: Row): Row {
    row.(status := Pending, forward := Forward(None, None, None))
  }

  function AllFresh(rows: seq<Row>): (r: seq<Row>)
    ensures |r| == |rows| && forall i :: 0 <= i < |rows| ==> r[i] == Fresh(rows[i])
  {
    seq(|rows|, i requires 0 <= i < |rows| => Fresh(rows[i]))
  }

  // ---------------------------------------------------------------------------------------
  // A run in terms of the samples and their prices

  /** The first later sample at least `shortest` seconds on, if it is at most `longest` on, gives the return in percent. */
  ghost predicate Measures(rows: seq<Row>, i: nat, shortest: real, longest: real, value: Option<real>)
    requires i < |rows|
  {
    match value
    case None => forall j :: i < j < |rows| ==> !(shortest <= rows[j].epoch - rows[i].epoch <= longest)
    case Some(x) => exists j :: i < j < |rows| && MeasuredAt(rows, i, shortest, longest, x, j)
  }

  ghost predicate MeasuredAt(rows: seq<Row>, i: nat, shortest: real, longest: real, x: real, j: nat)
    requires i < |rows| && j < |rows|
  {
    && shortest <= rows[j].epoch - rows[i].epoch <= longest
    && (forall k :: i < k < j ==> rows[k].epoch - rows[i].epoch < shortest)
    && rows[i].price * (100.0 + x) == 100.0 * rows[j].price
  }

  /** A recorded return stays, an open one is measured. */
  ghost predicate Recorded(rows: seq<Row>, i: nat, before: Option<real>, shortest: real, longest: real, value: Option<real>)
    requires i < |rows|
  {
    if before.Some? then value == before else Measures(rows, i, shortest, longest, value)
  }

  /** What the returns and the age of a row make of its status. */
  ghost predicate Graded(forward: Forward, age: real, status: Status) {
    var complete := forward.five != None && forward.fifteen != None && forward.sixty != None;
    var some := forward.five != None || forward.fifteen != None || forward.sixty != None;
    && (status == Resolved <==> complete)
    && (status == Expired <==> !complete && age > 4200.0)
    && (status == Partial <==> !complete && age <= 4200.0 && some)
  }

  /** Row i of these rows, as a run leaves it: closed rows as they are, open ones measured after 5, 15 and 60 minutes. */
  ghost predicate Matures(rows: seq<Row>, i: nat, after: Row)
    requires i < |rows|
  {
    var row := rows[i];
    if row.status == Resolved || row.status == Expired then after == row
    else
      && after.epoch == row.epoch && after.price == row.price
      && Recorded(rows, i, row.forward.five, 300.0, 480.0, after.forward.five)
      && Recorded(rows, i, row.forward.fifteen, 900.0, 1200.0, after.forward.fifteen)
      && Recorded(rows, i, row.forward.sixty, 3600.0, 4200.0, after.forward.sixty)
      && Graded(after.forward, rows[|rows| - 1].epoch - row.epoch, after.status)
  }

  ghost predicate AllMature(rows: seq<Row>, after: seq<Row>) {
    |after| == |rows| && forall i :: 0 <= i < |rows| ==> Matures(rows, i, after[i])
  }

  lemma ReturnIs(base: Price, current: Price)
    ensures base * (100.0 + ForwardReturn(base, current)) == 100.0 * current
  {
    Divided(current - base, base);
    ReturnScaled(base, current, (current - base) / base);
  }

  lemma ReturnScaled(base: real, current: real, ratio: real)
    requires ratio * base == current - base
    ensures base * (100.0 + ratio * 100.0) == 100.0 * current
  {
    assert base * (100.0 + ratio * 100.0) == 100.0 * base + 100.0 * (ratio * base);
  }

  lemma {:induction false} BeforeFirst(rows: seq<Row>, lo: nat, target: real, k: nat)
    requires lo <= |rows| && lo <= k < FirstAt(rows, lo, target)
    ensures rows[k].epoch < target
    decreases k - lo
  {
    if lo < k {
      BeforeFirst(rows, lo + 1, target, k);
    }
  }

  lemma MatchMeasures(rows: seq<Row>, i: nat, h: Horizon)
    requires Sorted(rows) && i < |rows|
    ensures Measures(rows, i, MinAge(h), MaxAge(h), Match(rows, i, h))
  {
    var target := rows[i].epoch + MinAge(h);
    var j := FirstAt(rows, i + 1, target);
    FoundExists(rows, i, h);
    if Match(rows, i, h).Some? {
      ReturnIs(rows[i].price, rows[j].price);
      forall k | i < k < j ensures rows[k].epoch - rows[i].epoch < MinAge(h) {
        BeforeFirst(rows, i + 1, target, k);
      }
      assert MeasuredAt(rows, i, MinAge(h), MaxAge(h), Match(rows, i, h).value, j);
    }
  }

  lemma RowMatures(rows: seq<Row>, i: nat)
    requires Sorted(rows) && i < |rows|
    ensures Matures(rows, i, Matured(rows, i))
  {
    MatchMeasures(rows, i, FiveMinutes);
    MatchMeasures(rows, i, FifteenMinutes);
    MatchMeasures(rows, i, SixtyMinutes);
  }

  /** A run over sorted rows leaves every row as its samples say. */
  lemma BackfillMatures(rows: seq<Row>)
    requires Sorted(rows)
    ensures AllMature(rows, Backfilled(rows))
  {
    forall i | 0 <= i < |rows| ensures Matures(rows, i, Backfilled(rows)[i]) {
      RowMatures(rows, i);
    }
  }

  /** A recorded return is positive exactly if the price has risen. */
  lemma RiseExactly(rows: seq<Row>, i: nat, shortest: real, longest: real, x: real, j: nat)
    requires i < |rows| && j < |rows| && MeasuredAt(rows, i, shortest, longest, x, j)
    ensures (x > 0.0 <==> rows[j].price > rows[i].price) && (x < 0.0 <==> rows[j].price < rows[i].price)
  {
    assert rows[i].price * x == 100.0 * (rows[j].price - rows[i].price);
    if x > 0.0 {
      PositiveProduct(rows[i].price, x);
    } else if x < 0.0 {
      PositiveProduct(rows[i].price, -x);
      assert rows[i].price * -x == -(rows[i].price * x);
    }
  }

  // ---------------------------------------------------------------------------------------
  // A match, once possible, never changes

  /** A horizon is matched exactly when some later sample falls inside its tolerance. */
  lemma MatchExists(rows: seq<Row>, i: nat, h: Horizon)
    requires Sorted(rows) && i < |rows|
    ensures Match(rows, i, h).Some? <==>
            exists j :: i < j < |rows| && MinAge(h) <= rows[j].epoch - rows[i].epoch <= MaxAge(h)
  {
    FoundExists(rows, i, h);
  }

  lemma FoundExists(rows: seq<Row>, i: nat, h: Horizon)
    requires Sorted(rows) && i < |rows|
    ensures Found(rows, i, h).Some? <==>
            exists j :: i < j < |rows| && MinAge(h) <= rows[j].epoch - rows[i].epoch <= MaxAge(h)
  {
    var target, latest := rows[i].epoch + MinAge(h), rows[i].epoch + MaxAge(h);
    FirstInRange(rows, i, target, latest);
  }

  lemma FirstInRange(rows: seq<Row>, i: nat, target: real, latest: real)
    requires Sorted(rows) && i < |rows|
    ensures InTolerance(rows, FirstAt(rows, i + 1, target), latest).Some? <==>
            exists j :: i < j < |rows| && target <= rows[j].epoch <= latest
  {
    var first := FirstAt(rows, i + 1, target);
    if j :| i < j < |rows| && target <= rows[j].epoch <= latest {
      FirstAtIsFirst(rows, i + 1, target, j);
      assert rows[first].epoch <= rows[j].epoch;
    }
  }

  predicate SameSample(row: Row, row': Row) {
    row.epoch == row'.epoch && row.price == row'.price
  }

  ghost predicate SameSamples(rows: seq<Row>, rows': seq<Row>) {
    |rows| <= |rows'| && forall i :: 0 <= i < |rows| ==> SameSample(rows[i], rows'[i])
  }

  lemma FirstRowMatches(rows: seq<Row>, i: nat, j: nat, h: Horizon)
    requires i < |rows| && j == FirstAt(rows, i + 1, rows[i].epoch + MinAge(h))
    requires j < |rows| && rows[j].epoch - rows[i].epoch <= MaxAge(h)
    ensures Match(rows, i, h) == Some(ForwardReturn(rows[i].price, rows[j].price))
  {}

  lemma FirstRowTooLate(rows: seq<Row>, i: nat, j: nat, h: Horizon)
    requires i < |rows| && j == FirstAt(rows, i + 1, rows[i].epoch + MinAge(h))
    requires j < |rows| ==> rows[j].epoch - rows[i].epoch > MaxAge(h)
    ensures Match(rows, i, h) == None
  {}

  lemma SameFirstRow(rows: seq<Row>, i: nat, j: nat, rows': seq<Row>, i': nat, j': nat, h: Horizon)
    requires i < |rows| && j == FirstAt(rows, i + 1, rows[i].epoch + MinAge(h))
    requires i' < |rows'| && j' == FirstAt(rows', i' + 1, rows'[i'].epoch + MinAge(h))
    requires SameSample(rows[i], rows'[i']) && (j < |rows| <==> j' < |rows'|) && (j < |rows| ==> SameSample(rows[j], rows'[j']))
    ensures Match(rows', i', h) == Match(rows, i, h)
  {
    if j < |rows| && rows[j].epoch - rows[i].epoch <= MaxAge(h) {
      FirstRowMatches(rows, i, j, h);
      FirstRowMatches(rows', i', j', h);
    } else {
      FirstRowTooLate(rows, i, j, h);
      FirstRowTooLate(rows', i', j', h);
    }
  }


  lemma {:induction false} FirstAtStable(rows: seq<Row>, rows': seq<Row>, lo: nat, target: real)
    requires SameSamples(rows, rows') && lo <= |rows| && FirstAt(rows, lo, target) < |rows|
    ensures FirstAt(rows', lo, target) == FirstAt(rows, lo, target)
    decreases |rows| - lo
  {
    if lo < |rows| && rows[lo].epoch < target {
      FirstAtStable(rows, rows', lo + 1, target);
    }
  }

  lemma FirstReached(rows: seq<Row>, i: nat, h: Horizon)
    requires i < |rows|
    requires Match(rows, i, h).Some? || rows[|rows| - 1].epoch - rows[i].epoch >= MinAge(h)
    ensures FirstAt(rows, i + 1, rows[i].epoch + MinAge(h)) < |rows|
  {
    var first, last := FirstAt(rows, i + 1, rows[i].epoch + MinAge(h)), |rows| - 1;
    assert MinAge(h) > 0.0;
    if rows[last].epoch - rows[i].epoch >= MinAge(h) {
      FirstAtIsFirst(rows, i + 1, rows[i].epoch + MinAge(h), last);
    }
  }

  /** Later samples do not change a match, nor a horizon whose minimum age the samples have reached. */
  lemma MatchStable(rows: seq<Row>, rows': seq<Row>, i: nat, h: Horizon)
    requires SameSamples(rows, rows') && i < |rows|
    requires Match(rows, i, h).Some? || rows[|rows| - 1].epoch - rows[i].epoch >= MinAge(h)
    ensures Match(rows', i, h) == Match(rows, i, h)
  {
    FirstReached(rows, i, h);
    FirstAtStable(rows, rows', i + 1, rows[i].epoch + MinAge(h));
  }

  // ---------------------------------------------------------------------------------------
  // What every row keeps through any number of runs and arrivals

  ghost predicate HorizonOk(rows: seq<Row>, i: nat, h: Horizon)
    requires i < |rows|
  {
    rows[i].forward.At(h).Some? ==> rows[i].forward.At(h) == Match(rows, i, h)
  }

  /** Recorded returns are the matches, and a closed row has no match left to find. */
  ghost predicate RowOk(rows: seq<Row>, i: nat)
    requires i < |rows|
  {
    var row := rows[i];
    && (forall h :: HorizonOk(rows, i, h))
    && (row.status == Resolved ==> row.forward.Complete())
    && (row.status == Expired ==>
          && !row.forward.Complete()
          && rows[|rows| - 1].epoch - row.epoch > MaxAge(SixtyMinutes)
          && forall h :: row.forward.At(h) == Match(rows, i, h))
  }

  ghost predicate Consistent(rows: seq<Row>) {
    Sorted(rows) && forall i: nat {:trigger RowOk(rows, i)} :: i < |rows| ==> RowOk(rows, i)
  }

  lemma MaturedForward(rows: seq<Row>, i: nat, h: Horizon)
    requires Sorted(rows) && i < |rows| && RowOk(rows, i)
    ensures Matured(rows, i).forward.At(h) == Match(rows, i, h)
  {
    assert HorizonOk(rows, i, h);
  }

  lemma FreshMatch(rows: seq<Row>, i: nat, h: Horizon)
    requires Sorted(rows) && i < |rows|
    ensures Match(AllFresh(rows), i, h) == Match(rows, i, h)
  {
    SameMatch(rows, AllFresh(rows), i, h);
  }

  lemma SameMatch(rows: seq<Row>, rows': seq<Row>, i: nat, h: Horizon)
    requires SameSamples(rows, rows') && |rows| == |rows'| && i < |rows|
    ensures Match(rows', i, h) == Match(rows, i, h)
  {
    var target := rows[i].epoch + MinAge(h);
    var j := FirstAt(rows, i + 1, target);
    assert SameSample(rows[i], rows'[i]);
    SameFirstAt(rows, rows', i + 1, target);
    SameFirstRow(rows, i, j, rows', i, j, h);
  }

  lemma {:induction false} SameFirstAt(rows: seq<Row>, rows': seq<Row>, lo: nat, target: real)
    requires SameSamples(rows, rows') && |rows| == |rows'| && lo <= |rows|
    ensures FirstAt(rows', lo, target) == FirstAt(rows, lo, target)
    decreases |rows| - lo
  {
    if lo < |rows| {
      SameFirstAt(rows, rows', lo + 1, target);
    }
  }

  lemma SameForward(a: Forward, b: Forward)
    requires forall h :: a.At(h) == b.At(h)
    ensures a == b
  {
    assert a.At(FiveMinutes) == b.At(FiveMinutes) && a.At(FifteenMinutes) == b.At(FifteenMinutes);
    assert a.At(SixtyMinutes) == b.At(SixtyMinutes);
  }

  /** The status a run leaves is a function of the returns and the age. */
  lemma MaturedStatus(rows: seq<Row>, i: nat)
    requires Sorted(rows) && i < |rows| && RowOk(rows, i)
    ensures Matured(rows, i).status == StatusOf(Matured(rows, i).forward, rows[|rows| - 1].epoch - rows[i].epoch)
  {}

  lemma FreshIsOk(rows: seq<Row>, i: nat)
    requires Sorted(rows) && i < |rows|
    ensures Sorted(AllFresh(rows)) && RowOk(AllFresh(rows), i)
  {}

  /** The next run brings a consistent row to where one run over the whole history would. */
  lemma MaturedFromHistory(rows: seq<Row>, i: nat)
    requires Sorted(rows) && i < |rows| && RowOk(rows, i)
    ensures Matured(rows, i) == Matured(AllFresh(rows), i)
  {
    FreshIsOk(rows, i);
    forall h ensures Matured(rows, i).forward.At(h) == Matured(AllFresh(rows), i).forward.At(h) {
      MaturedForward(rows, i, h);
      MaturedForward(AllFresh(rows), i, h);
      FreshMatch(rows, i, h);
    }
    SameForward(Matured(rows, i).forward, Matured(AllFresh(rows), i).forward);
    MaturedStatus(rows, i);
    MaturedStatus(AllFresh(rows), i);
  }

  /**
   However often the matcher ran before, one more run leaves exactly the rows that a single run
   over the whole history leaves.
   */
  lemma BackfillIsBatch(rows: seq<Row>)
    requires Consistent(rows)
    ensures Backfilled(rows) == Backfilled(AllFresh(rows))
  {
    forall i: nat | i < |rows| ensures Matured(rows, i) == Matured(AllFresh(rows), i) {
      assert RowOk(rows, i);
      MaturedFromHistory(rows, i);
    }
  }

  lemma MaturedMatch(rows: seq<Row>, i: nat, h: Horizon)
    requires Sorted(rows) && i < |rows|
    ensures Match(Backfilled(rows), i, h) == Match(rows, i, h)
  {
    SameMatch(rows, Backfilled(rows), i, h);
  }

  lemma BackfillKeepsConsistent(rows: seq<Row>)
    requires Consistent(rows)
    ensures Consistent(Backfilled(rows))
  {
    var after := Backfilled(rows);
    forall i: nat | i < |rows| ensures RowOk(after, i) {
      assert RowOk(rows, i);
      forall h ensures HorizonOk(after, i, h) && after[i].forward.At(h) == Match(after, i, h) {
        MaturedForward(rows, i, h);
        MaturedMatch(rows, i, h);
      }
    }
  }

  /** A new sample, no older than the others, disturbs no row. */
  lemma ArrivalKeepsConsistent(rows: seq<Row>, row: Row)
    requires Consistent(rows) && row == Fresh(row) && Sorted(rows + [row])
    ensures Consistent(rows + [row])
  {
    var after := rows + [row];
    forall i: nat | i < |after| ensures RowOk(after, i) {
      if i < |rows| {
        assert RowOk(rows, i);
        ArrivalKeepsRow(rows, after, i);
      }
    }
  }

  lemma ArrivalKeepsRow(rows: seq<Row>, after: seq<Row>, i: nat)
    requires Sorted(rows) && Sorted(after) && SameSamples(rows, after) && i < |rows| && after[i] == rows[i] && RowOk(rows, i)
    ensures RowOk(after, i)
  {
    var row := rows[i];
    forall h ensures HorizonOk(after, i, h) && (row.status == Expired ==> row.forward.At(h) == Match(after, i, h)) {
      assert HorizonOk(rows, i, h);
      if row.forward.At(h).Some? || row.status == Expired {
        MatchStable(rows, after, i, h);
      }
    }
    assert after[|after| - 1].epoch >= after[|rows| - 1].epoch;
  }

  /** Expiry gives nothing up: no later samples can fill a horizon the row left open. */
  lemma ExpiryIsFinal(rows: seq<Row>, later: seq<Row>, i: nat, h: Horizon)
    requires Consistent(rows) && Sorted(later) && SameSamples(rows, later) && i < |rows|
    requires rows[i].status == Expired && rows[i].forward.At(h) == None
    ensures Match(later, i, h) == None
  {
    assert RowOk(rows, i);
    MatchStable(rows, later, i, h);
  }

  // ---------------------------------------------------------------------------------------
  // Any schedule of arrivals and runs

  /** A new row takes its place by epoch; its id is the largest, so it comes last among equals. */
  function Insert(rows: seq<Row>, row: Row): (r: seq<Row>)
    ensures |r| == |rows| + 1
    decreases |rows|
  {
    if rows == [] || rows[|rows| - 1].epoch <= row.epoch then rows + [row]
    else Insert(rows[..|rows| - 1], row) + [rows[|rows| - 1]]
  }

  /** Insertion keeps the (epoch, id) order. */
  lemma {:induction false} InsertKeepsOrder(rows: seq<Row>, row: Row)
    requires Sorted(rows)
    ensures Sorted(Insert(rows, row))
    decreases |rows|
  {
    if rows != [] && rows[|rows| - 1].epoch > row.epoch {
      var last, before := rows[|rows| - 1], rows[..|rows| - 1];
      InsertKeepsOrder(before, row);
      InsertBounded(before, row, last.epoch);
    }
  }

  /** Insertion loses no row and changes none. */
  lemma {:induction false} InsertHoldsAll(rows: seq<Row>, row: Row)
    ensures multiset(Insert(rows, row)) == multiset(rows) + multiset{row}
    decreases |rows|
  {
    if rows != [] && rows[|rows| - 1].epoch > row.epoch {
      assert rows == rows[..|rows| - 1] + [rows[|rows| - 1]];
      InsertHoldsAll(rows[..|rows| - 1], row);
    }
  }

  /** A row that is not late is appended. */
  lemma InsertAppends(rows: seq<Row>, row: Row)
    requires Sorted(rows + [row])
    ensures Insert(rows, row) == rows + [row]
  {
    if rows != [] {
      assert (rows + [row])[|rows| - 1].epoch <= (rows + [row])[|rows|].epoch;
    }
  }

  lemma {:induction false} InsertBounded(rows: seq<Row>, row: Row, bound: real)
    requires row.epoch <= bound && forall k :: 0 <= k < |rows| ==> rows[k].epoch <= bound
    ensures forall k :: 0 <= k < |Insert(rows, row)| ==> Insert(rows, row)[k].epoch <= bound
    decreases |rows|
  {
    if rows != [] && rows[|rows| - 1].epoch > row.epoch {
      InsertBounded(rows[..|rows| - 1], row, bound);
    }
  }

  /**
   The order matters: a sample that arrives after the row it belongs to has expired is not used,
   although a batch run over the same rows uses it.
   */
  lemma LateSampleIsLost(price: Price, a: Row, b: Row, late: Row)
    requires a == Fresh(Row(0.0, price, Pending, Forward(None, None, None)))
    requires b == Fresh(Row(5000.0, price, Pending, Forward(None, None, None)))
    requires late == Fresh(Row(300.0, price, Pending, Forward(None, None, None)))
    ensures Backfilled(Insert(Backfilled([a, b]), late))[0].forward.five == None
    ensures Backfilled(Insert([a, b], late))[0].forward.five != None
  {
    var closed := Backfilled([a, b]);
    assert closed[0] == Matured([a, b], 0);
    assert Match([a, b], 0, FiveMinutes) == None;
    assert closed[0].status == Expired && closed[0].forward.five == None;
    assert Insert(closed, late)[0] == closed[0] by {
      assert closed[..1] == [closed[0]];
      assert Insert(closed[..1], late) == closed[..1] + [late];
    }
    var rows := Insert([a, b], late);
    assert rows == [a, late, b] by {
      assert [a, b][..1] == [a];
      assert Insert([a], late) == [a] + [late];
    }
    assert FirstAt(rows, 1, 300.0) == 1;
    assert Match(rows, 0, FiveMinutes) != None;
  }

  type Groups = map<string, seq<Row>>

  /** A row is stored; the matcher runs for one symbol; the matcher runs for all, as at start-up. */
  datatype Event = Stored(symbol: string, row: Row) | RunFor(symbol: string) | RunAll

  function Group(groups: Groups, symbol: string): seq<Row> {
    if symbol in groups then groups[symbol] else []
  }

  function Apply(groups: Groups, event: Event): Groups {
    match event
    case Stored(symbol, row) => groups[symbol := Insert(Group(groups, symbol), Fresh(row))]
    case RunFor(symbol) => if symbol in groups then groups[symbol := Backfilled(groups[symbol])] else groups
    case RunAll => map symbol | symbol in groups :: Backfilled(groups[symbol])
  }

  function Replay(events: seq<Event>): Groups {
    if events == [] then map[] else Apply(Replay(events[..|events| - 1]), events[|events| - 1])
  }

  /** The rows stored for a symbol, as inserted. */
  function History(events: seq<Event>, symbol: string): seq<Row> {
    if events == [] then []
    else
      var before, last := History(events[..|events| - 1], symbol), events[|events| - 1];
      if last.Stored? && last.symbol == symbol then before + [Fresh(last.row)] else before
  }

  /** The rows of this symbol arrive in order. */
  ghost predicate InOrder(events: seq<Event>, symbol: string) {
    Sorted(History(events, symbol))
  }

  lemma HistoryGrows(events: seq<Event>, symbol: string)
    requires events != [] && InOrder(events, symbol)
    ensures InOrder(events[..|events| - 1], symbol)
  {
    var before := History(events[..|events| - 1], symbol);
    assert before == History(events, symbol)[..|before|];
  }

  lemma FreshAppend(rows: seq<Row>, row: Row)
    ensures AllFresh(rows + [row]) == AllFresh(rows) + [Fresh(row)]
  {}

  lemma FreshBackfilled(rows: seq<Row>)
    ensures AllFresh(Backfilled(rows)) == AllFresh(rows)
  {}

  /** After any ordered schedule the rows of a symbol are consistent, and are its history apart from what runs filled in. */
  lemma {:induction false} ReplayConsistent(events: seq<Event>, symbol: string)
    requires InOrder(events, symbol)
    ensures Consistent(Group(Replay(events), symbol))
    ensures AllFresh(Group(Replay(events), symbol)) == History(events, symbol)
  {
    if events != [] {
      var before, last := events[..|events| - 1], events[|events| - 1];
      var rows := Group(Replay(before), symbol);
      HistoryGrows(events, symbol);
      ReplayConsistent(before, symbol);
      if last.Stored? && last.symbol == symbol {
        FreshAppend(rows, Fresh(last.row));
        SortedLikeFresh(rows + [Fresh(last.row)]);
        InsertAppends(rows, Fresh(last.row));
        ArrivalKeepsConsistent(rows, Fresh(last.row));
      } else if !last.Stored? {
        BackfillKeepsConsistent(rows);
        FreshBackfilled(rows);
      }
    }
  }

  lemma SortedLikeFresh(rows: seq<Row>)
    requires Sorted(AllFresh(rows))
    ensures Sorted(rows)
  {
    forall i, k | 0 <= i < k < |rows| ensures rows[i].epoch <= rows[k].epoch {
      assert AllFresh(rows)[i].epoch <= AllFresh(rows)[k].epoch;
    }
  }

  /**
   Whatever was stored in order and run before, a run leaves every row of the symbol exactly as one batch
   run over the whole history would.
   */
  lemma AnyScheduleIsBatch(events: seq<Event>, symbol: string, run: Event)
    requires InOrder(events, symbol) && (run == RunFor(symbol) || run == RunAll)
    ensures Group(Replay(events + [run]), symbol) == Backfilled(History(events, symbol))
  {
    assert (events + [run])[..|events|] == events;
    ReplayConsistent(events, symbol);
    BackfillIsBatch(Group(Replay(events), symbol));
  }

  /** The live engine: every row is stored and followed by a run for its symbol. */
  function LiveEvents(arrivals: seq<(string, Row)>): seq<Event> {
    if arrivals == [] then []
    else
      var last := arrivals[|arrivals| - 1];
      LiveEvents(arrivals[..|arrivals| - 1]) + [Stored(last.0, last.1)] + [RunFor(last.0)]
  }

  lemma UnrelatedEvent(events: seq<Event>, event: Event, symbol: string)
    requires event != RunAll && event.symbol != symbol
    ensures Group(Replay(events + [event]), symbol) == Group(Replay(events), symbol)
    ensures History(events + [event], symbol) == History(events, symbol)
  {
    assert (events + [event])[..|events|] == events;
  }

  /** Running after every arrival leaves the same rows as one batch run over the whole history. */
  lemma {:induction false} LiveIsBatch(arrivals: seq<(string, Row)>, symbol: string)
    requires InOrder(LiveEvents(arrivals), symbol)
    ensures Group(Replay(LiveEvents(arrivals)), symbol) == Backfilled(History(LiveEvents(arrivals), symbol))
  {
    if arrivals != [] {
      var last, before := arrivals[|arrivals| - 1], LiveEvents(arrivals[..|arrivals| - 1]);
      var stored := before + [Stored(last.0, last.1)];
      assert LiveEvents(arrivals) == stored + [RunFor(last.0)];
      assert LiveEvents(arrivals)[..|stored|] == stored && stored[..|before|] == before;
      HistoryGrows(LiveEvents(arrivals), symbol);
      HistoryGrows(stored, symbol);
      if last.0 == symbol {
        AnyScheduleIsBatch(stored, symbol, RunFor(symbol));
      } else {
        LiveIsBatch(arrivals[..|arrivals| - 1], symbol);
        UnrelatedEvent(before, Stored(last.0, last.1), symbol);
        UnrelatedEvent(stored, RunFor(last.0), symbol);
      }
    }
  }

  /** The run at start-up finds nothing to do after a live session. */
  lemma StartUpChangesNothing(arrivals: seq<(string, Row)>, symbol: string)
    requires InOrder(LiveEvents(arrivals), symbol)
    ensures Group(Replay(LiveEvents(arrivals) + [RunAll]), symbol) == Group(Replay(LiveEvents(arrivals)), symbol)
  {
    LiveIsBatch(arrivals, symbol);
    AnyScheduleIsBatch(LiveEvents(arrivals), symbol, RunAll);
  }

  // ---------------------------------------------------------------------------------------
  // Exactly when the live engine agrees with a batch run, for samples in any order

  /** A run leaves this horizon of the row alone. */
  predicate Decided(row: Row, h: Horizon) {
    row.status == Resolved || row.status == Expired || row.forward.At(h).Some?
  }

  /** What was decided is what the samples stored by now would decide. */
  ghost predicate DecisionsStand(rows: seq<Row>) {
    forall i: nat, h :: i < |rows| && Decided(rows[i], h) ==> rows[i].forward.At(h) == Match(rows, i, h)
  }

  ghost predicate ClosedRightly(row: Row, latest: real) {
    && (row.status == Resolved ==> row.forward.Complete())
    && (row.status == Expired ==> !row.forward.Complete() && latest - row.epoch > MaxAge(SixtyMinutes))
  }

  /** What rows keep in any order of arrivals and runs. */
  ghost predicate Closed(rows: seq<Row>) {
    Sorted(rows) && forall i :: 0 <= i < |rows| ==> ClosedRightly(rows[i], rows[|rows| - 1].epoch)
  }

  lemma ConsistentIsClosed(rows: seq<Row>)
    ensures Consistent(rows) <==> Closed(rows) && DecisionsStand(rows)
  {
    if Consistent(rows) {
      forall i: nat | i < |rows|
        ensures ClosedRightly(rows[i], rows[|rows| - 1].epoch)
        ensures forall h :: Decided(rows[i], h) ==> rows[i].forward.At(h) == Match(rows, i, h)
      {
        assert RowOk(rows, i);
        forall h ensures Decided(rows[i], h) ==> rows[i].forward.At(h) == Match(rows, i, h) {
          assert HorizonOk(rows, i, h);
        }
      }
    } else if Closed(rows) && DecisionsStand(rows) {
      forall i: nat | i < |rows| ensures RowOk(rows, i) {
        assert ClosedRightly(rows[i], rows[|rows| - 1].epoch);
        forall h ensures HorizonOk(rows, i, h) && (Decided(rows[i], h) ==> rows[i].forward.At(h) == Match(rows, i, h)) {
        }
      }
    }
  }

  lemma BatchForward(rows: seq<Row>, i: nat, h: Horizon)
    requires Sorted(rows) && i < |rows|
    ensures Backfilled(AllFresh(rows))[i].forward.At(h) == Match(rows, i, h)
  {
    FreshIsOk(rows, i);
    MaturedForward(AllFresh(rows), i, h);
    FreshMatch(rows, i, h);
  }

  lemma DecidedStays(rows: seq<Row>, i: nat, h: Horizon)
    requires i < |rows| && Decided(rows[i], h)
    ensures Backfilled(rows)[i].forward.At(h) == rows[i].forward.At(h)
  {}

  /** A run over rows with a past equals a run over fresh rows exactly when every decision stands. */
  lemma BackfillIsBatchExactly(rows: seq<Row>)
    requires Closed(rows)
    ensures Backfilled(rows) == Backfilled(AllFresh(rows)) <==> DecisionsStand(rows)
  {
    ConsistentIsClosed(rows);
    if DecisionsStand(rows) {
      BackfillIsBatch(rows);
    } else if Backfilled(rows) == Backfilled(AllFresh(rows)) {
      forall i: nat, h | i < |rows| && Decided(rows[i], h) ensures rows[i].forward.At(h) == Match(rows, i, h) {
        DecidedStays(rows, i, h);
        BatchForward(rows, i, h);
      }
    }
  }

  lemma BackfillKeepsClosed(rows: seq<Row>)
    requires Closed(rows)
    ensures Closed(Backfilled(rows))
  {
    var after := Backfilled(rows);
    forall i | 0 <= i < |rows| ensures ClosedRightly(after[i], after[|rows| - 1].epoch) {
      assert ClosedRightly(rows[i], rows[|rows| - 1].epoch) && after[i] == Matured(rows, i);
    }
  }

  /** Where a row is inserted: after every row that is not later. */
  function Place(rows: seq<Row>, row: Row): (p: nat)
    ensures p <= |rows|
  {
    if rows == [] || rows[|rows| - 1].epoch <= row.epoch then |rows| else Place(rows[..|rows| - 1], row)
  }

  /** Place p separates the rows that are not later than the new one from those that are. */
  ghost predicate Separates(rows: seq<Row>, row: Row, p: nat) {
    && p <= |rows|
    && (forall k :: 0 <= k < p ==> rows[k].epoch <= row.epoch)
    && (forall k :: p <= k < |rows| ==> rows[k].epoch > row.epoch)
  }

  /** `after` is `rows` with `row` at such a place. */
  ghost predicate Inserts(after: seq<Row>, rows: seq<Row>, row: Row, p: nat) {
    && Separates(rows, row, p) && |after| == |rows| + 1 && after[p] == row
    && (forall k :: 0 <= k < p ==> after[k] == rows[k])
    && (forall k :: p < k < |after| ==> after[k] == rows[k - 1])
  }

  lemma {:induction false} PlaceSeparates(rows: seq<Row>, row: Row)
    requires Sorted(rows)
    ensures Separates(rows, row, Place(rows, row))
    decreases |rows|
  {
    if rows != [] && rows[|rows| - 1].epoch > row.epoch {
      PlaceSeparates(rows[..|rows| - 1], row);
    }
  }

  lemma {:induction false} InsertAtPlace(rows: seq<Row>, row: Row)
    ensures Insert(rows, row) == rows[..Place(rows, row)] + [row] + rows[Place(rows, row)..]
    decreases |rows|
  {
    if rows != [] && rows[|rows| - 1].epoch > row.epoch {
      var last, before, p := rows[|rows| - 1], rows[..|rows| - 1], Place(rows, row);
      InsertAtPlace(before, row);
      assert rows[p..] == before[p..] + [last] && rows[..p] == before[..p];
    }
  }

  lemma InsertInserts(rows: seq<Row>, row: Row)
    requires Sorted(rows)
    ensures Inserts(Insert(rows, row), rows, row, Place(rows, row))
  {
    PlaceSeparates(rows, row);
    InsertAtPlace(rows, row);
  }

  lemma InsertKeepsClosed(rows: seq<Row>, row: Row)
    requires Closed(rows) && row == Fresh(row)
    ensures Closed(Insert(rows, row))
  {
    var after, p := Insert(rows, row), Place(rows, row);
    InsertKeepsOrder(rows, row);
    InsertInserts(rows, row);
    var latest := after[|after| - 1].epoch;
    assert rows != [] ==> latest >= rows[|rows| - 1].epoch;
    forall i | 0 <= i < |after| ensures ClosedRightly(after[i], latest) {
      assert after[i] == if i < p then rows[i] else if i == p then row else rows[i - 1];
      if i != p {
        assert ClosedRightly(after[i], rows[|rows| - 1].epoch);
      }
    }
  }

  lemma InsertFresh(rows: seq<Row>, row: Row)
    requires Sorted(rows)
    ensures AllFresh(Insert(rows, row)) == Insert(AllFresh(rows), Fresh(row))
    decreases |rows|
  {
    if rows != [] && rows[|rows| - 1].epoch > row.epoch {
      var before := rows[..|rows| - 1];
      InsertFresh(before, row);
      assert AllFresh(rows)[..|rows| - 1] == AllFresh(before);
    }
  }

  /** The stored samples of a symbol in (epoch, id) order, untouched by any run. */
  function Samples(events: seq<Event>, symbol: string): seq<Row> {
    if events == [] then []
    else
      var before, last := Samples(events[..|events| - 1], symbol), events[|events| - 1];
      if last.Stored? && last.symbol == symbol then Insert(before, Fresh(last.row)) else before
  }

  /** Any schedule whatever keeps closed rows closed, and its rows are the samples. */
  lemma {:induction false} ReplayClosed(events: seq<Event>, symbol: string)
    ensures Closed(Group(Replay(events), symbol))
    ensures AllFresh(Group(Replay(events), symbol)) == Samples(events, symbol)
  {
    if events != [] {
      var before, last := events[..|events| - 1], events[|events| - 1];
      var rows := Group(Replay(before), symbol);
      ReplayClosed(before, symbol);
      if last.Stored? && last.symbol == symbol {
        InsertKeepsClosed(rows, Fresh(last.row));
        InsertFresh(rows, Fresh(last.row));
      } else if !last.Stored? {
        BackfillKeepsClosed(rows);
        FreshBackfilled(rows);
      }
    }
  }

  /**
   For samples in any order and any runs in between: the next run leaves what one batch run over all
   the samples would leave exactly when every decision taken so far still stands.
   */
  lemma AnyScheduleIsBatchExactly(events: seq<Event>, symbol: string, run: Event)
    requires run == RunFor(symbol) || run == RunAll
    ensures Group(Replay(events + [run]), symbol) == Backfilled(Samples(events, symbol))
            <==> DecisionsStand(Group(Replay(events), symbol))
  {
    assert (events + [run])[..|events|] == events;
    ReplayClosed(events, symbol);
    BackfillIsBatchExactly(Group(Replay(events), symbol));
  }

  /** The new sample would be the match of the row: in tolerance, and with no stored sample before it. */
  ghost predicate Takes(rows: seq<Row>, row: Row, i: nat, h: Horizon)
    requires i < |rows|
  {
    && MinAge(h) <= row.epoch - rows[i].epoch <= MaxAge(h)
    && forall k :: 0 <= k < |rows| && rows[i].epoch + MinAge(h) <= rows[k].epoch ==> row.epoch < rows[k].epoch
  }

  /** The new sample contradicts a decision: it would be the match, with another return. */
  ghost predicate Contradicts(rows: seq<Row>, row: Row, i: nat, h: Horizon)
    requires i < |rows|
  {
    && Decided(rows[i], h) && Takes(rows, row, i, h)
    && rows[i].forward.At(h) != Some(ForwardReturn(rows[i].price, row.price))
  }

  function Shifted(i: nat, p: nat): nat {
    if i < p then i else i + 1
  }

  /** The first sample that reaches a target: the new one, if the old one comes behind it. */
  lemma FirstAfterInsert(after: seq<Row>, rows: seq<Row>, row: Row, p: nat, i: nat, target: real)
    requires Inserts(after, rows, row, p) && i < |rows|
    ensures var j := FirstAt(rows, i + 1, target);
            FirstAt(after, Shifted(i, p) + 1, target) == if i < p <= j && row.epoch >= target then p else Shifted(j, p)
  {
    var j, lo := FirstAt(rows, i + 1, target), Shifted(i, p) + 1;
    var first := if i < p <= j && row.epoch >= target then p else Shifted(j, p);
    forall k | lo <= k < first ensures after[k].epoch < target {
      if k != p {
        var was := if k < p then k else k - 1;
        assert after[k] == rows[was] && i + 1 <= was < j;
        if rows[was].epoch >= target {
          FirstAtIsFirst(rows, i + 1, target, was);
        }
      }
    }
    if first < |after| && first != p {
      assert after[first] == rows[j];
    }
    FirstAtIs(after, lo, target, first);
  }

  lemma TakesIsFirst(rows: seq<Row>, row: Row, p: nat, i: nat, h: Horizon)
    requires Sorted(rows) && Separates(rows, row, p) && i < |rows| && Takes(rows, row, i, h)
    ensures i < p <= FirstAt(rows, i + 1, rows[i].epoch + MinAge(h))
  {
    var j := FirstAt(rows, i + 1, rows[i].epoch + MinAge(h));
    assert MinAge(h) > 0.0;
    if j < |rows| {
      assert row.epoch < rows[j].epoch;
    }
  }

  lemma FirstIsTaken(rows: seq<Row>, row: Row, p: nat, i: nat, h: Horizon)
    requires Sorted(rows) && Separates(rows, row, p) && i < |rows|
    requires i < p <= FirstAt(rows, i + 1, rows[i].epoch + MinAge(h))
    requires MinAge(h) <= row.epoch - rows[i].epoch <= MaxAge(h)
    ensures Takes(rows, row, i, h)
  {
    var target := rows[i].epoch + MinAge(h);
    forall k | 0 <= k < |rows| && target <= rows[k].epoch ensures row.epoch < rows[k].epoch {
      NotBefore(rows, i, k);
      FirstAtIsFirst(rows, i + 1, target, k);
    }
  }

  lemma NotBefore(rows: seq<Row>, i: nat, k: nat)
    requires Sorted(rows) && i < |rows| && k < |rows| && rows[k].epoch > rows[i].epoch
    ensures k > i
  {}

  /** The new row is the first to reach the target, and in tolerance. */
  predicate NewIsFound(rows: seq<Row>, row: Row, p: nat, i: nat, h: Horizon)
    requires i < |rows|
  {
    && i < p <= FirstAt(rows, i + 1, rows[i].epoch + MinAge(h))
    && rows[i].epoch + MinAge(h) <= row.epoch <= rows[i].epoch + MaxAge(h)
  }

  lemma TakesIsFound(rows: seq<Row>, row: Row, p: nat, i: nat, h: Horizon)
    requires Sorted(rows) && Separates(rows, row, p) && i < |rows|
    ensures Takes(rows, row, i, h) <==> NewIsFound(rows, row, p, i, h)
  {
    if Takes(rows, row, i, h) {
      TakesIsFirst(rows, row, p, i, h);
    } else if NewIsFound(rows, row, p, i, h) {
      FirstIsTaken(rows, row, p, i, h);
    }
  }

  /** What an insertion does to the sample found for a row, wherever the row then stands. */
  lemma FoundAfterInsert(after: seq<Row>, rows: seq<Row>, row: Row, p: nat, i: nat, h: Horizon)
    requires Inserts(after, rows, row, p) && i < |rows|
    ensures after[Shifted(i, p)] == rows[i]
    ensures Found(after, Shifted(i, p), h) == if NewIsFound(rows, row, p, i, h) then Some(row) else Found(rows, i, h)
  {
    var base := rows[i];
    FoundInRange(after, rows, row, p, i, base.epoch + MinAge(h), base.epoch + MaxAge(h));
    FoundIsInRange(after, Shifted(i, p), base, h);
    FoundIsInRange(rows, i, base, h);
  }

  lemma FoundIsInRange(rows: seq<Row>, i: nat, base: Row, h: Horizon)
    requires i < |rows| && rows[i] == base
    ensures Found(rows, i, h) == InTolerance(rows, FirstAt(rows, i + 1, base.epoch + MinAge(h)), base.epoch + MaxAge(h))
  {}

  lemma FoundInRange(after: seq<Row>, rows: seq<Row>, row: Row, p: nat, i: nat, target: real, latest: real)
    requires Inserts(after, rows, row, p) && i < |rows| && target <= latest
    ensures after[Shifted(i, p)] == rows[i]
    ensures InTolerance(after, FirstAt(after, Shifted(i, p) + 1, target), latest) ==
            if i < p <= FirstAt(rows, i + 1, target) && target <= row.epoch <= latest then Some(row)
            else InTolerance(rows, FirstAt(rows, i + 1, target), latest)
  {
    var j, first := FirstAt(rows, i + 1, target), FirstAt(after, Shifted(i, p) + 1, target);
    FirstAfterInsert(after, rows, row, p, i, target);
    ToleranceAfterInsert(after, rows, row, p, i, j, first, target, latest);
  }

  lemma ToleranceAfterInsert(after: seq<Row>, rows: seq<Row>, row: Row, p: nat, i: nat, j: nat, first: nat, target: real, latest: real)
    requires Inserts(after, rows, row, p) && i < |rows| && target <= latest
    requires first == if i < p <= j && row.epoch >= target then p else Shifted(j, p)
    ensures InTolerance(after, first, latest) ==
            if i < p <= j && target <= row.epoch <= latest then Some(row) else InTolerance(rows, j, latest)
    ensures after[Shifted(i, p)] == rows[i]
  {
    assert after[Shifted(i, p)] == rows[i];
    if first == p {
      assert j < |rows| ==> rows[j].epoch > row.epoch;
    } else {
      assert j < |rows| ==> after[Shifted(j, p)] == rows[j];
    }
  }

  lemma ContradictsAfter(after: seq<Row>, rows: seq<Row>, row: Row, p: nat, i: nat, h: Horizon)
    requires Sorted(rows) && DecisionsStand(rows) && Inserts(after, rows, row, p) && i < |rows|
    ensures Contradicts(rows, row, i, h) <==>
            Decided(after[Shifted(i, p)], h) && after[Shifted(i, p)].forward.At(h) != Match(after, Shifted(i, p), h)
  {
    FoundAfterInsert(after, rows, row, p, i, h);
    TakesIsFound(rows, row, p, i, h);
  }

  ghost predicate NoContradiction(rows: seq<Row>, row: Row) {
    forall i: nat, h :: i < |rows| ==> !Contradicts(rows, row, i, h)
  }

  lemma NoContradictionStands(after: seq<Row>, rows: seq<Row>, row: Row, p: nat)
    requires Sorted(rows) && DecisionsStand(rows) && Inserts(after, rows, row, p) && row == Fresh(row)
    ensures NoContradiction(rows, row) <==> DecisionsStand(after)
  {
    if NoContradiction(rows, row) {
      forall i': nat, h | i' < |after| && Decided(after[i'], h) ensures after[i'].forward.At(h) == Match(after, i', h) {
        assert i' != p by { UndecidedFresh(row, h); }
        ContradictsAfter(after, rows, row, p, if i' < p then i' else i' - 1, h);
      }
    } else if DecisionsStand(after) {
      forall i: nat, h | i < |rows| ensures !Contradicts(rows, row, i, h) {
        ContradictsAfter(after, rows, row, p, i, h);
      }
    }
  }

  lemma UndecidedFresh(row: Row, h: Horizon)
    requires row == Fresh(row)
    ensures !Decided(row, h)
  {}

  /**
   Exactly when one more sample, however late, leaves the live engine and a batch run in agreement:
   when it contradicts no decision.
   */
  lemma LateSampleHarmsExactly(rows: seq<Row>, row: Row)
    requires Consistent(rows) && row == Fresh(row)
    ensures Backfilled(Insert(rows, row)) == Backfilled(AllFresh(Insert(rows, row))) <==> NoContradiction(rows, row)
  {
    ConsistentIsClosed(rows);
    InsertKeepsClosed(rows, row);
    BackfillIsBatchExactly(Insert(rows, row));
    InsertInserts(rows, row);
    NoContradictionStands(Insert(rows, row), rows, row, Place(rows, row));
  }

  // ---------------------------------------------------------------------------------------
  // The matcher of the source

  /** bisect_left on the epochs from position lo on. */
  method BisectLeft(rows: seq<Row>, target: real, from: nat) returns (j: nat)
    requires Sorted(rows) && from <= |rows|
    ensures j == FirstAt(rows, from, target)
  {
    var lo, hi := from, |rows|;
    while lo < hi
      invariant from <= lo <= hi <= |rows|
      invariant forall k :: from <= k < lo ==> rows[k].epoch < target
      invariant forall k :: hi <= k < |rows| ==> rows[k].epoch >= target
    {
      var mid := (lo + hi) / 2;
      if rows[mid].epoch < target {
        forall k | from <= k < mid + 1 ensures rows[k].epoch < target {
          assert k == mid || rows[k].epoch <= rows[mid].epoch;
        }
        lo := mid + 1;
      } else {
        hi := mid;
      }
    }
    j := lo;
    FirstAtIs(rows, from, target, j);
  }

  lemma {:induction false} FirstAtIs(rows: seq<Row>, from: nat, target: real, j: nat)
    requires from <= j <= |rows| && forall k :: from <= k < j ==> rows[k].epoch < target
    requires j < |rows| ==> rows[j].epoch >= target
    ensures FirstAt(rows, from, target) == j
    decreases j - from
  {
    if from < j {
      FirstAtIs(rows, from + 1, target, j);
    }
  }

  const HORIZONS: seq<Horizon> := [FiveMinutes, FifteenMinutes, SixtyMinutes]

  /** One return of a row: a recorded one stays, otherwise it is looked up. */
  method FillHorizon(rows: seq<Row>, i: nat, h: Horizon) returns (value: Option<real>)
    requires Sorted(rows) && i < |rows|
    ensures value == Fill(rows, i, h)
    ensures Recorded(rows, i, rows[i].forward.At(h), MinAge(h), MaxAge(h), value)
  {
    MatchMeasures(rows, i, h);
    var row := rows[i];
    value := row.forward.At(h);
    if value.Some? {
      return;
    }
    var j := BisectLeft(rows, row.epoch + MinAge(h), i + 1);
    if j >= |rows| {
      return;
    }
    if rows[j].epoch - row.epoch <= MaxAge(h) {
      value := Some(ForwardReturn(row.price, rows[j].price));
    }
  }

  /** The three returns of one open row. */
  method FillRow(rows: seq<Row>, i: nat) returns (forward: Forward)
    requires Sorted(rows) && i < |rows|
    ensures forward == Forward(Fill(rows, i, FiveMinutes), Fill(rows, i, FifteenMinutes), Fill(rows, i, SixtyMinutes))
  {
    var row := rows[i];
    var values: map<Horizon, Option<real>> := map h | h in HORIZONS :: row.forward.At(h);
    for n := 0 to |HORIZONS|
      invariant values.Keys == set h | h in HORIZONS
      invariant forall l :: 0 <= l < |HORIZONS| ==>
        values[HORIZONS[l]] == if l < n then Fill(rows, i, HORIZONS[l]) else row.forward.At(HORIZONS[l])
    {
      var value := FillHorizon(rows, i, HORIZONS[n]);
      values := values[HORIZONS[n] := value];
    }
    assert HORIZONS[0] == FiveMinutes && HORIZONS[1] == FifteenMinutes && HORIZONS[2] == SixtyMinutes;
    forward := Forward(values[FiveMinutes], values[FifteenMinutes], values[SixtyMinutes]);
  }

  function Changes(rows: seq<Row>, m: nat): nat
    requires m <= |rows|
  {
    if m == 0 then 0 else Changes(rows, m - 1) + if Matured(rows, m - 1) != rows[m - 1] then 1 else 0
  }

  function ChangesTo(rows: seq<Row>, m: nat, status: Status): nat
    requires m <= |rows|
  {
    if m == 0 then 0
    else ChangesTo(rows, m - 1, status)
         + if Matured(rows, m - 1) != rows[m - 1] && Matured(rows, m - 1).status == status then 1 else 0
  }

  /** The rows a run changes, and those it brings to a status they did not have. */
  ghost function Changed(before: seq<Row>, after: seq<Row>): set<nat> {
    set i: nat | i < |before| && i < |after| && after[i] != before[i]
  }

  ghost function Brought(before: seq<Row>, after: seq<Row>, status: Status): set<nat> {
    set i: nat | i < |before| && i < |after| && before[i].status != status && after[i].status == status
  }

  lemma ChangedNext(before: seq<Row>, after: seq<Row>, n: nat)
    requires |before| == |after| == n + 1
    ensures Changed(before, after) == Changed(before[..n], after[..n]) + if after[n] != before[n] then {n} else {}
  {}

  lemma BroughtNext(before: seq<Row>, after: seq<Row>, status: Status, n: nat)
    requires |before| == |after| == n + 1
    ensures Brought(before, after, status) ==
            Brought(before[..n], after[..n], status) + if before[n].status != status && after[n].status == status then {n} else {}
  {}

  lemma {:induction false} ChangesCount(rows: seq<Row>, m: nat)
    requires m <= |rows|
    ensures Changes(rows, m) == |Changed(rows[..m], Backfilled(rows)[..m])|
  {
    if m > 0 {
      var before, after := rows[..m], Backfilled(rows)[..m];
      ChangesCount(rows, m - 1);
      ChangedNext(before, after, m - 1);
      assert before[..m - 1] == rows[..m - 1] && after[..m - 1] == Backfilled(rows)[..m - 1];
    }
  }

  /** A closed row is not changed, so a row that a run changes to a closed status did not have it. */
  lemma ClosedStays(rows: seq<Row>, i: nat, status: Status)
    requires i < |rows| && (status == Resolved || status == Expired)
    ensures Matured(rows, i) != rows[i] && Matured(rows, i).status == status <==>
            rows[i].status != status && Matured(rows, i).status == status
  {}

  lemma {:induction false} BroughtCount(rows: seq<Row>, m: nat, status: Status)
    requires m <= |rows| && (status == Resolved || status == Expired)
    ensures ChangesTo(rows, m, status) == |Brought(rows[..m], Backfilled(rows)[..m], status)|
  {
    if m > 0 {
      var before, after := rows[..m], Backfilled(rows)[..m];
      BroughtCount(rows, m - 1, status);
      ClosedStays(rows, m - 1, status);
      BroughtNext(before, after, status, m - 1);
      assert before[..m - 1] == rows[..m - 1] && after[..m - 1] == Backfilled(rows)[..m - 1];
    }
  }

  lemma WholeCounts(rows: seq<Row>)
    ensures Changes(rows, |rows|) == |Changed(rows, Backfilled(rows))|
    ensures ChangesTo(rows, |rows|, Resolved) == |Brought(rows, Backfilled(rows), Resolved)|
    ensures ChangesTo(rows, |rows|, Expired) == |Brought(rows, Backfilled(rows), Expired)|
  {
    assert rows[..|rows|] == rows && Backfilled(rows)[..|rows|] == Backfilled(rows);
    ChangesCount(rows, |rows|);
    BroughtCount(rows, |rows|, Resolved);
    BroughtCount(rows, |rows|, Expired);
  }

  /** The rows of one symbol, rewritten in place. */
  method BackfillGroup(initial: seq<Row>) returns (rows: seq<Row>, updated: nat, resolved: nat, expired: nat)
    requires Sorted(initial)
    ensures rows == Backfilled(initial)
    ensures updated == Changes(initial, |initial|)
    ensures resolved == ChangesTo(initial, |initial|, Resolved) && expired == ChangesTo(initial, |initial|, Expired)
  {
    rows, updated, resolved, expired := initial, 0, 0, 0;
    for i := 0 to |initial|
      invariant |rows| == |initial|
      invariant forall k :: 0 <= k < |rows| ==> rows[k] == if k < i then Matured(initial, k) else initial[k]
      invariant updated == Changes(initial, i)
      invariant resolved == ChangesTo(initial, i, Resolved) && expired == ChangesTo(initial, i, Expired)
    {
      var row := rows[i];
      if row.status == Resolved || row.status == Expired {
        continue;
      }
      var forward := FillRow(initial, i);
      var status := StatusOf(forward, initial[|initial| - 1].epoch - row.epoch);
      if status == row.status && forward == row.forward {
        continue;
      }
      rows := rows[i := row.(status := status, forward := forward)];
      updated := updated + 1;
      if status == Resolved {
        resolved := resolved + 1;
      }
      if status == Expired {
        expired := expired + 1;
      }
    }
  }

  class LearningEngine {
    var groups: Groups

    constructor ()
      ensures groups == map[] && Valid()
    {
      groups := map[];
    }

    ghost predicate Valid()
      reads this
    {
      forall s :: s in groups ==> Sorted(groups[s])
    }

    /** Store an observation and, if it can be a sample, run the matcher for its symbol. */
    method HandleObservation(symbol: string, epoch: Option<real>, price: real)
      requires Valid()
      modifies this
      ensures Valid()
      ensures if symbol == "" || epoch.None? || price <= 0.0 then groups == old(groups)
              else groups == Apply(Apply(old(groups), Stored(symbol, Row(epoch.value, price, Pending, Forward(None, None, None)))), RunFor(symbol))
    {
      if symbol == "" || epoch.None? || price <= 0.0 {
        return;
      }
      var row := Row(epoch.value, price, Pending, Forward(None, None, None));
      InsertKeepsOrder(Group(groups, symbol), row);
      groups := groups[symbol := Insert(Group(groups, symbol), row)];
      var updated, resolved, expired := BackfillSymbol(symbol);
    }

    method BackfillSymbol(symbol: string) returns (updated: nat, resolved: nat, expired: nat)
      requires Valid()
      modifies this
      ensures Valid()
      ensures groups == Apply(old(groups), RunFor(symbol))
      ensures symbol !in groups ==> updated == resolved == expired == 0
      ensures symbol in groups ==>
                var before, after := Group(old(groups), symbol), groups[symbol];
                && AllMature(before, after) && updated == |Changed(before, after)|
                && resolved == |Brought(before, after, Resolved)| && expired == |Brought(before, after, Expired)|
      ensures updated == 0 ==> groups == old(groups)
    {
      updated, resolved, expired := 0, 0, 0;
      if symbol in groups {
        NoChanges(groups[symbol]);
        WholeCounts(groups[symbol]);
        BackfillMatures(groups[symbol]);
        var rows;
        rows, updated, resolved, expired := BackfillGroup(groups[symbol]);
        groups := groups[symbol := rows];
      }
    }

    /** The run over all symbols at start-up, one group after the other. */
    method BackfillAll() returns (updated: nat)
      requires Valid()
      modifies this
      ensures Valid()
      ensures groups == Apply(old(groups), RunAll)
      ensures forall s :: s in groups ==> AllMature(Group(old(groups), s), groups[s])
      ensures updated == 0 ==> groups == old(groups)
    {
      ghost var before := groups;
      updated := 0;
      var todo := groups.Keys;
      while todo != {}
        invariant todo <= groups.Keys && groups.Keys == old(groups).Keys
        invariant forall s :: s in groups ==> groups[s] == if s in todo then old(groups)[s] else Backfilled(old(groups)[s])
        invariant updated == 0 ==> groups == old(groups)
        decreases todo
      {
        var symbol :| symbol in todo;
        NoChanges(groups[symbol]);
        var rows, changed, resolved, expired := BackfillGroup(groups[symbol]);
        updated := updated + changed;
        groups := groups[symbol := rows];
        todo := todo - {symbol};
      }
      GroupsMature(before, groups);
    }
  }

  lemma GroupsMature(before: Groups, after: Groups)
    requires before.Keys == after.Keys
    requires forall s :: s in before ==> Sorted(before[s]) && after[s] == Backfilled(before[s])
    ensures forall s :: s in after ==> AllMature(Group(before, s), after[s])
  {
    forall s | s in after ensures AllMature(Group(before, s), after[s]) {
      BackfillMatures(before[s]);
    }
  }

  lemma NoChanges(rows: seq<Row>)
    ensures Changes(rows, |rows|) == 0 ==> Backfilled(rows) == rows
  {
    forall i | 0 <= i < |rows| && Changes(rows, |rows|) == 0 ensures Matured(rows, i) == rows[i] {
      NoChangeAt(rows, |rows|, i);
    }
  }

  lemma {:induction false} NoChangeAt(rows: seq<Row>, m: nat, i: nat)
    requires i < m <= |rows| && Changes(rows, m) == 0
    ensures Matured(rows, i) == rows[i]
  {
    if i < m - 1 {
      NoChangeAt(rows, m - 1, i);
    }
  }
}
