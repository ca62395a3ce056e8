# A verified model of the trading system's algorithms

The project models the algorithmic core of the trading system: arbitrage detection, a toy lattice
scheme, the walk-forward backtester, the observation backfill and its trend test, the import-cycle
finder, broker fill accounting and position sizing, the TTL cache, two Bayesian updaters, the
WebSocket fan-out and the R-multiple summary. One module stands for one component. Code that
changes state step by step is written as classes and methods with loops; each method is proved
equal to a specification function, and the properties are proved about those functions, for every
input and for every run. For each main operation there are also laws in terms of its inputs and
outputs alone, which do not use the functions that compute them: what a trade, a stored return, a
position, a size, a read, a session or a tour of trades has to be.

`dafny verify dfyconfig.toml` checks everything.

## How the model reads the source

- Floating-point numbers are exact reals, and the rounding of reported figures is not applied.
- `Arbitrage` works with products. A gain g stands for the distance -ln g, an unreached asset has
  gain 0 where the source has infinity, and an edge multiplies by its net rate. The tables carry
  two further columns in the proof, the pass and the serial number of the last improvement of each asset,
  which the completeness proof needs.
- `NegacyclicRing`, `LatticePoly` and `LatticeScheme` take the degree, the modulus and the module
  dimension as parameters. `Fits` is the condition under which no `i32` or `i64` step overflows,
  and `SourceParametersFit` shows it for 256 and 3329. Random draws are parameters. Inputs of
  `add` and `mul` have coefficients of magnitude below the modulus, as all values in the source do.
- `WalkForward` keeps the bars as one sequence of rows. The consensus engine is a pair of unknown
  functions over a model state that is threaded through the run, so nothing is assumed of it. The
  window length is positive (a zero length would roll the window forward by nothing), and regimes
  are upper-case already.
- `Observations` holds the rows per symbol, in the order in which the query and the sort deliver
  them. Rows without a readable time or with a non-positive price are never samples. Symbols are
  upper-cased already.
- `TtlCache` takes each reading of the clock as a parameter, and models the dictionary as a map with
  the order of its keys: an assignment to a present key keeps its place, a new key goes last, and
  the first of several earliest deadlines is evicted. While a fetch is awaited, other tasks may run
  any operations.
- `FillLedger` takes the positions to be distinct objects. The symbol, the trade
  id and the signed quantity of a position are fixed, while the source reads the quantity at each
  callback and a partial exit may have changed it.
- `BayesianOracle` takes the logarithms of the prices beside the prices; volumes are non-negative.
- `SocketFanout` treats the code between two awaits as one event, which is what a single-threaded
  event loop does, and lets the events of all connections interleave freely.
- `PositionSizing` starts after the numeric inputs have been parsed.
- `TradeSummary` takes the sample deviation, which is a square root, as a parameter.

## Findings

- A late sample is lost: if a sample arrives after the row it belongs to has expired, the live
  engine does not use it although a batch run would (`LateSampleIsLost`). Whatever the order of
  samples and runs, the next run agrees with a batch run exactly when every decision taken so far
  still stands (`AnyScheduleIsBatchExactly`), and one more sample does harm exactly when it would
  have been the match of a decided horizon, with another return (`LateSampleHarmsExactly`). Samples
  in order never do (`AnyScheduleIsBatch`, `LiveIsBatch`).
- Pruning can be observed: a key that is written again after it expired keeps its place in the
  dictionary, or goes last if it was pruned in between, and so a tie for the earliest deadline at
  capacity falls differently (`PruningObservedAtTie`). Over all later runs, a prune changes no
  answer exactly when `max_size` is at most 2, or 60 seconds have passed since the last pruning so
  that the next operation would prune anyway, or nothing has expired (`PruningUnobservableExactly`).
  In a single run it changes none without ties, and in particular while all deadlines differ
  (`PruningUnobservable`, `DistinctDeadlinesTieFree`); one write keeps two caches with the same live
  entries alike exactly when they do not have to give up different ones (`WriteKeepsSameLiveExactly`).
- An arbitrage opportunity is reported as an empty list of edges exactly when the graph has a single
  asset: a gaining edge from an asset to itself gets no relaxation pass (`DetectCrossExchangeArb`).
- The sizer's floor of one share can exceed the notional cap (`OneShareMayExceedCap`); a proposed
  size respects the cap exactly when the price of one share does (`SizeFitsCapExactly`).
- In a small account (below 1000 dollars) the risk of step 7 is raised to 2 dollars after it was cut
  to the limit of one trade, so it respects that limit exactly when the account is not small or the
  limit is at least 2 dollars (`RiskLimitHoldsExactly`).
- The two VIX rows of the likelihood table do not add up to one in any regime, while the two rows of
  every other feature do in all of them (`RowsComplementExactly`).
- A clamp makes the belief tracker depend on the order of evidence (`ConfirmingFirstIsLost`). Two
  orders end in the same belief exactly when the net effects of their clamps on the odds agree
  (`SameEndExactly`); against a clamp-free order, and without both bounds being met, that means that
  no clamp bites (`OrderIrrelevantExactly`).
- A failed handshake keeps its connection slot for good, and three of them exclude an address
  for good; with fewer, some continuation has a live connection again (`ExcludedExactly`, and at an
  input `FourthConnectionRefused`).
- With `max_size` below 1 the cache still holds one entry after a write: the configured size bounds
  it exactly when it is at least 1 (`LimitHoldsExactly`).
- Neither the skip of a near-zero total in the regime oracle nor the early return for empty
  evidence is ever taken (`StepNormalises`, `Evidence`); the floor of zero in the release of a
  connection slot never acts (`ReleaseIsExact`).

## Model

| member | source | states |
|---|---|---|
| `Arbitrage.UpsertQuote` | src/arbitrage.rs:29-40 | After an update, a market quotes the new edge exactly if it is that edge's market; every other market keeps its quote |
| `Arbitrage.UpsertKeepsOneEdgePerMarket` | src/arbitrage.rs:29-40 | There is never more than one edge per asset pair and exchange; nothing but the new edge is added, and the list grows only for a new market |
| `Arbitrage.UpsertReplacesRival` | src/arbitrage.rs:29-40 | Without two edges for the same assets and exchange, an update puts the new edge in and takes out exactly the edge for its assets and exchange, and keeps the list free of such pairs |
| `Arbitrage.UpsertAt` | src/arbitrage.rs:29-40 | The update overwrites the first matching edge in place and otherwise appends |
| `Arbitrage.ArbGraph.UpdateEdge` | src/arbitrage.rs:29-40 | The method changes the edge list as the specification says |
| `Arbitrage.CollectAssets` | src/arbitrage.rs:49-57 | Every asset of the graph is listed once and starts unreached |
| `Arbitrage.RelaxKeepsInv` | src/arbitrage.rs:64-79 | One relaxation keeps the invariant that ties gains, predecessors and the pass of the last improvement together |
| `Arbitrage.PassesInv` | src/arbitrage.rs:61-81 | The invariant holds after every number of passes over the edges, in any edge order |
| `Arbitrage.RelaxRepeatedly` | src/arbitrage.rs:61-81 | The nested loops compute the tables of the specification after one pass fewer than there are assets |
| `Arbitrage.DeliveredProduct` | src/arbitrage.rs:72-77 | Along predecessor edges the end gains at most the start's gain times the product of net rates, and strictly less if some edge could still deliver more |
| `Arbitrage.QuietProduct` | src/arbitrage.rs:84-94 | If no edge of a walk is relaxable, the product of its net rates is bounded by the gains at its ends |
| `Arbitrage.QuietMeansNoArbitrage` | src/arbitrage.rs:83-111 | Completeness: if no edge is relaxable after the passes, no reachable cycle has a product above 1 |
| `Arbitrage.RoundsAlongTrace` | src/arbitrage.rs:100-107 | Each predecessor step goes back by at most one pass |
| `Arbitrage.ExhaustedTraceIsLong` | src/arbitrage.rs:95-108 | A trace from a relaxable edge that runs out of predecessors has taken at least one step per pass |
| `Arbitrage.ExhaustedTraceGains` | src/arbitrage.rs:95-108 | Such a trace ends at the start, has one edge fewer than there are assets, and closes a gain cycle with the triggering edge |
| `Arbitrage.ExhaustedTraceCovers` | src/arbitrage.rs:95-108 | Such a trace with the triggering edge leaves every asset of the graph |
| `Arbitrage.LoopingTraceGains` | src/arbitrage.rs:100-107 | A trace that meets itself contains a closed sub-walk with a product above 1 |
| `Arbitrage.TraceBack` | src/arbitrage.rs:95-108 | The trace-back terminates, returns the reversed trail of predecessor edges, and stops at a repeated asset or one without predecessor |
| `Arbitrage.TraceIsWitness` | src/arbitrage.rs:91-108 | Whatever is traced from a relaxable edge is linked, and with that edge contains a gain cycle that is reachable from the start |
| `Arbitrage.TradedAlongIs` | src/arbitrage.rs:66-70 | Trading an amount along a walk, each time at the rate and less the fee on the proceeds, multiplies it by the product of the net rates |
| `Arbitrage.GainsAreProfits` | src/arbitrage.rs:44-112 | There is a reachable gain cycle exactly if some tour reachable by trading returns more than it takes |
| `Arbitrage.ArbGraph.DetectCrossExchangeArb` | src/arbitrage.rs:44-112 | A result is returned exactly if some cycle reachable from the start over edges of positive net rate has a product above 1, that is, if some tour of trades makes money; the result is such a witness, and is empty exactly if the graph has one asset |
| `ImportCycles.NeighborsFinishEarlier` | scripts/detect_cycles.py:76-81 | In the order in which nodes leave the path, every neighbour comes before its node |
| `ImportCycles.RankFalls` | scripts/detect_cycles.py:76-81 | Along any path the position in that order falls |
| `ImportCycles.FinishedGraphIsAcyclic` | scripts/detect_cycles.py:83-87 | If every node has left the path, the graph has no cycle |
| `ImportCycles.FinishNode` | scripts/detect_cycles.py:80-81 | A node whose neighbours have all left may leave |
| `ImportCycles.ClosePath` | scripts/detect_cycles.py:68-70 | Meeting a node of the current path closes a cycle of length at least 2 with equal ends whose steps are edges and whose other nodes differ |
| `ImportCycles.IndexOf` | scripts/detect_cycles.py:69-69 | The first position of a node on the path |
| `ImportCycles.Search.Enter` | scripts/detect_cycles.py:74-75 | A node is marked and pushed; the search invariant is kept |
| `ImportCycles.Search.Leave` | scripts/detect_cycles.py:80-81 | A node with finished neighbours is popped; the search invariant is kept |
| `ImportCycles.Search.Visit` | scripts/detect_cycles.py:67-81 | Either a genuine cycle is returned, or the path is restored and the node is visited and finished; the unvisited nodes decrease |
| `ImportCycles.FindCycle` | scripts/detect_cycles.py:63-87 | None is returned exactly if the graph has no cycle, and otherwise a genuine one, for every graph and every order of its keys |
| `NegacyclicRing.CoefTimes` | quarantine/lattice.rs:46-63 | Coefficients extended with X^n = -1 multiply consistently at every exponent |
| `NegacyclicRing.ConvSumWindow` | quarantine/lattice.rs:58-62 | The convolution may be summed over any window of n consecutive exponents |
| `NegacyclicRing.RowsAreColumns` | quarantine/lattice.rs:52-56 | The double sum of a triple product may be taken by rows or by columns |
| `NegacyclicRing.TimesCommutes` | quarantine/lattice.rs:46-63 | Negacyclic multiplication commutes |
| `NegacyclicRing.TimesAssociates` | quarantine/lattice.rs:46-63 | It is associative |
| `NegacyclicRing.TimesDistributes` | quarantine/lattice.rs:34-63 | It distributes over addition |
| `NegacyclicRing.PowerShifts` | quarantine/lattice.rs:46-63 | Multiplication by X^m moves the coefficients up by m, and those that leave at the top come back at the bottom with the opposite sign |
| `NegacyclicRing.ModTimesCommutes` | quarantine/lattice.rs:46-74 | The product modulo q commutes |
| `NegacyclicRing.ModTimesReduced` | quarantine/lattice.rs:64-71 | Reducing a factor first does not change the product modulo q |
| `NegacyclicRing.ModTimesAssociates` | quarantine/lattice.rs:46-74 | The product modulo q is associative |
| `NegacyclicRing.ModTimesDistributes` | quarantine/lattice.rs:34-74 | The product modulo q distributes over the sum modulo q |
| `LatticePoly.SourceParametersFit` | quarantine/lattice.rs:14-16 | Degree 256 and modulus 3329 keep every intermediate value within its machine type |
| `LatticePoly.WrapsAround` | quarantine/lattice.rs:49-71 | The machine types keep a number in their range and within a multiple of 2^32 or 2^64 of the exact one |
| `LatticePoly.RemThenCorrect` | quarantine/lattice.rs:65-71 | The truncating remainder, corrected when negative, is the residue in [0, q) |
| `LatticePoly.RawFits` | quarantine/lattice.rs:49-56 | Every partial sum of the schoolbook product, even doubled, fits in i64 |
| `LatticePoly.RawFolds` | quarantine/lattice.rs:58-62 | Subtracting the upper half from the lower half gives the negacyclic convolution |
| `LatticePoly.Schoolbook` | quarantine/lattice.rs:52-56 | The double loop leaves the plain product in the array |
| `LatticePoly.Fold` | quarantine/lattice.rs:59-62 | The downward loop leaves the negacyclic convolution in the lower half |
| `LatticePoly.PolyMul` | quarantine/lattice.rs:47-74 | Multiplication is negacyclic convolution modulo q with results in [0, q), without overflow |
| `LatticePoly.PolyAdd` | quarantine/lattice.rs:35-44 | Addition is coefficient-wise modulo q with results in [0, q), without overflow |
| `LatticeScheme.MaskedSum` | quarantine/lattice.rs:119-125 | The accumulating loop and the final error addition compute the masked inner product |
| `LatticeScheme.GenerateKey` | quarantine/lattice.rs:117-125 | The public key is A s + e, entry by entry |
| `LatticeScheme.AddMessage` | quarantine/lattice.rs:174-188 | The first n message bits, lowest bit of each byte first, add q/2 modulo q in place; other coefficients stay |
| `LatticeScheme.Encrypt` | quarantine/lattice.rs:136-191 | The ciphertext is u = A^T r + e1 and v = t^T r + e2 + (q/2) m |
| `LatticeScheme.MessageSpellsData` | quarantine/lattice.rs:193-204 | Eight coefficients of the message after one another spell a byte of the data, lowest bit first, and coefficients beyond the data are zero |
| `LatticeScheme.AccumulateSame` | quarantine/lattice.rs:167-170 | Reducing after every step is congruent to the exact inner product |
| `LatticeScheme.MaskedSame` | quarantine/lattice.rs:157-172 | The same for the masked inner product |
| `LatticeScheme.DotFactor` | quarantine/lattice.rs:157-170 | A common factor moves out of an inner product of polynomials |
| `LatticeScheme.Transpose` | quarantine/lattice.rs:117-170 | r . (A s) = (A^T r) . s over the ring |
| `LatticeScheme.PublicDot` | quarantine/lattice.rs:117-170 | t . r is congruent to (A^T r) . s + e . r |
| `LatticeScheme.SecretDot` | quarantine/lattice.rs:156-164 | s . u is congruent to (A^T r) . s + s . e1 |
| `LatticeScheme.LweIdentity` | quarantine/lattice.rs:91-191 | For every key pair and ciphertext, v - s . u is congruent, coefficient by coefficient, to e . r + e2 - s . e1 + (q/2) m |
| `WalkForward.WinsWithin` | src/backtest_engine.py:92-116 | Winning trades do not outnumber trades, and total P&L is gross win less gross loss |
| `WalkForward.StepBooks` | src/backtest_engine.py:322-424 | One turn either books one trade, entered on its bar, closed in the window before the next turn, and adding its P&L to the equity, or changes neither trades nor equity |
| `WalkForward.StepOk` | src/backtest_engine.py:322-424 | One turn of the scan keeps: entry before exit before the next entry, exits in the window, equity equal to capital plus summed P&L; earlier trades stay |
| `WalkForward.ScanFromOk` | src/backtest_engine.py:322-424 | The same for the whole scan of a window |
| `WalkForward.NewTradesStartLater` | src/backtest_engine.py:323-424 | Trades found from index i on are entered at i or later |
| `WalkForward.SignalReadsThePast` | src/backtest_engine.py:324-335 | The signal for index i is the same for two windows that agree before test bar i |
| `WalkForward.QueryHolds` | src/backtest_engine.py:324-335 | The signal is given the last hundred training closes and volumes, then those of the test bars before i, and the rolling figures |
| `WalkForward.ExitLeavesRightly` | src/backtest_engine.py:357-401 | The exit is on the first bar from i + 2 on that reaches the stop or the target, at the stop less friction if it reaches the stop and else at the target less friction; without one it is the close of the last bar of the holding time or of the window; both sides |
| `WalkForward.OpenedRightly` | src/backtest_engine.py:350-414 | A trade is entered at the next open with friction, sized between 10 dollars and a tenth of the equity, left as the exit rule says, and booked with its move less the commission; none is made exactly if the entry price is not positive |
| `WalkForward.StoppedLoses` | src/backtest_engine.py:356-393 | A stopped trade loses exactly the stop percentage and the friction on the stop price; with a friction of at least zero and a stop of at most 100% that is at least the stop percentage, on either side |
| `WalkForward.StepFollowsSignal` | src/backtest_engine.py:327-424 | A signal that some filter blocks moves the scan on by one bar; an admitted one opens the trade it calls for, long for a purchase and short for a sale |
| `WalkForward.StepKeepsStats` | src/backtest_engine.py:416-420 | The figures given to the signal are fixed ones before five trades, and from then on the win rate and averages of the trades so far |
| `WalkForward.WinsAreWinning` | src/backtest_engine.py:92-100 | The number of wins is the number of trades with positive P&L |
| `WalkForward.WindowKeepsStats` | src/backtest_engine.py:306-420 | The same for the whole scan of a window |
| `WalkForward.SameFirstExit` | src/backtest_engine.py:370-397 | The first stop or target hit is the same for bars that agree up to it |
| `WalkForward.SameExit` | src/backtest_engine.py:367-401 | The same for the exit with its time limit |
| `WalkForward.SameStep` | src/backtest_engine.py:323-424 | A turn of the scan is the same for bars that agree up to the exit it finds |
| `WalkForward.NoLookAhead` | src/backtest_engine.py:322-424 | Two windows that agree up to and including the exit bar of the k-th trade have the same first k trades |
| `WalkForward.RunWindows` | src/backtest_engine.py:291-304 | The number of windows is floor((n - train) / test) when the data suffice, each is placed after the last, and its trades are in order |
| `WalkForward.TrainingPrecedes` | src/backtest_engine.py:295-301 | A window trains on the closes and volumes of the bars before it, and tests the bars after them |
| `WalkForward.RunTradesRightly` | src/backtest_engine.py:285-435 | Every trade of every window of a run is entered after fifty bars, and entered, left and booked as above on the bars of its window |
| `WalkForward.PlacedAdjacent` | src/backtest_engine.py:433-433 | Each test window ends where the next begins |
| `WalkForward.RunNoLookAhead` | src/backtest_engine.py:291-435 | No look-ahead over the whole run: series of equal length that agree before a bar give the same first k trades in every window in which those trades are closed by then |
| `WalkForward.FindExit` | src/backtest_engine.py:367-401 | The exit loop returns the specified exit, and leaves on the first bar that reaches stop or target, the stop first, or at the close at the time limit |
| `WalkForward.TakeTrade` | src/backtest_engine.py:355-414 | The trade filled at the next open, sized, left and booked rightly, or none where its constructor raises |
| `WalkForward.ScanWindow` | src/backtest_engine.py:309-424 | The scan loop computes the trades, the equity and the engine state of the specification |
| `WalkForward.RunWindow` | src/backtest_engine.py:294-426 | One window is fitted on its training bars and scanned on its test bars |
| `WalkForward.Run` | src/backtest_engine.py:285-435 | The rolling loop computes the windows of the specification, and every trade in them is right on its bars; too few bars give none |
| `Observations.BackfillMatures` | src/agent_d.py:1597-1680 | A run leaves closed rows as they are; an open return after 5, 15 or 60 minutes becomes, in percent, the move to the first later sample at least that old if it is at most 8, 20 or 70 minutes old, and stays open exactly without one; the status follows from the returns and the age |
| `Observations.RiseExactly` | src/agent_d.py:1569-1570 | A recorded return is positive exactly if the price rose, and negative exactly if it fell |
| `Observations.WholeCounts` | src/agent_d.py:1656-1684 | The three counts of a run are the numbers of rows changed, resolved and expired by it |
| `Observations.MatchExists` | src/agent_d.py:1637-1645 | A horizon can be filled exactly if some later sample lies inside its tolerance |
| `Observations.MatchStable` | src/agent_d.py:1641-1649 | A match, once decided, is not changed by later samples |
| `Observations.MaturedFromHistory` | src/agent_d.py:1626-1660 | A run over partly filled rows gives a row what a run over fresh rows gives it |
| `Observations.BackfillIsBatch` | src/agent_d.py:1584-1692 | The same for all rows of a symbol: three returns and status |
| `Observations.BackfillKeepsConsistent` | src/agent_d.py:1626-1685 | A run keeps rows consistent with their history |
| `Observations.ArrivalKeepsConsistent` | src/agent_d.py:1750-1760 | So does a new sample that is not older than the others |
| `Observations.ExpiryIsFinal` | src/agent_d.py:1655-1656 | Expiry never discards a horizon that later samples could fill |
| `Observations.InsertKeepsOrder` | src/agent_d.py:1623-1623 | A stored row takes its place in (epoch, id) order |
| `Observations.InsertHoldsAll` | src/agent_d.py:1623-1623 | Sorting loses no row |
| `Observations.BackfillIsBatchExactly` | src/agent_d.py:1626-1660 | A run over rows with a past equals a run over fresh rows exactly if every closed or recorded horizon is what the stored samples decide now |
| `Observations.ReplayClosed` | src/agent_d.py:1572-1692 | Any order of arrivals and runs leaves resolved rows complete and expired rows incomplete and too old, over the samples in (epoch, id) order |
| `Observations.AnyScheduleIsBatchExactly` | src/agent_d.py:1572-1692 | For any order of arrivals and runs, the next run equals one batch run over all samples exactly if every decision still stands |
| `Observations.FoundAfterInsert` | src/agent_d.py:1640-1645 | What an arrival in any position does to the sample found for a row and a horizon |
| `Observations.LateSampleHarmsExactly` | src/agent_d.py:1628-1645 | One more sample, however late, keeps live and batch in agreement exactly if for no decided horizon it is in tolerance, first among the stored samples and of another return |
| `Observations.LateSampleIsLost` | src/agent_d.py:1628-1629 | At an input: a sample that arrives after its row expired is not used, although a batch run uses it |
| `Observations.ReplayConsistent` | src/agent_d.py:1572-1692 | Any schedule of ordered arrivals and runs leaves rows consistent with their history |
| `Observations.AnyScheduleIsBatch` | src/agent_d.py:1584-1692 | After any such schedule, a run leaves exactly the rows of one batch run over the whole history |
| `Observations.LiveIsBatch` | src/agent_d.py:1738-1760 | So does a run after every arrival |
| `Observations.StartUpChangesNothing` | src/agent_d.py:1311-1313 | The run at start-up changes nothing after a live session |
| `Observations.BisectLeft` | src/agent_d.py:1641-1641 | Binary search finds the first sample that has reached the target epoch |
| `Observations.FillHorizon` | src/agent_d.py:1638-1649 | A recorded return is kept; an open one is the return to the first sample old enough, if that is not too old |
| `Observations.FillRow` | src/agent_d.py:1632-1649 | The loop over the three horizons does that for each |
| `Observations.BackfillGroup` | src/agent_d.py:1622-1685 | The loop over the rows of a symbol rewrites them as the specification says and counts the changes |
| `Observations.LearningEngine.HandleObservation` | src/agent_d.py:1738-1760 | An arrival stores a row and runs the matcher for its symbol, unless symbol, time or price is unusable |
| `Observations.LearningEngine.BackfillSymbol` | src/agent_d.py:1584-1692 | The run for one symbol; a count of zero means nothing changed |
| `Observations.LearningEngine.BackfillAll` | src/agent_d.py:1584-1692 | The run over all symbols; a count of zero means nothing changed |
| `TrendTest.DenominatorPositive` | src/agent_d.py:337-339 | The denominator of the slope is never zero for two or more values |
| `TrendTest.PairSumExpands` | src/agent_d.py:336-336 | The sum over pairs in terms of the count, the total and the moment |
| `TrendTest.NumeratorIsPairSum` | src/agent_d.py:333-336 | The count times the regression numerator is the sum of (j - i)(x_j - x_i) over all pairs i < j |
| `TrendTest.DecliningIsPairSum` | src/agent_d.py:328-341 | A series declines exactly if it has three values or more and that sum is negative |
| `TrendTest.MonotoneSeries` | src/agent_d.py:328-341 | Strictly decreasing series of three or more decline, non-decreasing series never do |
| `TrendTest.NeverBoth` | src/agent_d.py:343-345 | A series increases exactly if that sum is positive, and never both increases and declines |
| `FillLedger.SeenIsBooked` | src/agent_c_ibkr.py:637-644 | The remembered ids are the ids of the distinct callbacks delivered |
| `FillLedger.TotalsAreSums` | src/agent_c_ibkr.py:646-655 | For any duplicated and reordered delivery, an order's quantity, notional and commission are the sums over distinct ids |
| `FillLedger.BookHoldsPostings` | src/agent_c_ibkr.py:639-653 | When ids identify callbacks, the book holds exactly the postings that were delivered |
| `FillLedger.DeliveryOrderIrrelevant` | src/agent_c_ibkr.py:625-767 | Two deliveries of the same callbacks, in any order and number of copies, give the same totals |
| `FillLedger.OrderWeighted` | src/agent_c_ibkr.py:652-655 | While fills lie between two prices, so does the quantity-weighted average |
| `FillLedger.FilledOrderHasQuantity` | src/agent_c_ibkr.py:652-654 | A filled order has positive quantity |
| `FillLedger.AveragePriceBetweenFills` | src/agent_c_ibkr.py:652-655 | The average price is notional over quantity and lies between the lowest and the highest fill |
| `FillLedger.SlippageIdentity` | src/agent_c_ibkr.py:715-725 | Slippage less improvement is signed quantity times the move, both are non-negative and one is zero |
| `FillLedger.AlignedMeetsIdentity` | src/agent_c_ibkr.py:708-725 | An alignment meets that identity in the intended price and quantity from before it |
| `FillLedger.AverageIsRatio` | src/agent_c_ibkr.py:652-655 | For fills of positive quantity the average is notional over quantity, and a filled order has quantity |
| `FillLedger.FillAdds` | src/agent_c_ibkr.py:629-663 | A new fill adds its shares, and its shares at its price or else at its average price, to its order, whose average times quantity is its notional; other orders stay |
| `FillLedger.FillMoves` | src/agent_c_ibkr.py:693-741 | A new fill in the direction of the first position it concerns moves that position to the average of its order; a fill against it, or one that concerns another, changes nothing |
| `FillLedger.ReportCharges` | src/agent_c_ibkr.py:757-806 | A new report charges its order, and the first position it concerns if the position carries that order |
| `FillLedger.CopiesChangeNothing` | src/agent_c_ibkr.py:639-640 | A callback with an id that was seen before changes nothing |
| `FillLedger.PositionFollowsOrder` | src/agent_c_ibkr.py:625-806 | After any duplicated and reordered delivery the position is aligned to its order's average, or untouched without a fill, and charged its order's commission |
| `FillLedger.DeliverySettlesPosition` | src/agent_c_ibkr.py:625-806 | After any such delivery with a fill: entry price is the sum of notionals over the sum of quantities of the distinct fills, intended price and quantity are those from before, commission is the sum of the distinct reports, and slippage less improvement is signed quantity times (VWAP - originally intended price) |
| `FillLedger.RoundTripSettles` | src/agent_c_ibkr.py:625-806 | Through a round trip, an entry order in the direction of the position and any exit orders against it, the position stands at the average of its entry order, charged that order's commission |
| `FillLedger.DeliveryOrderIrrelevantToPosition` | src/agent_c_ibkr.py:625-806 | Two deliveries of the same callbacks, in any order and number of copies, leave the same prices and costs |
| `FillLedger.Position.AlignEntry` | src/agent_c_ibkr.py:707-725 | The whole new state of the position: entry price, both costs, intended price and quantity, with the commission as it was |
| `FillLedger.Connection.AlignFirstMatch` | src/agent_c_ibkr.py:694-741 | The loop moves the first position that the fill concerns to the average if the fill is in its direction, and leaves every other as it was |
| `FillLedger.Connection.OnExecDetails` | src/agent_c_ibkr.py:625-741 | The callback makes the specified step of the ledger and of every position |
| `FillLedger.Connection.ChargeFirstMatch` | src/agent_c_ibkr.py:787-806 | The loop charges the first matching position if the report is for its entry, and changes nothing else |
| `FillLedger.Connection.OnCommissionReport` | src/agent_c_ibkr.py:743-806 | The callback makes the specified step of the ledger and of every position |
| `PositionSizing.KellyIs` | src/agent_c_ibkr.py:1768-1768 | Twice the reward/risk ratio times the Kelly fraction is the win probability times the ratio less the loss probability; it is zero without a positive ratio |
| `PositionSizing.EdgeExactly` | src/agent_c_ibkr.py:1768-1769 | The Kelly fraction is positive exactly if there is an edge |
| `PositionSizing.NoEdgeNoRisk` | src/agent_c_ibkr.py:1766-1788 | Without balance, NAV or an edge (reward/risk not positive, or win probability times one plus it at most 1) the risk before the floor is not positive |
| `PositionSizing.NothingToTrade` | src/agent_c_ibkr.py:1761-1852 | Any non-positive balance, NAV or regime modifier, or no edge, gives size zero |
| `PositionSizing.CappedFits` | src/agent_c_ibkr.py:1873-1878 | After the cap the size is at most one share or its notional fits |
| `PositionSizing.ScaledDown` | src/agent_c_ibkr.py:1906-1912 | Rounding a downsized positive count leaves at least one share and no more than before |
| `PositionSizing.DownsizedShrinks` | src/agent_c_ibkr.py:1897-1912 | Neither downsizing branch raises the size |
| `PositionSizing.SizeFitsCap` | src/agent_c_ibkr.py:1854-1912 | For every input the size is 0, 1 or a count whose notional fits min(10% of usable NAV, hard cap) |
| `PositionSizing.SizeFitsCapExactly` | src/agent_c_ibkr.py:1871-1912 | A proposed size respects the notional cap exactly if one share does |
| `PositionSizing.OneShareMayExceedCap` | src/agent_c_ibkr.py:1878-1878 | The one-share floor can exceed the notional cap |
| `PositionSizing.RisksFollow` | src/agent_c_ibkr.py:1766-1815 | The dollar risks in terms of the inputs: the least of three shares of the usable balance, three bounded factors, the floor, the limit and the two safety factors |
| `PositionSizing.RiskLimitHoldsExactly` | src/agent_c_ibkr.py:1800-1815 | The risk of step 7 respects the limit of one trade exactly if the account is not small or the limit is at least 2 dollars |
| `PositionSizing.SizeFollows` | src/agent_c_ibkr.py:1818-1952 | The size in terms of the inputs and that risk: refused, rejected, or the last of the counts rounded to the nearest, raised to the minimum value, cut to the cap and downsized |
| `PositionSizing.Calculate` | src/agent_c_ibkr.py:1739-1952 | The chain of reassigned steps computes the specified size and risk, fits the cap, and is zero without an edge in the inputs |
| `TtlCache.OldestIsFirst` | src/api_cache.py:152-152 | Among several earliest deadlines the first in insertion order is chosen |
| `TtlCache.SetBounded` | src/api_cache.py:99-107 | A write keeps the size within max(1, max_size) |
| `TtlCache.LimitHoldsExactly` | src/api_cache.py:105-107 | After a write the size is within max_size exactly if max_size is at least 1 |
| `TtlCache.GetAgrees` | src/api_cache.py:83-97 | A read returns nothing or exactly what an unbounded expiring map returns, and exactly that for a key never evicted since its last write |
| `TtlCache.StepKeepsInv` | src/api_cache.py:59-146 | Every operation keeps: entries agree with the reference map, missing ones expired or were evicted, the order lists each key once, size within the bound, hits plus misses equal reads since the last clear |
| `TtlCache.RunKeepsInv` | src/api_cache.py:59-146 | The same over every run |
| `TtlCache.StartInv` | src/api_cache.py:34-41 | And an empty cache has it |
| `TtlCache.LiveEvictionIsForced` | src/api_cache.py:148-153 | Of two caches with the same live entries, if one has to evict a live one then both hold the same entries and must |
| `TtlCache.WriteKeepsSameLiveExactly` | src/api_cache.py:103-107 | A write keeps two caches with the same live entries alike exactly if they do not have to evict different live ones |
| `TtlCache.SameLiveStep` | src/api_cache.py:59-146 | Without a tie for eviction, caches with the same live entries answer alike and stay so, whatever expired entries they hold and in whatever order |
| `TtlCache.SameLiveRun` | src/api_cache.py:59-146 | The same over every run without ties |
| `TtlCache.PruningUnobservable` | src/api_cache.py:59-71 | In a run in which no full store of live entries has two with the earliest deadline at a write, pruning changes no later answer |
| `TtlCache.PruningUnobservableExactly` | src/api_cache.py:59-71 | No later run can observe a prune exactly if max_size is at most 2, or the next operation would prune anyway, or no entry has expired |
| `TtlCache.AlikeRun` | src/api_cache.py:59-146 | With room for at most two entries, caches with the same live entries in the same order answer every run alike |
| `TtlCache.StepAlike` | src/api_cache.py:59-146 | Each operation keeps the live entries and their order the same and returns the same |
| `TtlCache.DuePruneUnobservable` | src/api_cache.py:130-134 | A prune 60 seconds or more after the last one changes no later answer: the next read, write or prune collapses the difference |
| `TtlCache.ExpiredKeyDistinguished` | src/api_cache.py:99-153 | With room for three entries, caches that differ by one held key are told apart by some run |
| `TtlCache.TiedApartDistinguished` | src/api_cache.py:148-153 | Caches with equal entries of one deadline and different first keys are told apart by filling them up |
| `TtlCache.DistinctDeadlinesTieFree` | src/api_cache.py:102-107 | While every write has a deadline that no stored entry has, there are no such ties |
| `TtlCache.PruningObservedAtTie` | src/api_cache.py:59-71 | At an input with a tie, pruning changes a later answer |
| `TtlCache.RunKeeps` | src/api_cache.py:59-146 | An entry survives every run that does not write, invalidate, clear or evict its key, until its deadline |
| `TtlCache.StoredIsKept` | src/api_cache.py:83-107 | So a stored value is what every such later read returns until the deadline |
| `TtlCache.GetExactly` | src/api_cache.py:83-97 | A read finds the entry exactly up to its deadline, counts a hit exactly then, and leaves exactly the standing entries, less an expired one under its key |
| `TtlCache.SetExactly` | src/api_cache.py:99-107 | A write stores the value with now plus its time to live; if the standing entries fill the cache, one with the earliest deadline goes, and nothing else does |
| `TtlCache.SetThenGetExactly` | src/api_cache.py:83-107 | A written value is found by the next read exactly up to its time to live |
| `TtlCache.SweepExactly` | src/api_cache.py:59-146 | A prune removes exactly what has expired, an invalidation its key, a clear everything |
| `TtlCache.FindOldest` | src/api_cache.py:152-152 | One pass over the dictionary finds that key |
| `TtlCache.TTLCache.DeleteAll` | src/api_cache.py:66-68 | The loop deletes the listed keys and counts them |
| `TtlCache.TTLCache.PruneNow` | src/api_cache.py:59-71 | Exactly the expired entries are removed and counted; the others keep their order |
| `TtlCache.TTLCache.PruneWhenDue` | src/api_cache.py:130-134 | Pruning happens when 60 seconds have passed since the last one |
| `TtlCache.TTLCache.Lookup` | src/api_cache.py:83-97 | The read of the specification, with its counters |
| `TtlCache.TTLCache.EvictOldest` | src/api_cache.py:148-153 | The first entry with the earliest deadline is removed, if there is an entry |
| `TtlCache.TTLCache.MakeRoom` | src/api_cache.py:105-106 | That eviction takes place at capacity only |
| `TtlCache.TTLCache.Assign` | src/api_cache.py:107-107 | A present key keeps its place and a new one goes last |
| `TtlCache.TTLCache.Store` | src/api_cache.py:99-107 | The write of the specification: eviction at capacity, then the entry with its deadline |
| `TtlCache.TTLCache.GetOrFetch` | src/api_cache.py:109-128 | A cached value is returned; otherwise the fetched value is, and unless it is None it is stored in whatever cache the operations run during the fetch have left |
| `TtlCache.TTLCache.Perform` | src/api_cache.py:59-146 | Any operation makes its specified step |
| `TtlCache.TTLCache.Drop` | src/api_cache.py:136-139 | One key is removed |
| `TtlCache.TTLCache.Flush` | src/api_cache.py:141-146 | Entries and counters are reset |
| `BayesianOracle.RowsComplementExactly` | src/bayesian_oracle.py:36-45 | The likelihoods of the two buckets of a feature add up to one in every regime exactly unless the feature is the VIX |
| `BayesianOracle.EvidenceSpeaks` | src/bayesian_oracle.py:36-45 | Each bucket is strictly most likely in one regime: positive momentum, low VIX and positive breadth under BULL, negative ones under BEAR, high VIX and expanding volume under HIGH_VOL, contracting volume under SIDEWAYS |
| `BayesianOracle.OneStepIsBayes` | src/bayesian_oracle.py:117-131 | Posterior times probability of the evidence is prior times likelihood, regime by regime |
| `BayesianOracle.StepTotalBounded` | src/bayesian_oracle.py:36-46 | For every distribution and bucket the unnormalised total is at least 0.05 |
| `BayesianOracle.StepNormalises` | src/bayesian_oracle.py:121-133 | The near-zero skip is never taken on a distribution, and the result is a distribution |
| `BayesianOracle.SequentialIsOneShot` | src/bayesian_oracle.py:117-135 | Sequential normalised updating equals one normalisation of prior times joint likelihood |
| `BayesianOracle.EvidenceOrderIrrelevant` | src/bayesian_oracle.py:121-133 | The order of the evidence does not matter |
| `BayesianOracle.JointIgnoresOrder` | src/bayesian_oracle.py:121-126 | The joint likelihood depends only on the multiset of evidence |
| `BayesianOracle.Leader` | src/bayesian_oracle.py:76-76 | The MAP regime is the first, in dictionary order, with the largest posterior |
| `BayesianOracle.DecayKeepsRanking` | src/bayesian_oracle.py:80-80 | Decay gives a distribution with every regime at least 1/80 and keeps the order of the regimes |
| `BayesianOracle.DecayKeepsLeader` | src/bayesian_oracle.py:75-80 | Decay keeps the MAP regime, whose posterior is at least 1/4 |
| `BayesianOracle.DecayShrinksDistance` | src/bayesian_oracle.py:76-76 | The decay shrinks the distance of every prior from 1/4 by 5% |
| `BayesianOracle.RunKeepsFloor` | src/bayesian_oracle.py:66-94 | After every run of updates the priors are a distribution with every regime between 1/80 and 77/80 |
| `BayesianOracle.NoRegimeLockedOut` | src/bayesian_oracle.py:79-80 | After any run, a regime's next posterior is at least 1/80 of its share of the largest joint likelihood |
| `BayesianOracle.Evidence` | src/bayesian_oracle.py:96-115 | Evidence is one to four known buckets, and never empty: the VIX bucket is always there, high exactly above 20 |
| `BayesianOracle.VolumeComparesAverages` | src/bayesian_oracle.py:103-105 | Volume expands exactly if the average of the last five exceeds 1.05 times that of the last ten, and contracts otherwise |
| `BayesianOracle.BreadthCountsDays` | src/bayesian_oracle.py:108-110 | Breadth is positive exactly if the price rose on at least six of the last ten days, and negative otherwise |
| `BayesianOracle.ShortDataGivesNothing` | src/bayesian_oracle.py:96-110 | A feature without enough data gives no evidence, and momentum with enough data is one of the two |
| `BayesianOracle.MomentumComparesTwoPrices` | src/bayesian_oracle.py:99-102 | The sum of log returns telescopes: momentum is positive exactly if the last price exceeds the one 21 bars back, or the oldest of exactly 21 |
| `BayesianOracle.HistoryHoldsRecent` | src/bayesian_oracle.py:90-92 | The bounded history holds the most recent 500 states in order |
| `BayesianOracle.BayesUpdate` | src/bayesian_oracle.py:117-135 | The loop computes the one-shot posterior |
| `BayesianOracle.Oracle.Update` | src/bayesian_oracle.py:66-94 | One update: posteriors by Bayes' rule from the old priors, MAP state, decayed priors, bounded history, count |
| `BeliefTracker.UpdateInNumbers` | src/agent_b.py:370-436 | One update in numbers: the stretch by market state, the bounds 0.1 and 0.9, Bayes' rule, the bounds 0.01 and 0.90, and the action below 0.35 and above 0.80 |
| `BeliefTracker.KindsAreOrdered` | src/agent_b.py:324-332 | The table falls strictly from a large move toward to a medium move against, confirms down to a small move toward, and an unknown kind is neutral |
| `BeliefTracker.ScalingKeepsSide` | src/agent_b.py:386-394 | Scaling and clamping keep evidence on its side of one half |
| `BeliefTracker.GuardInactive` | src/agent_b.py:399-408 | For a probability the evidence has probability at least 0.1, so the division guard is not active |
| `BeliefTracker.GuardInactiveExactly` | src/agent_b.py:405-408 | After a reset to any number, the guard is never needed exactly if the belief lies in a stated interval around [0, 1] |
| `BeliefTracker.PosteriorMonotone` | src/agent_b.py:399-411 | A higher prior gives a posterior that is not lower |
| `BeliefTracker.PosteriorStrict` | src/agent_b.py:399-411 | A strictly higher prior gives a strictly higher posterior |
| `BeliefTracker.RunMonotone` | src/agent_b.py:357-414 | Under one evidence sequence, a tracker that starts higher never ends lower |
| `BeliefTracker.BeliefBounded` | src/agent_b.py:413-414 | After at least one update, from any number, the belief lies in [0.01, 0.90] for good |
| `BeliefTracker.UnclampedMultipliesOdds` | src/agent_b.py:396-411 | Without clamps a run multiplies the prior odds by all the likelihood ratios |
| `BeliefTracker.UnclampedIgnoresOrder` | src/agent_b.py:396-411 | So without clamps the order of the evidence does not matter |
| `BeliefTracker.CapLowers` | src/agent_b.py:413-414 | A run that never meets the floor ends at or below the unclamped run, and equal to it exactly if the cap never bites |
| `BeliefTracker.FloorRaises` | src/agent_b.py:413-414 | A run that never meets the cap ends at or above the unclamped run, and equal to it exactly if the floor never bites |
| `BeliefTracker.OrderIrrelevant` | src/agent_b.py:396-414 | Orders in which no clamp bites end in the same belief |
| `BeliefTracker.OrderIrrelevantExactly` | src/agent_b.py:396-414 | Another order of clamp-free evidence, that does not meet both bounds, ends in the same belief exactly if no clamp bites there either |
| `BeliefTracker.RunMultipliesOdds` | src/agent_b.py:396-414 | A run multiplies the prior odds by all the likelihood ratios and by the correction each clamp makes |
| `BeliefTracker.SameEndExactly` | src/agent_b.py:396-414 | Two orders of the same evidence, whatever clamps they meet, end in the same belief exactly if the net corrections of their clamps agree |
| `BeliefTracker.EvidenceMovesBelief` | src/agent_b.py:396-411 | The posterior exceeds the prior exactly for likelihoods above one half, and falls below it exactly for likelihoods below |
| `BeliefTracker.ConfirmingFirstIsLost` | src/agent_b.py:413-414 | At the cap, confirming before opposing evidence ends strictly lower than the other way round |
| `BeliefTracker.Tracker.Create` | src/agent_b.py:339-350 | A prior outside the open unit interval is refused |
| `BeliefTracker.Tracker.Update` | src/agent_b.py:357-433 | The new belief, the recorded entry and the EXIT, ADD or HOLD action |
| `BeliefTracker.Tracker.Reset` | src/agent_b.py:435-438 | Back to the initial prior or to any given number, with an empty history |
| `SocketFanout.StepKeepsInv` | src/api_server.py:470-528 | Every event keeps: a socket is registered exactly while its writer runs, queues hold at most 100, and the counter of an address is its live plus its leaked slots, at most 3 |
| `SocketFanout.RunKeepsInv` | src/api_server.py:470-528 | The same over every interleaving |
| `SocketFanout.LiveWithinCounter` | src/api_server.py:470-528 | Live sockets of an address never exceed its counter, which never exceeds 3, and equal it exactly without a failed handshake |
| `SocketFanout.ReleaseIsExact` | src/api_server.py:525-528 | A release takes exactly one from the counter; the default and the floor never act |
| `SocketFanout.ExcludedExactly` | src/api_server.py:473-482 | No continuation ever has a live connection of an address exactly if three of its handshakes have failed |
| `SocketFanout.FailedHandshakesExclude` | src/api_server.py:473-482 | After three failed handshakes an address never has a live connection again |
| `SocketFanout.FourthConnectionRefused` | src/api_server.py:471-482 | At an input: after three failed handshakes no socket is live, the counter is 3 and a fourth connection is refused |
| `SocketFanout.MessagesArrive` | src/api_server.py:473-528 | After any run, a new socket of an address with a free slot is handed, in order, what is broadcast after its writer starts: everything up to a hundred messages, and the first hundred of more |
| `SocketFanout.Stations` | src/api_server.py:473-528 | A starting writer registers an empty queue, an ending one deregisters it and keeps the slot, a disconnect closes the socket |
| `SocketFanout.HandedInOrder` | src/api_server.py:487-500 | What the sender was given, followed by what is queued, is what the queue held and accepted, in order; for a closed connection it is a prefix of that |
| `SocketFanout.HandedFromOffered` | src/api_server.py:233-246 | In every interleaving, the messages given to a client's sender are an in-order subsequence of those broadcast while it was registered |
| `SocketFanout.NoDropWithRoom` | src/api_server.py:242-246 | Nothing is dropped as long as no more than the queue limit is on offer |
| `SocketFanout.ClientsIndependent` | src/api_server.py:242-246 | What a client accepts and receives does not depend on the events of other clients |
| `SocketFanout.Server.Admit` | src/api_server.py:471-479 | Admission up to three per address |
| `SocketFanout.Server.Handshake` | src/api_server.py:482-505 | The handshake returns and the writer task is created, or it raises and the slot stays taken |
| `SocketFanout.Server.StartWriter` | src/api_server.py:487-490 | The writer registers an empty queue for its socket and changes no other |
| `SocketFanout.Server.BroadcastToAll` | src/api_server.py:233-246 | The loop offers the message to every registered queue and drops it for full ones only |
| `SocketFanout.Server.TakeNext` | src/api_server.py:492-494 | The head of the queue goes to the sender |
| `SocketFanout.Server.EndWriter` | src/api_server.py:496-500 | A writer that ends deregisters its socket |
| `SocketFanout.Server.Release` | src/api_server.py:520-528 | A disconnect deregisters the socket and returns its slot |
| `TradeSummary.ValidFilters` | src/backtester.py:38-38 | The valid trades are those with another outcome than invalid, in their order and with their copies |
| `TradeSummary.WinnersCount` | src/backtester.py:54-56 | There are as many winners as positive R-multiples and as many losers as negative ones |
| `TradeSummary.TallyCounts` | src/backtester.py:67-70 | The tally of a name is the number of trades with that pattern, or without one for UNKNOWN |
| `TradeSummary.GrossAmounts` | src/backtester.py:54-61 | Gross wins less gross losses is the total; each is zero exactly without trades of its kind |
| `TradeSummary.DrawdownIsWorstFall` | src/backtester.py:63-65 | The running-peak drawdown is the minimum over all s <= t of equity_t - equity_s, and attained |
| `TradeSummary.DrawdownRange` | src/backtester.py:63-65 | It is never positive, never beyond the gross loss, and zero exactly without losers |
| `TradeSummary.ProfitFactorAboveOne` | src/backtester.py:60-62 | The profit factor exceeds 1 exactly if there are losers and the total is positive |
| `TradeSummary.CountPatterns` | src/backtester.py:67-70 | The counting loop holds exactly the tally of every pattern name, with the names in order of first appearance |
| `TradeSummary.NamesComplete` | src/backtester.py:67-70 | Those names are distinct and are the patterns of the trades |
| `TradeSummary.NamesInOrder` | src/backtester.py:67-70 | A name that is listed before another has appeared in a trade before it |
| `TradeSummary.ByCountSorts` | src/backtester.py:81-81 | The listing falls by count, and patterns of equal count keep the order of first appearance |
| `TradeSummary.CountsAddUp` | src/backtester.py:67-81 | The listed counts add up to the number of valid trades |
| `TradeSummary.ProfitFactorPerLoss` | src/backtester.py:60-62 | The profit factor times the gross loss is the gross win, and it is zero without losers |
| `TradeSummary.NoSpreadExactly` | src/backtester.py:58-59 | The squared distances from the mean add up to zero exactly if all R-multiples are the mean, which is when the ratio is not formed |
| `TradeSummary.SharpeFromDeviation` | src/backtester.py:58-59 | The ratio has the sign of the total, and its square is that of the mean over the sample variance; it is zero below two trades or without spread |
| `TradeSummary.Summarize` | src/backtester.py:39-84 | Win rate, average, Sharpe proxy, profit factor, drawdown and pattern listing are those of the valid trades and consistent with each other, also for none |

## Left out

- FindCycle: building the graph from files, `build_graph`, is file reading.
- LweIdentity: decryption is not part of the source, and the worst-case noise exceeds q/4, so no success of decryption is claimed.
- TotalsAreSums: callbacks with an empty execution id are booked every time, as in the source, so the theorems ask for non-empty ids.
- DeliverySettlesPosition: it is about a position whose entry fills and commissions are those of one order; a position entered by several orders follows the last of them, as in the source.
- Summarize: the computation of the square root that gives the sample deviation is not part of this model.
- HandedFromOffered: the first full-state message goes past the queue, and the shutdown of the server, the token check and delivery on the wire are not part of this model.
- Calculate: the log messages, the parsing of inputs and the dollar figures other than the risk are left out; the impact estimate is a parameter.
- OnExecDetails: the list of positions holds distinct objects; audit records, cost snapshots and time stamps are output only.
- Floating-point rounding, logarithms and square roots: the model is over exact reals, without NaN or infinity.
- Annualised ratios and maximum drawdown of the walk-forward results, and the SPRT, entropy and expectancy parts of the learning engine: statistics outside the modelled loops.
- Pattern detectors, mode switches, dashboards and training scripts: threshold tests that their branches settle, or plumbing.
- Brokers, databases, HTTP, message buses and vaults: input and output.
- Short-side losses in the trade simulator of the backtester: they come out positive in the source, and the model starts from the R-multiples it is given.
