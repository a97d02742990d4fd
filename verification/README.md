# Verified model of the longshot harness, its simulators and the Explorer

A Dafny model of the parts of the repository where money, idempotency or numbering can go
wrong, with the properties those parts are meant to have proved for all inputs and, where
there is state, for all runs. `dafny verify dfyconfig.toml` checks everything.

## What is modelled

**The live tick** (`Money`, `Book`, `Reconcile`, `Risk`, `Discovery`, `Execution`, `Client`,
`LiveTick`). One call of `run_once` as imperative Dafny over the objects the source has: the
in-memory state, the running `PortfolioRisk`, the executor, the state file and the kill file.
`LiveTick.RunOnce` is proved to compute the function `Tick`; the theorems are about `Tick` and
about `Run`, any sequence of ticks, settlements, deposits, kill-file changes and crashes.

The exchange is a ledger: cash, accepted orders, settlements, and a log of every POST that
reached the wire. Each tick is given a script with the reply to every order that might be
sent: how the order fills (brought into the range an IOC order allows) and what the client
learns of it - an inline fill, fills that polling does or does not list, a rejection, a 429
whose exception escapes, or a lost reply whose confirmation finds, misses or itself fails.
Quantifying over scripts therefore covers every behaviour these rules allow, including the
process dying between a fill and the save, and a save that fails. A market that has settled
is not offered again, and prices and cash are counted in ten-thousandths of a dollar, the grid
the source rounds to; only the two-decimal roundings lose anything, by at most half a cent.

- `LiveInvariants`: what every step, tick and run keeps.
- `LiveExposure`: the running figures are the folds that define them.
- `LiveCaps`, `LiveOnce`: caps, at most one fill per market, what is sent, the kill switch.
- `LiveWitness`: runs, from an empty account, on which a property without its condition fails, and one on
  which live and paper agree.
- `LivePaper`: the two affordability tests, and exactly when live is a refinement of paper discovery.
- `LiveEquity`, `LiveBreaker`: conservation of equity, and the daily-loss line.

**The bankroll simulators** (`Bankroll`, `ShortSim`, `FavoritesSim`): one engine and one loop - cash, locked
capital, a heap of settlements, equity marks - used by the shorting and by the favorites simulator.

**The phrase expander** (`Text`, `Spelling`, `Variants`): ASCII normalization, the number
speller with a listener that inverts it, and the de-duplicated expansion.

**The Explorer** (`Baseline`, `Window`, `Panel`, `Streaks`): median and MAD, the recovery of a
windowed rate from two rounded cumulative ticks, the metric panel and the rules it fires, the
append-only ledger and its streaks.

**The max-hold filter** (`MaxHold`) of the on-chain backtest.

## Where the obvious claim is false

Each has its exact condition and a failing input.

- The executor's docstring promises that a replayed tick never double-submits
  (`backend/longshot/execution.py:9-10`). The id protects one hour: no answer of the exchange can
  fill a market twice exactly when it has not traded or its id of this hour is taken
  (`SendFillsOnceExactly`). Across hours the protection is the adopted orphan, hence the reading of
  positions: `AtMostOneFill` with it, the run of `BlindTickFillsTwice` without it.
- Caps hold for one order exactly when no filled order holds its id, or booking that order would keep
  them (`SendWithinCapsExactly`); for a tick, if it read its positions or the hour is new, and lists no
  two tickers that differ only in punctuation (`TickWithinCaps`). `BlindTickBreaksCap` is a run on which
  a stale order exceeds one.
- Order ids separate hours, and tickers only up to punctuation (`ClientOrderIdInjective`,
  `ClientOrderIdsCollide`). So a position can be booked on a market that never traded
  (`PhantomExactly`, `TwinsBookPhantom`).
- Start-of-day equity "holds still" (`backend/longshot/risk.py:81-83`) through settlements exactly when no
  open record gained more by rounding its collateral to cents than it paid in fees
  (`SettlingHoldsExactly`, `SettlingAtFractionFalls`).
- "Leaves equity unchanged" (`backend/longshot/live_run.py:86-88`) is true up to the fee and the rounding
  of the new collateral (`OpeningMovesLine`). One fill costs at most its fee exactly when its collateral
  does not round down (`FillCostsFeeExactly`); which fills those are only the exchange decides, so no
  order it can take is safe beforehand (`SafeToSendExactly`, `OpeningAtFractionFalls`).
- The breaker can trip in profit when equity is negative or the fraction is not a proper one
  (`TripInProfitExactly`, `TripsOnNegativeEquity`, `TripsOnWholeFraction`).
- The depth fraction bounds the clip exactly when it allows a whole contract; below that the floor of one
  overrides it (`DepthBoundExactly`, `FloorOverridesDepth`).
- Sizing and the gate disagree on affordability only when neither the price nor the room is whole cents
  (`DisagreeExactly`, `FractionsCanDisagree`) - so never on a balance of whole cents
  (`FreeCashNeverBinds`).
- The ledger is "idempotent per (date, rule)" (`backend/explorer/observe.py:5`), and its ids are unique
  exactly when no appended rule fires twice in a tick (`IdsStayUnique`). None does as long as the
  option-chain capture has one line per currency, which is what `backend/explorer/sources.py:73-76`
  expects; but the capture appends to the day's file and is documented as safe to run hourly
  (`backend/vrp/capture.py:18-19`, `backend/vrp/capture.py:71-75`), and a second run can fire a deviation
  twice (`TwoCapturesDuplicateId`).
- "Entries == exits" (`backend/onchain/backtest/backtest.py:138`) holds exactly when the last signal
  acted on is not long, or the filter zeroes its day (`EntriesAndExits`, `OpenAtTheEnd`).

One documented range is narrower than the truth: `_spell_under_1000` is described for 0..999, is called
with up to 1999, and works exactly that far (`SpellUnder1000`, `SpellNumber`).

## Model

| member | source | states |
|---|---|---|
| `Money.RoundCents` | backend/longshot/reconcile.py:199-208 | `round(x, 2)`: a whole number of cents within half a cent of the amount, of two equally near the even one |
| `Money.BookedMonotone` | backend/longshot/live_run.py:139 | booked collateral `round((1 - price) * n, 2)` is non-negative and never grows when fewer contracts fill at a better price |
| `Money.LockedWhole` | backend/longshot/paper_run.py:99-102 | at a whole-cent price the collateral of any number of contracts is whole cents |
| `Money.FeeIsCeiling` | backend/longshot/kalshi_client.py:23-26 | the fee is the least whole number of cents covering 0.07 * n * P * (1 - P) |
| `Money.FeeMonotone` | backend/longshot/kalshi_client.py:23-26 | a smaller clip never pays a larger fee, and no fee is negative |
| `Money.TruncIsFloor` | backend/longshot/paper_run.py:100-101 | Python `int()`: the greatest integer not above a non-negative amount, the least not below a negative one |
| `Book.OpenCountIs` | backend/longshot/reconcile.py:197-198 | the open count is the number of open records |
| `Book.DeployedMoves` | backend/longshot/reconcile.py:202 | rewriting one record moves deployed collateral by what that record locks while it is open, and by nothing else |
| `Book.NothingLocked` | backend/longshot/reconcile.py:202 | and it is zero where nothing is locked |
| `Reconcile.NetPnlIsCashFlow` | backend/longshot/reconcile.py:49-56 | net P&L is the cash flow of a short: collateral and fee out, a dollar a contract back on NO, nothing on YES |
| `Reconcile.LocalState.ApplySettlements` | backend/longshot/reconcile.py:106-134 | the in-place loop computes `Settle` of the old list and returns the number of records it moved |
| `Reconcile.LocalState.HealSettledPnl` | backend/longshot/reconcile.py:59-82 | the in-place loop computes `Heal` of the old list and returns the number of records it changed |
| `Reconcile.LocalState.AdoptOrphans` | backend/longshot/reconcile.py:148-171 | the appending loop computes `Adopt` of the old list and returns the number adopted |
| `Reconcile.SettleOnce` | backend/longshot/reconcile.py:106-134 | positions move only from open to settled and only once, nothing but the settlement fields changes, and the count returned is the drop in open positions |
| `Reconcile.SettleIdempotent` | backend/longshot/reconcile.py:106-134 | settling again with the same rows, on any later day, changes nothing |
| `Reconcile.HealAfterSettle` | backend/longshot/reconcile.py:59-82 | healing right after settling leaves a freshly settled record as it is |
| `Reconcile.HealCanonical` | backend/longshot/reconcile.py:59-82 | after healing every priced settled record carries the canonical P&L and nothing else is rewritten, a second pass changes nothing, and a pass changes nothing exactly when all records were canonical |
| `Reconcile.HealCountIs` | backend/longshot/reconcile.py:59-82 | the count returned is the number of records that were mis-booked |
| `Reconcile.AdoptKeeps` | backend/longshot/reconcile.py:148-171 | adoption only appends, repeats no ticker, leaves deployed collateral alone (an orphan counts 0), and afterwards exactly the old tickers and those of nonzero holdings are known |
| `Reconcile.LookupIs` | backend/longshot/reconcile.py:108 | the row that settles a ticker is the last one for it |
| `Reconcile.SettlesExactly` | backend/longshot/reconcile.py:110-132 | an open record whose row reports yes or no settles that day on that outcome: a priced one for the cash flow of its filled (or asked) contracts, an orphan for the reported revenue less collateral and fee, or nothing; every other record is left alone |
| `Reconcile.AdoptsExactly` | backend/longshot/reconcile.py:155-169 | each record adopted is open, for the contracts of the first nonzero holding of its ticker whichever side it is on, with nothing else known |
| `Reconcile.FiguresMove` | backend/longshot/reconcile.py:137-145 | rewriting one record moves the realized figures, total and of a day, by what that record realizes once settled (on that day), and by nothing else |
| `Reconcile.FiguresStart` | backend/longshot/reconcile.py:137-145 | and they are zero in a book in which nothing has settled |
| `Reconcile.WinsAre` | backend/longshot/reconcile.py:200 | a win is a record settled for NO |
| `Reconcile.SnapshotShows` | backend/longshot/reconcile.py:193-217 | the snapshot counts the open, the settled and the won records, and shows deployed, realized and balance plus deployed to the nearest cent |
| `Risk.PretickTripsExactly` | backend/longshot/risk.py:78-99 | the breaker trips, in profit or in loss, exactly when today's loss reaches the absolute line, or the fraction is on, equity is known and the loss reaches that fraction of equity plus the loss; the kill switch goes first |
| `Risk.DeployedCapIs` | backend/longshot/risk.py:68-76 | a total is within the deployed cap exactly when it is within the absolute ceiling, and within the fraction of equity where that is on and equity known |
| `Risk.GateAllowsExactly` | backend/longshot/risk.py:101-139 | an order passes the gate exactly when it passes every test, written out |
| `Risk.NoTripInProfit` | backend/longshot/risk.py:78-99 | with non-negative equity and a fraction in [0, 1) the breaker never trips on a day in profit |
| `Risk.TripInProfitExactly` | backend/longshot/risk.py:78-99 | exactly when it does trip on a profitable day otherwise |
| `Risk.TripsOnNegativeEquity` | backend/longshot/risk.py:78-99 | an input on which a profitable day trips the breaker: negative equity |
| `Risk.TripsOnWholeFraction` | backend/longshot/risk.py:78-99 | and another: a fraction of one, on no equity but the profit |
| `Risk.ThresholdFallsExactly` | backend/longshot/risk.py:78-88 | the line falls exactly when start-of-day equity falls and the fraction, not the absolute cap, is what binds afterwards |
| `Risk.ThresholdFallsAtMost` | backend/longshot/risk.py:78-88 | and by at most the fraction of that fall |
| `Discovery.ClipSizeIsLargest` | backend/longshot/paper_run.py:99-101 | the clip is the largest number of contracts within the equity fraction and the depth fraction, with a floor of one that overrides both |
| `Discovery.SizedExactly` | backend/longshot/paper_run.py:78-109 | a market is sized exactly when its quotes are present, the ask is in the band, there is a bid, open interest and time to close pass their tests, and the clip locks a cent at least and fits in the equity not deployed; it is sold at its bid, for its largest clip |
| `Discovery.DepthBoundExactly` | backend/longshot/paper_run.py:101 | the clip stays within the depth fraction exactly when that fraction of the depth is at least one contract |
| `Discovery.FloorOverridesDepth` | backend/longshot/paper_run.py:101 | an input on which it does not: a quarter of a depth of two |
| `Discovery.CandidateFacts` | backend/longshot/paper_run.py:78-109 | whatever is sized had its ask in the band and passed every other filter, is priced strictly inside a dollar, is priced from its own size, locks at least a cent and at most the room left |
| `Discovery.DiscoverReports` | backend/longshot/paper_run.py:135-183 | every candidate of discovery is a market listed and not yet held, whose ask is in the band and which passes every other filter, the oracle's included, at its bid; no market is one twice |
| `Discovery.FlattenIs` | backend/longshot/paper_run.py:156-166 | a listing that was read contributes its markets in its place, one that failed nothing |
| `Discovery.UpperIs` | backend/longshot/paper_run.py:112-122 | the capitals are those of the alphabet |
| `Discovery.GroupIsSeries` | backend/longshot/paper_run.py:112-122 | the correlation group depends on the series prefix alone, whatever event and strike follow |
| `Discovery.GroupOfBare` | backend/longshot/paper_run.py:112-122 | a ticker without a dash is its own series |
| `Discovery.GroupMoves` | backend/longshot/paper_run.py:125-132 | rewriting one record moves a group's figure by what that record locks in it while open, and by nothing else |
| `Discovery.GroupMapIs` | backend/longshot/paper_run.py:125-132 | each entry of the dictionary is the open collateral of that group |
| `Discovery.DeployedByUnderlying` | backend/longshot/paper_run.py:125-132 | the loop computes that dictionary; every lookup in it equals the fold over the open positions |
| `Discovery.DiscoverCandidates` | backend/longshot/paper_run.py:135-183 | the nested loops, with a listing that may fail per series and an oracle that may fail closed, compute the fold `Discover` over all markets in order |
| `Discovery.DiscoverOne` | backend/longshot/paper_run.py:166-182 | the loop body is one step of that fold: candidates, exclusions, running exposure and group totals together |
| `Discovery.ScanOneExactly` | backend/longshot/paper_run.py:166-182 | a market becomes a candidate exactly when it is new, passes every test and its group has room; exposure and the group then grow by its collateral |
| `Discovery.TrimIsNative` | backend/longshot/live_run.py:31-46 | a trimmed clip is priced exactly as sizing prices a clip of that size, fits the cap, and costs no more collateral or fee than the original |
| `Exchanges.FillOf` | backend/longshot/kalshi_client.py:93-114 | the fills allowed of an IOC order: at most the count, at a price no worse than the limit and at most a dollar, no negative fee |
| `Exchanges.TakenIsFound` | backend/longshot/kalshi_client.py:125-130 | looking up the id of an order just taken finds that order |
| `Exchanges.FindOrderAppend` | backend/longshot/kalshi_client.py:125-130 | a later order never hides an earlier one with the same id |
| `Execution.FillIsHeard` | backend/longshot/execution.py:97-115 | a fill that is heard, inline or by polling, is booked with its contracts and price, and the fee shown or the formula fee |
| `Execution.HeardIsOneOf` | backend/longshot/execution.py:79-115 | what is booked is the earlier order that holds the id, if there is one, and otherwise this order's fill |
| `Execution.HeardExactly` | backend/longshot/execution.py:65-115 | how an order ends: an exception escapes on a 429, or when the search after a lost reply fails; with no order to read it is an error carrying nothing; else filled, partial or unfilled by what was read |
| `Exchanges.HoldingsShow` | backend/longshot/reconcile.py:148-158 | the positions endpoint shows, with a nonzero count, exactly the unsettled markets with a fill |
| `Exchanges.SubmitKeepsLedger` | backend/longshot/live_run.py:86-88 | every POST keeps cash equal to the funds paid in less what the accepted orders cost, and accepted ids distinct |
| `Exchanges.ResolveKeepsLedger` | backend/longshot/reconcile.py:119-121 | resolving a market, once, keeps the same identity: a NO pays a dollar a contract, a YES nothing |
| `Execution.ClientOrderIdInjective` | backend/longshot/execution.py:57-63 | two order ids coincide exactly when the hours are equal and the tickers agree once stripped of punctuation |
| `Execution.ClientOrderIdsCollide` | backend/longshot/execution.py:57-63 | different brackets can share an id: `B8.95` and `B89.5` do |
| `Execution.CleanKeeps` | backend/longshot/execution.py:57-63 | stripping keeps exactly the capitals, small letters and digits of a ticker, in place |
| `Execution.CleanFixpoint` | backend/longshot/execution.py:57-63 | a ticker of letters and digits is left alone |
| `Execution.CleanIsPlain` | backend/longshot/execution.py:57-63 | what is left of any ticker is letters and digits, which is what the exchange accepts |
| `Execution.BracketsApart` | backend/longshot/execution.py:57-63 | brackets of one event that differ and are made of letters and digits, such as B85 and B87, have different ids |
| `Execution.OrderIdFormat` | backend/longshot/execution.py:57-63 | the id: prefix, letters and digits of the ticker, the hour in decimal, dashes in between |
| `Decimal.ParsePrint` | backend/longshot/execution.py:63 | the hour is printed in decimal: reading it back gives the hour |
| `Execution.Executor.SettleOrder` | backend/longshot/execution.py:117-139 | the polling loop reads the first list of fills that is not empty, of at most four: contracts summed, price weighted by contracts, fees summed or the formula fee |
| `Execution.SumsOfRow` | backend/longshot/execution.py:128-136 | what is summed over a list of fills: each row adds its contracts, contracts times price, and the fee it shows |
| `Execution.VwapNearest` | backend/longshot/execution.py:133-137 | the average price is the nearest ten-thousandth to contracts times price over contracts, of two equally near the even one |
| `Execution.FourPolls` | backend/longshot/execution.py:122-139 | fills are read exactly when one of the first four polls lists them |
| `Execution.PollingReads` | backend/longshot/execution.py:117-139 | however the fills of an order are split into rows, what is read is its contracts, its price and its fee (or the formula fee), if one of the polls lists them, and nothing otherwise |
| `Execution.Executor.PlaceShort` | backend/longshot/execution.py:65-115 | one POST, never repeated; the exchange moves by exactly that POST and the result is `Hear` of it; a dry run touches nothing |
| `Client.Request` | backend/longshot/kalshi_client.py:55-79 | without retry exactly one request is sent and only a 429 is reported as exhausted; with it at most four, and the last is the first conclusive one |
| `LiveTick.Harness.Choose` | backend/longshot/live_run.py:116-134 | sizing, trimming, correlation cap and gate on the running objects decide exactly as the specification `Decide` |
| `LiveTick.Harness.BookFill` | backend/longshot/live_run.py:138-160 | booking a fill advances the position list, the three running exposure figures, the group dictionary and the count together |
| `LiveTick.Harness.Execute` | backend/longshot/live_run.py:135-164 | placing an order and booking what came of it is `Send`, including the exception that escapes |
| `LiveTick.Harness.Consider` | backend/longshot/live_run.py:115-164 | the loop body is `Step` |
| `LiveTick.Harness.WalkSeries` | backend/longshot/live_run.py:115-164 | one series, market by market, until done or dead |
| `LiveTick.Harness.WalkMarkets` | backend/longshot/live_run.py:108-164 | the nested loops over series and markets are the walk over all listed markets; a failed listing is skipped and an escaping exception ends everything |
| `LiveTick.ReconcileState` | backend/longshot/live_run.py:63-71 | settle, heal, adopt, in this order, against one reading of the exchange |
| `LiveTick.ReadExposure` | backend/longshot/live_run.py:75-94 | start-of-tick exposure, equity captured once |
| `LiveTick.GatePretick` | backend/longshot/risk.py:90-99 | the pre-tick decision, and the sentinel a daily-loss breach writes if it can |
| `LiveTick.Harness.Trade` | backend/longshot/live_run.py:103-164 | discovery and placement happen exactly when the gate is open, the balance is known and the oracle is available, and leave the tick at `EndWalk` |
| `LiveTick.Harness.Save` | backend/longshot/live_run.py:168-190 | the snapshot, with the balance re-read once something was opened, and the save that may fail |
| `LiveTick.RunOnce` | backend/longshot/live_run.py:49-190 | the whole tick, as written, takes the persisted world to `Tick` of it: exchange, state file, kill file and snapshot, with the save as the last step |
| `LiveTick.DeadStays` | backend/longshot/execution.py:85-95 | once an exception has escaped nothing more happens in the tick |
| `LiveTick.TickOpensOnly` | backend/longshot/live_run.py:99-164 | between reconciliation and save no record changes; what is new is open, whole-cent collateral, and counted as opened |
| `LiveInvariants.DecideFacts` | backend/longshot/live_run.py:115-134 | everything that held when an order was sent: size, limit, room under each cap, kill switch off, ticker new |
| `LiveInvariants.DecideExactly` | backend/longshot/live_run.py:115-134 | an order goes out exactly when the market is listed with its ask in the band, passes every other filter and the oracle, is new, has room in its group, is within the per-trade cap after trimming, and fits the position cap, the deployed cap and the free cash; it sells the trimmed clip at the bid |
| `LiveInvariants.ReconciledShape` | backend/longshot/live_run.py:63-71 | reconciliation rewrites settlement fields in place and appends open unpriced orphans, nothing else |
| `LiveInvariants.TickKeeps` | backend/longshot/live_run.py:49-190 | a tick keeps the world invariant, whether it completes, dies or fails to save |
| `LiveInvariants.RunKeeps` | backend/longshot/live_run.py:49-190 | over every run - ticks, settlements, deposits, kills, crashes - no ticker is recorded twice, each order id is accepted once, and cash is the funds less what the orders cost |
| `LiveExposure.RunningFiguresAreFolds` | backend/longshot/live_run.py:77-160 | at every point of every tick the running deployed collateral, open count, spend and each group entry equal the folds over the position list |
| `LiveCaps.ReadingPositionsMakesKnown` | backend/longshot/reconcile.py:148-171 | after a reconcile that read positions every filled, unsettled market is in the book, even after a crash |
| `LiveCaps.HeardIsThisOrder` | backend/longshot/execution.py:79-115 | when every fill is known and no two tickers differ only in punctuation, what the client books is the fill of the very order it sent |
| `LiveCaps.StaleIsBooked` | backend/longshot/execution.py:85-91 | a lost reply on a refused order books the order that holds the id, whatever was asked for now |
| `LiveCaps.SendWithinCapsExactly` | backend/longshot/live_run.py:131-160 | an admitted order keeps every cap under every answer of the exchange exactly when no filled order holds its id, or booking that order would keep them too |
| `LiveCaps.TickWithinCaps` | backend/longshot/live_run.py:107-160 | after every market of a tick that starts with no filled order holding the id of a market it may sell, and lists no two tickers that differ only in punctuation: order sizes within the per-trade cap; deployed, open count, spend and each group no higher than the larger of its start and its cap |
| `LiveCaps.ReadingIsFresh` | backend/longshot/reconcile.py:148-171 | a tick that read its positions starts so, if no two tickers differ only in punctuation |
| `LiveCaps.NewHourIsFresh` | backend/longshot/live_run.py:54 | so does a tick of a new hour, whatever it could read |
| `LiveCaps.ReachableTickWithinCaps` | backend/longshot/live_run.py:107-160 | from an empty account, after any run over tickers no two of which differ only in punctuation, a tick that reads its positions keeps every cap |
| `LiveCaps.PhantomExactly` | backend/longshot/execution.py:85-91 | a lost reply books a position on a market that never traded exactly when a filled order of another market holds the id |
| `LiveWitness.BlindTickBreaksCap` | backend/longshot/live_run.py:131-160 | a run on which the deployed cap is exceeded: four contracts filled and lost, then, in the same hour, two admitted blindly and four booked |
| `LiveWitness.TwinsBookPhantom` | backend/longshot/execution.py:57-63 | a run, on an empty account with all reads succeeding, on which one of two bracket tickers is booked without ever trading |
| `LiveOnce.SendFillsOnceExactly` | backend/longshot/execution.py:65-115 | no answer of the exchange can fill a market twice exactly when the market has not traded or the id of this hour is already taken |
| `LiveOnce.AtMostOneFill` | backend/longshot/live_run.py:63-76 | over all interleavings of ticks, lost replies and crashes before the save, at most one short per market is filled if each tick reads its positions |
| `LiveOnce.AtMostOneFillEver` | backend/longshot/live_run.py:63-76 | in particular from an empty account |
| `LiveWitness.BlindTickFillsTwice` | backend/longshot/reconcile.py:94-98 | without that read a market is filled twice: a run from an empty account, filled and rate-limited in one hour, sold again in the next |
| `LiveOnce.OneOrderPerHour` | backend/longshot/live_run.py:54 | within one hour no two accepted orders are on markets that agree up to punctuation |
| `LiveOnce.TickPostsOnce` | backend/longshot/live_run.py:115-137 | in one tick no market is ever sent a second order, whatever came of the first |
| `LiveOnce.EveryOrderSized` | backend/longshot/risk.py:109-112 | in every run each order sent is for between one contract and the per-trade cap, at a limit strictly inside a dollar |
| `LiveOnce.TickPostsQuoted` | backend/longshot/live_run.py:115-137 | every order of every tick is on a market listed in that tick whose ask was in the band and which passed every other filter, at its bid, for its trimmed clip, under the id of the hour |
| `LiveOnce.StepPostsExactly` | backend/longshot/live_run.py:115-137 | on one market an order goes out exactly when the tick is alive and not a dry run, the market has not settled and every test passes, the sentinel just read included |
| `LiveOnce.DryRunCounts` | backend/longshot/live_run.py:135-164 | a dry run touches neither exchange nor book; it counts each order it would have sent, once |
| `LiveOnce.TickTradesExactly` | backend/longshot/live_run.py:95-115 | a tick sends nothing on a kill, a daily loss, an unknown balance or an unavailable oracle; any other offers every market that was listed, in order |
| `LiveOnce.TickSavesExactly` | backend/longshot/live_run.py:178-190 | only a tick that runs to its end and can write saves its book and shows a snapshot; no other touches the book |
| `LiveOnce.KillStopsTheTick` | backend/longshot/risk.py:107-108 | when the sentinel appears mid-tick not one more order goes out in that tick |
| `LiveOnce.KillIsFinal` | backend/longshot/risk.py:24-37 | once the sentinel is written no later tick sends an order until it is removed |
| `LiveOnce.DailyLossHalts` | backend/longshot/live_run.py:95-107 | a tick on a day whose loss, summed over the records settled that day, reaches the line sends nothing and, if it can write, leaves the sentinel; a sentinel it starts its walk with was there or is due to such a loss |
| `LiveOnce.BookOnlyGrows` | backend/longshot/reconcile.py:106-134 | over any run the book only grows, and no settled record is un-settled or flipped |
| `LiveOnce.WinsRiseWithSettled` | backend/longshot/reconcile.py:197-217 | between two books of a run the wins rise by at least 0 and at most the newly settled |
| `LiveOnce.SnapshotCounts` | backend/longshot/live_run.py:178-187 | the snapshot counts the saved book: open and settled make it up, the wins are its records settled for NO, realized and deployed are its sums to the nearest cent, the settled total grew by exactly `settled_this_tick`, the book grew by exactly `opened_this_tick`, and it says killed exactly when the next tick would be |
| `LivePaper.AffordabilityAgrees` | backend/longshot/risk.py:111-138 | a clip that sizing admits against start-of-tick equity is never refused for free cash, before or after trimming, nor a trimmed one for its size; whole cents on either side suffice |
| `LivePaper.DisagreeExactly` | backend/longshot/risk.py:111-138 | sizing and the free-cash test disagree exactly when the other tests pass and rounding the collateral to cents carries it past the room; then neither the room nor the price is whole cents |
| `LivePaper.FractionsCanDisagree` | backend/longshot/paper_run.py:102-108 | a market at 8.5 cents and an account of 91.5 cents on which they do |
| `LivePaper.FreeCashNeverBinds` | backend/longshot/risk.py:119-138 | at any point of any tick missing cash is never the reason for a refusal, if the balance read or the bid is whole cents |
| `LivePaper.DecisionMirrors` | backend/longshot/live_run.py:115-134 | while what paper takes fits the caps of the gate, the live decision on a market is the paper decision: it sends just what paper takes, at its size, and nothing else |
| `LivePaper.LiveRefinesPaper` | backend/longshot/live_run.py:103-160 | when the candidates of paper fit the caps of the gate, have free ids and fill in full at the bid, the live loop opens exactly the candidates `discover_candidates` returns: same markets, order, sizes, prices, collateral; nothing is asked of the markets paper passes over, except that none kills the tick |
| `LivePaper.LiveRefinesPaperExactly` | backend/longshot/live_run.py:103-160 | the condition on the caps is exact: on a tick that starts with no filled order holding the id of a market it may sell, lists no two tickers that differ only in punctuation, and fills what paper takes in full, live opens exactly the candidates of paper if and only if they fit the deployed cap, the position cap and equity |
| `LiveWitness.PaperAndLiveAgree` | backend/longshot/live_run.py:103-160 | such a tick, with half of equity deployed at most: paper takes a market, and live just that one |
| `LivePaper.PaperFitsEquity` | backend/longshot/paper_run.py:99-103 | what paper deploys fits in equity, when equity and the collateral already deployed are whole cents |
| `LiveEquity.BookBalances` | backend/longshot/reconcile.py:203-208 | in a complete, current book cash plus locked collateral equals funds plus settled P&L minus open fees, up to what the booked fees differ from those charged |
| `LiveEquity.ShownFeesLeaveNoGap` | backend/longshot/execution.py:102-108 | they do not differ when every fee was shown |
| `LiveEquity.BookedCollateral` | backend/longshot/reconcile.py:202 | recorded collateral is within half a cent per open position of the exact one, and exact at whole-cent prices |
| `LiveEquity.ReconcileComplete` | backend/longshot/live_run.py:63-71 | reconciling a complete book adopts nothing and heals nothing, and with settlements read it becomes current |
| `LiveEquity.OrderlyIsHeard` | backend/longshot/execution.py:79-115 | an orderly reply is booked as exactly the fill that happened, contracts and price, with the fee shown or the formula fee, if no two tickers differ only in punctuation |
| `LiveEquity.RunStaysComplete` | backend/longshot/live_run.py:49-190 | a run that loses no fill, over tickers no two of which differ only in punctuation, keeps the book complete: no orphan ever appears |
| `LiveEquity.TickBalances` | backend/longshot/live_run.py:77-94 | the accounting identity holds at the start and at the end of a tick that loses no fill |
| `LiveEquity.ReportedEquity` | backend/longshot/live_run.py:168-178 | in any reachable world a tick that completes without an orphan - every fill there ever was is in its book - and re-reads the balance if it opened anything, reports funds plus settled P&L minus open fees (and what the booked fees overstate), to half a cent per open position and the final rounding, exactly at whole-cent prices |
| `LiveEquity.OrderlyRunReportsEquity` | backend/longshot/live_run.py:168-178 | such are all runs, from an empty account, in which every fill is heard of and no two tickers differ only in punctuation |
| `LiveEquity.StaleBalanceInflates` | backend/longshot/live_run.py:168-176 | why the balance is re-read: the start-of-tick cash is too high by exactly the collateral and the charged fees of the fills, and it is what is reported when the re-read fails |
| `LiveBreaker.StartOfDayIs` | backend/longshot/risk.py:78-88 | at any price, start-of-day equity of a complete book is funds plus the P&L of other days minus open fees (and what the booked fees overstate) plus the rounding of the booked collateral, at most half a cent per open position |
| `LiveBreaker.SettlingMovesLine` | backend/longshot/risk.py:78-88 | any number of settlements, of priced records at any price and of adopted orphans, moves start-of-day equity by exactly the rounding gains given back, less the fees freed and any payout on a market with nothing open in the book |
| `LiveBreaker.SettlingTightensExactly` | backend/longshot/risk.py:78-88 | they tighten the line exactly when that is a fall and the fraction is what binds afterwards |
| `LiveBreaker.SettlingHoldsExactly` | backend/longshot/risk.py:78-88 | whatever resolves, start-of-day equity never falls, exactly when no open record gained more by rounding than it paid in fees |
| `LiveBreaker.UsuallyCovered` | backend/longshot/live_run.py:139 | whole-cent prices, orphans, and fees of half a cent or more meet that condition |
| `LiveBreaker.SettlingCostsAtMost` | backend/longshot/risk.py:78-88 | at worst it falls by half a cent per settled record |
| `LiveBreaker.SavedBookSettles` | backend/longshot/live_run.py:63-71 | every run from an empty account whose ticks read their positions, over tickers no two of which differ only in punctuation and with polls that list all fills of an order or none, saves, in a tick that also read the settlements, a book to which these theorems apply |
| `LiveWitness.SettlingAtFractionFalls` | backend/longshot/risk.py:81-83 | a run on which a settlement does move the line toward the account: one contract sold at 4.5 cents with a fee of 0.3 cents |
| `LiveBreaker.OpeningMovesLine` | backend/longshot/live_run.py:86-89 | opening shorts, at any price, moves start-of-day equity by exactly the fees charged and the rounding of the new collateral: at worst half a cent a position, and nothing at whole-cent prices |
| `LiveBreaker.FillCostsFeeExactly` | backend/longshot/live_run.py:86-89 | one fill that is heard of moves start-of-day equity by its fee and the rounding of its own collateral; it costs at most the fee exactly when that collateral does not round down, so always at a whole-cent price |
| `LiveBreaker.SliverCosts` | backend/longshot/live_run.py:86-89 | a fill that costs more than its fee, for any order the exchange can take: one contract at 99.99 cents |
| `LiveBreaker.SafeToSendExactly` | backend/longshot/live_run.py:86-89 | before sending: an order is sure to cost at most its fee, whatever fill is heard of, exactly when it cannot be taken - a dry run, no ticker, an id already used |
| `LiveWitness.OpeningAtFractionFalls` | backend/longshot/live_run.py:86-89 | a run on which it costs more: one contract sold at 4.6 cents |
| `LiveBreaker.OpeningCostsAtMost` | backend/longshot/risk.py:78-88 | new shorts lower the line by at most the fraction of their fees and of half a cent each |
| `Bankroll.PushSorted` | backend/kalshi_backtest/short_sim.py:166 | pushing keeps the queue in tuple order, with exactly the new lot added |
| `Bankroll.BeforeIsLexicographic` | backend/kalshi_backtest/short_sim.py:115 | tuple order: the first of settlement, contracts, price, outcome and basis that differs decides |
| `Bankroll.PopRecords` | backend/kalshi_backtest/short_sim.py:118-137 | a settlement is recorded with the equity right after it |
| `Bankroll.PeakLockedIs` | backend/kalshi_backtest/simulate.py:232-233 | the peak is the most capital ever locked after an entry, and zero before any |
| `Bankroll.MarkDrawdown` | backend/kalshi_backtest/short_sim.py:92-96 | comparing each mark with the running peak alone yields the worst fall from any level to any later one, within [-1, 0] |
| `Bankroll.SettleDueOk` | backend/kalshi_backtest/short_sim.py:123-137 | settling up to a time keeps the books, leaves exactly the later lots in the heap and realizes the profit of the rest |
| `Bankroll.AdvanceHolds` | backend/kalshi_backtest/short_sim.py:139-140 | when the clock advances to an entry the heap is exactly the accepted lots settling after it |
| `Bankroll.TakeOk` | backend/kalshi_backtest/short_sim.py:141-166 | an entry keeps the accounting: a trade, a skip or nothing |
| `Bankroll.PlayOk` | backend/kalshi_backtest/short_sim.py:139-168 | the loop common to both simulators keeps the accounting after every arrival and at the end |
| `Bankroll.PlayHolds` | backend/kalshi_backtest/simulate.py:178-181 | in that loop, just before each arrival the heap is exactly the accepted lots settling after it |
| `Bankroll.FinishOk` | backend/kalshi_backtest/short_sim.py:168-170 | after the final settlement the heap is empty, nothing is locked, and every admitted key was counted once |
| `Bankroll.Ledger.Settle` | backend/kalshi_backtest/simulate.py:163-176 | the settlement loop computes `SettleDue` |
| `Bankroll.Ledger.OpenLot` | backend/kalshi_backtest/simulate.py:228-235 | opening a position computes `Open`: cash, locked, counts, fees, peak and heap |
| `ShortSim.SizeIsLargest` | backend/kalshi_backtest/short_sim.py:145-154 | the trade is the largest number of contracts within the equity fraction and the entry-day volume fraction, or one |
| `ShortSim.LotOfOk` | backend/kalshi_backtest/short_sim.py:126-136 | a short returns a dollar a contract on NO and nothing on YES |
| `ShortSim.FeeIsCeiling` | backend/kalshi_backtest/short_sim.py:155 | the fee is the least whole number of cents that covers 0.07 * n * p * (1 - p) dollars |
| `ShortSim.DecideDescribes` | backend/kalshi_backtest/short_sim.py:144-166 | a trade is a short of the sized contracts: collateral out, collateral and a dollar-a-contract payoff back on NO, its fee paid at once |
| `ShortSim.TradesExactly` | backend/kalshi_backtest/short_sim.py:141-159 | a row is traded exactly when its ticker is new, the fraction of its volume is a contract at least, and collateral and fee fit in the cash |
| `ShortSim.Outcome` | backend/kalshi_backtest/short_sim.py:123-170 | the outcome over the rows traded: the premiums of the NOs less the collateral of the YESes and all fees; exactly the NOs are wins |
| `ShortSim.Accounting` | backend/kalshi_backtest/short_sim.py:112-170 | after every row: cash >= 0, locked is the sum over the heap, cash + locked = initial + realized, wins + losses + open = trades, wins are the settled trades that won, one mark per settlement, each admitted key a trade or one skip; at the end nothing is open |
| `ShortSim.CountedOnce` | backend/kalshi_backtest/short_sim.py:141-164 | from the rows alone: each ticker is admitted once, by its first row; it is skipped for depth exactly when that row is too thin for one contract; the fees reported are those paid at entry |
| `ShortSim.Chronology` | backend/kalshi_backtest/short_sim.py:139-168 | just before each row is sized the heap holds exactly the accepted trades settling after its entry |
| `ShortSim.HistoryInOrder` | backend/kalshi_backtest/short_sim.py:118-137 | when nothing settles before its entry the equity history is in time order |
| `ShortSim.RunShortSim` | backend/kalshi_backtest/short_sim.py:99-170 | the loop as written computes the specified account and skip counts |
| `FavoritesSim.ContractsIsLargest` | backend/kalshi_backtest/simulate.py:212-218 | a favorites trade is the largest number of contracts whose asks fit in two per cent of equity, or one |
| `FavoritesSim.DecideDescribes` | backend/kalshi_backtest/simulate.py:163-173 | a favorites trade costs its asks and its fee and pays a dollar a contract when resolved YES and nothing when NO; it is a win exactly when that is more than it cost |
| `FavoritesSim.TradesExactly` | backend/kalshi_backtest/simulate.py:192-226 | a row is traded exactly when it is eligible and new, two per cent of equity are a dollar at least, and cost and fee fit in the cash |
| `FavoritesSim.Outcome` | backend/kalshi_backtest/simulate.py:163-241 | the outcome over the rows traded: a dollar for every contract resolved YES less the asks and fees of all; exactly the trades in profit are wins |
| `FavoritesSim.Accounting` | backend/kalshi_backtest/simulate.py:142-241 | the same accounting for the favorites simulator, fees locked with the cost |
| `FavoritesSim.CountedOnce` | backend/kalshi_backtest/simulate.py:192-208 | each (ticker, horizon) with an eligible row is admitted, once |
| `FavoritesSim.Chronology` | backend/kalshi_backtest/simulate.py:144-181 | walk-forward: just before each row is sized the heap holds exactly the accepted trades settling after its entry |
| `FavoritesSim.HistoryInOrder` | backend/kalshi_backtest/simulate.py:157-176 | when nothing settles before its entry the equity history is in time order |
| `FavoritesSim.RunSimulation` | backend/kalshi_backtest/simulate.py:112-241 | the loop as written computes the specified account and skip count |
| `Text.SplitJoin` | backend/app/services/verbatim_variants.py:141-150 | splitting undoes joining with single blanks |
| `Text.NormalizeIsJoin` | backend/app/services/verbatim_variants.py:67-71 | normalization is: punctuation to blanks, lower case, split into words, join with single blanks |
| `Text.NormalizeIdempotent` | backend/app/services/verbatim_variants.py:67-71 | normalizing twice is normalizing once |
| `Text.LowerIs` | backend/app/services/verbatim_variants.py:69 | each capital becomes its small letter, and nothing else changes |
| `Text.NormalizeOneWord` | backend/app/services/verbatim_variants.py:67-71 | a word of letters, digits and underscores is only put in lower case |
| `Text.NormalizeAtBreak` | backend/app/services/verbatim_variants.py:67-71 | any other character is a break: what is before it and what is after it are normalized side by side |
| `Spelling.SpellUnder1000` | backend/app/services/verbatim_variants.py:74-83 | the indexing is in range exactly below 2000 |
| `Spelling.SpellNumber` | backend/app/services/verbatim_variants.py:86-97 | spelling succeeds exactly below 2 * 10^12 |
| `Spelling.SpellByLoop` | backend/app/services/verbatim_variants.py:86-97 | the loop that divides the number down scale by scale computes the closed form |
| `Spelling.RecognizeSay` | backend/app/services/verbatim_variants.py:43-51 | each word said is the one a listener's own dictionary gives that meaning |
| `Spelling.SpellingRoundTrip` | backend/app/services/verbatim_variants.py:74-97 | a listener with a dictionary of its own recovers every spellable number from its spoken form |
| `Spelling.PlainRoundTrip` | backend/app/services/verbatim_variants.py:100-134 | and from the form used for bare numbers, year style on 1000..9999 included |
| `Spelling.PlainInjective` | backend/app/services/verbatim_variants.py:130-134 | no two numbers share a spoken form |
| `Spelling.NumberWords` | backend/app/services/verbatim_variants.py:76-80 | a number below twenty, and a multiple of ten below a hundred, is one word of that dictionary |
| `Spelling.NumberGrammar` | backend/app/services/verbatim_variants.py:74-97 | how larger numbers are said: the tens, then the ones; the hundreds, then the rest; a count of the largest scale reached, then the rest |
| `Spelling.YearGrammar` | backend/app/services/verbatim_variants.py:100-134 | a bare number of four digits is said as a year: its first two digits, then "hundred", or "oh" and a digit, or its last two; any other number plainly |
| `Decimal.ParseZero` | backend/app/services/verbatim_variants.py:117-131 | leading zeros of a number say nothing |
| `Variants.PlainPassNoDigit` | backend/app/services/verbatim_variants.py:136 | whatever the phrase, a spoken form that is produced contains no digit |
| `Variants.SpokenFormHasNoDigit` | backend/app/services/verbatim_variants.py:111-136 | if every number of the phrase is in range the spoken form exists and has no digit |
| `Variants.NumbersToWordsIdentity` | backend/app/services/verbatim_variants.py:111-136 | a phrase without digits is left alone |
| `Variants.PlainPassSays` | backend/app/services/verbatim_variants.py:130-136 | each maximal run of digits is said as the number it is, in place, and the text around it stays |
| `Variants.PlainPassOnly` | backend/app/services/verbatim_variants.py:130-136 | spoken only where every number is in range |
| `Variants.MoneyPassSays` | backend/app/services/verbatim_variants.py:116-128 | a dollar amount is said in place: one digit after the point is tens of cents, two are cents, no cents are not said, one of either is singular |
| `Variants.MoneyPassText` | backend/app/services/verbatim_variants.py:128 | text without a dollar sign stays |
| `Variants.BareDollar` | backend/app/services/verbatim_variants.py:128 | so does a dollar sign that no digit follows |
| `Variants.TokenSwapsExactly` | backend/app/services/verbatim_variants.py:139-151 | the homophone texts are exactly those with one token swapped for another word of its sound class, the classes given word by word |
| `Variants.ComputeHomophones` | backend/app/services/verbatim_variants.py:139-151 | the nested loops generate exactly the specified list |
| `Variants.ExpandShape` | backend/app/services/verbatim_variants.py:154-181 | the expansion is empty exactly when the phrase normalizes to nothing, else its normal form comes first; all variants are distinct fixpoints of `normalize`, each the normal form of something offered, under its kind |
| `Variants.ExpandHasSpoken` | backend/app/services/verbatim_variants.py:171-172 | the spoken form of the numbers is present |
| `Variants.ExpandHasSwaps` | backend/app/services/verbatim_variants.py:174-179 | every text with one word of the phrase, or of its spoken form, swapped for one that sounds like it is present in normal form |
| `Variants.ExpandOnly` | backend/app/services/verbatim_variants.py:163-179 | each variant is the normal form of the phrase, its spoken form if that differs, or such a swap of either, under that kind and no other |
| `Variants.Collector.AddText` | backend/app/services/verbatim_variants.py:163-167 | `add` keeps the list and its set of texts in agreement |
| `Variants.ExpandPhrase` | backend/app/services/verbatim_variants.py:154-181 | the procedure as written computes the specified expansion, raising where the speller raises |
| `Baseline.OrderStatistic` | backend/explorer/baseline.py:66-70 | the sorted list by counting: how many values lie below or at each order statistic |
| `Baseline.MedianIsRobust` | backend/explorer/baseline.py:66-70 | replacing fewer than half of the values, by anything, leaves the median within the range of the others |
| `Baseline.MajorityIsMedian` | backend/explorer/baseline.py:66-70 | a value held by a strict majority is the median |
| `Baseline.MedianIs` | backend/explorer/baseline.py:66-70 | the median is the middle value, or the mean of the two middle ones |
| `Baseline.MadZeroIff` | backend/explorer/baseline.py:81-102 | the MAD is never negative, and zero exactly when more than half of the values are one repeated value |
| `Baseline.RobustZProperties` | backend/explorer/baseline.py:96-107 | the score exists from three values on, is within 25, carries the sign of value - median, and is monotone in the value |
| `Baseline.RobustZScores` | backend/explorer/baseline.py:96-107 | the score is the distance from the median in units of 1.4826 MAD, of sigma where that is as good as zero, of a hundredth of the median or a millionth where both are; capped at 25 either way |
| `Baseline.SigmaOfEqual` | backend/explorer/baseline.py:73-78 | of values all at one distance from the median sigma is that distance |
| `Baseline.SigmaZeroIff` | backend/explorer/baseline.py:73-78 | sigma about the median vanishes exactly for a constant baseline |
| `Baseline.StuckScale` | backend/explorer/baseline.py:91-104 | with a repeated majority the scale is sigma about that value, and a floor relative to it only when sigma is as good as zero |
| `Baseline.History.AppendMetrics` | backend/explorer/baseline.py:43-58 | the loop appends exactly the rows of keys the day did not have, and returns their number |
| `Baseline.AppendIsIdempotent` | backend/explorer/baseline.py:43-63 | a same-day re-run writes nothing, and a day never enters its own baseline |
| `Baseline.PriorRows` | backend/explorer/baseline.py:61-63 | the baseline of a key: row by row, the values of that key from earlier dates |
| `Baseline.NewRowsByMetric` | backend/explorer/baseline.py:43-58 | metric by metric, a row of date, key and value exactly where the stored rows have none for that day and key |
| `Window.LatestAtIs` | backend/explorer/metrics.py:183-191 | the tick chosen is the last at or before the time, ties going to the later row |
| `Window.WindowReports` | backend/explorer/metrics.py:183-197 | between the latest rows of its two ends the window reports the number settled in between, where there is any, and the share of it the two rates leave, cut to [0, 1] |
| `Window.NoWindow` | backend/explorer/metrics.py:186-190 | with no row at one end it reports nothing |
| `Window.Round4Is` | backend/longshot/reconcile.py:217 | a hit rate is shown as the nearest whole number of ten-thousandths, of two equally near the even one |
| `Window.MarginalRateError` | backend/explorer/metrics.py:192-199 | the windowed rate recovered from two rates rounded to four places lies in [0, 1] and is within 0.00005 * (na + nb) / (nb - na) of the true one |
| `Window.RecoveredFromRun` | backend/explorer/metrics.py:179-199 | when the two ticks of a window were written from two moments of a run, the window reports the number settled in between and recovers their share of wins within that bound |
| `Panel.StructuralRules` | backend/explorer/rules.py:28-138 | the chain of tests fires at most one rule for a metric |
| `Panel.ApplyRules` | backend/explorer/observe.py:86-99 | the two loops fire the structural rules in order, then the deviations of the metrics no structural rule spoke for |
| `Panel.FiredExactly` | backend/explorer/rules.py:28-155 | a structural rule fires exactly when a metric meets its test, written out rule by rule; a deviation exactly when a metric of its key is 2.5 scales or more from its median, either way, and no structural rule speaks for that key |
| `Panel.DistinctKeysFireOnce` | backend/explorer/observe.py:86-99 | with distinct metric keys no rule fires twice in a tick |
| `Panel.FamiliesAreApart` | backend/explorer/metrics.py:387-397 | the panel repeats a key exactly when the option-chain metrics do |
| `Panel.PanelKeysDistinct` | backend/explorer/metrics.py:346-397 | and does not when the capture has one line per currency |
| `Panel.TwoCapturesFireTwice` | backend/explorer/metrics.py:346-371 | a second line for a currency, with a skew in both that is an outlier against the history of that key, fires the same deviation twice |
| `Streaks.Streak` | backend/explorer/observe.py:27-38 | the loop ends on every finite date set, with one plus the length of the longest run of days ending yesterday |
| `Streaks.Ledger.AppendObservations` | backend/explorer/observe.py:101-125 | the ledger part of a tick appends exactly the new rows, with their streaks |
| `Streaks.IdsStayUnique` | backend/explorer/observe.py:103-117 | ids stay unique exactly when no rule that is appended fired twice in the tick |
| `Streaks.OneCaptureKeepsIds` | backend/explorer/observe.py:86-125 | they stay unique on every day whose capture has one line per currency, whatever fires |
| `Streaks.TwoCapturesDuplicateId` | backend/explorer/metrics.py:346-371 | two captures on one day can write a deviation twice under one id: a skew of one in both, after three days at zero |
| `Streaks.RerunAddsNothing` | backend/explorer/observe.py:101-117 | a same-day re-run with the same observations adds nothing |
| `Streaks.ReplayKeepsStreaks` | backend/explorer/observe.py:101-125 | over any history in which days never go back every stored streak is one more than the run of days before it |
| `Streaks.ReplayKeepsIds` | backend/explorer/observe.py:101-125 | over any history with one capture line per currency a day ids are unique |
| `Streaks.StreakRecurrence` | backend/explorer/observe.py:27-38 | in such a ledger a stored streak is yesterday's stored streak plus one |
| `Streaks.StreakStarts` | backend/explorer/observe.py:27-38 | or one when the rule has no row for yesterday |
| `MaxHold.ApplyMaxHold` | backend/onchain/backtest/backtest.py:73-85 | the in-place array loop computes `Filter` |
| `MaxHold.FilterClosedForm` | backend/onchain/backtest/backtest.py:73-85 | day k (from 0) of a run of long days is zeroed exactly when k mod (max_hold + 1) = max_hold; all else passes unchanged |
| `MaxHold.NoRunTooLong` | backend/onchain/backtest/backtest.py:73-85 | no run of the output exceeds max_hold |
| `MaxHold.NoLookAhead` | backend/onchain/backtest/backtest.py:101-103 | the position on a day depends only on signals strictly before it |
| `MaxHold.EntriesAndExits` | backend/onchain/backtest/backtest.py:105-138 | for signals in -1, 0, 1: entries equal exits unless the last signal acted on is long and the filter does not zero its day, and then exceed them by one; the cost is charged once per entry and once per exit |
| `MaxHold.OpenAtTheEnd` | backend/onchain/backtest/backtest.py:105-138 | a series with one entry and no exit |

## Left out

- HTTP, request signing, sleeps, file and JSON formats, logging, the loop's timing: only "read the
  exchange", "submit", "save" and their failures remain.
- What the exchange does beyond the ledger above: resting orders, settlements in the middle of a
  tick, results other than yes and no, page limits of the list endpoints, fills of one order at
  several price levels off the ten-thousandth grid.
- The oracle gate's probability and implied-volatility formulas: whether a market passes is one
  boolean of the market.
- The whitelist and environment configuration: listings come in as a sequence, one per series.
- `slippage_stats`, and the fields of a position that nothing modelled reads (`intended_price`,
  `trimmed_from`, `bid_depth_at_entry`, `entry_oi`, time stamps other than the day of settlement).
- Paper's own `_resolve`, `_discover` and snapshot: the same merges on paper fills. Paper discovery
  itself is modelled.
- The state file's dictionary shape: positions are records in a sequence.
- Floating-point noise. Money is exact; the simulators and the Explorer use real numbers.
- The simulators' data preparation (window filter, sorting, cell selection): rows come in, in entry
  order where a property needs it. The heap is the sequence of its contents in tuple order, so its
  array layout is not modelled.
- Square roots: `sigma` is a parameter characterized by its square (`IsSigma`).
- The other metric families, the clustered standard error and the volatility interpolation; of the
  windowed statistics only the hit rate.
- Observation texts, surprise scores and the ranking of the digest; z-scores come in as a sequence.
- Non-ASCII text: letters, digits and spaces are the ASCII ones.
- The equity curve and the statistics of the on-chain backtest.
- The database, migrations, web routes, web-socket hub and the front end.
- LiveTick.RunOnce: `fetch_truth` is one atomic reading; the balance endpoint reports the ledger's cash.
- LiveCaps.TickWithinCaps: for a whole tick the condition is sufficient; it is exact for each order
  (`LiveCaps.SendWithinCapsExactly`).
- LiveOnce.AtMostOneFill: for a whole run the condition is sufficient; it is exact for each order
  (`LiveOnce.SendFillsOnceExactly`).
- LiveEquity.ReportedEquity: a book with an orphan is not explained, because an orphan carries no price,
  collateral or fee.
- LiveBreaker.OpeningMovesLine: ticks that lose no fill; a fill that is not booked takes its collateral
  and fee out of start-of-day equity.
- LivePaper.LiveRefinesPaper: the caps of the gate enter exactly (`LivePaper.LiveRefinesPaperExactly`);
  that the clips paper sizes are within the per-trade cap, that those it takes fill in full, and that the
  tick is not killed is sufficient, not shown necessary.
- Execution.FillsOf: a poll lists all the fills of an order, in any split, or none; a list that is still
  incomplete, from which the source books too few contracts, is not modelled.
- LiveBreaker.SavedBookSettles: rests on that.
- Panel.AllMetrics: keys are constructors, so that the distinct constants of the source are distinct
  strings is read off, not proved; which values a family computes is not modelled.
- FavoritesSim.Accounting: assumes asks in (0, 1] and a non-negative fee multiplier, as the data has.
- ShortSim.Accounting: assumes prices strictly between 0 and 1, as the data preparation ensures.
