# Demo rebalancing engine, modelled in Dafny

A model of the decision core of the `Demo` QuantConnect algorithm in `value.cs`.
Once a year the algorithm picks a new target portfolio of up to ten securities.
It first applies a coarse screen: US market, trailing dollar volume above 1,000,000, price above 5.
It then applies a fine value screen: positive PE and five-year-average PE, with PE below 70% of the average.
The survivors are ranked by return on invested capital (ROIC).
When the host reports a membership change, the algorithm diffs its holdings against the target.
It then schedules liquidations 60 minutes after the next market open and purchases 90 minutes after it.

Files, one module each:

- `dates.dfy` (`Dates`): DateTime as a calendar day plus ticks, `<` (`Before`), `AddYears(1)`, and the rebalancing-date generator with its specification `YearlyDates`.
- `universe.dfy` (`Universe`): the coarse screen (`CoarseSelection`), the fine screen (`Candidates`), the stable ROIC-descending sort (`SortByRoic`) and the top-ten cut (`TopRanked`).
- `rebalancing.dfy` (`Rebalancing`): `minus` (`Minus`, specified by `Difference`), `GetPortfolioSymbols`, the balancing rule (`RebalancePlan`) and the emitted orders (`PlannedOrders`).
- `demo.dfy` (`Algorithm`): class `Demo`. Its fields are the date queue, `isRebalancing`, `isPlacingOrders` and the cached `nextPortfolio`. Its methods are the coarse and fine callbacks, `Rebalance` and `OnSecuritiesChanged`.

Each method that loops in the source loops here, and its `ensures` ties the result to a specification function.
Lemmas then state what the source promises about that function.

Modelling choices:

- Symbols are strings; only equality is used.
- C# `decimal` values are `real`.
- A date-time is valid when its year is in 1..9999, its month and day exist, and its ticks are under one day. `Before` is lexicographic on (year, month, day, ticks), which is tick order on valid values.
- `AddYears(1)` follows .NET: it keeps month, day and time. A day the target month lacks is clamped to the month's last day; only February 29 is affected. A result year outside 1..9999 is the `OutOfRange` outcome, which .NET raises as an exception. `GenerateRebalancingDates` therefore returns a `Result`. For the configured range it is `Ok`, holding 13 dates (`ConfiguredSchedule`).
- `Time` and the exchange calendar enter only through `nextOpen: Symbol -> DateTime`, a parameter. It stands for `security.Exchange.Hours.GetNextMarketOpen(today, false)`. An order's trigger day is the date part of that value.
- The account's securities are an input sequence of `Holding(symbol, invested)`.
- `SecurityChanges.None` is read as "nothing added and nothing removed".
- The buy size `0.95 / newPortfolio.Count` is evaluated when `Rebalance` runs. The source defers it to the scheduled closure, but the list that closure captures is never mutated: the fine callback replaces `_nextPortfolio` with a fresh list. So the value is the same.

Consequences of the code worth knowing:

- With an empty target, or more generally with no buys, the balancing loop (value.cs:70-74) trims the sell list to nothing. Nothing is liquidated and nothing is scheduled (`PlannedOrdersFacts`).
- There is no explicit guard on `0.95 / Count`. It needs none: a buy implies a non-empty target (`BuysNeedTarget`).
- Holdings are a list in account order, not a set. The sell list follows that order.

## Model

| member | source | states |
|---|---|---|
| Dates.AddYears | value.cs:118 | `AddYears(1)` succeeds exactly when the next year is in range (1..9999); the result is strictly later and one year on |
| Dates.AddYearsOfValid | value.cs:118 | on a valid date, AddYears gives a valid date with the same month and time of day, and the same day except February 29 → February 28 in a common year |
| Dates.GenerateRebalancingDates | value.cs:112-122 | the appending loop returns exactly `YearlyDates(start, end)`, including the out-of-range outcome |
| Dates.YearlyDatesShape | value.cs:112-122 | empty exactly when start is not before end; first element is start; every element is before end; each element is AddYears of the previous; AddYears of the last is no longer before end |
| Dates.YearlyDatesIncreasing | value.cs:115-119 | the generated dates are strictly increasing and none is before start |
| Dates.YearlyDatesValid | value.cs:115-119 | from a valid start every generated date is valid |
| Dates.YearlyDatesInRange | value.cs:116-118 | with an end before year 9999 the generation never goes out of range |
| Algorithm.ConfiguredSchedule | value.cs:6-7 | the configured range 2006-02-04 .. 2018-09-10 yields exactly the 13 dates February 4 of 2006 through 2018 |
| Universe.CoarseSelectionMembers | value.cs:34-38 | a symbol is selected iff some candidate carrying it has market USA, dollar volume > 1,000,000 and price > 5 |
| Universe.CoarseSelectionAppend | value.cs:34-38 | selection distributes over concatenation, so input order is kept |
| Universe.CoarseSelectionLength | value.cs:34-38 | at most one symbol per candidate |
| Universe.CandidatesMembers | value.cs:44-53 | a (symbol, ROIC) pair is collected iff some record yielding it has avgPE > 0, PE > 0 and PE/avgPE < 0.7 |
| Universe.CandidatesAppend | value.cs:45-53 | collection distributes over concatenation, so input order is kept |
| Universe.InsertPermutes | value.cs:55 | inserting one pair adds exactly that pair to the multiset of elements |
| Universe.InsertSorted | value.cs:55 | inserting into a ROIC-non-increasing list keeps it non-increasing |
| Universe.InsertStable | value.cs:55 | the inserted pair stays ahead of the equal-ROIC elements that followed it |
| Universe.SortByRoicFacts | value.cs:55 | the sort is a permutation, ROIC is non-increasing, and the elements of each ROIC value stay in input order (stability) |
| Universe.TopRankedShape | value.cs:54-56 | the target has min(10, #admitted) entries with ROIC non-increasing |
| Universe.TopRankedScreened | value.cs:44-58 | every target entry comes from a record that passes the value screen |
| Universe.TopRankedIsTop | value.cs:54-56 | no admitted pair left out of the target has a larger ROIC than any entry of it |
| Universe.SymbolsOf | value.cs:57 | the projection keeps length and takes each entry's symbol in place |
| Rebalancing.Minus | value.cs:124-132 | the loop returns exactly `Difference(l1, l2)` |
| Rebalancing.DifferenceMembers | value.cs:124-132 | x is in `l1 − l2` iff x is in l1 and not in l2 |
| Rebalancing.DifferenceAppend | value.cs:124-132 | the difference distributes over concatenation of l1, so l1's order is kept |
| Rebalancing.DifferenceSubsequence | value.cs:124-132 | `l1 − l2` is a subsequence of l1 |
| Rebalancing.DifferenceLength | value.cs:124-132 | `l1 − l2` is no longer than l1 |
| Rebalancing.GetPortfolioSymbols | value.cs:134-142 | the loop returns exactly the invested symbols in account order |
| Rebalancing.InvestedSymbolsMembers | value.cs:134-142 | a symbol is returned iff the account holds it invested |
| Rebalancing.RebalancePlanTrim | value.cs:67-74 | buys are the untruncated `target − holdings`; sells are the suffix of `holdings − target` of length min(#sells, #buys), i.e. the surplus is dropped from the front |
| Rebalancing.RebalancePlanDisjoint | value.cs:67-68 | every sell is held and untargeted, every buy targeted and unheld, so no symbol is both sold and bought |
| Rebalancing.BuysNeedTarget | value.cs:68 | a non-empty buy list implies a non-empty target, so `0.95 / Count` never divides by zero |
| Rebalancing.SellOrdersAt | value.cs:76-88 | one liquidation per sell, in order, at the symbol's next-open date, 60 minutes after open |
| Rebalancing.BuyOrdersAt | value.cs:90-102 | one `SetHoldings` per buy, in order, at the next-open date, 90 minutes after open, sized 0.95 / target size |
| Rebalancing.PlannedOrdersFacts | value.cs:65-102 | the sells' liquidations at +60 come first, then the buys' purchases at +90 with weight 0.95/|target|; with no buys (an empty target in particular) nothing is scheduled |
| Algorithm.Demo.Initialize | value.cs:22 | the date queue is the generated schedule of 13 dates, strictly increasing and valid; flags false; cache empty |
| Algorithm.Demo.Coarse | value.cs:25-41 | both flags end equal to "the queue's head is before Time"; then exactly the head is removed and the screened symbols are returned; otherwise queue and cache are unchanged and the cache is returned; the queue stays strictly increasing |
| Algorithm.Demo.Fine | value.cs:42-61 | while rebalancing, the cache becomes the symbols of the top-10 stable ROIC ranking of the screened records; otherwise it is unchanged; the cache is returned |
| Algorithm.Demo.Rebalance | value.cs:65-103 | the orders emitted are exactly `PlannedOrders(holdings, newPortfolio, nextOpen)` |
| Algorithm.Demo.OnSecuritiesChanged | value.cs:106-110 | with any change, the orders are those of rebalancing toward the cached portfolio; with none, no orders |

## Left out

- Host configuration in `Initialize` is not modelled: leverage, resolution, start and end dates, cash. These are framework settings.
- `AddUniverse` registration is not modelled. The two callbacks are the methods `Coarse` and `Fine`, and the host is assumed to call them one at a time.
- `Schedule.On`, `DateRules.On`, `TimeRules.AfterMarketOpen`, `Liquidate` and `SetHoldings` are external scheduling and execution. They appear only as `PendingOrder` records.
- `GetNextMarketOpen` is an exchange-calendar collaborator. It is the parameter `nextOpen`.
- `UniverseManager.ElementAt(0)` and `universe.Members[symbol]` are host lookups and are not modelled. A symbol missing from the members would make the source throw.
- `SecurityChanges.IsNone`: the test at value.cs:107 compares against the `SecurityChanges.None` instance, and nothing in value.cs overloads `!=`, so it is a reference comparison. The structural reading "nothing added and nothing removed" assumes the host never passes an empty instance other than `None`.
- `Portfolio.Values` is the account collaborator. It is the input `holdings`.
- `Debug` and `logList` are logging only.
- Decimal arithmetic is not modelled. `PE / avgPE` and `0.95 / Count` are exact real divisions, not 28-digit decimal divisions. Two cases differ:
  - Rounding: a ratio within about 10^-28 of 0.7 could be judged differently.
  - Overflow: `PE / avgPE` throws `OverflowException` when the quotient exceeds decimal's maximum, about 7.9 × 10^28. For example, PE = 10 with avgPE = 10^-28 passes the `> 0` guard at value.cs:46, and the source's fine callback then throws. The model's `IsCheap` just drops the record.
- The lazy evaluation of the coarse query is not modelled. The query is computed eagerly; the candidate list is never mutated, so the result is the same.
