# Portfolio viewer: FIFO cost basis, trade grouping and portfolio roll-up in Dafny

This project models the pure financial pipeline of a crypto and stock
portfolio viewer. The pipeline runs from a user's trade events, through
per-asset cost basis and PnL, to portfolio totals and chart data. It
proves properties of that model. It has three stages.

1. **FIFO cost-basis allocator** (`deriveCostBasis` and its helpers).
   - The allocator stably sorts the buys by `buyDate` and the sells by `sellDate`.
   - It keeps a remaining-units counter per buy lot, as an index-aligned `seq<real>`.
   - For each sell it walks the lots in FIFO order. It skips exhausted lots and lots bought after the sale. It consumes part of a lot that holds more units than the sell still needs, and stops there. Otherwise it empties the lot and goes on.
   - A leftover above `0.0000001` units is booked as a zero-cost-basis record. In strict mode it throws instead.
   - The unconsumed lots come out cut down to their counters.
   - Every record carries its provenance (`Match`): which sell, and which lot or no lot.
   - `deriveRemainingUnits`, `deriveRealizedPnL` and `deriveUnrealizedPnL` are folds.
2. **Trade partitioning and grouping.**
   - `createAssetFromTrades` splits a trade list into buys and sells.
   - `useAssets` stably sorts the trades by date, groups them by symbol (lodash `groupBy`), and builds one `Asset` per symbol.
   - A record whose `type` is neither `BUY` nor `SELL` raises an error. The model keeps a boundary record `RawTrade` with a string tag for this, and classifies it into the sum type `TradeEvent`.
3. **Portfolio roll-up** (`usePortfolioDerivedData`).
   - It builds one derived record per asset from the metadata, price and price-chart maps.
   - It sorts the records by position value, descending and stably.
   - It sums the records into the portfolio totals.
   - It adds the per-asset value series pointwise, pairs the sum with timestamps, and builds the pie data and the return percentages.

Modelling choices:
- All quantities and dates are `real`.
- lodash `sortBy`/`orderBy` is one stable insertion sort, `Sorting.SortBy`, on a real key. A descending order is an ascending sort by the negated key.
- `NaN` and `Infinity` from a division by zero, and the `undefined` results of `last([])`, are `Option.None`.
- Errors thrown by the source are `Result.Failure`. This covers an unknown trade type, a strict-mode unknown cost basis, and the `TypeError`s of a missing metadata entry, price or chart, or of an empty asset list.
- The roll-up returns `Derived`: `NotReady` while an input is missing, `Thrown(error)`, or `Ready(data)`.

Modules:
- `wrappers.dfy`: `Option`, `Result`, and a map that stops at the first failure.
- `sums.dfy`: sums over sequences.
- `sorting.dfy`: the stable sort.
- `events.dfy`: the trade and record types.
- `cost_basis.dfy`: the allocator.
- `cost_basis_examples.dfy`: the test suite's scenarios and edge cases, as concrete lemmas.
- `assets.dfy`: `createAssetFromTrades`.
- `grouping.dfy`: `useAssets`.
- `portfolio.dfy`: `usePortfolioDerivedData`.

## Model

| member | source | states |
|---|---|---|
| Events.Classify | utils/asset.ts:18-28 | A tagged record classifies exactly when its tag is `BUY` or `SELL`. The result converts back to the same record. An unknown tag fails with that tag. |
| Events.ClassifyAll | utils/asset.ts:17-29 | Every tag known ⇔ success. On success, the length is kept and each element converts back to its record. On failure, the error names the tag of the first unknown record: every record before it is known. |
| Events.ClassifyToRaw | utils/cost-basis.types.ts:35 | A trade is exactly a buy or a sell: converting it to a tagged record and classifying that gives back the same trade. |
| Assets.ToRawInjective | utils/cost-basis.types.ts:35 | Two trades with the same tagged record are the same trade. |
| Events.GainLossSign | utils/cost-basis.types.ts:1-10 | For a record with `amount = unitsSold × (sellUnitPrice − buyUnitPrice)` and positive units: gain ⇔ sale price above buy price, and loss ⇔ below. |
| Sorting.SortBy | utils/cost-basis.ts:12-13 | The sort is a permutation (multiset equality). Keys never decrease. For every key value, the elements with that key keep their input order (stability). |
| Sorting.SortBySortedIsIdentity | utils/cost-basis.ts:12-13 | Sorting an already sorted sequence returns it unchanged. |
| CostBasis.Counters | utils/cost-basis.ts:9-10 | Each lot's counter starts at its `unitsBought`. |
| CostBasis.WalkLots | utils/cost-basis.ts:20-67 | The walk from lot `i` leaves the earlier counters unchanged. Every match it produces belongs to this sell and draws on a lot at index `i` or later. |
| CostBasis.WalkDrawsEligibleLots | utils/cost-basis.ts:24-30 | Every lot drawn was bought no later than the sale and had a non-zero counter. The lots are drawn in strictly increasing index order, so each lot is drawn at most once. |
| CostBasis.WalkIsFifo | utils/cost-basis.ts:20-49 | FIFO: every eligible lot before a drawn lot is exhausted afterwards. A non-zero leftover means every eligible lot is exhausted. |
| CostBasis.WalkLeavesLots | utils/cost-basis.ts:33-67 | Each counter ends up unchanged, set to 0 (full branch), or positive. The positive case happens only for the last lot drawn, in the partial branch, with nothing left over. |
| CostBasis.WalkConserves | utils/cost-basis.ts:33-67 | Per-lot conservation: each counter falls by exactly the units drawn from its lot. |
| CostBasis.WalkCovers | utils/cost-basis.ts:33-67 | Units drawn plus the leftover equal the units needed. The counters' total falls by the units drawn. |
| CostBasis.WalkBounds | utils/cost-basis.ts:33-67 | With non-negative need and counters: the leftover is non-negative, every counter stays in `[0, before]`, and every match has non-negative units. |
| CostBasis.SettleSell | utils/cost-basis.ts:17-89 | One sell's matches all belong to that sell and name real lots. |
| CostBasis.SettleCovers | utils/cost-basis.ts:33-89 | Per-sell coverage: matched units plus the dropped dust equal `unitsSold`. The counters' total falls by the units drawn from lots. The zero-cost-basis units equal the leftover when it is above `0.0000001`, and are 0 otherwise. |
| CostBasis.SettleConserves | utils/cost-basis.ts:33-67 | Per-lot conservation for one sell, including its zero-cost-basis record. |
| CostBasis.SettleBounds | utils/cost-basis.ts:24-89 | Counters stay in `[0, before]`. Match units are non-negative. The dust dropped is in `[0, 0.0000001]`. |
| CostBasis.SettleOrder | utils/cost-basis.ts:20-83 | One sell's lot matches come in ascending lot index, hence ascending `buyDate`, each no later than the sale. A zero-cost-basis match is the last one, and only when the leftover is above the epsilon. |
| CostBasis.AsWrittenErrorLosesLeftover | utils/cost-basis.ts:82-88 | The strict-mode error, as written, never reports the leftover that caused it (see Findings). |
| CostBasis.UnknownCostBasisError | utils/cost-basis.ts:84-88 | The corrected strict-mode error names the sell's asset and an unknown amount above the epsilon. |
| CostBasis.SettleSells | utils/cost-basis.ts:17-90 | The outer loop never fails outside strict mode. It keeps one counter per lot, and every match names a real lot. |
| CostBasis.Settlements | utils/cost-basis.ts:17-89 | The threaded run has one settlement per sell. Every match in settlement `k` belongs to sell `k` and names a real lot. |
| CostBasis.LedgerBlocks | utils/cost-basis.ts:15-90 | A successful run's matches are the per-sell blocks, concatenated in the order of the sells. |
| CostBasis.SettlementsOrdered | utils/cost-basis.ts:17-83 | With sorted lots, every block draws its lots in ascending index and `buyDate`, each no later than the sale, and ends with its zero-cost-basis match, if any. |
| CostBasis.StrictSuccessAgrees | utils/cost-basis.ts:70-90 | A strict run that does not throw returns exactly the default run's ledger. |
| CostBasis.StrictFailsAtFirstUnknown | utils/cost-basis.ts:70-88 | A run fails only in strict mode. In strict mode it fails ⇔ some settlement of the threaded run leaves more than `0.0000001` units. It then throws at the first such sell, with that sell's asset and the amount as written (0). |
| CostBasis.LedgerConserves | utils/cost-basis.ts:17-90 | Per-lot conservation over all sells: start counter = end counter + units drawn from that lot. |
| CostBasis.LedgerTotals | utils/cost-basis.ts:17-90 | Total counters fall by the units drawn from lots. All matched units plus the dropped dust equal the total units sold. |
| CostBasis.LedgerBounds | utils/cost-basis.ts:17-90 | Over all sells, with non-negative units: counters stay in `[0, start]`, matches are non-negative, and at most `0.0000001` per sell is dropped. |
| CostBasis.LedgerCausal | utils/cost-basis.ts:17-30 | Every match belongs to one of the sells. A lot match draws on a lot bought no later than its sale. |
| CostBasis.LedgerOrdered | utils/cost-basis.ts:13-17 | With date-sorted sells, the matches come out in ascending `sellDate`. LedgerBlocks and SettlementsOrdered give the per-sell blocks and the FIFO order inside each block. |
| CostBasis.Allocate | utils/cost-basis.ts:9-90 | The whole matching run never fails outside strict mode. It keeps one counter per buy and only valid lot indices. |
| CostBasis.GainLossOf | utils/cost-basis.ts:36-81 | Every record has `amount = unitsSold × (sellUnitPrice − buyUnitPrice)` and capital gains `SHORT`, with the sale's date and price. A lot record copies the lot's date and price. A zero-cost-basis record has `buyDate` and `buyUnitPrice` 0 and amount `units × sell price`. |
| CostBasis.GainLosses | utils/cost-basis.ts:15-83 | There is one record per match, in match order. |
| CostBasis.RemainingBuys | utils/cost-basis.ts:93-105 | There are no more entries than lots. Each entry holds non-zero units, with `amount = units × unitPrice`. Their units total the remaining counters. |
| CostBasis.RemainingBuysMembers | utils/cost-basis.ts:93-105 | The entries are exactly the lots whose counter is not 0, each cut down to its counter, with every other field copied. |
| CostBasis.RemainingBuysIndexed | utils/cost-basis.ts:93-105 | Entry `k` of the unconsumed lots is the lot at the `k`-th kept index, cut down to its counter. There are as many entries as kept indices. |
| CostBasis.KeptIndicesNonZero | utils/cost-basis.ts:94-98 | Every kept index names a lot whose counter is not 0. |
| CostBasis.KeptIndicesAscending | utils/cost-basis.ts:94-98 | The kept indices strictly ascend, so the lots keep their order and none appears twice. |
| CostBasis.KeptIndicesComplete | utils/cost-basis.ts:94-98 | Every lot whose counter is not 0 is kept. |
| CostBasis.RemainingBuysSorted | utils/cost-basis.ts:93-94 | With sorted lots, the remaining lots are in ascending `buyDate`. |
| CostBasis.DeriveCostBasis | utils/cost-basis.ts:4-111 | It never fails outside strict mode. Every record is consistent (amount formula, `SHORT`). Every remaining lot is consistent. It fails exactly when the FIFO ledger does, with the ledger's error. Otherwise its records are those of the ledger's matches, and its unconsumed lots are those of the ledger's final counters. |
| CostBasis.DeriveCostBasisData | utils/cost-basis.ts:140-148 | The data is the non-strict run's result, which always exists. |
| CostBasis.CostBasisConservation | utils/cost-basis.ts:9-107 | Per-lot conservation on what `deriveCostBasis` returns. Record `k` is booked from ledger match `k`: it has the match's units and sale, and its lot's date and price, or is the zero-cost-basis sentinel. Each sorted lot's `unitsBought` = its final counter + the units of the records drawn from it. The returned lots are exactly the lots with a non-zero counter, in order, cut down to that counter. |
| CostBasis.CostBasisUnitsSold | utils/cost-basis.ts:17-89 | The returned records' units plus the residue dropped below the epsilon equal the units of all the sells. |
| CostBasis.CostBasisBounds | utils/cost-basis.ts:24-89 | Over non-negative units: every counter ends in `[0, unitsBought]`, no match has negative units, and at most the epsilon per sell is dropped. |
| CostBasis.CostBasisOrdering | utils/cost-basis.ts:12-105 | The records are in ascending `sellDate`. The remaining lots are in ascending `buyDate`. CostBasisBlocks adds the grouping by sell, and equal dates keep their input order because `Sorting.SortBy` is stable. |
| CostBasis.CostBasisBlocks | utils/cost-basis.ts:12-90 | The whole run's matches are the per-sell blocks, in the stable `sellDate` order of the sells. Each block is in FIFO order and ends with its zero-cost-basis match, if any. |
| CostBasis.StrictRun | utils/cost-basis.ts:4-111 | With strict mode on, `deriveCostBasis` returns the default result unless some sell, in date order, leaves more than the epsilon unmatched. It then throws at the first such sell, reporting that sell's asset and 0 as the amount. |
| CostBasis.CostBasisCausality | utils/cost-basis.ts:28-83 | Every record comes from a buy made no later than its sale, or is the zero-cost-basis sentinel. |
| CostBasis.RemainingUnitsCrossCheck | utils/cost-basis.ts:113-120 | The units in the remaining lots = `deriveRemainingUnits` + the zero-cost-basis units + the dropped dust. |
| CostBasis.RemainingUnitsNoMoreThanHeld | utils/cost-basis.ts:113-120 | With non-negative units, `deriveRemainingUnits` (not clamped at 0) never exceeds the units in the remaining lots. |
| CostBasis.RealizedPnLAdditive | utils/cost-basis.ts:122-126 | Realized PnL is additive over concatenation and 0 for no records. |
| CostBasis.UnrealizedPnLIsMarkToMarket | utils/cost-basis.ts:128-138 | Unrealized PnL = price × remaining units − remaining cost. |
| CostBasis.NoBuysBooksWholeSale | utils/cost-basis.ts:70-83 | With no buys, a consistently priced sell (`amount = unitsSold × unitPrice`) above the epsilon becomes a single `SHORT` record with buy date and buy price 0, whose gain is the whole sale amount, and no lots remain. |
| CostBasisExamples.BuysOnlyExample | utils/asset.test.ts:56-71 | One buy, or two buys, with no sells give no records, and every lot remains whole. |
| CostBasisExamples.BuysOnlyUnits | utils/asset.test.ts:56-71 | With buys only, the units held are 4, then 14. |
| CostBasisExamples.OneSellExample | utils/asset.test.ts:73-84 | Two buys and a sell of 6 give two records, with amounts 6 and 2.4. |
| CostBasisExamples.OneSellUnits | utils/asset.test.ts:73-80 | After that sell, 8 units are held. |
| CostBasisExamples.TwoBuysTwoSells | utils/asset.test.ts:86-107 | The records have amounts 6, 2.4 and −2.2. One lot of 4 at 0.8 (amount 3.2) remains. Realized PnL is 6.2, unrealized PnL at price 2 is 4.8, and 4 units are held. |
| CostBasisExamples.TwoBuysTwoSellsThenBuy | utils/asset.test.ts:109-142 | A later third buy supplies no cost basis and stays whole. The records are unchanged, unrealized PnL is 10.8, and 12 units are held. |
| CostBasisExamples.SplitExample | utils/asset.test.ts:109-116 | The test suite's trade lists split into the buys and the sells, each in input order. |
| CostBasisExamples.SellBeforeAnyBuy | utils/cost-basis.ts:70-88 | A sell of 4 at 0.25 before any buy gives one zero-basis record of gain 1.0 in default mode. In strict mode it throws an error for `BTC` that reports 0 unknown units, because line 82 resets the amount before line 86 reads it. |
| CostBasisExamples.SellBeforeAnyBuyIntendedError | utils/cost-basis.ts:84-88 | For the same sell, the corrected error would report the 4 unmatched units. |
| CostBasisExamples.ExactMatchRecordsZeroUnits | utils/cost-basis.ts:50-67 | An exact-match lot does not stop the walk. The next eligible lot gets a record of 0 units and 0 amount. |
| CostBasisExamples.DustDropped | utils/cost-basis.ts:70 | A leftover of 0.00000005 units is dropped with no record, even in strict mode. |
| Assets.SplitTrades | utils/asset.ts:15-35 | `assetId` is copied through, and `|buys| + |sells| = |trades|`. |
| Assets.SplitConcat | utils/asset.ts:17-24 | Splitting is compositional over concatenation, so the input order of the buys and of the sells survives. |
| Assets.SplitIsPermutation | utils/asset.ts:15-30 | Buys followed by sells are a permutation of the trades: nothing is dropped or duplicated. |
| Assets.SplitMembers | utils/asset.ts:17-24 | `buys` holds exactly the buy events and `sells` exactly the sell events. |
| Assets.CreateAssetFromTrades | utils/asset.ts:11-36 | It succeeds ⇔ every tag is known. On success it keeps `assetId` and the trade count. On failure it reports the tag of the first unknown record, as the `forEach` throws. |
| Assets.CreateAssetFromTypedTrades | utils/asset.ts:11-36 | On well-typed trades it never throws, and it equals the split. |
| Grouping.SortTrades | hooks/useAssets.tsx:8-19 | It succeeds ⇔ every tag is known. On failure it throws exactly the classification error. On success it is a permutation of the classified trades, ascending by date, and stable (per date, input order is kept). |
| Grouping.AddTrade | hooks/useAssets.tsx:21-35 | Adding a trade appends it to the group of its symbol, and touches no other group. It opens a new last group exactly when the symbol is new. Symbols stay distinct. |
| Grouping.GroupBySymbol | hooks/useAssets.tsx:21-35 | The group symbols are distinct, and there are no more groups than trades. |
| Grouping.GroupBySymbolExact | hooks/useAssets.tsx:21-35 | Each group holds exactly its symbol's trades, in input order, and is non-empty. Every trade's symbol has a group. |
| Grouping.GroupBySymbolCount | hooks/useAssets.tsx:21-35 | The group sizes add up to the number of trades: every trade lands in exactly one group. |
| Grouping.SplitKeepsDateOrder | hooks/useAssets.tsx:37-44 | Splitting date-sorted trades gives date-sorted buys and date-sorted sells. |
| Grouping.UseAssets | hooks/useAssets.tsx:7-51 | With no trade list (still loading) the sort, the grouping and the asset list are all empty. Otherwise it succeeds ⇔ every tag is known, and then there is one asset per group. On failure it throws the first unknown tag. On success the view holds the sorted input, the grouping of that list, and one asset per group. |
| Grouping.UseAssetsView | hooks/useAssets.tsx:8-35 | The sorted list is a permutation of the classified input records, with the same length. It is ascending by date and stable. Its grouping has distinct symbols, and each group holds exactly its symbol's trades, in order. Every trade's symbol has a group. |
| Grouping.UseAssetsOnePerSymbol | hooks/useAssets.tsx:37-44 | Asset ids are distinct, and the symbol of every trade in the sorted list is some asset's id. Each asset is exactly the split of its symbol's trades, in date order. |
| Grouping.UseAssetsCoversRecords | hooks/useAssets.tsx:7-51 | Every input record's symbol is the id of some asset the hook returns. |
| Grouping.AssetsOfGroups | hooks/useAssets.tsx:37-44 | The same three facts for the assets of any exact grouping. |
| Grouping.UseAssetsDateOrdered | hooks/useAssets.tsx:21-44 | Each asset's buys and sells are individually date-sorted. |
| Portfolio.GetPercentageChange | hooks/usePortfolioDerivedData.tsx:230-233 | It is undefined ⇔ the old value is 0. Otherwise `old + old × p / 100 = new`. |
| Portfolio.PercentageChangeFrom | hooks/usePortfolioDerivedData.tsx:60-67 | With a possibly undefined last close, it is defined ⇔ the base exists and is not 0. It is then the percentage change. |
| Portfolio.Last | hooks/usePortfolioDerivedData.tsx:60-61 | The last element, undefined exactly for an empty series. |
| Portfolio.FindMetadata | hooks/usePortfolioDerivedData.tsx:54-55 | `find` by symbol: it is undefined ⇔ no entry has the symbol. Otherwise it returns the first entry that has it. |
| Portfolio.AverageEntryPrice | hooks/usePortfolioDerivedData.tsx:90-100 | It is undefined ⇔ no units remain. Otherwise price × remaining units = remaining cost. |
| Portfolio.AverageOfOnePrice | hooks/usePortfolioDerivedData.tsx:90-100 | Lots all valued at one unit price `p` average to `p`. |
| Portfolio.ValueSeries | hooks/usePortfolioDerivedData.tsx:72-77 | The value series has one entry per close: close × units held. |
| Portfolio.DailyReturnUsd | hooks/usePortfolioDerivedData.tsx:87-88 | The daily move is `units × (price − last close)`, undefined without a close. |
| Portfolio.RecordOf | hooks/usePortfolioDerivedData.tsx:109-123 | The record spreads the metadata and holds the symbol, price and balance. It also holds value = balance × price, the value series, the daily move and percentage (defined ⇔ a non-zero last close exists), and the lifetime cost. |
| Portfolio.RecordPnL | hooks/usePortfolioDerivedData.tsx:81-100 | Realized PnL is the sum of the record amounts. Unrealized PnL = price × remaining units − remaining cost. The average entry price is as above. |
| Portfolio.BuildRecord | hooks/usePortfolioDerivedData.tsx:47-123 | The per-asset record uses balance = Σ bought − Σ sold and lifetime cost = Σ buy amounts over all buys. |
| Portfolio.AssetRecord | hooks/usePortfolioDerivedData.tsx:54-58 | A missing metadata entry, price or chart throws, checked in that order. Otherwise the record is built from the price and chart at the metadata's address. |
| Portfolio.ValueAtLastClose | hooks/usePortfolioDerivedData.tsx:155-160 | It is defined ⇔ every daily move is. It is then Σ value − Σ daily move. |
| Portfolio.ValueAtLastCloseSorted | hooks/usePortfolioDerivedData.tsx:128-160 | Sorting by value does not change the value at the last close. |
| Portfolio.AddSeries | hooks/usePortfolioDerivedData.tsx:170-177 | Adding one series: the length is the longer of the two. Each entry is the sum of the entries present, with a missing entry counted as 0 (`?? 0`). |
| Portfolio.PortfolioChartColumns | hooks/usePortfolioDerivedData.tsx:169-178 | The portfolio series is as long as the longest asset series. Entry `i` is the sum over the assets whose series reaches `i`. |
| Portfolio.ColumnSumSorted | hooks/usePortfolioDerivedData.tsx:128-178 | Each column sum is independent of the order of the records. |
| Portfolio.ChartRoundTrip | hooks/usePortfolioDerivedData.tsx:236-254 | The chart items give back the values exactly. Item `i` has date `timestamps[i]`, and no date past the end of the timestamps. |
| Portfolio.PieTotalsValue | hooks/usePortfolioDerivedData.tsx:194-201 | The pie slices add up to the total value. |
| Portfolio.LifetimeReturnPercentOffByHundred | hooks/usePortfolioDerivedData.tsx:210-213 | As written, the lifetime percentage is the intended one minus 100. A cost of 100 and a return of 10 give −90 where 10 is meant (see Findings). |
| Portfolio.LifetimeReturnPercent | hooks/usePortfolioDerivedData.tsx:205-213 | The corrected lifetime percentage is undefined ⇔ the cost is 0. Otherwise cost × p / 100 = return. |
| Portfolio.Rollup | hooks/usePortfolioDerivedData.tsx:128-227 | It throws (`[0]` of no records) ⇔ there are no records. Otherwise the records come out as a permutation of the input, descending by value. The lifetime percentage is the figure as written. |
| Portfolio.RollupTotals | hooks/usePortfolioDerivedData.tsx:135-208 | Realized, unrealized, value and cost totals are the sums of the records' fields in any order. Total return = realized + unrealized. The daily USD move is defined ⇔ every record's is, and is then Σ daily moves. |
| Portfolio.RollupDailyPercent | hooks/usePortfolioDerivedData.tsx:155-165 | The daily percentage is the change from the value at the last close of the input-order records to the current value. |
| Portfolio.RollupLifetimePercent | hooks/usePortfolioDerivedData.tsx:205-213 | As the hook computes it, the lifetime percentage is the change from the total cost to the total return. It is undefined ⇔ the cost is 0. Adding 100 gives the total return as a percentage of the total cost. |
| Portfolio.LifetimeAsWrittenIsChange | hooks/usePortfolioDerivedData.tsx:210-213 | The as-written figure is the percentage change from cost to return. When defined, it plus 100 is the return as a percentage of cost. |
| Portfolio.RollupOrder | hooks/usePortfolioDerivedData.tsx:128-132 | The first record has the largest value. Records of equal value keep their input order (stable descending sort). |
| Portfolio.RollupPie | hooks/usePortfolioDerivedData.tsx:194-201 | There is one slice `{symbol, value}` per record, in the sorted order. The slices add up to the portfolio value. |
| Portfolio.RollupAreaChart | hooks/usePortfolioDerivedData.tsx:169-187 | The area chart is as long as the longest series. Each value is the column sum over the records. Dates come from the largest record's timestamps, and are undefined past their end. |
| Portfolio.UsePortfolioDerivedData | hooks/usePortfolioDerivedData.tsx:33-126 | Nothing comes back ⇔ an input is missing. Otherwise it is ready ⇔ there is an asset and every asset's record succeeds, with one record per asset. |
| Portfolio.DerivedRecordsAreAssetRecords | hooks/usePortfolioDerivedData.tsx:47-132 | With at least one asset and every asset's record built, the hook is ready. Its records are then a permutation of the per-asset records, one per input asset. Its data is the roll-up of those records, so the Rollup lemmas describe its totals, percentages, chart and pie. |
| Portfolio.HookRollsUp | hooks/usePortfolioDerivedData.tsx:47-227 | Given every asset's record, the hook is ready with the roll-up of those records. |

## Left out

- IEEE-754 arithmetic: quantities are exact reals. `NaN` and `±Infinity` from `x/0` or from `undefined` in arithmetic are `None`, and the model does not say which one a division gives.
- The `WeakMap` keyed by object identity (utils/cost-basis.ts:9) becomes a counter per index of the sorted lots. The same buy object appearing twice in `buys` (one shared counter in the source) is not modelled.
- Strict mode pushes the zero-basis record before it throws. That push cannot be observed, because the caller gets only the error.
- `LONG` capital gains exist in the type but are never produced. The records are all `SHORT`.
- The order of the `groupBy` keys is the order in which symbols first appear. `Object.keys` puts integer-like keys first, in numeric order; symbols that look like integers are not modelled.
- React `useMemo` memoisation, and the lodash code itself. The model gives only the semantics of `sortBy`, `orderBy`, `groupBy` and `last`.
- Inputs are never mutated in a functional model, so "inputs not mutated" holds trivially.
- The price map holds only `priceUsd`, as `map<string, real>`. A price entry whose `priceUsd` is `undefined` is not modelled.
- The price chart holds only its close series and timestamps. The other OHLC series are unused.
- `lastKnownClosePriceTime` (hooks/usePortfolioDerivedData.tsx:61) is computed but never used, so it is left out.
- Metadata holds name, symbol, address and logo. Other fields the spread would copy are left out.
- Rendering, charts, tables, network fetching, price queries, notifications and storage are left out. Prices and charts are plain inputs.
- Portfolio.UsePortfolioDerivedData: its own contract gives presence, error cases and the count of records. The contents come from DerivedRecordsAreAssetRecords and HookRollsUp: the data is `Rollup` of the per-asset records, so the Rollup lemmas apply to it.

## Findings

| source | as written | input that shows it | evidently intended | confidence | as-written member | corrected member |
|---|---|---|---|---|---|---|
| utils/cost-basis.ts:82-88 | The strict-mode error message reads `remainingSellAmount` after line 82 has reset it to 0, so it always reports 0 unknown units. | Strict mode, no buys, one sell of 4 units: the message reports 0. | Report the leftover that triggered the error (here 4). | medium, not executed | CostBasis.AsWrittenErrorLosesLeftover | CostBasis.UnknownCostBasisError |
| hooks/usePortfolioDerivedData.tsx:210-213 | The lifetime return percent is `getPercentageChange(totalCost, totalReturn)` = `(return − cost) / cost × 100`, which treats the profit as a new portfolio value. | Total cost 100 and total return 10: −90 % instead of 10 %. | The profit as a percentage of the cost, `return / cost × 100`, i.e. the change from the cost to cost + return. | medium, not executed | Portfolio.LifetimeReturnPercentOffByHundred | Portfolio.LifetimeReturnPercent |

Both as-written members are what the model runs. `CostBasis.SettleSells` throws `UnknownCostBasisErrorAsWritten`, which reports 0, and `CostBasisExamples.SellBeforeAnyBuy` shows this. `CostBasis.UnknownCostBasisError` is the corrected error, and `CostBasisExamples.SellBeforeAnyBuyIntendedError` shows it reporting 4. `Portfolio.Rollup` computes the lifetime percentage with `LifetimeReturnPercentAsWritten`. `Portfolio.RollupLifetimePercent` relates that figure to the corrected `LifetimeReturnPercent`, which is 100 higher.
