# bingo trade bookkeeping, modelled in Dafny

This project models the trade bookkeeping core of the Go trading bot *bingo* and proves properties of it. It covers:

- **The position ledger** (`pkg/engine/position.go`). `Position.AddTrade` folds one fill into a signed base amount, a quote amount, a weighted-average cost and a fee-inclusive "approximate" average cost. It returns the realized profit and the net profit.
- **The trade sync pipeline.**
  - `TradeBatchQuery.Query` (`pkg/exchange/batch/batch.go`) pages through an exchange's trade history by trade-ID cursor and drops trades whose key it has already emitted.
  - `TradeService.Sync` (`pkg/service/trade.go`) seeds a key set from the newest stored trades, skips known keys and inserts the rest.
  - `SyncService.SyncSessionSymbols` (`pkg/service/sync.go`) syncs symbols one after the other and stops at the first error.
- **The trade-listing SQL builder** `queryTradesSQL`.
- **The value types and collections of `pkg/types`:**
  - balances and balance maps;
  - trades, trade keys and trade slices;
  - the order map and `Order.Backup`;
  - the parsers of the margin side effect, the side and the exchange name.
- **The bounded k-line windows** of `MarketDataStore` (`pkg/engine/market_data_store.go`).
- **The symbol selection rule** `ExchangeSession.FindPossibleSymbols` (`pkg/engine/session.go`).

Each Go file is one Dafny module:

| module | file | Go source |
|---|---|---|
| `Positions` | `positions.dfy` | `pkg/engine/position.go` |
| `Batch` | `batch.dfy` | `pkg/exchange/batch/batch.go` |
| `TradeServices` | `trade_service.dfy` | `pkg/service/trade.go`, `Sync`, `QueryLast`, `Insert` |
| `TradeQueries` | `trade_sql.dfy` | `pkg/service/trade.go`, `queryTradesSQL` |
| `SyncServices` | `sync_service.dfy` | `pkg/service/sync.go` |
| `Balances` | `balances.dfy` | `pkg/types/balance.go` |
| `Trades` | `trades.dfy` | `pkg/types/trade.go` |
| `OrderMaps` | `order_maps.dfy` | `pkg/types/order_map.go` |
| `Orders` | `orders.dfy` | `pkg/types/order.go` |
| `Sides` | `sides.dfy` | `pkg/types/side.go` |
| `Exchanges` | `exchanges.dfy` | `pkg/types/exchange.go` |
| `MarketData` | `market_data.dfy` | `pkg/engine/market_data_store.go` |
| `Sessions` | `session.dfy` | `pkg/engine/session.go` |

Four modules are support code:

- `Markets`: the `types.Market` record.
- `Text`: ASCII case mapping, `strings.Join` and `strconv.Itoa`.
- `Seqs`: reversal and subsequences.
- `Wrappers`: `Option`.

## Modelling choices

- **Objects that Go mutates are classes**, specified against pure functions:
  - `Position`, `TradeSlice`, `OrderMap`, `MarketDataStore`, `TradeService` and `SyncService`;
  - `AddTrade` against `Step`, `AddTrades` against `Replay`;
  - `Sync` against `SyncOutcome`, the batch query against `Pull`, `AddKLine` against `NextWindow`.

  Go loops are `while` loops with invariants.
- **Go maps.** They are iterated in an unspecified order. The loops pick an arbitrary remaining key, and results are specified up to order:
  - as a map or a set;
  - or as a sequence of distinct entries together with the keys they came from.
- **Fixed-point values are exact `real`s.** Go's integer fields are unbounded `int`s.
- **String-typed Go enums** (`SideType`, `ExchangeName`, `MarginOrderSideEffectType`, `OrderStatus`) wrap a string. Every string stays representable, not only the named constants.
- **The exchange** (`Venue`):
  - its name;
  - its margin settings, if it is a margin exchange;
  - if it offers trade history, the scripted answers, page or error, to successive history requests per symbol.

  After the script runs out, the exchange answers with empty pages.
- **The database** is the `rows` sequence of `TradeService`, in insertion order. The global ID of the row at position `i` is `i + 1`.
  - Database faults are fixed when the service is built: a map from symbol to `QueryLast` error and a map from trade to `Insert` error.
  - The `QueryLast` statement is modelled by what it selects: the matching rows, newest first, at most `limit` of them.

## Model

| member | source | states |
|---|---|---|
| `Positions.FeeHandling` | pkg/engine/position.go:107-128 | Where the fee is paid decides how it is taken into account. A base-currency fee comes off the quantity. A quote-currency fee comes off the quote quantity. A fee in any other currency is priced as maker or taker rate × quote quantity, and as 0 when the exchange has no rate entry. |
| `Positions.Step` | pkg/engine/position.go:133-194 | A buy moves Base by +qty and Quote by −quoteQty; a sell does the reverse. Any other side changes nothing and returns (0, 0, false). Profit is reported exactly when a buy meets a short or a sell meets a long, and is zero otherwise. |
| `Positions.BuyExtendsLong` | pkg/engine/position.go:158-163 | A buy on a flat or long position realizes nothing. Both averages become the weighted means, the approximate one including the priced fee. So average × base grows by exactly what was paid. |
| `Positions.BuyCoversShort` | pkg/engine/position.go:148-154 | A buy that does not flip a short realizes (AverageCost − price)·qty. Net profit is (ApproximateAverageCost − price)·qty − feeInQuote. Both averages are kept. |
| `Positions.BuyFlipsShort` | pkg/engine/position.go:138-147 | A buy larger than the short realizes profit on −Base only. It leaves a positive Base and resets both averages to the fill price. |
| `Positions.SellReducesLong` | pkg/engine/position.go:176-182 | A sell that does not flip a long realizes (price − AverageCost)·qty and the matching net profit. Both averages are kept. |
| `Positions.SellFlipsLong` | pkg/engine/position.go:166-175 | A sell larger than the long realizes profit on Base only. It leaves a negative Base and resets both averages to the price. |
| `Positions.SellExtendsShort` | pkg/engine/position.go:185-191 | A sell on a flat or short position realizes nothing. The averages weigh the new quantity against −Base, and the approximate one subtracts the priced fee. |
| `Positions.CoverRealizes` | pkg/engine/position.go:148-154 | When quoteQty = price·qty, covering a short realizes exactly the change of Quote + AverageCost·Base. Net profit is the change of Quote + ApproximateAverageCost·Base, less the fee. |
| `Positions.ShortFlipRealizes` | pkg/engine/position.go:138-147 | The same cost-value identity for a buy that flips a short. |
| `Positions.ReduceRealizes` | pkg/engine/position.go:176-182 | The same identity for a sell that reduces a long. |
| `Positions.LongFlipRealizes` | pkg/engine/position.go:166-175 | The same identity for a sell that flips a long. |
| `Positions.BuyRealizesCostValue` | pkg/engine/position.go:137-163 | The identity on every buy branch. |
| `Positions.SellRealizesCostValue` | pkg/engine/position.go:165-191 | The identity on every sell branch. |
| `Positions.StepRealizesCostValue` | pkg/engine/position.go:135-194 | Realized profit is the change of value at cost, and net profit the change at approximate cost less the priced fee. This holds for every buy or sell. |
| `Positions.ReplayRealizesCostValue` | pkg/engine/position.go:89-99 | Over a whole batch, the summed profit is the change of value at cost. The summed net profit is the change at approximate cost less all priced fees. |
| `Positions.FlipExample` | pkg/engine/position.go:166-175 | Long 10 @ 100, sell 15 @ 110: profit 100, Base −5, both averages 110. |
| `Positions.CloseWithoutFlipExample` | pkg/engine/position.go:176-182 | Long 10 @ 100, sell 4 @ 120: profit 80, Base 6, average 100. |
| `Positions.AccumulationExample` | pkg/engine/position.go:158-163 | From flat, buy 5 @ 100 then 5 @ 200: Base 10, average 150, nothing realized. |
| `Positions.Position.constructor` | pkg/engine/position.go:41-47 | `NewPosition`: a flat position with the given symbol and currencies and no fee rates. |
| `Positions.Position.FromMarket` | pkg/engine/position.go:33-39 | `NewPositionFromMarket`: a flat position taking symbol, base and quote from the market. |
| `Positions.Position.Reset` | pkg/engine/position.go:49-53 | Base, Quote and AverageCost become 0. ApproximateAverageCost, the currencies and the fee rates are kept. |
| `Positions.Position.SetExchangeFeeRate` | pkg/engine/position.go:55-61 | The fee-rate map gains or replaces the exchange's entry. Nothing else changes. |
| `Positions.Position.AdjustForFee` | pkg/engine/position.go:107-128 | The fee step's quantities are those of `FeeAdjusted` under the position's currencies and rates. |
| `Positions.Position.AddTrade` | pkg/engine/position.go:101-195 | The new Base, Quote and averages and the three results are those of `Step` on the fee-adjusted fill. Currencies and rates are kept. |
| `Positions.Position.AddTrades` | pkg/engine/position.go:89-99 | The trades are applied in order. Profit and net profit are summed only over trades that realized. The flag is "total profit ≠ 0". |
| `Batch.NovelKeys` | pkg/exchange/batch/batch.go:67-79 | The trades passed on carry exactly the keys of the input that were not already seen. |
| `Batch.NovelDistinct` | pkg/exchange/batch/batch.go:67-79 | The trades passed on have pairwise-distinct keys. |
| `Batch.NovelSubsequence` | pkg/exchange/batch/batch.go:67-79 | The trades passed on keep their input order. |
| `Batch.NovelOfSeen` | pkg/exchange/batch/batch.go:67-73 | Trades whose keys were all seen pass nothing on. |
| `Batch.Pull` | pkg/exchange/batch/batch.go:28-80 | The paging loop, with the stop corrected as under "## Findings". The first request uses the starting cursor. Every query makes at least one request, and at most one more than there are answers. |
| `Batch.PullRequestsFollowEmitted` | pkg/exchange/batch/batch.go:67-79 | Every request after the first starts from the ID of the last trade emitted in answer to the earlier requests, or from the starting cursor if none was emitted yet. |
| `Batch.PullProgress` | pkg/exchange/batch/batch.go:58-79 | With the corrected stop, the query makes at most one request more than it emits trades. So it ends against any venue with finitely many trades. |
| `Batch.PullStopsOnStalePage` | pkg/exchange/batch/batch.go:58-79 | With the corrected stop, a page whose trades were all emitted before ends the query without error, whatever would follow. |
| `Batch.PullAsWrittenStalls` | pkg/exchange/batch/batch.go:58-79 | As written, a page of two or more trades that were all emitted before emits nothing and leaves the cursor unchanged. Answered alike n times, the query makes n + 1 requests from the same cursor and has not ended. |
| `Batch.SelfTradeStalls` | pkg/exchange/batch/batch.go:58-79 | A self-trade reported as a buy and a sell under one ID x, with every request from x answered by that pair. As written, every request after the first is again from x. Corrected, the query ends after the second request. |
| `Batch.PullDistinct` | pkg/exchange/batch/batch.go:36-79 | All emitted trades, across pages, have pairwise-distinct keys and none of the keys seen before. |
| `Batch.PullSubsequence` | pkg/exchange/batch/batch.go:67-79 | Emitted trades are a subsequence of the delivered trades: page order and within-page order are kept. |
| `Batch.PullLastRequest` | pkg/exchange/batch/batch.go:48-79 | The last request's cursor is the last emitted trade's ID, or the starting cursor when nothing was emitted. |
| `Batch.PullFailureEnds` | pkg/exchange/batch/batch.go:53-56 | A failed request ends the query. Whatever the venue would answer afterwards changes nothing. |
| `Batch.PullErrorIsVenueError` | pkg/exchange/batch/batch.go:53-56 | A reported error is one the venue answered with. |
| `Batch.PullQuietStops` | pkg/exchange/batch/batch.go:58-65 | Each of these ends the query without error, after one request: an empty page, a one-trade page whose key was seen, or a venue with no more answers. |
| `Batch.PassOn` | pkg/exchange/batch/batch.go:67-79 | The per-page loop emits exactly the novel trades and records every key of the page. It moves the cursor to the last emitted trade. |
| `Batch.Query` | pkg/exchange/batch/batch.go:15-84 | Without trade-history capability: nothing emitted, no request, no error. Otherwise: `Pull` from `LastTradeID` with an empty key set, including the corrected stop on a page that passes nothing on. |
| `TradeServices.SyncFilter` | pkg/service/trade.go:52-62 | A margin exchange contributes its margin flags, and an isolated one its isolated symbol in place of the given one. A spot exchange has both flags false. |
| `TradeServices.LastRecords` | pkg/service/trade.go:124 | At most `limit` records, each a stored row matching exchange, symbol and both margin flags. |
| `TradeServices.LastRecordsNewestFirst` | pkg/service/trade.go:124 | With rows numbered in insertion order, the records are in strictly decreasing gid order. |
| `TradeServices.LastRecordsStartAtNewest` | pkg/service/trade.go:124 | When some row matches and the limit is positive, the first record is the newest matching row. |
| `TradeServices.LastRecordsComplete` | pkg/service/trade.go:124 | Below the limit, every matching row is returned. |
| `TradeServices.Row` | pkg/service/trade.go:294-300 | A stored row keeps the trade's key and gets the next gid. The insert does not write strategy or PnL. |
| `TradeServices.RowKeepsInsertedColumns` | pkg/service/trade.go:294-300 | Every column the insert writes keeps the trade's value. |
| `TradeServices.StoreErrorSticks` | pkg/service/trade.go:113-115 | After a failed insert, later trades change nothing. |
| `TradeServices.StoreIsNovelPrefix` | pkg/service/trade.go:96-116 | The stored trades are the leading part of the trades with unknown keys, and the database accepted each of them. Either all were stored, or the next one's insert failed and its error is returned. |
| `TradeServices.StoreWithoutFaults` | pkg/service/trade.go:96-116 | If the database accepts every trade, exactly the trades with unknown keys are stored, with no error. |
| `TradeServices.StoreDistinctUnseen` | pkg/service/trade.go:96-101 | The stored trades have pairwise-distinct keys, none of them in the seed set. |
| `TradeServices.StoreInOrder` | pkg/service/trade.go:83-116 | The stored trades are a subsequence of the received ones. |
| `TradeServices.StoreKnownKeys` | pkg/service/trade.go:96-99 | If every received key is already known, nothing is stored and no insert is tried. |
| `TradeServices.SyncWithoutHistory` | pkg/exchange/batch/batch.go:19-26 | Without trade history and with a working query, `Sync` as written never returns; corrected, it stores nothing and succeeds. |
| `TradeServices.SyncStoresNewTradesInOrder` | pkg/service/trade.go:64-116 | `Sync` stores trades with pairwise-distinct keys, none among the ≤ 50 seeded records. They come in the order the exchange delivered them. |
| `TradeServices.SyncStopsAtFailedInsert` | pkg/service/trade.go:113-115 | A failed insert is returned and nothing after it is stored. Without insert failures every new trade is stored and the batch error is returned. |
| `TradeServices.SyncIdempotent` | pkg/service/trade.go:68-99 | When every trade received is among the seeded keys, `Sync` stores nothing. |
| `TradeServices.SyncIsolatedSymbol` | pkg/service/trade.go:55-62 | On an isolated-margin exchange, the isolated symbol is used whatever symbol is asked for. |
| `TradeServices.TradeService.QueryLast` | pkg/service/trade.go:121-139 | A failing query returns no records and the error wrapped as "query last trade error: …". Otherwise it returns `LastRecords`. |
| `TradeServices.TradeService.Insert` | pkg/service/trade.go:294-300 | A failing insert returns its error and leaves the table as it was. Otherwise the row is appended with the next gid. |
| `TradeServices.TradeService.Seed` | pkg/service/trade.go:68-76 | The key set is the keys of the records. The cursor is the first (newest) record's ID, or 1 when there is none. |
| `TradeServices.TradeService.StoreNew` | pkg/service/trade.go:83-116 | The table grows by the rows `Store` says, and the insert error is returned. |
| `TradeServices.TradeService.Sync` | pkg/service/trade.go:51-119 | The table grows by the rows of `SyncOutcome` and its error is returned. Sequential gids stay sequential. |
| `TradeQueries.Ordering` | pkg/service/trade.go:241-245 | The ordering is "DESC" exactly when the upper-cased request is "DESC", and "ASC" in every other case. |
| `TradeQueries.Conditions` | pkg/service/trade.go:247-264 | Each condition is present exactly when its option is set. The gid test is `>` for ASC and `<` for DESC. The list is ordered exchange, symbol, gid, and empty exactly when no filter is set. |
| `TradeQueries.QueryTradesWhere` | pkg/service/trade.go:247-270 | " WHERE " follows the table name exactly when exchange, symbol or a positive LastGID is given. |
| `TradeQueries.QueryTradesLimited` | pkg/service/trade.go:272-276 | With a positive limit the text ends in " ORDER BY gid <ordering> LIMIT <n>". |
| `TradeQueries.QueryTradesUnlimited` | pkg/service/trade.go:272-276 | Without one it ends in " ORDER BY gid <ordering>". |
| `TradeQueries.LimitIffPositive` | pkg/service/trade.go:274-276 | The text ends in a digit exactly when the limit is positive. |
| `SyncServices.SyncAll` | pkg/service/sync.go:16-22 | No symbols: nothing changes and there is no error. |
| `SyncServices.SyncAllAppend` | pkg/service/sync.go:16-19 | Syncing a + b is syncing a, then b from the table a left, unless a failed. So symbols are synced in order. |
| `SyncServices.SyncAllFirstError` | pkg/service/sync.go:17-19 | The first failing symbol's outcome is the result, and later symbols are not synced. |
| `SyncServices.SyncAllSucceeds` | pkg/service/sync.go:16-22 | The result is nil exactly when every symbol, synced in turn, succeeds. |
| `SyncServices.SyncService.SyncSessionSymbols` | pkg/service/sync.go:13-22 | The table and the error are those of `SyncAll` over the symbols. The start time plays no part. |
| `Balances.Balance.Net` | pkg/types/balance.go:41-48 | Net = Available + Locked − Borrowed − Interest, that is Total − Debt. |
| `Balances.Balance.Add` | pkg/types/balance.go:27-35 | Available, Locked, Borrowed, Interest and NetAsset add field-wise. Currency and MaxWithdrawAmount are the receiver's. |
| `Balances.AddIsAdditive` | pkg/types/balance.go:27-48 | Total, Debt and Net of a sum are the sums of the parts. |
| `Balances.NotZero` | pkg/types/balance.go:84-94 | A new map of the entries whose Total, Debt and Net are not all zero. |
| `Balances.Debts` | pkg/types/balance.go:96-104 | A new map of the entries with Borrowed > 0 or Interest > 0. |
| `Balances.Copy` | pkg/types/balance.go:122-128 | A map equal to the input. |
| `Balances.NotZeroIdempotent` | pkg/types/balance.go:84-94 | Exactly the non-zero entries are kept, with unchanged values. Filtering twice equals filtering once. |
| `Balances.DebtsExact` | pkg/types/balance.go:96-104 | Exactly the indebted entries are kept, with unchanged values. Filtering twice equals filtering once. |
| `Balances.DebtsAreNotZero` | pkg/types/balance.go:84-104 | With non-negative borrowed amounts and interest, every indebted entry is also kept by `NotZero`. |
| `Trades.Trade.Liquidity` | pkg/types/trade.go:93-101 | "MAKER" exactly for a maker fill, "TAKER" exactly otherwise. |
| `Trades.KeyIdentity` | pkg/types/trade.go:103-105 | Keys are equal exactly when ID and side are. Symbol and exchange play no part. |
| `Trades.TradeSlice.Copy` | pkg/types/trade.go:21-28 | The copy equals the trades. |
| `Trades.TradeSlice.Reverse` | pkg/types/trade.go:30-35 | The trades are replaced by their reversal. |
| `Seqs.ReversedInvolution` | pkg/types/trade.go:30-35 | Reversing twice restores the original. |
| `Seqs.ReversedMultiset` | pkg/types/trade.go:30-35 | Reversal keeps the multiset of trades (and so the length). |
| `Trades.TradeSlice.Append` | pkg/types/trade.go:37-41 | The trade goes at the end and the earlier trades stay. |
| `OrderMaps.OrderMap.Add` | pkg/types/order_map.go:13-15 | The entry under the order's ID becomes the order. The other entries stay. |
| `OrderMaps.OrderMap.Update` | pkg/types/order_map.go:18-22 | The entry is replaced only when the ID is present. Otherwise the map is unchanged. |
| `OrderMaps.OrderMap.Remove` | pkg/types/order_map.go:24-26 | The ID is removed and the other entries stay. Removing an absent ID changes nothing. |
| `OrderMaps.OrderMap.IDs` | pkg/types/order_map.go:28-34 | Every key exactly once. |
| `OrderMaps.OrderMap.FindByStatus` | pkg/types/order_map.go:41-49 | Exactly the orders with that status, one element per matching entry. |
| `OrderMaps.OrderMap.Filled` | pkg/types/order_map.go:51-53 | `FindByStatus` for FILLED. |
| `OrderMaps.OrderMap.Canceled` | pkg/types/order_map.go:55-57 | `FindByStatus` for CANCELED. |
| `OrderMaps.OrderMap.Orders` | pkg/types/order_map.go:59-64 | One element per entry. Every entry's order is in the result, and every element is one of the map's orders. |
| `OrderMaps.OrderMap.Backup` | pkg/types/order_map.go:5-11 | The backup form of each entry, one per entry. Every entry's backup form is in the result. |
| `OrderMaps.OrderSliceIDs` | pkg/types/order_map.go:68-73 | The IDs of the slice, same length and same order. |
| `Orders.Order.Backup` | pkg/types/order.go:108-115 | The quantity is Quantity − ExecutedQuantity and the client order ID is cleared. Every other submitted field is kept. |
| `Orders.UnmarshalSideEffect` | pkg/types/order.go:18-42 | The upper-cased string must be one of the aliases. Accepted: one of the three settings. Rejected: an error, with the target unchanged. |
| `Orders.NoSideEffectAliases` | pkg/types/order.go:27-29 | "" and "no_side_effect" give NO_SIDE_EFFECT. |
| `Orders.MarginBuyAliases` | pkg/types/order.go:31-33 | "margin_buy", "borrow" and "marginbuy" give MARGIN_BUY. |
| `Orders.AutoRepayAliases` | pkg/types/order.go:35-37 | "auto_repay", "repay" and "autorepay" give AUTO_REPAY. |
| `Orders.SideEffectIgnoresCase` | pkg/types/order.go:25 | A string and its upper-case form decode alike. |
| `Sides.SideType.Reverse` | pkg/types/side.go:57-67 | BUY and SELL are swapped. Every other side is returned unchanged. |
| `Sides.ReverseInvolution` | pkg/types/side.go:57-67 | Reversing twice gives the side back. |
| `Sides.StrToSideType` | pkg/types/side.go:22-40 | "buy", "sell" and "both" in any case give BUY, SELL and BOTH. Anything else gives the empty side and `ErrInvalidSideType`. |
| `Sides.StrToSideTypeIgnoresCase` | pkg/types/side.go:22-32 | A string and its lower-case form parse alike. |
| `Sides.StrToSideTypeRoundTrip` | pkg/types/side.go:22-40 | BUY, SELL and BOTH print to strings that parse back to them. "SELF" is refused. |
| `Sides.UnmarshalSide` | pkg/types/side.go:42-55 | The error is the parser's. On failure the target is unchanged. |
| `Exchanges.ValidExchangeName` | pkg/types/exchange.go:46-53 | No error exactly for "binance" or "bn" in any case, giving Binance. Otherwise an empty name and an error. |
| `Exchanges.UnmarshalExchangeName` | pkg/types/exchange.go:24-38 | Accepted exactly for the exact string "binance". On rejection the target is unchanged. |
| `Exchanges.UnmarshalIsCaseSensitive` | pkg/types/exchange.go:24-53 | "BINANCE" is refused by the decoder but accepted by `ValidExchangeName`, as is "Bn". |
| `Exchanges.ExchangeNameRoundTrip` | pkg/types/exchange.go:16-53 | The printed name of Binance is accepted by both parsers. |
| `MarketData.NextWindow` | pkg/engine/market_data_store.go:50-62 | The new window ends with the k-line. It is [kline] when there was no window, and a suffix of the old window + [kline]. It is not truncated below 5000. A window of at most 5000 stays at most 5000. |
| `MarketData.FullWindowTruncates` | pkg/engine/market_data_store.go:58-60 | A full window of 5000 drops its 1000 oldest when one more arrives, leaving 4001. |
| `MarketData.AddKeepsBound` | pkg/engine/market_data_store.go:50-62 | Adding keeps every window within 5000 and leaves the windows of other intervals unchanged. |
| `MarketData.MarketDataStore.constructor` | pkg/engine/market_data_store.go:19-26 | A store for the symbol with no windows. |
| `MarketData.MarketDataStore.SetKLineWindows` | pkg/engine/market_data_store.go:28-30 | Every window is replaced at once. |
| `MarketData.MarketDataStore.KLinesOfInterval` | pkg/engine/market_data_store.go:33-36 | The stored window, with a presence flag that is true exactly when one exists. |
| `MarketData.MarketDataStore.AddKLine` | pkg/engine/market_data_store.go:50-64 | The k-line's interval gets `NextWindow`. The other intervals and the symbol are kept. |
| `MarketData.MarketDataStore.HandleKLineClosed` | pkg/engine/market_data_store.go:42-48 | K-lines of another symbol change nothing. Others are added. |
| `Sessions.FiatAssets` | pkg/engine/session.go:301-308 | Exactly the listed fiat currencies with a positive balance total. |
| `Sessions.PossibleSymbolsExact` | pkg/engine/session.go:310-325 | A symbol is possible exactly when some market has it, with a quote currency that is a fiat currency of positive total and a base currency of non-zero total. |
| `Sessions.NoFiatNoSymbols` | pkg/engine/session.go:301-325 | Holding no fiat currency gives no symbols. |
| `Sessions.CollectFiatAssets` | pkg/engine/session.go:304-308 | The loop builds `FiatAssets`. |
| `Sessions.CollectSymbols` | pkg/engine/session.go:310-325 | The loop builds the set of the eligible markets' symbols. |
| `Sessions.ListSymbols` | pkg/engine/session.go:327-330 | Each symbol of the set exactly once. |
| `Sessions.FindPossibleSymbols` | pkg/engine/session.go:293-332 | An isolated-margin session gives exactly [IsolatedMarginSymbol]. Any other session gives each possible symbol once and nothing else. The error is always nil. |

## Left out

- **Concurrency and timing.**
  - The goroutine, the channels, the rate limiter and the context of `TradeBatchQuery.Query` are left out. So are the `select` in `Sync` and the mutexes of `Position` and `TradeSlice`.
  - The batch query is a sequential loop.
  - `Sync` handles every trade the batch query emitted before it looks at the batch error. In Go a batch error can be seen earlier, between two trades.
- **The exchange script.**
  - The venue's answers do not depend on the request's cursor or `Limit`. `Options.Limit` (unset in `Sync`) is not modelled.
  - Batch.Pull: the query also ends when the script runs out, so its termination comes from the finite script. A venue that answers a repeated request alike is modelled by a script repeating that answer. This is how `Batch.PullAsWrittenStalls` shows the as-written loop making requests without end.
- **Rounding.**
  - Fixed-point `Mul`/`Div` rounding and the float-to-fixed conversions of `AddTrade` are not modelled. Values are exact reals.
  - Fixed-point `Add`/`Sub` (as in `Balance.Add`) are exact sums. Overflow of the fixed-width representation is not modelled, and the `fixedpoint` package is not part of this model.
  - Go integer widths (`int64`, `uint64`) are not modelled.
  - The float64 fields outside `AddTrade` are exact reals too: the prices, quantities and fees of `SubmitOrder`, `Order` and `Trade`. So the float64 rounding of `Order.Backup`'s `Quantity − ExecutedQuantity` is not modelled.
- Positions.Position.AddTrade: requires the averaging branches' divisor, Base + quantity (or −Base + quantity), to be non-zero. Go's fixed-point division by zero is not modelled.
- Positions.Position.AddTrades: requires the same of every trade in turn.
- **JSON decoding** before the `UnmarshalJSON` switches, and its error, are left out. The decoders take the decoded string.
  - Orders.UnmarshalSideEffect: Go's error message prints the raw JSON input. The model prints the decoded string between double quotes, which is the same text only when the string needs no JSON escapes.
- **Case mapping** is ASCII only. Go's Unicode case folding of other letters is not modelled.
- **Database I/O.**
  - SQL execution, `scanRows`, `QueryForTradingFeeCurrency`, `Query`, `Load`, `Mark`, `UpdatePnL` and `DeleteAll` are not part of this model.
  - `QueryLast` and `Insert` are modelled by their effect on the rows, with faults given as maps. Their SQL text is not modelled.
  - The text of `queryTradesSQL` is described by lemmas rather than concrete example strings.
- **Outside the core.**
  - `KLineWindow.Add` is not part of this model; it is taken to append the k-line.
  - The window-update callbacks (`EmitKLineWindowUpdate`, `OnKLineWindowUpdate`) and `BindStream` are left out.
  - Logging and formatting are left out: `String`, `PlainText`, `ValueString`, `Print`, `BalanceMap.String` and `Currencies`.
- MarketData.MarketDataStore.SetKLineWindows: the windows are copied as a map value. Go keeps the caller's map by reference, so a later `AddKLine` in Go also writes into the caller's map; this sharing is not modelled. A nil map cannot be passed, so Go's panic in `AddKLine` after `SetKLineWindows(nil)` (assignment to an entry of a nil map) is not modelled either.
- **Inputs.**
  - `FindPossibleSymbols` takes the fiat currency list, the account's balances and the session's markets as parameters.
  - `SyncSessionSymbols` accepts `startTime` and does not use it, as in Go.
- Positions.Position.AddTrades: the contract states the batch result through `Replay`. The weighted mean over a batch of buys is stated only per step, by `Positions.BuyExtendsLong`.
- Sides.SideType.String, Exchanges.ExchangeName.String, Balances.Balance.Total, Balances.Balance.Debt, OrderMaps.OrderMap.Exists, Trades.Trade.Key are one-expression accessors with no contract of their own. Their meaning is stated by the lemmas that use them.

## Findings

| source | as written | input that shows it | evidently intended | confidence | as-written member | corrected member |
|---|---|---|---|---|---|---|
| pkg/exchange/batch/batch.go:58-79 | The loop stops only on an empty page or on a page of one trade whose key it has already emitted. A page of two or more trades that were all emitted before sends nothing and leaves `lastTradeID` unchanged. So the same request is made again, without end, and `Sync`'s `for trade := range tradeC` never returns. | The newest trade is a self-trade reported under one ID as a buy and as a sell. `Key()` keeps both, so every request from that ID gets the same two-trade page. | The query ends when a page brings no trade it has not emitted, as it already does for a single repeated trade. | not executed | `Batch.PullAsWritten` (shown by `Batch.PullAsWrittenStalls` and `Batch.SelfTradeStalls`) | `Batch.Pull` (with `Batch.PullProgress`) |
| pkg/exchange/batch/batch.go:19-26 | Without trade-history capability, `Query` returns its two channels without ever closing them. So `for trade := range tradeC` in `Sync` (pkg/service/trade.go:83) never ends, and `Sync` never returns. | An exchange that does not implement `ExchangeTradeHistoryService`, with a `QueryLast` that succeeds. | `Sync` stores nothing and returns nil. The batch query's comment says such exchanges are skipped. | not executed | `TradeServices.SyncOutcomeAsWritten` (shown by `TradeServices.SyncWithoutHistory`) | `TradeServices.SyncOutcome` |
