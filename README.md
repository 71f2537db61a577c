# truth-table: the server routes' derivations, in Dafny

truth-table is a play-money prediction market. A user signs in, gets a 100-credit signup
bonus, and buys YES or NO shares in markets priced by a logarithmic market scoring rule.
This project models the four server routes that turn stored rows into the numbers a user
sees:

- `GET /api/me` bootstraps the account: it creates the profile if absent and appends the
  bonus only when the profile was created. It then reports the ledger balance.
- `GET /api/portfolio` runs the same bootstrap, folds the user's trades into one entry per
  market, and reports the balance and the holdings' value at live prices.
- `GET /api/positions` runs the same bootstrap and selects the user's trades in a time
  range (`ALL`, `1D`, `1W`, `1M`), newest first. It values every trade at its market's live
  price, folds the trades into one position per market, totals the positions' pnl, and
  replays the trades oldest first into a pnl series with one point per trade.
- `GET /api/markets` lists every market, newest first, with its YES price.
  `POST /api/markets` validates the question and the liquidity `b`, then inserts the market
  and its first price snapshot in one transaction.

How the model is laid out:

- The store is the class `Db.Database`, whose fields are its five tables. Every handler is
  a method that `modifies` it. A transaction that fails is rolled back by restoring the
  saved fields.
- A JavaScript `Map`, which iterates in insertion order, is `OrderedMaps.OrderedMap`.
- The pricing library's `yesPrice(qYes, qNo, b)` is a parameter of type
  `(real, real, real) -> real`. Arithmetic is exact (`real`).
- The loops that build a map or an accumulator are methods with loop invariants. Each is
  proved against a sum-based definition: `PortfolioRoute.EntryFor`, `Positions.PosEntryFor`,
  `Positions.HoldingFor` and `Positions.Series`. Lemmas relate those definitions to sums
  over all trades.

The main results:

- Per market, shares and cost are the sums over that market's trades, and the totals
  over all positions equal the totals over all trades.
- A position's kept YES price is the market's live price, whichever side opened it.
- `portfolio_value` is the sum of every trade's current value.
- `pnl.total` is the value of all trades minus their cost. The pnl series has one point
  per trade, runs oldest first, and its last point equals `pnl.total`.
- Bootstrap grants the bonus once per profile, touches no other user, and a failed
  transaction changes nothing.

The pnl series marks every point at the live price carried by its trade's joined row,
which is the market's current price, as the comment at app/api/positions/route.ts:136
says. It does not use the price a market had right after that trade.
`Positions.SeriesLive` states what the code computes.

The profile page reads `portfolio_value` from the positions response, but the positions
route never returns that field (app/api/positions/route.ts:176-185). The model's
`PositionsRoute.Report` has no such field either.

## Model

| member | source | states |
|---|---|---|
| Db.Database.Bootstrap | app/api/me/route.ts:14-28 | profile inserted if absent; the signup entry (user, 100, "signup_bonus") appended exactly when the insert created the profile; no other table changes; keeps "every profile has exactly one bonus", so a second bootstrap of the same user changes nothing |
| Db.Balance | app/api/me/route.ts:30-35 | COALESCE(SUM(delta), 0) WHERE user_id = user: the balance is the sum of the deltas of exactly the user's entries (`Db.EntriesOf`), 0 when there are none |
| Db.BalanceAppend | app/api/me/route.ts:30-35 | appending a ledger entry moves only its own user's balance, and by its delta |
| Db.BalanceWithoutEntries | app/api/me/route.ts:30-35 | a user without ledger entries has balance 0 (COALESCE(SUM(delta), 0)) |
| Db.FindMarket | app/api/positions/route.ts:68 | the market found has the requested id and is in the table; None means no market has that id |
| Db.SelectTrades | app/api/positions/route.ts:56-74 | a trade is kept iff it is the user's, inside the time window when there is one, and has a market to join; each kept trade occurs exactly as often as in the table, and a trade that is not kept does not occur |
| Db.UserRows | app/api/positions/route.ts:63-74 | one joined row per selected trade, carrying the trade's columns and its market's current question, b, q_yes and q_no |
| Db.JoinedRowPrice | app/api/positions/route.ts:77-80 | a joined row's YES price is its market's live YES price |
| Db.JoinedFromPermutation | app/api/positions/route.ts:71 | reordering joined rows keeps every row matching its market |
| MeRoute.Get | app/api/me/route.ts:4-47 | 401 and no store change without a user; on failure 500 with everything rolled back; otherwise the bootstrap effects and a reply carrying the user's ledger sum; first call adds exactly 100 to the balance, later calls add nothing; no other user's profile or balance moves |
| MeRoute.FirstCallBalance | app/api/me/route.ts:22-39 | a user with no ledger history has balance exactly 100 after the first call |
| MarketsRoute.Validate | app/api/markets/route.ts:20-32 | the guard chain in order: blank trimmed question gives 400 "question required"; more than 280 UTF-16 units gives "question too long"; a non-finite or out-of-bounds b gives the bounds message; everything that passes all checks is accepted, with the trimmed question and the body's b, which is finite, within bounds, and 25 when absent |
| MarketsRoute.DefaultBAccepted | app/api/markets/route.ts:22 | a body without b is accepted with b = 25 when its question is valid |
| MarketsRoute.Post | app/api/markets/route.ts:19-67 | a rejected body writes nothing; a failed transaction rolls back and returns 500 with the error's message or "create market failed"; success appends exactly one market (q_yes = q_no = 0) and one snapshot with its quantities and the same price p that is returned as p_yes; the store's invariants are kept |
| MarketsRoute.List | app/api/markets/route.ts:4-17 | every market exactly once (a permutation), newest first, each with p_yes = yesPrice(q_yes, q_no, b) |
| Text.Trim | app/api/markets/route.ts:21 | the result is the infix of the input with only white space cut from each end, and it neither starts nor ends with white space |
| Text.TrimIdempotent | app/api/markets/route.ts:21 | trimming twice is trimming once |
| Text.TrimEmptyIffAllSpace | app/api/markets/route.ts:24-26 | the trimmed question is empty exactly when the input is all white space |
| Text.Utf16Length | app/api/markets/route.ts:27 | the length counted in UTF-16 units lies between the number of characters and twice that, and equals it when no character lies outside the basic plane |
| Text.AsciiUpper | app/api/positions/route.ts:53 | same length, each character upper-cased |
| PositionsRoute.RangeOf | app/api/positions/route.ts:53 | the range is the parameter, or "ALL" when absent, with the same length, no lower-case letter left, and every character kept or replaced by its capital |
| PositionsRoute.IntervalOf | app/api/positions/route.ts:18-22 | the range table in both directions: "1D", "1W" and "1M" map to 1 day, 7 days and 1 month, and every other range has no interval |
| PositionsRoute.Window | app/api/positions/route.ts:18-61 | a time filter exists iff the range is 1D, 1W or 1M, and it starts at the store's NOW() minus 1 day, 7 days or 1 month respectively |
| PositionsRoute.RangeMapping | app/api/positions/route.ts:53-54 | the range matches regardless of case ("1d" and "1D" both select one day, and so on); an absent range reads "ALL" and selects no interval |
| PositionsRoute.NewestFirst | app/api/positions/route.ts:63-74 | the selected rows sorted by created_at descending, none added or lost, all still joined to their markets |
| Positions.Ratio | app/api/positions/route.ts:86 | pct times cost is pnl when cost > 0, and pct is 0 otherwise |
| Positions.ValueTrade | app/api/positions/route.ts:76-101 | price_now is pYes for YES and 1 - pYes for NO; value = shares * price_now; pnl = value - cost; pct guarded against a cost that is not positive |
| Positions.ValueTrades | app/api/positions/route.ts:76 | the trades array has one valued trade per row, in the rows' order |
| Positions.ValueTradesKeepOrder | app/api/positions/route.ts:71-76 | valuing keeps the newest-first order |
| Positions.ValuedAreLive | app/api/positions/route.ts:76-81 | every valued trade carries its market's current columns and its side's live price |
| Positions.PriceYesLive | app/api/positions/route.ts:113-122 | a position's kept YES price equals its market's live YES price, whether its first trade was YES (p) or NO (1 - (1 - p)) |
| Positions.Absorb | app/api/positions/route.ts:106-124 | the loop body: after one more trade the map still holds, for every market seen so far, its summed shares and cost and its kept YES price |
| Positions.AggregatePositions | app/api/positions/route.ts:103-125 | the posMap loop leaves exactly one entry per distinct market, each with its YES shares, NO shares and cost summed over that market's trades and the kept YES price. The loop runs over the newest-first trades, so the entries are ordered by each market's newest trade and carry that trade's question |
| Positions.AggregateStep | app/api/positions/route.ts:105-124 | one more trade changes only its own market's entry: it adds that side's shares and the cost, and a YES trade resets the price |
| Positions.PositionTotals | app/api/positions/route.ts:104-125 | summed over all positions, YES shares, NO shares and cost equal their sums over all trades |
| Positions.ValuePosition | app/api/positions/route.ts:127-134 | value = shares_yes * price_yes + shares_no * (1 - price_yes); pnl = value - cost; pct guarded against a cost that is not positive |
| Positions.ValuePositions | app/api/positions/route.ts:127 | one valued position per entry, in order |
| Positions.TotalPnl | app/api/positions/route.ts:166 | the reduce over the positions' pnl: when each position's pnl is its value minus its cost, the total is the positions' total value minus their total cost |
| Positions.TotalPnlIsValueMinusCost | app/api/positions/route.ts:166 | the sum of the positions' pnl is the live value of all trades minus their total cost |
| Positions.MarkHoldings | app/api/positions/route.ts:156-161 | the mark loop sums yes * pYes + no * (1 - pYes) over the holdings in map order |
| Positions.Hold | app/api/positions/route.ts:143-153 | the holdings update keeps, per market, the summed YES and NO shares and the kept YES price of the trades replayed so far, in first-trade order |
| Positions.ReplayTrade | app/api/positions/route.ts:142-163 | one replay turn extends holdings, cost and points from the first k trades to the first k + 1 |
| Positions.ReplayPnl | app/api/positions/route.ts:136-163 | the replay over the reversed trades produces exactly the series with one point per trade, each point the holdings' mark minus the cumulative cost |
| Positions.SeriesAt | app/api/positions/route.ts:142-162 | point k is stamped with trade k's created_at and accounts for the first k + 1 trades |
| Positions.SeriesLive | app/api/positions/route.ts:137-163 | at live prices, point k's pnl is the current value of trades 0..k minus their cost |
| Positions.LastPointIsTotal | app/api/positions/route.ts:156-166 | with at least one trade, the last point's pnl equals the total pnl of the positions |
| Positions.SeriesAscending | app/api/positions/route.ts:71-138 | reversing newest-first trades yields points in ascending time |
| Positions.ReverseSums | app/api/positions/route.ts:138 | reversing the trades changes neither their total value nor their total cost |
| PositionsRoute.ReportConsistent | app/api/positions/route.ts:136-166 | for newest-first joined rows: total = value - cost of all rows, one point per trade, last point equals the total, points ascending in time |
| PositionsRoute.ReadReport | app/api/positions/route.ts:52-185 | the reads after the commit produce the report of range, balance, valued trades, valued positions, total and series, with the properties above |
| PositionsRoute.Get | app/api/positions/route.ts:24-192 | 401 and no change without a user; a failure inside the bootstrap rolls it back with 500; after the commit the bootstrap effects stay; a later failure gives 500; otherwise the full report, whose total is value minus cost, with one point per trade, the last point equal to the total, points in ascending time |
| PortfolioRoute.FoldRows | app/api/portfolio/route.ts:54-73 | the posMap loop leaves one entry per distinct market, in first-row order, with YES shares, NO shares and cost summed over that market's rows and the YES price of its last row |
| PortfolioRoute.Absorb | app/api/portfolio/route.ts:56-72 | the loop body: after one more row the map still holds, for every market seen so far, its summed shares and cost and the YES price of its last row |
| PortfolioRoute.FoldStep | app/api/portfolio/route.ts:59-72 | one more row changes only its market's entry; the price is overwritten on every row, whichever its side |
| PortfolioRoute.SumValues | app/api/portfolio/route.ts:75-80 | the portfolioValue loop sums yes * pYes + no * (1 - pYes) over the entries in map order |
| PortfolioRoute.PortfolioValueIsSumOfTradeValues | app/api/portfolio/route.ts:54-80 | the portfolio value is the sum of every trade's current value at live prices, and 0 with no trades |
| PortfolioRoute.Get | app/api/portfolio/route.ts:15-97 | 401 and no change without a user; bootstrap rolled back on a failure before commit; kept on a failure after it, with 500; otherwise balance = the user's ledger sum and portfolio_value = the sum of every trade's current value |
| Valuation.MarketValueLinear | app/api/portfolio/route.ts:76-80 | within one market, marking the summed shares at the live price equals summing each trade's current value |
| Valuation.LiveMarkIsSumOfValues | app/api/portfolio/route.ts:75-80 | marking every market's holdings at its live price equals the sum of every trade's current value |
| Folds.Partition | app/api/portfolio/route.ts:54-73 | grouping rows by market loses and duplicates nothing: the per-market sums add up to the total |
| Folds.MarketsInOrder | app/api/portfolio/route.ts:72 | the map's keys: distinct, and a market is listed exactly when some row belongs to it |
| Folds.SumAllPermutation | app/api/positions/route.ts:138 | a sum over rows does not depend on their order |
| Folds.HasMarketIff | app/api/positions/route.ts:106 | a market has a key exactly when some row names it |
| Ordering.SortDesc | app/api/markets/route.ts:8 | ORDER BY created_at DESC: the result is sorted newest first and is a permutation of the input |
| Ordering.ReverseOfDescIsAsc | app/api/positions/route.ts:138 | the reverse of a newest-first sequence is oldest first |
| OrderedMaps.OrderedMap.Put | app/api/positions/route.ts:124 | Map.set: a new key goes to the end of the order, an existing key keeps its place, the entry is replaced |
| OrderedMaps.OrderedMap.Values | app/api/positions/route.ts:127 | Map.values: the entries in key order |

## Left out

- `yesPrice` and the LMSR cost function (lib/lmsr.ts) use floating-point `exp`/`log`. The price is a parameter; only the bounds B_MIN = 0.01 and B_MAX = 1e6 are modelled.
- All arithmetic is exact `real`. Floating-point rounding is not modelled, so `1 - (1 - p)` is exactly `p` here, and "the last point equals the total" holds exactly rather than up to rounding.
- Numbers in requests and rows: `Number(...)` and `String(...)` conversions and JSON parsing are not modelled. A body that fails to parse reads as the empty body. `b` is given as a finite real, NaN or an infinity.
- `Text.AsciiUpper`: toUpperCase is modelled on the ASCII letters only. Every other character is kept, so a range value with non-ASCII letters that upper-case into "1D" is not modelled.
- Clerk's `auth()` is an optional user input in all routes. That `app/api/me/route.ts` does not await it is not modelled.
- The store's `NOW() - interval` for '1 day', '7 days' and '1 month' is an input (`PositionsRoute.Clock`). Those are calendar spans in the session's time zone, so a day can last 23 or 25 hours across a daylight-saving change. Timestamps are integers in microseconds.
- Store failures are inputs: `storeFails`, a `Db.Fault` or a store error. Which statement threw is not modelled, only whether the failure falls before or after the commit. The GET markets route has no failure path in the model.
- `MarketsRoute.Post`: the store's generated market id is an input, required to be new, and the creation time is an input.
- Concurrency, locking, the connection pool and the `db-ping` route are not part of this model.
- Rows with equal `created_at` come back in an order the store chooses. The model fixes one order, an insertion sort. `Ordering.SortDesc` promises only sortedness and permutation, as the store does.
- `PositionsRoute.ReadReport` and `Positions.ValuedTrade` keep the whole joined row of each trade, not only the fields the JSON response carries.
- The replay's `if (m.priceYes === undefined)` branch (app/api/positions/route.ts:149-151) can never run, because the price is always set when the holding is created. The model omits it.
- The per-row updates of the posMap and holdings loops are written as the methods `PortfolioRoute.Absorb`, `Positions.Absorb`, `Positions.Hold` and `Positions.ReplayTrade`, which the loops call. The JavaScript objects they mutate in place are immutable values that are replaced.
- The trade-settlement route, the market detail, history and trades routes, and the UI pages are not part of this model.
