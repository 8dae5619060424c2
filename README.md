# A verified model of the stock-trading simulator's daily engine

The program simulates a trader over the stocks in a directory of price
files. `utils.read_data` loads every stock series. For each stock it records
an extremum row: the all-time lowest Low and highest High, their first dates,
the volumes on those dates and their difference, the "profit". It keeps only
stocks whose low comes before their high and whose profit is at least 1, and
it builds the calendar of every day from the first to the last date seen.

`main.Account` then trades each calendar day in order:

- the **swing rule** (`buy_low_sell_high`) buys at most one stock whose
  all-time low is today. It picks the best profit, behind a gate, caps the
  amount by affordability and two 10%-of-volume caps, and keeps a reserve. It
  then sells, at today's high, every held stock whose all-time high is today;
- the **intraday rule** (`buy_low_sell_close`) runs only when no swing trade
  happened and the balance exceeds 100. It ranks today's candidates by
  (close − low) × amount, buys greedily while the balance stays non-negative,
  and sells everything bought at the close;
- **`update_portfolio`** marks the holdings to market in the history.

Every trade pays a 1% fee: a buy costs amount·price·1.01 and a sell brings
amount·price·0.99.

The project has eight modules:

- `Basics`: Option and Result.
- `Columns`: numpy's min, max, argmin and argmax on a column.
- `Dict`: a Python dict as an insertion-ordered list of entries.
- `Market`: bars, extremum rows, the catalog, fees and caps.
- `Ranking`: argsort.
- `StockData`: `read_data`, minus the file system.
- `Rules`: every trading rule as a function of the account state, with the
  lemmas about them.
- `Engine`: the `Account` class. Its methods update `balance`, `owned`,
  `sequence` and the two history columns in place. Each method is proved to
  leave the account exactly as the matching `Rules` function says.

One ledger invariant runs through the proofs. `Cash` is the balance minus the
net cash flow of the log, each entry priced at its own day's bar. Every rule
conserves it.

Two places where the model and the code are read differently:

- `make_money` loops over the module-global `date_range` rather than
  `self.date_range`. The program's driver passes the same calendar to both,
  so the model iterates over the account's own `dateRange`.
- numpy's default `argsort` promises no order among equal keys. The model
  breaks ties by candidate position. The lemmas about the buy and sell passes
  hold for any order of the candidates.

## Model

| member | source | states |
|---|---|---|
| Columns.Min | utils.py:30 | `np.min`: bounds every entry from below and is one of them |
| Columns.Max | utils.py:31 | `np.max`: bounds every entry from above and is one of them |
| Columns.ArgMin | utils.py:32 | `idxmin`: a position of a smallest entry, with every earlier entry strictly larger (the first minimum) |
| Columns.ArgMax | utils.py:33 | `idxmax`: a position of a largest entry, with every earlier entry strictly smaller (the first maximum) |
| Columns.MinAtArgMin | utils.py:30-32 | the value `np.min` reports is the one at `idxmin` |
| Columns.MaxAtArgMax | utils.py:31-33 | the value `np.max` reports is the one at `idxmax` |
| Dict.Find | main.py:56 | `k in d`: finds the position of key k exactly when some entry has it, and it is the first such entry |
| Dict.PutFacts | main.py:47 | after `d[k] = v`, k maps to v and every other key as before; a present key keeps its place, a new key is appended, no other entry appears |
| Dict.RemoveFacts | main.py:60 | after `del d[k]`, k is absent and every other key maps as before; no entry is new |
| Market.FirstDated | main.py:35 | `.loc[[day]]` sees the first row dated `day`, and finds none exactly when no row has that date |
| Market.BarOn | main.py:35 | there is a bar for `day` exactly when some row is dated `day` |
| Market.Affordable | main.py:36 | the shares the balance affords with the fee; there is no number exactly for the +inf of a zero low with a positive balance; `Market.AffordableIsLargest` pins the number as the largest amount whose cost fits the balance |
| Market.AffordableIsLargest | main.py:36 | at a positive low, the affordable amount is the largest whole number of shares whose cost with fee is within the balance |
| Market.CapBy | main.py:39-40 | `np.min` of the affordable amount and a cap: at most each and equal to one of them |
| Market.IndexOfAt | main.py:35 | in a catalog without repeated names, `self.stocks[name]` finds each stock at its own position |
| Ranking.Insert | main.py:94 | inserting a position keeps the ranking ordered and adds exactly that position |
| Ranking.RankPrefix | main.py:94 | ranks exactly the positions 0..n−1 |
| Ranking.Rank | main.py:94 | `np.argsort(-keys)` built by insertion: one position per key; `Ranking.RankIsSortedPermutation` states the order and the permutation |
| Ranking.RankIsSortedPermutation | main.py:94 | `np.argsort(-keys)` is a permutation of the positions ordered by non-increasing key, equal keys in position order |
| StockData.ExtremumOf | utils.py:30-36 | the extremum row of one series; it carries no contract of its own, and `StockData.ExtremumFacts` states what each field is |
| StockData.ExtremumFacts | utils.py:30-36 | min Low and max High bound every row and are attained; each date is the first row attaining its value; each volume is the one recorded on that date; profit = max − min |
| StockData.ScanOne | utils.py:22-39 | one loop step keeps the `stocks` dict free of repeated keys and every series non-empty |
| StockData.ScanFiles | utils.py:22-39 | the whole loop keeps the same two facts |
| StockData.FirstLastBound | utils.py:45-46 | the first and last dates bound every row of every kept series, and both occur in some row |
| StockData.Kept | utils.py:23-37 | every file the filter keeps passes it: non-empty, with rows, its low strictly before its high and a profit of at least 1; `StockData.KeptIsFilter` and `StockData.KeptMembers` give the converse and the order |
| StockData.Selected | utils.py:22-39 | the selected positions are ascending, each with a true verdict, and every position with a true verdict is among them |
| StockData.KeptIsFilter | utils.py:22-39 | the kept files are exactly the files at the passing positions, in file order |
| StockData.KeptMembers | utils.py:23-37 | a file is kept exactly when it is one of the files and passes the filter |
| StockData.RowsStep | utils.py:38 | appending the row of a kept file keeps extremum rows and kept files in step |
| StockData.DictStep | utils.py:39 | `stocks[s] = stock` keeps dict and kept files in step, one entry per file exactly while names stay distinct |
| StockData.ScanMatchesKept | utils.py:20-39 | the loop collects one extremum row per kept file in order, and the dict holds the kept series in order exactly when no name repeats |
| StockData.LoadedCatalog | utils.py:20-43 | a successful load holds exactly the kept files in file order, each with its own extremum row, with distinct names, each stock valid |
| StockData.Load | utils.py:20-47 | `read_data` without the file system; no contract of its own: `StockData.LoadedCatalog`, `StockData.LoadErrors` and `StockData.LoadedCalendar` state its result |
| StockData.LoadErrors | utils.py:42-45 | a load fails for a table/index size mismatch exactly when a kept name repeats, and for an empty selection exactly when nothing is kept |
| StockData.LoadedCalendar | utils.py:45-47 | the calendar is non-empty, ascending by one day without gaps, spans every row of every stock, and starts and ends on dates that occur |
| StockData.ScanFailureStays | utils.py:22-39 | an exception on a prefix of the files is the result of the whole loop |
| StockData.ReadData | utils.py:20-47 | the loop and the table/calendar assembly compute `Load` of the files |
| Rules.DatedOn | main.py:29 | exactly the stocks whose low (or high) date is `day`, in table order |
| Rules.SwingPick | main.py:28-34 | a stock at its low today with the largest profit among those, every earlier one strictly smaller (the first maximum); none exactly when no stock is at its low today or the best profit is below 10 with a balance of at least 10 |
| Rules.PickIsFirstMax | main.py:32-34 | `argmax` over the profits of the matching stocks gives the first stock with the largest profit |
| Rules.SwingAmount | main.py:36-40 | the least of three caps: at most 10% of today's volume, at most 10% of the high day's volume, at most the affordable amount when finite, and equal to one of the three |
| Rules.SwingBuy | main.py:28-45 | a purchase, if any, is of a catalog stock and a positive amount |
| Rules.SwingBuyRule | main.py:36-45 | the purchase goes ahead exactly when a stock is picked, its amount is positive and the strict reserve check passes; it is of the picked stock at today's bar, sized by `SwingAmount` |
| Rules.SwingBuyBounds | main.py:36-45 | a purchase is within 10% of today's volume and of the high day's volume, keeps more than the reserve and, at a positive low, costs at most the balance; a zero volume cap buys nothing |
| Rules.SellHighOneEffect | main.py:56-64 | a stock at its high today is sold exactly when held: removed from holdings, one 'sell-high' entry for the whole amount; otherwise nothing changes; other holdings untouched |
| Rules.SellHighs | main.py:53-65 | the sell loop keeps holding keys distinct; `Rules.SellHighsLog`, `Rules.SellHighsCash`, `Rules.SellHighsGone` and `Rules.SellHighsUntouched` state its effect |
| Rules.SellHighsLast | main.py:55-65 | the sells over a list are the sells over all but the last, then the last |
| Rules.SellHighsStep | main.py:55-65 | the sells over k + 1 stocks are the sells over k, then stock k |
| Rules.SellHighOneCash | main.py:58-62 | one sale at the high conserves cash |
| Rules.SellHighsLog | main.py:53-65 | the sells only append today's 'sell-high' entries, and the flag is set exactly when something was appended |
| Rules.SellHighsCash | main.py:53-65 | the sells conserve cash |
| Rules.SellHighsUntouched | main.py:53-65 | a stock not among those at their high keeps its holding |
| Rules.SellHighsGone | main.py:55-60 | every stock at its high today ends unheld |
| Rules.SellHighsEntry | main.py:55-64 | a held stock at its high gets a 'sell-high' entry for the whole amount held |
| Rules.SellHighsEntryLast | main.py:55-59 | the last stock sold is still held, as before, when its turn comes |
| Rules.SwingBuyCash | main.py:46-50 | the swing purchase conserves cash |
| Rules.SwingDay | main.py:22-66 | `buy_low_sell_high` keeps holding keys distinct; `Rules.SwingDayEffect`, `Rules.SwingDayCash` and `Rules.SwingDaySold` state its effect |
| Rules.SwingDayEffect | main.py:22-66 | at most one 'buy-low' entry, first and exactly when the purchase goes ahead; every later entry a 'sell-high' of today; the log only grows; the result is true exactly when something was appended |
| Rules.SwingDayCash | main.py:22-66 | the swing rule conserves cash |
| Rules.CandidateAt | main.py:79-90 | a candidate has a bar today, a gain close − low of at least the minimum, and a positive amount within 10% of the volume; a stock without a bar or with too small a gain is no candidate |
| Rules.CandidateAmount | main.py:83-86 | at a positive low, the amount is the largest that is affordable with the fee and within the volume cap; a stock with a large enough gain is left out only when that largest amount is zero |
| Rules.Candidates | main.py:78-90 | exactly the candidates of the catalog, in table order |
| Rules.EntriesAppend | main.py:103-116 | picking one more candidate appends its entry |
| Rules.BuyPass | main.py:95-106 | the buy pass leaves holdings unchanged and buys only positions from the order |
| Rules.SellPass | main.py:108-117 | the sell pass leaves holdings unchanged |
| Rules.IntradayDay | main.py:68-117 | the intraday rule leaves holdings unchanged |
| Rules.CandidatesTradable | main.py:79-90 | candidates of a priced catalog trade their own stock at today's bar, at non-negative prices |
| Rules.BuyPassLast | main.py:95-106 | the buy pass over an order is the pass over all but the last, then the last |
| Rules.BuyPassLog | main.py:95-106 | one 'buy-low' entry per position bought, in buying order |
| Rules.BuyPassCash | main.py:95-106 | the buy pass conserves cash |
| Rules.BuyPassBalance | main.py:100-106 | a non-negative balance stays non-negative, the balance only falls, and a skipped candidate costs more than the balance finally left |
| Rules.SellPassLog | main.py:108-117 | one 'sell-close' entry per bought position, in buying order |
| Rules.SellPassCash | main.py:108-117 | the sell pass only adds cash, and conserves it |
| Rules.EntriesRoundTrip | main.py:95-117 | the buy entries followed by the sell entries form matching round trips |
| Rules.IntradayLog | main.py:68-117 | nothing changes after a swing transaction or at a balance of at most 100; holdings untouched; the appended entries are 'buy-low' entries followed by the matching 'sell-close' entries |
| Rules.IntradayCash | main.py:68-117 | a non-negative balance stays non-negative, and cash is conserved |
| Rules.SwingDaySold | main.py:53-65 | after the swing rule no stock at its high today is held, and one held after the purchase got a 'sell-high' entry for its whole amount |
| Rules.SwingDayUntouched | main.py:53-65 | a stock with no namesake at its high keeps its holding from after the purchase |
| Rules.SellHighsKeeps | main.py:55-62 | the sells keep holdings valid and, at non-negative prices, only add cash |
| Rules.PutKeeps | main.py:47 | holding a positive amount of a catalog stock keeps holdings valid |
| Rules.SwingBoughtHoldings | main.py:42-50 | the swing purchase keeps holdings valid |
| Rules.SwingBoughtBalance | main.py:45-48 | with a non-negative reserve fraction the swing purchase leaves a non-negative balance non-negative |
| Rules.PortfolioValue | main.py:123-126 | the sum of amount × close over the holdings with a bar today; no contract of its own: `Rules.PortfolioValueBounds` and `Rules.PortfolioValueStep` state it |
| Rules.PortfolioValueBounds | main.py:123-126 | the value of positive holdings at non-negative prices is non-negative, and zero when no held stock has a bar today |
| Rules.PortfolioValueStep | main.py:124-126 | the value of k + 1 holdings is that of k plus the last one's |
| Rules.TradeDay | main.py:136-138 | one day keeps holding keys distinct |
| Rules.Run | main.py:134-141 | the run over the days in order keeps holding keys distinct |
| Rules.RunStep | main.py:134-138 | the run over k + 1 days is the run over k, then day k |
| Rules.TradeDayHoldings | main.py:136-138 | one day keeps holdings valid |
| Rules.TradeDayKeeps | main.py:136-138 | one day conserves cash, only appends to the log, keeps a non-negative balance non-negative, and trades intraday only when the swing rule made no transaction and left more than 100 |
| Rules.RunKeeps | main.py:134-141 | the whole run keeps holdings valid, conserves cash, only appends to the log and keeps a non-negative balance non-negative |
| Rules.RunHoldings | main.py:134-141 | the whole run keeps holdings valid whatever the prices |
| Rules.EndBalances | main.py:140 | one end-of-day balance per day |
| Rules.EndValues | main.py:141 | one end-of-day holdings value per day |
| Rules.EndBalanceAt | main.py:140 | day k's recorded balance is the balance after trading days 0..k |
| Rules.EndValueAt | main.py:127-141 | day k's recorded value is that of the holdings after trading days 0..k, at day k's closes |
| Rules.EndOfDayStep | main.py:140-141 | the end-of-day figures of k + 1 days are those of k, then day k's |
| Rules.Record | main.py:140-141 | writing each day's value in turn: the days of the result are the old days plus the written ones; `Rules.RecordAt` states the values |
| Rules.RecordStep | main.py:140-141 | recording k + 1 days is recording k days, then day k |
| Rules.RecordAt | main.py:140-141 | over distinct days, the history holds at every day the value written for it, and every other day keeps its entry |
| Engine.Account.constructor | main.py:11-20 | the given balance, no holdings, an empty log; the history is 0 on every day except the first day's Balance |
| Engine.Account.BuyLowSellHigh | main.py:22-66 | leaves the account and returns the flag exactly as `SwingDay`, keeps holdings valid, leaves the history alone |
| Engine.Account.PlaceOrder | main.py:46-50 | carries out a decided swing purchase: holding set, balance charged with the fee, one 'buy-low' entry |
| Engine.Account.SwingSales | main.py:53-65 | the selling loop leaves the account and the flag exactly as `SellHighs` |
| Engine.Account.SellIfHeld | main.py:56-64 | one loop step leaves the account and the flag exactly as `SellHighOne` |
| Engine.Account.BuyLowSellClose | main.py:68-117 | leaves the account exactly as `IntradayDay`, keeps holdings valid, leaves the history alone |
| Engine.Account.FindCandidates | main.py:73-90 | the scan returns exactly `Candidates`, sized with the balance at the start of the scan |
| Engine.Account.BuyRanked | main.py:92-106 | the buying loop leaves the account and the bought positions exactly as `BuyPass` |
| Engine.Account.SellBought | main.py:107-117 | the selling loop leaves the account exactly as `SellPass` |
| Engine.Account.HoldingsValue | main.py:123-126 | the sum over holdings with a bar today of amount × close |
| Engine.Account.UpdatePortfolio | main.py:119-127 | writes today's holdings value at `day` and changes nothing else, so running it twice writes the same entry |
| Engine.Account.TradeAndRecord | main.py:134-141 | one day: the account as `TradeDay`, today's balance and holdings value recorded |
| Engine.Account.MakeMoney | main.py:129-143 | the account ends as `Run` over `dateRange` in the order given (ascending for a loaded calendar, by `StockData.LoadedCalendar`); each day's end balance and holdings value are recorded; the log is returned |

## Left out

- File discovery and parsing (`glob`, file-name splitting, `pd.read_csv`, `os.path.getsize`) are not modelled. They are I/O. A file arrives as its stock name, its size and its parsed rows.
- `write_sequence_file` is not modelled. It is file output.
- `plot_valuation.py` is not modelled. It is CSV reading and plotting.
- `print` logging, `time`, `input()` and the `__main__` driver are not modelled. They are console I/O and configuration; the two thresholds are parameters.
- Floating point is not modelled. Prices and volumes are exact reals and `np.floor` is `.Floor`, so rounding in the fees is not captured.
- A zero Low gives +inf, −inf or NaN in numpy. Only the +inf case is kept, as "no affordability bound"; the other two fail `amount > 0` and become 0. Other NaN inputs are not modelled.
- Dates are whole day numbers. A series with the same date on two rows is looked up at its first such row, which is what `.loc[[day]].values[0]` reads.
- The `history` DataFrame is two maps from day to value, one per column. Pandas chained assignment is not modelled.
- Engine.Account.constructor: requires a non-empty calendar. Writing the first Balance of an empty history raises in the source.
- Engine.Account: the catalog is assumed valid (`ValidCatalog`), as `read_data` guarantees by `StockData.LoadedCatalog`.
- Rules.IntradayCash, Rules.TradeDayKeeps, Rules.RunKeeps: assume non-negative prices and volumes (`Priced`). Market data has them, but the loader does not check it.
- Ranking.Rank: fixes one tie-break among equal keys, where numpy promises none. The buy and sell pass lemmas hold for any order.
