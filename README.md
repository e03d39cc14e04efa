# Insider-trading bot: the decision engine

This project models the decision engine of an insider-trading bot, the `TradingBot` class of `trading_bot.py`. The bot does four things:

- It filters scraped insider purchases down to the "significant" tickers.
- It buys each of them with a fifth of its cash budget, in order, until the budget or a quote fails.
- It records every trade in an append-only history.
- It then polls prices and sells a position with a trailing stop. A position is sold once it has gained at least the gain threshold and has fallen at least the drop threshold below its peak.

The model is in Dafny and has two layers:

- **A functional specification.** `Ledger.BotState` holds the budget, the positions dict (a map plus its insertion order), and the history. Each operation is a function on it: `BuyStep`, `SellStep`, `CheckPosition`, `Poll`, `MonitorPrices`, `BuyPass` and `TradingCycle`. Lemmas about these functions state what the source promises.
- **The bot itself.** `Engine.TradingBot` is a class whose fields the methods update in place. Each method's postcondition says its new state is the specification function applied to the old state. `RunTradingCycle` also keeps the engine's invariant `Ledger.Consistent`:
  - every position holds shares, its buy price is positive, and its peak is at least its buy price;
  - the insertion order lists each position exactly once;
  - per ticker, the history alternates buy and sell, ends in a buy exactly when the ticker is held, and that buy is the position's own quantity and price;
  - the budget equals the starting cash plus the history's net cash flow.

The broker is not called. Its answers are arguments:

- a quote per ticker, where a missing entry reads as 0, the value `get_current_price` returns on failure;
- the set of tickers whose market order fills;
- per poll, whether the market is open and whether the bot is still running.

Modules:

| module | contents |
|---|---|
| `Broker` (`broker.dfy`) | Tickers and quotes. |
| `Sequences` (`sequences.dfy`) | Facts about distinct sequences, subsequences and deletion. |
| `SignalFilter` (`signal_filter.dfy`) | `filter_significant_transactions`. |
| `Ledger` (`ledger.dfy`) | Positions, budget, history, buying and selling. |
| `Monitor` (`monitor.dfy`) | One poll and the monitor loop. |
| `Engine` (`engine.dfy`) | The buy pass, one trading cycle and the `TradingBot` class. |
| `Findings` (`findings.dfy`) | Three defects of the source as written, each beside its correction. |

## Model

| member | source | states |
|---|---|---|
| SignalFilter.FilterSignificantTransactions | trading_bot.py:283-313 | The loop returns exactly the reference list `SignificantTickers`: the tickers whose group passes all three thresholds, in input order. |
| SignalFilter.Significant | trading_bot.py:294-308 | The filter's condition for one group: summed value, distinct-insider count and mean ownership change each reach their threshold (an empty group never does). Its meaning for the result is proved by `SignificantTickersMembers`. |
| SignalFilter.SignificantTickers | trading_bot.py:291-308 | The reference result of the filter: the tickers whose group is `Significant`, in the dict's order. The loop is proved equal to it by `FilterSignificantTransactions`. |
| SignalFilter.SignificantTickersMembers | trading_bot.py:293-308 | A ticker is reported iff its group has summed value ≥ `min_value`, at least `min_insiders` distinct insiders and mean ownership change ≥ `min_own_change`. |
| SignalFilter.SignificantTickersInOrder | trading_bot.py:291-308 | The result is a subsequence of the input's ticker order. |
| SignalFilter.SignificantTickersDistinct | trading_bot.py:291-308 | Each ticker is reported at most once when the input dict has each key once. |
| SignalFilter.EmptyGroupNeverSignificant | trading_bot.py:296-298 | A ticker with no transactions is never reported. |
| SignalFilter.StricterThresholdsSelectFewer | trading_bot.py:303-308 | Raising any threshold only removes tickers from the result and never reorders it. |
| Sequences.Remove | trading_bot.py:239 | `del` on the positions dict drops exactly that key from the iteration order and keeps the rest. |
| Ledger.Trunc | trading_bot.py:196 | Python's `int()` on a number: truncation toward zero. Its bounds are proved by `TruncBounds`. |
| Ledger.BuyQuantity | trading_bot.py:194-196 | The share count `int(budget * max_position_size / price)`. Proved maximal by `BuyQuantityMaximal`. |
| Ledger.TruncBounds | trading_bot.py:196 | `int()` truncates toward zero by less than one. |
| Ledger.BuyQuantityMaximal | trading_bot.py:194-196 | The quantity is the largest whole number of shares whose cost fits in `budget * max_position_size`. |
| Ledger.BuyStep | trading_bot.py:189-220 | `buy_stock` on the state: a purchase keeps every position valid (shares held, positive buy price, peak at least the buy price). Its exact effect is proved by `BuyStepEffect`. |
| Ledger.OpenPosition | trading_bot.py:210-218 | The booked purchase of a positive number of shares at a positive price keeps every position valid. |
| Ledger.BuyStepEffect | trading_bot.py:189-220 | `buy_stock` changes the state iff the ticker is unheld, the quantity is positive and the order fills. Then it opens exactly `{quantity, price, price}`, subtracts `quantity * price`, appends one buy record, and leaves every other position unchanged. |
| Ledger.SellStepEffect | trading_bot.py:222-241 | `sell_stock` changes the state iff the ticker is held and the order fills. Then it removes only that position, adds `quantity * sell_price`, and appends one sell record. |
| Ledger.SellStep | trading_bot.py:222-241 | A sale keeps every remaining position valid. |
| Ledger.ClosePosition | trading_bot.py:234-239 | The booked sale keeps every remaining position valid. |
| Ledger.BuyKeepsBudget | trading_bot.py:194-216 | A purchase from a positive budget leaves at least (1 - max_position_size) of it, hence never a negative budget. |
| Ledger.BuyThenSellRestores | trading_bot.py:189-241 | Buying and then selling at the same price restores budget, positions and order, and leaves the buy and sell records. |
| Ledger.AppendRecord | trading_bot.py:55-56 | Appending a record extends only its own ticker's log and adds only its own cash effect. |
| Ledger.Initial | trading_bot.py:169-174 | A fresh bot (cash, no positions, empty history) satisfies the engine invariant. |
| Ledger.OpenAgrees | trading_bot.py:210-218 | Opening a position with its buy record keeps every ticker's history in agreement with the positions. |
| Ledger.CloseAgrees | trading_bot.py:234-239 | Closing a position with its sell record keeps every ticker's history in agreement with the positions. |
| Ledger.OpenPositionCash | trading_bot.py:216-218 | The spend of a purchase is exactly the buy record's cash effect. |
| Ledger.ClosePositionCash | trading_bot.py:235-238 | The proceeds of a sale are exactly the sell record's cash effect. |
| Ledger.OpenPositionConsistent | trading_bot.py:210-218 | A filled purchase keeps the engine invariant. |
| Ledger.ClosePositionConsistent | trading_bot.py:234-239 | A filled sale keeps the engine invariant. |
| Ledger.BuyStepConsistent | trading_bot.py:189-220 | `buy_stock` keeps the engine invariant on every path. |
| Ledger.SellStepConsistent | trading_bot.py:222-241 | `sell_stock` keeps the engine invariant on every path. |
| Ledger.RaisePeakConsistent | trading_bot.py:256-258 | Raising a position's peak keeps the engine invariant. |
| Monitor.Gain | trading_bot.py:254 | The percent gain of the quote over the buy price. |
| Monitor.DropFromPeak | trading_bot.py:265 | The percent drop of the quote below the peak read before this poll's update. |
| Monitor.ShouldSell | trading_bot.py:263-266 | The trailing-stop rule: gain and drop both reach their thresholds. Its use is proved by `CheckPositionRule` and illustrated by `TrailingStopExample`. |
| Monitor.CheckPosition | trading_bot.py:250-270 | One position's step of a poll keeps all positions valid, so the peak stays ≥ the buy price. |
| Monitor.CheckPositions | trading_bot.py:249-270 | The poll's loop keeps all positions valid. |
| Monitor.Poll | trading_bot.py:248-272 | A poll keeps all positions valid. |
| Monitor.MonitorPrices | trading_bot.py:243-273 | The monitor loop keeps all positions valid. |
| Monitor.CheckPositionRule | trading_bot.py:250-270 | A held position is sold iff gain ≥ the gain threshold, drop from the old peak ≥ the drop threshold, and the order fills. Otherwise its peak becomes max(old peak, quote). Other positions are unchanged. |
| Monitor.CheckPositionOthers | trading_bot.py:249-270 | A poll step leaves positions in other tickers as they were. |
| Monitor.CheckPositionsPerPosition | trading_bot.py:249-270 | Over a loop visiting each ticker once, each visited position obeys the sell-or-raise rule against its state at the start of the poll, and unvisited positions are untouched. |
| Monitor.ClosedMarketPollChangesNothing | trading_bot.py:248-272 | A poll with the market closed changes no position, budget or history. |
| Monitor.PollSellsExactly | trading_bot.py:248-270 | In an open-market poll, each position is sold iff the sell rule holds and its order fills. Otherwise its peak becomes max(old peak, quote). |
| Monitor.CheckPositionsKeepPositions | trading_bot.py:249-270 | A poll opens nothing and keeps shares and buy prices; peaks never fall. |
| Monitor.PeaksNeverFall | trading_bot.py:246-273 | Over any run of polls, a surviving position keeps its shares and buy price, and its peak never falls. |
| Monitor.CheckPositionConsistent | trading_bot.py:250-270 | One position's poll step keeps the engine invariant. |
| Monitor.CheckPositionsConsistent | trading_bot.py:249-270 | A poll's loop keeps the engine invariant. |
| Monitor.MonitorPricesConsistent | trading_bot.py:243-273 | The monitor loop keeps the engine invariant. |
| Monitor.TrailingStopExample | trading_bot.py:254-266 | Bought at 100 with peak 140 and thresholds 20%/10%: kept at 130, sold at 125, kept at 115. |
| Engine.BuyAll | trading_bot.py:344-347 | The reference for the buy pass: `buy_stock` on every listed ticker at its quote, with no guard. `BuyPassStopsAtFirstFailure` relates the two. |
| Engine.TradingCycle | trading_bot.py:328-353 | One iteration of the cycle: filter, and if anything is significant, the buy pass and then the monitor loop. Its properties are proved by `TradingCycleConsistent` and `CycleBuysOnlySignificant`. |
| Engine.BuyPass | trading_bot.py:344-350 | The buy pass keeps all positions valid. |
| Engine.StopIndex | trading_bot.py:344-350 | The stop point of the buy pass lies within the ticker list. |
| Engine.BuyPassStopsAtFirstFailure | trading_bot.py:344-350 | The pass is `buy_stock` on the prefix before the first ticker whose budget or quote fails the guard; all of that prefix is positively quoted, and nothing after it is bought. |
| Engine.BuyPassOpensOnlyListed | trading_bot.py:344-350 | Held positions are untouched. Every new position is a ticker before the stop point, whose order filled, bought at its quote. |
| Engine.BuyPassNeverOverdraws | trading_bot.py:344-350 | A pass starting with a non-negative budget ends with a non-negative budget. |
| Engine.BuyPassConsistent | trading_bot.py:344-350 | The buy pass keeps the engine invariant. |
| Engine.TradingCycleConsistent | trading_bot.py:328-353 | One trading cycle keeps the engine invariant. |
| Engine.CycleBuysOnlySignificant | trading_bot.py:329-350 | Every position a cycle adds belongs to a ticker whose insider group passed all three thresholds. |
| Engine.PurchaseSizesExample | trading_bot.py:194-196 | A fifth of 10000 buys 40 shares at 50; a fifth of 8000 buys 5 shares at 300. |
| Engine.BuyPassExample | trading_bot.py:344-350 | From 10000 cash, four tickers: two are bought, the third has no quote, and the pass stops before the fourth, leaving 6500. |
| Engine.TradingBot.constructor | trading_bot.py:169-174 | A new bot holds the account cash, no positions and an empty history, and satisfies the invariant. |
| Engine.TradingBot.RecordTrade | trading_bot.py:36-59 | Appends exactly one record to the history and changes nothing else. |
| Engine.TradingBot.BuyStock | trading_bot.py:189-220 | The in-place purchase reaches exactly the state `BuyStep` gives. |
| Engine.TradingBot.SellStock | trading_bot.py:222-241 | The in-place sale, at one sell price, reaches exactly the state `SellStep` gives. |
| Engine.TradingBot.MonitorPosition | trading_bot.py:250-270 | The in-place peak update and sell decision reach exactly the state `CheckPosition` gives. |
| Engine.TradingBot.PollPositions | trading_bot.py:248-272 | One poll over a snapshot of the keys reaches exactly the state `Poll` gives. |
| Engine.TradingBot.MonitorPrices | trading_bot.py:243-273 | The monitor loop reaches exactly the state of `Monitor.MonitorPrices` on the same polls. |
| Engine.TradingBot.BuySignificant | trading_bot.py:344-350 | The buy loop with its `break` reaches exactly the state `BuyPass` gives. |
| Engine.TradingBot.RunTradingCycle | trading_bot.py:324-356 | One cycle reaches exactly the state `TradingCycle` gives and keeps the invariant. |
| Findings.SellStepTwoQuotes | trading_bot.py:234-239 | The sale as written: credit at one fetched price, record at another. Related to the corrected sale by `TwoQuotesAgreeingIsSellStep` and `TwoQuoteSaleBreaksLedger`. |
| Findings.TwoQuotesAgreeingIsSellStep | trading_bot.py:234-238 | When both price fetches of a sale agree, the sale as written is the corrected one. |
| Findings.TwoQuoteSaleBreaksLedger | trading_bot.py:234-238 | When the fetches differ, the sale as written breaks the invariant: budget ≠ cash + history's cash flow. |
| Findings.TwoQuoteBudgetGap | trading_bot.py:235-237 | With a position of at least one share and two different fetched prices, the budget after the sale differs from the cash plus the history's cash flow. |
| Findings.RunLock | trading_bot.py:30 | The module lock as a non-reentrant `threading.Lock`: acquiring it while held blocks forever, releasing it while free fails. |
| Findings.TradeLockOps | trading_bot.py:234-238 | The lock operations of a run of trades: a buy's two sections (lines 210 and 55), and a sale's section at line 234 with `record_trade`'s section at line 55 inside it as written, or after it as corrected. |
| Findings.SaleAsWrittenDeadlocks | trading_bot.py:234-238 | With the non-reentrant lock, any run of trades containing a sale deadlocks at its first sale. |
| Findings.CorrectedTradesNeverDeadlock | trading_bot.py:234-238 | With the history append's lock section after the sale's own section instead of inside it, every run of trades finishes with the lock free. |
| Findings.LiveCheck | trading_bot.py:249-270 | The poll's loop as written, over the live dict: the next step of the iteration fails as soon as the dict's size has changed. |
| Findings.PollAsWritten | trading_bot.py:248-272 | One poll as written. Compared with the corrected `Poll` by `PollAsWrittenFailsOnSale`. |
| Findings.CheckPositionSize | trading_bot.py:249-270 | A poll step never adds a key; it changes the dict's size iff it removes a key. |
| Findings.CheckPositionsSize | trading_bot.py:249-270 | A poll's loop never grows the positions dict. |
| Findings.LiveCheckMatchesSnapshot | trading_bot.py:249-270 | Iterating the live dict fails iff the snapshot loop sells something; otherwise both reach the same state. |
| Findings.PollAsWrittenFailsOnSale | trading_bot.py:248-272 | The poll as written fails iff the corrected poll sells; when it completes, it equals the corrected poll. |

## Left out

- Scraping the insider table (`scrape_openinsider`), the web front end (`app.py`), configuration loading, logging and trade timestamps are not part of this model. The insider data is an argument, and a trade record has no date.
- The Alpaca client is not modelled:
  - The account balance is the constructor's `cash` argument; a failed query gives 0.
  - Quotes are a map; a failed fetch reads as 0.
  - The market clock is a per-poll flag; a failed query reads as closed.
  - Order submission is a set of tickers whose orders fill. A rejected order is the source's caught exception: nothing changes.
- `time.sleep`, `stop()` and the background thread are not modelled. `is_running` is a per-poll flag read by the monitor loop's condition.
- The endless `while self.is_running` loop of `run_trading_cycle` is not modelled. One iteration is, and it keeps the invariant, so any number of iterations does too. The monitor loop is modelled over a finite sequence of polls.
- The trade history is a global list in the source and a field of the bot here (one bot per process).
- `threading.Lock` is not modelled as concurrency. Every mutation is atomic; the lock only appears in the deadlock finding.
- SignalFilter.FilterSignificantTransactions: an empty transaction group is passed over as not significant. The source divides by its length and raises `ZeroDivisionError`, which the scraper never triggers because it creates a group only with a row.
- Engine.TradingBot.BuyStock: requires a positive price. The source divides by it, and its only caller checks `price > 0` first.
- Ledger.BuyQuantity, Ledger.BuyQuantityMaximal, the budget updates of Ledger.OpenPosition and Ledger.ClosePosition, the sums and mean of SignalFilter.Significant, and Monitor.Gain and Monitor.DropFromPeak use exact real arithmetic, not floating point. The source computes all of these in floats, so results at a boundary can differ. For example, with a budget of 165.0 and a price of 1.1, the source's `int(165.0 * 0.2 / 1.1)` is 29 (the float quotient is 29.999999999999996), while `BuyQuantity` gives 30. `BuyQuantityMaximal` holds of the exact arithmetic, not of the program's floats.
- Engine.TradingBot.BuyStock, SellStock, MonitorPosition, PollPositions, MonitorPrices and BuySignificant require only that the positions are valid, and do not carry `Valid()`. Each ensures its new state equals a specification function of the old one, and the invariant is proved for those functions (`BuyStepConsistent`, `SellStepConsistent`, `CheckPositionConsistent`, `MonitorPricesConsistent`, `BuyPassConsistent`). `RunTradingCycle` requires and re-establishes `Valid()`, so a caller that wants the invariant after one of the inner methods calls the matching lemma on `State()`.
- Engine.TradingBot.SellStock and Ledger.SellStep: these use one sell price for both the credit and the record, and the poll iterates a snapshot of the keys; the findings below explain why.

## Findings

| source | as written | input that shows it | evidently intended | confidence | as-written member | corrected member |
|---|---|---|---|---|---|---|
| trading_bot.py:235-237 | A sale credits the budget at one price fetch and records the trade at a second fetch. As written, the sale then blocks at line 55 before the record is appended (next row), so the mismatch reaches the history only once that lock defect is corrected. | Any sale during which the minute bar changes between the two calls, e.g. credited at 125 and recorded at 126. | Credit and record use the same price, so the budget stays equal to the cash plus the history's net cash flow. | not executed | Findings.TwoQuoteSaleBreaksLedger | Ledger.SellStepConsistent |
| trading_bot.py:234-238 | `sell_stock` holds the non-reentrant module lock while it calls `record_trade`, which acquires the same lock at line 55. | Any position that meets the sell rule in an open-market poll. | The history append after the sale's lock section, so that the lock is never acquired while held. | not executed | Findings.SaleAsWrittenDeadlocks | Findings.CorrectedTradesNeverDeadlock |
| trading_bot.py:249-270 | The poll iterates `self.positions.items()` while `sell_stock` deletes from that dict. The next step of the iteration raises `RuntimeError`, even after the last entry. | One held position that meets the sell rule, once the lock defect above is corrected. | Iterate over a snapshot of the keys, so a poll can sell several positions. | not executed | Findings.PollAsWrittenFailsOnSale | Monitor.PollSellsExactly |
