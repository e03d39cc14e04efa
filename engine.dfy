/** The trading engine: the buy pass of a trading cycle, one whole cycle, and
    the bot object whose methods carry them out step by step. */
module Engine {
  import opened Broker
  import opened Sequences
  import opened Ledger
  import opened SignalFilter
  import opened Monitor

  /** The buy pass of a cycle: each significant ticker in turn is bought at
      its quote with the default position size, and the pass ends at the
      first ticker for which the budget is not positive or no positive
      quote came back. */
  function BuyPass(s: BotState, tickers: seq<Ticker>, quotes: Quotes, filled: set<Ticker>): (r: BotState)
    ensures PositionsValid(s.positions) ==> PositionsValid(r.positions)
    decreases |tickers|
  {
    if tickers == [] then s
    else
      var price := Quote(quotes, tickers[0]);
      if !(s.budget > 0.0 && price > 0.0) then s
      else BuyPass(BuyStep(s, tickers[0], price, MaxPositionSize, tickers[0] in filled), tickers[1..], quotes, filled)
  }

  /** The reference for the buy pass: `buy_stock` on every ticker, no guard. */
  function BuyAll(s: BotState, tickers: seq<Ticker>, quotes: Quotes, filled: set<Ticker>): (r: BotState)
    requires forall j :: 0 <= j < |tickers| ==> Quote(quotes, tickers[j]) > 0.0
    decreases |tickers|
  {
    if tickers == [] then s
    else BuyAll(BuyStep(s, tickers[0], Quote(quotes, tickers[0]), MaxPositionSize, tickers[0] in filled), tickers[1..], quotes, filled)
  }

  /** One iteration of the trading cycle: filter, and if anything is
      significant, buy, then monitor until the positions are gone, the bot
      is stopped or the polls run out. */
  function TradingCycle(s: BotState, data: InsiderData, minValue: real, minInsiders: int, minOwnChange: real,
      quotes: Quotes, filled: set<Ticker>, polls: seq<PollInput>, gainThreshold: real, dropThreshold: real): (r: BotState)
    requires PositionsValid(s.positions)
  {
    var significant := SignificantTickers(data, minValue, minInsiders, minOwnChange);
    if significant == [] then s
    else MonitorPrices(BuyPass(s, significant, quotes, filled), polls, gainThreshold, dropThreshold)
  }

  /** The buy pass keeps the engine's invariant. */
  lemma {:induction false} BuyPassConsistent(s: BotState, budget0: real, tickers: seq<Ticker>, quotes: Quotes, filled: set<Ticker>)
    requires Consistent(s, budget0)
    ensures Consistent(BuyPass(s, tickers, quotes, filled), budget0)
    decreases |tickers|
  {
    if tickers != [] {
      var price := Quote(quotes, tickers[0]);
      if s.budget > 0.0 && price > 0.0 {
        BuyStepConsistent(s, budget0, tickers[0], price, MaxPositionSize, tickers[0] in filled);
        BuyPassConsistent(BuyStep(s, tickers[0], price, MaxPositionSize, tickers[0] in filled), budget0, tickers[1..], quotes, filled);
      }
    }
  }

  /** How many tickers the buy pass gets through before its guard fails. */
  function StopIndex(s: BotState, tickers: seq<Ticker>, quotes: Quotes, filled: set<Ticker>): (k: nat)
    ensures k <= |tickers|
    decreases |tickers|
  {
    if tickers == [] then 0
    else
      var price := Quote(quotes, tickers[0]);
      if !(s.budget > 0.0 && price > 0.0) then 0
      else 1 + StopIndex(BuyStep(s, tickers[0], price, MaxPositionSize, tickers[0] in filled), tickers[1..], quotes, filled)
  }

  /** The buy pass is `buy_stock` on a prefix of the tickers, all quoted
      positively, and it stops exactly at the first ticker where the budget
      or the quote fails the guard. */
  lemma {:induction false} BuyPassStopsAtFirstFailure(s: BotState, tickers: seq<Ticker>, quotes: Quotes, filled: set<Ticker>)
    ensures var k := StopIndex(s, tickers, quotes, filled);
            && (forall j :: 0 <= j < k ==> Quote(quotes, tickers[j]) > 0.0)
            && (forall j :: 0 <= j < k ==> BuyAll(s, tickers[..j], quotes, filled).budget > 0.0)
            && BuyPass(s, tickers, quotes, filled) == BuyAll(s, tickers[..k], quotes, filled)
            && (k < |tickers| ==>
                  !(BuyAll(s, tickers[..k], quotes, filled).budget > 0.0 && Quote(quotes, tickers[k]) > 0.0))
    decreases |tickers|
  {
    if tickers == [] {
      assert tickers[..0] == [];
    } else {
      var price := Quote(quotes, tickers[0]);
      if !(s.budget > 0.0 && price > 0.0) {
        assert tickers[..0] == [];
      } else {
        var s1 := BuyStep(s, tickers[0], price, MaxPositionSize, tickers[0] in filled);
        var rest := tickers[1..];
        BuyPassStopsAtFirstFailure(s1, rest, quotes, filled);
        var k := StopIndex(s1, rest, quotes, filled);
        BuyAllFirst(s, tickers, quotes, filled, k);
        if k + 1 < |tickers| {
          assert tickers[k + 1] == rest[k];
        }
        forall j | 0 <= j < k + 1
          ensures BuyAll(s, tickers[..j], quotes, filled).budget > 0.0
        {
          BudgetPositiveBeforeStop(s, tickers, quotes, filled, j);
        }
      }
    }
  }

  /** Helper: at each ticker the pass gets to buy, the budget left by the
      purchases before it is still positive. */
  lemma {:induction false} BudgetPositiveBeforeStop(s: BotState, tickers: seq<Ticker>, quotes: Quotes, filled: set<Ticker>, j: int)
    requires 0 <= j < StopIndex(s, tickers, quotes, filled)
    ensures forall i :: 0 <= i < j ==> Quote(quotes, tickers[i]) > 0.0
    ensures BuyAll(s, tickers[..j], quotes, filled).budget > 0.0
    decreases |tickers|
  {
    if j == 0 {
      assert tickers[..0] == [];
    } else {
      var price := Quote(quotes, tickers[0]);
      var s1 := BuyStep(s, tickers[0], price, MaxPositionSize, tickers[0] in filled);
      var rest := tickers[1..];
      BudgetPositiveBeforeStop(s1, rest, quotes, filled, j - 1);
      BuyAllFirst(s, tickers, quotes, filled, j - 1);
    }
  }

  /** Helper: a positively quoted prefix of length k + 1 is its first
      purchase followed by the next k. */
  lemma BuyAllFirst(s: BotState, tickers: seq<Ticker>, quotes: Quotes, filled: set<Ticker>, k: nat)
    requires k < |tickers| && Quote(quotes, tickers[0]) > 0.0
    requires forall j :: 0 <= j < k ==> Quote(quotes, tickers[1..][j]) > 0.0
    ensures forall j :: 0 <= j < k + 1 ==> Quote(quotes, tickers[j]) > 0.0
    ensures BuyAll(s, tickers[..k + 1], quotes, filled)
            == BuyAll(BuyStep(s, tickers[0], Quote(quotes, tickers[0]), MaxPositionSize, tickers[0] in filled), tickers[1..][..k], quotes, filled)
  {
    forall j | 0 <= j < k + 1 ensures Quote(quotes, tickers[j]) > 0.0 {
      if j > 0 {
        assert tickers[j] == tickers[1..][j - 1];
      }
    }
    assert tickers[..k + 1][1..] == tickers[1..][..k];
  }

  /** Buying never touches a position already held, and every position the
      pass opens is a ticker listed before the point where the pass stops,
      whose order filled, bought at its quote. */
  lemma {:induction false} BuyPassOpensOnlyListed(s: BotState, tickers: seq<Ticker>, quotes: Quotes, filled: set<Ticker>)
    ensures var r := BuyPass(s, tickers, quotes, filled);
            var k := StopIndex(s, tickers, quotes, filled);
            && (forall u :: u in s.positions ==> u in r.positions && r.positions[u] == s.positions[u])
            && (forall u :: u in r.positions && u !in s.positions ==>
                  && u in tickers[..k] && u in filled
                  && r.positions[u].buyPrice == Quote(quotes, u)
                  && r.positions[u].highestPrice == Quote(quotes, u))
    decreases |tickers|
  {
    if tickers != [] {
      var price := Quote(quotes, tickers[0]);
      if s.budget > 0.0 && price > 0.0 {
        var s1 := BuyStep(s, tickers[0], price, MaxPositionSize, tickers[0] in filled);
        BuyPassOpensOnlyListed(s1, tickers[1..], quotes, filled);
        var k1 := StopIndex(s1, tickers[1..], quotes, filled);
        assert tickers[..k1 + 1] == [tickers[0]] + tickers[1..][..k1];
      }
    }
  }

  /** Each purchase spends at most a fifth of the budget, so a pass that
      starts with a non-negative budget never overdraws it. */
  lemma {:induction false} BuyPassNeverOverdraws(s: BotState, tickers: seq<Ticker>, quotes: Quotes, filled: set<Ticker>)
    requires s.budget >= 0.0
    ensures BuyPass(s, tickers, quotes, filled).budget >= 0.0
    decreases |tickers|
  {
    if tickers != [] {
      var price := Quote(quotes, tickers[0]);
      if s.budget > 0.0 && price > 0.0 {
        BuyKeepsBudget(s, tickers[0], price, MaxPositionSize, tickers[0] in filled);
        BuyPassNeverOverdraws(BuyStep(s, tickers[0], price, MaxPositionSize, tickers[0] in filled), tickers[1..], quotes, filled);
      }
    }
  }

  /** A trading cycle keeps the engine's invariant. */
  lemma TradingCycleConsistent(s: BotState, budget0: real, data: InsiderData, minValue: real, minInsiders: int, minOwnChange: real,
      quotes: Quotes, filled: set<Ticker>, polls: seq<PollInput>, gainThreshold: real, dropThreshold: real)
    requires Consistent(s, budget0)
    ensures Consistent(TradingCycle(s, data, minValue, minInsiders, minOwnChange, quotes, filled, polls, gainThreshold, dropThreshold), budget0)
  {
    var significant := SignificantTickers(data, minValue, minInsiders, minOwnChange);
    if significant != [] {
      BuyPassConsistent(s, budget0, significant, quotes, filled);
      MonitorPricesConsistent(BuyPass(s, significant, quotes, filled), budget0, polls, gainThreshold, dropThreshold);
    }
  }

  /** Every position a cycle ends with that it did not start with belongs to
      a ticker whose insider activity passed all three thresholds. */
  lemma CycleBuysOnlySignificant(s: BotState, data: InsiderData, minValue: real, minInsiders: int, minOwnChange: real,
      quotes: Quotes, filled: set<Ticker>, polls: seq<PollInput>, gainThreshold: real, dropThreshold: real, u: Ticker)
    requires PositionsValid(s.positions)
    requires u in TradingCycle(s, data, minValue, minInsiders, minOwnChange, quotes, filled, polls, gainThreshold, dropThreshold).positions
    requires u !in s.positions
    ensures exists i :: 0 <= i < |data| && data[i].0 == u && Significant(data[i].1, minValue, minInsiders, minOwnChange)
  {
    var significant := SignificantTickers(data, minValue, minInsiders, minOwnChange);
    var bought := BuyPass(s, significant, quotes, filled);
    PeaksNeverFall(bought, polls, gainThreshold, dropThreshold);
    BuyPassOpensOnlyListed(s, significant, quotes, filled);
    var k := StopIndex(s, significant, quotes, filled);
    assert u in significant by {
      var j :| 0 <= j < k && significant[..k][j] == u;
      assert significant[j] == u;
    }
    SignificantTickersMembers(data, minValue, minInsiders, minOwnChange, u);
  }

  /** The purchase sizes of the example below: a fifth of $10,000 buys 40
      shares at $50; a fifth of $8,000 buys 5 shares at $300 (5.33 rounded
      toward zero). */
  lemma PurchaseSizesExample()
    ensures BuyQuantity(10000.0, 50.0, MaxPositionSize) == 40
    ensures BuyQuantity(8000.0, 300.0, MaxPositionSize) == 5
  {
  }

  /** A fresh bot over a cash account of $10,000 and four significant tickers: the first,
      quoted at $50, buys 40 shares; the second, at $300, buys 5; the third
      has no quote, so the pass stops there and the fourth is not bought
      although it is quoted and would fill. */
  lemma BuyPassExample(first: Ticker, second: Ticker, third: Ticker, fourth: Ticker)
    requires first != second && first != third && first != fourth && second != third && second != fourth && third != fourth
    ensures var quotes := map[first := 50.0, second := 300.0, fourth := 200.0];
            BuyPass(BotState(10000.0, map[], [], []), [first, second, third, fourth], quotes, {first, second, fourth})
            == BotState(6500.0,
                        map[first := Position(40, 50.0, 50.0), second := Position(5, 300.0, 300.0)],
                        [first, second],
                        [TradeRecord(Buy, first, 40, 50.0), TradeRecord(Buy, second, 5, 300.0)])
  {
    var quotes := map[first := 50.0, second := 300.0, fourth := 200.0];
    var filled := {first, second, fourth};
    var ts := [first, second, third, fourth];
    assert ts[1..] == [second, third, fourth];
    assert ts[1..][1..] == [third, fourth];
    assert Quote(quotes, third) == 0.0;
    var s1 := BotState(8000.0, map[first := Position(40, 50.0, 50.0)], [first], [TradeRecord(Buy, first, 40, 50.0)]);
    var s2 := BotState(6500.0,
                       map[first := Position(40, 50.0, 50.0), second := Position(5, 300.0, 300.0)],
                       [first, second],
                       [TradeRecord(Buy, first, 40, 50.0), TradeRecord(Buy, second, 5, 300.0)]);
    PurchaseSizesExample();
    assert BuyStep(BotState(10000.0, map[], [], []), first, 50.0, MaxPositionSize, true) == s1;
    assert BuyStep(s1, second, 300.0, MaxPositionSize, true) == s2;
    assert first in filled && second in filled;
    assert Quote(quotes, first) == 50.0 && Quote(quotes, second) == 300.0;
    assert BuyPass(BotState(10000.0, map[], [], []), ts, quotes, filled) == BuyPass(s1, ts[1..], quotes, filled);
    assert BuyPass(s1, ts[1..], quotes, filled) == BuyPass(s2, ts[1..][1..], quotes, filled);
    assert BuyPass(s2, ts[1..][1..], quotes, filled) == s2;
  }

  /** The bot: the cash budget, the positions (with their insertion order)
      and the trade history, changed in place by buying, selling and
      monitoring. */
  class TradingBot {
    var budget: real
    var positions: map<Ticker, Position>
    var order: seq<Ticker>
    var tradeHistory: seq<TradeRecord>
    /** The cash the account held when the bot started. */
    ghost var initialBudget: real

    function State(): (s: BotState)
      reads this
    {
      BotState(budget, positions, order, tradeHistory)
    }

    ghost predicate Valid()
      reads this
    {
      Consistent(State(), initialBudget)
    }

    /** A bot over an account holding `cash` (0 when the balance query fails). */
    constructor(cash: real)
      ensures State() == Initial(cash) && initialBudget == cash
      ensures Valid()
    {
      budget := cash;
      positions := map[];
      order := [];
      tradeHistory := [];
      initialBudget := cash;
    }

    /** Appends one record to the trade history. */
    method RecordTrade(kind: TradeType, ticker: Ticker, quantity: int, price: real)
      modifies this`tradeHistory
      ensures tradeHistory == old(tradeHistory) + [TradeRecord(kind, ticker, quantity, price)]
    {
      tradeHistory := tradeHistory + [TradeRecord(kind, ticker, quantity, price)];
    }

    /** Buys `ticker` at `price` unless already held; `orderFilled` is
        whether the broker accepts the market order. */
    method BuyStock(ticker: Ticker, price: real, maxPositionSize: real, orderFilled: bool)
      requires price > 0.0
      modifies this`budget, this`positions, this`order, this`tradeHistory
      ensures State() == BuyStep(old(State()), ticker, price, maxPositionSize, orderFilled)
    {
      if ticker !in positions {
        var quantity := BuyQuantity(budget, price, maxPositionSize);
        if quantity > 0 && orderFilled {
          positions := positions[ticker := Position(quantity, price, price)];
          order := order + [ticker];
          budget := budget - quantity as real * price;
          RecordTrade(Buy, ticker, quantity, price);
        }
      }
    }

    /** Sells the whole position in `ticker` at `sellPrice`, the quote
        fetched once when the sale is booked. */
    method SellStock(ticker: Ticker, sellPrice: real, orderFilled: bool)
      modifies this`budget, this`positions, this`order, this`tradeHistory
      ensures State() == SellStep(old(State()), ticker, sellPrice, orderFilled)
    {
      if ticker in positions && orderFilled {
        var quantity := positions[ticker].quantity;
        budget := budget + quantity as real * sellPrice;
        RecordTrade(Sell, ticker, quantity, sellPrice);
        positions := positions - {ticker};
        order := Remove(order, ticker);
      }
    }

    /** The poll's step for one ticker: raise the peak, then sell when the
        gain and the drop from the old peak both reach their thresholds. */
    method MonitorPosition(ticker: Ticker, input: PollInput, gainThreshold: real, dropThreshold: real)
      requires PositionsValid(positions)
      modifies this`budget, this`positions, this`order, this`tradeHistory
      ensures State() == CheckPosition(old(State()), ticker, input, gainThreshold, dropThreshold)
    {
      if ticker in positions {
        var info := positions[ticker];
        var currentPrice := Quote(input.quotes, ticker);
        var gain := Gain(info, currentPrice);
        if currentPrice > info.highestPrice {
          positions := positions[ticker := info.(highestPrice := currentPrice)];
        }
        if gain >= gainThreshold {
          var drop := DropFromPeak(info, currentPrice);
          if drop >= dropThreshold {
            SellStock(ticker, Quote(input.sellQuotes, ticker), ticker in input.filled);
          }
        }
      }
    }

    /** One poll of the monitor: over the positions held when it starts. */
    method PollPositions(input: PollInput, gainThreshold: real, dropThreshold: real)
      requires PositionsValid(positions)
      modifies this`budget, this`positions, this`order, this`tradeHistory
      ensures State() == Poll(old(State()), input, gainThreshold, dropThreshold)
    {
      if !input.marketOpen {
        return;
      }
      var keys := order;
      var i := 0;
      assert keys[0..] == keys;
      while i < |keys|
        invariant 0 <= i <= |keys|
        invariant PositionsValid(positions)
        invariant CheckPositions(State(), keys[i..], input, gainThreshold, dropThreshold)
                  == CheckPositions(old(State()), keys, input, gainThreshold, dropThreshold)
      {
        assert keys[i..][1..] == keys[i + 1..];
        MonitorPosition(keys[i], input, gainThreshold, dropThreshold);
        i := i + 1;
      }
    }

    /** The monitor loop, over a finite run of polls. */
    method MonitorPrices(polls: seq<PollInput>, gainThreshold: real, dropThreshold: real)
      requires PositionsValid(positions)
      modifies this`budget, this`positions, this`order, this`tradeHistory
      ensures State() == Monitor.MonitorPrices(old(State()), polls, gainThreshold, dropThreshold)
    {
      ghost var start := State();
      var i := 0;
      assert polls[0..] == polls;
      while i < |polls| && |positions| > 0 && polls[i].running
        invariant 0 <= i <= |polls|
        invariant PositionsValid(positions)
        invariant Monitor.MonitorPrices(State(), polls[i..], gainThreshold, dropThreshold)
                  == Monitor.MonitorPrices(start, polls, gainThreshold, dropThreshold)
      {
        MonitorPricesUnfold(State(), polls, i, gainThreshold, dropThreshold);
        PollPositions(polls[i], gainThreshold, dropThreshold);
        i := i + 1;
      }
      MonitorPricesUnfold(State(), polls, i, gainThreshold, dropThreshold);
    }

    /** The buy pass: each significant ticker in turn, until the budget is
        spent or a quote fails. */
    method BuySignificant(significantStocks: seq<Ticker>, quotes: Quotes, filled: set<Ticker>)
      modifies this`budget, this`positions, this`order, this`tradeHistory
      ensures State() == BuyPass(old(State()), significantStocks, quotes, filled)
    {
      var i := 0;
      assert significantStocks[0..] == significantStocks;
      while i < |significantStocks|
        invariant 0 <= i <= |significantStocks|
        invariant BuyPass(State(), significantStocks[i..], quotes, filled)
                  == BuyPass(old(State()), significantStocks, quotes, filled)
      {
        var ticker := significantStocks[i];
        var price := Quote(quotes, ticker);
        assert significantStocks[i..][1..] == significantStocks[i + 1..];
        if budget > 0.0 && price > 0.0 {
          BuyStock(ticker, price, MaxPositionSize, ticker in filled);
        } else {
          break;
        }
        i := i + 1;
      }
    }

    /** One iteration of the trading cycle; it keeps the bot's invariant. */
    method RunTradingCycle(data: InsiderData, minValue: real, minInsiders: int, minOwnChange: real,
        quotes: Quotes, filled: set<Ticker>, polls: seq<PollInput>, gainThreshold: real, dropThreshold: real)
      requires Valid()
      modifies this`budget, this`positions, this`order, this`tradeHistory
      ensures State() == TradingCycle(old(State()), data, minValue, minInsiders, minOwnChange, quotes, filled, polls, gainThreshold, dropThreshold)
      ensures Valid()
    {
      ghost var start := State();
      var significantStocks := FilterSignificantTransactions(data, minValue, minInsiders, minOwnChange);
      if significantStocks != [] {
        BuySignificant(significantStocks, quotes, filled);
        MonitorPrices(polls, gainThreshold, dropThreshold);
      }
      TradingCycleConsistent(start, initialBudget, data, minValue, minInsiders, minOwnChange, quotes, filled, polls, gainThreshold, dropThreshold);
    }
  }
}
