/** The position store, the budget and the trade history, and the two
    operations that change all three together: buying and selling. */
module Ledger {
  import opened Broker
  import opened Sequences

  /** An open position: shares held, execution price, highest price seen since. */
  datatype Position = Position(quantity: int, buyPrice: real, highestPrice: real)

  datatype TradeType = Buy | Sell

  /** An entry of the trade history (the source's timestamp is not modelled). */
  datatype TradeRecord = TradeRecord(kind: TradeType, ticker: Ticker, quantity: int, price: real)

  /** Everything the trading engine owns: the cash budget, the positions dict
      (a map plus its insertion order, which is the order Python iterates it
      in) and the append-only trade history. */
  datatype BotState = BotState(
    budget: real,
    positions: map<Ticker, Position>,
    order: seq<Ticker>,
    history: seq<TradeRecord>)

  /** The default share of the budget one purchase may spend. */
  const MaxPositionSize: real := 0.2

  /** Python's `int(x)` on a float: truncation toward zero. */
  function Trunc(x: real): (n: int)
  {
    if x >= 0.0 then x.Floor else -((-x).Floor)
  }

  /** `Trunc` rounds toward zero: down for a non-negative argument, up for a
      negative one, by less than one. */
  lemma TruncBounds(x: real)
    ensures 0.0 <= x ==> 0 <= Trunc(x) && Trunc(x) as real <= x < Trunc(x) as real + 1.0
    ensures x < 0.0 ==> Trunc(x) <= 0 && Trunc(x) as real - 1.0 < x <= Trunc(x) as real
  {
  }

  /** The number of shares `buy_stock` orders: whole shares of `price` that
      the allowed fraction of the budget pays for. */
  function BuyQuantity(budget: real, price: real, maxPositionSize: real): (q: int)
    requires price > 0.0
  {
    Trunc(budget * maxPositionSize / price)
  }

  /** Every position holds shares, was bought at a positive price, and its
      peak is at least its buy price. */
  predicate PositionsValid(positions: map<Ticker, Position>)
  {
    forall t :: t in positions ==>
      positions[t].quantity > 0 && 0.0 < positions[t].buyPrice <= positions[t].highestPrice
  }

  /** The insertion order lists each open position exactly once. */
  predicate OrderValid(s: BotState)
  {
    && Distinct(s.order)
    && (forall t :: t in s.order ==> t in s.positions)
    && (forall t :: t in s.positions ==> t in s.order)
  }

  /** The records about one ticker, in history order. */
  function TradeLog(h: seq<TradeRecord>, t: Ticker): (log: seq<TradeRecord>)
    ensures forall i :: 0 <= i < |log| ==> log[i].ticker == t
  {
    if h == [] then []
    else if h[|h| - 1].ticker == t then TradeLog(h[..|h| - 1], t) + [h[|h| - 1]]
    else TradeLog(h[..|h| - 1], t)
  }

  /** What a trade does to the cash: a buy pays, a sell receives. */
  function CashEffect(r: TradeRecord): (c: real)
  {
    if r.kind == Buy then -(r.quantity as real * r.price) else r.quantity as real * r.price
  }

  /** The net cash of a trade history. */
  function CashFlow(h: seq<TradeRecord>): (c: real)
  {
    if h == [] then 0.0 else CashFlow(h[..|h| - 1]) + CashEffect(h[|h| - 1])
  }

  /** A ticker's trades go buy, sell, buy, sell, ... */
  predicate Alternates(log: seq<TradeRecord>)
  {
    forall i :: 0 <= i < |log| ==> log[i].kind == (if i % 2 == 0 then Buy else Sell)
  }

  /** The history tells each position's story: a ticker is held iff its last
      trade is a buy, and that buy is the position's own quantity and price. */
  ghost predicate HistoryAgrees(positions: map<Ticker, Position>, history: seq<TradeRecord>)
  {
    forall t :: AgreesAt(positions, history, t)
  }

  /** The story of one ticker `t`: its trades alternate buy and sell, it is
      held iff their number is odd, and then the last is the position's buy. */
  ghost predicate AgreesAt(positions: map<Ticker, Position>, history: seq<TradeRecord>, t: Ticker)
  {
    && Alternates(TradeLog(history, t))
    && (t in positions <==> |TradeLog(history, t)| % 2 == 1)
    && (t in positions ==>
          var log := TradeLog(history, t);
          |log| > 0 && log[|log| - 1] == TradeRecord(Buy, t, positions[t].quantity, positions[t].buyPrice))
  }

  /** The invariant of the engine's state, for a bot that started with cash
      `budget0` and an empty history. */
  ghost predicate Consistent(s: BotState, budget0: real)
  {
    && PositionsValid(s.positions)
    && OrderValid(s)
    && HistoryAgrees(s.positions, s.history)
    && s.budget == budget0 + CashFlow(s.history)
  }

  /** `buy_stock`: skipped for a held ticker, for a quantity below one share
      and for a failed order; otherwise the position, the spend and the buy
      record, together. */
  function BuyStep(s: BotState, t: Ticker, price: real, maxPositionSize: real, filled: bool): (r: BotState)
    requires price > 0.0
    ensures PositionsValid(s.positions) ==> PositionsValid(r.positions)
  {
    if t in s.positions then s
    else
      var q := BuyQuantity(s.budget, price, maxPositionSize);
      if q <= 0 || !filled then s
      else OpenPosition(s, t, q, price)
  }

  /** The effect of a filled purchase of `q` shares of `t` at `price`: the
      position, the spend and the buy record. */
  function OpenPosition(s: BotState, t: Ticker, q: int, price: real): (r: BotState)
    ensures PositionsValid(s.positions) && q > 0 && price > 0.0 ==> PositionsValid(r.positions)
  {
    BotState(
      s.budget - q as real * price,
      s.positions[t := Position(q, price, price)],
      s.order + [t],
      s.history + [TradeRecord(Buy, t, q, price)])
  }

  /** `sell_stock` at the one price `sellPrice`: skipped for an unheld ticker
      and for a failed order; otherwise the proceeds, the sell record and the
      removal, together. */
  function SellStep(s: BotState, t: Ticker, sellPrice: real, filled: bool): (r: BotState)
    ensures PositionsValid(s.positions) ==> PositionsValid(r.positions)
  {
    if t !in s.positions || !filled then s
    else ClosePosition(s, t, sellPrice)
  }

  /** The effect of a filled sale of the whole position in `t`: the
      proceeds, the removal and the sell record. */
  function ClosePosition(s: BotState, t: Ticker, sellPrice: real): (r: BotState)
    requires t in s.positions
    ensures PositionsValid(s.positions) ==> PositionsValid(r.positions)
  {
    var q := s.positions[t].quantity;
    BotState(
      s.budget + q as real * sellPrice,
      s.positions - {t},
      Remove(s.order, t),
      s.history + [TradeRecord(Sell, t, q, sellPrice)])
  }

  /** The state of a freshly started bot whose account holds `cash`. */
  function Initial(cash: real): (s: BotState)
    ensures Consistent(s, cash)
  {
    BotState(cash, map[], [], [])
  }

  /** `buy_stock` changes the state iff the ticker is not held, at least one
      share is affordable and the order fills; then it opens exactly that
      position at `price`, pays exactly its cost and appends exactly its buy
      record, and no other position changes. */
  lemma BuyStepEffect(s: BotState, t: Ticker, price: real, maxPositionSize: real, filled: bool)
    requires price > 0.0
    ensures var r := BuyStep(s, t, price, maxPositionSize, filled);
            var q := BuyQuantity(s.budget, price, maxPositionSize);
            && (r != s <==> t !in s.positions && q > 0 && filled)
            && (r != s ==>
                  && r.positions.Keys == s.positions.Keys + {t}
                  && r.positions[t] == Position(q, price, price)
                  && (forall u :: u in s.positions ==> r.positions[u] == s.positions[u])
                  && r.budget == s.budget - q as real * price
                  && |r.history| == |s.history| + 1
                  && r.history[..|s.history|] == s.history
                  && r.history[|s.history|] == TradeRecord(Buy, t, q, price))
  {
    var r := BuyStep(s, t, price, maxPositionSize, filled);
    if r != s {
      assert r.history[..|s.history|] == s.history;
    }
  }

  /** `sell_stock` changes the state iff the ticker is held and the order
      fills; then it removes exactly that position, receives its shares
      times `sellPrice` and appends exactly its sell record, and no other
      position changes. */
  lemma SellStepEffect(s: BotState, t: Ticker, sellPrice: real, filled: bool)
    ensures var r := SellStep(s, t, sellPrice, filled);
            && (r != s <==> t in s.positions && filled)
            && (r != s ==>
                  var q := s.positions[t].quantity;
                  && r.positions.Keys == s.positions.Keys - {t}
                  && (forall u :: u in r.positions ==> r.positions[u] == s.positions[u])
                  && r.budget == s.budget + q as real * sellPrice
                  && |r.history| == |s.history| + 1
                  && r.history[..|s.history|] == s.history
                  && r.history[|s.history|] == TradeRecord(Sell, t, q, sellPrice))
  {
    var r := SellStep(s, t, sellPrice, filled);
    if t in s.positions && filled {
      assert |r.history| == |s.history| + 1;
      assert r.history[..|s.history|] == s.history;
    }
  }

  /** A filled purchase of an unheld ticker followed by a filled sale at the
      same price gives back the budget, the positions and their order, and
      leaves the pair of records in the history. */
  lemma BuyThenSellRestores(s: BotState, t: Ticker, price: real, maxPositionSize: real)
    requires price > 0.0 && t !in s.positions && t !in s.order
    ensures var q := BuyQuantity(s.budget, price, maxPositionSize);
            var r := SellStep(BuyStep(s, t, price, maxPositionSize, true), t, price, true);
            && r.budget == s.budget
            && r.positions == s.positions
            && r.order == s.order
            && r.history == (if q > 0 then s.history + [TradeRecord(Buy, t, q, price), TradeRecord(Sell, t, q, price)] else s.history)
  {
    var q := BuyQuantity(s.budget, price, maxPositionSize);
    if q > 0 {
      var b := OpenPosition(s, t, q, price);
      assert b.positions[t].quantity == q;
      RemoveAppended(s.order, t);
      assert b.positions - {t} == s.positions;
    }
  }

  /** Appending one record adds it to its ticker's log only, and adds its
      cash effect. */
  lemma AppendRecord(h: seq<TradeRecord>, r: TradeRecord, t: Ticker)
    ensures TradeLog(h + [r], t) == if r.ticker == t then TradeLog(h, t) + [r] else TradeLog(h, t)
    ensures CashFlow(h + [r]) == CashFlow(h) + CashEffect(r)
  {
    assert (h + [r])[..|h|] == h;
  }

  /** The shares bought are the most whole shares the allowed fraction of a
      non-negative budget pays for. */
  lemma BuyQuantityMaximal(budget: real, price: real, maxPositionSize: real)
    requires price > 0.0 && budget * maxPositionSize >= 0.0
    ensures var q := BuyQuantity(budget, price, maxPositionSize);
            0 <= q && q as real * price <= budget * maxPositionSize < (q + 1) as real * price
  {
    var spend := budget * maxPositionSize;
    var q := BuyQuantity(budget, price, maxPositionSize);
    QuotientBounds(spend, price, q);
  }

  /** Helper: `q` shares, `q` the truncated quotient, cost at most `spend`
      and one more share would cost more. */
  lemma QuotientBounds(spend: real, price: real, q: int)
    requires price > 0.0 && spend >= 0.0 && q == Trunc(spend / price)
    ensures 0 <= q && q as real * price <= spend < (q + 1) as real * price
  {
    QuotientLower(spend, price, q);
    QuotientUpper(spend, price, q);
  }

  lemma QuotientLower(spend: real, price: real, q: int)
    requires price > 0.0 && spend >= 0.0 && q == Trunc(spend / price)
    ensures 0 <= q && q as real * price <= spend
  {
    var x := spend / price;
    TruncBounds(x);
    assert x * price == spend;
    MulMonotone(q as real, x, price);
  }

  lemma QuotientUpper(spend: real, price: real, q: int)
    requires price > 0.0 && spend >= 0.0 && q == Trunc(spend / price)
    ensures spend < (q + 1) as real * price
  {
    var x := spend / price;
    TruncBounds(x);
    assert x * price == spend;
    var y := q as real;
    MulStrict(x, y + 1.0, price);
    assert (q + 1) as real == y + 1.0;
  }

  lemma MulMonotone(a: real, b: real, c: real)
    requires a <= b && c >= 0.0
    ensures a * c <= b * c
  {
  }

  lemma MulStrict(a: real, b: real, c: real)
    requires a < b && c > 0.0
    ensures a * c < b * c
  {
  }

  /** A purchase spends at most `maxPositionSize` of a positive budget, so the
      budget stays at least (1 - maxPositionSize) of what it was, and stays
      non-negative. */
  lemma BuyKeepsBudget(s: BotState, t: Ticker, price: real, maxPositionSize: real, filled: bool)
    requires price > 0.0 && s.budget > 0.0 && 0.0 <= maxPositionSize <= 1.0
    ensures var r := BuyStep(s, t, price, maxPositionSize, filled);
            r.budget >= (1.0 - maxPositionSize) * s.budget && r.budget >= 0.0
  {
    var q := BuyQuantity(s.budget, price, maxPositionSize);
    var r := BuyStep(s, t, price, maxPositionSize, filled);
    FractionBounds(s.budget, maxPositionSize);
    if t !in s.positions && q > 0 && filled {
      var cost := q as real * price;
      assert r.budget == s.budget - cost;
      BuyQuantityMaximal(s.budget, price, maxPositionSize);
      SpendWithinFraction(s.budget, maxPositionSize, cost);
    } else {
      assert r.budget == s.budget;
    }
  }

  /** Helper: both shares of a positive budget are between 0 and the whole. */
  lemma FractionBounds(b: real, f: real)
    requires b > 0.0 && 0.0 <= f <= 1.0
    ensures 0.0 <= b * f <= b && 0.0 <= (1.0 - f) * b <= b
  {
    MulMonotone(0.0, f, b);
    MulMonotone(f, 1.0, b);
    MulMonotone(0.0, 1.0 - f, b);
    MulMonotone(1.0 - f, 1.0, b);
  }

  /** Helper: spending at most the fraction `f` of `b` leaves (1 - f) of it. */
  lemma SpendWithinFraction(b: real, f: real, cost: real)
    requires cost <= b * f
    ensures b - cost >= (1.0 - f) * b
  {
  }

  /** Log of a ticker with an alternating log, extended by the trade that
      comes next. */
  lemma AlternatesAppend(log: seq<TradeRecord>, r: TradeRecord)
    requires Alternates(log)
    requires r.kind == (if |log| % 2 == 0 then Buy else Sell)
    ensures Alternates(log + [r])
  {
  }

  /** Helper: one ticker's story after a buy record for `t`. */
  lemma OpenAgreesAt(positions: map<Ticker, Position>, history: seq<TradeRecord>, t: Ticker, q: int, price: real, u: Ticker)
    requires AgreesAt(positions, history, u) && t !in positions
    ensures AgreesAt(positions[t := Position(q, price, price)], history + [TradeRecord(Buy, t, q, price)], u)
  {
    var rec := TradeRecord(Buy, t, q, price);
    AppendRecord(history, rec, u);
    if u == t {
      AlternatesAppend(TradeLog(history, t), rec);
    }
  }

  /** Helper: one ticker's story after a sell record for a held `t`. */
  lemma CloseAgreesAt(positions: map<Ticker, Position>, history: seq<TradeRecord>, t: Ticker, sellPrice: real, u: Ticker)
    requires AgreesAt(positions, history, u) && t in positions
    ensures AgreesAt(positions - {t}, history + [TradeRecord(Sell, t, positions[t].quantity, sellPrice)], u)
  {
    var rec := TradeRecord(Sell, t, positions[t].quantity, sellPrice);
    AppendRecord(history, rec, u);
    if u == t {
      AlternatesAppend(TradeLog(history, t), rec);
    }
  }

  /** Opening a position on an unheld ticker together with its buy record
      keeps the history in agreement with the positions. */
  lemma OpenAgrees(s: BotState, t: Ticker, q: int, price: real)
    requires HistoryAgrees(s.positions, s.history) && t !in s.positions
    ensures HistoryAgrees(s.positions[t := Position(q, price, price)], s.history + [TradeRecord(Buy, t, q, price)])
  {
    var positions := s.positions[t := Position(q, price, price)];
    var history := s.history + [TradeRecord(Buy, t, q, price)];
    forall u ensures AgreesAt(positions, history, u) {
      OpenAgreesAt(s.positions, s.history, t, q, price, u);
    }
  }

  /** Closing a position together with its sell record keeps the history in
      agreement with the positions. */
  lemma CloseAgrees(s: BotState, t: Ticker, sellPrice: real)
    requires HistoryAgrees(s.positions, s.history) && t in s.positions
    ensures HistoryAgrees(s.positions - {t}, s.history + [TradeRecord(Sell, t, s.positions[t].quantity, sellPrice)])
  {
    var rec := TradeRecord(Sell, t, s.positions[t].quantity, sellPrice);
    forall u ensures AgreesAt(s.positions - {t}, s.history + [rec], u) {
      CloseAgreesAt(s.positions, s.history, t, sellPrice, u);
    }
  }

  /** Recording a trade whose cash effect is applied to the budget keeps
      the budget equal to the starting cash plus the history's net cash. */
  lemma RecordKeepsCash(budget: real, h: seq<TradeRecord>, r: TradeRecord, budget0: real)
    requires budget == budget0 + CashFlow(h)
    ensures budget + CashEffect(r) == budget0 + CashFlow(h + [r])
  {
    AppendRecord(h, r, r.ticker);
  }

  lemma BuyCashEffect(budget: real, t: Ticker, q: int, price: real)
    ensures budget - q as real * price == budget + CashEffect(TradeRecord(Buy, t, q, price))
  {
  }

  lemma SellCashEffect(budget: real, t: Ticker, q: int, price: real)
    ensures budget + q as real * price == budget + CashEffect(TradeRecord(Sell, t, q, price))
  {
  }

  /** The spend of a purchase is booked in the history. */
  lemma OpenPositionCash(s: BotState, budget0: real, t: Ticker, q: int, price: real)
    requires s.budget == budget0 + CashFlow(s.history)
    ensures OpenPosition(s, t, q, price).budget == budget0 + CashFlow(OpenPosition(s, t, q, price).history)
  {
    RecordKeepsCash(s.budget, s.history, TradeRecord(Buy, t, q, price), budget0);
    BuyCashEffect(s.budget, t, q, price);
  }

  /** The proceeds of a sale are booked in the history. */
  lemma ClosePositionCash(s: BotState, budget0: real, t: Ticker, sellPrice: real)
    requires t in s.positions && s.budget == budget0 + CashFlow(s.history)
    ensures ClosePosition(s, t, sellPrice).budget == budget0 + CashFlow(ClosePosition(s, t, sellPrice).history)
  {
    RecordKeepsCash(s.budget, s.history, TradeRecord(Sell, t, s.positions[t].quantity, sellPrice), budget0);
    SellCashEffect(s.budget, t, s.positions[t].quantity, sellPrice);
  }

  /** Opening a position on an unheld ticker keeps the engine's invariant. */
  lemma OpenPositionConsistent(s: BotState, budget0: real, t: Ticker, q: int, price: real)
    requires Consistent(s, budget0) && t !in s.positions && q > 0 && price > 0.0
    ensures Consistent(OpenPosition(s, t, q, price), budget0)
  {
    OpenAgrees(s, t, q, price);
    OpenPositionCash(s, budget0, t, q, price);
    assert t !in s.order;
    DistinctAppend(s.order, t);
  }

  /** Closing a held position keeps the engine's invariant. */
  lemma ClosePositionConsistent(s: BotState, budget0: real, t: Ticker, sellPrice: real)
    requires Consistent(s, budget0) && t in s.positions
    ensures Consistent(ClosePosition(s, t, sellPrice), budget0)
  {
    CloseAgrees(s, t, sellPrice);
    ClosePositionCash(s, budget0, t, sellPrice);
    RemoveDistinct(s.order, t);
  }

  /** Buying keeps the engine's invariant. */
  lemma BuyStepConsistent(s: BotState, budget0: real, t: Ticker, price: real, maxPositionSize: real, filled: bool)
    requires Consistent(s, budget0) && price > 0.0
    ensures Consistent(BuyStep(s, t, price, maxPositionSize, filled), budget0)
  {
    var q := BuyQuantity(s.budget, price, maxPositionSize);
    if t !in s.positions && q > 0 && filled {
      OpenPositionConsistent(s, budget0, t, q, price);
    }
  }

  /** Selling keeps the engine's invariant. */
  lemma SellStepConsistent(s: BotState, budget0: real, t: Ticker, sellPrice: real, filled: bool)
    requires Consistent(s, budget0)
    ensures Consistent(SellStep(s, t, sellPrice, filled), budget0)
  {
    if t in s.positions && filled {
      ClosePositionConsistent(s, budget0, t, sellPrice);
    }
  }

  /** Raising a position's peak keeps the engine's invariant. */
  lemma RaisePeakConsistent(s: BotState, budget0: real, t: Ticker, price: real)
    requires Consistent(s, budget0) && t in s.positions && price > s.positions[t].highestPrice
    ensures Consistent(s.(positions := s.positions[t := s.positions[t].(highestPrice := price)]), budget0)
  {
    var raised := s.positions[t := s.positions[t].(highestPrice := price)];
    forall u ensures AgreesAt(raised, s.history, u) {
      assert AgreesAt(s.positions, s.history, u);
    }
  }
}
