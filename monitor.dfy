/** The monitor loop: each poll raises every position's peak price and sells
    the positions that have gained enough and then fallen far enough from
    their peak. */
module Monitor {
  import opened Broker
  import opened Sequences
  import opened Ledger

  /** What one poll of the monitor loop learns from outside the engine. */
  datatype PollInput = PollInput(
    running: bool,          // the stop flag as the loop condition reads it
    marketOpen: bool,       // the broker's market clock (false when the query fails)
    quotes: Quotes,         // the price fetched for the sell decision
    sellQuotes: Quotes,     // the price fetched when the sale is booked
    filled: set<Ticker>)    // the tickers whose sell order the broker accepts

  /** Percent gain of `cur` over the buy price. */
  function Gain(pos: Position, cur: real): (g: real)
    requires pos.buyPrice != 0.0
  {
    (cur - pos.buyPrice) / pos.buyPrice * 100.0
  }

  /** Percent drop of `cur` below the recorded peak. */
  function DropFromPeak(pos: Position, cur: real): (d: real)
    requires pos.highestPrice != 0.0
  {
    (pos.highestPrice - cur) / pos.highestPrice * 100.0
  }

  /** The sell rule, with the peak as it was before this poll. */
  predicate ShouldSell(pos: Position, cur: real, gainThreshold: real, dropThreshold: real)
    requires pos.buyPrice != 0.0 && pos.highestPrice != 0.0
  {
    Gain(pos, cur) >= gainThreshold && DropFromPeak(pos, cur) >= dropThreshold
  }

  function Max(a: real, b: real): (m: real)
  {
    if a >= b then a else b
  }

  /** One pass of the poll's inner loop: the position in `t`, if still held. */
  function CheckPosition(s: BotState, t: Ticker, input: PollInput, gainThreshold: real, dropThreshold: real): (r: BotState)
    requires PositionsValid(s.positions)
    ensures PositionsValid(r.positions)
  {
    if t !in s.positions then s
    else
      var pos := s.positions[t];
      var cur := Quote(input.quotes, t);
      var raised := if cur > pos.highestPrice then s.(positions := s.positions[t := pos.(highestPrice := cur)]) else s;
      if ShouldSell(pos, cur, gainThreshold, dropThreshold)
      then SellStep(raised, t, Quote(input.sellQuotes, t), t in input.filled)
      else raised
  }

  /** The poll's inner loop over the tickers `keys`, in order. */
  function CheckPositions(s: BotState, keys: seq<Ticker>, input: PollInput, gainThreshold: real, dropThreshold: real): (r: BotState)
    requires PositionsValid(s.positions)
    ensures PositionsValid(r.positions)
    decreases |keys|
  {
    if keys == [] then s
    else CheckPositions(CheckPosition(s, keys[0], input, gainThreshold, dropThreshold), keys[1..], input, gainThreshold, dropThreshold)
  }

  /** One poll: nothing while the market is closed, otherwise every position
      held when the poll starts, in the positions' order. */
  function Poll(s: BotState, input: PollInput, gainThreshold: real, dropThreshold: real): (r: BotState)
    requires PositionsValid(s.positions)
    ensures PositionsValid(r.positions)
  {
    if !input.marketOpen then s
    else CheckPositions(s, s.order, input, gainThreshold, dropThreshold)
  }

  /** The monitor loop over a finite run of polls: it ends when no position
      is left, when the bot has been stopped, or when the polls run out. */
  function MonitorPrices(s: BotState, polls: seq<PollInput>, gainThreshold: real, dropThreshold: real): (r: BotState)
    requires PositionsValid(s.positions)
    ensures PositionsValid(r.positions)
    decreases |polls|
  {
    if polls == [] || |s.positions| == 0 || !polls[0].running then s
    else MonitorPrices(Poll(s, polls[0], gainThreshold, dropThreshold), polls[1..], gainThreshold, dropThreshold)
  }

  /** Helper: one turn of the monitor loop, from poll `i` on. */
  lemma MonitorPricesUnfold(s: BotState, polls: seq<PollInput>, i: int, gainThreshold: real, dropThreshold: real)
    requires PositionsValid(s.positions) && 0 <= i <= |polls|
    ensures i < |polls| && |s.positions| != 0 && polls[i].running ==>
              MonitorPrices(s, polls[i..], gainThreshold, dropThreshold)
              == MonitorPrices(Poll(s, polls[i], gainThreshold, dropThreshold), polls[i + 1..], gainThreshold, dropThreshold)
    ensures !(i < |polls| && |s.positions| != 0 && polls[i].running) ==>
              MonitorPrices(s, polls[i..], gainThreshold, dropThreshold) == s
  {
    if i < |polls| {
      assert polls[i..][1..] == polls[i + 1..];
    }
  }

  /** The rule for one position: it is sold exactly when the sell rule holds
      and the broker fills the order; otherwise its peak becomes the larger of
      the old peak and the current price. No other position changes. */
  lemma CheckPositionRule(s: BotState, t: Ticker, input: PollInput, gainThreshold: real, dropThreshold: real)
    requires PositionsValid(s.positions) && t in s.positions
    ensures var pos := s.positions[t];
            var cur := Quote(input.quotes, t);
            var r := CheckPosition(s, t, input, gainThreshold, dropThreshold);
            && (t !in r.positions <==> ShouldSell(pos, cur, gainThreshold, dropThreshold) && t in input.filled)
            && (t in r.positions ==> r.positions[t] == pos.(highestPrice := Max(pos.highestPrice, cur)))
            && (forall u :: u != t ==> (u in r.positions <==> u in s.positions))
            && (forall u :: u != t && u in r.positions ==> r.positions[u] == s.positions[u])
  {
  }

  /** A ticker a poll step is not about keeps its position. */
  lemma CheckPositionOthers(s: BotState, t: Ticker, input: PollInput, gainThreshold: real, dropThreshold: real, u: Ticker)
    requires PositionsValid(s.positions) && u != t
    ensures var r := CheckPosition(s, t, input, gainThreshold, dropThreshold);
            && (u in r.positions <==> u in s.positions)
            && (u in r.positions ==> r.positions[u] == s.positions[u])
  {
  }

  /** Over a whole inner loop with each ticker once, every visited position
      obeys the rule of `CheckPositionRule` against its state at the start of
      the poll, and every position not visited is left alone. */
  lemma {:induction false} CheckPositionsPerPosition(s: BotState, keys: seq<Ticker>, input: PollInput,
      gainThreshold: real, dropThreshold: real, u: Ticker)
    requires PositionsValid(s.positions) && Distinct(keys)
    ensures var r := CheckPositions(s, keys, input, gainThreshold, dropThreshold);
            && (u !in keys ==> (u in r.positions <==> u in s.positions))
            && (u !in keys && u in r.positions ==> r.positions[u] == s.positions[u])
            && (u in keys && u in s.positions ==>
                  var pos := s.positions[u];
                  var cur := Quote(input.quotes, u);
                  && (u !in r.positions <==> ShouldSell(pos, cur, gainThreshold, dropThreshold) && u in input.filled)
                  && (u in r.positions ==> r.positions[u] == pos.(highestPrice := Max(pos.highestPrice, cur))))
            && (u in keys && u !in s.positions ==> u !in r.positions)
    decreases |keys|
  {
    if keys != [] {
      var t := keys[0];
      var s1 := CheckPosition(s, t, input, gainThreshold, dropThreshold);
      assert Distinct(keys[1..]) by {
        forall i, j | 0 <= i < j < |keys[1..]| ensures keys[1..][i] != keys[1..][j] {
          assert keys[1..][i] == keys[i + 1] && keys[1..][j] == keys[j + 1];
        }
      }
      CheckPositionsPerPosition(s1, keys[1..], input, gainThreshold, dropThreshold, u);
      assert keys == [t] + keys[1..];
      if u == t {
        assert u !in keys[1..] by {
          forall j | 0 <= j < |keys[1..]| ensures keys[1..][j] != t {
            assert keys[1..][j] == keys[j + 1];
          }
        }
        if u in s.positions {
          CheckPositionRule(s, t, input, gainThreshold, dropThreshold);
        }
      } else {
        CheckPositionOthers(s, t, input, gainThreshold, dropThreshold, u);
      }
    }
  }

  /** A poll with the market closed changes nothing. */
  lemma ClosedMarketPollChangesNothing(s: BotState, input: PollInput, gainThreshold: real, dropThreshold: real)
    requires PositionsValid(s.positions) && !input.marketOpen
    ensures Poll(s, input, gainThreshold, dropThreshold) == s
  {
  }

  /** In an open-market poll of a consistent state, each position is sold iff
      the sell rule holds and its order fills, and otherwise its peak becomes
      the larger of the old peak and the quote. */
  lemma PollSellsExactly(s: BotState, budget0: real, input: PollInput, gainThreshold: real, dropThreshold: real, u: Ticker)
    requires Consistent(s, budget0) && input.marketOpen && u in s.positions
    ensures var r := Poll(s, input, gainThreshold, dropThreshold);
            var pos := s.positions[u];
            var cur := Quote(input.quotes, u);
            && (u !in r.positions <==> ShouldSell(pos, cur, gainThreshold, dropThreshold) && u in input.filled)
            && (u in r.positions ==> r.positions[u] == pos.(highestPrice := Max(pos.highestPrice, cur)))
  {
    CheckPositionsPerPosition(s, s.order, input, gainThreshold, dropThreshold, u);
  }

  /** A poll opens no position and only raises peaks of the ones it keeps. */
  lemma {:induction false} CheckPositionsKeepPositions(s: BotState, keys: seq<Ticker>, input: PollInput, gainThreshold: real, dropThreshold: real)
    requires PositionsValid(s.positions)
    ensures var r := CheckPositions(s, keys, input, gainThreshold, dropThreshold);
            forall u :: u in r.positions ==>
              && u in s.positions
              && r.positions[u].quantity == s.positions[u].quantity
              && r.positions[u].buyPrice == s.positions[u].buyPrice
              && r.positions[u].highestPrice >= s.positions[u].highestPrice
    decreases |keys|
  {
    if keys != [] {
      var s1 := CheckPosition(s, keys[0], input, gainThreshold, dropThreshold);
      CheckPositionsKeepPositions(s1, keys[1..], input, gainThreshold, dropThreshold);
      if keys[0] in s.positions {
        CheckPositionRule(s, keys[0], input, gainThreshold, dropThreshold);
      }
    }
  }

  /** Over any run of polls, a position still held at the end was held at the
      start, with the same shares and buy price and a peak no lower. */
  lemma {:induction false} PeaksNeverFall(s: BotState, polls: seq<PollInput>, gainThreshold: real, dropThreshold: real)
    requires PositionsValid(s.positions)
    ensures var r := MonitorPrices(s, polls, gainThreshold, dropThreshold);
            forall u :: u in r.positions ==>
              && u in s.positions
              && r.positions[u].quantity == s.positions[u].quantity
              && r.positions[u].buyPrice == s.positions[u].buyPrice
              && r.positions[u].highestPrice >= s.positions[u].highestPrice
    decreases |polls|
  {
    if polls != [] && |s.positions| != 0 && polls[0].running {
      var s1 := Poll(s, polls[0], gainThreshold, dropThreshold);
      if polls[0].marketOpen {
        CheckPositionsKeepPositions(s, s.order, polls[0], gainThreshold, dropThreshold);
      }
      PeaksNeverFall(s1, polls[1..], gainThreshold, dropThreshold);
    }
  }

  /** Raising the peak, then possibly selling, keeps the engine's invariant. */
  lemma CheckPositionConsistent(s: BotState, budget0: real, t: Ticker, input: PollInput, gainThreshold: real, dropThreshold: real)
    requires Consistent(s, budget0)
    ensures Consistent(CheckPosition(s, t, input, gainThreshold, dropThreshold), budget0)
  {
    if t in s.positions {
      var pos := s.positions[t];
      var cur := Quote(input.quotes, t);
      var raised := if cur > pos.highestPrice then s.(positions := s.positions[t := pos.(highestPrice := cur)]) else s;
      if cur > pos.highestPrice {
        RaisePeakConsistent(s, budget0, t, cur);
      }
      SellStepConsistent(raised, budget0, t, Quote(input.sellQuotes, t), t in input.filled);
    }
  }

  lemma {:induction false} CheckPositionsConsistent(s: BotState, budget0: real, keys: seq<Ticker>, input: PollInput, gainThreshold: real, dropThreshold: real)
    requires Consistent(s, budget0)
    ensures Consistent(CheckPositions(s, keys, input, gainThreshold, dropThreshold), budget0)
    decreases |keys|
  {
    if keys != [] {
      CheckPositionConsistent(s, budget0, keys[0], input, gainThreshold, dropThreshold);
      CheckPositionsConsistent(CheckPosition(s, keys[0], input, gainThreshold, dropThreshold), budget0, keys[1..], input, gainThreshold, dropThreshold);
    }
  }

  /** Monitoring keeps the engine's invariant. */
  lemma {:induction false} MonitorPricesConsistent(s: BotState, budget0: real, polls: seq<PollInput>, gainThreshold: real, dropThreshold: real)
    requires Consistent(s, budget0)
    ensures Consistent(MonitorPrices(s, polls, gainThreshold, dropThreshold), budget0)
    decreases |polls|
  {
    if polls != [] && |s.positions| != 0 && polls[0].running {
      if polls[0].marketOpen {
        CheckPositionsConsistent(s, budget0, s.order, polls[0], gainThreshold, dropThreshold);
      }
      MonitorPricesConsistent(Poll(s, polls[0], gainThreshold, dropThreshold), budget0, polls[1..], gainThreshold, dropThreshold);
    }
  }

  /** The trailing-stop example: bought at $100 with a peak of $140, a 20%
      gain threshold and a 10% drop threshold: at $130 (30% up, 7.1% below
      the peak) the position is kept, at $125 (25% up, 10.7% below) it is
      sold, and at $115 (15% up, 17.9% below) it is kept for want of gain. */
  lemma TrailingStopExample(q: int)
    ensures !ShouldSell(Position(q, 100.0, 140.0), 130.0, 20.0, 10.0)
    ensures ShouldSell(Position(q, 100.0, 140.0), 125.0, 20.0, 10.0)
    ensures !ShouldSell(Position(q, 100.0, 140.0), 115.0, 20.0, 10.0)
  {
  }
}
