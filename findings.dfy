/** Three defects of the trading engine as written, each beside the
    corrected behaviour that the rest of the model uses. */
module Findings {
  import opened Broker
  import opened Sequences
  import opened Ledger
  import opened Monitor

  // ---------------------------------------------------------------------
  // 1. A sale credits one quote and records another.
  // ---------------------------------------------------------------------

  /** `sell_stock` as written: the budget is credited at the quote of one
      price fetch and the trade is recorded at the quote of a second one. */
  function SellStepTwoQuotes(s: BotState, t: Ticker, creditPrice: real, recordPrice: real, filled: bool): (r: BotState)
  {
    if t !in s.positions || !filled then s
    else
      var q := s.positions[t].quantity;
      BotState(
        s.budget + q as real * creditPrice,
        s.positions - {t},
        Remove(s.order, t),
        s.history + [TradeRecord(Sell, t, q, recordPrice)])
  }

  /** When the two fetches return the same price, the sale is the corrected one. */
  lemma TwoQuotesAgreeingIsSellStep(s: BotState, t: Ticker, price: real, filled: bool)
    ensures SellStepTwoQuotes(s, t, price, price, filled) == SellStep(s, t, price, filled)
  {
  }

  /** When the price moves between the two fetches, the budget no longer
      equals the starting cash plus the recorded trades' cash flow. */
  lemma TwoQuoteSaleBreaksLedger(s: BotState, budget0: real, t: Ticker, creditPrice: real, recordPrice: real)
    requires Consistent(s, budget0) && t in s.positions && creditPrice != recordPrice
    ensures !Consistent(SellStepTwoQuotes(s, t, creditPrice, recordPrice, true), budget0)
  {
    TwoQuoteBudgetGap(s, budget0, t, creditPrice, recordPrice);
  }

  /** Helper: the cash part of `TwoQuoteSaleBreaksLedger`, with only the
      facts about the sold position and the budget in view. */
  lemma TwoQuoteBudgetGap(s: BotState, budget0: real, t: Ticker, creditPrice: real, recordPrice: real)
    requires s.budget == budget0 + CashFlow(s.history)
    requires t in s.positions && s.positions[t].quantity > 0 && creditPrice != recordPrice
    ensures var r := SellStepTwoQuotes(s, t, creditPrice, recordPrice, true);
            r.budget != budget0 + CashFlow(r.history)
  {
    var q := s.positions[t].quantity;
    var r := SellStepTwoQuotes(s, t, creditPrice, recordPrice, true);
    var rec := TradeRecord(Sell, t, q, recordPrice);
    AppendRecord(s.history, rec, t);
    assert r.history == s.history + [rec];
    assert budget0 + CashFlow(r.history) == s.budget + q as real * recordPrice;
    assert r.budget == s.budget + q as real * creditPrice;
    if creditPrice < recordPrice {
      MulStrict(creditPrice, recordPrice, q as real);
    } else {
      MulStrict(recordPrice, creditPrice, q as real);
    }
  }

  // ---------------------------------------------------------------------
  // 2. A sale acquires the engine's lock twice.
  // ---------------------------------------------------------------------

  datatype LockOp = Acquire | Release

  /** How a thread's run of lock operations ends: with the lock held or
      not, blocked forever on a lock it already holds (the lock is not
      reentrant), or failing on the release of an unheld lock. */
  datatype LockOutcome = Finished(held: bool) | Deadlock | ReleaseUnlocked

  /** One thread's lock operations, from the lock state `held`. */
  function RunLock(held: bool, ops: seq<LockOp>): (outcome: LockOutcome)
    decreases |ops|
  {
    if ops == [] then Finished(held)
    else if ops[0] == Acquire then (if held then Deadlock else RunLock(true, ops[1..]))
    else if !held then ReleaseUnlocked
    else RunLock(false, ops[1..])
  }

  /** The lock operations of a purchase: the section that books the
      position, then the one inside the history append. */
  function BuyLockOps(): (ops: seq<LockOp>)
  {
    [Acquire, Release, Acquire, Release]
  }

  /** The lock operations of a sale as written: the history append, with its
      own section, is called inside the section that books the sale. */
  function SellLockOpsAsWritten(): (ops: seq<LockOp>)
  {
    [Acquire, Acquire, Release, Release]
  }

  /** The lock operations of a corrected sale: the section that books the
      sale, then the one inside the history append, after it. */
  function SellLockOps(): (ops: seq<LockOp>)
  {
    [Acquire, Release, Acquire, Release]
  }

  /** The lock operations of a run of trades. */
  function TradeLockOps(kinds: seq<TradeType>, asWritten: bool): (ops: seq<LockOp>)
  {
    if kinds == [] then []
    else (if kinds[0] == Buy then BuyLockOps() else if asWritten then SellLockOpsAsWritten() else SellLockOps())
         + TradeLockOps(kinds[1..], asWritten)
  }

  /** Running two stretches of operations one after the other. */
  lemma {:induction false} RunLockAppend(held: bool, a: seq<LockOp>, b: seq<LockOp>)
    ensures RunLock(held, a + b) == match RunLock(held, a)
                                    case Finished(h) => RunLock(h, b)
                                    case other => other
    decreases |a|
  {
    if a == [] {
      assert a + b == b;
    } else {
      assert (a + b)[1..] == a[1..] + b;
      if a[0] == Acquire {
        if !held {
          RunLockAppend(true, a[1..], b);
        }
      } else if held {
        RunLockAppend(false, a[1..], b);
      }
    }
  }

  /** As written, the first sale blocks the engine forever, whatever trades
      came before it. */
  lemma {:induction false} SaleAsWrittenDeadlocks(kinds: seq<TradeType>)
    requires Sell in kinds
    ensures RunLock(false, TradeLockOps(kinds, true)) == Deadlock
  {
    var head := if kinds[0] == Buy then BuyLockOps() else SellLockOpsAsWritten();
    RunLockAppend(false, head, TradeLockOps(kinds[1..], true));
    if kinds[0] == Buy {
      assert Sell in kinds[1..] by {
        var i :| 0 <= i < |kinds| && kinds[i] == Sell;
        assert kinds[1..][i - 1] == Sell;
      }
      SaleAsWrittenDeadlocks(kinds[1..]);
    }
  }

  /** Corrected, with the history append after the sale's own section,
      every run of trades finishes with the lock free. */
  lemma {:induction false} CorrectedTradesNeverDeadlock(kinds: seq<TradeType>)
    ensures RunLock(false, TradeLockOps(kinds, false)) == Finished(false)
  {
    if kinds != [] {
      var head := if kinds[0] == Buy then BuyLockOps() else SellLockOps();
      RunLockAppend(false, head, TradeLockOps(kinds[1..], false));
      CorrectedTradesNeverDeadlock(kinds[1..]);
    }
  }

  // ---------------------------------------------------------------------
  // 3. A sale deletes from the positions dict while the poll iterates it.
  // ---------------------------------------------------------------------

  /** How a poll as written ends: normally, or with the interpreter's error
      for a dict whose size changed during iteration, in the state reached. */
  datatype LivePoll = PollCompleted(state: BotState) | SizeChangedDuringIteration(state: BotState)

  /** The poll's loop iterating the live dict of size `size`: the next step
      of the iteration fails as soon as the dict's size has changed, also
      when no entries are left. */
  function LiveCheck(s: BotState, keys: seq<Ticker>, size: int, input: PollInput, gainThreshold: real, dropThreshold: real): (r: LivePoll)
    requires PositionsValid(s.positions)
    decreases |keys|
  {
    if keys == [] then PollCompleted(s)
    else
      var s1 := CheckPosition(s, keys[0], input, gainThreshold, dropThreshold);
      if |s1.positions| != size then SizeChangedDuringIteration(s1)
      else LiveCheck(s1, keys[1..], size, input, gainThreshold, dropThreshold)
  }

  /** One poll as written. */
  function PollAsWritten(s: BotState, input: PollInput, gainThreshold: real, dropThreshold: real): (r: LivePoll)
    requires PositionsValid(s.positions)
  {
    if !input.marketOpen then PollCompleted(s)
    else LiveCheck(s, s.order, |s.positions|, input, gainThreshold, dropThreshold)
  }

  /** A poll step never adds a position, and it removes one exactly when it
      sells. */
  lemma CheckPositionSize(s: BotState, t: Ticker, input: PollInput, gainThreshold: real, dropThreshold: real)
    requires PositionsValid(s.positions)
    ensures var r := CheckPosition(s, t, input, gainThreshold, dropThreshold);
            && r.positions.Keys <= s.positions.Keys
            && |r.positions| <= |s.positions|
            && (|r.positions| == |s.positions| <==> r.positions.Keys == s.positions.Keys)
  {
    var r := CheckPosition(s, t, input, gainThreshold, dropThreshold);
    if t in s.positions {
      CheckPositionRule(s, t, input, gainThreshold, dropThreshold);
      if t in r.positions {
        assert r.positions.Keys == s.positions.Keys;
      } else {
        assert r.positions.Keys == s.positions.Keys - {t};
      }
    }
  }

  lemma {:induction false} CheckPositionsSize(s: BotState, keys: seq<Ticker>, input: PollInput, gainThreshold: real, dropThreshold: real)
    requires PositionsValid(s.positions)
    ensures |CheckPositions(s, keys, input, gainThreshold, dropThreshold).positions| <= |s.positions|
    decreases |keys|
  {
    if keys != [] {
      CheckPositionSize(s, keys[0], input, gainThreshold, dropThreshold);
      CheckPositionsSize(CheckPosition(s, keys[0], input, gainThreshold, dropThreshold), keys[1..], input, gainThreshold, dropThreshold);
    }
  }

  lemma {:induction false} LiveCheckMatchesSnapshot(s: BotState, keys: seq<Ticker>, input: PollInput, gainThreshold: real, dropThreshold: real)
    requires PositionsValid(s.positions)
    ensures var snapshot := CheckPositions(s, keys, input, gainThreshold, dropThreshold);
            var live := LiveCheck(s, keys, |s.positions|, input, gainThreshold, dropThreshold);
            && (live.SizeChangedDuringIteration? <==> |snapshot.positions| < |s.positions|)
            && (live.PollCompleted? ==> live.state == snapshot)
    decreases |keys|
  {
    if keys != [] {
      var s1 := CheckPosition(s, keys[0], input, gainThreshold, dropThreshold);
      CheckPositionSize(s, keys[0], input, gainThreshold, dropThreshold);
      CheckPositionsSize(s1, keys[1..], input, gainThreshold, dropThreshold);
      if |s1.positions| == |s.positions| {
        LiveCheckMatchesSnapshot(s1, keys[1..], input, gainThreshold, dropThreshold);
      }
    }
  }

  /** As written, a poll completes exactly when it sells nothing, and then it
      agrees with the corrected poll over a snapshot of the positions; a poll
      that sells anything ends in the iteration error. */
  lemma PollAsWrittenFailsOnSale(s: BotState, input: PollInput, gainThreshold: real, dropThreshold: real)
    requires PositionsValid(s.positions)
    ensures var corrected := Poll(s, input, gainThreshold, dropThreshold);
            var asWritten := PollAsWritten(s, input, gainThreshold, dropThreshold);
            && (asWritten.SizeChangedDuringIteration? <==> |corrected.positions| < |s.positions|)
            && (asWritten.PollCompleted? ==> asWritten.state == corrected)
  {
    if input.marketOpen {
      LiveCheckMatchesSnapshot(s, s.order, input, gainThreshold, dropThreshold);
    }
  }
}
