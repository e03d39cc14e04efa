/** The signal filter: which tickers' insider purchases are significant
    enough to buy. */
module SignalFilter {
  import opened Broker
  import opened Sequences

  /** One row of the insider-trading table, as the scraper extracts it. */
  datatype InsiderTransaction = InsiderTransaction(
    companyName: string,
    insiderName: string,
    title: string,
    tradeType: string,
    price: real,
    qty: int,
    ownChange: real,   // the change in the insider's ownership, in percent
    totalValue: real)

  /** The scraper's dict from ticker to its transactions, in the dict's
      iteration (insertion) order. */
  type InsiderData = seq<(Ticker, seq<InsiderTransaction>)>

  /** The tickers of `data`, in order. */
  function Keys(data: InsiderData): (ks: seq<Ticker>)
    ensures |ks| == |data|
    ensures forall i :: 0 <= i < |data| ==> ks[i] == data[i].0
  {
    if data == [] then [] else [data[0].0] + Keys(data[1..])
  }

  /** The summed dollar value of a ticker's transactions. */
  function TotalValue(txs: seq<InsiderTransaction>): (v: real)
  {
    if txs == [] then 0.0 else txs[0].totalValue + TotalValue(txs[1..])
  }

  /** The summed ownership change of a ticker's transactions. */
  function OwnChangeSum(txs: seq<InsiderTransaction>): (c: real)
  {
    if txs == [] then 0.0 else txs[0].ownChange + OwnChangeSum(txs[1..])
  }

  /** The distinct insiders who traded. */
  function InsiderNames(txs: seq<InsiderTransaction>): (names: set<string>)
  {
    set i | 0 <= i < |txs| :: txs[i].insiderName
  }

  /** The mean ownership change of a non-empty group. */
  function AverageOwnChange(txs: seq<InsiderTransaction>): (a: real)
    requires txs != []
  {
    OwnChangeSum(txs) / |txs| as real
  }

  /** The three thresholds of the filter, all of which a ticker must reach. */
  predicate Significant(txs: seq<InsiderTransaction>, minValue: real, minInsiders: int, minOwnChange: real)
  {
    && txs != []
    && TotalValue(txs) >= minValue
    && |InsiderNames(txs)| >= minInsiders
    && AverageOwnChange(txs) >= minOwnChange
  }

  /** The reference definition of the filter's result: the significant
      tickers, in the order of `data`. */
  function SignificantTickers(data: InsiderData, minValue: real, minInsiders: int, minOwnChange: real): (ts: seq<Ticker>)
  {
    if data == [] then []
    else (if Significant(data[0].1, minValue, minInsiders, minOwnChange) then [data[0].0] else [])
         + SignificantTickers(data[1..], minValue, minInsiders, minOwnChange)
  }

  /** The loop of `filter_significant_transactions`. An empty group is passed
      over: the source would divide by its length, zero. */
  method FilterSignificantTransactions(data: InsiderData, minValue: real, minInsiders: int, minOwnChange: real)
    returns (significantStocks: seq<Ticker>)
    ensures significantStocks == SignificantTickers(data, minValue, minInsiders, minOwnChange)
  {
    significantStocks := [];
    var i := 0;
    while i < |data|
      invariant 0 <= i <= |data|
      invariant significantStocks + SignificantTickers(data[i..], minValue, minInsiders, minOwnChange)
                == SignificantTickers(data, minValue, minInsiders, minOwnChange)
    {
      var (ticker, transactions) := data[i];
      SignificantTickersUnfold(data, i, minValue, minInsiders, minOwnChange);
      ghost var rest := SignificantTickers(data[i + 1..], minValue, minInsiders, minOwnChange);
      if transactions != [] {
        var totalValue := TotalValue(transactions);
        var uniqueInsiders := |InsiderNames(transactions)|;
        var avgOwnChange := OwnChangeSum(transactions) / |transactions| as real;
        assert avgOwnChange == AverageOwnChange(transactions);
        if totalValue >= minValue && uniqueInsiders >= minInsiders && avgOwnChange >= minOwnChange {
          assert Significant(transactions, minValue, minInsiders, minOwnChange);
          assert significantStocks + [ticker] + rest == significantStocks + ([ticker] + rest);
          significantStocks := significantStocks + [ticker];
        }
      }
      i := i + 1;
    }
  }

  /** Helper: the filter's result from position `i` on, one step unfolded. */
  lemma SignificantTickersUnfold(data: InsiderData, i: int, minValue: real, minInsiders: int, minOwnChange: real)
    requires 0 <= i < |data|
    ensures SignificantTickers(data[i..], minValue, minInsiders, minOwnChange)
            == (if Significant(data[i].1, minValue, minInsiders, minOwnChange) then [data[i].0] else [])
               + SignificantTickers(data[i + 1..], minValue, minInsiders, minOwnChange)
  {
    assert data[i..][1..] == data[i + 1..];
  }

  /** A ticker is reported iff one of its groups reaches all three thresholds. */
  lemma {:induction false} SignificantTickersMembers(data: InsiderData, minValue: real, minInsiders: int, minOwnChange: real, t: Ticker)
    ensures t in SignificantTickers(data, minValue, minInsiders, minOwnChange)
            <==> exists i :: 0 <= i < |data| && data[i].0 == t && Significant(data[i].1, minValue, minInsiders, minOwnChange)
  {
    if data != [] {
      SignificantTickersMembers(data[1..], minValue, minInsiders, minOwnChange, t);
      if exists i :: 0 <= i < |data| && data[i].0 == t && Significant(data[i].1, minValue, minInsiders, minOwnChange) {
        var i :| 0 <= i < |data| && data[i].0 == t && Significant(data[i].1, minValue, minInsiders, minOwnChange);
        if i > 0 {
          assert data[1..][i - 1] == data[i];
        }
      }
      if exists i :: 0 <= i < |data[1..]| && data[1..][i].0 == t && Significant(data[1..][i].1, minValue, minInsiders, minOwnChange) {
        var i :| 0 <= i < |data[1..]| && data[1..][i].0 == t && Significant(data[1..][i].1, minValue, minInsiders, minOwnChange);
        assert data[i + 1] == data[1..][i];
      }
    }
  }

  /** The result lists tickers in the iteration order of the input. */
  lemma {:induction false} SignificantTickersInOrder(data: InsiderData, minValue: real, minInsiders: int, minOwnChange: real)
    ensures IsSubsequence(SignificantTickers(data, minValue, minInsiders, minOwnChange), Keys(data))
  {
    if data != [] {
      SignificantTickersInOrder(data[1..], minValue, minInsiders, minOwnChange);
      assert Keys(data)[1..] == Keys(data[1..]);
      var rest := SignificantTickers(data[1..], minValue, minInsiders, minOwnChange);
      if Significant(data[0].1, minValue, minInsiders, minOwnChange) {
        assert ([data[0].0] + rest)[1..] == rest;
      } else {
        assert SignificantTickers(data, minValue, minInsiders, minOwnChange) == rest;
        SubsequenceOfTail(rest, Keys(data));
      }
    }
  }

  /** The input dict has each ticker once, so the result does too. */
  lemma SignificantTickersDistinct(data: InsiderData, minValue: real, minInsiders: int, minOwnChange: real)
    requires Distinct(Keys(data))
    ensures Distinct(SignificantTickers(data, minValue, minInsiders, minOwnChange))
  {
    SignificantTickersInOrder(data, minValue, minInsiders, minOwnChange);
    SubsequenceDistinct(SignificantTickers(data, minValue, minInsiders, minOwnChange), Keys(data));
  }

  /** A ticker without transactions is never reported. */
  lemma EmptyGroupNeverSignificant(data: InsiderData, minValue: real, minInsiders: int, minOwnChange: real, i: int)
    requires 0 <= i < |data| && data[i].1 == [] && Distinct(Keys(data))
    ensures data[i].0 !in SignificantTickers(data, minValue, minInsiders, minOwnChange)
  {
    SignificantTickersMembers(data, minValue, minInsiders, minOwnChange, data[i].0);
  }

  /** Raising any threshold can only remove tickers from the result, never
      add or reorder them. */
  lemma {:induction false} StricterThresholdsSelectFewer(data: InsiderData,
      minValue: real, minInsiders: int, minOwnChange: real,
      minValue': real, minInsiders': int, minOwnChange': real)
    requires minValue <= minValue' && minInsiders <= minInsiders' && minOwnChange <= minOwnChange'
    ensures IsSubsequence(SignificantTickers(data, minValue', minInsiders', minOwnChange'),
                          SignificantTickers(data, minValue, minInsiders, minOwnChange))
  {
    if data != [] {
      StricterThresholdsSelectFewer(data[1..], minValue, minInsiders, minOwnChange, minValue', minInsiders', minOwnChange');
      var strict := SignificantTickers(data[1..], minValue', minInsiders', minOwnChange');
      var loose := SignificantTickers(data[1..], minValue, minInsiders, minOwnChange);
      if Significant(data[0].1, minValue, minInsiders, minOwnChange) {
        var whole := [data[0].0] + loose;
        assert whole[1..] == loose;
        if Significant(data[0].1, minValue', minInsiders', minOwnChange') {
          assert ([data[0].0] + strict)[1..] == strict;
        } else {
          assert SignificantTickers(data, minValue', minInsiders', minOwnChange') == strict;
          SubsequenceOfTail(strict, whole);
        }
      } else {
        assert SignificantTickers(data, minValue', minInsiders', minOwnChange') == strict;
        assert SignificantTickers(data, minValue, minInsiders, minOwnChange) == loose;
      }
    }
  }
}
