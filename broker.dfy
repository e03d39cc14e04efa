/** The brokerage gateway, seen from the trading engine as data rather than
    calls: the answers it would give are passed in as arguments. */
module Broker {

  /** A stock symbol such as "AAPL". */
  type Ticker = string

  /** The last-minute closing prices the broker reports, per ticker. */
  type Quotes = map<Ticker, real>

  /** The price `get_current_price` returns: the reported price, or 0 when
      the broker has none for the ticker (the fetch failed). */
  function Quote(quotes: Quotes, t: Ticker): (p: real)
  {
    if t in quotes then quotes[t] else 0.0
  }
}
