/**
 * The last-price arbitrage scanner of the quant engine: each pass fetches
 * the last traded price on Binance and Kraken, computes the spread between
 * the dearer and the cheaper one as a percentage of the cheaper, and
 * reports an opportunity (buy where it is cheaper, sell where it is dearer)
 * when that spread is strictly above 0.5%.
 */
module QuantEngine {
  import opened Wrappers
  import opened Strategy

  /** A spread strictly above this percentage is an opportunity. */
  const ArbitrageThresholdPercent: real := 0.5

  /** What a ticker request gives: the `last` entry of the ticker, which may be missing. */
  datatype Ticker = Ticker(last: Option<real>)

  /** A request to an exchange either answers or raises (network, exchange or any other error). */
  datatype Fetch = Answered(ticker: Ticker) | Raised

  /**
   * `fetch_prices`: both last prices, or `(None, None)` when either request
   * raises or either ticker has no last price.
   */
  function FetchPrices(binance: Fetch, kraken: Fetch): (r: (Option<real>, Option<real>))
    ensures r.0.Some? <==> r.1.Some?
    ensures r.0.Some? <==>
      binance.Answered? && kraken.Answered? && binance.ticker.last.Some? && kraken.ticker.last.Some?
    ensures r.0.Some? ==> r.0 == binance.ticker.last && r.1 == kraken.ticker.last
  {
    if binance.Raised? || kraken.Raised? then (None, None)
    else if binance.ticker.last.None? || kraken.ticker.last.None? then (None, None)
    else (binance.ticker.last, kraken.ticker.last)
  }

  /** Python's `max` of two prices: the larger one. */
  function Max(a: real, b: real): (r: real)
    ensures r >= a && r >= b && (r == a || r == b)
  {
    if a >= b then a else b
  }

  /** Python's `min` of two prices: the smaller one. */
  function Min(a: real, b: real): (r: real)
    ensures r <= a && r <= b && (r == a || r == b)
  {
    if a <= b then a else b
  }

  /** The spread of two prices as a percentage of the lower one. */
  function SpreadPercentage(binancePrice: real, krakenPrice: real): (r: real)
    requires Min(binancePrice, krakenPrice) != 0.0
    ensures binancePrice > 0.0 && krakenPrice > 0.0 ==> r >= 0.0
    ensures binancePrice == krakenPrice ==> r == 0.0
  {
    var higher := Max(binancePrice, krakenPrice);
    var lower := Min(binancePrice, krakenPrice);
    (higher - lower) / lower * 100.0
  }

  /** What one pass prints about a pair of prices. */
  datatype Report =
    | Quiet(spread: real)
    | Arbitrage(spread: real, buyVenue: Venue, sellVenue: Venue, buyPrice: real, sellPrice: real)

  /** The price a venue quoted. */
  function PriceAt(v: Venue, binancePrice: real, krakenPrice: real): real {
    if v == Binance then binancePrice else krakenPrice
  }

  /**
   * One pass on the fetched prices: nothing unless both are truthy, else the
   * spread, flagged as an opportunity when it is strictly above the threshold.
   */
  function CheckPrices(binancePrice: Option<real>, krakenPrice: Option<real>): (r: Option<Report>)
    ensures r.Some? <==> Truthy(binancePrice) && Truthy(krakenPrice)
    ensures r.Some? ==> r.value.spread == SpreadPercentage(binancePrice.value, krakenPrice.value)
    ensures r.Some? ==> (r.value.Arbitrage? <==> r.value.spread > ArbitrageThresholdPercent)
    ensures r.Some? && r.value.Arbitrage? ==>
      var b, k := binancePrice.value, krakenPrice.value;
      r.value.buyVenue != r.value.sellVenue &&
      r.value.buyPrice == Min(b, k) == PriceAt(r.value.buyVenue, b, k) &&
      r.value.sellPrice == Max(b, k) == PriceAt(r.value.sellVenue, b, k)
  {
    if Truthy(binancePrice) && Truthy(krakenPrice) then
      var b, k := binancePrice.value, krakenPrice.value;
      var higher, lower := Max(b, k), Min(b, k);
      var spread := SpreadPercentage(b, k);
      if spread > ArbitrageThresholdPercent then
        var buy := if b < k then Binance else Kraken;
        var sell := if b < k then Kraken else Binance;
        Some(Arbitrage(spread, buy, sell, lower, higher))
      else Some(Quiet(spread))
    else None
  }

  /** A whole pass: fetch both tickers, then check the prices. */
  function Pass(binance: Fetch, kraken: Fetch): (r: Option<Report>)
    ensures r.Some? ==>
      binance.Answered? && kraken.Answered? &&
      Truthy(binance.ticker.last) && Truthy(kraken.ticker.last)
  {
    var (b, k) := FetchPrices(binance, kraken);
    CheckPrices(b, k)
  }

  /** Swapping the two venues' prices leaves the spread unchanged. */
  lemma SpreadSymmetric(binancePrice: real, krakenPrice: real)
    requires Min(binancePrice, krakenPrice) != 0.0
    ensures SpreadPercentage(binancePrice, krakenPrice) == SpreadPercentage(krakenPrice, binancePrice)
  {
    assert Max(binancePrice, krakenPrice) == Max(krakenPrice, binancePrice);
    assert Min(binancePrice, krakenPrice) == Min(krakenPrice, binancePrice);
  }

  /**
   * The threshold test without division: for positive prices the spread is
   * above `t` percent exactly when the higher price exceeds the lower one
   * marked up by `t` percent.
   */
  lemma SpreadAboveIff(binancePrice: real, krakenPrice: real, t: real)
    requires binancePrice > 0.0 && krakenPrice > 0.0
    ensures SpreadPercentage(binancePrice, krakenPrice) > t <==>
      Max(binancePrice, krakenPrice) * 100.0 > Min(binancePrice, krakenPrice) * (100.0 + t)
  {
    var higher, lower := Max(binancePrice, krakenPrice), Min(binancePrice, krakenPrice);
    var s := SpreadPercentage(binancePrice, krakenPrice);
    assert s * lower == (higher - lower) * 100.0;
    if s > t {
      assert s * lower > t * lower;
    } else {
      assert s * lower <= t * lower;
    }
  }

  /** With positive prices an opportunity always buys strictly below the price it sells at. */
  lemma ArbitrageBuysLow(binancePrice: real, krakenPrice: real)
    requires binancePrice > 0.0 && krakenPrice > 0.0
    ensures var r := CheckPrices(Some(binancePrice), Some(krakenPrice));
      r.Some? && r.value.Arbitrage? ==> r.value.buyPrice < r.value.sellPrice
  {
    var r := CheckPrices(Some(binancePrice), Some(krakenPrice));
    if r.Some? && r.value.Arbitrage? {
      SpreadAboveIff(binancePrice, krakenPrice, ArbitrageThresholdPercent);
    }
  }

  /** A ticker without a last price, or any request that raises, leaves the pass silent. */
  lemma MissingPriceSilencesPass(binance: Fetch, kraken: Fetch)
    requires binance.Raised? || kraken.Raised? ||
      binance.ticker.last.None? || kraken.ticker.last.None?
    ensures Pass(binance, kraken).None?
  {
  }

  /** 100 on Binance against 100.5 on Kraken is exactly at the threshold and not reported; 100.6 is. */
  lemma ThresholdExample()
    ensures CheckPrices(Some(100.0), Some(100.5)) == Some(Quiet(0.5))
    ensures CheckPrices(Some(100.6), Some(100.0)) == Some(Arbitrage(0.6, Kraken, Binance, 100.0, 100.6))
  {
  }
}
