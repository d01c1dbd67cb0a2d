/**
 * The per-cycle decision rules of `HFTArbitrageBot.run`: the fee-adjusted
 * profit of the two directions, Strategy A (buy on Binance, sell on Kraken)
 * tried before Strategy B (buy on Kraken, sell on Binance), the estimated
 * profit of an alert and the best raw spread shown when there is none.
 */
module Strategy {
  import opened Wrappers

  datatype Venue = Binance | Kraken

  /** A direction qualifies only when its net profit is strictly above this percentage. */
  const MinProfitPct: real := 0.05

  /** Python truthiness of a quote: `None` and `0.0` are false. */
  predicate Truthy(q: Option<real>) {
    q.Some? && q.value != 0.0
  }

  /** Net profit, in percent, of buying at `buy` and selling at `sell` with `fee` paid on each side. */
  function ProfitPct(buy: real, sell: real, fee: real): (r: real)
    requires buy * (1.0 + fee) != 0.0
    ensures r * (buy * (1.0 + fee)) == (sell * (1.0 - fee) - buy * (1.0 + fee)) * 100.0
  {
    var netSell, netBuy := sell * (1.0 - fee), buy * (1.0 + fee);
    PercentOf(netSell - netBuy, netBuy);
    (netSell - netBuy) / netBuy * 100.0
  }

  /** The fee-free spread, in percent, of buying at `buy` and selling at `sell`. */
  function RawSpread(buy: real, sell: real): (r: real)
    requires buy != 0.0
    ensures r * buy == (sell - buy) * 100.0
  {
    PercentOf(sell - buy, buy);
    (sell - buy) / buy * 100.0
  }

  /** A percentage of `d` relative to `base`, multiplied back by `base`, gives `d * 100`. */
  lemma PercentOf(d: real, base: real)
    requires base != 0.0
    ensures d / base * 100.0 * base == d * 100.0
  {
  }

  /** Both quotes of a direction are present and its net profit clears the threshold. */
  predicate Qualifies(buy: Option<real>, sell: Option<real>, fee: real)
    requires 1.0 + fee != 0.0
  {
    Truthy(buy) && Truthy(sell) && ProfitPct(buy.value, sell.value, fee) > MinProfitPct
  }

  datatype Opportunity = Opportunity(buyVenue: Venue, sellVenue: Venue, buyPrice: real, sellPrice: real, profitPct: real)

  /** One direction's check: an opportunity when both quotes are truthy and the profit is above the threshold. */
  function CheckDirection(buyVenue: Venue, sellVenue: Venue, buy: Option<real>, sell: Option<real>, fee: real): (r: Option<Opportunity>)
    requires 1.0 + fee != 0.0
    ensures r.Some? <==> Qualifies(buy, sell, fee)
    ensures r.Some? ==>
      r.value.buyVenue == buyVenue && r.value.sellVenue == sellVenue &&
      r.value.buyPrice == buy.value && r.value.sellPrice == sell.value &&
      r.value.profitPct == ProfitPct(buy.value, sell.value, fee) > MinProfitPct
  {
    if Truthy(buy) && Truthy(sell) then
      var pct := ProfitPct(buy.value, sell.value, fee);
      if pct > MinProfitPct then Some(Opportunity(buyVenue, sellVenue, buy.value, sell.value, pct)) else None
    else None
  }

  /**
   * Strategy A is checked first; Strategy B only when A produced nothing, so
   * A is reported whenever it qualifies, even when B would pay more.
   */
  function ChooseOpportunity(buyBin: Option<real>, sellKrk: Option<real>, buyKrk: Option<real>, sellBin: Option<real>, fee: real): (r: Option<Opportunity>)
    requires 1.0 + fee != 0.0
    ensures r.Some? ==> r.value.profitPct > MinProfitPct && r.value.buyVenue != r.value.sellVenue
  {
    var a := CheckDirection(Binance, Kraken, buyBin, sellKrk, fee);
    if a.Some? then a else CheckDirection(Kraken, Binance, buyKrk, sellBin, fee)
  }

  /**
   * Strategy A is reported whenever it qualifies, Strategy B only when A does
   * not, and nothing exactly when neither qualifies.
   */
  lemma ChooseOpportunityPrecedence(buyBin: Option<real>, sellKrk: Option<real>, buyKrk: Option<real>, sellBin: Option<real>, fee: real)
    requires 1.0 + fee != 0.0
    ensures var r := ChooseOpportunity(buyBin, sellKrk, buyKrk, sellBin, fee);
      (Qualifies(buyBin, sellKrk, fee) ==>
        r == Some(Opportunity(Binance, Kraken, buyBin.value, sellKrk.value, ProfitPct(buyBin.value, sellKrk.value, fee)))) &&
      (!Qualifies(buyBin, sellKrk, fee) && Qualifies(buyKrk, sellBin, fee) ==>
        r == Some(Opportunity(Kraken, Binance, buyKrk.value, sellBin.value, ProfitPct(buyKrk.value, sellBin.value, fee)))) &&
      (r.None? <==> !Qualifies(buyBin, sellKrk, fee) && !Qualifies(buyKrk, sellBin, fee))
  {
  }

  /** The absolute profit shown with an alert: `investment * (pct / 100)`. */
  function EstimatedProfit(investment: real, pct: real): (r: real)
    ensures r * 100.0 == investment * pct
    ensures investment > 0.0 && pct > 0.0 ==> r > 0.0
  {
    investment * (pct / 100.0)
  }

  /** The spread of one direction shown on the status line, or -99 when a quote is missing. */
  function DirectionSpread(buy: Option<real>, sell: Option<real>): (r: real)
    ensures !(Truthy(buy) && Truthy(sell)) ==> r == -99.0
    ensures Truthy(buy) && Truthy(sell) ==> r * buy.value == (sell.value - buy.value) * 100.0
  {
    if Truthy(buy) && Truthy(sell) then RawSpread(buy.value, sell.value) else -99.0
  }

  /** The best of the two directions' spreads, even when negative. */
  function BestSpread(buyBin: Option<real>, sellKrk: Option<real>, buyKrk: Option<real>, sellBin: Option<real>): (r: real)
    ensures r >= DirectionSpread(buyBin, sellKrk) && r >= DirectionSpread(buyKrk, sellBin)
    ensures r == DirectionSpread(buyBin, sellKrk) || r == DirectionSpread(buyKrk, sellBin)
  {
    var a, b := DirectionSpread(buyBin, sellKrk), DirectionSpread(buyKrk, sellBin);
    if b > a then b else a
  }

  /** Without fees the net profit is the raw spread. */
  lemma ZeroFeeProfitIsRawSpread(buy: real, sell: real)
    requires buy != 0.0
    ensures ProfitPct(buy, sell, 0.0) == RawSpread(buy, sell)
  {
  }

  /** Non-negative fees never make a direction look better than its raw spread. */
  lemma FeesNeverHelp(buy: real, sell: real, fee: real)
    requires buy > 0.0 && sell >= 0.0 && 0.0 <= fee <= 1.0
    ensures ProfitPct(buy, sell, fee) <= RawSpread(buy, sell)
  {
    var netSell, netBuy := sell * (1.0 - fee), buy * (1.0 + fee);
    assert netSell <= sell;
    assert netBuy >= buy;
    assert netSell >= 0.0;
    SubDiv(netSell, netBuy);
    SubDiv(sell, buy);
    DivMonotone(netSell, sell, netBuy, buy);
  }

  /** Dividing a difference by its subtrahend: `(a - b) / b == a / b - 1`. */
  lemma SubDiv(a: real, b: real)
    requires b != 0.0
    ensures (a - b) / b == a / b - 1.0
  {
    var q, p := (a - b) / b, a / b;
    assert q * b == a - b;
    assert p * b == a;
    assert (q - p + 1.0) * b == 0.0;
    ZeroProduct(q - p + 1.0, b);
  }

  /** A product with a non-zero factor vanishes only when the other factor does. */
  lemma ZeroProduct(x: real, b: real)
    requires b != 0.0 && x * b == 0.0
    ensures x == 0.0
  {
    assert x * b / b == x;
  }

  /** `x / y <= x' / y'` when `0 <= x <= x'` and `y >= y' > 0`. */
  lemma DivMonotone(x: real, x': real, y: real, y': real)
    requires 0.0 <= x <= x' && y >= y' > 0.0
    ensures x / y <= x' / y'
  {
    assert x / y <= x / y' by {
      assert x / y * y == x == x / y' * y';
      assert x / y * y <= x / y * y + x / y * (y - y') by {
        assert x / y >= 0.0 && y - y' >= 0.0;
      }
    }
    assert x / y' <= x' / y';
  }

  /**
   * The threshold test without division: net profit above `t` percent exactly
   * when the net sale beats the net purchase marked up by `t` percent.
   */
  lemma ProfitAboveIff(buy: real, sell: real, fee: real, t: real)
    requires buy > 0.0 && fee > -1.0
    ensures ProfitPct(buy, sell, fee) > t <==> sell * (1.0 - fee) * 100.0 > buy * (1.0 + fee) * (100.0 + t)
  {
    var netSell, netBuy := sell * (1.0 - fee), buy * (1.0 + fee);
    assert netBuy > 0.0;
    assert ProfitPct(buy, sell, fee) == (netSell - netBuy) / netBuy * 100.0;
    assert ProfitPct(buy, sell, fee) * netBuy == (netSell - netBuy) * 100.0;
  }

  /** An alert's estimated profit is the investment times the net fractional gain of its direction. */
  lemma EstimatedProfitIsNetGain(investment: real, buy: real, sell: real, fee: real)
    requires buy * (1.0 + fee) != 0.0
    ensures EstimatedProfit(investment, ProfitPct(buy, sell, fee)) ==
      investment * ((sell * (1.0 - fee) - buy * (1.0 + fee)) / (buy * (1.0 + fee)))
  {
  }

  /**
   * Without fees, the status line's best spread is above the threshold
   * exactly when some direction would have raised an alert.
   */
  lemma ZeroFeeAlertIffBestSpread(buyBin: Option<real>, sellKrk: Option<real>, buyKrk: Option<real>, sellBin: Option<real>)
    ensures ChooseOpportunity(buyBin, sellKrk, buyKrk, sellBin, 0.0).Some? <==>
      BestSpread(buyBin, sellKrk, buyKrk, sellBin) > MinProfitPct
  {
    if Truthy(buyBin) && Truthy(sellKrk) {
      ZeroFeeProfitIsRawSpread(buyBin.value, sellKrk.value);
    }
    if Truthy(buyKrk) && Truthy(sellBin) {
      ZeroFeeProfitIsRawSpread(buyKrk.value, sellBin.value);
    }
  }

  /** Both directions qualify and B pays more, yet A is the one reported. */
  lemma FirstDirectionWins()
    ensures ChooseOpportunity(Some(100.0), Some(101.0), Some(100.0), Some(110.0), 0.0) ==
      Some(Opportunity(Binance, Kraken, 100.0, 101.0, 1.0))
    ensures ProfitPct(100.0, 110.0, 0.0) > ProfitPct(100.0, 101.0, 0.0) > MinProfitPct
  {
  }

  /** Buying at 100 and selling at 101 with a 0.1% fee on each side nets (100.899 - 100.1) / 100.1, about 0.798%. */
  lemma FeeExample()
    ensures ProfitPct(100.0, 101.0, 0.001) == (100.899 - 100.1) / 100.1 * 100.0
    ensures 0.79 < ProfitPct(100.0, 101.0, 0.001) < 0.80
  {
  }
}
