/**
 * One pass of `HFTArbitrageBot.run` with the network, the clock and the
 * console taken away: the iteration counter, the skip gate, the demo
 * injection, the four depth-walk quotes, Strategy A then Strategy B, and the
 * status line shown when neither fires. The functions say what a pass
 * produces; the class `HFTArbitrageBot` performs it on books held in arrays.
 */
module LiveAlpha {
  import opened Wrappers
  import opened Books
  import opened DepthWalker
  import opened Strategy

  /** A simulating bot plants an anomaly on every iteration that is a multiple of this. */
  const InjectionPeriod: nat := 10
  /** The planted Kraken ask is this fraction of Binance's best bid. */
  const InjectionDiscount: real := 0.99
  /** The quantity of the planted Kraken ask. */
  const InjectedQty: real := 5.0

  /**
   * What a pass ends with: nothing (a book was missing), an alert, the status
   * line (the four best prices and the best raw spread), or an exception
   * (`KeyError`/`IndexError` from indexing a missing or empty side), which
   * ends `run`.
   */
  datatype Outcome =
    | Skipped
    | Alert(opp: Opportunity, estProfit: real)
    | Status(binanceAsk: real, binanceBid: real, krakenAsk: real, krakenBid: real, bestSpread: real)
    | Fault

  /** A fetched book that passes the skip gate: present and not an empty dictionary. */
  predicate Usable(b: Option<BookValue>)
    ensures Usable(b) <==> b.Some? && (Bids in b.value || Asks in b.value)
  {
    if b.Some? then KeyedBookHasSide(b.value); b.value != map[] else false
  }

  /** A dictionary with some key holds one of the two sides. */
  lemma KeyedBookHasSide(m: BookValue)
    ensures m != map[] <==> Bids in m || Asks in m
  {
    if Bids in m || Asks in m {
      assert m.Keys != {};
    } else {
      assert forall s :: s in m ==> s == Bids || s == Asks;
      assert m.Keys == {};
    }
  }

  /** The injection is due on a simulating bot's iterations that are whole multiples of the period. */
  predicate InjectionDue(simulate: bool, iteration: int)
    ensures InjectionDue(simulate, iteration) ==> simulate
  {
    simulate && iteration % InjectionPeriod == 0
  }

  /** The injection recurs every `InjectionPeriod` iterations, and never on the iterations in between. */
  lemma InjectionPeriodic(simulate: bool, iteration: int)
    ensures InjectionDue(simulate, iteration) <==> InjectionDue(simulate, iteration + InjectionPeriod)
  {
  }

  /** Between two injections no iteration is due. */
  lemma InjectionSkipsBetween(simulate: bool, iteration: int, k: int)
    requires InjectionDue(simulate, iteration) && 0 < k < InjectionPeriod
    ensures !InjectionDue(simulate, iteration + k)
  {
  }

  /** The best level of a side, when the side is present and non-empty. */
  function Top(b: BookValue, s: Side): Option<Level> {
    if s in b && |b[s]| > 0 then Some(b[s][0]) else None
  }

  /** The book of a venue. */
  function BookOf(v: Venue, bin: BookValue, krk: BookValue): BookValue {
    match v
    case Binance => bin
    case Kraken => krk
  }

  /** All four best prices the status line prints exist. */
  predicate TopsPresent(bin: BookValue, krk: BookValue) {
    Top(bin, Asks).Some? && Top(bin, Bids).Some? && Top(krk, Asks).Some? && Top(krk, Bids).Some?
  }

  /**
   * The demo injection: Kraken's best ask becomes 0.99 times Binance's best
   * bid, for 5 units; `None` when Binance has no best bid or Kraken no best
   * ask, where the source raises.
   */
  function Inject(bin: BookValue, krk: BookValue): (r: Option<BookValue>)
    ensures r.Some? <==> Top(bin, Bids).Some? && Top(krk, Asks).Some?
    ensures r.Some? ==> r.value.Keys == krk.Keys
    ensures r.Some? ==> forall s :: s in krk && s != Asks ==> r.value[s] == krk[s]
    ensures r.Some? ==> |r.value[Asks]| == |krk[Asks]| && r.value[Asks][1..] == krk[Asks][1..]
    ensures r.Some? ==>
      Top(r.value, Asks) == Some(Level(Top(bin, Bids).value.price * InjectionDiscount, InjectedQty))
    ensures r.Some? && WellFormedBook(bin) && WellFormedBook(krk) ==> WellFormedBook(r.value)
  {
    match (Top(bin, Bids), Top(krk, Asks))
    case (Some(bid), Some(_)) =>
      var asks := krk[Asks][0 := Level(bid.price * InjectionDiscount, InjectedQty)];
      assert asks[1..] == krk[Asks][1..];
      assert WellFormedBook(bin) && WellFormedBook(krk) ==> WellFormed(asks) by {
        if WellFormedBook(bin) && WellFormedBook(krk) {
          assert bid.price > 0.0;
          assert forall i :: 1 <= i < |asks| ==> asks[i] == krk[Asks][i];
        }
      }
      Some(krk[Asks := asks])
    case _ => None
  }

  /** Kraken's book after a pass: only an injection that went through changes it. */
  function KrakenAfter(iteration: int, simulate: bool, bin: Option<BookValue>, krk: Option<BookValue>): (r: Option<BookValue>)
    ensures r.Some? <==> krk.Some?
    ensures r != krk ==> InjectionDue(simulate, iteration) && Usable(bin) && Usable(krk)
    ensures r != krk ==> r == Inject(bin.value, krk.value)
  {
    if Usable(bin) && Usable(krk) && InjectionDue(simulate, iteration) && Inject(bin.value, krk.value).Some? then
      Inject(bin.value, krk.value)
    else krk
  }

  /**
   * Quotes, strategies and output for two usable books, Kraken's as it is
   * after any injection.
   */
  function Evaluate(bin: BookValue, krk: BookValue, investment: real, fee: real): (r: Outcome)
    requires WellFormedBook(bin) && WellFormedBook(krk) && investment > 0.0 && 1.0 + fee != 0.0
    ensures !r.Skipped?
  {
    Decide(bin, krk, Quote(Some(bin), Asks, investment), Quote(Some(krk), Bids, investment),
           Quote(Some(krk), Asks, investment), Quote(Some(bin), Bids, investment), investment, fee)
  }

  /** Strategies and output once the four quotes are known. */
  function Decide(bin: BookValue, krk: BookValue, buyBin: Option<real>, sellKrk: Option<real>,
                  buyKrk: Option<real>, sellBin: Option<real>, investment: real, fee: real): (r: Outcome)
    requires 1.0 + fee != 0.0
    ensures !r.Skipped?
  {
    match ChooseOpportunity(buyBin, sellKrk, buyKrk, sellBin, fee)
    case Some(opp) => Alert(opp, EstimatedProfit(investment, opp.profitPct))
    case None => StatusLine(bin, krk, BestSpread(buyBin, sellKrk, buyKrk, sellBin))
  }

  /** The status line with the four best prices, or a failure when one of them is missing. */
  function StatusLine(bin: BookValue, krk: BookValue, bestSpread: real): (r: Outcome)
    ensures r.Status? || r.Fault?
    ensures r.Status? <==> TopsPresent(bin, krk)
  {
    if TopsPresent(bin, krk) then
      Status(bin[Asks][0].price, bin[Bids][0].price, krk[Asks][0].price, krk[Bids][0].price, bestSpread)
    else Fault
  }

  /**
   * The outcome of the pass numbered `iteration` (already incremented) on the
   * books as fetched.
   */
  function CycleOutcome(iteration: int, simulate: bool, investment: real, fee: real,
                        bin: Option<BookValue>, krk: Option<BookValue>): (r: Outcome)
    requires WellFormedSnapshot(bin) && WellFormedSnapshot(krk) && investment > 0.0 && 1.0 + fee != 0.0
    ensures r.Skipped? <==> !Usable(bin) || !Usable(krk)
  {
    if !Usable(bin) || !Usable(krk) then Skipped
    else if InjectionDue(simulate, iteration) then
      match Inject(bin.value, krk.value)
      case None => Fault
      case Some(k) => Evaluate(bin.value, k, investment, fee)
    else Evaluate(bin.value, krk.value, investment, fee)
  }

  /**
   * An alert buys at the weighted ask of one venue and sells at the weighted
   * bid of the other, with a profit above the threshold, and is raised exactly
   * when one of the two directions qualifies; without one, the pass fails
   * exactly when a best price the status line prints is missing, and
   * otherwise shows the best raw spread.
   */
  lemma EvaluateOutcomes(bin: BookValue, krk: BookValue, investment: real, fee: real)
    requires WellFormedBook(bin) && WellFormedBook(krk) && investment > 0.0 && 1.0 + fee != 0.0
    ensures var r := Evaluate(bin, krk, investment, fee);
      (r.Alert? ==>
        r.opp.profitPct > MinProfitPct && r.estProfit == EstimatedProfit(investment, r.opp.profitPct) &&
        r.opp.buyVenue != r.opp.sellVenue &&
        Some(r.opp.buyPrice) == Quote(Some(BookOf(r.opp.buyVenue, bin, krk)), Asks, investment) &&
        Some(r.opp.sellPrice) == Quote(Some(BookOf(r.opp.sellVenue, bin, krk)), Bids, investment)) &&
      (r.Alert? <==>
        Qualifies(Quote(Some(bin), Asks, investment), Quote(Some(krk), Bids, investment), fee) ||
        Qualifies(Quote(Some(krk), Asks, investment), Quote(Some(bin), Bids, investment), fee)) &&
      (r.Fault? <==> !r.Alert? && !TopsPresent(bin, krk)) &&
      (r.Status? ==>
        r.bestSpread == BestSpread(Quote(Some(bin), Asks, investment), Quote(Some(krk), Bids, investment),
                                   Quote(Some(krk), Asks, investment), Quote(Some(bin), Bids, investment)))
  {
  }

  /**
   * A pass on two usable books fails when the injection is due but cannot be
   * made, and otherwise is evaluated on Kraken's book as the pass leaves it.
   */
  lemma CycleEvaluatesBookAfter(iteration: int, simulate: bool, investment: real, fee: real,
                                bin: Option<BookValue>, krk: Option<BookValue>)
    requires WellFormedSnapshot(bin) && WellFormedSnapshot(krk) && investment > 0.0 && 1.0 + fee != 0.0
    requires Usable(bin) && Usable(krk)
    ensures InjectionDue(simulate, iteration) && Inject(bin.value, krk.value).None? ==>
      CycleOutcome(iteration, simulate, investment, fee, bin, krk).Fault?
    ensures !(InjectionDue(simulate, iteration) && Inject(bin.value, krk.value).None?) ==>
      var after := KrakenAfter(iteration, simulate, bin, krk);
      WellFormedSnapshot(after) &&
      CycleOutcome(iteration, simulate, investment, fee, bin, krk) == Evaluate(bin.value, after.value, investment, fee)
  {
  }

  /** A bot that is not simulating never alters a fetched book. */
  lemma LiveModeNeverInjects(iteration: int, investment: real, fee: real, bin: Option<BookValue>, krk: Option<BookValue>)
    requires WellFormedSnapshot(bin) && WellFormedSnapshot(krk) && investment > 0.0 && 1.0 + fee != 0.0
    ensures KrakenAfter(iteration, false, bin, krk) == krk
    ensures Usable(bin) && Usable(krk) ==>
      CycleOutcome(iteration, false, investment, fee, bin, krk) == Evaluate(bin.value, krk.value, investment, fee)
  {
  }

  /** The planted ask is 1/0.99 - 1, about 1.0101%, under Binance's best bid. */
  lemma InjectedSpread(bid: real)
    requires bid > 0.0
    ensures RawSpread(bid * InjectionDiscount, bid) == 100.0 / 99.0
  {
    var ask := bid * InjectionDiscount;
    assert bid - ask == bid * 0.01;
    assert (bid * 0.01) / (bid * 0.99) == 1.0 / 99.0;
  }

  /**
   * With the defaults (1000 USD, a 0.1% fee), an injection raises an alert
   * whenever Binance's best bid and the planted 5-unit ask each cover the
   * investment on their own.
   */
  lemma {:induction false} InjectionRaisesAlert(iteration: int, bin: BookValue, krk: BookValue)
    requires WellFormedBook(bin) && WellFormedBook(krk) && bin != map[] && krk != map[]
    requires InjectionDue(true, iteration)
    requires Top(bin, Bids).Some? && Top(krk, Asks).Some?
    requires Cost(bin[Bids][0]) >= 1000.0
    requires bin[Bids][0].price * InjectionDiscount * InjectedQty >= 1000.0
    ensures CycleOutcome(iteration, true, 1000.0, 0.001, Some(bin), Some(krk)).Alert?
  {
    var bid := bin[Bids][0].price;
    var k := Inject(bin, krk).value;
    assert k[Asks][0] == Level(bid * InjectionDiscount, InjectedQty);
    BestLevelCovers(k[Asks], 1000.0);
    BestLevelCovers(bin[Bids], 1000.0);
    assert Quote(Some(k), Asks, 1000.0) == Some(bid * InjectionDiscount);
    assert Quote(Some(bin), Bids, 1000.0) == Some(bid);
    ProfitAboveIff(bid * InjectionDiscount, bid, 0.001, MinProfitPct);
    assert Qualifies(Quote(Some(k), Asks, 1000.0), Quote(Some(bin), Bids, 1000.0), 0.001);
  }

  /**
   * With a fee between 0 and 100%, an alert is raised only when the raw
   * spread the status line would show is above the threshold too.
   */
  lemma AlertImpliesRawSpreadAbove(bin: BookValue, krk: BookValue, investment: real, fee: real)
    requires WellFormedBook(bin) && WellFormedBook(krk) && investment > 0.0 && 0.0 <= fee <= 1.0
    requires Evaluate(bin, krk, investment, fee).Alert?
    ensures BestSpread(Quote(Some(bin), Asks, investment), Quote(Some(krk), Bids, investment),
                       Quote(Some(krk), Asks, investment), Quote(Some(bin), Bids, investment)) > MinProfitPct
  {
    var buyBin := Quote(Some(bin), Asks, investment);
    var sellKrk := Quote(Some(krk), Bids, investment);
    var buyKrk := Quote(Some(krk), Asks, investment);
    var sellBin := Quote(Some(bin), Bids, investment);
    if Qualifies(buyBin, sellKrk, fee) {
      FeesNeverHelp(buyBin.value, sellKrk.value, fee);
    } else {
      FeesNeverHelp(buyKrk.value, sellBin.value, fee);
    }
  }

  /** The list of Kraken's book that the injection overwrites, if any. */
  function InjectionTarget(b: Option<OrderBook>): set<array<Level>> {
    if b.Some? && Asks in b.value then {b.value[Asks]} else {}
  }

  /**
   * Kraken's ask list is shared with no other list of either book, as for
   * two freshly fetched books.
   */
  predicate Separate(bin: Option<OrderBook>, krk: Option<OrderBook>) {
    krk.Some? && Asks in krk.value ==>
      krk.value[Asks] !in Arrays(bin) &&
      forall s :: s in krk.value && s != Asks ==> krk.value[s] != krk.value[Asks]
  }

  class HFTArbitrageBot {
    const symbol: string
    const simulate: bool
    /** The USD notional every quote is computed for. */
    const investment: real := 1000.0
    /** The fee paid on each side of a trade. */
    const feeRate: real := 0.001
    var iteration: nat

    constructor(symbol: string := "BTC/USDT", simulate: bool := false)
      ensures this.symbol == symbol && this.simulate == simulate && iteration == 0
    {
      this.symbol := symbol;
      this.simulate := simulate;
      iteration := 0;
    }

    /**
     * The volume-weighted price of `amountUsd` on one side of `book`, walking
     * the levels best first.
     */
    method GetWeightedPrice(book: Option<OrderBook>, side: Side, amountUsd: real) returns (r: Option<real>)
      requires amountUsd > 0.0 && WellFormedOrderBook(book)
      ensures WellFormedSnapshot(Snap(book))
      ensures r == Quote(Snap(book), side, amountUsd)
    {
      if book.None? || book.value == map[] || side !in book.value {
        assert Snap(book).None? || Snap(book).value == map[] || side !in Snap(book).value;
        return None;
      }
      var levels := book.value[side];
      assert Snap(book).value[side] == levels[..];
      r := WalkLevels(levels, amountUsd);
    }

    /**
     * The walk of `get_weighted_price` over one side's levels, best first:
     * whole levels are taken while they cost less than what is left, the
     * level that covers the rest is taken in part, and `None` is returned
     * when the levels run out first.
     */
    method WalkLevels(levels: array<Level>, amountUsd: real) returns (r: Option<real>)
      requires amountUsd > 0.0 && WellFormed(levels[..])
      ensures r == WeightedPrice(levels[..], amountUsd)
    {
      ghost var ls := levels[..];
      var remaining := amountUsd;
      var totalQty := 0.0;
      var weightedSum := 0.0;
      var i := 0;
      WalkStart(ls, amountUsd);
      while i < levels.Length
        invariant i <= levels.Length
        invariant Walked(ls, amountUsd, i, remaining, totalQty, weightedSum)
      {
        assert levels[i] == ls[i];
        var price, qty := levels[i].price, levels[i].qty;
        var cost := Cost(levels[i]);
        if cost >= remaining {
          var fillQty := remaining / price;
          WalkFill(ls, amountUsd, i, remaining, totalQty, weightedSum, price, fillQty);
          totalQty := totalQty + fillQty;
          weightedSum := weightedSum + fillQty * price;
          remaining := 0.0;
          assert weightedSum == amountUsd && FillQty(ls, amountUsd) == Some(totalQty);
          break;
        } else {
          WalkWhole(ls, amountUsd, i, remaining, totalQty, weightedSum);
          totalQty := totalQty + qty;
          weightedSum := weightedSum + cost;
          remaining := remaining - cost;
        }
        i := i + 1;
      }
      if remaining > 0.0 {
        WalkExhausted(ls, amountUsd, i, remaining, totalQty, weightedSum);
        return None;
      }
      assert WeightedPrice(ls, amountUsd) == Some(weightedSum / totalQty);
      r := Some(weightedSum / totalQty);
    }

    /**
     * One pass of the scan loop on the books fetched for it (`None` for a
     * failed fetch).
     */
    method Step(binance: Option<OrderBook>, kraken: Option<OrderBook>) returns (o: Outcome)
      requires WellFormedOrderBook(binance) && WellFormedOrderBook(kraken) && Separate(binance, kraken)
      modifies this`iteration, InjectionTarget(kraken)
      ensures iteration == old(iteration) + 1
      ensures Snap(binance) == old(Snap(binance))
      ensures Snap(kraken) == KrakenAfter(iteration, simulate, old(Snap(binance)), old(Snap(kraken)))
      ensures o == CycleOutcome(iteration, simulate, investment, feeRate, old(Snap(binance)), old(Snap(kraken)))
    {
      ghost var bin0, krk0 := Snap(binance), Snap(kraken);
      iteration := iteration + 1;
      assert Snap(binance) == bin0 && Snap(kraken) == krk0;
      if binance.None? || binance.value == map[] || kraken.None? || kraken.value == map[] {
        assert !Usable(bin0) || !Usable(krk0);
        return Skipped;
      }
      assert Usable(bin0) && Usable(krk0);
      if simulate && iteration % InjectionPeriod == 0 {
        var injected := InjectAnomaly(binance.value, kraken.value);
        if !injected {
          return Fault;
        }
      }
      ghost var after := KrakenAfter(iteration, simulate, bin0, krk0);
      assert Snap(binance) == bin0 && Snap(kraken) == after;
      CycleEvaluatesBookAfter(iteration, simulate, investment, feeRate, bin0, krk0);
      label Ready:
      o := Assess(binance.value, kraken.value);
      ContentsUnchanged@Ready(binance.value);
      ContentsUnchanged@Ready(kraken.value);
    }

    /**
     * The demo injection on held books: Kraken's first ask is overwritten in
     * place; `false` where reading Binance's best bid or writing Kraken's
     * first ask raises.
     */
    method InjectAnomaly(binance: OrderBook, kraken: OrderBook) returns (ok: bool)
      requires WellFormedOrderBook(Some(binance)) && WellFormedOrderBook(Some(kraken))
      requires Separate(Some(binance), Some(kraken))
      modifies InjectionTarget(Some(kraken))
      ensures Contents(binance) == old(Contents(binance))
      ensures ok == Inject(old(Contents(binance)), old(Contents(kraken))).Some?
      ensures Contents(kraken) == if ok then Inject(old(Contents(binance)), old(Contents(kraken))).value else old(Contents(kraken))
    {
      if Bids !in binance || binance[Bids].Length == 0 {
        return false;
      }
      var bestBid := binance[Bids][0].price;
      var fakeAsk := bestBid * InjectionDiscount;
      if Asks !in kraken || kraken[Asks].Length == 0 {
        return false;
      }
      ghost var before := Contents(kraken);
      ghost var injected := Inject(Contents(binance), before).value;
      kraken[Asks][0] := Level(fakeAsk, InjectedQty);
      forall s | s in kraken
        ensures Contents(kraken)[s] == injected[s]
      {
        if s != Asks {
          assert kraken[s] != kraken[Asks];
        }
      }
      assert Contents(kraken) == injected;
      ok := true;
    }

    /**
     * Quotes, strategies and output of a pass on two usable held books,
     * after any injection.
     */
    method Assess(binance: OrderBook, kraken: OrderBook) returns (o: Outcome)
      requires binance != map[] && kraken != map[]
      requires WellFormedOrderBook(Some(binance)) && WellFormedOrderBook(Some(kraken))
      ensures o == Evaluate(Contents(binance), Contents(kraken), investment, feeRate)
    {
      ghost var bin, krk := Contents(binance), Contents(kraken);
      label Fetched:
      var buyBin := GetWeightedPrice(Some(binance), Asks, investment);
      ContentsUnchanged@Fetched(kraken);
      var sellKrk := GetWeightedPrice(Some(kraken), Bids, investment);
      ContentsUnchanged@Fetched(kraken);
      var buyKrk := GetWeightedPrice(Some(kraken), Asks, investment);
      ContentsUnchanged@Fetched(binance);
      var sellBin := GetWeightedPrice(Some(binance), Bids, investment);
      ContentsUnchanged@Fetched(binance);
      ContentsUnchanged@Fetched(kraken);
      assert Evaluate(bin, krk, investment, feeRate) ==
        Decide(bin, krk, buyBin, sellKrk, buyKrk, sellBin, investment, feeRate);
      var opportunity := ChooseOpportunity(buyBin, sellKrk, buyKrk, sellBin, feeRate);
      if opportunity.Some? {
        var opp := opportunity.value;
        return Alert(opp, EstimatedProfit(investment, opp.profitPct));
      }
      o := ShowStatus(binance, kraken, BestSpread(buyBin, sellKrk, buyKrk, sellBin));
    }

    /** The status line, read off the held books. */
    function ShowStatus(binance: OrderBook, kraken: OrderBook, bestSpread: real): (o: Outcome)
      reads binance.Values, kraken.Values
      ensures o == StatusLine(Contents(binance), Contents(kraken), bestSpread)
    {
      if Asks !in binance || binance[Asks].Length == 0 || Bids !in binance || binance[Bids].Length == 0 ||
         Asks !in kraken || kraken[Asks].Length == 0 || Bids !in kraken || kraken[Bids].Length == 0 then
        Fault
      else
        Status(binance[Asks][0].price, binance[Bids][0].price,
               kraken[Asks][0].price, kraken[Bids][0].price, bestSpread)
    }
  }
}
