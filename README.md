# Psiquis arbitrage scanners in Dafny

This project models two cross-exchange arbitrage scanners for BTC/USDT on
Binance and Kraken, and proves properties of the model.

**Live Alpha (`04_Psiquis_Live_Alpha/main.py`)** is the order-book bot `HFTArbitrageBot`.
- `get_weighted_price` walks one side of an order book, best level first. It consumes
  whole levels until one covers the USD still to fill, and takes that level in part. The
  result is the volume-weighted execution price, or `None` when the book is missing or
  empty, the side is absent, or the levels hold too little notional.
- Each pass of `run` does the following, in order:
  - adds one to the iteration counter;
  - skips the pass when a fetched book is missing or an empty dictionary;
  - in simulation mode, on every tenth iteration, overwrites Kraken's best ask in place
    with 0.99 times Binance's best bid, for 5 units;
  - quotes the four weighted prices for the 1000 USD investment;
  - tries Strategy A (buy Binance, sell Kraken) and then, only when A produced nothing,
    Strategy B (buy Kraken, sell Binance). Each strategy charges a 0.1% fee on both sides
    and needs a net profit strictly above 0.05%;
  - ends with either an alert that carries the estimated profit, or a status line that
    shows the four best prices and the best fee-free spread (−99 for a direction with a
    missing quote).

**Quant Engine (`01_Psiquis_Quant_Engine/main.py`)** is the last-price scanner.
- `fetch_prices` returns both last prices, or `(None, None)`. It never returns a pair
  with only one price.
- A pass on two truthy prices computes `(max - min) / min * 100`. It reports an
  opportunity when that spread is strictly above 0.5%, buying on the cheaper venue and
  selling on the dearer one.

Module layout:
- `wrappers.dfy`: `Option`.
- `books.dfy` (`Books`): levels and order books. A book is either a value (`map<Side, seq<Level>>`) or held in arrays (`map<Side, array<Level>>`). `Contents` and `Snap` relate the two forms.
- `depth_walker.dfy` (`DepthWalker`): the walk as recursive functions, with its lemmas.
- `strategy.dfy` (`Strategy`): profit percentages, the A-then-B choice, the best spread and the estimated profit.
- `live_alpha.dfy` (`LiveAlpha`): the outcome of a pass as functions, and the class `HFTArbitrageBot` whose methods perform a pass on held books: `Step`, `GetWeightedPrice`, `WalkLevels`, `InjectAnomaly` and `Assess`.
- `quant_engine.dfy` (`QuantEngine`): the last-price rule and the `fetch_prices` contract.

Python truthiness is modelled where the code relies on it:
- a quote counts only when it is present and non-zero (`Truthy`);
- a book counts only when it is present and non-empty (`Usable`). A book is represented by its `bids` and `asks` entries only, so "non-empty" here means holding at least one side.

Indexing `[0]` of a missing or empty side raises `KeyError`/`IndexError` in the source, and the exception ends `run`. This happens at the injection (lines 124 and 128) and at the status line (lines 186-187). The model keeps it as the `Fault` outcome rather than requiring it away.

Two consequences of the code are worth stating:
- An empty side does not skip the pass. `main.py:117` tests only for a missing book or an empty dictionary. The side's quotes are then `None`, and the status line faults.
- An injection raises an alert only when the books are deep enough. `InjectionRaisesAlert` states a sufficient condition.

## Model

| member | source | states |
|---|---|---|
| Books.Cost | 04_Psiquis_Live_Alpha/main.py:78-79 | a level's USD cost `price * qty` is non-negative for a positive price and non-negative quantity, and zero for an empty level |
| DepthWalker.Depth | 04_Psiquis_Live_Alpha/main.py:77-79 | the notional of a side, the sum of `price * qty`, is non-negative on well-formed levels |
| DepthWalker.FillQty | 04_Psiquis_Live_Alpha/main.py:77-91 | the quantity taken to cover an amount is positive whenever the walk completes |
| DepthWalker.FillQtyDefinedIffDepth | 04_Psiquis_Live_Alpha/main.py:77-94 | the walk runs out of levels exactly when the side's total notional is below the amount |
| DepthWalker.WeightedPrice | 04_Psiquis_Live_Alpha/main.py:73-96 | a price is returned exactly when the walk completes, and it is positive |
| DepthWalker.WeightedPriceDefinedIffDepth | 04_Psiquis_Live_Alpha/main.py:77-96 | `None` exactly when depth is below the amount; otherwise the price times the quantity bought equals the amount, so the final division is by a positive quantity |
| DepthWalker.Quote | 04_Psiquis_Live_Alpha/main.py:64-96 | a missing book or an absent side gives `None`; a returned quote is positive |
| DepthWalker.WalkStart | 04_Psiquis_Live_Alpha/main.py:73-75 | the initial accumulators satisfy the walk invariant: `weighted_sum + remaining_usd == amount_usd`, and the remaining fill equals the whole fill |
| DepthWalker.WalkWhole | 04_Psiquis_Live_Alpha/main.py:87-91 | consuming a level whole keeps the invariant: `remaining_usd` decreases by the level's cost and stays positive |
| DepthWalker.WalkFill | 04_Psiquis_Live_Alpha/main.py:80-86 | the partial fill brings `weighted_sum` to exactly the amount, and the total quantity is positive and equals the specified fill |
| DepthWalker.WalkExhausted | 04_Psiquis_Live_Alpha/main.py:93-94 | leaving the loop with USD still to cover means the side's depth is below the amount |
| DepthWalker.Visited | 04_Psiquis_Live_Alpha/main.py:77-86 | the number of levels the walk reads before `break` is between 1 and the number of levels |
| DepthWalker.VisitedPrefixSuffices | 04_Psiquis_Live_Alpha/main.py:80-86 | the levels read before `break` give the same fill as the whole side |
| DepthWalker.FillSuffixIrrelevant | 04_Psiquis_Live_Alpha/main.py:80-86 | levels appended after a side that already completes the fill do not change the quantity |
| DepthWalker.SuffixIrrelevant | 04_Psiquis_Live_Alpha/main.py:80-96 | levels appended after a side that already completes the fill do not change the price |
| DepthWalker.FillBetween | 04_Psiquis_Live_Alpha/main.py:77-91 | if every visited price lies in `[lo, hi]`, the amount lies between `lo` and `hi` times the quantity bought |
| DepthWalker.WeightedPriceWithinVisited | 04_Psiquis_Live_Alpha/main.py:77-96 | a returned price lies between the lowest and the highest price of the levels visited |
| DepthWalker.EmptyLevelSkipped | 04_Psiquis_Live_Alpha/main.py:87-91 | a zero-quantity level in front of a side changes nothing |
| DepthWalker.BestLevelCovers | 04_Psiquis_Live_Alpha/main.py:80-86 | when the best level covers the amount, the price is that level's price |
| DepthWalker.TwoLevelExample | 04_Psiquis_Live_Alpha/main.py:64-96 | 150 USD against levels (100, 1) and (99, 2) buys 1 + 50/99 units at 150·99/149 |
| DepthWalker.ThinBookExample | 04_Psiquis_Live_Alpha/main.py:93-94 | 100 USD against one level worth 50.5 USD is insufficient liquidity |
| Strategy.ProfitPct | 04_Psiquis_Live_Alpha/main.py:143-146 | the net profit percentage times the net purchase price equals 100 times the net sale minus the net purchase, with the fee taken off the sale and added to the purchase |
| Strategy.RawSpread | 04_Psiquis_Live_Alpha/main.py:177-178 | the fee-free spread percentage times the buy price equals 100 times the sell price minus the buy price |
| Strategy.CheckDirection | 04_Psiquis_Live_Alpha/main.py:142-158 | one direction yields an opportunity exactly when both quotes are truthy and its net profit is strictly above 0.05; the opportunity carries the direction's venues, both quotes and that profit |
| Strategy.EstimatedProfit | 04_Psiquis_Live_Alpha/main.py:171 | the estimated profit times 100 is the investment times the profit percentage, and it is positive for a positive investment and profit |
| Strategy.DirectionSpread | 04_Psiquis_Live_Alpha/main.py:177-178 | a direction with a missing or zero quote shows −99; otherwise its spread times the buy price is 100 times the sell price minus the buy price |
| Strategy.ChooseOpportunity | 04_Psiquis_Live_Alpha/main.py:139-158 | an opportunity has a net profit strictly above 0.05% and buys and sells on different venues |
| Strategy.ChooseOpportunityPrecedence | 04_Psiquis_Live_Alpha/main.py:139-158 | A is reported whenever it qualifies; B only when A does not and B does; nothing exactly when neither qualifies |
| Strategy.BestSpread | 04_Psiquis_Live_Alpha/main.py:177-179 | the best spread is the larger of the two directions' fee-free spreads, each −99 when a quote is missing |
| Strategy.ZeroFeeProfitIsRawSpread | 04_Psiquis_Live_Alpha/main.py:143-146 | with no fee the net profit is the raw spread `(sell - buy) / buy * 100` |
| Strategy.FeesNeverHelp | 04_Psiquis_Live_Alpha/main.py:143-146 | with a fee in `[0, 1]`, the net profit never exceeds the raw spread |
| Strategy.ProfitAboveIff | 04_Psiquis_Live_Alpha/main.py:144-148 | the threshold test without division: the profit exceeds `t` exactly when the net sale exceeds the net purchase marked up by `t` percent |
| Strategy.EstimatedProfitIsNetGain | 04_Psiquis_Live_Alpha/main.py:171 | the estimated profit is the investment times the net fractional gain |
| Strategy.ZeroFeeAlertIffBestSpread | 04_Psiquis_Live_Alpha/main.py:142-158 | with no fee, some direction qualifies exactly when the status line's best spread is above 0.05 |
| Strategy.FirstDirectionWins | 04_Psiquis_Live_Alpha/main.py:152 | when both directions qualify and B pays 10% against A's 1%, A is reported |
| Strategy.FeeExample | 04_Psiquis_Live_Alpha/main.py:143-148 | buying at 100 and selling at 101 with the 0.1% fee nets about 0.798% |
| LiveAlpha.Usable | 04_Psiquis_Live_Alpha/main.py:117 | a fetched book, represented by its two side entries, passes the skip gate exactly when it is present and holds at least one side |
| LiveAlpha.KeyedBookHasSide | 04_Psiquis_Live_Alpha/main.py:117 | a book represented by its side entries is non-empty exactly when it holds bids or asks |
| LiveAlpha.InjectionDue | 04_Psiquis_Live_Alpha/main.py:121 | an injection is due only when the bot simulates |
| LiveAlpha.InjectionPeriodic | 04_Psiquis_Live_Alpha/main.py:121 | an iteration is due exactly when the iteration ten later is due |
| LiveAlpha.InjectionSkipsBetween | 04_Psiquis_Live_Alpha/main.py:121 | none of the nine iterations after a due one is due |
| LiveAlpha.Inject | 04_Psiquis_Live_Alpha/main.py:121-128 | the injection happens exactly when Binance has a best bid and Kraken a best ask. It sets Kraken's first ask to `(0.99 * bid, 5)`, leaves every other level and side unchanged, and keeps the book well formed |
| LiveAlpha.KrakenAfter | 04_Psiquis_Live_Alpha/main.py:117-128 | Kraken's book changes only on a due iteration in simulation mode with both books usable, and then only by the injection |
| LiveAlpha.Evaluate | 04_Psiquis_Live_Alpha/main.py:130-189 | a pass on two usable books is never a skip |
| LiveAlpha.Decide | 04_Psiquis_Live_Alpha/main.py:139-189 | strategies and output once the quotes are known are never a skip |
| LiveAlpha.StatusLine | 04_Psiquis_Live_Alpha/main.py:184-187 | the status line is shown exactly when all four best prices exist, and fails otherwise |
| LiveAlpha.CycleOutcome | 04_Psiquis_Live_Alpha/main.py:117-189 | a pass is skipped exactly when either book is missing or empty |
| LiveAlpha.EvaluateOutcomes | 04_Psiquis_Live_Alpha/main.py:130-189 | an alert buys at one venue's weighted ask and sells at the other's weighted bid, above the threshold, with estimated profit `investment * pct / 100`. An alert is raised exactly when a direction qualifies. Without one, the pass fails exactly when a printed best price is missing, and otherwise shows the best spread |
| LiveAlpha.CycleEvaluatesBookAfter | 04_Psiquis_Live_Alpha/main.py:117-137 | a due injection that cannot be made ends the pass with a fault; otherwise the quotes are taken on Kraken's book as the injection left it |
| LiveAlpha.LiveModeNeverInjects | 04_Psiquis_Live_Alpha/main.py:121 | without simulation the books are never altered, and the pass evaluates them as fetched |
| LiveAlpha.InjectedSpread | 04_Psiquis_Live_Alpha/main.py:124-125 | the planted ask is 1/99 (about 1.0101%) under Binance's best bid as a raw spread |
| LiveAlpha.InjectionRaisesAlert | 04_Psiquis_Live_Alpha/main.py:121-158 | with the defaults, a due injection raises an alert whenever Binance's best bid and the planted ask each cover 1000 USD alone |
| LiveAlpha.AlertImpliesRawSpreadAbove | 04_Psiquis_Live_Alpha/main.py:142-179 | with a fee in `[0, 1]`, an alert implies that the best raw spread is above the threshold too |
| LiveAlpha.HFTArbitrageBot.constructor | 04_Psiquis_Live_Alpha/main.py:35-40 | a new bot has the given symbol (default `BTC/USDT`) and mode (default live), and iteration 0 |
| LiveAlpha.HFTArbitrageBot.GetWeightedPrice | 04_Psiquis_Live_Alpha/main.py:64-96 | the price returned on a held book is `Quote` of its contents |
| LiveAlpha.HFTArbitrageBot.WalkLevels | 04_Psiquis_Live_Alpha/main.py:73-96 | the loop with its three accumulators returns `WeightedPrice` of the levels |
| LiveAlpha.HFTArbitrageBot.Step | 04_Psiquis_Live_Alpha/main.py:105-189 | a pass increments `iteration` by one and leaves Binance's book unchanged. Kraken's book becomes `KrakenAfter` of the old books, and the outcome is `CycleOutcome` of the new iteration and the old books |
| LiveAlpha.HFTArbitrageBot.InjectAnomaly | 04_Psiquis_Live_Alpha/main.py:121-128 | the in-place overwrite succeeds exactly when `Inject` does. Kraken's contents then equal `Inject`'s result, and Binance's book is unchanged |
| LiveAlpha.HFTArbitrageBot.Assess | 04_Psiquis_Live_Alpha/main.py:130-189 | the four quotes, the strategies and the output on held books give `Evaluate` of their contents |
| LiveAlpha.HFTArbitrageBot.ShowStatus | 04_Psiquis_Live_Alpha/main.py:184-187 | the status line read off held books is `StatusLine` of their contents |
| QuantEngine.FetchPrices | 01_Psiquis_Quant_Engine/main.py:51-76 | never a half-filled pair. Both prices are present exactly when both requests answer with a last price, and they are those prices |
| QuantEngine.Max | 01_Psiquis_Quant_Engine/main.py:97 | `max` of two prices is at least both and is one of them |
| QuantEngine.Min | 01_Psiquis_Quant_Engine/main.py:98 | `min` of two prices is at most both and is one of them |
| QuantEngine.SpreadPercentage | 01_Psiquis_Quant_Engine/main.py:97-100 | the spread is non-negative for positive prices, and zero for equal prices |
| QuantEngine.CheckPrices | 01_Psiquis_Quant_Engine/main.py:95-120 | a report exists exactly when both prices are truthy. It is an opportunity exactly when the spread is strictly above 0.5. An opportunity buys at the minimum and sells at the maximum, on different venues, each at that venue's price |
| QuantEngine.Pass | 01_Psiquis_Quant_Engine/main.py:93-95 | a pass reports only when both requests answered with truthy last prices |
| QuantEngine.SpreadSymmetric | 01_Psiquis_Quant_Engine/main.py:97-100 | swapping the two venues' prices gives the same spread |
| QuantEngine.SpreadAboveIff | 01_Psiquis_Quant_Engine/main.py:100-113 | for positive prices, the spread exceeds `t` exactly when the higher price exceeds the lower one marked up by `t` percent |
| QuantEngine.ArbitrageBuysLow | 01_Psiquis_Quant_Engine/main.py:113-120 | for positive prices, an opportunity buys strictly below its selling price |
| QuantEngine.MissingPriceSilencesPass | 01_Psiquis_Quant_Engine/main.py:60-76 | a request that raises, or a ticker without a last price, leaves the pass silent |
| QuantEngine.ThresholdExample | 01_Psiquis_Quant_Engine/main.py:85-115 | a spread of exactly 0.5% is not reported; 0.6% is, buying on Kraken at 100 |

## Left out

- Exchange connectivity is not modelled: `initialize`, `close`, `fetch_book`, `load_markets`, `fetch_order_book`, `fetch_ticker` and `initialize_exchanges` are foreign network calls. Books, tickers and request failures are inputs instead.
- The `asyncio.gather` fan-out, the sleeps, the `while True` loops and `KeyboardInterrupt` handling are left out (concurrency and timing). `Step` is one pass of the loop.
- Latency measurement, colours, the banner and all console formatting are left out. Only the numbers a line shows are kept: the alert's opportunity and estimated profit, and the status line's four best prices and best spread.
- The `isinstance(books['binance'], Exception)` test is left out. `fetch_book` catches every exception and returns `None`, so that test never sees an exception.
- IEEE-754 rounding is not modelled: prices, quantities and percentages are reals. The equalities proved (such as price times quantity equals the amount) hold in the source only up to rounding.
- A `Fault` outcome ends the pass. The model does not continue `run` after an exception, because the source stops there too.
- LiveAlpha.Usable: a book is modelled by its `bids` and `asks` entries only, not by the other entries of ccxt's dictionary (`symbol`, `timestamp`, `datetime`, `nonce`). In the source, a dictionary that holds such entries but neither side passes line 117. All its quotes are then `None` (line 70), and the status line raises `KeyError` (line 186). Here that book can only be written as the empty map, which `Usable` rejects, so the model skips the pass instead.
- LiveAlpha.KeyedBookHasSide: holds of the two-key representation only. A source dictionary with other entries is non-empty without holding bids or asks.
- LiveAlpha.HFTArbitrageBot.GetWeightedPrice requires `amountUsd > 0` and well-formed levels (positive prices, non-negative quantities). With a zero amount the source divides 0 by 0, and with negative quantities the total quantity can be zero. The bot always quotes its fixed 1000 USD on exchange books.
- LiveAlpha.HFTArbitrageBot.Step requires well-formed books, and Kraken's ask list shared with no other list (`Separate`). Each fetch builds fresh lists, and aliasing between fetched books is not modelled.
- The other repository files (the data loader, the ETL pipeline and the agent framework) are not part of this model: they wrap libraries or contain no logic beyond scaffolding.
