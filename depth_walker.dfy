/**
 * What `HFTArbitrageBot.get_weighted_price` computes, as functions on the
 * levels of one side: walk the levels in order until a USD notional is
 * covered, consuming every level whole except the last, which is consumed
 * fractionally. The loop itself is `LiveAlpha.HFTArbitrageBot.WalkLevels`.
 */
module DepthWalker {
  import opened Wrappers
  import opened Books

  /** The USD notional resting on a side: the sum of `price * qty` over its levels. */
  function Depth(levels: seq<Level>): (d: real)
    ensures WellFormed(levels) ==> d >= 0.0
  {
    if levels == [] then 0.0
    else
      assert WellFormed(levels) ==> WellFormed(levels[1..]) && Cost(levels[0]) >= 0.0;
      Cost(levels[0]) + Depth(levels[1..])
  }

  lemma {:induction false} DepthAppend(s: seq<Level>, l: Level)
    ensures Depth(s + [l]) == Depth(s) + Cost(l)
  {
    if s == [] {
      assert [l][1..] == [];
    } else {
      assert (s + [l])[1..] == s[1..] + [l];
      DepthAppend(s[1..], l);
    }
  }

  lemma WellFormedSlice(levels: seq<Level>, i: nat, j: nat)
    requires WellFormed(levels) && i <= j <= |levels|
    ensures WellFormed(levels[i..j])
  {
    forall k | 0 <= k < j - i
      ensures levels[i..j][k].price > 0.0 && levels[i..j][k].qty >= 0.0
    {
      assert levels[i..j][k] == levels[i + k];
    }
  }

  lemma WellFormedConcat(a: seq<Level>, b: seq<Level>)
    requires WellFormed(a) && WellFormed(b)
    ensures WellFormed(a + b)
  {
    forall k | 0 <= k < |a + b|
      ensures (a + b)[k].price > 0.0 && (a + b)[k].qty >= 0.0
    {
      if k < |a| { assert (a + b)[k] == a[k]; } else { assert (a + b)[k] == b[k - |a|]; }
    }
  }

  /** Adds the quantity `q` taken from an earlier level to a fill that may not exist. */
  function Shift(fill: Option<real>, q: real): Option<real> {
    match fill
    case None => None
    case Some(t) => Some(q + t)
  }

  /**
   * The quantity bought or sold to cover `remaining` USD from `levels`, or
   * `None` when the levels do not hold that much notional.
   */
  function FillQty(levels: seq<Level>, remaining: real): (r: Option<real>)
    requires WellFormed(levels) && remaining > 0.0
    ensures r.Some? ==> r.value > 0.0
    decreases |levels|
  {
    if levels == [] then None
    else
      var cost := Cost(levels[0]);
      assert WellFormed(levels[1..]);
      if cost >= remaining then Some(remaining / levels[0].price)
      else Shift(FillQty(levels[1..], remaining - cost), levels[0].qty)
  }

  /** One step of the walk: the best level is filled from or consumed whole. */
  lemma FillStep(levels: seq<Level>, remaining: real)
    requires WellFormed(levels) && remaining > 0.0 && levels != []
    ensures WellFormed(levels[1..])
    ensures Cost(levels[0]) >= remaining ==>
      FillQty(levels, remaining) == Some(remaining / levels[0].price)
    ensures Cost(levels[0]) < remaining ==>
      FillQty(levels, remaining) ==
        Shift(FillQty(levels[1..], remaining - Cost(levels[0])), levels[0].qty)
  {
    WellFormedSlice(levels, 1, |levels|);
    assert levels[1..] == levels[1..|levels|];
  }

  /** The walk fills `remaining` exactly when the levels hold at least that much notional. */
  lemma {:induction false} FillQtyDefinedIffDepth(levels: seq<Level>, remaining: real)
    requires WellFormed(levels) && remaining > 0.0
    ensures FillQty(levels, remaining).None? <==> Depth(levels) < remaining
    decreases |levels|
  {
    if levels != [] {
      FillStep(levels, remaining);
      assert Depth(levels) == Cost(levels[0]) + Depth(levels[1..]);
      if Cost(levels[0]) < remaining {
        FillQtyDefinedIffDepth(levels[1..], remaining - Cost(levels[0]));
      }
    }
  }

  /**
   * The volume-weighted execution price of `amount` USD against `levels`, or
   * `None` for insufficient liquidity.
   */
  function WeightedPrice(levels: seq<Level>, amount: real): (r: Option<real>)
    requires WellFormed(levels) && amount > 0.0
    ensures r.Some? <==> FillQty(levels, amount).Some?
    ensures r.Some? ==> r.value > 0.0
  {
    match FillQty(levels, amount)
    case None => None
    case Some(t) => Some(amount / t)
  }

  /**
   * Insufficient liquidity exactly when the side's total notional is below
   * the amount; otherwise a positive price that fills the amount exactly.
   */
  lemma {:induction false} WeightedPriceDefinedIffDepth(levels: seq<Level>, amount: real)
    requires WellFormed(levels) && amount > 0.0
    ensures WeightedPrice(levels, amount).None? <==> Depth(levels) < amount
    ensures WeightedPrice(levels, amount).Some? ==>
      WeightedPrice(levels, amount).value > 0.0 &&
      WeightedPrice(levels, amount).value * FillQty(levels, amount).value == amount
  {
    FillQtyDefinedIffDepth(levels, amount);
    if FillQty(levels, amount).Some? {
      var t := FillQty(levels, amount).value;
      DivMul(amount, t);
      assert WeightedPrice(levels, amount).value == amount / t;
    }
  }

  /** Dividing by a positive quantity and multiplying back gives the amount. */
  lemma DivMul(amount: real, t: real)
    requires amount > 0.0 && t > 0.0
    ensures amount / t > 0.0 && amount / t * t == amount
  {
  }

  /** The quote for one side of a fetched book: `None` when the book or the side is missing. */
  function Quote(book: Option<BookValue>, side: Side, amount: real): (r: Option<real>)
    requires amount > 0.0 && WellFormedSnapshot(book)
    ensures book.None? || side !in book.value ==> r.None?
    ensures r.Some? ==> r.value > 0.0
  {
    if book.None? || book.value == map[] || side !in book.value then None
    else WeightedPrice(book.value[side], amount)
  }

  /**
   * The state of the walk once the first `i` levels have been consumed whole:
   * `remaining` USD are still to cover, `weightedSum` has been spent on
   * `totalQty` units, and completing the walk from level `i` gives the fill
   * of the whole side.
   */
  predicate Walked(ls: seq<Level>, amount: real, i: nat, remaining: real, totalQty: real, weightedSum: real) {
    i <= |ls| && WellFormed(ls) && WellFormed(ls[i..]) &&
    0.0 < remaining <= amount &&
    weightedSum + remaining == amount &&
    remaining == amount - Depth(ls[..i]) &&
    totalQty >= 0.0 &&
    FillQty(ls, amount) == Shift(FillQty(ls[i..], remaining), totalQty)
  }

  lemma WalkStart(ls: seq<Level>, amount: real)
    requires WellFormed(ls) && amount > 0.0
    ensures Walked(ls, amount, 0, amount, 0.0, 0.0)
  {
    assert ls[0..] == ls;
    assert ls[..0] == [];
  }

  /** Consuming level `i` whole, when it is worth less than what remains. */
  lemma WalkWhole(ls: seq<Level>, amount: real, i: nat, remaining: real, totalQty: real, weightedSum: real)
    requires Walked(ls, amount, i, remaining, totalQty, weightedSum) && i < |ls|
    requires Cost(ls[i]) < remaining
    ensures Walked(ls, amount, i + 1, remaining - Cost(ls[i]), totalQty + ls[i].qty, weightedSum + Cost(ls[i]))
  {
    var l := ls[i];
    FillStep(ls[i..], remaining);
    assert ls[i..][0] == l && ls[i..][1..] == ls[i + 1..];
    assert ls[..i + 1] == ls[..i] + [l];
    DepthAppend(ls[..i], l);
    assert l.qty >= 0.0;
    var rest := FillQty(ls[i + 1..], remaining - Cost(l));
    assert FillQty(ls[i..], remaining) == Shift(rest, l.qty);
    assert Shift(Shift(rest, l.qty), totalQty) == Shift(rest, totalQty + l.qty);
  }

  /** Filling what remains from level `i`, when it is worth at least that much. */
  lemma WalkFill(ls: seq<Level>, amount: real, i: nat, remaining: real, totalQty: real, weightedSum: real,
                 price: real, fillQty: real)
    requires Walked(ls, amount, i, remaining, totalQty, weightedSum) && i < |ls|
    requires Cost(ls[i]) >= remaining && price == ls[i].price && fillQty == remaining / price
    ensures weightedSum + fillQty * price == amount
    ensures totalQty + fillQty > 0.0
    ensures FillQty(ls, amount) == Some(totalQty + fillQty)
  {
    assert price > 0.0;
    DivMul(remaining, price);
    FillStep(ls[i..], remaining);
    assert ls[i..][0] == ls[i];
  }

  /** Running out of levels with USD still to cover: the side is too thin. */
  lemma WalkExhausted(ls: seq<Level>, amount: real, i: nat, remaining: real, totalQty: real, weightedSum: real)
    requires Walked(ls, amount, i, remaining, totalQty, weightedSum) && i == |ls|
    ensures FillQty(ls, amount).None? && Depth(ls) < amount
  {
    assert ls[i..] == [] && ls[..i] == ls;
  }

  /** How many levels the walk visits before the fill completes (the level that completes it included). */
  function Visited(levels: seq<Level>, remaining: real): (n: nat)
    requires WellFormed(levels) && remaining > 0.0 && FillQty(levels, remaining).Some?
    ensures 1 <= n <= |levels|
    decreases |levels|
  {
    FillStep(levels, remaining);
    var cost := Cost(levels[0]);
    if cost >= remaining then 1 else 1 + Visited(levels[1..], remaining - cost)
  }

  /** The walk reads nothing past the visited levels. */
  lemma {:induction false} VisitedPrefixSuffices(levels: seq<Level>, remaining: real)
    requires WellFormed(levels) && remaining > 0.0 && FillQty(levels, remaining).Some?
    ensures WellFormed(levels[..Visited(levels, remaining)])
    ensures FillQty(levels[..Visited(levels, remaining)], remaining) == FillQty(levels, remaining)
    decreases |levels|
  {
    var n := Visited(levels, remaining);
    var prefix := levels[..n];
    WellFormedSlice(levels, 0, n);
    assert prefix == levels[0..n];
    FillStep(levels, remaining);
    FillStep(prefix, remaining);
    assert prefix[0] == levels[0];
    if Cost(levels[0]) < remaining {
      VisitedPrefixSuffices(levels[1..], remaining - Cost(levels[0]));
      assert prefix[1..] == levels[1..][..n - 1];
    }
  }

  /** Levels after those that complete the fill do not affect the result. */
  lemma SuffixIrrelevant(levels: seq<Level>, rest: seq<Level>, amount: real)
    requires WellFormed(levels) && WellFormed(rest) && amount > 0.0
    requires WeightedPrice(levels, amount).Some?
    ensures WellFormed(levels + rest)
    ensures WeightedPrice(levels + rest, amount) == WeightedPrice(levels, amount)
  {
    FillSuffixIrrelevant(levels, rest, amount);
  }

  lemma {:induction false} FillSuffixIrrelevant(levels: seq<Level>, rest: seq<Level>, remaining: real)
    requires WellFormed(levels) && WellFormed(rest) && remaining > 0.0
    requires FillQty(levels, remaining).Some?
    ensures WellFormed(levels + rest)
    ensures FillQty(levels + rest, remaining) == FillQty(levels, remaining)
    decreases |levels|
  {
    WellFormedConcat(levels, rest);
    assert levels != [];
    var all := levels + rest;
    var p, q := levels[0].price, levels[0].qty;
    assert all[0] == levels[0];
    assert all[0].price == p && all[0].qty == q;
    FillStep(levels, remaining);
    FillStep(all, remaining);
    if Cost(levels[0]) < remaining {
      var left := remaining - Cost(levels[0]);
      assert FillQty(levels, remaining) == Shift(FillQty(levels[1..], left), q);
      assert FillQty(all, remaining) == Shift(FillQty(all[1..], left), q);
      assert FillQty(levels[1..], left).Some?;
      assert all[1..] == levels[1..] + rest;
      FillSuffixIrrelevant(levels[1..], rest, left);
      assert FillQty(all[1..], left) == FillQty(levels[1..], left);
    } else {
      assert FillQty(all, remaining) == Some(remaining / p);
    }
  }

  /** The lowest price among non-empty levels. */
  function MinPrice(levels: seq<Level>): (m: real)
    requires |levels| > 0
    ensures forall i :: 0 <= i < |levels| ==> m <= levels[i].price
    ensures exists i :: 0 <= i < |levels| && m == levels[i].price
  {
    if |levels| == 1 then levels[0].price
    else
      var m := MinPrice(levels[1..]);
      assert forall i :: 1 <= i < |levels| ==> levels[i] == levels[1..][i - 1];
      if levels[0].price <= m then levels[0].price else m
  }

  /** The highest price among non-empty levels. */
  function MaxPrice(levels: seq<Level>): (m: real)
    requires |levels| > 0
    ensures forall i :: 0 <= i < |levels| ==> levels[i].price <= m
    ensures exists i :: 0 <= i < |levels| && m == levels[i].price
  {
    if |levels| == 1 then levels[0].price
    else
      var m := MaxPrice(levels[1..]);
      assert forall i :: 1 <= i < |levels| ==> levels[i] == levels[1..][i - 1];
      if levels[0].price >= m then levels[0].price else m
  }

  /** `amount` lies between `lo` and `hi` times the quantity `t`. */
  predicate Brackets(lo: real, hi: real, t: real, amount: real) {
    lo * t <= amount <= hi * t
  }

  lemma CostBetween(l: Level, lo: real, hi: real)
    requires lo <= l.price <= hi && l.qty >= 0.0
    ensures Brackets(lo, hi, l.qty, Cost(l))
  {
  }

  lemma BetweenWhole(lo: real, hi: real, q: real, cost: real, t: real, left: real)
    requires Brackets(lo, hi, q, cost) && Brackets(lo, hi, t, left)
    ensures Brackets(lo, hi, q + t, left + cost)
  {
  }

  lemma BetweenFraction(lo: real, hi: real, p: real, remaining: real)
    requires lo <= p <= hi && p > 0.0 && remaining > 0.0
    ensures Brackets(lo, hi, remaining / p, remaining)
  {
    var t := remaining / p;
    assert p * t == remaining;
    assert lo * t <= p * t <= hi * t;
  }

  lemma PriceBetween(lo: real, hi: real, t: real, amount: real)
    requires t > 0.0 && Brackets(lo, hi, t, amount)
    ensures lo <= amount / t <= hi
  {
  }

  /** With every visited price within [lo, hi], the notional lies between lo and hi times the quantity. */
  lemma {:induction false} FillBetween(levels: seq<Level>, remaining: real, lo: real, hi: real)
    requires WellFormed(levels) && remaining > 0.0 && FillQty(levels, remaining).Some?
    requires forall i :: 0 <= i < Visited(levels, remaining) ==> lo <= levels[i].price <= hi
    ensures Brackets(lo, hi, FillQty(levels, remaining).value, remaining)
    decreases |levels|
  {
    FillStep(levels, remaining);
    var p, q := levels[0].price, levels[0].qty;
    assert lo <= p <= hi;
    if Cost(levels[0]) >= remaining {
      BetweenFraction(lo, hi, p, remaining);
    } else {
      var left := remaining - Cost(levels[0]);
      var n := Visited(levels, remaining);
      assert n == 1 + Visited(levels[1..], left);
      forall i | 0 <= i < n - 1
        ensures lo <= levels[1..][i].price <= hi
      {
        assert levels[1..][i] == levels[i + 1];
      }
      FillBetween(levels[1..], left, lo, hi);
      var t := FillQty(levels[1..], left).value;
      assert FillQty(levels, remaining) == Some(q + t);
      CostBetween(levels[0], lo, hi);
      BetweenWhole(lo, hi, q, Cost(levels[0]), t, left);
    }
  }

  /**
   * A returned price lies between the lowest and the highest price of the
   * levels visited, and those levels alone give the same price.
   */
  lemma WeightedPriceWithinVisited(levels: seq<Level>, amount: real)
    requires WellFormed(levels) && amount > 0.0 && WeightedPrice(levels, amount).Some?
    ensures var n := Visited(levels, amount);
      WellFormed(levels[..n]) &&
      WeightedPrice(levels[..n], amount) == WeightedPrice(levels, amount) &&
      MinPrice(levels[..n]) <= WeightedPrice(levels, amount).value <= MaxPrice(levels[..n])
  {
    var n := Visited(levels, amount);
    VisitedPrefixSuffices(levels, amount);
    var lo, hi := MinPrice(levels[..n]), MaxPrice(levels[..n]);
    assert forall i :: 0 <= i < n ==> levels[i] == levels[..n][i];
    FillBetween(levels, amount, lo, hi);
    PriceBetween(lo, hi, FillQty(levels, amount).value, amount);
  }

  /** A level with zero quantity is passed over without changing the result. */
  lemma EmptyLevelSkipped(price: real, levels: seq<Level>, amount: real)
    requires price > 0.0 && WellFormed(levels) && amount > 0.0
    ensures WellFormed([Level(price, 0.0)] + levels)
    ensures WeightedPrice([Level(price, 0.0)] + levels, amount) == WeightedPrice(levels, amount)
  {
    assert ([Level(price, 0.0)] + levels)[1..] == levels;
  }

  /** When the best level alone covers the notional, the price is that level's price. */
  lemma BestLevelCovers(levels: seq<Level>, amount: real)
    requires WellFormed(levels) && amount > 0.0
    requires |levels| > 0 && Cost(levels[0]) >= amount
    ensures WeightedPrice(levels, amount) == Some(levels[0].price)
  {
    var p := levels[0].price;
    assert FillQty(levels, amount) == Some(amount / p);
    assert amount / (amount / p) == p;
  }

  /** Bids [[100, 1], [99, 2]] and 150 USD: the first level whole, then 50/99 of the second. */
  lemma TwoLevelExample()
    ensures WellFormed([Level(100.0, 1.0), Level(99.0, 2.0)])
    ensures FillQty([Level(100.0, 1.0), Level(99.0, 2.0)], 150.0) == Some(1.0 + 50.0 / 99.0)
    ensures WeightedPrice([Level(100.0, 1.0), Level(99.0, 2.0)], 150.0) == Some(150.0 * 99.0 / 149.0)
  {
    var levels := [Level(100.0, 1.0), Level(99.0, 2.0)];
    assert levels[1..] == [Level(99.0, 2.0)];
    assert levels[1..][1..] == [];
    assert FillQty(levels[1..], 50.0) == Some(50.0 / 99.0);
  }

  /** Asks [[101, 0.5]] cannot fill 100 USD: only 50.5 USD rest on the book. */
  lemma ThinBookExample()
    ensures WellFormed([Level(101.0, 0.5)])
    ensures WeightedPrice([Level(101.0, 0.5)], 100.0) == None
  {
    assert [Level(101.0, 0.5)][1..] == [];
  }
}
