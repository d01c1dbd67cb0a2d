/**
 * Order books as the bots read them: the `bids` and `asks` entries of the
 * dictionary ccxt's `fetch_order_book` delivers, each a list of
 * `[price, qty]` entries, best first. The dictionary's other entries
 * (`symbol`, `timestamp`, `datetime`, `nonce`) are not represented.
 */
module Books {
  import opened Wrappers

  /** The two keys of an order-book dictionary that the bots read; the only keys a book holds here. */
  datatype Side = Bids | Asks

  /** One `[price, qty]` entry of a side. */
  datatype Level = Level(price: real, qty: real)

  /** The USD notional of a level: `price * qty`. */
  function Cost(l: Level): (c: real)
    ensures l.price > 0.0 && l.qty >= 0.0 ==> c >= 0.0
    ensures l.qty == 0.0 ==> c == 0.0
  {
    l.price * l.qty
  }

  /** An order book as a value: each side present in the dictionary maps to its levels. */
  type BookValue = map<Side, seq<Level>>

  /** An order book as the running bot holds it: each side is a list it can overwrite in place. */
  type OrderBook = map<Side, array<Level>>

  /** Levels as exchanges publish them: positive prices, non-negative quantities. */
  predicate WellFormed(levels: seq<Level>) {
    forall i :: 0 <= i < |levels| ==> levels[i].price > 0.0 && levels[i].qty >= 0.0
  }

  predicate WellFormedBook(b: BookValue) {
    forall s :: s in b ==> WellFormed(b[s])
  }

  /** A fetched book, or `None` when the fetch failed; a present book is well formed. */
  predicate WellFormedSnapshot(b: Option<BookValue>) {
    b.Some? ==> WellFormedBook(b.value)
  }

  /** The lists of a held book, or none for a failed fetch. */
  function Arrays(b: Option<OrderBook>): set<array<Level>> {
    if b.Some? then b.value.Values else {}
  }

  /** The current contents of the lists of a held book. */
  ghost function Contents(b: OrderBook): (v: BookValue)
    reads b.Values
    ensures v.Keys == b.Keys
  {
    map s | s in b :: b[s][..]
  }

  /** A held book whose lists were not written to still holds what it held. */
  twostate lemma ContentsUnchanged(b: OrderBook)
    requires unchanged(b.Values)
    ensures Contents(b) == old(Contents(b))
  {
  }

  /** The current contents of a held book, or `None` for a failed fetch. */
  ghost function Snap(b: Option<OrderBook>): (v: Option<BookValue>)
    reads Arrays(b)
    ensures v.Some? <==> b.Some?
    ensures b.Some? ==> v.value.Keys == b.value.Keys
    ensures WellFormedSnapshot(v) <==> WellFormedOrderBook(b)
  {
    if b.Some? then Some(Contents(b.value)) else None
  }

  ghost predicate WellFormedOrderBook(b: Option<OrderBook>)
    reads Arrays(b)
  {
    b.Some? ==> forall s :: s in b.value ==> WellFormed(b.value[s][..])
  }
}
