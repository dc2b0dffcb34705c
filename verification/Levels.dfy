/**
 * Price levels (common/events.hpp) and what the trading code assumes of a side
 * of a book: strictly ordered from the best price on, all quantities positive.
 * Prices and quantities are raw fixed-point integers.
 */
module Levels {
  datatype Side = Bid | Ask

  datatype PriceLevel = PriceLevel(price: int, quantity: int)

  function Invert(side: Side): Side { if side.Bid? then Ask else Bid }

  /** Price p is better than q for the other side of the market. */
  predicate Better(side: Side, p: int, q: int) { if side.Bid? then p > q else p < q }

  predicate AtLeastAsGood(side: Side, p: int, q: int) { p == q || Better(side, p, q) }

  ghost predicate Sorted(side: Side, levels: seq<PriceLevel>) {
    forall i, j :: 0 <= i < j < |levels| ==> Better(side, levels[i].price, levels[j].price)
  }

  ghost predicate Positive(levels: seq<PriceLevel>) {
    forall i :: 0 <= i < |levels| ==> levels[i].quantity > 0
  }

  /** A side of a book as the aggregator keeps it. */
  ghost predicate ValidSide(side: Side, levels: seq<PriceLevel>) { Sorted(side, levels) && Positive(levels) }

  /** No bid reaches an ask. */
  predicate Uncrossed(bids: seq<PriceLevel>, asks: seq<PriceLevel>) {
    |bids| > 0 && |asks| > 0 ==> bids[0].price < asks[0].price
  }

  /** p is the best of the prices of a side. */
  predicate IsBest(side: Side, prices: set<int>, p: int) {
    p in prices && forall q :: q in prices ==> AtLeastAsGood(side, p, q)
  }

  lemma Member<T>(s: set<T>) returns (x: T)
    requires s != {}
    ensures x in s
  {
    x :| x in s;
  }

  lemma {:induction false} BestExists(side: Side, prices: set<int>)
    requires prices != {}
    ensures exists p :: IsBest(side, prices, p)
  {
    var x := Member(prices);
    var rest := prices - {x};
    if rest == {} {
      assert prices == {x} && IsBest(side, prices, x);
    } else {
      BestExists(side, rest);
      var p :| IsBest(side, rest, p);
      assert forall q :: q in prices ==> q == x || q in rest;
      assert IsBest(side, prices, if Better(side, x, p) then x else p);
    }
  }
}
