/**
 * The price bands (price_bands/price_bands_publisher.cpp): the best prices
 * moved apart by offsets in basis points, with a cache of the last good pair.
 */
module PriceBands {
  import opened Arithmetic
  import opened Consolidate
  import opened Decimal
  import opened Levels
  import opened Options

  const TWO_126: nat := 0x4000_0000_0000_0000_0000_0000_0000_0000

  const BPS: nat := 10_000

  const TEN_THOUSAND: Int128 := 10_000_000_000_000_000_000_000

  /** adjustPrice, in the wide backend. */
  function AdjustPrice(price: Int128, offset: Int128, bid: bool): Outcome {
    match Divide(Wide, offset, TEN_THOUSAND)
    case Value(fraction) =>
      (match if bid then Subtract(SCALE, fraction) else Add(SCALE, fraction)
       case Value(factor) => Multiply(Wide, price, factor)
       case bad => bad)
    case bad => bad
  }

  // ----- the arithmetic --------------------------------------------------

  /** An offset from 0 to 10000 basis points. */
  predicate IsOffset(offset: int) { 0 <= offset <= TEN_THOUSAND }

  lemma ScaledQuotient(offset: nat, b: nat, s: nat)
    requires b > 0 && s > 0
    ensures b * s > 0 && (offset * s) / (b * s) == offset / b
  {
    MulPos(b, s);
    FloorBounds(offset, b);
    Distributes(Floor(offset, b), offset % b, s);
    Associates(offset / b, b, s);
    MulMonotone(offset % b + 1, b, s);
    Distributes(offset % b, 1, s);
    DivModUnique(offset * s, b * s, offset / b, (offset % b) * s);
  }

  /** The fraction is the offset divided by 10000, rounded down. */
  lemma FractionIs(offset: int)
    requires IsOffset(offset)
    ensures Divide(Wide, offset, TEN_THOUSAND) == Value(offset / BPS) && 0 <= offset / BPS <= SCALE
  {
    ScaledQuotient(offset, BPS, SCALE);
    assert BPS * SCALE == TEN_THOUSAND;
    QuotientGrows(offset, TEN_THOUSAND, BPS);
  }

  function Factor(offset: nat, bid: bool): int { if bid then SCALE - offset / BPS else SCALE + offset / BPS }

  /** price * factor, rounded down. */
  function Moved(price: nat, factor: nat): nat { Quotient(Product(price, factor), SCALE) }

  lemma MovedGrows(p: nat, k: nat, q: nat, l: nat)
    requires p <= q && k <= l
    ensures Moved(p, k) <= Moved(q, l)
  {
    MulMonotone(p, q, k);
    MulMonotone(k, l, q);
    QuotientGrows(Product(p, k), Product(q, l), SCALE);
  }

  lemma MovedByOne(p: nat)
    ensures Moved(p, SCALE) == p && Moved(p, 2 * SCALE) == 2 * p
  {
    ExactQuotient(p, SCALE);
    ExactQuotient(2 * p, SCALE);
    assert (2 * p) * SCALE == p * (2 * SCALE);
  }

  /** For prices from 0 to below 2^126 and offsets up to 10000 basis points every
      intermediate of adjustPrice fits: the products are below 2^256, and the
      results below 2^127. */
  lemma AdjustedIs(price: int, offset: int, bid: bool)
    requires 0 <= price < TWO_126 && IsOffset(offset)
    ensures 0 <= Factor(offset, bid) <= 2 * SCALE
    ensures Moved(price, Factor(offset, bid)) < TWO_127
    ensures AdjustPrice(price, offset, bid) == Value(Moved(price, Factor(offset, bid)))
  {
    FractionIs(offset);
    MovedGrows(price, Factor(offset, bid), price, 2 * SCALE);
    MovedByOne(price);
  }

  /** No product of the computation leaves the 256 bits of the wide backend. */
  lemma IntermediatesFit256Bits(price: int, offset: int, bid: bool)
    requires 0 <= price < TWO_126 && IsOffset(offset)
    ensures offset * SCALE < TWO_128 * TWO_128 && 0 <= Factor(offset, bid)
    ensures Product(price, Factor(offset, bid)) < TWO_128 * TWO_128
  {
    AdjustedIs(price, offset, bid);
    MulMonotone(price, TWO_126, Factor(offset, bid));
    MulMonotone(Factor(offset, bid), 2 * SCALE, TWO_126);
  }

  /** A band never narrows the spread. */
  lemma BandIsOrdered(bid: int, ask: int, offset: int)
    requires 0 <= bid < ask < TWO_126 && IsOffset(offset)
    ensures var (b, a) := (AdjustPrice(bid, offset, true), AdjustPrice(ask, offset, false));
      b.Value? && a.Value? && 0 <= b.raw <= bid < ask <= a.raw
  {
    AdjustedIs(bid, offset, true);
    AdjustedIs(ask, offset, false);
    FractionIs(offset);
    MovedByOne(bid);
    MovedByOne(ask);
    MovedGrows(bid, Factor(offset, true), bid, SCALE);
    MovedGrows(ask, SCALE, ask, Factor(offset, false));
  }

  /** A larger offset gives a band that contains the smaller one. */
  lemma BandWidens(price: int, small: int, large: int)
    requires 0 <= price < TWO_126 && IsOffset(small) && IsOffset(large) && small <= large
    ensures AdjustPrice(price, large, true).Value? && AdjustPrice(price, small, true).Value?
    ensures AdjustPrice(price, large, true).raw <= AdjustPrice(price, small, true).raw
    ensures AdjustPrice(price, large, false).Value? && AdjustPrice(price, small, false).Value?
    ensures AdjustPrice(price, small, false).raw <= AdjustPrice(price, large, false).raw
  {
    QuotientGrows(small, large, BPS);
    AdjustedIs(price, large, true);
    AdjustedIs(price, small, true);
    AdjustedIs(price, large, false);
    AdjustedIs(price, small, false);
    MovedGrows(price, Factor(large, true), price, Factor(small, true));
    MovedGrows(price, Factor(small, false), price, Factor(large, false));
  }

  // ----- how exact a band is ---------------------------------------------

  /** price * (1 -+ offset / 10000) in units of 10^-18 / 10000 / 10^18. */
  function ExactTimes(price: int, offset: int, bid: bool): int {
    price * (if bid then TEN_THOUSAND - offset else TEN_THOUSAND + offset)
  }

  /** The adjusted price is less than one unit of 10^-18 off the exact one. */
  ghost predicate WithinOneUnit(price: nat, offset: nat, bid: bool)
    requires IsOffset(offset)
  {
    FractionIs(offset);
    var error := Moved(price, Factor(offset, bid)) * TEN_THOUSAND - ExactTimes(price, offset, bid);
    -TEN_THOUSAND < error < TEN_THOUSAND
  }

  lemma Distribute(p: int, x: int, y: int)
    ensures p * (x - y) == p * x - p * y && p * (x + y) == p * x + p * y
  {
  }

  /** The error: the remainder of the offset counts once for every unit of
      price, and the final division loses up to one unit. */
  lemma ErrorIs(price: nat, offset: nat, bid: bool)
    requires IsOffset(offset)
    ensures 0 <= Factor(offset, bid)
    ensures Moved(price, Factor(offset, bid)) * TEN_THOUSAND - ExactTimes(price, offset, bid)
            == (if bid then price * (offset % BPS) else -(price * (offset % BPS)))
               - BPS * (Product(price, Factor(offset, bid)) % SCALE)
  {
    FractionIs(offset);
    var k, r := Factor(offset, bid), offset % BPS;
    FloorBounds(Product(price, k), SCALE);
    assert offset == BPS * (offset / BPS) + r;
    assert if bid then BPS * k == TEN_THOUSAND - offset + r else BPS * k == TEN_THOUSAND + offset - r;
    var sum := if bid then TEN_THOUSAND - offset else TEN_THOUSAND + offset;
    assert BPS * k == if bid then sum + r else sum - r;
    Distribute(price, sum, r);
    assert BPS * (price * k) == price * (BPS * k);
  }

  /** The code rounds the offset to 10^-14 basis points before it multiplies,
      so an adjusted price is within one unit of the exact one, whatever the
      price, just when the offset has no more decimals than that.  A caller can
      check it. */
  lemma WithinOneUnitIff(offset: nat, bid: bool)
    requires IsOffset(offset)
    ensures (forall price: nat :: price < TWO_126 ==> WithinOneUnit(price, offset, bid)) <==> offset % BPS == 0
  {
    if offset % BPS == 0 {
      forall price: nat | price < TWO_126 ensures WithinOneUnit(price, offset, bid) { ErrorIs(price, offset, bid); }
    } else {
      var price := 2 * TEN_THOUSAND;
      ErrorIs(price, offset, bid);
      MulMonotone(1, offset % BPS, price);
      assert !WithinOneUnit(price, offset, bid);
    }
  }

  /** So are all bands of a whole number of basis points, which all default
      offsets are. */
  lemma WholeBasisPointsWithinOneUnit(n: nat, price: nat, bid: bool)
    requires n <= 10_000 && price < TWO_126
    ensures IsOffset(n * SCALE) && WithinOneUnit(price, n * SCALE, bid)
  {
    assert n * SCALE == (n * 100_000_000_000_000) * BPS;
    ExactQuotient(n * 100_000_000_000_000, BPS);
    WithinOneUnitIff(n * SCALE, bid);
  }

  // ----- the calculator --------------------------------------------------

  datatype BandQuote = BandQuote(offset: Int128, bid: Outcome, ask: Outcome)

  type Pair = (PriceLevel, PriceLevel)

  ghost predicate Storable(v: View) {
    && Fits(v.bestBid.price) && Fits(v.bestAsk.price)
    && (v.bids != [] ==> Fits(v.bids[0].price)) && (v.asks != [] ==> Fits(v.asks[0].price))
  }

  /** The quote, or the first level when the quote is empty. */
  function Effective(quote: PriceLevel, levels: seq<PriceLevel>): PriceLevel {
    if quote.quantity <= 0 && levels != [] then levels[0] else quote
  }

  predicate Live(bid: PriceLevel, ask: PriceLevel) { bid.quantity > 0 && ask.quantity > 0 && ask.price > bid.price }

  /** The pair the bands rest on after a view: a live one replaces the last. */
  function Refreshed(cache: Option<Pair>, v: View): Option<Pair> {
    var bid, ask := Effective(v.bestBid, v.bids), Effective(v.bestAsk, v.asks);
    if Live(bid, ask) then Some((bid, ask)) else cache
  }

  function Bands(offsets: seq<Int128>, bid: Int128, ask: Int128): seq<BandQuote> {
    if offsets == [] then []
    else
      var offset := offsets[|offsets| - 1];
      Bands(offsets[..|offsets| - 1], bid, ask)
      + [BandQuote(offset, AdjustPrice(bid, offset, true), AdjustPrice(ask, offset, false))]
  }

  class PriceBandsCalculator {
    const offsets: seq<Int128>
    var cachedBestBid: PriceLevel
    var cachedBestAsk: PriceLevel
    var haveCachedBest: bool

    function Cache(): Option<Pair>
      reads this
    {
      if haveCachedBest then Some((cachedBestBid, cachedBestAsk)) else None
    }

    constructor (offsets: seq<Int128>)
      ensures this.offsets == offsets && Cache() == None
    {
      this.offsets := offsets;
      cachedBestBid, cachedBestAsk, haveCachedBest := PriceLevel(0, 0), PriceLevel(0, 0), false;
    }

    /** No quotes before the first live pair; afterwards one per offset. */
    method Compute(view: View) returns (quotes: seq<BandQuote>)
      requires Storable(view) && (Cache().Some? ==> Fits(Cache().value.0.price) && Fits(Cache().value.1.price))
      modifies this`cachedBestBid, this`cachedBestAsk, this`haveCachedBest
      ensures Cache() == Refreshed(old(Cache()), view)
      ensures Cache().Some? ==> Fits(Cache().value.0.price) && Fits(Cache().value.1.price)
      ensures quotes == if Cache().None? then [] else Bands(offsets, Cache().value.0.price, Cache().value.1.price)
    {
      var bestBid, bestAsk := view.bestBid, view.bestAsk;
      if bestBid.quantity <= 0 && view.bids != [] { bestBid := view.bids[0]; }
      if bestAsk.quantity <= 0 && view.asks != [] { bestAsk := view.asks[0]; }
      if bestBid.quantity > 0 && bestAsk.quantity > 0 && bestAsk.price > bestBid.price {
        cachedBestBid, cachedBestAsk, haveCachedBest := bestBid, bestAsk, true;
      } else if haveCachedBest {
        bestBid, bestAsk := cachedBestBid, cachedBestAsk;
      } else {
        return [];
      }
      quotes := [];
      for i := 0 to |offsets|
        invariant quotes == Bands(offsets[..i], bestBid.price, bestAsk.price)
      {
        assert offsets[..i + 1][..i] == offsets[..i];
        var bidPrice := AdjustPrice(bestBid.price, offsets[i], true);
        var askPrice := AdjustPrice(bestAsk.price, offsets[i], false);
        quotes := quotes + [BandQuote(offsets[i], bidPrice, askPrice)];
      }
      assert offsets[..|offsets|] == offsets;
    }
  }

  function RunCache(cache: Option<Pair>, views: seq<View>): Option<Pair>
    decreases |views|
  {
    if views == [] then cache else RunCache(Refreshed(cache, views[0]), views[1..])
  }

  /** A cached pair is never crossed, and in range. */
  ghost predicate GoodPair(cache: Option<Pair>) {
    cache.Some? ==> 0 <= cache.value.0.price < cache.value.1.price < TWO_126
                    && cache.value.0.quantity > 0 && cache.value.1.quantity > 0
  }

  ghost predicate InRange(v: View) {
    && 0 <= v.bestBid.price < TWO_126 && 0 <= v.bestAsk.price < TWO_126
    && (v.bids != [] ==> 0 <= v.bids[0].price < TWO_126) && (v.asks != [] ==> 0 <= v.asks[0].price < TWO_126)
  }

  lemma {:induction false} RunKeepsGoodPair(cache: Option<Pair>, views: seq<View>)
    requires GoodPair(cache) && forall i :: 0 <= i < |views| ==> InRange(views[i])
    ensures GoodPair(RunCache(cache, views))
    decreases |views|
  {
    if views != [] { RunKeepsGoodPair(Refreshed(cache, views[0]), views[1..]); }
  }

  lemma {:induction false} BandsAt(offsets: seq<Int128>, bid: Int128, ask: Int128, i: nat)
    requires i < |offsets|
    ensures |Bands(offsets, bid, ask)| == |offsets|
    ensures Bands(offsets, bid, ask)[i]
            == BandQuote(offsets[i], AdjustPrice(bid, offsets[i], true), AdjustPrice(ask, offsets[i], false))
  {
    var n := |offsets| - 1;
    if n > 0 { BandsAt(offsets[..n], bid, ask, if i < n then i else 0); }
  }

  /** Over any sequence of views, crossed and one-sided ones included, every
      quote that is published contains the pair it rests on, and that pair is
      not crossed. */
  lemma RunBandsAreOrdered(views: seq<View>, offsets: seq<Int128>, i: nat)
    requires forall j :: 0 <= j < |views| ==> InRange(views[j])
    requires i < |offsets| && IsOffset(offsets[i]) && RunCache(None, views).Some?
    ensures var (bid, ask) := RunCache(None, views).value;
      && Fits(bid.price) && Fits(ask.price) && bid.price < ask.price
      && |Bands(offsets, bid.price, ask.price)| == |offsets|
      && var q := Bands(offsets, bid.price, ask.price)[i];
         q.bid.Value? && q.ask.Value? && 0 <= q.bid.raw <= bid.price < ask.price <= q.ask.raw
  {
    RunKeepsGoodPair(None, views);
    var (bid, ask) := RunCache(None, views).value;
    BandsAt(offsets, bid.price, ask.price, i);
    BandIsOrdered(bid.price, ask.price, offsets[i]);
  }

  // ----- which pair the bands rest on ------------------------------------

  /** The view shows the level on this side: as its quote, or at the front of its
      levels when the quote is empty. */
  predicate IsShown(quote: PriceLevel, levels: seq<PriceLevel>, l: PriceLevel) {
    if quote.quantity > 0 then l == quote else levels != [] && l == levels[0]
  }

  /** The view shows bid and ask, both of something, and bid below ask. */
  predicate ShowsPair(v: View, bid: PriceLevel, ask: PriceLevel) {
    && IsShown(v.bestBid, v.bids, bid) && IsShown(v.bestAsk, v.asks, ask)
    && bid.quantity > 0 && ask.quantity > 0 && bid.price < ask.price
  }

  ghost predicate ShowsNoPair(v: View) { forall bid, ask :: !ShowsPair(v, bid, ask) }

  lemma RefreshedBy(cache: Option<Pair>, v: View)
    ensures ShowsNoPair(v) ==> Refreshed(cache, v) == cache
    ensures !ShowsNoPair(v) ==> exists bid, ask :: ShowsPair(v, bid, ask) && Refreshed(cache, v) == Some((bid, ask))
  {
    var bid, ask := Effective(v.bestBid, v.bids), Effective(v.bestAsk, v.asks);
    if Live(bid, ask) { assert ShowsPair(v, bid, ask); }
  }

  ghost predicate NoPairs(views: seq<View>) { forall v :: v in views ==> ShowsNoPair(v) }

  /** View j shows the pair, and no later view shows any. */
  ghost predicate LastPairAt(views: seq<View>, j: nat, bid: PriceLevel, ask: PriceLevel) {
    j < |views| && ShowsPair(views[j], bid, ask) && NoPairs(views[j + 1..])
  }

  /** After any sequence of views, crossed, empty and one-sided ones included, the
      bands rest on the pair that the last view with a pair showed, and on none
      exactly when no view showed one. */
  lemma {:induction false} BandsRestOnLastPair(cache: Option<Pair>, views: seq<View>)
    ensures NoPairs(views) ==> RunCache(cache, views) == cache
    ensures !NoPairs(views) ==>
      exists j: nat, bid, ask :: LastPairAt(views, j, bid, ask) && RunCache(cache, views) == Some((bid, ask))
    decreases |views|
  {
    if views != [] {
      var cache' := Refreshed(cache, views[0]);
      RefreshedBy(cache, views[0]);
      BandsRestOnLastPair(cache', views[1..]);
      if !NoPairs(views[1..]) {
        var j: nat, bid, ask :| LastPairAt(views[1..], j, bid, ask) && RunCache(cache', views[1..]) == Some((bid, ask));
        assert views[1..][j + 1..] == views[j + 2..];
        assert LastPairAt(views, j + 1, bid, ask);
      } else if !ShowsNoPair(views[0]) {
        var bid, ask :| ShowsPair(views[0], bid, ask) && cache' == Some((bid, ask));
        assert LastPairAt(views, 0, bid, ask);
      }
    }
  }
}
