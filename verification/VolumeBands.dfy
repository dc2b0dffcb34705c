/**
 * The volume bands (volume_bands/volume_bands_publisher.cpp): per side, the
 * price at which the accumulated notional first reaches a threshold.
 */
module VolumeBands {
  import opened Arithmetic
  import opened Consolidate
  import opened Decimal
  import opened Levels
  import opened OrderBook

  const TWO_64: int := 0x1_0000_0000_0000_0000

  type Level = l: PriceLevel | Fits(l.price) && Fits(l.quantity) witness PriceLevel(0, 0)

  /** A price, 0 when the threshold is not reached; or the running sum left the
      128 bit range. */
  datatype Found = Price(price: Int128) | OutOfRange

  /** The running sum over the first k levels, in the wide backend. */
  function Accumulated(levels: seq<Level>, k: nat): Outcome
    requires k <= |levels|
  {
    if k == 0 then Value(0)
    else
      match Accumulated(levels, k - 1)
      case Value(sum) =>
        (match Multiply(Wide, levels[k - 1].price, levels[k - 1].quantity)
         case Value(notional) => Add(sum, notional)
         case bad => bad)
      case bad => bad
  }

  /** With level k the sum reaches the threshold, or cannot be represented. */
  ghost predicate Stops(levels: seq<Level>, threshold: Int128, k: nat) {
    k < |levels| && (Accumulated(levels, k + 1).Value? ==> Accumulated(levels, k + 1).raw >= threshold)
  }

  ghost predicate StopsFirst(levels: seq<Level>, threshold: Int128, k: nat) {
    Stops(levels, threshold, k) && forall i: nat :: i < k ==> !Stops(levels, threshold, i)
  }

  /** The answer is the price of the first level that stops the sum. */
  ghost predicate Answers(levels: seq<Level>, threshold: Int128, found: Found) {
    && ((forall k: nat :: !Stops(levels, threshold, k)) ==> found == Price(0))
    && forall k: nat :: StopsFirst(levels, threshold, k) ==>
      found == if Accumulated(levels, k + 1).Value? then Price(levels[k].price) else OutOfRange
  }

  method FindPriceForThreshold(levels: seq<Level>, threshold: Int128) returns (found: Found)
    ensures Answers(levels, threshold, found)
  {
    var accumulated: Int128 := 0;
    for i := 0 to |levels|
      invariant Accumulated(levels, i) == Value(accumulated)
      invariant forall k: nat :: k < i ==> !Stops(levels, threshold, k)
    {
      var notional := Multiply(Wide, levels[i].price, levels[i].quantity);
      var sum := if notional.Value? then Add(accumulated, notional.raw) else notional;
      if !sum.Value? {
        assert StopsFirst(levels, threshold, i);
        return OutOfRange;
      }
      accumulated := sum.raw;
      if accumulated >= threshold {
        assert StopsFirst(levels, threshold, i);
        return Price(levels[i].price);
      }
    }
    return Price(0);
  }

  /** The levels of a side, or its best quote when it has none. */
  function Normalized(levels: seq<PriceLevel>, quote: PriceLevel): seq<PriceLevel> {
    if levels != [] then levels else if quote.quantity > 0 then [quote] else []
  }

  /** Consolidated views head each side by its first level, or by zeros, so their
      bands rest on exactly the levels that the view shows. */
  lemma BandsOfConsolidated(books: seq<Ladder>, valid: bool, last: PriceLevel,
                            bids: seq<PriceLevel>, asks: seq<PriceLevel>, m: int, v: View)
    requires Shows(books, valid, last, bids, asks, m, v)
    ensures Normalized(v.bids, v.bestBid) == v.bids && Normalized(v.asks, v.bestAsk) == v.asks
  {
    BidsAreShown(books, valid, last, bids, asks, m, v);
    AsksAreShown(books, valid, last, bids, asks, m, v);
  }

  /** A view without levels on a side is banded on its quote there, if that is of
      something. */
  lemma BandsOfQuote(quote: PriceLevel, levels: seq<PriceLevel>)
    ensures |Normalized(levels, quote)| == if levels == [] && quote.quantity > 0 then 1 else |levels|
    ensures forall i :: 0 <= i < |Normalized(levels, quote)| ==>
      Normalized(levels, quote)[i] == if levels == [] then quote else levels[i]
  {
  }

  ghost predicate Storable(levels: seq<PriceLevel>) {
    forall i :: 0 <= i < |levels| ==> Fits(levels[i].price) && Fits(levels[i].quantity)
  }

  datatype VolumeQuote = VolumeQuote(threshold: Int128, bid: Found, ask: Found)

  class VolumeBandsCalculator {
    const thresholds: seq<Int128>

    constructor (thresholds: seq<Int128>)
      ensures this.thresholds == thresholds
    {
      this.thresholds := thresholds;
    }

    method NormalizeLevels(levels: seq<PriceLevel>, quote: PriceLevel) returns (scratch: seq<PriceLevel>)
      ensures scratch == Normalized(levels, quote)
    {
      if levels != [] { return levels; }
      scratch := [];
      if quote.quantity > 0 { scratch := scratch + [quote]; }
    }

    method Compute(view: View) returns (quotes: seq<VolumeQuote>)
      requires Storable(Normalized(view.bids, view.bestBid)) && Storable(Normalized(view.asks, view.bestAsk))
      ensures |quotes| == |thresholds|
      ensures forall i :: 0 <= i < |thresholds| ==>
        && quotes[i].threshold == thresholds[i]
        && Answers(Normalized(view.bids, view.bestBid), thresholds[i], quotes[i].bid)
        && Answers(Normalized(view.asks, view.bestAsk), thresholds[i], quotes[i].ask)
    {
      var bidLevels := NormalizeLevels(view.bids, view.bestBid);
      var askLevels := NormalizeLevels(view.asks, view.bestAsk);
      quotes := [];
      for i := 0 to |thresholds|
        invariant |quotes| == i
        invariant forall j :: 0 <= j < i ==>
          && quotes[j].threshold == thresholds[j]
          && Answers(bidLevels, thresholds[j], quotes[j].bid)
          && Answers(askLevels, thresholds[j], quotes[j].ask)
      {
        var bid := FindPriceForThreshold(bidLevels, thresholds[i]);
        var ask := FindPriceForThreshold(askLevels, thresholds[i]);
        quotes := quotes + [VolumeQuote(thresholds[i], bid, ask)];
      }
    }
  }

  // ----- 0 and "not reached" ----------------------------------------------

  lemma {:induction false} FirstStop(levels: seq<Level>, threshold: Int128, k: nat) returns (j: nat)
    requires Stops(levels, threshold, k)
    ensures StopsFirst(levels, threshold, j)
  {
    if StopsFirst(levels, threshold, k) {
      j := k;
    } else {
      var i: nat :| i < k && Stops(levels, threshold, i);
      j := FirstStop(levels, threshold, i);
    }
  }

  /** A level of price 0 adds nothing, or cannot be multiplied at all. */
  lemma FreeLevelAddsNothing(levels: seq<Level>, k: nat)
    requires k < |levels| && levels[k].price == 0 && Accumulated(levels, k + 1).Value?
    ensures Accumulated(levels, k + 1) == Accumulated(levels, k)
  {
    assert Multiply(Wide, 0, levels[k].quantity).Value? ==> Multiply(Wide, 0, levels[k].quantity) == Value(0);
  }

  /** So it is not where a sum first reaches a positive threshold. */
  lemma FreeLevelReachesNothing(levels: seq<Level>, threshold: Int128, k: nat)
    requires threshold > 0 && StopsFirst(levels, threshold, k) && Accumulated(levels, k + 1).Value?
    ensures levels[k].price != 0
  {
    if k > 0 { assert !Stops(levels, threshold, k - 1); }
    if levels[k].price == 0 { FreeLevelAddsNothing(levels, k); }
  }

  /** For a positive threshold the answer 0 means "not reached", whatever the
      prices, the quantities and the size of the sums. */
  lemma ZeroMeansUnreached(levels: seq<Level>, threshold: Int128, found: Found)
    requires threshold > 0 && Answers(levels, threshold, found)
    ensures found == Price(0) <==> forall k: nat :: !Stops(levels, threshold, k)
  {
    if k: nat :| Stops(levels, threshold, k) {
      var j := FirstStop(levels, threshold, k);
      if Accumulated(levels, j + 1).Value? { FreeLevelReachesNothing(levels, threshold, j); }
    }
  }

  /** A threshold that is not positive is reached by the first level, and when
      that level is free the answer is 0 all the same. */
  lemma FreeLevelReachesZero(threshold: Int128)
    requires threshold <= 0
    ensures Stops([PriceLevel(0, 1)], threshold, 0)
    ensures Answers([PriceLevel(0, 1)], threshold, Price(0))
  {
    var levels: seq<Level> := [PriceLevel(0, 1)];
    assert Accumulated(levels, 0) == Value(0) && Accumulated(levels, 1) == Value(0);
    assert forall k: nat :: Stops(levels, threshold, k) ==> k == 0;
    assert StopsFirst(levels, threshold, 0);
  }

  /** The reading of 0 as "not reached" is sound for exactly the positive
      thresholds. */
  lemma ZeroMeansUnreachedIff(threshold: Int128)
    ensures (forall levels: seq<Level>, found: Found | Answers(levels, threshold, found) ::
               found == Price(0) <==> forall k: nat :: !Stops(levels, threshold, k))
            <==> threshold > 0
  {
    if threshold > 0 {
      forall levels: seq<Level>, found: Found | Answers(levels, threshold, found)
        ensures found == Price(0) <==> forall k: nat :: !Stops(levels, threshold, k)
      {
        ZeroMeansUnreached(levels, threshold, found);
      }
    } else {
      FreeLevelReachesZero(threshold);
      var levels: seq<Level> := [PriceLevel(0, 1)];
      assert Answers(levels, threshold, Price(0)) && Stops(levels, threshold, 0);
    }
  }

  // ----- larger thresholds ------------------------------------------------

  lemma {:induction false} ValuesBefore(levels: seq<Level>, i: nat, j: nat)
    requires i <= j <= |levels| && Accumulated(levels, j).Value?
    ensures Accumulated(levels, i).Value?
    decreases j - i
  {
    if i < j { ValuesBefore(levels, i, j - 1); }
  }

  /** What stops the sum of a larger threshold stops that of a smaller one no
      later, and with a price if the larger one finds a price. */
  lemma StopsEarlier(levels: seq<Level>, small: Int128, large: Int128, i: nat, j: nat)
    requires small <= large && StopsFirst(levels, small, i) && StopsFirst(levels, large, j)
    ensures i <= j
    ensures Accumulated(levels, j + 1).Value? ==> Accumulated(levels, i + 1).Value?
  {
    assert Stops(levels, small, j);
    if Accumulated(levels, j + 1).Value? { ValuesBefore(levels, i + 1, j + 1); }
  }

  /** Best price first, perhaps with several levels at one price. */
  ghost predicate Ordered(side: Side, levels: seq<PriceLevel>) {
    forall i, j :: 0 <= i < j < |levels| ==> AtLeastAsGood(side, levels[i].price, levels[j].price)
  }

  /** On any ordered side a larger threshold is never reached where a smaller one
      is not, and never finds a better price. */
  lemma PricesNeverImprove(side: Side, levels: seq<Level>, small: Int128, large: Int128, f: Found, g: Found)
    requires Ordered(side, levels) && small <= large
    requires Answers(levels, small, f) && Answers(levels, large, g)
    ensures (exists k: nat :: Stops(levels, large, k)) ==> exists k: nat :: Stops(levels, small, k)
    ensures (exists k: nat :: Stops(levels, large, k)) && g.Price? ==> f.Price? && AtLeastAsGood(side, f.price, g.price)
  {
    if k: nat :| Stops(levels, large, k) {
      assert Stops(levels, small, k);
      var i := FirstStop(levels, small, k);
      var j := FirstStop(levels, large, k);
      StopsEarlier(levels, small, large, i, j);
    }
  }

  // ----- the exact totals -------------------------------------------------

  /** The exact notional of a level, rounded toward zero to a unit. */
  function Notional(l: Level): int {
    Signed(Quotient(Product(Abs(l.price), Abs(l.quantity)), SCALE), (l.price < 0) != (l.quantity < 0))
  }

  function Total(levels: seq<Level>, k: nat): int
    requires k <= |levels|
  {
    if k == 0 then 0 else Total(levels, k - 1) + Notional(levels[k - 1])
  }

  /** The level's product can be computed. */
  predicate Countable(l: Level) { l.price != -TWO_127 && l.quantity != -TWO_127 && Abs(Notional(l)) < TWO_127 }

  /** What is added for a level is its notional exactly then. */
  lemma ProductIsNotionalIff(l: Level)
    ensures Countable(l) <==> Fits(Notional(l)) && Multiply(Wide, l.price, l.quantity) == Value(Notional(l))
  {
    NarrowingExactIff(Quotient(Product(Abs(l.price), Abs(l.quantity)), SCALE), (l.price < 0) != (l.quantity < 0));
  }

  /** The exact totals of the first k levels stay in range and below the
      threshold. */
  ghost predicate Continues(levels: seq<Level>, threshold: Int128, k: nat) {
    k <= |levels| && forall i :: 0 < i <= k ==> Fits(Total(levels, i)) && Total(levels, i) < threshold
  }

  /** Every level the loop looks at is countable. */
  ghost predicate AllCountable(levels: seq<Level>, threshold: Int128) {
    forall k: nat :: k < |levels| && Continues(levels, threshold, k) ==> Countable(levels[k])
  }

  /** The running sum is the exact total, up to and including the level where the
      loop stops. */
  lemma {:induction false} AccumulatedIsTotal(levels: seq<Level>, threshold: Int128, k: nat)
    requires AllCountable(levels, threshold) && k <= |levels| && (k > 0 ==> Continues(levels, threshold, k - 1))
    ensures Accumulated(levels, k) == ToOutcome(Total(levels, k))
  {
    if k > 0 {
      AccumulatedIsTotal(levels, threshold, k - 1);
      ProductIsNotionalIff(levels[k - 1]);
    }
  }

  /** With level k the total first reaches the threshold or leaves the range. */
  ghost predicate Reaches(levels: seq<Level>, threshold: Int128, k: nat) {
    k < |levels| && Continues(levels, threshold, k) && !Continues(levels, threshold, k + 1)
  }

  /** A sum that leaves the range stops the loop as well. */
  lemma OutcomeStops(total: int, threshold: Int128)
    ensures (ToOutcome(total).Value? ==> ToOutcome(total).raw >= threshold) <==> !Fits(total) || total >= threshold
  {
  }

  lemma StopsIff(levels: seq<Level>, threshold: Int128, k: nat)
    requires AllCountable(levels, threshold) && Continues(levels, threshold, k)
    ensures Stops(levels, threshold, k) <==> Reaches(levels, threshold, k)
  {
    if k < |levels| {
      AccumulatedIsTotal(levels, threshold, k + 1);
      OutcomeStops(Total(levels, k + 1), threshold);
    }
  }

  /** The loop stops where the exact total says. */
  lemma ReachesStopsFirst(levels: seq<Level>, threshold: Int128, k: nat)
    requires AllCountable(levels, threshold) && Reaches(levels, threshold, k)
    ensures StopsFirst(levels, threshold, k)
  {
    StopsIff(levels, threshold, k);
    forall i: nat | i < k ensures !Stops(levels, threshold, i) { StopsIff(levels, threshold, i); }
  }

  lemma {:induction false} SomeReaches(levels: seq<Level>, threshold: Int128, k: nat) returns (j: nat)
    requires k <= |levels| && !Continues(levels, threshold, k)
    ensures Reaches(levels, threshold, j)
  {
    if k > 0 && Continues(levels, threshold, k - 1) { j := k - 1; } else { j := SomeReaches(levels, threshold, k - 1); }
  }

  lemma AnswerAt(levels: seq<Level>, threshold: Int128, found: Found) returns (k: nat)
    requires AllCountable(levels, threshold) && Answers(levels, threshold, found)
    requires !Continues(levels, threshold, |levels|)
    ensures Reaches(levels, threshold, k)
    ensures found == if Fits(Total(levels, k + 1)) then Price(levels[k].price) else OutOfRange
  {
    k := SomeReaches(levels, threshold, |levels|);
    ReachesStopsFirst(levels, threshold, k);
    AccumulatedIsTotal(levels, threshold, k + 1);
  }

  /** The answer in exact terms, for prices and quantities of any sign: 0 when no
      total reaches the threshold or leaves the range; otherwise the price of the
      level with which the exact total first reaches it, unless that total is the
      first out of range. */
  lemma AnswerMeans(levels: seq<Level>, threshold: Int128, found: Found)
    requires AllCountable(levels, threshold) && Answers(levels, threshold, found)
    ensures Continues(levels, threshold, |levels|) ==> found == Price(0)
    ensures !Continues(levels, threshold, |levels|) ==>
      exists k: nat :: Reaches(levels, threshold, k)
                       && found == if Fits(Total(levels, k + 1)) then Price(levels[k].price) else OutOfRange
  {
    if Continues(levels, threshold, |levels|) {
      forall k: nat ensures !Stops(levels, threshold, k) {
        if k < |levels| { StopsIff(levels, threshold, k); }
      }
    } else {
      var k := AnswerAt(levels, threshold, found);
    }
  }

  /** No negative price, no negative quantity. */
  ghost predicate NonNegative(levels: seq<PriceLevel>) {
    forall i :: 0 <= i < |levels| ==> levels[i].price >= 0 && levels[i].quantity >= 0
  }

  lemma {:induction false} TotalGrows(levels: seq<Level>, j: nat, k: nat)
    requires NonNegative(levels) && j <= k <= |levels|
    ensures 0 <= Total(levels, j) <= Total(levels, k)
    decreases k
  {
    if j < k { TotalGrows(levels, j, k - 1); }
    else if k > 0 { TotalGrows(levels, k - 1, k - 1); }
  }

  /** On a side without negative numbers the total only grows, so it is enough to
      look at the whole side. */
  lemma WholeSideDecides(levels: seq<Level>, threshold: Int128)
    requires NonNegative(levels)
    ensures Continues(levels, threshold, |levels|) <==> levels == [] || Total(levels, |levels|) < threshold
  {
    forall i | 0 < i <= |levels| ensures 0 <= Total(levels, i) <= Total(levels, |levels|) {
      TotalGrows(levels, i, |levels|);
    }
  }

  lemma ReachedBySide(levels: seq<Level>, threshold: Int128, k: nat)
    requires NonNegative(levels) && Reaches(levels, threshold, k)
    ensures Total(levels, k + 1) >= threshold && (Fits(Total(levels, k + 1)) <==> Total(levels, k + 1) < TWO_127)
  {
    TotalGrows(levels, k + 1, k + 1);
  }

  /** Then 0 says that the whole side is worth less than the threshold. */
  lemma AnswerOfSide(levels: seq<Level>, threshold: Int128, found: Found)
    requires NonNegative(levels) && AllCountable(levels, threshold) && Answers(levels, threshold, found)
    ensures levels == [] || Total(levels, |levels|) < threshold ==> found == Price(0)
    ensures levels != [] && Total(levels, |levels|) >= threshold ==>
      exists k: nat :: Reaches(levels, threshold, k) && Total(levels, k + 1) >= threshold
                       && found == if Total(levels, k + 1) < TWO_127 then Price(levels[k].price) else OutOfRange
  {
    WholeSideDecides(levels, threshold);
    if Continues(levels, threshold, |levels|) {
      AnswerMeans(levels, threshold, found);
    } else {
      var k := AnswerAt(levels, threshold, found);
      ReachedBySide(levels, threshold, k);
    }
  }

  /** A level beyond that: its notional 2^128 wraps to nothing, and a threshold of
      one unit counts as not reached. */
  lemma HugeLevelCountsAsNothing()
    ensures Answers([PriceLevel(TWO_64 * SCALE, TWO_64 * SCALE)], 1, Price(0))
  {
    var l: Level := PriceLevel(TWO_64 * SCALE, TWO_64 * SCALE);
    var levels: seq<Level> := [l];
    assert Notional(l) == TWO_128 * SCALE;
    Low128OfMultiple(SCALE);
    assert Multiply(Wide, l.price, l.quantity) == Value(0);
    assert Accumulated(levels, 0) == Value(0) && Accumulated(levels, 1) == Value(0);
    assert forall k: nat :: !Stops(levels, 1, k);
  }
}
