/**
 * Volume bands of a book that came over the wire (services/common/
 * book_stream_client.cpp): its prices are perhaps no longer strictly ordered, and
 * its quantities perhaps no longer positive.
 */
module WireBands {
  import opened Decimal
  import opened DecimalText
  import opened GrpcTrip
  import opened Levels
  import opened VolumeBands

  /** What arrives can be stored, and is ordered best price first. */
  lemma ArrivedIsOrdered(side: Side, sent: seq<PriceLevel>)
    requires Sorted(side, sent) && PrintableLevels(sent)
    ensures Storable(ArrivedLevels(sent)) && Ordered(side, ArrivedLevels(sent))
  {
    forall i | 0 <= i < |sent| ensures Fits(ArrivedLevels(sent)[i].price) && Fits(ArrivedLevels(sent)[i].quantity) {
      RoundTrip(sent[i].price, 8);
      RoundTrip(sent[i].quantity, 8);
    }
    forall i, j | 0 <= i < j < |sent|
      ensures AtLeastAsGood(side, ArrivedLevels(sent)[i].price, ArrivedLevels(sent)[j].price)
    {
      TripKeepsOrder(side, sent, i, j);
    }
  }

  /** A single quote is a side too. */
  lemma NormalizedIsOrdered(side: Side, levels: seq<PriceLevel>, quote: PriceLevel)
    requires Storable(levels) && Ordered(side, levels) && Fits(quote.price) && Fits(quote.quantity)
    ensures Storable(Normalized(levels, quote)) && Ordered(side, Normalized(levels, quote))
  {
  }

  /** For a book sent with strictly sorted sides, whatever the truncation did to
      it: in the bands computed from what arrives, a larger threshold is never
      reached where a smaller one is not and never finds a better price, and for a
      positive threshold 0 means "not reached". */
  lemma ArrivedBandsAreSound(side: Side, sent: seq<PriceLevel>, quote: PriceLevel, levels: seq<Level>,
                             small: Int128, large: Int128, f: Found, g: Found)
    requires Sorted(side, sent) && PrintableLevels(sent) && PrintableLevel(quote)
    requires levels == Normalized(ArrivedLevels(sent), Arrived(quote))
    requires small <= large && Answers(levels, small, f) && Answers(levels, large, g)
    ensures (exists k: nat :: Stops(levels, large, k)) ==> exists k: nat :: Stops(levels, small, k)
    ensures (exists k: nat :: Stops(levels, large, k)) && g.Price? ==> f.Price? && AtLeastAsGood(side, f.price, g.price)
    ensures small > 0 ==> (f == Price(0) <==> forall k: nat :: !Stops(levels, small, k))
  {
    ArrivedIsOrdered(side, sent);
    ArrivedIsOrdered(side, [quote]);
    assert Arrived(quote) == ArrivedLevels([quote])[0];
    NormalizedIsOrdered(side, ArrivedLevels(sent), Arrived(quote));
    PricesNeverImprove(side, levels, small, large, f, g);
    if small > 0 { ZeroMeansUnreached(levels, small, f); }
  }
}
