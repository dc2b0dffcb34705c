/**
 * AggregationEngine::consolidate (aggregator.cpp): the books of all exchanges
 * summed price by price, uncrossed, and headed by the best quotes, with the
 * last known best ask as a stand-in when no ask is left.
 */
module Consolidate {
  import opened Levels
  import opened OrderBook
  import opened Sequences
  import opened Uncross

  datatype View = View(
    bids: seq<PriceLevel>, asks: seq<PriceLevel>, bestBid: PriceLevel, bestAsk: PriceLevel, exchangeCount: nat)

  /** The quantity all books together show at a price. */
  function Total(books: seq<Ladder>, side: Side, price: int): int {
    if books == [] then 0
    else Total(books[..|books| - 1], side, price) + QuantityAt(books[|books| - 1], side, price)
  }

  function At(m: map<int, int>, price: int): int { if price in m then m[price] else 0 }

  /** levels is the aggregated side: sorted, and at each price exactly the sum
      over the books wherever that is positive. */
  ghost predicate IsSum(books: seq<Ladder>, side: Side, levels: seq<PriceLevel>) {
    && ValidSide(side, levels)
    && forall l :: l in levels <==> l.quantity > 0 && l.quantity == Total(books, side, l.price)
  }

  function Front(levels: seq<PriceLevel>): PriceLevel { if levels == [] then PriceLevel(0, 0) else levels[0] }

  /** The view published for uncrossed sides bids and asks, when the last best
      ask was last (valid or not). */
  function ViewOf(bids: seq<PriceLevel>, asks: seq<PriceLevel>, valid: bool, last: PriceLevel, count: nat): View {
    if asks == [] && valid then View(bids, [last], Front(bids), last, count)
    else View(bids, asks, Front(bids), Front(asks), count)
  }

  /** m units of the summed sides match, and v is the view of what is left. */
  ghost predicate Shows(books: seq<Ladder>, valid: bool, last: PriceLevel, bids: seq<PriceLevel>, asks: seq<PriceLevel>,
                        m: int, v: View)
  {
    && IsSum(books, Bid, bids) && IsSum(books, Ask, asks) && Optimal(bids, asks, m)
    && v == ViewOf(Consume(bids, m), Consume(asks, m), valid, last, |books|)
  }

  // ----- the program -----------------------------------------------------

  /** aggregated[price] += quantity for every level of one book. */
  method AddLevels(side: Side, sum: map<int, int>, levels: map<int, int>) returns (r: map<int, int>)
    ensures forall p :: At(r, p) == At(sum, p) + At(levels, p)
  {
    r := sum;
    var rest := levels;
    while rest != map[]
      invariant forall p :: p in rest ==> p in levels && rest[p] == levels[p]
      invariant forall p :: At(r, p) == At(sum, p) + (if p in rest then 0 else At(levels, p))
      decreases |rest|
    {
      var price := BestPrice(side, rest);
      r := r[price := At(r, price) + rest[price]];
      rest := rest - {price};
    }
  }

  /** The positive levels in the order of the side. */
  method PositiveLevelsOf(side: Side, m: map<int, int>) returns (levels: seq<PriceLevel>)
    ensures ValidSide(side, levels)
    ensures forall l :: l in levels <==> l.quantity > 0 && l.quantity == At(m, l.price)
  {
    levels := [];
    var rest := m;
    while rest != map[]
      invariant ValidSide(side, levels)
      invariant forall p :: p in rest ==> p in m && rest[p] == m[p]
      invariant forall l, p :: l in levels && p in rest ==> Better(side, l.price, p)
      invariant forall l :: l in levels <==> l.quantity > 0 && l.price !in rest && l.quantity == At(m, l.price)
      decreases |rest|
    {
      var price := BestPrice(side, rest);
      if rest[price] > 0 { levels := levels + [PriceLevel(price, rest[price])]; }
      rest := rest - {price};
    }
  }

  method Aggregate(books: seq<Ladder>, side: Side) returns (levels: seq<PriceLevel>)
    ensures IsSum(books, side, levels)
  {
    var sum: map<int, int> := map[];
    for i := 0 to |books|
      invariant forall p :: At(sum, p) == Total(books[..i], side, p)
    {
      assert books[..i + 1][..i] == books[..i];
      sum := AddLevels(side, sum, SideOf(books[i], side));
      assert forall p :: At(SideOf(books[i], side), p) == QuantityAt(books[i], side, p);
    }
    assert books[..|books|] == books;
    levels := PositiveLevelsOf(side, sum);
  }

  /** The part of the engine that consolidate changes. */
  class Consolidator {
    var lastBestAsk: PriceLevel
    var lastBestAskValid: bool

    constructor ()
      ensures !lastBestAskValid
    {
      lastBestAsk, lastBestAskValid := PriceLevel(0, 0), false;
    }

    /** books are the books of the exchanges, in the order they are visited. */
    method Consolidate(books: seq<Ladder>) returns (view: View)
      modifies this
      ensures exists bids, asks, m ::
        && Shows(books, old(lastBestAskValid), old(lastBestAsk), bids, asks, m, view)
        && lastBestAskValid == (old(lastBestAskValid) || Consume(asks, m) != [])
        && lastBestAsk == if Consume(asks, m) == [] then old(lastBestAsk) else Consume(asks, m)[0]
    {
      var summedBids := Aggregate(books, Bid);
      var summedAsks := Aggregate(books, Ask);
      var bidLevels := new LevelVector(summedBids);
      var askLevels := new LevelVector(summedAsks);
      VirtualUncross(bidLevels, askLevels);
      var bids, asks := bidLevels.levels, askLevels.levels;
      ghost var m :| Optimal(summedBids, summedAsks, m) && bids == Consume(summedBids, m) && asks == Consume(summedAsks, m);
      var bestBid := if bids != [] then bids[0] else PriceLevel(0, 0);
      var bestAsk := PriceLevel(0, 0);
      if asks != [] {
        bestAsk := asks[0];
        lastBestAskValid := true;
        lastBestAsk := bestAsk;
      } else if lastBestAskValid {
        bestAsk := lastBestAsk;
        asks := [lastBestAsk];
      }
      view := View(bids, asks, bestBid, bestAsk, |books|);
      assert Shows(books, old(lastBestAskValid), old(lastBestAsk), summedBids, summedAsks, m, view);
    }
  }

  // ----- independence of the visiting order ------------------------------

  lemma {:induction false} SortedIsUnique(side: Side, a: seq<PriceLevel>, b: seq<PriceLevel>)
    requires ValidSide(side, a) && ValidSide(side, b) && forall l :: l in a <==> l in b
    ensures a == b
  {
    assert (|a| > 0 ==> a[0] in a) && (|b| > 0 ==> b[0] in b);
    if a != [] {
      assert a[0] == b[0];
      forall l ensures l in a[1..] <==> l in b[1..] {
        assert l in a[1..] ==> l in a && l != a[0];
        assert l in b[1..] ==> l in b && l != b[0];
        assert l in a && l != a[0] ==> l in a[1..];
        assert l in b && l != b[0] ==> l in b[1..];
      }
      SortedIsUnique(side, a[1..], b[1..]);
      assert a == [a[0]] + a[1..] && b == [b[0]] + b[1..];
    }
  }

  lemma {:induction false} TotalWithout(books: seq<Ladder>, i: nat, side: Side, price: int)
    requires i < |books|
    ensures Total(books, side, price)
            == Total(books[..i] + books[i + 1..], side, price) + QuantityAt(books[i], side, price)
  {
    var n := |books| - 1;
    var without := books[..i] + books[i + 1..];
    if i == n {
      assert without == books[..n];
    } else {
      TotalWithout(books[..n], i, side, price);
      assert without[..|without| - 1] == books[..n][..i] + books[..n][i + 1..];
      assert without[|without| - 1] == books[n];
    }
  }

  /** The sum over the books does not depend on the order of visiting them. */
  lemma {:induction false} TotalOfPermutation(books: seq<Ladder>, others: seq<Ladder>, side: Side, price: int)
    requires multiset(books) == multiset(others)
    ensures Total(books, side, price) == Total(others, side, price)
    decreases |books|
  {
    assert |books| == |multiset(books)| == |multiset(others)| == |others|;
    if books != [] {
      var i := MatchLast(books, others);
      TotalOfPermutation(books[..|books| - 1], others[..i] + others[i + 1..], side, price);
      TotalWithout(others, i, side, price);
    }
  }

  lemma SumOfPermutation(books: seq<Ladder>, others: seq<Ladder>, side: Side, a: seq<PriceLevel>, b: seq<PriceLevel>)
    requires multiset(books) == multiset(others) && IsSum(books, side, a) && IsSum(others, side, b)
    ensures a == b
  {
    forall l ensures l in a <==> l in b { TotalOfPermutation(books, others, side, l.price); }
    SortedIsUnique(side, a, b);
  }

  /** The view does not depend on the order in which the books are visited:
      any two views shown for the same books are equal. */
  lemma OrderDoesNotMatter(books: seq<Ladder>, others: seq<Ladder>, valid: bool, last: PriceLevel,
                           bids: seq<PriceLevel>, asks: seq<PriceLevel>, m: int, v: View,
                           bids2: seq<PriceLevel>, asks2: seq<PriceLevel>, m2: int, v2: View)
    requires multiset(books) == multiset(others)
    requires Shows(books, valid, last, bids, asks, m, v) && Shows(others, valid, last, bids2, asks2, m2, v2)
    ensures v == v2 && m == m2
  {
    SumOfPermutation(books, others, Bid, bids, bids2);
    SumOfPermutation(books, others, Ask, asks, asks2);
    OptimalIsUnique(bids, asks, m, m2);
    assert |books| == |multiset(books)| == |multiset(others)| == |others|;
  }

  // ----- what a view promises --------------------------------------------

  /** As long as asks are left, the view is a proper book headed by its best
      quotes, and each side shows the summed volume less what matched. */
  lemma LiveViewIsProper(books: seq<Ladder>, valid: bool, last: PriceLevel,
                         bids: seq<PriceLevel>, asks: seq<PriceLevel>, m: int, v: View)
    requires Shows(books, valid, last, bids, asks, m, v) && Consume(asks, m) != []
    ensures ValidSide(Bid, v.bids) && ValidSide(Ask, v.asks) && Uncrossed(v.bids, v.asks)
    ensures v.asks != [] && v.bestAsk == v.asks[0] && v.bestBid == Front(v.bids)
    ensures Volume(v.bids) == Volume(bids) - m && Volume(v.asks) == Volume(asks) - m
  {
    ResidueIsUncrossed(bids, asks, m);
    SameVolumeRemoved(bids, asks, m);
  }

  /** q is what is left of an offer after m units are taken. */
  predicate LessBy(q: int, offered: int, m: int) { q == if offered <= m then 0 else offered - m }

  /** Whether asks are left or not, every view shows the bids that the match
      leaves: sorted, positive, and at each price or better the summed volume less
      what matched; it is headed by the first of them, or by zeros when there is
      none; and it counts the books. */
  lemma BidsAreShown(books: seq<Ladder>, valid: bool, last: PriceLevel,
                     bids: seq<PriceLevel>, asks: seq<PriceLevel>, m: int, v: View)
    requires Shows(books, valid, last, bids, asks, m, v)
    ensures ValidSide(Bid, v.bids)
    ensures forall p :: LessBy(VolumeAt(Bid, v.bids, p), VolumeAt(Bid, bids, p), m)
    ensures v.bids != [] ==> v.bestBid == v.bids[0]
    ensures v.bestBid == PriceLevel(0, 0) <==> v.bids == []
    ensures v.exchangeCount == |books|
  {
    ResidueIsUncrossed(bids, asks, m);
    forall p ensures LessBy(VolumeAt(Bid, v.bids, p), VolumeAt(Bid, bids, p), m) { LeftAt(Bid, bids, m, p); }
  }

  /** The asks: at each price or better the summed volume less what matched, headed
      by the first; when that is nothing, the last known best ask stands in for them,
      if there is one. */
  lemma AsksAreShown(books: seq<Ladder>, valid: bool, last: PriceLevel,
                     bids: seq<PriceLevel>, asks: seq<PriceLevel>, m: int, v: View)
    requires Shows(books, valid, last, bids, asks, m, v)
    ensures m < Volume(asks) ==>
      && ValidSide(Ask, v.asks) && v.asks != [] && v.bestAsk == v.asks[0]
      && forall p :: LessBy(VolumeAt(Ask, v.asks, p), VolumeAt(Ask, asks, p), m)
    ensures m >= Volume(asks) ==>
      && m == Volume(asks)
      && v.asks == (if valid then [last] else []) && v.bestAsk == if valid then last else PriceLevel(0, 0)
  {
    ResidueIsUncrossed(bids, asks, m);
    FallbackIff(books, valid, last, bids, asks, m, v);
    SameVolumeRemoved(bids, asks, m);
    VolumeAtIsPartial(Ask, Consume(asks, m), 0);
    forall p ensures LessBy(VolumeAt(Ask, Consume(asks, m), p), VolumeAt(Ask, asks, p), m) { LeftAt(Ask, asks, m, p); }
  }

  lemma {:induction false} NothingLeft(levels: seq<PriceLevel>, m: int)
    requires Positive(levels) && 0 <= m <= Volume(levels)
    ensures Consume(levels, m) == [] <==> m == Volume(levels)
  {
    if levels != [] {
      if m >= levels[0].quantity { NothingLeft(levels[1..], m - levels[0].quantity); }
      else { VolumeAtIsPartial(Bid, levels[1..], 0); }
    }
  }

  /** The stand-in is used exactly when the match takes every ask. */
  lemma FallbackIff(books: seq<Ladder>, valid: bool, last: PriceLevel,
                    bids: seq<PriceLevel>, asks: seq<PriceLevel>, m: int, v: View)
    requires Shows(books, valid, last, bids, asks, m, v)
    ensures Consume(asks, m) == [] <==> m == Volume(asks)
    ensures m == Volume(asks) ==>
      v.asks == (if valid then [last] else []) && v.bestAsk == (if valid then last else PriceLevel(0, 0))
  {
    ResidueIsUncrossed(bids, asks, m);
    var p :| Crossable(bids, asks, p) == m;
    VolumeAtIsPartial(Ask, asks, p);
    NothingLeft(asks, m);
  }

  /** Exactly when a published view is crossed: the match took every ask, and
      the best bid left over reaches the remembered ask. */
  lemma CrossedIff(books: seq<Ladder>, valid: bool, last: PriceLevel,
                   bids: seq<PriceLevel>, asks: seq<PriceLevel>, m: int, v: View)
    requires Shows(books, valid, last, bids, asks, m, v)
    ensures !Uncrossed(v.bids, v.asks)
            <==> m == Volume(asks) && valid && Consume(bids, m) != [] && Consume(bids, m)[0].price >= last.price
  {
    ResidueIsUncrossed(bids, asks, m);
    FallbackIff(books, valid, last, bids, asks, m, v);
  }

  /** It does happen: an ask at 100 is shown, then disappears while a bid at
      101 arrives; the second view is crossed. */
  lemma StaleAskCrosses()
    ensures var bid, ask := PriceLevel(101, 1), PriceLevel(100, 1);
      && Shows([Ladder(map[], map[100 := 1])], false, PriceLevel(0, 0), [], [ask], 0, View([], [ask], PriceLevel(0, 0), ask, 1))
      && Shows([Ladder(map[101 := 1], map[])], true, ask, [bid], [], 0, View([bid], [ask], bid, ask, 1))
      && !Uncrossed([bid], [ask])
  {
    var bid, ask := PriceLevel(101, 1), PriceLevel(100, 1);
    OneLevel([Ladder(map[], map[100 := 1])], Ask, ask);
    OneLevel([Ladder(map[101 := 1], map[])], Bid, bid);
    OneSided([], [ask]);
    OneSided([bid], []);
    assert Consume([ask], 0) == [ask] && Consume([bid], 0) == [bid];
  }

  lemma OneLevel(books: seq<Ladder>, side: Side, l: PriceLevel)
    requires |books| == 1 && SideOf(books[0], side) == map[l.price := l.quantity] && l.quantity > 0
    requires SideOf(books[0], Invert(side)) == map[]
    ensures IsSum(books, side, [l]) && IsSum(books, Invert(side), [])
  {
  }

  lemma OneSided(bids: seq<PriceLevel>, asks: seq<PriceLevel>)
    requires Positive(bids) && Positive(asks) && (bids == [] || asks == [])
    ensures Optimal(bids, asks, 0)
  {
    forall p ensures Crossable(bids, asks, p) == 0 {
      VolumeAtIsPartial(Bid, bids, p);
      VolumeAtIsPartial(Ask, asks, p);
    }
    assert Crossable(bids, asks, 0) == 0;
  }
}
