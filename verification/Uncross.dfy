/**
 * virtualUncross (aggregator.cpp): the greedy match of the crossing part of an
 * aggregated book, and its optimality.
 */
module Uncross {
  import opened Levels

  /** The side without its best m units. */
  function Consume(levels: seq<PriceLevel>, m: int): seq<PriceLevel> {
    if levels == [] then []
    else if m >= levels[0].quantity then Consume(levels[1..], m - levels[0].quantity)
    else [PriceLevel(levels[0].price, levels[0].quantity - m)] + levels[1..]
  }

  function Volume(levels: seq<PriceLevel>): int {
    if levels == [] then 0 else levels[0].quantity + Volume(levels[1..])
  }

  /** The volume offered at price p or better. */
  function VolumeAt(side: Side, levels: seq<PriceLevel>, p: int): int {
    if levels == [] then 0
    else (if AtLeastAsGood(side, levels[0].price, p) then levels[0].quantity else 0) + VolumeAt(side, levels[1..], p)
  }

  /** What an auction at price p would trade. */
  function Crossable(bids: seq<PriceLevel>, asks: seq<PriceLevel>, p: int): int {
    var b, a := VolumeAt(Bid, bids, p), VolumeAt(Ask, asks, p);
    if b <= a then b else a
  }

  /** m is the largest volume any single price can trade. */
  ghost predicate Optimal(bids: seq<PriceLevel>, asks: seq<PriceLevel>, m: int) {
    && (forall p :: Crossable(bids, asks, p) <= m)
    && (exists p :: Crossable(bids, asks, p) == m)
  }

  // ----- one side --------------------------------------------------------

  lemma ConsumeNothing(levels: seq<PriceLevel>)
    requires Positive(levels)
    ensures Consume(levels, 0) == levels
  {
  }

  /** Taking a and then b units is taking a + b units. */
  lemma {:induction false} ConsumeTwice(levels: seq<PriceLevel>, a: int, b: int)
    requires Positive(levels) && a >= 0 && b >= 0
    ensures Consume(Consume(levels, a), b) == Consume(levels, a + b)
  {
    if levels != [] && a >= levels[0].quantity { ConsumeTwice(levels[1..], a - levels[0].quantity, b); }
  }

  lemma {:induction false} ConsumeKeepsSide(side: Side, levels: seq<PriceLevel>, m: int)
    requires ValidSide(side, levels) && m >= 0
    ensures ValidSide(side, Consume(levels, m))
    ensures levels != [] ==> forall l :: l in Consume(levels, m) ==> AtLeastAsGood(side, levels[0].price, l.price)
  {
    if levels != [] && m >= levels[0].quantity { ConsumeKeepsSide(side, levels[1..], m - levels[0].quantity); }
  }

  lemma {:induction false} VolumeAtIsPartial(side: Side, levels: seq<PriceLevel>, p: int)
    requires Positive(levels)
    ensures 0 <= VolumeAt(side, levels, p) <= Volume(levels)
  {
    if levels != [] { VolumeAtIsPartial(side, levels[1..], p); }
  }

  /** If what is left starts with q units at price p or better, then at least
      m + q units were offered there. */
  lemma {:induction false} OfferedAt(side: Side, levels: seq<PriceLevel>, m: int, p: int)
    requires ValidSide(side, levels) && m >= 0 && Consume(levels, m) != []
    requires AtLeastAsGood(side, Consume(levels, m)[0].price, p)
    ensures VolumeAt(side, levels, p) >= m + Consume(levels, m)[0].quantity
  {
    if m >= levels[0].quantity {
      ConsumeKeepsSide(side, levels, m);
      assert Consume(levels, m)[0] in Consume(levels, m);
      OfferedAt(side, levels[1..], m - levels[0].quantity, p);
    } else {
      VolumeAtIsPartial(side, levels[1..], p);
    }
  }

  /** If nothing is left at price p or better, at most m units were offered
      there. */
  lemma {:induction false} ExhaustedAt(side: Side, levels: seq<PriceLevel>, m: int, p: int)
    requires ValidSide(side, levels) && m >= 0
    requires Consume(levels, m) != [] ==> !AtLeastAsGood(side, Consume(levels, m)[0].price, p)
    ensures VolumeAt(side, levels, p) <= m
  {
    if levels != [] {
      if m >= levels[0].quantity { ExhaustedAt(side, levels[1..], m - levels[0].quantity, p); }
      else { NothingAt(side, levels, p); }
    }
  }

  lemma {:induction false} NothingAt(side: Side, levels: seq<PriceLevel>, p: int)
    requires Sorted(side, levels) && levels != [] && !AtLeastAsGood(side, levels[0].price, p)
    ensures VolumeAt(side, levels, p) == 0
  {
    if |levels| > 1 { NothingAt(side, levels[1..], p); }
  }

  /** At each price or better, what is left is what was offered there less m, or
      nothing. */
  lemma {:induction false} LeftAt(side: Side, levels: seq<PriceLevel>, m: int, p: int)
    requires ValidSide(side, levels) && m >= 0
    ensures var offered := VolumeAt(side, levels, p);
      VolumeAt(side, Consume(levels, m), p) == if offered <= m then 0 else offered - m
  {
    if levels != [] {
      if m >= levels[0].quantity {
        LeftAt(side, levels[1..], m - levels[0].quantity, p);
        if !AtLeastAsGood(side, levels[0].price, p) { NothingAt(side, levels, p); }
      } else {
        VolumeAtIsPartial(side, levels[1..], p);
        if !AtLeastAsGood(side, levels[0].price, p) { NothingAt(side, levels, p); }
        assert Consume(levels, m)[1..] == levels[1..];
      }
    }
  }

  /** The residue is the input with exactly m units less. */
  lemma {:induction false} ConsumeRemoves(levels: seq<PriceLevel>, m: int)
    requires Positive(levels) && 0 <= m <= Volume(levels)
    ensures Volume(Consume(levels, m)) == Volume(levels) - m
  {
    if levels != [] {
      if m >= levels[0].quantity { ConsumeRemoves(levels[1..], m - levels[0].quantity); }
      else { assert Consume(levels, m)[1..] == levels[1..]; }
    }
  }

  // ----- optimality ------------------------------------------------------

  /** Removing m units on both sides is optimal as soon as the rest no longer
      crosses and some price offers m units on both. */
  lemma UncrossedIsOptimal(bids: seq<PriceLevel>, asks: seq<PriceLevel>, m: int, p: int)
    requires ValidSide(Bid, bids) && ValidSide(Ask, asks) && m >= 0
    requires Uncrossed(Consume(bids, m), Consume(asks, m))
    requires Crossable(bids, asks, p) >= m
    ensures Optimal(bids, asks, m)
  {
    forall q ensures Crossable(bids, asks, q) <= m {
      if Consume(bids, m) != [] && AtLeastAsGood(Bid, Consume(bids, m)[0].price, q) {
        ExhaustedAt(Ask, asks, m, q);
      } else {
        ExhaustedAt(Bid, bids, m, q);
      }
    }
  }

  /** A pair that still crosses: its bid price offers m + q units on both sides. */
  lemma CrossingPair(bids: seq<PriceLevel>, asks: seq<PriceLevel>, m: int, q: int)
    requires ValidSide(Bid, bids) && ValidSide(Ask, asks) && m >= 0
    requires Consume(bids, m) != [] && Consume(asks, m) != []
    requires Consume(bids, m)[0].price >= Consume(asks, m)[0].price
    requires q <= Consume(bids, m)[0].quantity && q <= Consume(asks, m)[0].quantity
    ensures Crossable(bids, asks, Consume(bids, m)[0].price) >= m + q
  {
    OfferedAt(Bid, bids, m, Consume(bids, m)[0].price);
    OfferedAt(Ask, asks, m, Consume(bids, m)[0].price);
  }

  /** The converse: what the largest tradable volume leaves does not cross, is
      still sorted and positive, and has nothing more to match, so uncrossing
      it again changes nothing. */
  lemma ResidueIsUncrossed(bids: seq<PriceLevel>, asks: seq<PriceLevel>, m: int)
    requires ValidSide(Bid, bids) && ValidSide(Ask, asks) && Optimal(bids, asks, m)
    ensures m >= 0
    ensures var b, a := Consume(bids, m), Consume(asks, m);
      && ValidSide(Bid, b) && ValidSide(Ask, a) && Uncrossed(b, a)
      && Optimal(b, a, 0) && Consume(b, 0) == b && Consume(a, 0) == a
  {
    VolumeAtIsPartial(Bid, bids, 0);
    VolumeAtIsPartial(Ask, asks, 0);
    assert Crossable(bids, asks, 0) >= 0;
    var b, a := Consume(bids, m), Consume(asks, m);
    if b != [] && a != [] && b[0].price >= a[0].price {
      ConsumeKeepsSide(Bid, bids, m);
      ConsumeKeepsSide(Ask, asks, m);
      CrossingPair(bids, asks, m, 1);
    }
    ConsumeKeepsSide(Bid, bids, m);
    ConsumeKeepsSide(Ask, asks, m);
    ConsumeNothing(b);
    ConsumeNothing(a);
    VolumeAtIsPartial(Bid, b, 0);
    VolumeAtIsPartial(Ask, a, 0);
    UncrossedIsOptimal(b, a, 0, 0);
  }

  /** The same volume leaves both sides, and neither side is overdrawn. */
  lemma SameVolumeRemoved(bids: seq<PriceLevel>, asks: seq<PriceLevel>, m: int)
    requires ValidSide(Bid, bids) && ValidSide(Ask, asks) && Optimal(bids, asks, m)
    ensures Volume(bids) - Volume(Consume(bids, m)) == m == Volume(asks) - Volume(Consume(asks, m))
  {
    ResidueIsUncrossed(bids, asks, m);
    var p :| Crossable(bids, asks, p) == m;
    VolumeAtIsPartial(Bid, bids, p);
    VolumeAtIsPartial(Ask, asks, p);
    ConsumeRemoves(bids, m);
    ConsumeRemoves(asks, m);
  }

  lemma OptimalIsUnique(bids: seq<PriceLevel>, asks: seq<PriceLevel>, m1: int, m2: int)
    requires Optimal(bids, asks, m1) && Optimal(bids, asks, m2)
    ensures m1 == m2
  {
  }

  // ----- the program -----------------------------------------------------

  /** A std::vector of levels, changed in place. */
  class LevelVector {
    var levels: seq<PriceLevel>

    constructor (levels: seq<PriceLevel>)
      ensures this.levels == levels
    {
      this.levels := levels;
    }

    method SetQuantity(i: nat, quantity: int)
      requires i < |levels|
      modifies this
      ensures levels == old(levels)[i := PriceLevel(old(levels)[i].price, quantity)]
    {
      levels := levels[i := PriceLevel(levels[i].price, quantity)];
    }

    /** Erases the consumed prefix, then every level that has nothing left. */
    method EraseConsumed(consumed: nat)
      modifies this
      ensures levels == WithQuantity(old(levels)[if consumed <= |old(levels)| then consumed else |old(levels)|..])
    {
      levels := levels[if consumed <= |levels| then consumed else |levels|..];
      levels := WithQuantity(levels);
    }
  }

  /** std::remove_if of the levels with quantity <= 0. */
  function WithQuantity(levels: seq<PriceLevel>): seq<PriceLevel> {
    if levels == [] then []
    else (if levels[0].quantity <= 0 then [] else [levels[0]]) + WithQuantity(levels[1..])
  }

  lemma {:induction false} NothingToErase(levels: seq<PriceLevel>)
    requires Positive(levels)
    ensures WithQuantity(levels) == levels
  {
    if levels != [] { NothingToErase(levels[1..]); }
  }

  /** From i on, the levels are what m units leave of the initial side. */
  ghost predicate IsRest(initial: seq<PriceLevel>, levels: seq<PriceLevel>, i: nat, m: int) {
    i <= |levels| && Positive(levels[i..]) && levels[i..] == Consume(initial, m)
  }

  lemma FrontIsPositive(initial: seq<PriceLevel>, levels: seq<PriceLevel>, i: nat, m: int)
    requires IsRest(initial, levels, i, m) && i < |levels|
    ensures levels[i].quantity > 0
  {
    assert levels[i] == levels[i..][0];
  }

  /** One round of the match on one side: the front of the rest loses q units,
      and the index moves on when nothing is left there. */
  lemma TakeFromFront(initial: seq<PriceLevel>, levels: seq<PriceLevel>, i: nat, m: int, q: int)
    requires Positive(initial) && i < |levels| && m >= 0 && IsRest(initial, levels, i, m)
    requires 0 < q <= levels[i].quantity
    ensures var levels' := levels[i := PriceLevel(levels[i].price, levels[i].quantity - q)];
      IsRest(initial, levels', if levels[i].quantity - q <= 0 then i + 1 else i, m + q)
  {
    ConsumeTwice(initial, m, q);
    var rest := levels[i..];
    var levels' := levels[i := PriceLevel(levels[i].price, levels[i].quantity - q)];
    assert rest[1..] == levels[i + 1..] == levels'[i + 1..];
    assert forall j :: i < j < |levels| ==> levels[j] == rest[j - i];
    if q < rest[0].quantity {
      assert levels'[i..] == [levels'[i]] + levels'[i + 1..];
    } else {
      ConsumeNothing(rest[1..]);
    }
  }

  /** The match starts with both sides whole and nothing matched. */
  lemma MatchStarts(bids: seq<PriceLevel>, asks: seq<PriceLevel>)
    requires ValidSide(Bid, bids) && ValidSide(Ask, asks)
    ensures IsRest(bids, bids, 0, 0) && IsRest(asks, asks, 0, 0) && Crossable(bids, asks, 0) >= 0
  {
    ConsumeNothing(bids);
    ConsumeNothing(asks);
    VolumeAtIsPartial(Bid, bids, 0);
    VolumeAtIsPartial(Ask, asks, 0);
  }

  /** The two fronts can trade at the bid's price. */
  lemma FrontsCross(bids0: seq<PriceLevel>, asks0: seq<PriceLevel>, bids: seq<PriceLevel>, asks: seq<PriceLevel>,
                    i: nat, j: nat, m: int, q: int)
    requires ValidSide(Bid, bids0) && ValidSide(Ask, asks0) && m >= 0
    requires IsRest(bids0, bids, i, m) && IsRest(asks0, asks, j, m) && i < |bids| && j < |asks|
    requires bids[i].price >= asks[j].price && 0 < q <= bids[i].quantity && q <= asks[j].quantity
    ensures Crossable(bids0, asks0, bids[i].price) >= m + q
  {
    assert bids[i] == bids[i..][0] && asks[j] == asks[j..][0];
    CrossingPair(bids0, asks0, m, q);
  }

  /** When a side is used up or the fronts no longer cross, the match is best. */
  lemma MatchEnds(bids0: seq<PriceLevel>, asks0: seq<PriceLevel>, bids: seq<PriceLevel>, asks: seq<PriceLevel>,
                  i: nat, j: nat, m: int, p: int)
    requires ValidSide(Bid, bids0) && ValidSide(Ask, asks0) && m >= 0 && Crossable(bids0, asks0, p) >= m
    requires IsRest(bids0, bids, i, m) && IsRest(asks0, asks, j, m)
    requires i < |bids| && j < |asks| ==> bids[i].price < asks[j].price
    ensures Optimal(bids0, asks0, m)
    ensures WithQuantity(bids[i..]) == Consume(bids0, m) && WithQuantity(asks[j..]) == Consume(asks0, m)
  {
    NothingToErase(bids[i..]);
    NothingToErase(asks[j..]);
    UncrossedIsOptimal(bids0, asks0, m, p);
  }

  /** One round: the two fronts trade all that the smaller one has, and a front
      with nothing left is passed. */
  method TradeFronts(bids: LevelVector, asks: LevelVector, i: nat, j: nat,
                     ghost bids0: seq<PriceLevel>, ghost asks0: seq<PriceLevel>, ghost m: int)
    returns (i': nat, j': nat, ghost m': int)
    requires bids != asks && ValidSide(Bid, bids0) && ValidSide(Ask, asks0) && m >= 0
    requires IsRest(bids0, bids.levels, i, m) && IsRest(asks0, asks.levels, j, m)
    requires i < |bids.levels| && j < |asks.levels| && bids.levels[i].price >= asks.levels[j].price
    modifies bids, asks
    ensures IsRest(bids0, bids.levels, i', m') && IsRest(asks0, asks.levels, j', m')
    ensures m' >= m && Crossable(bids0, asks0, old(bids.levels[i].price)) >= m'
    ensures |bids.levels| == old(|bids.levels|) && |asks.levels| == old(|asks.levels|) && i + j < i' + j'
  {
    var bid, ask := bids.levels[i], asks.levels[j];
    var matched := if bid.quantity <= ask.quantity then bid.quantity else ask.quantity;
    FrontIsPositive(bids0, bids.levels, i, m);
    FrontIsPositive(asks0, asks.levels, j, m);
    FrontsCross(bids0, asks0, bids.levels, asks.levels, i, j, m, matched);
    TakeFromFront(bids0, bids.levels, i, m, matched);
    TakeFromFront(asks0, asks.levels, j, m, matched);
    bids.SetQuantity(i, bid.quantity - matched);
    asks.SetQuantity(j, ask.quantity - matched);
    i' := if bid.quantity - matched <= 0 then i + 1 else i;
    j' := if ask.quantity - matched <= 0 then j + 1 else j;
    m' := m + matched;
  }

  /** The loop: it terminates with both sides reduced by the largest volume that
      any single price can trade. */
  method MatchFronts(bids: LevelVector, asks: LevelVector) returns (bidIndex: nat, askIndex: nat, ghost m: int)
    requires bids != asks && ValidSide(Bid, bids.levels) && ValidSide(Ask, asks.levels)
    modifies bids, asks
    ensures bidIndex <= |bids.levels| && askIndex <= |asks.levels| && Optimal(old(bids.levels), old(asks.levels), m)
    ensures WithQuantity(bids.levels[bidIndex..]) == Consume(old(bids.levels), m)
    ensures WithQuantity(asks.levels[askIndex..]) == Consume(old(asks.levels), m)
  {
    ghost var bids0, asks0 := bids.levels, asks.levels;
    bidIndex, askIndex, m := 0, 0, 0;
    ghost var p := 0;
    MatchStarts(bids0, asks0);
    while bidIndex < |bids.levels| && askIndex < |asks.levels|
      invariant IsRest(bids0, bids.levels, bidIndex, m) && IsRest(asks0, asks.levels, askIndex, m)
      invariant m >= 0 && Crossable(bids0, asks0, p) >= m
      decreases |bids.levels| + |asks.levels| - bidIndex - askIndex
    {
      if bids.levels[bidIndex].price < asks.levels[askIndex].price { break; }
      p := bids.levels[bidIndex].price;
      bidIndex, askIndex, m := TradeFronts(bids, asks, bidIndex, askIndex, bids0, asks0, m);
    }
    MatchEnds(bids0, asks0, bids.levels, asks.levels, bidIndex, askIndex, m, p);
  }

  /** The match terminates and removes, from the best prices of both sides, the
      largest volume that any single price can trade. */
  method VirtualUncross(bids: LevelVector, asks: LevelVector)
    requires bids != asks && ValidSide(Bid, bids.levels) && ValidSide(Ask, asks.levels)
    modifies bids, asks
    ensures exists m :: Optimal(old(bids.levels), old(asks.levels), m)
                        && bids.levels == Consume(old(bids.levels), m) && asks.levels == Consume(old(asks.levels), m)
  {
    ghost var m;
    var bidIndex, askIndex;
    bidIndex, askIndex, m := MatchFronts(bids, asks);
    bids.EraseConsumed(bidIndex);
    asks.EraseConsumed(askIndex);
  }
}
