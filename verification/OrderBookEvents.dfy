/**
 * What each event does to a book, level by level and order by order, in terms
 * of the event's own fields.
 */
module OrderBookEvents {
  import opened Levels
  import opened OrderBook

  ghost predicate PositiveLevels(l: Ladder) {
    forall side, p :: p in SideOf(l, side) ==> SideOf(l, side)[p] > 0
  }

  ghost predicate NotCrossed(l: Ladder) { forall p, q :: p in l.bids && q in l.asks ==> p < q }

  /** The event is for this book, and newer than what the book has seen. */
  predicate IsNews(b: Book, e: BookEvent) {
    (b.exchange == "" || b.exchange == e.exchange) && (e.sequence == 0 || e.sequence > b.lastSequence)
  }

  // ----- name and sequence -----------------------------------------------

  /** The name is taken from the first event; the sequence number is that of the
      last sequenced event that was taken; and what is not taken changes nothing
      else. */
  lemma HeaderOf(b: Book, e: BookEvent)
    ensures Applied(b, e).lastSequence
            == if IsNews(b, e) && e.sequence != 0 then e.sequence else b.lastSequence
    ensures Applied(b, e).exchange == if b.exchange == "" then e.exchange else b.exchange
    ensures !IsNews(b, e) ==> Applied(b, e).ladder == b.ladder && Applied(b, e).orders == b.orders
  {
  }

  // ----- snapshots -------------------------------------------------------

  /** The snapshot side shows quantity q at price p: its last positive entry there,
      or 0 when there is none. */
  ghost predicate ShownAt(levels: seq<PriceLevel>, p: int, q: int) {
    || (q == 0 && forall i :: 0 <= i < |levels| && levels[i].price == p ==> levels[i].quantity <= 0)
    || exists i :: IsLastAt(levels, i, p, q)
  }

  ghost predicate IsLastAt(levels: seq<PriceLevel>, i: int, p: int, q: int) {
    && 0 <= i < |levels| && levels[i] == PriceLevel(p, q) && q > 0
    && forall j :: i < j < |levels| && levels[j].price == p ==> levels[j].quantity <= 0
  }

  lemma {:induction false} SideShows(levels: seq<PriceLevel>, p: int)
    ensures var m := SnapshotSide(levels); ShownAt(levels, p, if p in m then m[p] else 0) && (p in m ==> m[p] > 0)
  {
    if levels != [] {
      var n := |levels| - 1;
      SideShows(levels[..n], p);
      var m := SnapshotSide(levels[..n]);
      if levels[n].price == p && levels[n].quantity > 0 {
        assert IsLastAt(levels, n, p, levels[n].quantity);
      } else if p in m {
        var i :| IsLastAt(levels[..n], i, p, m[p]);
        assert IsLastAt(levels, i, p, m[p]);
      }
    }
  }

  /** An accepted snapshot replaces both sides by its own and forgets all orders:
      at each price the bids show what the event's bids show, and the asks what its
      asks show, and there is a level exactly where that is positive. */
  lemma SnapshotLoads(b: Book, e: BookEvent, p: int)
    requires IsNews(b, e) && e.kind.TakeSnapshot?
    ensures var l := Applied(b, e).ladder;
      && ShownAt(e.snapshot.bids, p, if p in l.bids then l.bids[p] else 0) && (p in l.bids ==> l.bids[p] > 0)
      && ShownAt(e.snapshot.asks, p, if p in l.asks then l.asks[p] else 0) && (p in l.asks ==> l.asks[p] > 0)
    ensures Applied(b, e).orders == map[]
  {
    SideShows(e.snapshot.bids, p);
    SideShows(e.snapshot.asks, p);
  }

  /** No positive bid entry reaches a positive ask entry. */
  ghost predicate EntriesApart(s: Snapshot) {
    forall i, j :: 0 <= i < |s.bids| && 0 <= j < |s.asks| && s.bids[i].quantity > 0 && s.asks[j].quantity > 0 ==>
      s.bids[i].price < s.asks[j].price
  }

  lemma EntryIsLevel(levels: seq<PriceLevel>, i: int)
    requires 0 <= i < |levels| && levels[i].quantity > 0
    ensures levels[i].price in SnapshotSide(levels)
  {
    SideShows(levels, levels[i].price);
  }

  lemma LevelIsEntry(levels: seq<PriceLevel>, p: int) returns (i: int)
    requires p in SnapshotSide(levels)
    ensures 0 <= i < |levels| && levels[i].price == p && levels[i].quantity > 0
  {
    SideShows(levels, p);
    i :| IsLastAt(levels, i, p, SnapshotSide(levels)[p]);
  }

  /** A snapshot loads uncrossed exactly when its entries are apart. */
  lemma LoadsUncrossedIff(s: Snapshot)
    ensures NotCrossed(SnapshotLadder(s)) <==> EntriesApart(s)
  {
    var l := SnapshotLadder(s);
    if EntriesApart(s) {
      forall p, q | p in l.bids && q in l.asks ensures p < q {
        var i := LevelIsEntry(s.bids, p);
        var j := LevelIsEntry(s.asks, q);
      }
    } else {
      var i, j :| 0 <= i < |s.bids| && 0 <= j < |s.asks| && s.bids[i].quantity > 0 && s.asks[j].quantity > 0
                  && s.bids[i].price >= s.asks[j].price;
      EntryIsLevel(s.bids, i);
      EntryIsLevel(s.asks, j);
    }
  }

  lemma LoadsPositive(s: Snapshot)
    ensures PositiveLevels(SnapshotLadder(s))
  {
    forall p
      ensures p in SnapshotSide(s.bids) ==> SnapshotSide(s.bids)[p] > 0
      ensures p in SnapshotSide(s.asks) ==> SnapshotSide(s.asks)[p] > 0
    {
      SideShows(s.bids, p);
      SideShows(s.asks, p);
    }
  }

  // ----- orders ----------------------------------------------------------

  lemma DeltaQuantity(l: Ladder, side: Side, price: int, delta: int, s: Side, p: int)
    requires PositiveLevels(l)
    ensures PositiveLevels(DeltaAt(l, side, price, delta))
    ensures QuantityAt(DeltaAt(l, side, price, delta), s, p) ==
            if s == side && p == price then
              (if QuantityAt(l, s, p) + delta <= 0 then 0 else QuantityAt(l, s, p) + delta)
            else QuantityAt(l, s, p)
  {
    assert SideOf(DeltaAt(l, side, price, delta), side) == Delta(SideOf(l, side), price, delta);
    assert SideOf(DeltaAt(l, side, price, delta), Invert(side)) == SideOf(l, Invert(side));
    assert s == side || s == Invert(side);
  }

  /** What remains of a level: quantities below zero count as none. */
  function AtLeastZero(q: int): int { if q <= 0 then 0 else q }

  /** The price keeps away from the other side, as an order has to. */
  ghost predicate KeepsAway(l: Ladder, side: Side, price: int) {
    if side.Bid? then forall q :: q in l.asks ==> price < q else forall q :: q in l.bids ==> price > q
  }

  lemma RejectedIff(l: Ladder, side: Side, price: int)
    ensures Rejected(l, side, price) <==> !KeepsAway(l, side, price)
  {
  }

  /** The bids, or the asks, of a ladder at a price. */
  function BidAt(l: Ladder, p: int): int { if p in l.bids then l.bids[p] else 0 }

  function AskAt(l: Ladder, p: int): int { if p in l.asks then l.asks[p] else 0 }

  /** l' is l with delta more at one side and price. */
  ghost predicate MovesLevel(l: Ladder, l': Ladder, side: Side, price: int, delta: int) {
    && PositiveLevels(l')
    && (forall p :: BidAt(l', p) == if side.Bid? && p == price then AtLeastZero(BidAt(l, p) + delta) else BidAt(l, p))
    && (forall p :: AskAt(l', p) == if side.Ask? && p == price then AtLeastZero(AskAt(l, p) + delta) else AskAt(l, p))
  }

  lemma DeltaMovesLevel(l: Ladder, side: Side, price: int, delta: int)
    requires PositiveLevels(l)
    ensures MovesLevel(l, DeltaAt(l, side, price, delta), side, price, delta)
  {
    var l' := DeltaAt(l, side, price, delta);
    forall p
      ensures BidAt(l', p) == if side.Bid? && p == price then AtLeastZero(BidAt(l, p) + delta) else BidAt(l, p)
      ensures AskAt(l', p) == if side.Ask? && p == price then AtLeastZero(AskAt(l, p) + delta) else AskAt(l, p)
    {
      DeltaQuantity(l, side, price, delta, Bid, p);
      DeltaQuantity(l, side, price, delta, Ask, p);
    }
  }

  /** A fresh order that keeps away from the other side is remembered as it came,
      and its quantity is added at its side and price and nowhere else; one that
      does not keep away leaves levels and orders alone. */
  lemma NewOrderPlaces(b: Book, e: BookEvent)
    requires IsNews(b, e) && e.kind.NewOrder? && e.order.id != 0 && e.order.id !in b.orders && PositiveLevels(b.ladder)
    ensures KeepsAway(b.ladder, e.order.side, e.order.price) ==>
      && MovesLevel(b.ladder, Applied(b, e).ladder, e.order.side, e.order.price, e.order.quantity)
      && Applied(b, e).orders == b.orders[e.order.id := e.order]
    ensures !KeepsAway(b.ladder, e.order.side, e.order.price) ==>
      Applied(b, e).ladder == b.ladder && Applied(b, e).orders == b.orders
  {
    RejectedIff(b.ladder, e.order.side, e.order.price);
    DeltaMovesLevel(b.ladder, e.order.side, e.order.price, e.order.quantity);
  }

  /** A cancel of a remembered order forgets that order and takes the remembered
      quantity from its level; the rest of what the event carries is not read. */
  lemma CancelRemoves(b: Book, e: BookEvent)
    requires IsNews(b, e) && e.kind.CancelOrder? && e.order.id != 0 && e.order.id in b.orders && PositiveLevels(b.ladder)
    ensures var o := b.orders[e.order.id];
      MovesLevel(b.ladder, Applied(b, e).ladder, o.side, o.price, -o.quantity)
    ensures Applied(b, e).orders == b.orders - {e.order.id}
  {
    var o := b.orders[e.order.id];
    DeltaMovesLevel(b.ladder, o.side, o.price, -o.quantity);
  }

  /** An order id of 0, or a cancel of an unknown order, changes neither levels nor
      orders. */
  lemma NothingToChange(b: Book, e: BookEvent)
    requires !e.kind.TakeSnapshot? && (e.order.id == 0 || (e.kind.CancelOrder? && e.order.id !in b.orders))
    ensures Applied(b, e).ladder == b.ladder && Applied(b, e).orders == b.orders
  {
  }

  /** A new order whose id is in use acts as a cancel followed by a new order. */
  lemma ReplacementIsCancelThenNew(b: Book, e: BookEvent)
    requires IsNews(b, e) && e.kind.NewOrder?
    ensures var cancel := BookEvent(e.exchange, CancelOrder, 0, e.order, e.snapshot);
      && Applied(b, e) == Applied(Applied(b, cancel), e)
      && (e.order.id != 0 ==> e.order.id !in Applied(b, cancel).orders)
  {
  }
}
