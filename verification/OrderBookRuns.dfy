/**
 * What the book of one exchange keeps over every run: the balance between its
 * levels, the last snapshot and the live orders, and the distance between bids
 * and asks.  Orders may have any sign.
 */
module OrderBookRuns {
  import opened Levels
  import opened OrderBook
  import opened OrderBookEvents

  // ----- conservation ----------------------------------------------------

  /** The live quantity at a side and price, counted order by order. */
  ghost function LiveAt(orders: map<OrderId, MarketOrder>, side: Side, price: int): int
    decreases |orders|
  {
    if orders == map[] then 0
    else
      var id :| id in orders;
      OrderAt(orders[id], side, price) + LiveAt(orders - {id}, side, price)
  }

  function OrderAt(o: MarketOrder, side: Side, price: int): int {
    if o.side == side && o.price == price then o.quantity else 0
  }

  /** The count does not depend on the order of counting. */
  lemma {:induction false} LiveWithout(orders: map<OrderId, MarketOrder>, side: Side, price: int, id: OrderId)
    requires id in orders
    ensures LiveAt(orders, side, price) == OrderAt(orders[id], side, price) + LiveAt(orders - {id}, side, price)
    decreases |orders|
  {
    var x :| x in orders && LiveAt(orders, side, price) == OrderAt(orders[x], side, price) + LiveAt(orders - {x}, side, price);
    if x != id {
      LiveWithout(orders - {x}, side, price, id);
      LiveWithout(orders - {id}, side, price, x);
      assert orders - {x} - {id} == orders - {id} - {x};
    }
  }

  lemma LiveWith(orders: map<OrderId, MarketOrder>, side: Side, price: int, o: MarketOrder)
    requires o.id !in orders
    ensures LiveAt(orders[o.id := o], side, price) == OrderAt(o, side, price) + LiveAt(orders, side, price)
  {
    LiveWithout(orders[o.id := o], side, price, o.id);
    assert orders[o.id := o] - {o.id} == orders;
  }

  /** Each level is what the last accepted snapshot gave plus the live orders
      there, and a level exists just when that is not zero. */
  ghost predicate Conserved(b: Book, base: Ladder) {
    && PositiveLevels(b.ladder)
    && forall side, p :: QuantityAt(b.ladder, side, p) == QuantityAt(base, side, p) + LiveAt(b.orders, side, p)
  }

  /** As much as that at least: what a book without levels below zero is left with
      once it is unbalanced. */
  ghost predicate Covered(b: Book, base: Ladder) {
    && PositiveLevels(b.ladder)
    && forall side, p :: QuantityAt(b.ladder, side, p) >= QuantityAt(base, side, p) + LiveAt(b.orders, side, p)
  }

  // ----- which events keep the balance ------------------------------------

  /** What the order leaves at its level, once taken out. */
  function LeftBehind(b: Book, o: MarketOrder): int { QuantityAt(b.ladder, o.side, o.price) - o.quantity }

  lemma WithoutOrderQuantity(b: Book, id: OrderId, side: Side, p: int)
    requires PositiveLevels(b.ladder) && id in b.orders
    ensures var (o, b') := (b.orders[id], WithoutOrder(b, id));
      && PositiveLevels(b'.ladder)
      && QuantityAt(b'.ladder, side, p) - LiveAt(b'.orders, side, p)
         == QuantityAt(b.ladder, side, p) - LiveAt(b.orders, side, p)
            + (if side == o.side && p == o.price && LeftBehind(b, o) < 0 then -LeftBehind(b, o) else 0)
  {
    var o := b.orders[id];
    LiveWithout(b.orders, side, p, id);
    DeltaQuantity(b.ladder, o.side, o.price, 0 - o.quantity, side, p);
  }

  /** Taking an order out keeps the balance exactly when its level has at least
      the order's quantity; what is lost otherwise stays lost. */
  lemma WithoutOrderConservesIff(b: Book, base: Ladder, id: OrderId)
    requires Covered(b, base) && id in b.orders
    ensures Covered(WithoutOrder(b, id), base)
    ensures Conserved(WithoutOrder(b, id), base) <==> Conserved(b, base) && LeftBehind(b, b.orders[id]) >= 0
  {
    var o, b' := b.orders[id], WithoutOrder(b, id);
    WithoutOrderQuantity(b, id, o.side, o.price);
    forall side, p
      ensures QuantityAt(b'.ladder, side, p) - LiveAt(b'.orders, side, p)
              == QuantityAt(b.ladder, side, p) - LiveAt(b.orders, side, p)
                 + (if side == o.side && p == o.price && LeftBehind(b, o) < 0 then -LeftBehind(b, o) else 0)
    {
      WithoutOrderQuantity(b, id, side, p);
    }
    MovedUpIff(b, b', base, o.side, o.price, if LeftBehind(b, o) < 0 then -LeftBehind(b, o) else 0);
  }

  /** If the difference between level and live orders grows by d at one place, a
      covered book stays covered, and is balanced just when it was and d is 0. */
  lemma MovedUpIff(b: Book, b': Book, base: Ladder, side: Side, price: int, d: nat)
    requires Covered(b, base) && PositiveLevels(b'.ladder)
    requires forall s, p ::
      QuantityAt(b'.ladder, s, p) - LiveAt(b'.orders, s, p)
      == QuantityAt(b.ladder, s, p) - LiveAt(b.orders, s, p) + (if s == side && p == price then d else 0)
    ensures Covered(b', base) && (Conserved(b', base) <==> Conserved(b, base) && d == 0)
  {
    if Conserved(b', base) {
      assert QuantityAt(b'.ladder, side, price) == QuantityAt(base, side, price) + LiveAt(b'.orders, side, price);
      forall s, p ensures QuantityAt(b.ladder, s, p) == QuantityAt(base, s, p) + LiveAt(b.orders, s, p) {
        assert QuantityAt(b'.ladder, s, p) == QuantityAt(base, s, p) + LiveAt(b'.orders, s, p);
      }
    }
  }

  lemma WithOrderQuantity(b: Book, o: MarketOrder, side: Side, p: int)
    requires PositiveLevels(b.ladder) && o.id !in b.orders && !Rejected(b.ladder, o.side, o.price)
    ensures var (b', next) := (WithOrder(b, o), QuantityAt(b.ladder, o.side, o.price) + o.quantity);
      && PositiveLevels(b'.ladder)
      && QuantityAt(b'.ladder, side, p) - LiveAt(b'.orders, side, p)
         == QuantityAt(b.ladder, side, p) - LiveAt(b.orders, side, p)
            + (if side == o.side && p == o.price && next < 0 then -next else 0)
  {
    LiveWith(b.orders, side, p, o);
    DeltaQuantity(b.ladder, o.side, o.price, o.quantity, side, p);
  }

  /** Placing an accepted order keeps the balance exactly when it does not take
      its level below zero. */
  lemma NewOrderConservesIff(b: Book, base: Ladder, o: MarketOrder)
    requires Covered(b, base) && o.id !in b.orders && !Rejected(b.ladder, o.side, o.price)
    ensures Covered(WithOrder(b, o), base)
    ensures Conserved(WithOrder(b, o), base)
            <==> Conserved(b, base) && QuantityAt(b.ladder, o.side, o.price) + o.quantity >= 0
  {
    var b', next := WithOrder(b, o), QuantityAt(b.ladder, o.side, o.price) + o.quantity;
    WithOrderQuantity(b, o, o.side, o.price);
    forall side, p
      ensures QuantityAt(b'.ladder, side, p) - LiveAt(b'.orders, side, p)
              == QuantityAt(b.ladder, side, p) - LiveAt(b.orders, side, p)
                 + (if side == o.side && p == o.price && next < 0 then -next else 0)
    {
      WithOrderQuantity(b, o, side, p);
    }
    MovedUpIff(b, b', base, o.side, o.price, if next < 0 then -next else 0);
  }

  /** The event reaches the levels or orders of the book. */
  predicate Takes(b: Book, e: BookEvent) { !Mismatch(b, e) && !Stale(b, e) }

  /** The levels restart from a snapshot. */
  predicate Restarts(b: Book, e: BookEvent) { Takes(b, e) && e.kind.TakeSnapshot? }

  predicate Removable(b: Book, id: OrderId) { id in b.orders ==> LeftBehind(b, b.orders[id]) >= 0 }

  predicate Placeable(b: Book, o: MarketOrder) {
    Rejected(b.ladder, o.side, o.price) || QuantityAt(b.ladder, o.side, o.price) + o.quantity >= 0
  }

  /** What the event takes out leaves its level at zero or more, and so does what
      it then puts in. */
  predicate KeepsBalance(b: Book, e: BookEvent) {
    Takes(b, e) && e.order.id != 0 && !e.kind.TakeSnapshot? ==>
      Removable(b, e.order.id) && (e.kind.NewOrder? ==> Placeable(WithoutOrder(b, e.order.id), e.order))
  }

  /** The snapshot the levels rest on after an event. */
  function Base(b: Book, base: Ladder, e: BookEvent): Ladder {
    if !Mismatch(b, e) && !Stale(b, e) && e.kind.TakeSnapshot? then SnapshotLadder(e.snapshot) else base
  }

  lemma SnapshotConserves(b: Book, s: Snapshot)
    ensures Conserved(b.(ladder := SnapshotLadder(s), orders := map[]), SnapshotLadder(s))
  {
    LoadsPositive(s);
  }

  lemma RemovalConservesIff(b: Book, base: Ladder, id: OrderId)
    requires Covered(b, base)
    ensures Covered(WithoutOrder(b, id), base)
    ensures Conserved(WithoutOrder(b, id), base) <==> Conserved(b, base) && Removable(b, id)
  {
    if id in b.orders { WithoutOrderConservesIff(b, base, id); }
  }

  lemma PlacementConservesIff(b: Book, base: Ladder, o: MarketOrder)
    requires Covered(b, base) && o.id !in b.orders
    ensures Covered(WithOrder(b, o), base)
    ensures Conserved(WithOrder(b, o), base) <==> Conserved(b, base) && Placeable(b, o)
  {
    if !Rejected(b.ladder, o.side, o.price) { NewOrderConservesIff(b, base, o); }
  }

  lemma ChangedConservesIff(b: Book, base: Ladder, e: BookEvent)
    requires Covered(b, base) && !e.kind.TakeSnapshot? && e.order.id != 0
    ensures Covered(Changed(b, e), base)
    ensures Conserved(Changed(b, e), base)
            <==> Conserved(b, base) && Removable(b, e.order.id)
                 && (e.kind.NewOrder? ==> Placeable(WithoutOrder(b, e.order.id), e.order))
  {
    RemovalConservesIff(b, base, e.order.id);
    if e.kind.NewOrder? { PlacementConservesIff(WithoutOrder(b, e.order.id), base, e.order); }
  }

  /** The book an event meets, past the tests of its name and sequence. */
  function Met(b: Book, e: BookEvent): Book {
    b.(exchange := if b.exchange == "" then e.exchange else b.exchange,
       lastSequence := if e.sequence != 0 then e.sequence else b.lastSequence)
  }

  lemma MetIsSame(b: Book, base: Ladder, e: BookEvent)
    ensures Met(b, e).ladder == b.ladder && Met(b, e).orders == b.orders
    ensures Covered(Met(b, e), base) <==> Covered(b, base)
    ensures Conserved(Met(b, e), base) <==> Conserved(b, base)
    ensures WithoutOrder(Met(b, e), e.order.id).ladder == WithoutOrder(b, e.order.id).ladder
    ensures Takes(b, e) ==> Applied(b, e) == Changed(Met(b, e), e)
  {
  }

  /** For any event, and orders of any sign: the book is balanced afterwards
      exactly when it restarts from a snapshot, or was balanced and the event takes
      no level below zero. */
  lemma AppliedConservesIff(b: Book, base: Ladder, e: BookEvent)
    requires Covered(b, base)
    ensures Covered(Applied(b, e), Base(b, base, e))
    ensures Conserved(Applied(b, e), Base(b, base, e))
            <==> Restarts(b, e) || (Conserved(b, base) && KeepsBalance(b, e))
  {
    if Takes(b, e) {
      var met := Met(b, e);
      MetIsSame(b, base, e);
      if e.kind.TakeSnapshot? { SnapshotConserves(met, e.snapshot); }
      else if e.order.id != 0 { ChangedConservesIff(met, base, e); }
    }
  }

  // ----- over whole runs -------------------------------------------------

  function Run(b: Book, events: seq<BookEvent>): Book
    decreases |events|
  {
    if events == [] then b else Run(Applied(b, events[0]), events[1..])
  }

  function RunBase(b: Book, base: Ladder, events: seq<BookEvent>): Ladder
    decreases |events|
  {
    if events == [] then base else RunBase(Applied(b, events[0]), Base(b, base, events[0]), events[1..])
  }

  /** Since the last restart, every event has kept the balance, which held there
      (at the start of the run: when held says so). */
  predicate Balanced(b: Book, held: bool, events: seq<BookEvent>)
    decreases |events|
  {
    if events == [] then held
    else Balanced(Applied(b, events[0]), Restarts(b, events[0]) || (held && KeepsBalance(b, events[0])), events[1..])
  }

  /** Conservation over whole runs, with orders of any sign: the levels are the
      last snapshot plus the live orders exactly when no event since that snapshot
      took a level below zero. */
  lemma {:induction false} RunConservesIff(b: Book, base: Ladder, events: seq<BookEvent>)
    requires Covered(b, base)
    ensures Covered(Run(b, events), RunBase(b, base, events))
    ensures Conserved(Run(b, events), RunBase(b, base, events)) <==> Balanced(b, Conserved(b, base), events)
    decreases |events|
  {
    if events != [] {
      AppliedConservesIff(b, base, events[0]);
      RunConservesIff(Applied(b, events[0]), Base(b, base, events[0]), events[1..]);
    }
  }

  // ----- when orders are not negative ------------------------------------

  ghost predicate NonNegative(orders: map<OrderId, MarketOrder>) { forall id :: id in orders ==> orders[id].quantity >= 0 }

  lemma {:induction false} LiveIsNonNegative(orders: map<OrderId, MarketOrder>, side: Side, price: int)
    requires NonNegative(orders)
    ensures LiveAt(orders, side, price) >= 0
    decreases |orders|
  {
    if orders != map[] {
      var x :| x in orders;
      LiveWithout(orders, side, price, x);
      LiveIsNonNegative(orders - {x}, side, price);
    }
  }

  /** Only placed orders count: what a cancel or a snapshot carries as an order's
      quantity is not read. */
  ghost predicate PlacesNothingNegative(events: seq<BookEvent>) {
    forall i :: 0 <= i < |events| && events[i].kind.NewOrder? ==> events[i].order.quantity >= 0
  }

  /** What holds of a book while no order placed is negative. */
  ghost predicate BookInv(b: Book, base: Ladder) { Conserved(b, base) && PositiveLevels(base) && NonNegative(b.orders) }

  lemma NonNegativeKeepsBalance(b: Book, base: Ladder, e: BookEvent)
    requires BookInv(b, base) && (e.kind.NewOrder? ==> e.order.quantity >= 0)
    ensures KeepsBalance(b, e) && BookInv(Applied(b, e), Base(b, base, e))
  {
    var id := e.order.id;
    if id in b.orders {
      var o := b.orders[id];
      LiveWithout(b.orders, o.side, o.price, id);
      LiveIsNonNegative(b.orders - {id}, o.side, o.price);
      assert PositiveLevels(WithoutOrder(b, id).ladder) by { WithoutOrderQuantity(b, id, o.side, o.price); }
    }
    AppliedConservesIff(b, base, e);
    LoadsPositive(e.snapshot);
  }

  /** So a run that places no negative order keeps the balance throughout. */
  lemma {:induction false} RunConserves(b: Book, base: Ladder, events: seq<BookEvent>)
    requires BookInv(b, base) && PlacesNothingNegative(events)
    ensures BookInv(Run(b, events), RunBase(b, base, events))
    decreases |events|
  {
    if events != [] {
      NonNegativeKeepsBalance(b, base, events[0]);
      RunConserves(Applied(b, events[0]), Base(b, base, events[0]), events[1..]);
    }
  }

  // ----- crossing --------------------------------------------------------

  /** Taking the order out raises a level that reaches the other side: only a
      negative order does that. */
  predicate Uncovers(b: Book, id: OrderId) {
    id in b.orders && LeftBehind(b, b.orders[id]) > 0 && Rejected(b.ladder, b.orders[id].side, b.orders[id].price)
  }

  /** Taking an order out crosses a book exactly when it uncovers such a level. */
  lemma WithoutOrderUncrossedIff(b: Book, id: OrderId)
    requires NotCrossed(b.ladder)
    ensures NotCrossed(WithoutOrder(b, id).ladder) <==> !Uncovers(b, id)
  {
    if id in b.orders {
      var o := b.orders[id];
      var l, l' := b.ladder, WithoutOrder(b, id).ladder;
      assert SideOf(l', Invert(o.side)) == SideOf(l, Invert(o.side));
      if Uncovers(b, id) {
        assert o.price in SideOf(l', o.side);
        assert BestPrice(Invert(o.side), SideOf(l, Invert(o.side))) in SideOf(l', Invert(o.side));
      }
    }
  }

  /** Placing an order neither crosses a book nor uncrosses it: what it may change
      lies apart from the other side. */
  lemma WithOrderUncrossedIff(b: Book, o: MarketOrder)
    ensures NotCrossed(WithOrder(b, o).ladder) <==> NotCrossed(b.ladder)
  {
    var l, l' := b.ladder, WithOrder(b, o).ladder;
    assert SideOf(l', Invert(o.side)) == SideOf(l, Invert(o.side));
    forall p, q | p in l.bids && q in l.asks && p >= q ensures p in l'.bids && q in l'.asks {
      if !Rejected(l, o.side, o.price) { NotAtCrossing(l, o.side, o.price, p, q); }
    }
  }

  lemma NotAtCrossing(l: Ladder, side: Side, price: int, p: int, q: int)
    requires p in l.bids && q in l.asks && p >= q && !Rejected(l, side, price)
    ensures price != if side.Bid? then p else q
  {
    assert AtLeastAsGood(Invert(side), BestPrice(Invert(side), SideOf(l, Invert(side))), if side.Bid? then q else p);
  }

  /** The event's snapshot is uncrossed, or what it takes out uncovers nothing. */
  ghost predicate KeepsApart(b: Book, e: BookEvent) {
    Takes(b, e) ==>
      if e.kind.TakeSnapshot? then EntriesApart(e.snapshot) else e.order.id != 0 ==> !Uncovers(b, e.order.id)
  }

  /** For any event, and orders of any sign: exactly when an uncrossed book stays
      uncrossed. */
  lemma AppliedUncrossedIff(b: Book, e: BookEvent)
    requires NotCrossed(b.ladder)
    ensures NotCrossed(Applied(b, e).ladder) <==> KeepsApart(b, e)
  {
    LoadsUncrossedIff(e.snapshot);
    if Takes(b, e) && !e.kind.TakeSnapshot? && e.order.id != 0 {
      var met := Met(b, e);
      assert Applied(b, e) == Changed(met, e);
      WithoutOrderUncrossedIff(met, e.order.id);
      if e.kind.NewOrder? { WithOrderUncrossedIff(WithoutOrder(met, e.order.id), e.order); }
    }
  }

  /** The book is uncrossed after each event of the run. */
  ghost predicate NeverCrossed(b: Book, events: seq<BookEvent>)
    decreases |events|
  {
    NotCrossed(b.ladder) && (events != [] ==> NeverCrossed(Applied(b, events[0]), events[1..]))
  }

  ghost predicate AllKeepApart(b: Book, events: seq<BookEvent>)
    decreases |events|
  {
    events != [] ==> KeepsApart(b, events[0]) && AllKeepApart(Applied(b, events[0]), events[1..])
  }

  /** Over whole runs, with orders of any sign. */
  lemma {:induction false} NeverCrossedIff(b: Book, events: seq<BookEvent>)
    requires NotCrossed(b.ladder)
    ensures NeverCrossed(b, events) <==> AllKeepApart(b, events)
    decreases |events|
  {
    if events != [] {
      AppliedUncrossedIff(b, events[0]);
      if NotCrossed(Applied(b, events[0]).ladder) { NeverCrossedIff(Applied(b, events[0]), events[1..]); }
    }
  }

  ghost predicate SnapshotsUncrossed(events: seq<BookEvent>) {
    forall i :: 0 <= i < |events| && events[i].kind.TakeSnapshot? ==> EntriesApart(events[i].snapshot)
  }

  lemma OwnLevelIsApart(l: Ladder, side: Side, price: int)
    requires NotCrossed(l) && price in SideOf(l, side)
    ensures !Rejected(l, side, price)
  {
    var other := SideOf(l, Invert(side));
    if other != map[] { assert BestPrice(Invert(side), other) in other; }
  }

  /** What an order that is not negative leaves was a level before, so taking it
      out uncovers nothing. */
  lemma NonNegativeKeepsApart(b: Book, e: BookEvent)
    requires PositiveLevels(b.ladder) && NonNegative(b.orders) && NotCrossed(b.ladder)
    requires e.kind.TakeSnapshot? ==> EntriesApart(e.snapshot)
    ensures KeepsApart(b, e)
  {
    if e.order.id in b.orders && LeftBehind(b, b.orders[e.order.id]) > 0 {
      OwnLevelIsApart(b.ladder, b.orders[e.order.id].side, b.orders[e.order.id].price);
    }
  }

  /** A book fed uncrossed snapshots and no negative order never crosses. */
  lemma {:induction false} RunNeverCrosses(b: Book, base: Ladder, events: seq<BookEvent>)
    requires BookInv(b, base) && NotCrossed(b.ladder) && PlacesNothingNegative(events) && SnapshotsUncrossed(events)
    ensures NeverCrossed(b, events) && NotCrossed(Run(b, events).ladder)
    decreases |events|
  {
    if events != [] {
      NonNegativeKeepsApart(b, events[0]);
      AppliedUncrossedIff(b, events[0]);
      NonNegativeKeepsBalance(b, base, events[0]);
      RunNeverCrosses(Applied(b, events[0]), Base(b, base, events[0]), events[1..]);
    }
  }

  /** From a new book on, over any run without negative orders and with uncrossed
      snapshots: the levels are the last snapshot plus the live orders, and no bid
      reaches an ask. */
  lemma NewBookStaysSound(exchange: string, events: seq<BookEvent>)
    requires PlacesNothingNegative(events) && SnapshotsUncrossed(events)
    ensures var b := Book(EMPTY, map[], 0, exchange);
      Conserved(Run(b, events), RunBase(b, EMPTY, events)) && NotCrossed(Run(b, events).ladder)
  {
    var b := Book(EMPTY, map[], 0, exchange);
    assert BookInv(b, EMPTY);
    RunConserves(b, EMPTY, events);
    RunNeverCrosses(b, EMPTY, events);
  }

  /** Comparing the two best prices is enough to tell a crossed book. */
  lemma BestPricesTellCrossing(l: Ladder)
    requires l.bids != map[] && l.asks != map[]
    ensures NotCrossed(l) <==> BestLevel(l, Bid).price < BestLevel(l, Ask).price
  {
  }

  // ----- concrete cases --------------------------------------------------

  /** A negative order on an empty level. */
  lemma NegativeOrderBreaksConservation()
    ensures var o := MarketOrder(1, Bid, 100, -5);
      var b := Applied(Book(EMPTY, map[], 0, ""), BookEvent("X", NewOrder, 1, o, Snapshot([], [])));
      b.orders == map[1 := o] && !Conserved(b, EMPTY)
  {
    var o := MarketOrder(1, Bid, 100, -5);
    var b := Book(EMPTY, map[], 1, "X");
    assert LiveAt(map[], Bid, 100) == 0;
    NewOrderConservesIff(b, EMPTY, o);
  }

  function Placing(o: MarketOrder): BookEvent { BookEvent("X", NewOrder, 0, o, Snapshot([], [])) }

  function Cancelling(o: MarketOrder): BookEvent { BookEvent("X", CancelOrder, 0, o, Snapshot([], [])) }

  /** Two orders placed one after the other on a balanced book. */
  function Both(l: Ladder, first: MarketOrder, second: MarketOrder): Book {
    Applied(Applied(Book(l, map[], 0, "X"), Placing(first)), Placing(second))
  }

  /** No order takes a level below zero when it is placed, and yet a cancel
      unbalances the book: bid 10 and bid -5 at one price, the 10 cancelled. */
  lemma CancelCanUnbalance()
    ensures var (big, small) := (MarketOrder(1, Bid, 100, 10), MarketOrder(2, Bid, 100, -5));
      var b := Both(EMPTY, big, small);
      Conserved(b, EMPTY) && !Conserved(Applied(b, Cancelling(big)), EMPTY)
  {
    var big, small := MarketOrder(1, Bid, 100, 10), MarketOrder(2, Bid, 100, -5);
    var b := Book(EMPTY, map[], 0, "X");
    var b1 := Applied(b, Placing(big));
    assert Conserved(b, EMPTY);
    AppliedConservesIff(b, EMPTY, Placing(big));
    assert b1 == Book(Ladder(map[100 := 10], map[]), map[1 := big], 0, "X");
    AppliedConservesIff(b1, EMPTY, Placing(small));
    assert Both(EMPTY, big, small) == Book(Ladder(map[100 := 5], map[]), map[1 := big, 2 := small], 0, "X");
    AppliedConservesIff(Both(EMPTY, big, small), EMPTY, Cancelling(big));
  }

  /** A book that is balanced throughout and ends crossed: a snapshot's bid of 5
      hidden by a bid of -5, an ask below it, and the -5 cancelled. */
  lemma CancelCanCross()
    ensures var (veil, ask) := (MarketOrder(1, Bid, 100, -5), MarketOrder(2, Ask, 99, 1));
      var l := Ladder(map[100 := 5], map[]);
      var b := Both(l, veil, ask);
      && NotCrossed(b.ladder) && Conserved(b, l)
      && Conserved(Applied(b, Cancelling(veil)), l) && !NotCrossed(Applied(b, Cancelling(veil)).ladder)
  {
    var veil, ask := MarketOrder(1, Bid, 100, -5), MarketOrder(2, Ask, 99, 1);
    var l := Ladder(map[100 := 5], map[]);
    var b := Book(l, map[], 0, "X");
    var b1 := Applied(b, Placing(veil));
    assert Conserved(b, l);
    AppliedConservesIff(b, l, Placing(veil));
    assert b1 == Book(EMPTY, map[1 := veil], 0, "X");
    AppliedConservesIff(b1, l, Placing(ask));
    assert Both(l, veil, ask) == Book(Ladder(map[], map[99 := 1]), map[1 := veil, 2 := ask], 0, "X");
    AppliedConservesIff(Both(l, veil, ask), l, Cancelling(veil));
    AppliedUncrossedIff(Both(l, veil, ask), Cancelling(veil));
  }

  // ----- single events ---------------------------------------------------

  /** Placing a fresh order and cancelling it restores levels and orders, just
      when the order does not take its level below zero. */
  lemma NewThenCancelRestoresIff(b: Book, e: BookEvent, c: BookEvent)
    requires PositiveLevels(b.ladder) && e.order.id != 0 && e.order.id !in b.orders && c.order.id == e.order.id
    requires e.kind.NewOrder? && !Mismatch(b, e) && !Stale(b, e) && !Rejected(b.ladder, e.order.side, e.order.price)
    requires c.kind.CancelOrder? && !Mismatch(Applied(b, e), c) && !Stale(Applied(b, e), c)
    ensures Applied(Applied(b, e), c).orders == b.orders
    ensures Applied(Applied(b, e), c).ladder == b.ladder
            <==> QuantityAt(b.ladder, e.order.side, e.order.price) + e.order.quantity >= 0
  {
  }

  /** Events that change neither levels nor orders. */
  lemma NoChange(b: Book, e: BookEvent)
    requires Mismatch(b, e) || Stale(b, e)
    ensures Applied(b, e).ladder == b.ladder && Applied(b, e).orders == b.orders
    ensures Mismatch(b, e) ==> Applied(b, e) == b
  {
  }

  /** A replacement that is rejected still removes the order it replaces, and the
      balance holds as after a cancel. */
  lemma RejectedReplacementRemoves(b: Book, base: Ladder, e: BookEvent)
    requires Covered(b, base) && e.kind.NewOrder? && e.order.id != 0 && Takes(b, e)
    requires Rejected(WithoutOrder(b, e.order.id).ladder, e.order.side, e.order.price)
    ensures Applied(b, e).orders == b.orders - {e.order.id}
    ensures Conserved(Applied(b, e), base) <==> Conserved(b, base) && Removable(b, e.order.id)
  {
    AppliedConservesIff(b, base, e);
    if e.order.id !in b.orders { assert b.orders - {e.order.id} == b.orders; }
  }

  /** The sequence number never goes back, so a repeated event is stale. */
  lemma SequenceGrows(b: Book, e: BookEvent)
    ensures Applied(b, e).lastSequence >= b.lastSequence
    ensures e.sequence != 0 && !Mismatch(b, e) ==> Applied(Applied(b, e), e).ladder == Applied(b, e).ladder
  {
  }
}
