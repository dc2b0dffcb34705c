/**
 * LimitOrderBook (lob/order_book.cpp): one exchange's book, as levels that are
 * kept up to date order by order and replaced by snapshots.
 */
module OrderBook {
  import opened Levels

  type OrderId = nat

  datatype MarketOrder = MarketOrder(id: OrderId, side: Side, price: int, quantity: int)

  datatype Snapshot = Snapshot(bids: seq<PriceLevel>, asks: seq<PriceLevel>)

  datatype EventKind = NewOrder | CancelOrder | TakeSnapshot

  datatype BookEvent =
    BookEvent(exchange: string, kind: EventKind, sequence: nat, order: MarketOrder, snapshot: Snapshot)

  datatype Status = Ok | ExchangeMismatch

  /** The two sides, from price to quantity. */
  datatype Ladder = Ladder(bids: map<int, int>, asks: map<int, int>)

  /** All that a book remembers. */
  datatype Book = Book(ladder: Ladder, orders: map<OrderId, MarketOrder>, lastSequence: nat, exchange: string)

  const EMPTY := Ladder(map[], map[])

  function SideOf(l: Ladder, side: Side): map<int, int> { if side.Bid? then l.bids else l.asks }

  function WithSide(l: Ladder, side: Side, m: map<int, int>): Ladder {
    if side.Bid? then Ladder(m, l.asks) else Ladder(l.bids, m)
  }

  /** The quantity at a price; 0 where there is no level. */
  function QuantityAt(l: Ladder, side: Side, price: int): int {
    if price in SideOf(l, side) then SideOf(l, side)[price] else 0
  }

  // ----- best prices -----------------------------------------------------

  /** The first key of the side's ordered map. */
  function BestPrice(side: Side, m: map<int, int>): (p: int)
    requires m != map[]
    ensures p in m && forall q :: q in m ==> AtLeastAsGood(side, p, q)
  {
    assert m.Keys != {};
    BestExists(side, m.Keys);
    var p :| p in m.Keys && IsBest(side, m.Keys, p);
    p
  }

  /** bestBid and bestAsk: a level of zeros when the side is empty. */
  function BestLevel(l: Ladder, side: Side): (b: PriceLevel)
    ensures SideOf(l, side) == map[] ==> b == PriceLevel(0, 0)
    ensures SideOf(l, side) != map[] ==> b.quantity == QuantityAt(l, side, b.price)
  {
    var m := SideOf(l, side);
    if m == map[] then PriceLevel(0, 0) else PriceLevel(BestPrice(side, m), m[BestPrice(side, m)])
  }

  // ----- what an event does ----------------------------------------------

  /** applyDelta on one side. */
  function Delta(m: map<int, int>, price: int, delta: int): map<int, int> {
    var next := if price in m then m[price] + delta else delta;
    if next <= 0 then m - {price} else m[price := next]
  }

  function DeltaAt(l: Ladder, side: Side, price: int, delta: int): Ladder {
    WithSide(l, side, Delta(SideOf(l, side), price, delta))
  }

  /** An order may not reach the best price of the other side. */
  predicate Rejected(l: Ladder, side: Side, price: int) {
    var other := SideOf(l, Invert(side));
    other != map[] && AtLeastAsGood(side, price, BestPrice(Invert(side), other))
  }

  /** The levels of a snapshot side; a later positive level at a price wins. */
  function SnapshotSide(levels: seq<PriceLevel>): map<int, int> {
    if levels == [] then map[]
    else
      var last := levels[|levels| - 1];
      var before := SnapshotSide(levels[..|levels| - 1]);
      if last.quantity > 0 then before[last.price := last.quantity] else before
  }

  function SnapshotLadder(s: Snapshot): Ladder { Ladder(SnapshotSide(s.bids), SnapshotSide(s.asks)) }

  /** The order goes, and its quantity leaves its level. */
  function WithoutOrder(b: Book, id: OrderId): Book {
    if id !in b.orders then b
    else
      var o := b.orders[id];
      b.(ladder := DeltaAt(b.ladder, o.side, o.price, 0 - o.quantity), orders := b.orders - {id})
  }

  function WithOrder(b: Book, o: MarketOrder): Book {
    if Rejected(b.ladder, o.side, o.price) then b
    else b.(ladder := DeltaAt(b.ladder, o.side, o.price, o.quantity), orders := b.orders[o.id := o])
  }

  /** An order id that is in use is replaced: its old order goes even when the
      new one is then rejected. */
  function Changed(b: Book, e: BookEvent): Book {
    match e.kind
    case TakeSnapshot => b.(ladder := SnapshotLadder(e.snapshot), orders := map[])
    case NewOrder => if e.order.id == 0 then b else WithOrder(WithoutOrder(b, e.order.id), e.order)
    case CancelOrder => if e.order.id == 0 then b else WithoutOrder(b, e.order.id)
  }

  predicate Mismatch(b: Book, e: BookEvent) { b.exchange != "" && b.exchange != e.exchange }

  predicate Stale(b: Book, e: BookEvent) { e.sequence != 0 && e.sequence <= b.lastSequence }

  function Applied(b: Book, e: BookEvent): Book {
    if Mismatch(b, e) then b
    else
      var named := b.(exchange := if b.exchange == "" then e.exchange else b.exchange);
      if Stale(b, e) then named
      else Changed(named.(lastSequence := if e.sequence != 0 then e.sequence else b.lastSequence), e)
  }

  // ----- the program -----------------------------------------------------

  class LimitOrderBook {
    var bids: map<int, int>
    var asks: map<int, int>
    var orders: map<OrderId, MarketOrder>
    var lastSequence: nat
    var exchange: string

    function State(): Book
      reads this
    {
      Book(Ladder(bids, asks), orders, lastSequence, exchange)
    }

    constructor ()
      ensures State() == Book(EMPTY, map[], 0, "")
    {
      bids, asks, orders, lastSequence, exchange := map[], map[], map[], 0, "";
    }

    method ApplyDelta(side: Side, price: int, delta: int)
      modifies this`bids, this`asks
      ensures Ladder(bids, asks) == DeltaAt(old(Ladder(bids, asks)), side, price, delta)
    {
      var levels := if side.Bid? then bids else asks;
      var next := delta;
      if price in levels { next := levels[price] + delta; }
      if next <= 0 { levels := levels - {price}; } else { levels := levels[price := next]; }
      if side.Bid? { bids := levels; } else { asks := levels; }
    }

    method RemoveOrder(id: OrderId)
      modifies this`bids, this`asks, this`orders
      ensures State() == WithoutOrder(old(State()), id)
    {
      if id in orders {
        var existing := orders[id];
        ApplyDelta(existing.side, existing.price, 0 - existing.quantity);
        orders := orders - {id};
      }
    }

    static method LoadSide(levels: seq<PriceLevel>) returns (m: map<int, int>)
      ensures m == SnapshotSide(levels)
    {
      m := map[];
      for i := 0 to |levels|
        invariant m == SnapshotSide(levels[..i])
      {
        assert levels[..i + 1][..i] == levels[..i];
        if levels[i].quantity > 0 { m := m[levels[i].price := levels[i].quantity]; }
      }
      assert levels[..|levels|] == levels;
    }

    method Apply(e: BookEvent) returns (status: Status)
      modifies this
      ensures State() == Applied(old(State()), e)
      ensures status == if Mismatch(old(State()), e) then ExchangeMismatch else Ok
    {
      if exchange != "" && exchange != e.exchange { return ExchangeMismatch; }
      if exchange == "" { exchange := e.exchange; }
      if e.sequence != 0 && e.sequence <= lastSequence { return Ok; }
      if e.sequence != 0 { lastSequence := e.sequence; }
      match e.kind {
        case TakeSnapshot =>
          bids := LoadSide(e.snapshot.bids);
          asks := LoadSide(e.snapshot.asks);
          orders := map[];
        case NewOrder =>
          if e.order.id != 0 {
            RemoveOrder(e.order.id);
            if !Rejected(Ladder(bids, asks), e.order.side, e.order.price) {
              orders := orders[e.order.id := e.order];
              ApplyDelta(e.order.side, e.order.price, e.order.quantity);
            }
          }
        case CancelOrder =>
          if e.order.id != 0 { RemoveOrder(e.order.id); }
      }
      return Ok;
    }
  }
}
