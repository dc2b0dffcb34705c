/**
 * FromDomain and ToDomain (services/common/grpc_helpers.hpp): prices and
 * quantities travel as text with eight decimals.
 */
module GrpcTrip {
  import opened Arithmetic
  import opened Options
  import opened Levels
  import opened Decimal
  import opened DecimalText

  datatype Book = Book(bestBid: PriceLevel, bestAsk: PriceLevel, bids: seq<PriceLevel>, asks: seq<PriceLevel>)

  datatype WireLevel = WireLevel(price: string, quantity: string)

  datatype Message = Message(bestBid: WireLevel, bestAsk: WireLevel, bids: seq<WireLevel>, asks: seq<WireLevel>)

  /** Every value can be printed. */
  predicate PrintableLevel(l: PriceLevel) { Abs(l.price) < TWO_127 && Abs(l.quantity) < TWO_127 }

  predicate PrintableLevels(levels: seq<PriceLevel>) { forall i :: 0 <= i < |levels| ==> PrintableLevel(levels[i]) }

  predicate Printable(b: Book) {
    PrintableLevel(b.bestBid) && PrintableLevel(b.bestAsk) && PrintableLevels(b.bids) && PrintableLevels(b.asks)
  }

  function Write(l: PriceLevel): WireLevel
    requires PrintableLevel(l)
  {
    WireLevel(Print(l.price, 8), Print(l.quantity, 8))
  }

  function WriteLevels(levels: seq<PriceLevel>): seq<WireLevel>
    requires PrintableLevels(levels)
  {
    if levels == [] then [] else WriteLevels(levels[..|levels| - 1]) + [Write(levels[|levels| - 1])]
  }

  /** None where fromString throws. */
  function Read(w: WireLevel): Option<PriceLevel> {
    match (Parse(w.price), Parse(w.quantity))
    case (Ok(price), Ok(quantity)) => Some(PriceLevel(price, quantity))
    case _ => None
  }

  function ReadLevels(ws: seq<WireLevel>): Option<seq<PriceLevel>> {
    if ws == [] then Some([])
    else
      match (ReadLevels(ws[..|ws| - 1]), Read(ws[|ws| - 1]))
      case (Some(levels), Some(l)) => Some(levels + [l])
      case _ => None
  }

  function ReadBook(m: Message): Option<Book> {
    match (Read(m.bestBid), Read(m.bestAsk))
    case (Some(bestBid), Some(bestAsk)) =>
      (match (ReadLevels(m.bids), ReadLevels(m.asks))
       case (Some(bids), Some(asks)) => Some(Book(bestBid, bestAsk, bids, asks))
       case _ => None)
    case _ => None
  }

  // ----- the program -----------------------------------------------------

  method WriteLevel(l: PriceLevel) returns (w: WireLevel)
    requires PrintableLevel(l)
    ensures w == Write(l)
  {
    var price := ToString(l.price, 8);
    var quantity := ToString(l.quantity, 8);
    w := WireLevel(price, quantity);
  }

  method AddLevels(levels: seq<PriceLevel>) returns (ws: seq<WireLevel>)
    requires PrintableLevels(levels)
    ensures ws == WriteLevels(levels)
  {
    ws := [];
    for i := 0 to |levels|
      invariant ws == WriteLevels(levels[..i])
    {
      assert levels[..i + 1][..i] == levels[..i];
      var w := WriteLevel(levels[i]);
      ws := ws + [w];
    }
    assert levels[..|levels|] == levels;
  }

  method FromDomain(b: Book) returns (m: Message)
    requires Printable(b)
    ensures m == Message(Write(b.bestBid), Write(b.bestAsk), WriteLevels(b.bids), WriteLevels(b.asks))
  {
    var bestBid := WriteLevel(b.bestBid);
    var bestAsk := WriteLevel(b.bestAsk);
    var bids := AddLevels(b.bids);
    var asks := AddLevels(b.asks);
    m := Message(bestBid, bestAsk, bids, asks);
  }

  method ReadLevel(w: WireLevel) returns (l: Option<PriceLevel>)
    ensures l == Read(w)
  {
    var price := FromString(w.price);
    var quantity := FromString(w.quantity);
    if price.Ok? && quantity.Ok? { return Some(PriceLevel(price.raw, quantity.raw)); }
    return None;
  }

  method CollectLevels(ws: seq<WireLevel>) returns (levels: Option<seq<PriceLevel>>)
    ensures levels == ReadLevels(ws)
  {
    levels := Some([]);
    for i := 0 to |ws|
      invariant levels == ReadLevels(ws[..i])
    {
      assert ws[..i + 1][..i] == ws[..i];
      var l := ReadLevel(ws[i]);
      levels := if levels.Some? && l.Some? then Some(levels.value + [l.value]) else None;
    }
    assert ws[..|ws|] == ws;
  }

  method ToDomain(m: Message) returns (b: Option<Book>)
    ensures b == ReadBook(m)
  {
    var bestBid := ReadLevel(m.bestBid);
    var bestAsk := ReadLevel(m.bestAsk);
    var bids := CollectLevels(m.bids);
    var asks := CollectLevels(m.asks);
    if bestBid.Some? && bestAsk.Some? && bids.Some? && asks.Some? {
      return Some(Book(bestBid.value, bestAsk.value, bids.value, asks.value));
    }
    return None;
  }

  // ----- what is on the wire ---------------------------------------------

  /** text is x cut to eight decimals. */
  ghost predicate IsWritten(text: string, x: Int128) {
    exists integral, fraction :: IsLayout(text, x, 8, integral, fraction)
  }

  lemma {:induction false} WrittenInPlace(levels: seq<PriceLevel>, i: nat)
    requires PrintableLevels(levels) && i < |levels|
    ensures |WriteLevels(levels)| == |levels| && WriteLevels(levels)[i] == Write(levels[i])
  {
    hide Write;
    var n := |levels| - 1;
    if n > 0 { WrittenInPlace(levels[..n], if i < n then i else 0); }
  }

  /** Every level is on the wire in its place, its price and its quantity each with
      exactly eight decimals. */
  lemma MessageShows(levels: seq<PriceLevel>, i: nat)
    requires PrintableLevels(levels) && i < |levels|
    ensures |WriteLevels(levels)| == |levels|
    ensures IsWritten(WriteLevels(levels)[i].price, levels[i].price)
    ensures IsWritten(WriteLevels(levels)[i].quantity, levels[i].quantity)
  {
    WrittenInPlace(levels, i);
    PrintHasLayout(levels[i].price, 8);
    PrintHasLayout(levels[i].quantity, 8);
  }

  // ----- the trip --------------------------------------------------------

  /** What arrives: everything truncated toward zero to eight decimals. */
  function Arrived(l: PriceLevel): PriceLevel { PriceLevel(Truncated(l.price, 8), Truncated(l.quantity, 8)) }

  function ArrivedLevels(levels: seq<PriceLevel>): (arrived: seq<PriceLevel>)
    ensures |arrived| == |levels| && forall i :: 0 <= i < |levels| ==> arrived[i] == Arrived(levels[i])
  {
    if levels == [] then [] else ArrivedLevels(levels[..|levels| - 1]) + [Arrived(levels[|levels| - 1])]
  }

  lemma LevelArrives(l: PriceLevel)
    requires PrintableLevel(l)
    ensures Read(Write(l)) == Some(Arrived(l))
  {
    RoundTrip(l.price, 8);
    RoundTrip(l.quantity, 8);
  }

  lemma ReadOneMore(ws: seq<WireLevel>, w: WireLevel, levels: seq<PriceLevel>, l: PriceLevel)
    requires ReadLevels(ws) == Some(levels) && Read(w) == Some(l)
    ensures ReadLevels(ws + [w]) == Some(levels + [l])
  {
  }

  lemma {:induction false} LevelsArrive(levels: seq<PriceLevel>)
    requires PrintableLevels(levels)
    ensures ReadLevels(WriteLevels(levels)) == Some(ArrivedLevels(levels))
  {
    if levels != [] {
      var n := |levels| - 1;
      LevelsArrive(levels[..n]);
      LevelArrives(levels[n]);
      ReadOneMore(WriteLevels(levels[..n]), Write(levels[n]), ArrivedLevels(levels[..n]), Arrived(levels[n]));
    }
  }

  /** No message written from a book is rejected, and the book arrives
      truncated, value by value. */
  lemma BookArrives(b: Book)
    requires Printable(b)
    ensures ReadBook(Message(Write(b.bestBid), Write(b.bestAsk), WriteLevels(b.bids), WriteLevels(b.asks)))
            == Some(Book(Arrived(b.bestBid), Arrived(b.bestAsk), ArrivedLevels(b.bids), ArrivedLevels(b.asks)))
  {
    LevelArrives(b.bestBid);
    LevelArrives(b.bestAsk);
    LevelsArrive(b.bids);
    LevelsArrive(b.asks);
  }

  /** Sorted levels arrive sorted, though perhaps no longer strictly. */
  lemma TripKeepsOrder(side: Side, levels: seq<PriceLevel>, i: nat, j: nat)
    requires Sorted(side, levels) && i < j < |levels|
    ensures AtLeastAsGood(side, ArrivedLevels(levels)[i].price, ArrivedLevels(levels)[j].price)
  {
    if side.Bid? { TruncationKeepsOrder(levels[j].price, levels[i].price, 8); }
    else { TruncationKeepsOrder(levels[i].price, levels[j].price, 8); }
  }

  ghost predicate EightDecimals(l: PriceLevel) {
    Abs(l.price) % 10_000_000_000 == 0 && Abs(l.quantity) % 10_000_000_000 == 0
  }

  lemma UnitOfEight()
    ensures Unit(8) == 10_000_000_000
  {
  }

  /** Levels arrive unchanged exactly when none has more than eight decimals. */
  lemma LosslessIff(levels: seq<PriceLevel>)
    ensures ArrivedLevels(levels) == levels <==> forall i :: 0 <= i < |levels| ==> EightDecimals(levels[i])
  {
    UnitOfEight();
    forall i | 0 <= i < |levels| ensures Arrived(levels[i]) == levels[i] <==> EightDecimals(levels[i]) {
      SurvivesIff(levels[i].price, 8);
      SurvivesIff(levels[i].quantity, 8);
    }
    if ArrivedLevels(levels) == levels {
      forall i | 0 <= i < |levels| ensures Arrived(levels[i]) == levels[i] {
        assert ArrivedLevels(levels)[i] == levels[i];
      }
    }
  }

  // ----- what can be lost ------------------------------------------------

  /** Neighbours whose prices still differ on the wire. */
  ghost predicate NeighboursDiffer(levels: seq<PriceLevel>) {
    forall i: nat :: i + 1 < |levels| ==> Truncated(levels[i].price, 8) != Truncated(levels[i + 1].price, 8)
  }

  /** Strictly better on the wire, however far apart. */
  lemma {:induction false} FarArriveApart(side: Side, levels: seq<PriceLevel>, i: nat, j: nat)
    requires Sorted(side, levels) && NeighboursDiffer(levels) && i < j < |levels|
    ensures Better(side, Truncated(levels[i].price, 8), Truncated(levels[j].price, 8))
    decreases j
  {
    TripKeepsOrder(side, levels, j - 1, j);
    assert Truncated(levels[j - 1].price, 8) != Truncated(levels[j].price, 8);
    if i < j - 1 { FarArriveApart(side, levels, i, j - 1); }
  }

  /** Strictly sorted levels arrive strictly sorted exactly when no two neighbours
      have prices that agree in eight decimals. */
  lemma StrictOrderArrivesIff(side: Side, levels: seq<PriceLevel>)
    requires Sorted(side, levels)
    ensures Sorted(side, ArrivedLevels(levels)) <==> NeighboursDiffer(levels)
  {
    var arrived := ArrivedLevels(levels);
    if NeighboursDiffer(levels) {
      forall i, j | 0 <= i < j < |arrived| ensures Better(side, arrived[i].price, arrived[j].price) {
        FarArriveApart(side, levels, i, j);
      }
    } else {
      var i: nat :| i + 1 < |levels| && Truncated(levels[i].price, 8) == Truncated(levels[i + 1].price, 8);
      assert !Better(side, arrived[i].price, arrived[i + 1].price);
    }
  }

  lemma PositiveArrivesAlone(quantity: int)
    ensures Truncated(quantity, 8) > 0 <==> quantity >= 10_000_000_000
  {
    UnitOfEight();
    FloorBounds(Abs(quantity), 10_000_000_000);
  }

  /** Quantities arrive positive exactly when each is at least one unit of the
      eighth decimal. */
  lemma PositiveArrivesIff(levels: seq<PriceLevel>)
    ensures Positive(ArrivedLevels(levels)) <==> forall i :: 0 <= i < |levels| ==> levels[i].quantity >= 10_000_000_000
  {
    var arrived := ArrivedLevels(levels);
    forall i | 0 <= i < |levels| ensures arrived[i].quantity > 0 <==> levels[i].quantity >= 10_000_000_000 {
      PositiveArrivesAlone(levels[i].quantity);
    }
  }

  /** So a side of a book arrives as a side of a book exactly when both hold. */
  lemma ValidSideArrivesIff(side: Side, levels: seq<PriceLevel>)
    requires ValidSide(side, levels)
    ensures ValidSide(side, ArrivedLevels(levels))
            <==> NeighboursDiffer(levels) && forall i :: 0 <= i < |levels| ==> levels[i].quantity >= 10_000_000_000
  {
    StrictOrderArrivesIff(side, levels);
    PositiveArrivesIff(levels);
  }

  /** Two uncrossed sides arrive uncrossed exactly when their best prices still
      differ. */
  lemma UncrossedArrivesIff(bids: seq<PriceLevel>, asks: seq<PriceLevel>)
    requires Uncrossed(bids, asks)
    ensures Uncrossed(ArrivedLevels(bids), ArrivedLevels(asks))
            <==> (bids != [] && asks != [] ==> Truncated(bids[0].price, 8) != Truncated(asks[0].price, 8))
  {
    if bids != [] && asks != [] { TruncationKeepsOrder(bids[0].price, asks[0].price, 8); }
  }

  /** A concrete case of both losses: two prices one unit of 10^-18 apart arrive
      equal, and with no quantity. */
  lemma StrictOrderCanBeLost()
    ensures Sorted(Bid, [PriceLevel(2, 1), PriceLevel(1, 1)])
    ensures ArrivedLevels([PriceLevel(2, 1), PriceLevel(1, 1)]) == [PriceLevel(0, 0), PriceLevel(0, 0)]
  {
  }
}
