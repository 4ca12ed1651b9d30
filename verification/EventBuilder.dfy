/** Snapshot rows to events: the row converter, the columnar converter, and what both conserve. */
module EventBuilder {
  import opened Wrappers
  import opened Events
  import opened DepthBook
  import opened DepthAggregation

  datatype Row = Row(
    exchTs: int, localTs: int, totalVolume: int, lastPrice: Num, bids: seq<SideLevel>, asks: seq<SideLevel>, tradable: bool)
  {
    function Side(side: BookSide): seq<SideLevel> { if side.Bid? then bids else asks }
  }

  datatype TradeSide = AlwaysBuy | AlwaysSell | Infer | NoTradeSide

  datatype Settings = Settings(levels: nat, rule: QtyRule, trades: bool, tradeSide: TradeSide, depth: bool)

  datatype Converter = ByRow | ByColumn

  /** What a converter remembers of the rows before. */
  datatype Previous = Previous(volume: Option<int>, bid: Num, ask: Num, last: Num)

  const NO_PREVIOUS := Previous(None, NaN, NaN, NaN)

  /** Every row carries the same source columns, at least the selected ones. */
  predicate SourceRows(s: Settings, rows: seq<Row>, width: nat) {
    && 1 <= s.levels <= width
    && (forall k :: 0 <= k < |rows| ==> |rows[k].bids| == width && |rows[k].asks| == width)
  }

  // ---------------------------------------------------------------- the parts of a row

  /** infer_trade_flag: buys are flagged Bid, sells Ask. */
  function InferFlag(px: real, bid: Num, ask: Num, last: Num): BookSide {
    if ask.Num? && px >= ask.value then Bid
    else if bid.Num? && px <= bid.value then Ask
    else if last.Num? && px > last.value then Bid
    else if last.Num? && px < last.value then Ask
    else Bid
  }

  function TradeFlag(s: Settings, px: real, previous: Previous): BookSide {
    match s.tradeSide
    case AlwaysBuy => Bid
    case AlwaysSell => Ask
    case _ => InferFlag(px, previous.bid, previous.ask, previous.last)
  }

  function TradeEvents(s: Settings, row: Row, previous: Previous): (events: seq<Event>)
    ensures |events| <= 1
  {
    if !s.trades || s.tradeSide.NoTradeSide? || previous.volume.None? || !row.lastPrice.Positive()
      || row.totalVolume <= previous.volume.value then []
    else
      [MakeEvent(Trade, TradeFlag(s, row.lastPrice.value, previous), row.exchTs, row.localTs, row.lastPrice,
                 Num((row.totalVolume - previous.volume.value) as real * s.rule.volumeScale))]
  }

  function Snapshots(side: BookSide, exchTs: int, localTs: int, book: seq<Quoted>): (events: seq<Event>)
    ensures |events| == |book|
    ensures forall k :: 0 <= k < |book| ==>
      events[k] == MakeEvent(DepthSnapshot, side, exchTs, localTs, Num(book[k].px), Num(book[k].qty))
  {
    seq(|book|, k requires 0 <= k < |book| =>
      MakeEvent(DepthSnapshot, side, exchTs, localTs, Num(book[k].px), Num(book[k].qty)))
  }

  /** Clear the side up to its worst price, then insert its levels. */
  function SideEvents(side: BookSide, exchTs: int, localTs: int, book: seq<Quoted>): (events: seq<Event>)
    ensures |events| == if book == [] then 0 else |book| + 1
  {
    if book == [] then []
    else
      [MakeEvent(DepthClear, side, exchTs, localTs, Num(book[|book| - 1].px), Num(0.0))]
      + Snapshots(side, exchTs, localTs, book)
  }

  function FirstPositive(values: seq<Num>): Num {
    if values == [] then NaN else if values[0].Positive() then values[0] else FirstPositive(values[1..])
  }

  /** The price that marks a trial row on both sides. */
  function Marker(row: Row, previous: Previous): Num
    requires row.bids != [] && row.asks != []
  {
    FirstPositive([row.asks[0].px, row.bids[0].px, row.lastPrice, previous.ask, previous.bid])
  }

  /** All valid levels of one side: of the selected columns by row, of every source column otherwise. */
  function FullBook(c: Converter, s: Settings, row: Row, side: BookSide): seq<Quoted>
    requires s.levels <= |row.Side(side)|
  {
    match c
    case ByRow => SideBook(s.rule.(blankOnly := true), side, row.Side(side)[..s.levels])
    case ByColumn => SideBook(s.rule.(blankOnly := false), side, row.Side(side))
  }

  /** The levels a row emits for one side. */
  function EmittedBook(c: Converter, s: Settings, row: Row, previous: Previous, side: BookSide): seq<Quoted>
    requires s.levels <= |row.Side(side)| && row.bids != [] && row.asks != []
  {
    if !s.depth then []
    else if !row.tradable then
      var marker := Marker(row, previous);
      if marker.NaN? then [] else [Quoted(marker.value, 1.0)]
    else
      var book := FullBook(c, s, row, side);
      book[..MinInt(|book|, s.levels)]
  }

  function RowEvents(c: Converter, s: Settings, row: Row, previous: Previous): seq<Event>
    requires 1 <= s.levels <= |row.bids| && s.levels <= |row.asks|
  {
    (if row.tradable then TradeEvents(s, row, previous) else [])
    + SideEvents(Bid, row.exchTs, row.localTs, EmittedBook(c, s, row, previous, Bid))
    + SideEvents(Ask, row.exchTs, row.localTs, EmittedBook(c, s, row, previous, Ask))
  }

  function BestOf(book: seq<Quoted>): Num { if book == [] then NaN else Num(book[0].px) }

  /** The quote remembered from a row: the raw level 1 by row, the best valid level otherwise. */
  function Remembered(c: Converter, s: Settings, row: Row, side: BookSide): Num
    requires 1 <= s.levels <= |row.Side(side)|
  {
    if c.ByRow? then row.Side(side)[0].px else BestOf(FullBook(c, s, row, side))
  }

  function NextPrevious(c: Converter, s: Settings, row: Row, previous: Previous): Previous
    requires 1 <= s.levels <= |row.bids| && s.levels <= |row.asks|
  {
    if !row.tradable then previous.(volume := Some(row.totalVolume))
    else Previous(Some(row.totalVolume), Remembered(c, s, row, Bid), Remembered(c, s, row, Ask), row.lastPrice)
  }

  function BuildFrom(c: Converter, s: Settings, rows: seq<Row>, width: nat, previous: Previous): seq<Event>
    requires SourceRows(s, rows, width)
  {
    if rows == [] then []
    else RowEvents(c, s, rows[0], previous) + BuildFrom(c, s, rows[1..], width, NextPrevious(c, s, rows[0], previous))
  }

  datatype BuildError = TrialRowNeedsDepth

  /** Both converters refuse trial rows when depth events are switched off. */
  function Build(c: Converter, s: Settings, rows: seq<Row>, width: nat): Result<seq<Event>, BuildError>
    requires SourceRows(s, rows, width)
  {
    if !s.depth && exists k :: 0 <= k < |rows| && !rows[k].tradable then Err(TrialRowNeedsDepth)
    else Ok(BuildFrom(c, s, rows, width, NO_PREVIOUS))
  }

  // ---------------------------------------------------------------- the loops

  /** What one row may need at most. */
  function MaxEventsPerRow(s: Settings): nat { MaxInt(4, 2 * s.levels + 3) }

  lemma RowEventsFit(c: Converter, s: Settings, row: Row, previous: Previous)
    requires 1 <= s.levels <= |row.bids| && s.levels <= |row.asks|
    ensures |RowEvents(c, s, row, previous)| <= MaxEventsPerRow(s)
    ensures row.tradable ==> |EmittedBook(c, s, row, previous, Bid)| <= s.levels
    ensures row.tradable ==> |EmittedBook(c, s, row, previous, Ask)| <= s.levels
  {
  }

  /** Write one side after `written` records. */
  method WriteSide(out: array<Event>, written: nat, side: BookSide, row: Row, book: seq<Quoted>) returns (after: nat)
    requires written + |book| + 1 <= out.Length
    modifies out
    ensures after <= out.Length
    ensures out[..after] == old(out[..written]) + SideEvents(side, row.exchTs, row.localTs, book)
  {
    after := written;
    if book == [] {
      return;
    }
    ghost var events := SideEvents(side, row.exchTs, row.localTs, book);
    out[after] := MakeEvent(DepthClear, side, row.exchTs, row.localTs, Num(book[|book| - 1].px), Num(0.0));
    after := after + 1;
    for index := 0 to |book|
      invariant after == written + 1 + index
      invariant out[..after] == old(out[..written]) + events[..1 + index]
    {
      out[after] := MakeEvent(DepthSnapshot, side, row.exchTs, row.localTs, Num(book[index].px), Num(book[index].qty));
      after := after + 1;
      assert events[..index + 2] == events[..index + 1] + [events[index + 1]];
      assert out[..after] == out[..after - 1] + [out[after - 1]];
    }
    assert events[..1 + |book|] == events;
  }

  /** A trial row: one level at the marker on both sides. */
  method WriteTrialRow(s: Settings, row: Row, previous: Previous, out: array<Event>, written: nat)
    returns (after: nat, next: Previous)
    requires 1 <= s.levels <= |row.bids| && s.levels <= |row.asks| && !row.tradable
    requires written + MaxEventsPerRow(s) <= out.Length
    modifies out
    ensures next == NextPrevious(ByColumn, s, row, previous)
    ensures after <= out.Length
    ensures out[..after] == old(out[..written]) + RowEvents(ByColumn, s, row, previous)
  {
    after, next := written, previous.(volume := Some(row.totalVolume));
    var marker := Marker(row, previous);
    if s.depth && marker.Num? {
      after := WriteSide(out, after, Bid, row, [Quoted(marker.value, 1.0)]);
      after := WriteSide(out, after, Ask, row, [Quoted(marker.value, 1.0)]);
    }
  }

  /** Aggregate one side and write its selected levels; `best` is remembered for the next row. */
  method WriteBookSide(
    s: Settings, row: Row, side: BookSide, out: array<Event>, written: nat,
    workPrices: array<real>, workQuantities: array<real>) returns (after: nat, best: Num)
    requires s.levels <= |row.Side(side)| <= workPrices.Length && |row.Side(side)| <= workQuantities.Length
    requires workPrices != workQuantities
    requires written + s.levels + 1 <= out.Length
    modifies out, workPrices, workQuantities
    ensures best == BestOf(FullBook(ByColumn, s, row, side))
    ensures
      var book := FullBook(ByColumn, s, row, side);
      var emitted := if s.depth then book[..MinInt(|book|, s.levels)] else [];
      && after == written + |SideEvents(side, row.exchTs, row.localTs, emitted)| <= out.Length
      && out[..after] == old(out[..written]) + SideEvents(side, row.exchTs, row.localTs, emitted)
  {
    var count := AggregateDepthSide(s.rule.(blankOnly := false), side, row.Side(side), workPrices, workQuantities);
    var book := Work(workPrices, workQuantities, count);
    best := BestOf(book);
    after := written;
    if s.depth {
      after := WriteSide(out, after, side, row, book[..MinInt(count, s.levels)]);
    }
  }

  method WriteTradableRow(
    s: Settings, row: Row, previous: Previous, out: array<Event>, written: nat,
    workPrices: array<real>, workQuantities: array<real>) returns (after: nat, next: Previous)
    requires 1 <= s.levels <= |row.bids| == |row.asks| && row.tradable
    requires |row.bids| <= workPrices.Length && |row.bids| <= workQuantities.Length && workPrices != workQuantities
    requires written + MaxEventsPerRow(s) <= out.Length
    modifies out, workPrices, workQuantities
    ensures next == NextPrevious(ByColumn, s, row, previous)
    ensures after <= out.Length
    ensures out[..after] == old(out[..written]) + RowEvents(ByColumn, s, row, previous)
  {
    hide SideEvents, TradeEvents, FullBook;
    after := written;
    var trades := TradeEvents(s, row, previous);
    if trades != [] {
      out[after] := trades[0];
      after := after + 1;
    }
    assert out[..after] == old(out[..written]) + trades;
    var bid, ask: Num;
    after, bid := WriteBookSide(s, row, Bid, out, after, workPrices, workQuantities);
    after, ask := WriteBookSide(s, row, Ask, out, after, workPrices, workQuantities);
    next := Previous(Some(row.totalVolume), bid, ask, row.lastPrice);
  }

  /** The columnar loop over the preallocated output; it stays within the allocation for every input. */
  method FillEventsFromColumns(s: Settings, rows: seq<Row>, width: nat, out: array<Event>) returns (written: nat)
    requires SourceRows(s, rows, width)
    requires out.Length == |rows| * MaxEventsPerRow(s)
    modifies out
    ensures written <= out.Length
    ensures out[..written] == BuildFrom(ByColumn, s, rows, width, NO_PREVIOUS)
  {
    hide RowEvents, NextPrevious, MaxEventsPerRow;
    written := 0;
    var previous := NO_PREVIOUS;
    var workPrices, workQuantities := new real[width], new real[width];
    for index := 0 to |rows|
      invariant fresh(workPrices) && fresh(workQuantities)
      invariant written <= index * MaxEventsPerRow(s) && written <= out.Length
      invariant out[..written] + BuildFrom(ByColumn, s, rows[index..], width, previous)
             == BuildFrom(ByColumn, s, rows, width, NO_PREVIOUS)
    {
      var row := rows[index];
      ghost var before, here := out[..written], previous;
      RoomForRow(s, rows, index);
      RowEventsFit(ByColumn, s, row, previous);
      if !row.tradable {
        written, previous := WriteTrialRow(s, row, previous, out, written);
      } else {
        written, previous := WriteTradableRow(s, row, previous, out, written, workPrices, workQuantities);
      }
      assert out[..written] == before + RowEvents(ByColumn, s, row, here);
      assert |out[..written]| <= |before| + MaxEventsPerRow(s);
      assert rows[index..][0] == row && rows[index..][1..] == rows[index + 1..];
    }
    assert rows[|rows|..] == [];
  }

  /** The row converter's loop: it appends each row's events to a list. */
  method BuildEventsFromRows(s: Settings, rows: seq<Row>, width: nat) returns (result: Result<seq<Event>, BuildError>)
    requires SourceRows(s, rows, width)
    ensures result == Build(ByRow, s, rows, width)
  {
    hide RowEvents, NextPrevious;
    var events: seq<Event> := [];
    var previous := NO_PREVIOUS;
    for index := 0 to |rows|
      invariant !s.depth ==> forall k :: 0 <= k < index ==> rows[k].tradable
      invariant events + BuildFrom(ByRow, s, rows[index..], width, previous) == BuildFrom(ByRow, s, rows, width, NO_PREVIOUS)
    {
      var row := rows[index];
      if !row.tradable && !s.depth {
        assert !rows[index].tradable;
        return Err(TrialRowNeedsDepth);
      }
      events := events + RowEvents(ByRow, s, row, previous);
      previous := NextPrevious(ByRow, s, row, previous);
      assert rows[index..][0] == row && rows[index..][1..] == rows[index + 1..];
    }
    assert rows[|rows|..] == [] && events + [] == events;
    result := Ok(events);
  }

  /** The remaining allocation holds one more row. */
  lemma RoomForRow(s: Settings, rows: seq<Row>, index: nat)
    requires index < |rows|
    ensures index * MaxEventsPerRow(s) + MaxEventsPerRow(s) == (index + 1) * MaxEventsPerRow(s) <= |rows| * MaxEventsPerRow(s)
  {
  }
}
