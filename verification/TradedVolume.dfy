/** The traded volume every conversion conserves. */
module TradedVolume {
  import opened Wrappers
  import opened Events
  import opened EventBuilder

  // ---------------------------------------------------------------- traded volume

  /** Total quantity of the trade events. */
  function TradedQty(events: seq<Event>): real {
    if events == [] then 0.0
    else (if events[0].kind.Trade? && events[0].qty.Num? then events[0].qty.value else 0.0) + TradedQty(events[1..])
  }

  lemma {:induction false} TradedQtyAppend(a: seq<Event>, b: seq<Event>)
    ensures TradedQty(a + b) == TradedQty(a) + TradedQty(b)
  {
    if a == [] {
      assert a + b == b;
    } else {
      assert (a + b)[1..] == a[1..] + b;
      TradedQtyAppend(a[1..], b);
    }
  }

  lemma {:induction false} NoTradeNoQty(events: seq<Event>)
    requires forall k :: 0 <= k < |events| ==> !events[k].kind.Trade?
    ensures TradedQty(events) == 0.0
  {
    if events != [] { NoTradeNoQty(events[1..]); }
  }

  /** Volume added on trial rows since `volume`. */
  function TrialVolume(rows: seq<Row>, volume: int): int {
    if rows == [] then 0
    else (if rows[0].tradable then 0 else rows[0].totalVolume - volume) + TrialVolume(rows[1..], rows[0].totalVolume)
  }

  /** Total volume never decreases from `volume` on, and a tradable increase has a valid last price. */
  predicate SteadyVolume(rows: seq<Row>, volume: int) {
    rows != [] ==>
      && rows[0].totalVolume >= volume
      && (rows[0].tradable && rows[0].totalVolume > volume ==> rows[0].lastPrice.Positive())
      && SteadyVolume(rows[1..], rows[0].totalVolume)
  }

  lemma RowTrades(c: Converter, s: Settings, row: Row, previous: Previous)
    requires 1 <= s.levels <= |row.bids| && s.levels <= |row.asks|
    ensures TradedQty(RowEvents(c, s, row, previous))
         == if row.tradable then TradedQty(TradeEvents(s, row, previous)) else 0.0
  {
    var trades := if row.tradable then TradeEvents(s, row, previous) else [];
    var bids := SideEvents(Bid, row.exchTs, row.localTs, EmittedBook(c, s, row, previous, Bid));
    var asks := SideEvents(Ask, row.exchTs, row.localTs, EmittedBook(c, s, row, previous, Ask));
    TradedQtyAppend(trades + bids, asks);
    TradedQtyAppend(trades, bids);
    NoTradeNoQty(bids);
    NoTradeNoQty(asks);
  }

  /** A volume difference in event quantity units. */
  function Lots(s: Settings, volume: int): real { volume as real * s.rule.volumeScale }

  lemma LotsAdd(s: Settings, a: int, b: int)
    ensures Lots(s, a) + Lots(s, b) == Lots(s, a + b)
  {
  }

  /** The volume a row trades: its gain, or nothing on a trial row. */
  function RowGain(row: Row, volume: int): int { if row.tradable then row.totalVolume - volume else 0 }

  lemma RowVolume(c: Converter, s: Settings, row: Row, previous: Previous)
    requires 1 <= s.levels <= |row.bids| && s.levels <= |row.asks| && s.trades && !s.tradeSide.NoTradeSide?
    requires previous.volume.Some? && row.totalVolume >= previous.volume.value
    requires row.tradable && row.totalVolume > previous.volume.value ==> row.lastPrice.Positive()
    ensures TradedQty(RowEvents(c, s, row, previous)) == Lots(s, RowGain(row, previous.volume.value))
  {
    RowTrades(c, s, row, previous);
    var trades := TradeEvents(s, row, previous);
    if trades != [] {
      assert trades[1..] == [];
    }
  }

  /** The first row's trades come before those of the rest. */
  lemma TradedQtyFrom(c: Converter, s: Settings, rows: seq<Row>, width: nat, previous: Previous)
    requires SourceRows(s, rows, width) && rows != []
    ensures SourceRows(s, rows[1..], width)
    ensures TradedQty(BuildFrom(c, s, rows, width, previous))
         == TradedQty(RowEvents(c, s, rows[0], previous))
            + TradedQty(BuildFrom(c, s, rows[1..], width, NextPrevious(c, s, rows[0], previous)))
  {
    hide RowEvents, NextPrevious, TradedQty;
    TradedQtyAppend(RowEvents(c, s, rows[0], previous),
                    BuildFrom(c, s, rows[1..], width, NextPrevious(c, s, rows[0], previous)));
  }

  /** The volume part of the previous values follows the rows. */
  lemma NextVolume(c: Converter, s: Settings, row: Row, previous: Previous)
    requires 1 <= s.levels <= |row.bids| && s.levels <= |row.asks|
    ensures NextPrevious(c, s, row, previous).volume == Some(row.totalVolume)
  {
  }

  /** Gains and trial volumes of a row and of the rows after it. */
  lemma SplitGain(s: Settings, gain: int, trial: int, later: int, rest: int)
    ensures Lots(s, gain) + Lots(s, rest) + Lots(s, trial + later) - Lots(s, later)
         == Lots(s, gain + trial + rest)
  {
    LotsAdd(s, trial, later);
    LotsAdd(s, gain, trial);
    LotsAdd(s, gain + trial, rest);
    hide Lots;
  }

  /** The last row's total volume, or `volume` without rows. */
  function LastVolume(rows: seq<Row>, volume: int): int {
    if rows == [] then volume else rows[|rows| - 1].totalVolume
  }

  /** Traded plus trial volume is the whole gain, from any point of a conversion. */
  lemma {:induction false} VolumeFrom(c: Converter, s: Settings, rows: seq<Row>, width: nat, previous: Previous)
    requires SourceRows(s, rows, width) && s.trades && !s.tradeSide.NoTradeSide?
    requires previous.volume.Some? && SteadyVolume(rows, previous.volume.value)
    ensures
      TradedQty(BuildFrom(c, s, rows, width, previous)) + Lots(s, TrialVolume(rows, previous.volume.value))
      == Lots(s, LastVolume(rows, previous.volume.value) - previous.volume.value)
  {
    var volume := previous.volume.value;
    if rows != [] {
      var row := rows[0];
      hide RowEvents, NextPrevious, Lots, BuildFrom, TradedQty, RowGain, SourceRows;
      var next := NextPrevious(c, s, row, previous);
      NextVolume(c, s, row, previous);
      TradedQtyFrom(c, s, rows, width, previous);
      VolumeFrom(c, s, rows[1..], width, next);
      RowVolume(c, s, row, previous);
      var gain := RowGain(row, volume);
      SplitGain(s, gain, row.totalVolume - volume - gain, TrialVolume(rows[1..], row.totalVolume),
                LastVolume(rows[1..], row.totalVolume) - row.totalVolume);
    } else {
      LotsAdd(s, 0, 0);
    }
  }

  /** Either converter: emitted trade quantity plus the scaled volume of trial rows is the scaled
      volume gained over the rows. */
  lemma VolumeConserved(c: Converter, s: Settings, rows: seq<Row>, width: nat)
    requires SourceRows(s, rows, width) && rows != [] && s.trades && !s.tradeSide.NoTradeSide?
    requires SteadyVolume(rows[1..], rows[0].totalVolume)
    ensures
      TradedQty(BuildFrom(c, s, rows, width, NO_PREVIOUS)) + Lots(s, TrialVolume(rows[1..], rows[0].totalVolume))
      == Lots(s, rows[|rows| - 1].totalVolume - rows[0].totalVolume)
  {
    var row := rows[0];
    FirstRowTradesNothing(c, s, row);
    hide RowEvents, NextPrevious, Lots, BuildFrom, TradedQty, TrialVolume, SteadyVolume;
    NextVolume(c, s, row, NO_PREVIOUS);
    TradedQtyFrom(c, s, rows, width, NO_PREVIOUS);
    VolumeFrom(c, s, rows[1..], width, NextPrevious(c, s, row, NO_PREVIOUS));
    assert LastVolume(rows[1..], row.totalVolume) == rows[|rows| - 1].totalVolume;
  }

  lemma FirstRowTradesNothing(c: Converter, s: Settings, row: Row)
    requires 1 <= s.levels <= |row.bids| && s.levels <= |row.asks|
    ensures TradedQty(RowEvents(c, s, row, NO_PREVIOUS)) == 0.0
  {
    RowTrades(c, s, row, NO_PREVIOUS);
    hide RowEvents;
  }
}
