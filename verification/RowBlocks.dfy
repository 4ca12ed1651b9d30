/** The events of a conversion, row by row: every event carries the clocks of the row it came from. */
module RowBlocks {
  import opened Events
  import opened DepthBook
  import opened EventBuilder
  import opened EventOrderProperties

  /** Every event of the block carries the row's clocks; a trade comes first, from a tradable row, at its
      last price and on the configured side. */
  predicate BlockOf(s: Settings, row: Row, block: seq<Event>) {
    && (forall k :: 0 <= k < |block| ==> block[k].exchTs == row.exchTs && block[k].localTs == row.localTs)
    && (forall k :: 0 <= k < |block| && block[k].kind.Trade? ==>
          && k == 0 && row.tradable && block[k].px == row.lastPrice
          && (s.tradeSide.AlwaysBuy? ==> block[k].side.Bid?) && (s.tradeSide.AlwaysSell? ==> block[k].side.Ask?))
  }

  lemma RowIsBlock(c: Converter, s: Settings, row: Row, previous: Previous)
    requires 1 <= s.levels <= |row.bids| && s.levels <= |row.asks|
    ensures BlockOf(s, row, RowEvents(c, s, row, previous))
  {
    hide EmittedBook, InferFlag;
  }

  /** A tradable row emits the best levels of a side and no worse ones: all of them, or as many as are
      selected. */
  lemma EmitsTheBest(c: Converter, s: Settings, row: Row, previous: Previous, side: BookSide)
    requires 1 <= s.levels <= |row.bids| && s.levels <= |row.asks| && row.tradable && s.depth
    ensures
      var full, emitted := FullBook(c, s, row, side), EmittedBook(c, s, row, previous, side);
      && |emitted| == (if |full| <= s.levels then |full| else s.levels)
      && emitted == full[..|emitted|]
      && forall i, j :: 0 <= i < |emitted| <= j < |full| ==> Better(side, emitted[i].px, full[j].px)
  {
    SideBookQuotes(
      s.rule.(blankOnly := c.ByRow?), side, if c.ByRow? then row.Side(side)[..s.levels] else row.Side(side));
    hide SideBook;
  }

  /** Where the events of row k begin. */
  function RowStart(c: Converter, s: Settings, rows: seq<Row>, width: nat, previous: Previous, k: nat): nat
    requires SourceRows(s, rows, width) && k <= |rows|
  {
    if k == 0 then 0
    else
      |RowEvents(c, s, rows[0], previous)|
      + RowStart(c, s, rows[1..], width, NextPrevious(c, s, rows[0], previous), k - 1)
  }

  /** A conversion is its rows' blocks, one after the other. */
  lemma {:induction false} ConversionIsBlocks(c: Converter, s: Settings, rows: seq<Row>, width: nat, previous: Previous, k: nat)
    requires SourceRows(s, rows, width) && k < |rows|
    ensures
      var events := BuildFrom(c, s, rows, width, previous);
      var from, to := RowStart(c, s, rows, width, previous, k), RowStart(c, s, rows, width, previous, k + 1);
      && RowStart(c, s, rows, width, previous, 0) == 0
      && RowStart(c, s, rows, width, previous, |rows|) == |events|
      && from <= to <= |events|
      && BlockOf(s, rows[k], events[from..to])
    decreases |rows|
  {
    hide RowEvents, NextPrevious;
    var row, next := rows[0], NextPrevious(c, s, rows[0], previous);
    var head, tail := RowEvents(c, s, row, previous), BuildFrom(c, s, rows[1..], width, next);
    RowIsBlock(c, s, row, previous);
    if |rows| == 1 {
      assert rows[1..] == [] && tail == [];
      assert head[0..|head|] == head;
    } else if k == 0 {
      ConversionIsBlocks(c, s, rows[1..], width, next, 0);
      assert (head + tail)[0..|head|] == head;
    } else {
      ConversionIsBlocks(c, s, rows[1..], width, next, k - 1);
      var from := RowStart(c, s, rows[1..], width, next, k - 1);
      var to := RowStart(c, s, rows[1..], width, next, k);
      assert (head + tail)[|head| + from..|head| + to] == tail[from..to];
    }
  }

  // ---------------------------------------------------------------- the smallest latency

  /** Row k emits something. */
  predicate Emits(c: Converter, s: Settings, rows: seq<Row>, width: nat, k: nat)
    requires SourceRows(s, rows, width) && k < |rows|
  {
    RowStart(c, s, rows, width, NO_PREVIOUS, k) < RowStart(c, s, rows, width, NO_PREVIOUS, k + 1)
  }

  function Latency(row: Row): int { row.localTs - row.exchTs }

  /** The smallest latency among the rows that emit. */
  ghost predicate IsSmallestRowLatency(c: Converter, s: Settings, rows: seq<Row>, width: nat, m: int)
    requires SourceRows(s, rows, width)
  {
    && (exists k :: 0 <= k < |rows| && Emits(c, s, rows, width, k) && Latency(rows[k]) == m)
    && (forall k :: 0 <= k < |rows| && Emits(c, s, rows, width, k) ==> m <= Latency(rows[k]))
  }

  /** Every event lies in the block of some row. */
  lemma {:induction false} RowOfEvent(c: Converter, s: Settings, rows: seq<Row>, width: nat, i: nat, n: nat) returns (k: nat)
    requires SourceRows(s, rows, width) && n <= |rows| && i < RowStart(c, s, rows, width, NO_PREVIOUS, n)
    ensures k < n && RowStart(c, s, rows, width, NO_PREVIOUS, k) <= i < RowStart(c, s, rows, width, NO_PREVIOUS, k + 1)
    decreases n
  {
    hide RowStart;
    NothingBefore(c, s, rows, width);
    if n == 0 {
      assert false;
    } else if i < RowStart(c, s, rows, width, NO_PREVIOUS, n - 1) {
      k := RowOfEvent(c, s, rows, width, i, n - 1);
    } else {
      k := n - 1;
    }
  }

  lemma NothingBefore(c: Converter, s: Settings, rows: seq<Row>, width: nat)
    requires SourceRows(s, rows, width)
    ensures RowStart(c, s, rows, width, NO_PREVIOUS, 0) == 0
  {
  }

  lemma EventHasRow(c: Converter, s: Settings, rows: seq<Row>, width: nat, i: nat) returns (k: nat)
    requires SourceRows(s, rows, width) && i < |BuildFrom(c, s, rows, width, NO_PREVIOUS)|
    ensures
      var e := BuildFrom(c, s, rows, width, NO_PREVIOUS)[i];
      k < |rows| && Emits(c, s, rows, width, k) && Latency(rows[k]) == e.localTs - e.exchTs
  {
    NothingConverted(c, s, rows, width);
    hide BuildFrom, RowStart;
    var events := BuildFrom(c, s, rows, width, NO_PREVIOUS);
    ConversionIsBlocks(c, s, rows, width, NO_PREVIOUS, 0);
    k := RowOfEvent(c, s, rows, width, i, |rows|);
    ConversionIsBlocks(c, s, rows, width, NO_PREVIOUS, k);
    EventInBlock(s, rows[k], events, RowStart(c, s, rows, width, NO_PREVIOUS, k), RowStart(c, s, rows, width, NO_PREVIOUS, k + 1), i);
  }

  lemma NothingConverted(c: Converter, s: Settings, rows: seq<Row>, width: nat)
    requires SourceRows(s, rows, width)
    ensures rows == [] ==> BuildFrom(c, s, rows, width, NO_PREVIOUS) == []
  {
  }

  lemma EventInBlock(s: Settings, row: Row, events: seq<Event>, from: nat, to: nat, i: nat)
    requires from <= i < to <= |events| && BlockOf(s, row, events[from..to])
    ensures events[i].exchTs == row.exchTs && events[i].localTs == row.localTs
  {
    assert events[from..to][i - from] == events[i];
  }

  lemma RowHasEvent(c: Converter, s: Settings, rows: seq<Row>, width: nat, k: nat) returns (i: nat)
    requires SourceRows(s, rows, width) && k < |rows| && Emits(c, s, rows, width, k)
    ensures
      var events := BuildFrom(c, s, rows, width, NO_PREVIOUS);
      i < |events| && Latency(rows[k]) == events[i].localTs - events[i].exchTs
  {
    hide BuildFrom, RowStart;
    ConversionIsBlocks(c, s, rows, width, NO_PREVIOUS, k);
    i := RowStart(c, s, rows, width, NO_PREVIOUS, k);
    assert BuildFrom(c, s, rows, width, NO_PREVIOUS)[i..RowStart(c, s, rows, width, NO_PREVIOUS, k + 1)][0]
        == BuildFrom(c, s, rows, width, NO_PREVIOUS)[i];
  }

  /** The latency that the timestamp correction looks at is the smallest row latency. */
  lemma SmallestLatencyIff(c: Converter, s: Settings, rows: seq<Row>, width: nat, m: int)
    requires SourceRows(s, rows, width)
    ensures IsSmallestLatency(BuildFrom(c, s, rows, width, NO_PREVIOUS), m) <==> IsSmallestRowLatency(c, s, rows, width, m)
  {
    hide BuildFrom, Emits;
    var events := BuildFrom(c, s, rows, width, NO_PREVIOUS);
    if IsSmallestLatency(events, m) {
      var i :| 0 <= i < |events| && events[i].localTs - events[i].exchTs == m;
      var k := EventHasRow(c, s, rows, width, i);
      forall j | 0 <= j < |rows| && Emits(c, s, rows, width, j) ensures m <= Latency(rows[j]) {
        var at := RowHasEvent(c, s, rows, width, j);
      }
    }
    if IsSmallestRowLatency(c, s, rows, width, m) {
      var k :| 0 <= k < |rows| && Emits(c, s, rows, width, k) && Latency(rows[k]) == m;
      var i := RowHasEvent(c, s, rows, width, k);
      forall j | 0 <= j < |events| ensures m <= events[j].localTs - events[j].exchTs {
        var at := EventHasRow(c, s, rows, width, j);
      }
    }
  }
}
