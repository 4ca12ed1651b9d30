/** What the daily capital rows count: their counters, profit and peaks, from the day's events. */
module CapitalRows {
  import opened Models
  import opened Capital

  datatype Kind = Accepted | Rejected | Exited | Unmatched | Dropped | Other

  function KindOf(action: Action): Kind {
    match action
    case AcceptedEntry => Accepted
    case RejectedEntry(_) => Rejected
    case AcceptedExit => Exited
    case IgnoredExit => Unmatched
    case Discarded => Dropped
    case Ignored => Other
  }

  function CountOf(events: seq<CapitalEvent>, kind: Kind): nat {
    if events == [] then 0
    else CountOf(events[..|events| - 1], kind) + if KindOf(events[|events| - 1].action) == kind then 1 else 0
  }

  function ExitProfit(events: seq<CapitalEvent>): real {
    if events == [] then 0.0
    else
      var e := events[|events| - 1];
      ExitProfit(events[..|events| - 1]) + if e.action.AcceptedExit? then e.realizedPnl else 0.0
  }

  /** A peak is the largest of its start and the day's values after a fill. */
  ghost predicate IsPeak(peak: real, start: real, values: seq<real>) {
    && (peak == start || exists i :: 0 <= i < |values| && values[i] == peak)
    && peak >= start && forall i :: 0 <= i < |values| ==> values[i] <= peak
  }

  datatype Use = Spot | Futures | Total

  function UseAt(e: CapitalEvent, use: Use): real {
    match use
    case Spot => e.spotUsed
    case Futures => e.futuresUsed
    case Total => e.spotUsed + e.futuresUsed
  }

  /** The use after each fill, in order. */
  function FillValues(events: seq<CapitalEvent>, use: Use): seq<real> {
    if events == [] then []
    else
      var e := events[|events| - 1];
      FillValues(events[..|events| - 1], use) + if e.action.Discarded? then [] else [UseAt(e, use)]
  }

  lemma PeakNext(peak: real, start: real, values: seq<real>, value: real)
    requires IsPeak(peak, start, values)
    ensures IsPeak(if peak < value then value else peak, start, values + [value])
  {
    var more := values + [value];
    if peak < value {
      assert more[|values|] == value;
    } else if i :| 0 <= i < |values| && values[i] == peak {
      assert more[i] == peak;
    }
  }

  /** The counters count the events of their kind, the profit adds up the exits, the peaks are peaks. */
  ghost predicate Tallied(start: DailyRow, events: seq<CapitalEvent>, row: DailyRow) {
    && row.acceptedEntries == start.acceptedEntries + CountOf(events, Accepted)
    && row.rejectedEntries == start.rejectedEntries + CountOf(events, Rejected)
    && row.acceptedExits == start.acceptedExits + CountOf(events, Exited)
    && row.unmatchedExits == start.unmatchedExits + CountOf(events, Unmatched)
    && row.discardedLots == start.discardedLots + CountOf(events, Dropped)
    && row.realizedPnl == start.realizedPnl + ExitProfit(events)
    && IsPeak(row.peakSpot, start.peakSpot, FillValues(events, Spot))
    && IsPeak(row.peakFutures, start.peakFutures, FillValues(events, Futures))
    && IsPeak(row.peakTotal, start.peakTotal, FillValues(events, Total))
  }

  lemma {:induction false} TallyCounts(start: DailyRow, events: seq<CapitalEvent>)
    ensures Tallied(start, events, TallyAll(start, events))
    decreases |events|
  {
    if events != [] {
      var n := |events| - 1;
      TallyCounts(start, events[..n]);
      TallyStep(start, events, TallyAll(start, events[..n]));
    }
  }

  lemma TallyStep(start: DailyRow, events: seq<CapitalEvent>, row: DailyRow)
    requires events != [] && Tallied(start, events[..|events| - 1], row)
    ensures Tallied(start, events, Tally(row, events[|events| - 1]))
  {
    var n := |events| - 1;
    var front, e := events[..n], events[n];
    hide IsPeak, FillValues, CountOf, ExitProfit;
    PeakStep(row.peakSpot, start.peakSpot, events, Spot);
    PeakStep(row.peakFutures, start.peakFutures, events, Futures);
    PeakStep(row.peakTotal, start.peakTotal, events, Total);
    LastCounts(events);
  }

  lemma LastCounts(events: seq<CapitalEvent>)
    requires events != []
    ensures
      var front, e := events[..|events| - 1], events[|events| - 1];
      && (forall kind :: CountOf(events, kind) == CountOf(front, kind) + if KindOf(e.action) == kind then 1 else 0)
      && ExitProfit(events) == ExitProfit(front) + if e.action.AcceptedExit? then e.realizedPnl else 0.0
  {
  }

  lemma PeakStep(peak: real, start: real, events: seq<CapitalEvent>, use: Use)
    requires events != [] && IsPeak(peak, start, FillValues(events[..|events| - 1], use))
    ensures
      var e := events[|events| - 1];
      var value := UseAt(e, use);
      IsPeak(if !e.action.Discarded? && peak < value then value else peak, start, FillValues(events, use))
  {
    var front, e := events[..|events| - 1], events[|events| - 1];
    FillNext(events, use);
    PeakNext(peak, start, FillValues(front, use), UseAt(e, use));
    hide IsPeak, FillValues;
  }

  lemma FillNext(events: seq<CapitalEvent>, use: Use)
    requires events != []
    ensures
      var n := |events| - 1;
      FillValues(events, use)
      == if events[n].action.Discarded? then FillValues(events[..n], use) else FillValues(events[..n], use) + [UseAt(events[n], use)]
  {
  }

  // ---------------------------------------------------------------- lots

  /** Lots open, plus those closed or dropped, less those accepted: what every event leaves unchanged. */
  ghost predicate LotsBalance(open: int, l: Ledger) {
    |l.open| == open + CountOf(l.events, Accepted) - CountOf(l.events, Exited) - CountOf(l.events, Dropped)
  }

  lemma CountNext(events: seq<CapitalEvent>, e: CapitalEvent, kind: Kind)
    ensures CountOf(events + [e], kind) == CountOf(events, kind) + if KindOf(e.action) == kind then 1 else 0
  {
    assert (events + [e])[..|events|] == events;
  }

  lemma CountsNext(l: Ledger, after: Ledger, e: CapitalEvent)
    requires after.events == l.events + [e]
    ensures forall kind :: CountOf(after.events, kind) == CountOf(l.events, kind) + if KindOf(e.action) == kind then 1 else 0
  {
    forall kind ensures CountOf(after.events, kind) == CountOf(l.events, kind) + if KindOf(e.action) == kind then 1 else 0 {
      CountNext(l.events, e, kind);
    }
  }

  lemma TradeBalances(cfg: CapitalConfig, open: int, l: Ledger, t: Trade)
    requires cfg.Valid() && LotsBalance(open, l)
    ensures LotsBalance(open, ApplyTrade(cfg, l, t))
  {
    hide EntryLot, Breaches, RealizedPairPnl, CapitalConfig.Valid, CountOf, LotsBalance, Release, Without;
    var after := ApplyTrade(cfg, l, t);
    var oldest := OldestOf(l.open, t.key);
    if t.signal == Exit && oldest.Some? {
      ReleaseBalances(open, l, oldest.value, AcceptedExit, RealizedPairPnl(l.open[oldest.value], t));
    } else {
      CountsNext(l, after, after.events[|l.events|]);
      EntryOrNoteBalances(open, l, after, after.events[|l.events|]);
    }
  }

  lemma EntryOrNoteBalances(open: int, l: Ledger, after: Ledger, e: CapitalEvent)
    requires LotsBalance(open, l) && !e.action.AcceptedExit? && !e.action.Discarded?
    requires |after.open| == |l.open| + if e.action.AcceptedEntry? then 1 else 0
    requires forall kind :: CountOf(after.events, kind) == CountOf(l.events, kind) + if KindOf(e.action) == kind then 1 else 0
    ensures LotsBalance(open, after)
  {
    hide CountOf;
  }

  /** An accepted exit or a discard takes one lot out and counts it. */
  lemma ReleaseBalances(open: int, l: Ledger, i: nat, action: Action, realizedPnl: real)
    requires LotsBalance(open, l) && i < |l.open| && (action.AcceptedExit? || action.Discarded?)
    ensures LotsBalance(open, Release(l, i, action, realizedPnl))
  {
    var after := Release(l, i, action, realizedPnl);
    CountsNext(l, after, after.events[|l.events|]);
    hide CountOf;
  }

  lemma {:induction false} TradesBalance(cfg: CapitalConfig, open: int, l: Ledger, trades: seq<Trade>)
    requires cfg.Valid() && LotsBalance(open, l)
    ensures LotsBalance(open, ApplyTrades(cfg, l, trades))
    decreases |trades|
  {
    if trades != [] {
      TradesBalance(cfg, open, l, trades[..|trades| - 1]);
      TradeBalances(cfg, open, ApplyTrades(cfg, l, trades[..|trades| - 1]), trades[|trades| - 1]);
    }
  }

  lemma {:induction false} DiscardBalances(open: int, l: Ledger, key: PositionKey)
    requires LotsBalance(open, l)
    ensures LotsBalance(open, Discard(l, key))
    decreases |l.open|
  {
    var oldest := OldestOf(l.open, key);
    if oldest.Some? {
      ReleaseBalances(open, l, oldest.value, Discarded, 0.0);
      DiscardBalances(open, Release(l, oldest.value, Discarded, 0.0), key);
    }
  }

  lemma {:induction false} DiscardAllBalances(open: int, l: Ledger, keys: seq<PositionKey>)
    requires LotsBalance(open, l)
    ensures LotsBalance(open, DiscardAll(l, keys))
    decreases |keys|
  {
    if keys != [] {
      DiscardAllBalances(open, l, keys[..|keys| - 1]);
      DiscardBalances(open, DiscardAll(l, keys[..|keys| - 1]), keys[|keys| - 1]);
    }
  }

  /** The row of a date: its counters count the date's events, its profit adds up the accepted exits, its
      peaks are the largest use at the start or after a fill, and the lots it ends with are those it
      started with, plus accepted entries, less accepted exits and discards. */
  lemma DailyRowBalances(cfg: CapitalConfig, l: Ledger, day: Day)
    requires cfg.Valid()
    ensures
      var start, end, row := DayStart(cfg, l), ReplayDay(cfg, l, day), DailyRowOf(cfg, l, day);
      && Tallied(OpeningRow(start), end.events, row)
      && row.endingOpenLots == |start.open| + row.acceptedEntries - row.acceptedExits - row.discardedLots
      && row.endingOpenLots == |end.open| && row.endingSpot == end.spotUsed && row.endingFutures == end.futuresUsed
  {
    hide TallyAll, ApplyTrades, DiscardAll, IsPeak, CountOf, ExitProfit, FillValues, CapitalConfig.Valid, DayStart, OpeningRow;
    var start, end := DayStart(cfg, l), ReplayDay(cfg, l, day);
    StartBalances(cfg, l);
    TallyCounts(OpeningRow(start), end.events);
    DiscardAllBalances(|start.open|, start, day.discards);
    TradesBalance(cfg, |start.open|, DiscardAll(start, day.discards), day.trades);
    OpensAtZero(start);
  }

  lemma StartBalances(cfg: CapitalConfig, l: Ledger)
    ensures LotsBalance(|DayStart(cfg, l).open|, DayStart(cfg, l))
  {
  }

  lemma OpensAtZero(start: Ledger)
    ensures
      var row := OpeningRow(start);
      && row.acceptedEntries == row.acceptedExits == row.discardedLots == 0 && row.realizedPnl == 0.0
      && row.peakSpot == start.spotUsed && row.peakFutures == start.futuresUsed && row.peakTotal == start.spotUsed + start.futuresUsed
  {
  }
}
