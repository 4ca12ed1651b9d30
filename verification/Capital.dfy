/** Replaying candidate fills of many pairs under one shared capital budget. */
module Capital {
  import opened Wrappers
  import opened Models

  const TOLERANCE := 0.000_000_001

  datatype CapitalConfig = CapitalConfig(
    totalCapital: real, futuresMarginRate: real, spotEquityRate: real, leverage: bool, carryPositions: bool)
  {
    predicate Valid() {
      totalCapital > 0.0 && 0.0 < futuresMarginRate <= 1.0 && 0.0 < spotEquityRate <= 1.0
    }

    function FuturesRate(): real { if leverage then futuresMarginRate else 1.0 }

    function SpotRate(): real { if leverage then spotEquityRate else 1.0 }

    function CombinedRate(): real { FuturesRate() + SpotRate() }

    function FuturesLimit(): real
      requires Valid()
    {
      totalCapital * FuturesRate() / CombinedRate()
    }

    function SpotLimit(): real
      requires Valid()
    {
      totalCapital * SpotRate() / CombinedRate()
    }

    function MatchedNotionalLimit(): real
      requires Valid()
    {
      totalCapital / CombinedRate()
    }
  }

  lemma ShareOf(total: real, part: real, whole: real)
    requires whole > 0.0
    ensures total * part / whole == total / whole * part
  {
  }

  /** The two leg limits split the whole budget, and both legs of a position of the matched notional
      use exactly their limit. */
  lemma LimitsSplitBudget(cfg: CapitalConfig)
    requires cfg.Valid()
    ensures cfg.SpotLimit() + cfg.FuturesLimit() == cfg.totalCapital
    ensures cfg.MatchedNotionalLimit() * cfg.SpotRate() == cfg.SpotLimit()
    ensures cfg.MatchedNotionalLimit() * cfg.FuturesRate() == cfg.FuturesLimit()
  {
    ShareOf(cfg.totalCapital, cfg.SpotRate(), cfg.CombinedRate());
    ShareOf(cfg.totalCapital, cfg.FuturesRate(), cfg.CombinedRate());
    var unit := cfg.MatchedNotionalLimit();
    assert unit * cfg.SpotRate() + unit * cfg.FuturesRate() == unit * cfg.CombinedRate();
  }

  // ---------------------------------------------------------------- trades and lots

  datatype Trade = Trade(
    key: PositionKey,
    signal: Signal,
    spotPrice: real,
    futurePrice: real,
    spotQty: real,
    futureQty: real,
    pnlMultiplier: real,
    commissionRate: real,
    commissionDiscount: real,
    taxRate: real)

  datatype Lot = Lot(
    key: PositionKey,
    entrySpotPrice: real,
    entryFuturePrice: real,
    spotQty: real,
    futureMultiplier: real,
    commissionRate: real,
    taxRate: real,
    entryStockFee: real,
    spotRequired: real,
    futuresRequired: real)

  /** _entry_lot. */
  function EntryLot(t: Trade, cfg: CapitalConfig): Lot {
    var spotNotional := t.spotPrice * t.spotQty;
    var multiplier := t.futureQty * t.pnlMultiplier;
    var commission := t.commissionRate * t.commissionDiscount;
    var fee := spotNotional * commission;
    Lot(t.key, t.spotPrice, t.futurePrice, t.spotQty, multiplier, commission, t.taxRate, fee,
        spotNotional * cfg.SpotRate() + fee,
        t.futurePrice * multiplier * cfg.FuturesRate())
  }

  /** _realized_pair_pnl. */
  function RealizedPairPnl(lot: Lot, t: Trade): real {
    var exitNotional := t.spotPrice * lot.spotQty;
    (t.spotPrice - lot.entrySpotPrice) * lot.spotQty
    + (lot.entryFuturePrice - t.futurePrice) * lot.futureMultiplier
    - (lot.entryStockFee + exitNotional * (lot.commissionRate + lot.taxRate))
  }

  // ---------------------------------------------------------------- the ledger

  datatype Breach = SpotEquity | FuturesMargin | TotalCapital

  datatype Action = AcceptedEntry | RejectedEntry(breaches: seq<Breach>) | AcceptedExit | IgnoredExit | Ignored | Discarded

  /** One event row; `lot` is the lot it opened or released. */
  datatype CapitalEvent = CapitalEvent(
    key: PositionKey, action: Action, lot: Option<Lot>, spotUsed: real, futuresUsed: real, realizedPnl: real)

  /** All open lots in the order they were accepted, whatever their pair. */
  datatype Ledger = Ledger(open: seq<Lot>, spotUsed: real, futuresUsed: real, events: seq<CapitalEvent>)

  const EMPTY := Ledger([], 0.0, 0.0, [])

  function Breaches(cfg: CapitalConfig, spot: real, futures: real): seq<Breach>
    requires cfg.Valid()
  {
    (if spot > cfg.SpotLimit() + TOLERANCE then [SpotEquity] else [])
    + (if futures > cfg.FuturesLimit() + TOLERANCE then [FuturesMargin] else [])
    + (if spot + futures > cfg.totalCapital + TOLERANCE then [TotalCapital] else [])
  }

  /** The position of the oldest open lot of a pair. */
  function OldestOf(open: seq<Lot>, key: PositionKey): (r: Option<nat>)
    ensures r.Some? ==> r.value < |open| && open[r.value].key == key && forall j :: 0 <= j < r.value ==> open[j].key != key
    ensures r.None? ==> forall j :: 0 <= j < |open| ==> open[j].key != key
  {
    if open == [] then None
    else if open[0].key == key then Some(0)
    else
      var later := OldestOf(open[1..], key);
      if later.None? then None else Some(later.value + 1)
  }

  function Without(open: seq<Lot>, i: nat): seq<Lot>
    requires i < |open|
  {
    open[..i] + open[i + 1..]
  }

  function Release(l: Ledger, i: nat, action: Action, realizedPnl: real): Ledger
    requires i < |l.open|
  {
    var lot := l.open[i];
    var spot, futures := MaxReal(0.0, l.spotUsed - lot.spotRequired), MaxReal(0.0, l.futuresUsed - lot.futuresRequired);
    Ledger(Without(l.open, i), spot, futures,
           l.events + [CapitalEvent(lot.key, action, Some(lot), spot, futures, realizedPnl)])
  }

  function Note(l: Ledger, key: PositionKey, action: Action): Ledger {
    l.(events := l.events + [CapitalEvent(key, action, None, l.spotUsed, l.futuresUsed, 0.0)])
  }

  function ApplyEntry(cfg: CapitalConfig, l: Ledger, t: Trade): Ledger
    requires cfg.Valid()
  {
    var lot := EntryLot(t, cfg);
    var spot, futures := l.spotUsed + lot.spotRequired, l.futuresUsed + lot.futuresRequired;
    var breaches := Breaches(cfg, spot, futures);
    if breaches != [] then Note(l, t.key, RejectedEntry(breaches))
    else Ledger(l.open + [lot], spot, futures, l.events + [CapitalEvent(t.key, AcceptedEntry, Some(lot), spot, futures, 0.0)])
  }

  function ApplyExit(l: Ledger, t: Trade): Ledger {
    var oldest := OldestOf(l.open, t.key);
    if oldest.None? then Note(l, t.key, IgnoredExit)
    else Release(l, oldest.value, AcceptedExit, RealizedPairPnl(l.open[oldest.value], t))
  }

  function ApplyTrade(cfg: CapitalConfig, l: Ledger, t: Trade): Ledger
    requires cfg.Valid()
  {
    match t.signal
    case EnterLong => ApplyEntry(cfg, l, t)
    case Exit => ApplyExit(l, t)
    case _ => Note(l, t.key, Ignored)
  }

  function ApplyTrades(cfg: CapitalConfig, l: Ledger, trades: seq<Trade>): Ledger
    requires cfg.Valid()
  {
    if trades == [] then l
    else ApplyTrade(cfg, ApplyTrades(cfg, l, trades[..|trades| - 1]), trades[|trades| - 1])
  }

  function Discard(l: Ledger, key: PositionKey): Ledger
    decreases |l.open|
  {
    var oldest := OldestOf(l.open, key);
    if oldest.None? then l else Discard(Release(l, oldest.value, Discarded, 0.0), key)
  }

  function DiscardAll(l: Ledger, keys: seq<PositionKey>): Ledger {
    if keys == [] then l else Discard(DiscardAll(l, keys[..|keys| - 1]), keys[|keys| - 1])
  }

  /** One replay date: excluded positions leave first, then the fills in time order. */
  datatype Day = Day(discards: seq<PositionKey>, trades: seq<Trade>)

  function DayStart(cfg: CapitalConfig, l: Ledger): Ledger {
    if cfg.carryPositions then l.(events := []) else EMPTY
  }

  function ReplayDay(cfg: CapitalConfig, l: Ledger, day: Day): Ledger
    requires cfg.Valid()
  {
    ApplyTrades(cfg, DiscardAll(DayStart(cfg, l), day.discards), day.trades)
  }

  function ReplayDays(cfg: CapitalConfig, days: seq<Day>): Ledger
    requires cfg.Valid()
  {
    if days == [] then EMPTY else ReplayDay(cfg, ReplayDays(cfg, days[..|days| - 1]), days[|days| - 1])
  }

  // ---------------------------------------------------------------- the daily row

  datatype DailyRow = DailyRow(
    acceptedEntries: nat, rejectedEntries: nat, acceptedExits: nat, unmatchedExits: nat, discardedLots: nat,
    endingOpenLots: nat, realizedPnl: real, endingSpot: real, endingFutures: real,
    peakSpot: real, peakFutures: real, peakTotal: real)

  /** The row while no fill of the day has been replayed. */
  function OpeningRow(start: Ledger): DailyRow {
    DailyRow(0, 0, 0, 0, 0, 0, 0.0, 0.0, 0.0, start.spotUsed, start.futuresUsed, start.spotUsed + start.futuresUsed)
  }

  /** The counters and peaks after one more event; a discard never moves a peak. */
  function Tally(row: DailyRow, e: CapitalEvent): DailyRow {
    if e.action.Discarded? then row.(discardedLots := row.discardedLots + 1)
    else
      var counted :=
        match e.action
        case AcceptedEntry => row.(acceptedEntries := row.acceptedEntries + 1)
        case RejectedEntry(_) => row.(rejectedEntries := row.rejectedEntries + 1)
        case AcceptedExit => row.(acceptedExits := row.acceptedExits + 1, realizedPnl := row.realizedPnl + e.realizedPnl)
        case IgnoredExit => row.(unmatchedExits := row.unmatchedExits + 1)
        case _ => row;
      counted.(
        peakSpot := MaxReal(row.peakSpot, e.spotUsed),
        peakFutures := MaxReal(row.peakFutures, e.futuresUsed),
        peakTotal := MaxReal(row.peakTotal, e.spotUsed + e.futuresUsed))
  }

  function TallyAll(row: DailyRow, events: seq<CapitalEvent>): DailyRow {
    if events == [] then row else Tally(TallyAll(row, events[..|events| - 1]), events[|events| - 1])
  }

  function DailyRowOf(cfg: CapitalConfig, l: Ledger, day: Day): DailyRow
    requires cfg.Valid()
  {
    var end := ReplayDay(cfg, l, day);
    TallyAll(OpeningRow(DayStart(cfg, l)), end.events).(
      endingOpenLots := |end.open|, endingSpot := end.spotUsed, endingFutures := end.futuresUsed)
  }

  // ---------------------------------------------------------------- queues per pair

  function LotsOf(open: seq<Lot>, key: PositionKey): seq<Lot> {
    if open == [] then []
    else LotsOf(open[..|open| - 1], key) + if open[|open| - 1].key == key then [open[|open| - 1]] else []
  }

  lemma {:induction false} LotsOfConcat(a: seq<Lot>, b: seq<Lot>, key: PositionKey)
    ensures LotsOf(a + b, key) == LotsOf(a, key) + LotsOf(b, key)
    decreases |b|
  {
    if b == [] {
      assert a + b == a;
    } else {
      assert (a + b)[..|a + b| - 1] == a + b[..|b| - 1];
      LotsOfConcat(a, b[..|b| - 1], key);
    }
  }

  lemma {:induction false} LotsOfNone(open: seq<Lot>, key: PositionKey)
    ensures LotsOf(open, key) == [] <==> forall j :: 0 <= j < |open| ==> open[j].key != key
    decreases |open|
  {
    if open != [] { LotsOfNone(open[..|open| - 1], key); }
  }

  lemma LotsAround(left: seq<Lot>, lot: Lot, right: seq<Lot>, key: PositionKey)
    ensures LotsOf(left + ([lot] + right), key)
         == LotsOf(left, key) + ((if lot.key == key then [lot] else []) + LotsOf(right, key))
    ensures LotsOf(left + right, key) == LotsOf(left, key) + LotsOf(right, key)
  {
    assert LotsOf([lot], key) == if lot.key == key then [lot] else [];
    hide LotsOf;
    LotsOfConcat(left, [lot] + right, key);
    LotsOfConcat([lot], right, key);
    LotsOfConcat(left, right, key);
  }

  /** Removing the oldest lot of a pair pops that pair's queue and touches no other. */
  lemma OldestHeadsQueue(open: seq<Lot>, key: PositionKey, other: PositionKey)
    ensures OldestOf(open, key).None? <==> LotsOf(open, key) == []
    ensures
      var oldest := OldestOf(open, key);
      oldest.Some? ==>
        && LotsOf(open, key) == [open[oldest.value]] + LotsOf(Without(open, oldest.value), key)
        && (other != key ==> LotsOf(Without(open, oldest.value), other) == LotsOf(open, other))
  {
    LotsOfNone(open, key);
    hide LotsOf;
    var oldest := OldestOf(open, key);
    if oldest.Some? {
      OldestSplits(open, key, oldest.value, key);
      OldestSplits(open, key, oldest.value, other);
    }
  }

  lemma OldestSplits(open: seq<Lot>, key: PositionKey, i: nat, k: PositionKey)
    requires i < |open| && open[i].key == key && forall j :: 0 <= j < i ==> open[j].key != key
    ensures k == key ==> LotsOf(open, k) == [open[i]] + LotsOf(Without(open, i), k)
    ensures k != key ==> LotsOf(Without(open, i), k) == LotsOf(open, k)
  {
    hide LotsOf;
    LotsOfNone(open[..i], key);
    var left, lot, right := open[..i], open[i], open[i + 1..];
    assert open == left + ([lot] + right);
    LotsAround(left, lot, right, k);
    assert LotsOf(left, key) == [];
    assert LotsOf(Without(open, i), k) == LotsOf(left, k) + LotsOf(right, k);
    assert LotsOf(open, k) == LotsOf(left, k) + ((if lot.key == k then [lot] else []) + LotsOf(right, k));
  }

  // ---------------------------------------------------------------- first in, first out

  /** The lots of one pair that events opened, in order. */
  function Opened(events: seq<CapitalEvent>, key: PositionKey): seq<Lot> {
    if events == [] then []
    else
      var e := events[|events| - 1];
      Opened(events[..|events| - 1], key)
      + if e.action.AcceptedEntry? && e.key == key && e.lot.Some? then [e.lot.value] else []
  }

  /** The lots of one pair that events released, in order. */
  function Released(events: seq<CapitalEvent>, key: PositionKey): seq<Lot> {
    if events == [] then []
    else
      var e := events[|events| - 1];
      Released(events[..|events| - 1], key)
      + if (e.action.AcceptedExit? || e.action.Discarded?) && e.key == key && e.lot.Some? then [e.lot.value] else []
  }

  lemma EventAppend(events: seq<CapitalEvent>, e: CapitalEvent, key: PositionKey)
    ensures Opened(events + [e], key)
         == Opened(events, key) + if e.action.AcceptedEntry? && e.key == key && e.lot.Some? then [e.lot.value] else []
    ensures Released(events + [e], key)
         == Released(events, key)
            + if (e.action.AcceptedExit? || e.action.Discarded?) && e.key == key && e.lot.Some? then [e.lot.value] else []
  {
  }

  /** Pair by pair, what the day started with followed by what it accepted is what it released
      followed by what is still open. */
  ghost predicate FirstInFirstOut(start: seq<Lot>, l: Ledger, key: PositionKey) {
    LotsOf(start, key) + Opened(l.events, key) == Released(l.events, key) + LotsOf(l.open, key)
  }

  lemma ReleaseKeepsFifo(start: seq<Lot>, l: Ledger, key: PositionKey, action: Action, pnl: real, k: PositionKey)
    requires OldestOf(l.open, key).Some? && (action.AcceptedExit? || action.Discarded?)
    requires FirstInFirstOut(start, l, k)
    ensures FirstInFirstOut(start, Release(l, OldestOf(l.open, key).value, action, pnl), k)
  {
    var i := OldestOf(l.open, key).value;
    OldestHeadsQueue(l.open, key, k);
    var after := Release(l, i, action, pnl);
    EventAppend(l.events, after.events[|l.events|], k);
    hide LotsOf, Opened, Released, OldestOf;
    assert after.events == l.events + [after.events[|l.events|]];
    assert Opened(after.events, k) == Opened(l.events, k);
    if k != key {
      assert Released(after.events, k) == Released(l.events, k);
    } else {
      assert Released(l.events, k) + ([l.open[i]] + LotsOf(after.open, k))
          == (Released(l.events, k) + [l.open[i]]) + LotsOf(after.open, k);
    }
  }

  /** Events that release nothing and open exactly what they append keep the law. */
  lemma AppendKeepsFifo(start: seq<Lot>, l: Ledger, after: Ledger, e: CapitalEvent, k: PositionKey)
    requires FirstInFirstOut(start, l, k)
    requires after.events == l.events + [e] && !e.action.AcceptedExit? && !e.action.Discarded?
    requires e.action.AcceptedEntry? ==> e.lot.Some? && e.lot.value.key == e.key
    requires after.open == if e.action.AcceptedEntry? then l.open + [e.lot.value] else l.open
    ensures FirstInFirstOut(start, after, k)
  {
    var added := if e.action.AcceptedEntry? && e.key == k then [e.lot.value] else [];
    EventAppend(l.events, e, k);
    if e.action.AcceptedEntry? {
      LotsOfConcat(l.open, [e.lot.value], k);
      assert LotsOf([e.lot.value], k) == added;
    }
    hide LotsOf, Opened, Released;
    assert Released(after.events, k) == Released(l.events, k);
    assert Opened(after.events, k) == Opened(l.events, k) + added;
    assert LotsOf(after.open, k) == LotsOf(l.open, k) + added;
    Associates(LotsOf(start, k), Opened(l.events, k), added);
    Associates(Released(l.events, k), LotsOf(l.open, k), added);
  }

  lemma Associates(a: seq<Lot>, b: seq<Lot>, c: seq<Lot>)
    ensures a + (b + c) == (a + b) + c
  {
  }

  lemma TradeKeepsFifo(cfg: CapitalConfig, start: seq<Lot>, l: Ledger, t: Trade, k: PositionKey)
    requires cfg.Valid() && FirstInFirstOut(start, l, k)
    ensures FirstInFirstOut(start, ApplyTrade(cfg, l, t), k)
  {
    var after := ApplyTrade(cfg, l, t);
    hide Breaches, OldestOf, RealizedPairPnl, FirstInFirstOut;
    if t.signal == Exit && OldestOf(l.open, t.key).Some? {
      ReleaseKeepsFifo(start, l, t.key, AcceptedExit, RealizedPairPnl(l.open[OldestOf(l.open, t.key).value], t), k);
    } else {
      AppendKeepsFifo(start, l, after, after.events[|l.events|], k);
    }
  }

  lemma {:induction false} TradesKeepFifo(cfg: CapitalConfig, start: seq<Lot>, l: Ledger, trades: seq<Trade>, k: PositionKey)
    requires cfg.Valid() && FirstInFirstOut(start, l, k)
    ensures FirstInFirstOut(start, ApplyTrades(cfg, l, trades), k)
    decreases |trades|
  {
    if trades != [] {
      var n := |trades| - 1;
      TradesKeepFifo(cfg, start, l, trades[..n], k);
      TradeKeepsFifo(cfg, start, ApplyTrades(cfg, l, trades[..n]), trades[n], k);
    }
  }

  lemma {:induction false} DiscardKeepsFifo(start: seq<Lot>, l: Ledger, key: PositionKey, k: PositionKey)
    requires FirstInFirstOut(start, l, k)
    ensures FirstInFirstOut(start, Discard(l, key), k)
    ensures LotsOf(Discard(l, key).open, key) == []
    decreases |l.open|
  {
    OldestHeadsQueue(l.open, key, k);
    if OldestOf(l.open, key).Some? {
      ReleaseKeepsFifo(start, l, key, Discarded, 0.0, k);
      DiscardKeepsFifo(start, Release(l, OldestOf(l.open, key).value, Discarded, 0.0), key, k);
    }
  }

  lemma {:induction false} DiscardAllKeepsFifo(start: seq<Lot>, l: Ledger, keys: seq<PositionKey>, k: PositionKey)
    requires FirstInFirstOut(start, l, k)
    ensures FirstInFirstOut(start, DiscardAll(l, keys), k)
    decreases |keys|
  {
    if keys != [] {
      var n := |keys| - 1;
      DiscardAllKeepsFifo(start, l, keys[..n], k);
      DiscardKeepsFifo(start, DiscardAll(l, keys[..n]), keys[n], k);
    }
  }

  /** Every day, of every pair: exits and discards release accepted lots oldest first, and the
      ending lots are the starting lots plus accepted entries minus accepted exits and discards. */
  lemma DayIsFirstInFirstOut(cfg: CapitalConfig, l: Ledger, day: Day, k: PositionKey)
    requires cfg.Valid()
    ensures FirstInFirstOut(DayStart(cfg, l).open, ReplayDay(cfg, l, day), k)
  {
    var start := DayStart(cfg, l);
    DiscardAllKeepsFifo(start.open, start, day.discards, k);
    TradesKeepFifo(cfg, start.open, DiscardAll(start, day.discards), day.trades, k);
  }
}
