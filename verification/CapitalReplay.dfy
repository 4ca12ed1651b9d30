/** The budget replay as it runs: one queue of lots per pair, running counters and daily rows. */
module CapitalReplay {
  import opened Wrappers
  import opened Models
  import opened Capital

  type Queues = map<PositionKey, seq<Lot>>

  function QueueOf(queues: Queues, key: PositionKey): seq<Lot> {
    if key in queues then queues[key] else []
  }

  /** Every pair's queue holds exactly its open lots in order of acceptance. */
  ghost predicate Mirrors(queues: Queues, open: seq<Lot>) {
    forall key :: QueueOf(queues, key) == LotsOf(open, key)
  }

  /** Queues and counters that agree with a ledger. */
  ghost predicate Tracks(queues: Queues, spot: real, futures: real, l: Ledger) {
    Mirrors(queues, l.open) && spot == l.spotUsed && futures == l.futuresUsed
  }

  lemma PopMirrors(queues: Queues, l: Ledger, key: PositionKey)
    requires Mirrors(queues, l.open)
    ensures QueueOf(queues, key) == [] <==> OldestOf(l.open, key).None?
    ensures QueueOf(queues, key) != [] ==>
      var i := OldestOf(l.open, key).value;
      QueueOf(queues, key)[0] == l.open[i]
      && Mirrors(queues[key := QueueOf(queues, key)[1..]], Without(l.open, i))
  {
    assert QueueOf(queues, key) == LotsOf(l.open, key);
    OldestHeadsQueue(l.open, key, key);
    if QueueOf(queues, key) != [] {
      var i := OldestOf(l.open, key).value;
      var popped := queues[key := QueueOf(queues, key)[1..]];
      hide LotsOf, OldestOf;
      forall k ensures QueueOf(popped, k) == LotsOf(Without(l.open, i), k) {
        assert QueueOf(queues, k) == LotsOf(l.open, k);
        OldestHeadsQueue(l.open, key, k);
      }
    }
  }

  lemma PushMirrors(queues: Queues, open: seq<Lot>, lot: Lot)
    requires Mirrors(queues, open)
    ensures Mirrors(queues[lot.key := QueueOf(queues, lot.key) + [lot]], open + [lot])
  {
    var pushed := queues[lot.key := QueueOf(queues, lot.key) + [lot]];
    forall k ensures QueueOf(pushed, k) == LotsOf(open + [lot], k) {
      assert QueueOf(queues, k) == LotsOf(open, k);
      LotsOfConcat(open, [lot], k);
      assert LotsOf([lot], k) == if lot.key == k then [lot] else [];
    }
  }

  /** Pop the oldest lot of a pair and release its capital. */
  method ReleaseOldest(queues: Queues, spot: real, futures: real, key: PositionKey, ghost l: Ledger)
    returns (lot: Lot, queues': Queues, spot': real, futures': real)
    requires Tracks(queues, spot, futures, l) && QueueOf(queues, key) != []
    ensures OldestOf(l.open, key).Some? && lot == l.open[OldestOf(l.open, key).value]
    ensures forall action, pnl ::
      var after := Release(l, OldestOf(l.open, key).value, action, pnl);
      && Tracks(queues', spot', futures', after)
      && after.events == l.events + [CapitalEvent(key, action, Some(lot), spot', futures', pnl)]
  {
    PopMirrors(queues, l, key);
    hide Mirrors, OldestOf;
    lot := QueueOf(queues, key)[0];
    queues' := queues[key := QueueOf(queues, key)[1..]];
    spot' := MaxReal(0.0, spot - lot.spotRequired);
    futures' := MaxReal(0.0, futures - lot.futuresRequired);
  }

  /** Empty the queue of an excluded pair, one event per lot. */
  method DiscardPosition(queues: Queues, spot: real, futures: real, key: PositionKey, ghost l: Ledger)
    returns (queues': Queues, spot': real, futures': real, rows: seq<CapitalEvent>)
    requires Tracks(queues, spot, futures, l)
    ensures Tracks(queues', spot', futures', Discard(l, key))
    ensures Discard(l, key).events == l.events + rows
  {
    hide Tracks, Mirrors, Release, OldestOf;
    queues', spot', futures', rows := queues, spot, futures, [];
    ghost var current := l;
    while QueueOf(queues', key) != []
      invariant Tracks(queues', spot', futures', current)
      invariant Discard(current, key) == Discard(l, key) && current.events == l.events + rows
      decreases |current.open|
    {
      ghost var before := current;
      current := Release(before, OldestAfterPop(queues', spot', futures', before, key), Discarded, 0.0);
      var lot;
      lot, queues', spot', futures' := ReleaseOldest(queues', spot', futures', key, before);
      rows := rows + [CapitalEvent(key, Discarded, Some(lot), spot', futures', 0.0)];
    }
    NoLotsLeft(queues', spot', futures', current, key);
  }

  ghost function OldestAfterPop(queues: Queues, spot: real, futures: real, l: Ledger, key: PositionKey): (i: nat)
    requires Tracks(queues, spot, futures, l) && QueueOf(queues, key) != []
    ensures i < |l.open| && OldestOf(l.open, key) == Some(i)
    ensures |Release(l, i, Discarded, 0.0).open| < |l.open|
  {
    PopMirrors(queues, l, key);
    OldestOf(l.open, key).value
  }

  lemma NoLotsLeft(queues: Queues, spot: real, futures: real, l: Ledger, key: PositionKey)
    requires Tracks(queues, spot, futures, l) && QueueOf(queues, key) == []
    ensures Discard(l, key) == l
  {
    PopMirrors(queues, l, key);
  }

  /** One fill. */
  method ReplayTrade(cfg: CapitalConfig, queues: Queues, spot: real, futures: real, t: Trade, ghost l: Ledger)
    returns (queues': Queues, spot': real, futures': real, row: CapitalEvent)
    requires cfg.Valid() && Tracks(queues, spot, futures, l)
    ensures Tracks(queues', spot', futures', ApplyTrade(cfg, l, t))
    ensures ApplyTrade(cfg, l, t).events == l.events + [row]
  {
    hide Mirrors, OldestOf, CapitalConfig.SpotLimit, CapitalConfig.FuturesLimit, CapitalConfig.Valid, EntryLot, RealizedPairPnl;
    queues', spot', futures' := queues, spot, futures;
    if t.signal == EnterLong {
      var lot := EntryLot(t, cfg);
      var projectedSpot, projectedFutures := spot + lot.spotRequired, futures + lot.futuresRequired;
      var breaches: seq<Breach> := [];
      if projectedSpot > cfg.SpotLimit() + TOLERANCE { breaches := breaches + [SpotEquity]; }
      if projectedFutures > cfg.FuturesLimit() + TOLERANCE { breaches := breaches + [FuturesMargin]; }
      if projectedSpot + projectedFutures > cfg.totalCapital + TOLERANCE { breaches := breaches + [TotalCapital]; }
      assert breaches == Breaches(cfg, projectedSpot, projectedFutures);
      if breaches != [] {
        row := CapitalEvent(t.key, RejectedEntry(breaches), None, spot', futures', 0.0);
      } else {
        spot', futures' := projectedSpot, projectedFutures;
        LotKey(t, cfg);
        PushMirrors(queues, l.open, lot);
        queues' := queues[t.key := QueueOf(queues, t.key) + [lot]];
        row := CapitalEvent(t.key, AcceptedEntry, Some(lot), spot', futures', 0.0);
      }
    } else if t.signal == Exit {
      PopMirrors(queues, l, t.key);
      if QueueOf(queues, t.key) != [] {
        var lot;
        lot, queues', spot', futures' := ReleaseOldest(queues, spot, futures, t.key, l);
        row := CapitalEvent(t.key, AcceptedExit, Some(lot), spot', futures', RealizedPairPnl(lot, t));
        assert ApplyTrade(cfg, l, t) == Release(l, OldestOf(l.open, t.key).value, AcceptedExit, RealizedPairPnl(lot, t));
      } else {
        row := CapitalEvent(t.key, IgnoredExit, None, spot', futures', 0.0);
      }
    } else {
      row := CapitalEvent(t.key, Ignored, None, spot', futures', 0.0);
    }
  }

  lemma LotKey(t: Trade, cfg: CapitalConfig)
    ensures EntryLot(t, cfg).key == t.key
  {
  }

  // ---------------------------------------------------------------- ending lots

  function OpenIn(open: seq<Lot>, keys: set<PositionKey>): nat {
    if open == [] then 0
    else OpenIn(open[..|open| - 1], keys) + if open[|open| - 1].key in keys then 1 else 0
  }

  lemma {:induction false} OpenInSplits(open: seq<Lot>, keys: set<PositionKey>, key: PositionKey)
    requires key in keys
    ensures OpenIn(open, keys) == OpenIn(open, keys - {key}) + |LotsOf(open, key)|
    decreases |open|
  {
    if open != [] { OpenInSplits(open[..|open| - 1], keys, key); }
  }

  lemma {:induction false} OpenInAll(open: seq<Lot>, keys: set<PositionKey>)
    requires forall i :: 0 <= i < |open| ==> open[i].key in keys
    ensures OpenIn(open, keys) == |open|
    decreases |open|
  {
    if open != [] { OpenInAll(open[..|open| - 1], keys); }
  }

  lemma {:induction false} OpenInNone(open: seq<Lot>)
    ensures OpenIn(open, {}) == 0
    decreases |open|
  {
    if open != [] { OpenInNone(open[..|open| - 1]); }
  }

  lemma MirrorKeys(queues: Queues, open: seq<Lot>)
    requires Mirrors(queues, open)
    ensures forall i :: 0 <= i < |open| ==> open[i].key in queues.Keys
  {
    forall i | 0 <= i < |open| ensures open[i].key in queues.Keys {
      assert QueueOf(queues, open[i].key) == LotsOf(open, open[i].key);
      LotsOfNone(open, open[i].key);
    }
  }

  lemma EmptyOrInhabited(keys: set<PositionKey>)
    ensures keys == {} || exists k :: k in keys
  {
  }

  /** The queue lengths add up to the open lots, whatever order the queues are visited in. */
  method CountOpenLots(queues: Queues, ghost open: seq<Lot>) returns (total: nat)
    requires Mirrors(queues, open)
    ensures total == |open|
  {
    MirrorKeys(queues, open);
    OpenInAll(open, queues.Keys);
    total := 0;
    var keys := queues.Keys;
    while keys != {}
      invariant keys <= queues.Keys
      invariant total + OpenIn(open, keys) == |open|
      decreases keys
    {
      EmptyOrInhabited(keys);
      var key :| key in keys;
      OpenInSplits(open, keys, key);
      assert QueueOf(queues, key) == LotsOf(open, key);
      total := total + |queues[key]|;
      keys := keys - {key};
    }
    OpenInNone(open);
  }

  // ---------------------------------------------------------------- days

  lemma TallyAppend(row: DailyRow, events: seq<CapitalEvent>, e: CapitalEvent)
    ensures TallyAll(row, events + [e]) == Tally(TallyAll(row, events), e)
  {
  }

  lemma {:induction false} TallyDiscards(row: DailyRow, events: seq<CapitalEvent>, more: seq<CapitalEvent>)
    requires forall i :: 0 <= i < |more| ==> more[i].action.Discarded?
    ensures TallyAll(row, events + more) == TallyAll(row, events).(discardedLots := TallyAll(row, events).discardedLots + |more|)
    decreases |more|
  {
    if more == [] {
      assert events + more == events;
    } else {
      var n := |more| - 1;
      assert events + more == (events + more[..n]) + [more[n]];
      TallyDiscards(row, events, more[..n]);
      TallyAppend(row, events + more[..n], more[n]);
    }
  }

  lemma {:induction false} DiscardOnlyDiscards(l: Ledger, key: PositionKey, rows: seq<CapitalEvent>)
    requires Discard(l, key).events == l.events + rows
    ensures forall i :: 0 <= i < |rows| ==> rows[i].action.Discarded?
    decreases |l.open|
  {
    var oldest := OldestOf(l.open, key);
    if oldest.Some? {
      var next := Release(l, oldest.value, Discarded, 0.0);
      DiscardExtends(next, key);
      var rest := Discard(next, key).events[|next.events|..];
      assert Discard(next, key).events == next.events + rest;
      DiscardOnlyDiscards(next, key, rest);
      assert rows == [next.events[|l.events|]] + rest by {
        assert l.events + rows == (l.events + [next.events[|l.events|]]) + rest;
        assert rows == (l.events + rows)[|l.events|..];
      }
    } else {
      assert rows == (l.events + rows)[|l.events|..];
    }
  }

  lemma {:induction false} DiscardExtends(l: Ledger, key: PositionKey)
    ensures |Discard(l, key).events| >= |l.events| && Discard(l, key).events[..|l.events|] == l.events
    decreases |l.open|
  {
    var oldest := OldestOf(l.open, key);
    if oldest.Some? { DiscardExtends(Release(l, oldest.value, Discarded, 0.0), key); }
  }

  /** The discards of a date, before any of its fills. */
  method ReplayDiscards(
    queues: Queues, spot: real, futures: real, opening: DailyRow, keys: seq<PositionKey>, ghost start: Ledger)
    returns (queues': Queues, spot': real, futures': real, row: DailyRow, rows: seq<CapitalEvent>)
    requires Tracks(queues, spot, futures, start) && start.events == []
    ensures Tracks(queues', spot', futures', DiscardAll(start, keys))
    ensures rows == DiscardAll(start, keys).events
    ensures row == TallyAll(opening, rows)
  {
    hide Tracks, Discard, Tally;
    queues', spot', futures', row, rows := queues, spot, futures, opening, [];
    for i := 0 to |keys|
      invariant Tracks(queues', spot', futures', DiscardAll(start, keys[..i]))
      invariant rows == DiscardAll(start, keys[..i]).events
      invariant row == TallyAll(opening, rows)
    {
      ghost var current := DiscardAll(start, keys[..i]);
      assert keys[..i + 1][..i] == keys[..i];
      var discarded;
      queues', spot', futures', discarded := DiscardPosition(queues', spot', futures', keys[i], current);
      DiscardOnlyDiscards(current, keys[i], discarded);
      TallyDiscards(opening, rows, discarded);
      row := row.(discardedLots := row.discardedLots + |discarded|);
      rows := rows + discarded;
    }
    assert keys[..|keys|] == keys;
  }

  /** The fills of a date in time order. */
  method ReplayTrades(
    cfg: CapitalConfig, queues: Queues, spot: real, futures: real, opening: DailyRow, row0: DailyRow,
    rows0: seq<CapitalEvent>, trades: seq<Trade>, ghost begun: Ledger)
    returns (queues': Queues, spot': real, futures': real, row: DailyRow, rows: seq<CapitalEvent>)
    requires cfg.Valid() && Tracks(queues, spot, futures, begun)
    requires rows0 == begun.events && row0 == TallyAll(opening, rows0)
    ensures Tracks(queues', spot', futures', ApplyTrades(cfg, begun, trades))
    ensures rows == ApplyTrades(cfg, begun, trades).events
    ensures row == TallyAll(opening, rows)
  {
    hide Tracks, ApplyTrade, CapitalConfig.Valid, Tally;
    queues', spot', futures', row, rows := queues, spot, futures, row0, rows0;
    for i := 0 to |trades|
      invariant Tracks(queues', spot', futures', ApplyTrades(cfg, begun, trades[..i]))
      invariant rows == ApplyTrades(cfg, begun, trades[..i]).events
      invariant row == TallyAll(opening, rows)
    {
      assert trades[..i + 1][..i] == trades[..i];
      var e;
      queues', spot', futures', e := ReplayTrade(cfg, queues', spot', futures', trades[i], ApplyTrades(cfg, begun, trades[..i]));
      TallyAppend(opening, rows, e);
      row := Tally(row, e);
      rows := rows + [e];
    }
    assert trades[..|trades|] == trades;
  }

  /** Queues and counters at the start of a date, positions carried or not. */
  lemma DayStartTracks(cfg: CapitalConfig, queues: Queues, spot: real, futures: real, l: Ledger)
    requires Tracks(queues, spot, futures, l)
    ensures
      if cfg.carryPositions then Tracks(queues, spot, futures, DayStart(cfg, l))
      else Tracks(map[], 0.0, 0.0, DayStart(cfg, l))
  {
  }

  /** One replay date. */
  method ReplayDate(cfg: CapitalConfig, queues: Queues, spot: real, futures: real, day: Day, ghost l: Ledger)
    returns (queues': Queues, spot': real, futures': real, row: DailyRow, rows: seq<CapitalEvent>)
    requires cfg.Valid() && Tracks(queues, spot, futures, l)
    ensures Tracks(queues', spot', futures', ReplayDay(cfg, l, day))
    ensures rows == ReplayDay(cfg, l, day).events
    ensures row == DailyRowOf(cfg, l, day)
  {
    hide Tracks, ApplyTrades, DiscardAll, CapitalConfig.Valid, TallyAll, LotsOf, Mirrors;
    queues', spot', futures' := queues, spot, futures;
    if !cfg.carryPositions {
      queues', spot', futures' := map[], 0.0, 0.0;
    }
    ghost var start := DayStart(cfg, l);
    DayStartTracks(cfg, queues, spot, futures, l);
    TracksCounters(queues', spot', futures', start);
    var opening := DailyRow(0, 0, 0, 0, 0, 0, 0.0, 0.0, 0.0, spot', futures', spot' + futures');
    queues', spot', futures', row, rows := ReplayDiscards(queues', spot', futures', opening, day.discards, start);
    queues', spot', futures', row, rows :=
      ReplayTrades(cfg, queues', spot', futures', opening, row, rows, day.trades, DiscardAll(start, day.discards));
    ghost var end := ReplayDay(cfg, l, day);
    TracksCounters(queues', spot', futures', end);
    var total := CountOpenLots(queues', end.open);
    row := row.(endingOpenLots := total, endingSpot := spot', endingFutures := futures');
  }

  lemma TracksCounters(queues: Queues, spot: real, futures: real, l: Ledger)
    requires Tracks(queues, spot, futures, l)
    ensures Mirrors(queues, l.open) && spot == l.spotUsed && futures == l.futuresUsed
  {
  }

  function AllEvents(cfg: CapitalConfig, days: seq<Day>): seq<CapitalEvent>
    requires cfg.Valid()
  {
    if days == [] then [] else AllEvents(cfg, days[..|days| - 1]) + ReplayDays(cfg, days).events
  }

  /** One row per date. */
  function AllRows(cfg: CapitalConfig, days: seq<Day>): (r: seq<DailyRow>)
    requires cfg.Valid()
    ensures |r| == |days|
  {
    if days == [] then []
    else
      var n := |days| - 1;
      AllRows(cfg, days[..n]) + [DailyRowOf(cfg, ReplayDays(cfg, days[..n]), days[n])]
  }

  /** Each date's row describes that date, replayed from the ledger the dates before it left. */
  lemma {:induction false} RowOfDate(cfg: CapitalConfig, days: seq<Day>, i: nat)
    requires cfg.Valid() && i < |days|
    ensures AllRows(cfg, days)[i] == DailyRowOf(cfg, ReplayDays(cfg, days[..i]), days[i])
    decreases |days|
  {
    hide DailyRowOf, ReplayDays, CapitalConfig.Valid;
    var n := |days| - 1;
    if i < n {
      RowOfDate(cfg, days[..n], i);
      assert days[..n][..i] == days[..i];
    }
  }

  /** build_capital_constraint_outputs: the event rows and the row of each replay date are the
      ledger's. */
  method BuildCapitalConstraintOutputs(cfg: CapitalConfig, days: seq<Day>)
    returns (daily: seq<DailyRow>, rows: seq<CapitalEvent>)
    requires cfg.Valid()
    ensures daily == AllRows(cfg, days)
    ensures rows == AllEvents(cfg, days)
  {
    hide Tracks, DailyRowOf, ReplayDay, CapitalConfig.Valid;
    daily, rows := [], [];
    var queues: Queues := map[];
    var spot, futures := 0.0, 0.0;
    NothingTracked();
    for i := 0 to |days|
      invariant Tracks(queues, spot, futures, ReplayDays(cfg, days[..i]))
      invariant daily == AllRows(cfg, days[..i])
      invariant rows == AllEvents(cfg, days[..i])
    {
      assert days[..i + 1][..i] == days[..i];
      var row, dayRows;
      queues, spot, futures, row, dayRows := ReplayDate(cfg, queues, spot, futures, days[i], ReplayDays(cfg, days[..i]));
      daily := daily + [row];
      rows := rows + dayRows;
    }
    assert days[..|days|] == days;
  }

  lemma NothingTracked()
    ensures Tracks(map[], 0.0, 0.0, EMPTY)
  {
  }
}
