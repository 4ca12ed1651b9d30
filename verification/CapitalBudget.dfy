/** What the shared budget keeps after every event of every replay. */
module CapitalBudget {
  import opened Models
  import opened Capital

  function SpotRequired(open: seq<Lot>): real {
    if open == [] then 0.0 else SpotRequired(open[..|open| - 1]) + open[|open| - 1].spotRequired
  }

  function FuturesRequired(open: seq<Lot>): real {
    if open == [] then 0.0 else FuturesRequired(open[..|open| - 1]) + open[|open| - 1].futuresRequired
  }

  predicate NonnegativeLot(lot: Lot) { lot.spotRequired >= 0.0 && lot.futuresRequired >= 0.0 }

  predicate NonnegativeLots(open: seq<Lot>) { forall i :: 0 <= i < |open| ==> NonnegativeLot(open[i]) }

  /** Entries require no negative capital. */
  predicate NonnegativeTrades(cfg: CapitalConfig, trades: seq<Trade>) {
    forall i :: 0 <= i < |trades| && trades[i].signal == EnterLong ==> NonnegativeLot(EntryLot(trades[i], cfg))
  }

  predicate WithinLimits(cfg: CapitalConfig, spot: real, futures: real)
    requires cfg.Valid()
  {
    && 0.0 <= spot <= cfg.SpotLimit() + TOLERANCE
    && 0.0 <= futures <= cfg.FuturesLimit() + TOLERANCE
    && spot + futures <= cfg.totalCapital + TOLERANCE
  }

  /** Used capital is exactly what the open lots require, and it is within every limit, now and at
      every event. */
  ghost predicate Sound(cfg: CapitalConfig, l: Ledger)
    requires cfg.Valid()
  {
    && NonnegativeLots(l.open)
    && l.spotUsed == SpotRequired(l.open)
    && l.futuresUsed == FuturesRequired(l.open)
    && WithinLimits(cfg, l.spotUsed, l.futuresUsed)
    && forall i :: 0 <= i < |l.events| ==> WithinLimits(cfg, l.events[i].spotUsed, l.events[i].futuresUsed)
  }

  lemma {:induction false} RequiredConcat(a: seq<Lot>, b: seq<Lot>)
    ensures SpotRequired(a + b) == SpotRequired(a) + SpotRequired(b)
    ensures FuturesRequired(a + b) == FuturesRequired(a) + FuturesRequired(b)
    decreases |b|
  {
    if b == [] {
      assert a + b == a;
    } else {
      assert (a + b)[..|a + b| - 1] == a + b[..|b| - 1];
      RequiredConcat(a, b[..|b| - 1]);
    }
  }

  lemma {:induction false} RequiredNonnegative(open: seq<Lot>)
    requires NonnegativeLots(open)
    ensures SpotRequired(open) >= 0.0 && FuturesRequired(open) >= 0.0
    decreases |open|
  {
    if open != [] { RequiredNonnegative(open[..|open| - 1]); }
  }

  lemma RequiredOne(lot: Lot)
    ensures SpotRequired([lot]) == lot.spotRequired
    ensures FuturesRequired([lot]) == lot.futuresRequired
  {
  }

  lemma RequiredAround(left: seq<Lot>, lot: Lot, right: seq<Lot>)
    ensures SpotRequired(left + ([lot] + right)) == SpotRequired(left + right) + lot.spotRequired
    ensures FuturesRequired(left + ([lot] + right)) == FuturesRequired(left + right) + lot.futuresRequired
  {
    RequiredOne(lot);
    hide SpotRequired, FuturesRequired;
    RequiredConcat(left, [lot] + right);
    RequiredConcat([lot], right);
    RequiredConcat(left, right);
  }

  lemma RequiredWithout(open: seq<Lot>, i: nat)
    requires i < |open|
    ensures SpotRequired(Without(open, i)) == SpotRequired(open) - open[i].spotRequired
    ensures FuturesRequired(Without(open, i)) == FuturesRequired(open) - open[i].futuresRequired
  {
    hide SpotRequired, FuturesRequired;
    assert open == open[..i] + ([open[i]] + open[i + 1..]);
    RequiredAround(open[..i], open[i], open[i + 1..]);
  }

  /** Releasing a lot gives back exactly what it required: the clip at zero never binds. */
  lemma ReleaseKeepsSound(cfg: CapitalConfig, l: Ledger, i: nat, action: Action, pnl: real)
    requires cfg.Valid() && Sound(cfg, l) && i < |l.open|
    ensures Sound(cfg, Release(l, i, action, pnl))
    ensures Release(l, i, action, pnl).spotUsed == l.spotUsed - l.open[i].spotRequired
    ensures Release(l, i, action, pnl).futuresUsed == l.futuresUsed - l.open[i].futuresRequired
  {
    RequiredWithout(l.open, i);
    assert NonnegativeLot(l.open[i]);
    RequiredNonnegative(Without(l.open, i));
    hide SpotRequired, FuturesRequired, CapitalConfig.SpotLimit, CapitalConfig.FuturesLimit;
  }

  lemma TradeKeepsSound(cfg: CapitalConfig, l: Ledger, t: Trade)
    requires cfg.Valid() && Sound(cfg, l) && NonnegativeTrades(cfg, [t])
    ensures Sound(cfg, ApplyTrade(cfg, l, t))
  {
    hide CapitalConfig.SpotLimit, CapitalConfig.FuturesLimit, EntryLot, RealizedPairPnl, CapitalConfig.Valid;
    if t.signal == Exit {
      var oldest := OldestOf(l.open, t.key);
      if oldest.Some? {
        ReleaseKeepsSound(cfg, l, oldest.value, AcceptedExit, RealizedPairPnl(l.open[oldest.value], t));
      }
    } else if t.signal == EnterLong {
      var lot := EntryLot(t, cfg);
      assert [t][0] == t && NonnegativeLot(lot);
      RequiredConcat(l.open, [lot]);
      RequiredOne(lot);
    }
  }

  lemma {:induction false} TradesKeepSound(cfg: CapitalConfig, l: Ledger, trades: seq<Trade>)
    requires cfg.Valid() && Sound(cfg, l) && NonnegativeTrades(cfg, trades)
    ensures Sound(cfg, ApplyTrades(cfg, l, trades))
    decreases |trades|
  {
    if trades != [] {
      var n := |trades| - 1;
      TradesKeepSound(cfg, l, trades[..n]);
      TradeKeepsSound(cfg, ApplyTrades(cfg, l, trades[..n]), trades[n]);
    }
  }

  lemma {:induction false} DiscardKeepsSound(cfg: CapitalConfig, l: Ledger, key: PositionKey)
    requires cfg.Valid() && Sound(cfg, l)
    ensures Sound(cfg, Discard(l, key))
    decreases |l.open|
  {
    var oldest := OldestOf(l.open, key);
    if oldest.Some? {
      ReleaseKeepsSound(cfg, l, oldest.value, Discarded, 0.0);
      DiscardKeepsSound(cfg, Release(l, oldest.value, Discarded, 0.0), key);
    }
  }

  lemma {:induction false} DiscardAllKeepsSound(cfg: CapitalConfig, l: Ledger, keys: seq<PositionKey>)
    requires cfg.Valid() && Sound(cfg, l)
    ensures Sound(cfg, DiscardAll(l, keys))
    decreases |keys|
  {
    if keys != [] {
      DiscardAllKeepsSound(cfg, l, keys[..|keys| - 1]);
      DiscardKeepsSound(cfg, DiscardAll(l, keys[..|keys| - 1]), keys[|keys| - 1]);
    }
  }

  /** On any replay of any days, whether or not positions are carried over dates. */
  lemma {:induction false} BudgetHolds(cfg: CapitalConfig, days: seq<Day>)
    requires cfg.Valid() && forall i :: 0 <= i < |days| ==> NonnegativeTrades(cfg, days[i].trades)
    ensures Sound(cfg, ReplayDays(cfg, days))
    decreases |days|
  {
    EmptyIsSound(cfg);
    if days != [] {
      var n := |days| - 1;
      BudgetHolds(cfg, days[..n]);
      DayKeepsSound(cfg, ReplayDays(cfg, days[..n]), days[n]);
    }
  }

  lemma LimitPositive(total: real, rate: real, whole: real)
    requires total > 0.0 && rate > 0.0 && whole > 0.0
    ensures total * rate / whole > 0.0
  {
    assert total * rate > 0.0;
  }

  lemma EmptyIsSound(cfg: CapitalConfig)
    requires cfg.Valid()
    ensures Sound(cfg, EMPTY)
  {
    LimitPositive(cfg.totalCapital, cfg.SpotRate(), cfg.CombinedRate());
    LimitPositive(cfg.totalCapital, cfg.FuturesRate(), cfg.CombinedRate());
  }

  lemma DayKeepsSound(cfg: CapitalConfig, l: Ledger, day: Day)
    requires cfg.Valid() && Sound(cfg, l) && NonnegativeTrades(cfg, day.trades)
    ensures Sound(cfg, ReplayDay(cfg, l, day))
  {
    EmptyIsSound(cfg);
    var start := DayStart(cfg, l);
    DiscardAllKeepsSound(cfg, start, day.discards);
    TradesKeepSound(cfg, DiscardAll(start, day.discards), day.trades);
  }

  // ---------------------------------------------------------------- the daily rows

  lemma {:induction false} PeaksBound(cfg: CapitalConfig, row: DailyRow, events: seq<CapitalEvent>)
    requires cfg.Valid()
    requires row.peakSpot <= cfg.SpotLimit() + TOLERANCE && row.peakFutures <= cfg.FuturesLimit() + TOLERANCE
    requires row.peakTotal <= cfg.totalCapital + TOLERANCE
    requires forall i :: 0 <= i < |events| ==> WithinLimits(cfg, events[i].spotUsed, events[i].futuresUsed)
    ensures
      var t := TallyAll(row, events);
      && t.peakSpot <= cfg.SpotLimit() + TOLERANCE
      && t.peakFutures <= cfg.FuturesLimit() + TOLERANCE
      && t.peakTotal <= cfg.totalCapital + TOLERANCE
      && t.peakTotal >= row.peakTotal
      && forall i :: 0 <= i < |events| && !events[i].action.Discarded? ==>
           events[i].spotUsed + events[i].futuresUsed <= t.peakTotal
    decreases |events|
  {
    hide CapitalConfig.SpotLimit, CapitalConfig.FuturesLimit, CapitalConfig.Valid;
    if events != [] {
      PeaksBound(cfg, row, events[..|events| - 1]);
    }
  }

  /** The reported peaks of every day are within the limits and bound every event after the discards. */
  lemma PeaksWithinLimits(cfg: CapitalConfig, l: Ledger, day: Day)
    requires cfg.Valid() && Sound(cfg, l) && NonnegativeTrades(cfg, day.trades)
    ensures
      var row := DailyRowOf(cfg, l, day);
      && row.peakSpot <= cfg.SpotLimit() + TOLERANCE
      && row.peakFutures <= cfg.FuturesLimit() + TOLERANCE
      && row.peakTotal <= cfg.totalCapital + TOLERANCE
      && forall e :: e in ReplayDay(cfg, l, day).events && !e.action.Discarded? ==> e.spotUsed + e.futuresUsed <= row.peakTotal
  {
    EmptyIsSound(cfg);
    DayKeepsSound(cfg, l, day);
    PeaksBound(cfg, OpeningRow(DayStart(cfg, l)), ReplayDay(cfg, l, day).events);
  }
}
