/** The budget in prices, quantities and rates: what open lots use, and when an entry is accepted. */
module CapitalPrices {
  import opened Models
  import opened Capital
  import opened CapitalBudget

  /** The share of a notional that must be paid in: all of it without leverage. */
  function SpotShare(cfg: CapitalConfig): real { if cfg.leverage then cfg.spotEquityRate else 1.0 }

  function FuturesShare(cfg: CapitalConfig): real { if cfg.leverage then cfg.futuresMarginRate else 1.0 }

  /** Notionals and fee of an entry trade. */
  function SpotNotional(t: Trade): real { t.spotPrice * t.spotQty }

  function FuturesNotional(t: Trade): real { t.futurePrice * (t.futureQty * t.pnlMultiplier) }

  function EntryFee(t: Trade): real { SpotNotional(t) * (t.commissionRate * t.commissionDiscount) }

  /** What the open lots use of each leg's capital. */
  function SpotUse(cfg: CapitalConfig, open: seq<Lot>): real {
    if open == [] then 0.0
    else
      var lot := open[|open| - 1];
      SpotUse(cfg, open[..|open| - 1]) + lot.entrySpotPrice * lot.spotQty * SpotShare(cfg) + lot.entryStockFee
  }

  function FuturesUse(cfg: CapitalConfig, open: seq<Lot>): real {
    if open == [] then 0.0
    else
      var lot := open[|open| - 1];
      FuturesUse(cfg, open[..|open| - 1]) + lot.entryFuturePrice * lot.futureMultiplier * FuturesShare(cfg)
  }

  /** The lot records the trade's own prices, quantities and rates. */
  predicate Records(t: Trade, lot: Lot) {
    && lot.key == t.key
    && lot.entrySpotPrice == t.spotPrice && lot.entryFuturePrice == t.futurePrice
    && lot.spotQty == t.spotQty && lot.futureMultiplier == t.futureQty * t.pnlMultiplier
    && lot.commissionRate == t.commissionRate * t.commissionDiscount && lot.taxRate == t.taxRate
    && lot.entryStockFee == EntryFee(t)
  }

  /** The lot requires its notionals at the paid-in shares, and the fee. */
  predicate RequiredByPrice(cfg: CapitalConfig, lot: Lot) {
    && lot.spotRequired == lot.entrySpotPrice * lot.spotQty * SpotShare(cfg) + lot.entryStockFee
    && lot.futuresRequired == lot.entryFuturePrice * lot.futureMultiplier * FuturesShare(cfg)
  }

  ghost predicate AllByPrice(cfg: CapitalConfig, open: seq<Lot>) { forall i :: 0 <= i < |open| ==> RequiredByPrice(cfg, open[i]) }

  lemma EntryLotRecords(t: Trade, cfg: CapitalConfig)
    ensures Records(t, EntryLot(t, cfg)) && RequiredByPrice(cfg, EntryLot(t, cfg))
  {
  }

  lemma {:induction false} UseIsRequired(cfg: CapitalConfig, open: seq<Lot>)
    requires AllByPrice(cfg, open)
    ensures SpotRequired(open) == SpotUse(cfg, open) && FuturesRequired(open) == FuturesUse(cfg, open)
    decreases |open|
  {
    if open != [] {
      var n := |open| - 1;
      UseIsRequired(cfg, open[..n]);
      assert RequiredByPrice(cfg, open[n]);
    }
  }

  // ---------------------------------------------------------------- one entry

  /** A share's part of the budget. */
  function PartOf(total: real, share: real, whole: real): real
    requires whole > 0.0
  {
    total * share / whole
  }

  /** Both leg limits and the total, up to the tolerance. */
  predicate Affordable(cfg: CapitalConfig, spot: real, futures: real)
    requires cfg.Valid()
  {
    var whole := SpotShare(cfg) + FuturesShare(cfg);
    && spot <= PartOf(cfg.totalCapital, SpotShare(cfg), whole) + 0.000_000_001
    && futures <= PartOf(cfg.totalCapital, FuturesShare(cfg), whole) + 0.000_000_001
    && spot + futures <= cfg.totalCapital + 0.000_000_001
  }

  /** Each leg's limit is its share's part of the budget. */
  lemma LimitsAre(cfg: CapitalConfig)
    requires cfg.Valid()
    ensures
      var whole := SpotShare(cfg) + FuturesShare(cfg);
      && cfg.SpotLimit() == PartOf(cfg.totalCapital, SpotShare(cfg), whole)
      && cfg.FuturesLimit() == PartOf(cfg.totalCapital, FuturesShare(cfg), whole)
      && cfg.MatchedNotionalLimit() == cfg.totalCapital / whole
  {
    assert cfg.CombinedRate() == SpotShare(cfg) + FuturesShare(cfg);
  }

  lemma BreachesIff(cfg: CapitalConfig, spot: real, futures: real)
    requires cfg.Valid()
    ensures Breaches(cfg, spot, futures) == [] <==> Affordable(cfg, spot, futures)
  {
    LimitsAre(cfg);
    NothingBreaches(cfg, spot, futures);
    hide Breaches, CapitalConfig.SpotLimit, CapitalConfig.FuturesLimit, PartOf;
  }

  lemma NothingBreaches(cfg: CapitalConfig, spot: real, futures: real)
    requires cfg.Valid()
    ensures Breaches(cfg, spot, futures) == [] <==>
      && spot <= cfg.SpotLimit() + TOLERANCE && futures <= cfg.FuturesLimit() + TOLERANCE
      && spot + futures <= cfg.totalCapital + TOLERANCE
  {
    hide CapitalConfig.SpotLimit, CapitalConfig.FuturesLimit;
    var breaches := Breaches(cfg, spot, futures);
    if spot > cfg.SpotLimit() + TOLERANCE { assert SpotEquity in breaches; }
    if futures > cfg.FuturesLimit() + TOLERANCE { assert FuturesMargin in breaches; }
    if spot + futures > cfg.totalCapital + TOLERANCE { assert TotalCapital in breaches; }
  }

  /** An entry is accepted exactly when the open lots and its own notionals stay affordable; then one
      lot recording it is opened, and otherwise nothing changes. */
  lemma EntryAcceptedIff(cfg: CapitalConfig, l: Ledger, t: Trade)
    requires cfg.Valid() && Sound(cfg, l) && AllByPrice(cfg, l.open) && t.signal == EnterLong
    ensures
      var after := ApplyTrade(cfg, l, t);
      var spot := SpotUse(cfg, l.open) + SpotNotional(t) * SpotShare(cfg) + EntryFee(t);
      var futures := FuturesUse(cfg, l.open) + FuturesNotional(t) * FuturesShare(cfg);
      && |after.events| == |l.events| + 1
      && (after.events[|l.events|].action.AcceptedEntry? <==> Affordable(cfg, spot, futures))
      && (if Affordable(cfg, spot, futures)
          then |after.open| == |l.open| + 1 && after.open[..|l.open|] == l.open
               && Records(t, after.open[|l.open|]) && RequiredByPrice(cfg, after.open[|l.open|])
               && after.spotUsed == spot && after.futuresUsed == futures
          else after.open == l.open && after.spotUsed == l.spotUsed && after.futuresUsed == l.futuresUsed)
  {
    hide EntryLot, Breaches, Affordable, RequiredByPrice, Records, SpotUse, FuturesUse, CapitalConfig.Valid, SpotShare, FuturesShare;
    UseIsRequired(cfg, l.open);
    EntryLotRecords(t, cfg);
    var lot := EntryLot(t, cfg);
    LotUses(cfg, t, lot);
    BreachesIff(cfg, l.spotUsed + lot.spotRequired, l.futuresUsed + lot.futuresRequired);
  }

  lemma LotUses(cfg: CapitalConfig, t: Trade, lot: Lot)
    requires Records(t, lot) && RequiredByPrice(cfg, lot)
    ensures lot.spotRequired == SpotNotional(t) * SpotShare(cfg) + EntryFee(t)
    ensures lot.futuresRequired == FuturesNotional(t) * FuturesShare(cfg)
  {
  }

  // ---------------------------------------------------------------- whole replays

  lemma TradeKeepsPrices(cfg: CapitalConfig, l: Ledger, t: Trade)
    requires cfg.Valid() && AllByPrice(cfg, l.open)
    ensures AllByPrice(cfg, ApplyTrade(cfg, l, t).open)
  {
    EntryLotRecords(t, cfg);
    hide EntryLot, Breaches, RequiredByPrice, RealizedPairPnl;
  }

  lemma {:induction false} TradesKeepPrices(cfg: CapitalConfig, l: Ledger, trades: seq<Trade>)
    requires cfg.Valid() && AllByPrice(cfg, l.open)
    ensures AllByPrice(cfg, ApplyTrades(cfg, l, trades).open)
    decreases |trades|
  {
    if trades != [] {
      TradesKeepPrices(cfg, l, trades[..|trades| - 1]);
      TradeKeepsPrices(cfg, ApplyTrades(cfg, l, trades[..|trades| - 1]), trades[|trades| - 1]);
    }
  }

  lemma {:induction false} DiscardKeepsPrices(cfg: CapitalConfig, l: Ledger, key: PositionKey)
    requires AllByPrice(cfg, l.open)
    ensures AllByPrice(cfg, Discard(l, key).open)
    decreases |l.open|
  {
    var oldest := OldestOf(l.open, key);
    if oldest.Some? { DiscardKeepsPrices(cfg, Release(l, oldest.value, Discarded, 0.0), key); }
  }

  lemma {:induction false} DiscardAllKeepsPrices(cfg: CapitalConfig, l: Ledger, keys: seq<PositionKey>)
    requires AllByPrice(cfg, l.open)
    ensures AllByPrice(cfg, DiscardAll(l, keys).open)
    decreases |keys|
  {
    if keys != [] {
      DiscardAllKeepsPrices(cfg, l, keys[..|keys| - 1]);
      DiscardKeepsPrices(cfg, DiscardAll(l, keys[..|keys| - 1]), keys[|keys| - 1]);
    }
  }

  lemma DayKeepsPrices(cfg: CapitalConfig, l: Ledger, day: Day)
    requires cfg.Valid() && AllByPrice(cfg, l.open)
    ensures AllByPrice(cfg, ReplayDay(cfg, l, day).open)
  {
    var start := DayStart(cfg, l);
    DiscardAllKeepsPrices(cfg, start, day.discards);
    TradesKeepPrices(cfg, DiscardAll(start, day.discards), day.trades);
  }

  /** After any days, used capital is what the open lots' prices, quantities, shares and fees come to. */
  lemma {:induction false} BudgetByPrices(cfg: CapitalConfig, days: seq<Day>)
    requires cfg.Valid() && forall i :: 0 <= i < |days| ==> NonnegativeTrades(cfg, days[i].trades)
    ensures
      var l := ReplayDays(cfg, days);
      && AllByPrice(cfg, l.open)
      && l.spotUsed == SpotUse(cfg, l.open) && l.futuresUsed == FuturesUse(cfg, l.open)
    decreases |days|
  {
    if days != [] {
      var n := |days| - 1;
      BudgetByPrices(cfg, days[..n]);
      DayKeepsPrices(cfg, ReplayDays(cfg, days[..n]), days[n]);
    }
    BudgetHolds(cfg, days);
    UseIsRequired(cfg, ReplayDays(cfg, days).open);
    hide SpotUse, FuturesUse, SpotRequired, FuturesRequired, ReplayDay;
  }

  /** Without fees, an empty budget accepts every entry of equal notionals up to the matched limit. */
  lemma MatchedEntryAccepted(cfg: CapitalConfig, t: Trade)
    requires cfg.Valid() && t.signal == EnterLong && EntryFee(t) == 0.0
    requires SpotNotional(t) == FuturesNotional(t) <= cfg.MatchedNotionalLimit()
    ensures ApplyTrade(cfg, EMPTY, t).events[0].action.AcceptedEntry?
  {
    hide ApplyTrade, SpotNotional, FuturesNotional, EntryFee, Records, RequiredByPrice, Sound, CapitalConfig.MatchedNotionalLimit;
    EmptyIsSound(cfg);
    EntryAcceptedIff(cfg, EMPTY, t);
    MatchedIsAffordable(cfg, SpotNotional(t));
  }

  lemma MatchedIsAffordable(cfg: CapitalConfig, notional: real)
    requires cfg.Valid() && notional <= cfg.MatchedNotionalLimit()
    ensures Affordable(cfg, notional * SpotShare(cfg), notional * FuturesShare(cfg))
  {
    var m := cfg.MatchedNotionalLimit();
    MatchedLimit(cfg);
    Monotone(notional, m, SpotShare(cfg));
    Monotone(notional, m, FuturesShare(cfg));
    Shared(m, SpotShare(cfg), FuturesShare(cfg));
    hide SpotShare, FuturesShare, CapitalConfig.MatchedNotionalLimit;
  }

  lemma MatchedLimit(cfg: CapitalConfig)
    requires cfg.Valid()
    ensures
      var m, a, b := cfg.MatchedNotionalLimit(), SpotShare(cfg), FuturesShare(cfg);
      && m * a == PartOf(cfg.totalCapital, a, a + b) && m * b == PartOf(cfg.totalCapital, b, a + b)
      && m * (a + b) == cfg.totalCapital
  {
    LimitsAre(cfg);
    ShareOf(cfg.totalCapital, SpotShare(cfg), SpotShare(cfg) + FuturesShare(cfg));
    ShareOf(cfg.totalCapital, FuturesShare(cfg), SpotShare(cfg) + FuturesShare(cfg));
  }

  lemma Monotone(x: real, y: real, share: real)
    requires x <= y && share > 0.0
    ensures x * share <= y * share
  {
  }

  lemma Shared(m: real, a: real, b: real)
    ensures m * (a + b) == m * a + m * b
  {
  }
}
