/** FIFO realized PnL of the capital replay against average-cost realized PnL of the backtester. */
module FifoPnl {
  import opened Wrappers
  import opened Models
  import opened Strategy
  import opened Replay
  import opened PositionCarry
  import opened ContractExpiry
  import opened Capital
  import opened CapitalReplay

  // ---------------------------------------------------------------- one pair's fills

  /** A completed one-unit fill of the pair. */
  datatype PairFill = PairFill(
    signal: Signal, spotPrice: real, futurePrice: real, pricing: PairPricing, stamp: Option<int>)
  {
    predicate LongOnly() { (signal == EnterLong || signal == Exit) && spotPrice > 0.0 && futurePrice > 0.0 }
  }

  /** The capital replay sees the pair's fills among those of other pairs. */
  datatype CandidateFill = Ours(fill: PairFill) | Theirs(trade: Trade)

  function TradeOf(pair: PairConfig, fill: PairFill): Trade {
    Trade(KeyOf(pair), fill.signal, fill.spotPrice, fill.futurePrice,
          pair.spotOrderQty as real, pair.futureOrderQty as real, pair.futurePnlMultiplier as real,
          pair.stockCommissionRate, pair.stockCommissionDiscount, pair.stockTransactionTaxRate)
  }

  function Candidate(pair: PairConfig, c: CandidateFill): Trade {
    match c
    case Ours(fill) => TradeOf(pair, fill)
    case Theirs(trade) => trade
  }

  /** The fill is the pair's own and long-only, or belongs to another pair. */
  predicate ValidCandidate(pair: PairConfig, c: CandidateFill) {
    match c
    case Ours(fill) => fill.LongOnly()
    case Theirs(trade) => trade.key != KeyOf(pair)
  }

  // ---------------------------------------------------------------- average cost

  /** The backtester's position and what it has realized. */
  datatype Average = Average(position: PairPosition, realized: real)

  function Amount(value: Option<real>): real { if value.Some? then value.value else 0.0 }

  function AverageStep(pair: PairConfig, a: Average, fill: PairFill): Average {
    if fill.signal == Exit then
      Average(ReducePosition(a.position), a.realized + Amount(ExitPnl(pair, a.position, fill.spotPrice, fill.futurePrice, 1)))
    else
      a.(position := AddToPosition(a.position, fill.signal, fill.pricing, fill.spotPrice, fill.futurePrice, fill.stamp))
  }

  // ---------------------------------------------------------------- costs

  /** What one unit entered at these prices costs: stock notional with its entry fee, less the
      futures notional sold. */
  function UnitCost(pair: PairConfig, spot: real, future: real): real {
    var quantity := pair.spotOrderQty as real;
    var commission := pair.stockCommissionRate * pair.stockCommissionDiscount;
    spot * quantity + spot * quantity * commission
    - future * (pair.futureOrderQty as real * pair.futurePnlMultiplier as real)
  }

  /** The open FIFO lots at cost. */
  function LotsCost(pair: PairConfig, lots: seq<Lot>): real {
    if lots == [] then 0.0
    else UnitCost(pair, lots[0].entrySpotPrice, lots[0].entryFuturePrice) + LotsCost(pair, lots[1..])
  }

  /** The average-cost position at cost. */
  function AverageCost(pair: PairConfig, position: PairPosition): real {
    position.quantity as real * UnitCost(pair, Amount(position.entrySpotPrice), Amount(position.entryFuturePrice))
  }

  lemma Distribute(n: real, x: real, m: real, y: real, k: real)
    ensures (n * x + m * y) * k == n * (x * k) + m * (y * k)
  {
  }

  lemma {:induction false} LotsCostAppend(pair: PairConfig, lots: seq<Lot>, lot: Lot)
    ensures LotsCost(pair, lots + [lot]) == LotsCost(pair, lots) + UnitCost(pair, lot.entrySpotPrice, lot.entryFuturePrice)
    decreases |lots|
  {
    hide UnitCost;
    if lots != [] {
      assert (lots + [lot])[1..] == lots[1..] + [lot];
      LotsCostAppend(pair, lots[1..], lot);
    }
  }

  lemma UnitCostLinear(pair: PairConfig, spot: real, future: real, n: real, moreSpot: real, moreFuture: real, m: real)
    ensures n * UnitCost(pair, spot, future) + m * UnitCost(pair, moreSpot, moreFuture)
         == UnitCost(pair, n * spot + m * moreSpot, n * future + m * moreFuture)
  {
    var k := pair.spotOrderQty as real;
    var c := pair.stockCommissionRate * pair.stockCommissionDiscount;
    var f := pair.futureOrderQty as real * pair.futurePnlMultiplier as real;
    Distribute(n, spot, m, moreSpot, k);
    Distribute(n, future, m, moreFuture, f);
    Distribute(n, spot * k, m, moreSpot * k, c);
  }

  /** Entering one more unit adds exactly its cost to the average-cost position. */
  lemma EntryCost(pair: PairConfig, position: PairPosition, fill: PairFill)
    requires position.quantity >= 0 && (position.quantity > 0 ==> position.entrySpotPrice.Some? && position.entryFuturePrice.Some?)
    ensures
      AverageCost(pair, AddToPosition(position, EnterLong, fill.pricing, fill.spotPrice, fill.futurePrice, fill.stamp))
      == AverageCost(pair, position) + UnitCost(pair, fill.spotPrice, fill.futurePrice)
  {
    var n := position.quantity as real;
    var spot, future := Amount(position.entrySpotPrice), Amount(position.entryFuturePrice);
    var after := AddToPosition(position, EnterLong, fill.pricing, fill.spotPrice, fill.futurePrice, fill.stamp);
    var newSpot, newFuture := after.entrySpotPrice.value, after.entryFuturePrice.value;
    WeightedAverageTotal(position.entrySpotPrice, position.quantity, fill.spotPrice);
    WeightedAverageTotal(position.entryFuturePrice, position.quantity, fill.futurePrice);
    hide WeightedAverage;
    assert (position.quantity + 1) as real == n + 1.0;
    assert newSpot * (n + 1.0) == n * spot + fill.spotPrice;
    assert newFuture * (n + 1.0) == n * future + fill.futurePrice;
    hide UnitCost;
    UnitCostLinear(pair, spot, future, n, fill.spotPrice, fill.futurePrice, 1.0);
    UnitCostLinear(pair, newSpot, newFuture, n + 1.0, 0.0, 0.0, 0.0);
  }

  /** An exit realizes its proceeds less the cost of what it closes, under either accounting. */
  function Proceeds(pair: PairConfig, fill: PairFill): real {
    var notional := fill.spotPrice * pair.spotOrderQty as real;
    notional
    - notional * (pair.stockCommissionRate * pair.stockCommissionDiscount)
    - notional * pair.stockTransactionTaxRate
    - fill.futurePrice * (pair.futureOrderQty as real * pair.futurePnlMultiplier as real)
  }

  lemma MultiplierProduct(a: int, b: int)
    ensures (a * b * 1) as real == b as real * a as real
  {
  }

  lemma AverageExit(pair: PairConfig, position: PairPosition, fill: PairFill)
    requires position.direction == EnterLong && position.entrySpotPrice.Some? && position.entryFuturePrice.Some?
    ensures ExitPnl(pair, position, fill.spotPrice, fill.futurePrice, 1)
         == Some(Proceeds(pair, fill) - UnitCost(pair, position.entrySpotPrice.value, position.entryFuturePrice.value))
  {
    MultiplierProduct(pair.futurePnlMultiplier, pair.futureOrderQty);
    assert (pair.spotOrderQty * 1) as real == pair.spotOrderQty as real;
    var m := pair.futureOrderQty as real * pair.futurePnlMultiplier as real;
    var q := pair.spotOrderQty as real;
    var c := pair.stockCommissionRate * pair.stockCommissionDiscount;
    var s, f, entrySpot, entryFuture := fill.spotPrice, fill.futurePrice, position.entrySpotPrice.value, position.entryFuturePrice.value;
    assert ExitPnl(pair, position, s, f, 1).value
        == (s - entrySpot) * q + (entryFuture - f) * m - (entrySpot * q * c + s * q * c) - s * q * pair.stockTransactionTaxRate;
    assert Proceeds(pair, fill) == s * q - s * q * c - s * q * pair.stockTransactionTaxRate - f * m;
    assert UnitCost(pair, entrySpot, entryFuture) == entrySpot * q + entrySpot * q * c - entryFuture * m;
    hide ExitPnl, Proceeds, UnitCost;
    SubtractProducts(s, entrySpot, q);
    SubtractProducts(entryFuture, f, m);
  }

  lemma SubtractProducts(a: real, b: real, k: real)
    ensures (a - b) * k == a * k - b * k
  {
  }

  lemma FifoExit(cfg: CapitalConfig, pair: PairConfig, lot: Lot, fill: PairFill)
    requires LotOfPair(pair, lot)
    ensures RealizedPairPnl(lot, TradeOf(pair, fill))
         == Proceeds(pair, fill) - UnitCost(pair, lot.entrySpotPrice, lot.entryFuturePrice)
  {
    SubtractProducts(fill.spotPrice, lot.entrySpotPrice, lot.spotQty);
    SubtractProducts(lot.entryFuturePrice, fill.futurePrice, lot.futureMultiplier);
    var notional := fill.spotPrice * lot.spotQty;
    assert notional * (lot.commissionRate + lot.taxRate) == notional * lot.commissionRate + notional * lot.taxRate;
  }

  /** A lot opened by one of the pair's fills. */
  predicate LotOfPair(pair: PairConfig, lot: Lot) {
    && lot.spotQty == pair.spotOrderQty as real
    && lot.futureMultiplier == pair.futureOrderQty as real * pair.futurePnlMultiplier as real
    && lot.commissionRate == pair.stockCommissionRate * pair.stockCommissionDiscount
    && lot.taxRate == pair.stockTransactionTaxRate
    && lot.entryStockFee == lot.entrySpotPrice * lot.spotQty * lot.commissionRate
  }

  // ---------------------------------------------------------------- the two accounts side by side

  function RealizedOf(events: seq<CapitalEvent>, key: PositionKey): real {
    if events == [] then 0.0
    else
      var e := events[|events| - 1];
      RealizedOf(events[..|events| - 1], key) + if e.key == key then e.realizedPnl else 0.0
  }

  predicate NoneRejected(events: seq<CapitalEvent>, key: PositionKey) {
    forall i :: 0 <= i < |events| && events[i].key == key ==> !events[i].action.RejectedEntry?
  }

  /** Both accounts hold the same units, and the realized totals (FIFO over `realized` plus the
      events) differ by exactly the difference of the open costs. */
  ghost predicate Reconciled(pair: PairConfig, l: Ledger, realized: real, a: Average) {
    var lots := LotsOf(l.open, KeyOf(pair));
    && (a.position.direction == Hold || a.position.direction == EnterLong)
    && Carriable(a.position)
    && a.position.quantity == |lots|
    && (forall i :: 0 <= i < |lots| ==> LotOfPair(pair, lots[i]))
    && realized - a.realized == LotsCost(pair, lots) - AverageCost(pair, a.position)
  }

  function AverageAfter(pair: PairConfig, a: Average, c: CandidateFill): Average {
    if c.Ours? then AverageStep(pair, a, c.fill) else a
  }

  lemma EntryOpensLot(cfg: CapitalConfig, pair: PairConfig, l: Ledger, fill: PairFill)
    requires cfg.Valid()
    requires
      var e := ApplyEntry(cfg, l, TradeOf(pair, fill)).events[|l.events|];
      !e.action.RejectedEntry?
    ensures
      var lot := EntryLot(TradeOf(pair, fill), cfg);
      && LotOfPair(pair, lot) && lot.entrySpotPrice == fill.spotPrice && lot.entryFuturePrice == fill.futurePrice
      && LotsOf(ApplyEntry(cfg, l, TradeOf(pair, fill)).open, KeyOf(pair)) == LotsOf(l.open, KeyOf(pair)) + [lot]
  {
  }

  lemma EntryReconciles(cfg: CapitalConfig, pair: PairConfig, l: Ledger, realized: real, a: Average, fill: PairFill)
    requires cfg.Valid() && Reconciled(pair, l, realized, a) && fill.LongOnly() && fill.signal == EnterLong
    requires
      var e := ApplyEntry(cfg, l, TradeOf(pair, fill)).events[|l.events|];
      !e.action.RejectedEntry?
    ensures Reconciled(pair, ApplyEntry(cfg, l, TradeOf(pair, fill)), realized, AverageStep(pair, a, fill))
  {
    EntryOpensLot(cfg, pair, l, fill);
    EntryCost(pair, a.position, fill);
    EntryCarriable(a.position, fill);
    hide UnitCost, LotsCost, AverageCost, EntryLot, LotsOf, WeightedAverage, Priced, LotOfPair, ApplyEntry, Carriable, CapitalConfig.Valid;
    LotsCostAppend(pair, LotsOf(l.open, KeyOf(pair)), EntryLot(TradeOf(pair, fill), cfg));
  }

  lemma EntryCarriable(position: PairPosition, fill: PairFill)
    requires Carriable(position) && position.direction != EnterShort && fill.LongOnly()
    ensures Carriable(AddToPosition(position, EnterLong, fill.pricing, fill.spotPrice, fill.futurePrice, fill.stamp))
  {
    AveragePositive(position.entrySpotPrice, position.quantity, fill.spotPrice);
    AveragePositive(position.entryFuturePrice, position.quantity, fill.futurePrice);
    hide WeightedAverage;
  }

  lemma ExitCost(pair: PairConfig, position: PairPosition)
    requires position.quantity >= 1
    ensures AverageCost(pair, ReducePosition(position))
         == AverageCost(pair, position) - UnitCost(pair, Amount(position.entrySpotPrice), Amount(position.entryFuturePrice))
  {
    var unit := UnitCost(pair, Amount(position.entrySpotPrice), Amount(position.entryFuturePrice));
    hide UnitCost;
    assert (position.quantity - 1) as real == position.quantity as real - 1.0;
    SubtractProducts(position.quantity as real, 1.0, unit);
    if position.quantity == 1 {
      assert ReducePosition(position).quantity == 0;
      assert AverageCost(pair, ReducePosition(position)) == 0.0;
    }
  }

  lemma ExitReconciles(cfg: CapitalConfig, pair: PairConfig, l: Ledger, realized: real, a: Average, fill: PairFill)
    requires cfg.Valid() && Reconciled(pair, l, realized, a) && fill.LongOnly() && fill.signal == Exit
    ensures
      var after := ApplyExit(l, TradeOf(pair, fill));
      Reconciled(pair, after, realized + after.events[|l.events|].realizedPnl, AverageStep(pair, a, fill))
  {
    var key := KeyOf(pair);
    var lots := LotsOf(l.open, key);
    OldestHeadsQueue(l.open, key, key);
    var after := ApplyExit(l, TradeOf(pair, fill));
    if OldestOf(l.open, key).Some? {
      var lot := l.open[OldestOf(l.open, key).value];
      assert lots[0] == lot && lots[1..] == LotsOf(after.open, key);
      assert LotOfPair(pair, lots[0]);
      FifoExit(cfg, pair, lot, fill);
      AverageExit(pair, a.position, fill);
      ExitCost(pair, a.position);
      assert Carriable(ReducePosition(a.position));
      assert after.events[|l.events|].realizedPnl == RealizedPairPnl(lot, TradeOf(pair, fill));
      hide UnitCost, AverageCost, LotsOf, LotOfPair, Proceeds, RealizedPairPnl, ExitPnl, OldestOf, Carriable, Priced;
    } else {
      assert after.events[|l.events|].realizedPnl == 0.0 && after.open == l.open;
      assert ReducePosition(a.position) == a.position.(entryBasisPct := None, entrySpotPrice := None, entryFuturePrice := None);
      hide UnitCost, LotsOf, LotsCost;
    }
  }

  // ---------------------------------------------------------------- any interleaving of pairs

  lemma {:induction false} RealizedConcat(a: seq<CapitalEvent>, b: seq<CapitalEvent>, key: PositionKey)
    ensures RealizedOf(a + b, key) == RealizedOf(a, key) + RealizedOf(b, key)
    decreases |b|
  {
    if b == [] {
      assert a + b == a;
    } else {
      assert (a + b)[..|a + b| - 1] == a + b[..|b| - 1];
      RealizedConcat(a, b[..|b| - 1], key);
    }
  }

  lemma RealizedAppend(events: seq<CapitalEvent>, e: CapitalEvent, key: PositionKey)
    ensures RealizedOf(events + [e], key) == RealizedOf(events, key) + if e.key == key then e.realizedPnl else 0.0
  {
  }

  /** A step of the ledger that leaves one pair alone: its lots and its realized total stay. */
  ghost predicate LeavesAlone(l: Ledger, after: Ledger, key: PositionKey) {
    LotsOf(after.open, key) == LotsOf(l.open, key) && RealizedOf(after.events, key) == RealizedOf(l.events, key)
  }

  lemma ReleaseLeavesAlone(l: Ledger, other: PositionKey, action: Action, pnl: real, key: PositionKey)
    requires other != key && OldestOf(l.open, other).Some?
    ensures LeavesAlone(l, Release(l, OldestOf(l.open, other).value, action, pnl), key)
  {
    OldestHeadsQueue(l.open, other, key);
    var after := Release(l, OldestOf(l.open, other).value, action, pnl);
    RealizedAppend(l.events, after.events[|l.events|], key);
    hide LotsOf, RealizedOf;
  }

  lemma OtherTradeLeavesAlone(cfg: CapitalConfig, l: Ledger, t: Trade, key: PositionKey)
    requires cfg.Valid() && t.key != key
    ensures LeavesAlone(l, ApplyTrade(cfg, l, t), key)
  {
    var after := ApplyTrade(cfg, l, t);
    if t.signal == Exit && OldestOf(l.open, t.key).Some? {
      ReleaseLeavesAlone(l, t.key, AcceptedExit, RealizedPairPnl(l.open[OldestOf(l.open, t.key).value], t), key);
    } else {
      assert EntryLot(t, cfg).key == t.key;
      hide EntryLot, Breaches, OldestOf, RealizedPairPnl;
      RealizedAppend(l.events, after.events[|l.events|], key);
      LotsOfConcat(l.open, [EntryLot(t, cfg)], key);
      assert LotsOf([EntryLot(t, cfg)], key) == [];
    }
  }

  lemma {:induction false} OtherDiscardLeavesAlone(l: Ledger, other: PositionKey, key: PositionKey)
    requires other != key
    ensures LeavesAlone(l, Discard(l, other), key)
    decreases |l.open|
  {
    if OldestOf(l.open, other).Some? {
      ReleaseLeavesAlone(l, other, Discarded, 0.0, key);
      OtherDiscardLeavesAlone(Release(l, OldestOf(l.open, other).value, Discarded, 0.0), other, key);
    }
  }

  lemma {:induction false} OtherDiscardsLeaveAlone(l: Ledger, keys: seq<PositionKey>, key: PositionKey)
    requires key !in keys
    ensures LeavesAlone(l, DiscardAll(l, keys), key)
    decreases |keys|
  {
    if keys != [] {
      var n := |keys| - 1;
      OtherDiscardsLeaveAlone(l, keys[..n], key);
      OtherDiscardLeavesAlone(DiscardAll(l, keys[..n]), keys[n], key);
    }
  }

  lemma OtherFillReconciles(cfg: CapitalConfig, pair: PairConfig, l: Ledger, earlier: real, a: Average, t: Trade)
    requires cfg.Valid() && t.key != KeyOf(pair)
    requires Reconciled(pair, l, earlier + RealizedOf(l.events, KeyOf(pair)), a)
    ensures
      var after := ApplyTrade(cfg, l, t);
      Reconciled(pair, after, earlier + RealizedOf(after.events, KeyOf(pair)), a)
  {
    OtherTradeLeavesAlone(cfg, l, t, KeyOf(pair));
    hide ApplyTrade, LotsOf, LotsCost, AverageCost, Carriable, RealizedOf, LotOfPair, CapitalConfig.Valid;
  }

  /** The event of one of the pair's own fills; an entry realizes nothing. */
  lemma OwnEvent(cfg: CapitalConfig, pair: PairConfig, l: Ledger, fill: PairFill)
    requires cfg.Valid() && fill.LongOnly()
    ensures
      var after := ApplyTrade(cfg, l, TradeOf(pair, fill));
      && |after.events| == |l.events| + 1
      && after.events[|l.events|].key == KeyOf(pair)
      && RealizedOf(after.events, KeyOf(pair)) == RealizedOf(l.events, KeyOf(pair)) + after.events[|l.events|].realizedPnl
      && (fill.signal == EnterLong ==> after.events[|l.events|].realizedPnl == 0.0)
  {
  }

  lemma FillReconciles(cfg: CapitalConfig, pair: PairConfig, l: Ledger, earlier: real, a: Average, c: CandidateFill)
    requires cfg.Valid() && ValidCandidate(pair, c)
    requires Reconciled(pair, l, earlier + RealizedOf(l.events, KeyOf(pair)), a)
    requires NoneRejected(ApplyTrade(cfg, l, Candidate(pair, c)).events, KeyOf(pair))
    ensures
      var after := ApplyTrade(cfg, l, Candidate(pair, c));
      Reconciled(pair, after, earlier + RealizedOf(after.events, KeyOf(pair)), AverageAfter(pair, a, c))
  {
    hide Reconciled, RealizedOf, AverageStep, ApplyExit, ApplyEntry, CapitalConfig.Valid, KeyOf;
    if c.Theirs? {
      OtherFillReconciles(cfg, pair, l, earlier, a, c.trade);
    } else {
      var realized := earlier + RealizedOf(l.events, KeyOf(pair));
      OwnEvent(cfg, pair, l, c.fill);
      if c.fill.signal == Exit {
        ExitReconciles(cfg, pair, l, realized, a, c.fill);
      } else {
        EntryReconciles(cfg, pair, l, realized, a, c.fill);
      }
    }
  }

  function Candidates(pair: PairConfig, fills: seq<CandidateFill>): (trades: seq<Trade>)
    ensures |trades| == |fills| && forall i :: 0 <= i < |fills| ==> trades[i] == Candidate(pair, fills[i])
  {
    seq(|fills|, i requires 0 <= i < |fills| => Candidate(pair, fills[i]))
  }

  function AverageFills(pair: PairConfig, a: Average, fills: seq<CandidateFill>): Average {
    if fills == [] then a else AverageAfter(pair, AverageFills(pair, a, fills[..|fills| - 1]), fills[|fills| - 1])
  }

  lemma {:induction false} EventsGrow(cfg: CapitalConfig, l: Ledger, trades: seq<Trade>, n: nat)
    requires cfg.Valid() && n <= |trades|
    ensures
      var before, after := ApplyTrades(cfg, l, trades[..n]), ApplyTrades(cfg, l, trades);
      |before.events| <= |after.events| && after.events[..|before.events|] == before.events
    decreases |trades|
  {
    if n == |trades| {
      assert trades[..n] == trades;
    } else {
      var m := |trades| - 1;
      assert trades[..m][..n] == trades[..n];
      EventsGrow(cfg, l, trades[..m], n);
      var last := ApplyTrades(cfg, l, trades[..m]);
      var after := ApplyTrade(cfg, last, trades[m]);
      assert |after.events| == |last.events| + 1 && after.events[..|last.events|] == last.events by {
        hide EntryLot, Breaches, RealizedPairPnl, OldestOf;
      }
      hide ApplyTrade;
    }
  }

  lemma NoneRejectedBefore(cfg: CapitalConfig, l: Ledger, trades: seq<Trade>, n: nat, key: PositionKey)
    requires cfg.Valid() && n <= |trades| && NoneRejected(ApplyTrades(cfg, l, trades).events, key)
    ensures NoneRejected(ApplyTrades(cfg, l, trades[..n]).events, key)
  {
    EventsGrow(cfg, l, trades, n);
    hide ApplyTrades;
    var before, after := ApplyTrades(cfg, l, trades[..n]), ApplyTrades(cfg, l, trades);
    assert forall i :: 0 <= i < |before.events| ==> before.events[i] == after.events[i];
  }

  lemma {:induction false} FillsReconcile(
    cfg: CapitalConfig, pair: PairConfig, l: Ledger, earlier: real, a: Average, fills: seq<CandidateFill>)
    requires cfg.Valid() && forall i :: 0 <= i < |fills| ==> ValidCandidate(pair, fills[i])
    requires Reconciled(pair, l, earlier + RealizedOf(l.events, KeyOf(pair)), a)
    requires NoneRejected(ApplyTrades(cfg, l, Candidates(pair, fills)).events, KeyOf(pair))
    ensures
      var after := ApplyTrades(cfg, l, Candidates(pair, fills));
      Reconciled(pair, after, earlier + RealizedOf(after.events, KeyOf(pair)), AverageFills(pair, a, fills))
    decreases |fills|
  {
    hide Reconciled, ApplyTrade, AverageAfter, RealizedOf, ValidCandidate, Candidate, CapitalConfig.Valid, KeyOf, NoneRejected;
    if fills != [] {
      var n := |fills| - 1;
      var trades := Candidates(pair, fills);
      assert trades[..n] == Candidates(pair, fills[..n]);
      NoneRejectedBefore(cfg, l, trades, n, KeyOf(pair));
      FillsReconcile(cfg, pair, l, earlier, a, fills[..n]);
      FillReconciles(cfg, pair, ApplyTrades(cfg, l, trades[..n]), earlier, AverageFills(pair, a, fills[..n]), fills[n]);
    }
  }

  // ---------------------------------------------------------------- carried over trade dates

  datatype PairDay = PairDay(tradeDate: Date, configPath: string, discards: seq<PositionKey>, fills: seq<CandidateFill>)

  /** Fills of the pair are long-only and its carried position is not excluded. */
  predicate ValidPairDay(pair: PairConfig, day: PairDay) {
    && KeyOf(pair) !in day.discards
    && forall i :: 0 <= i < |day.fills| ==> ValidCandidate(pair, day.fills[i])
  }

  function CapitalDays(pair: PairConfig, days: seq<PairDay>): (r: seq<Day>)
    ensures |r| == |days|
    ensures forall i :: 0 <= i < |days| ==> r[i] == Day(days[i].discards, Candidates(pair, days[i].fills))
  {
    seq(|days|, i requires 0 <= i < |days| => Day(days[i].discards, Candidates(pair, days[i].fills)))
  }

  /** The position the next date's run starts from, through the summary row and its snapshot. */
  function CarriedOver(pair: PairConfig, position: PairPosition, day: PairDay): PairPosition {
    match SnapshotOf(SummaryOf(position), pair, day.configPath, day.tradeDate)
    case Ok(Some(snapshot)) => BuildInitialPosition(RestoredPair(snapshot, pair))
    case _ => BuildInitialPosition(pair)
  }

  /** The backtester run date by date, each date from the position carried out of the one before. */
  function AverageDays(pair: PairConfig, days: seq<PairDay>): Average {
    if days == [] then Average(BuildInitialPosition(pair), 0.0)
    else
      var n := |days| - 1;
      var before := AverageDays(pair, days[..n]);
      AverageFills(pair, DayOpening(pair, days, before), days[n].fills)
  }

  lemma CarryReconciles(pair: PairConfig, l: Ledger, realized: real, a: Average, day: PairDay)
    requires BuildInitialPosition(pair) == FLAT && Reconciled(pair, l, realized, a)
    ensures Reconciled(pair, l, realized, a.(position := CarriedOver(pair, a.position, day)))
  {
    CarryRoundTrip(a.position, pair, pair, day.configPath, day.tradeDate);
    var carried := CarriedOver(pair, a.position, day);
    hide LotsOf, LotsCost, SnapshotOf, UnitCost, LotOfPair;
    if a.position.quantity == 0 {
      assert carried == FLAT;
      assert AverageCost(pair, carried) == 0.0 && AverageCost(pair, a.position) == 0.0;
    } else {
      assert carried == a.position.(lastEntryTime := None);
      assert AverageCost(pair, carried) == AverageCost(pair, a.position);
    }
  }

  lemma NoneRejectedSplits(a: seq<CapitalEvent>, b: seq<CapitalEvent>, key: PositionKey)
    requires NoneRejected(a + b, key)
    ensures NoneRejected(a, key) && NoneRejected(b, key)
  {
    assert forall i :: 0 <= i < |a| ==> a[i] == (a + b)[i];
    assert forall i :: 0 <= i < |b| ==> b[i] == (a + b)[|a| + i];
  }

  lemma NoDaysReconcile(cfg: CapitalConfig, pair: PairConfig)
    requires cfg.Valid() && BuildInitialPosition(pair) == FLAT
    ensures Reconciled(pair, EMPTY, 0.0, Average(BuildInitialPosition(pair), 0.0))
  {
  }

  /** The position a date starts from is the one the date before ended with. */
  function DayOpening(pair: PairConfig, days: seq<PairDay>, before: Average): Average
    requires days != []
  {
    if |days| == 1 then before else before.(position := CarriedOver(pair, before.position, days[|days| - 2]))
  }

  lemma {:induction false} DaysReconcile(cfg: CapitalConfig, pair: PairConfig, days: seq<PairDay>)
    requires cfg.Valid() && cfg.carryPositions && BuildInitialPosition(pair) == FLAT
    requires forall i :: 0 <= i < |days| ==> ValidPairDay(pair, days[i])
    requires NoneRejected(AllEvents(cfg, CapitalDays(pair, days)), KeyOf(pair))
    ensures
      var all := CapitalDays(pair, days);
      Reconciled(pair, ReplayDays(cfg, all), RealizedOf(AllEvents(cfg, all), KeyOf(pair)), AverageDays(pair, days))
    decreases |days|
  {
    hide Reconciled, RealizedOf, ReplayDay, AverageFills, CarriedOver, BuildInitialPosition, CapitalConfig.Valid, NoneRejected, ValidPairDay, KeyOf, Candidates;
    NoDaysReconcile(cfg, pair);
    if days == [] {
      assert RealizedOf([], KeyOf(pair)) == 0.0 by { NothingRealized(KeyOf(pair)); }
    } else {
      var n := |days| - 1;
      var all, front := CapitalDays(pair, days), CapitalDays(pair, days[..n]);
      assert all[..n] == front;
      var earlierEvents := AllEvents(cfg, front);
      var today := ReplayDay(cfg, ReplayDays(cfg, front), all[n]);
      NoneRejectedSplits(earlierEvents, today.events, KeyOf(pair));
      RealizedConcat(earlierEvents, today.events, KeyOf(pair));
      DaysReconcile(cfg, pair, days[..n]);
      var before := AverageDays(pair, days[..n]);
      var earlier := RealizedOf(earlierEvents, KeyOf(pair));
      if n > 0 {
        CarryReconciles(pair, ReplayDays(cfg, front), earlier, before, days[n - 1]);
      }
      DayReconciles(cfg, pair, ReplayDays(cfg, front), earlier, DayOpening(pair, days, before), days[n]);
    }
  }

  lemma NothingRealized(key: PositionKey)
    ensures RealizedOf([], key) == 0.0
  {
  }

  lemma BegunReconciles(cfg: CapitalConfig, pair: PairConfig, l: Ledger, earlier: real, start: Average, day: PairDay)
    requires cfg.carryPositions && KeyOf(pair) !in day.discards && Reconciled(pair, l, earlier, start)
    ensures
      var begun := DiscardAll(DayStart(cfg, l), day.discards);
      Reconciled(pair, begun, earlier + RealizedOf(begun.events, KeyOf(pair)), start)
  {
    var opening := DayStart(cfg, l);
    assert RealizedOf(opening.events, KeyOf(pair)) == 0.0;
    OtherDiscardsLeaveAlone(opening, day.discards, KeyOf(pair));
    hide DiscardAll, LotsOf, LotsCost, AverageCost, Carriable, RealizedOf, LotOfPair;
  }

  lemma DayReconciles(cfg: CapitalConfig, pair: PairConfig, l: Ledger, earlier: real, start: Average, day: PairDay)
    requires cfg.Valid() && cfg.carryPositions && ValidPairDay(pair, day) && Reconciled(pair, l, earlier, start)
    requires
      var today := ReplayDay(cfg, l, Day(day.discards, Candidates(pair, day.fills)));
      NoneRejected(today.events, KeyOf(pair))
    ensures
      var today := ReplayDay(cfg, l, Day(day.discards, Candidates(pair, day.fills)));
      Reconciled(pair, today, earlier + RealizedOf(today.events, KeyOf(pair)), AverageFills(pair, start, day.fills))
  {
    hide Reconciled, ApplyTrades, NoneRejected, DiscardAll, DayStart, ValidCandidate, CapitalConfig.Valid, RealizedOf, AverageFills;
    BegunReconciles(cfg, pair, l, earlier, start, day);
    FillsReconcile(cfg, pair, DiscardAll(DayStart(cfg, l), day.discards), earlier, start, day.fills);
  }

  /** Over any dates and any interleaving with other pairs, if every entry of the pair was accepted,
      FIFO realized PnL less average-cost realized PnL is the open lots at cost less the average
      position at cost; so the totals coincide whenever the position is flat. */
  lemma FifoMinusAverage(cfg: CapitalConfig, pair: PairConfig, days: seq<PairDay>)
    requires cfg.Valid() && cfg.carryPositions && BuildInitialPosition(pair) == FLAT
    requires forall i :: 0 <= i < |days| ==> ValidPairDay(pair, days[i])
    requires NoneRejected(AllEvents(cfg, CapitalDays(pair, days)), KeyOf(pair))
    ensures
      var all := CapitalDays(pair, days);
      var fifo := RealizedOf(AllEvents(cfg, all), KeyOf(pair));
      var average := AverageDays(pair, days);
      var lots := LotsOf(ReplayDays(cfg, all).open, KeyOf(pair));
      && average.position.quantity == |lots|
      && fifo - average.realized == LotsCost(pair, lots) - AverageCost(pair, average.position)
      && (average.position.quantity == 0 ==> fifo == average.realized)
  {
    DaysReconcile(cfg, pair, days);
    hide UnitCost, ReplayDays, AllEvents, AverageDays, RealizedOf, LotsOf, Carriable, LotOfPair, CapitalConfig.Valid, NoneRejected;
    var average := AverageDays(pair, days);
    if average.position.quantity == 0 {
      assert AverageCost(pair, average.position) == 0.0;
    }
  }
}
