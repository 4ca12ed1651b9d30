/** Pricing, signals and risk checks of the default pair strategy. */
module Strategy {
  import opened Wrappers
  import opened Models
  import opened Ticks

  const EFFECTIVE_TICK_COST_RATE := 0.004
  const BOARD_LOT_SHARES := 1000.0

  datatype PairPricing = PairPricing(
    longPct: real,
    shortPct: real,
    midBasisPct: real,
    longTicks: real,
    shortTicks: real,
    longExitTicks: real,
    shortExitTicks: real)

  /** Share counts enter the notionals as reals; a positive product never divides by zero. */
  lemma ProductPositive(a: real, b: real)
    requires a > 0.0 && b > 0.0
    ensures a * b > 0.0
  {
  }

  function Notional(price: Price, shares: int): (n: real)
    requires shares > 0
    ensures n > 0.0
  {
    ProductPositive(price, shares as real);
    price * shares as real
  }

  function PriceMarket(pair: PairConfig, market: PairMarket): PairPricing
    requires ValidPair(pair)
  {
    var spot, future := market.spot, market.future;
    var spotBuy := Notional(spot.ask, pair.spotSharesPerPair);
    var spotSell := Notional(spot.bid, pair.spotSharesPerPair);
    var futureSell := Notional(future.bid, pair.futureSharesPerPair);
    var futureBuy := Notional(future.ask, pair.futureSharesPerPair);
    var longTick :=
      PairLegTick(pair, Stock, spot.ask, spot.timestamp) + PairLegTick(pair, Future, future.bid, future.timestamp);
    var shortTick :=
      PairLegTick(pair, Stock, spot.bid, spot.timestamp) + PairLegTick(pair, Future, future.ask, future.timestamp);
    PairPricing(
      (futureSell - spotBuy) / spotBuy,
      (futureBuy - spotSell) / spotSell,
      (future.Mid() - spot.Mid()) / spot.Mid(),
      ((future.bid - spot.ask) - spot.ask * EFFECTIVE_TICK_COST_RATE) / longTick,
      ((spot.bid - future.ask) - spot.bid * EFFECTIVE_TICK_COST_RATE) / shortTick,
      (future.ask - spot.bid) / shortTick,
      (spot.ask - future.bid) / longTick)
  }

  predicate ExitTicksTriggered(pair: PairConfig, exitTicks: real) {
    if pair.exitTickRule.Gte? then exitTicks >= pair.exitTickMultiple else exitTicks <= pair.exitTickMultiple
  }

  predicate ShouldExit(position: PairPosition, pair: PairConfig, pricing: PairPricing) {
    match position.direction
    case EnterLong =>
      ExitTicksTriggered(pair, pricing.longExitTicks) || pricing.shortPct <= pair.exitThresholdPct
    case EnterShort =>
      ExitTicksTriggered(pair, pricing.shortExitTicks) || pricing.longPct >= -pair.exitThresholdPct
    case _ => false
  }

  predicate LongEntry(pair: PairConfig, pricing: PairPricing) {
    pricing.longPct >= pair.entryThresholdPct && pricing.longTicks > pair.minEffectiveTickMultiple
  }

  predicate ShortEntry(pair: PairConfig, pricing: PairPricing) {
    && pair.allowShortSpot
    && pricing.shortPct <= -pair.entryThresholdPct
    && pricing.shortTicks > pair.minEffectiveTickMultiple
  }

  /** SignalEngine.evaluate. */
  function EvaluateSignal(pair: PairConfig, pricing: PairPricing, position: PairPosition): Signal {
    if position.HasPosition() then
      if ShouldExit(position, pair, pricing) then Exit
      else if position.direction == EnterLong && LongEntry(pair, pricing) then EnterLong
      else if position.direction == EnterShort && ShortEntry(pair, pricing) then EnterShort
      else Hold
    else if LongEntry(pair, pricing) then EnterLong
    else if ShortEntry(pair, pricing) then EnterShort
    else Hold
  }

  predicate HitStopLoss(pair: PairConfig, pricing: PairPricing, position: PairPosition) {
    && position.entryBasisPct.Some?
    && match position.direction
       case EnterLong => position.entryBasisPct.value - pricing.shortPct <= pair.stopLossPct
       case EnterShort => position.entryBasisPct.value + pricing.longPct <= pair.stopLossPct
       case _ => false
  }

  /** StopLossAwareSignalEngine.evaluate. */
  function EvaluateWithStopLoss(pair: PairConfig, pricing: PairPricing, position: PairPosition): Signal {
    if position.HasPosition() && HitStopLoss(pair, pricing, position) then Exit
    else EvaluateSignal(pair, pricing, position)
  }

  /** How many whole pairs the top of one book can fill: a floor division, 0 without an order size. */
  function BookPairCapacity(bookSize: real, scale: real, orderQty: int): int {
    if orderQty <= 0 then 0 else (bookSize * scale / orderQty as real).Floor
  }

  function ExitQuantityMultiplier(pair: PairConfig, market: PairMarket, position: PairPosition): int {
    var open := if position.quantity < 0 then -position.quantity else position.quantity;
    if open <= 0 then 0
    else match position.direction
      case EnterLong =>
        MaxInt(MinInt(open, MinInt(
          BookPairCapacity(market.spot.bidSize, BOARD_LOT_SHARES, pair.spotOrderQty),
          BookPairCapacity(market.future.askSize, 1.0, pair.futureOrderQty))), 0)
      case EnterShort =>
        MaxInt(MinInt(open, MinInt(
          BookPairCapacity(market.spot.askSize, BOARD_LOT_SHARES, pair.spotOrderQty),
          BookPairCapacity(market.future.bidSize, 1.0, pair.futureOrderQty))), 0)
      case _ => 0
  }

  /** Realized PnL of closing `pairs` pairs of the position at the given prices, fees and tax included. */
  function ExitPnl(pair: PairConfig, position: PairPosition, exitSpot: real, exitFuture: real, pairs: int): Option<real> {
    if position.entrySpotPrice.None? || position.entryFuturePrice.None? then None
    else
      var entrySpot, entryFuture := position.entrySpotPrice.value, position.entryFuturePrice.value;
      var spotQty := (pair.spotOrderQty * pairs) as real;
      var futureMultiplier := (pair.futurePnlMultiplier * pair.futureOrderQty * pairs) as real;
      var commission := pair.stockCommissionRate * pair.stockCommissionDiscount;
      var fees := entrySpot * spotQty * commission + exitSpot * spotQty * commission;
      match position.direction
      case EnterLong =>
        Some((exitSpot - entrySpot) * spotQty + (entryFuture - exitFuture) * futureMultiplier
             - fees - exitSpot * spotQty * pair.stockTransactionTaxRate)
      case EnterShort =>
        Some((entrySpot - exitSpot) * spotQty + (exitFuture - entryFuture) * futureMultiplier
             - fees - entrySpot * spotQty * pair.stockTransactionTaxRate)
      case _ => None
  }

  function EstimatedExitPnl(pair: PairConfig, market: PairMarket, position: PairPosition): Option<real> {
    var pairs := ExitQuantityMultiplier(pair, market, position);
    if pairs <= 0 then None
    else if position.direction == EnterLong then ExitPnl(pair, position, market.spot.bid, market.future.ask, pairs)
    else ExitPnl(pair, position, market.spot.ask, market.future.bid, pairs)
  }

  /** The raw numeric quote time in seconds; the magnitude decides the unit. */
  function EventTimeSeconds(timestamp: int): real {
    if timestamp > 10_000_000_000_000 then timestamp as real / 1_000_000_000.0
    else if timestamp > 10_000_000_000 then timestamp as real / 1_000.0
    else timestamp as real
  }

  datatype Reason =
    | HoldReason
    | NoPositionToExit
    | InsufficientExitSize
    | CannotEstimateExitPnl
    | ExitPnlBelowThreshold
    | ExitAllowed
    | PartialLegExposure
    | EntryIntervalNotElapsed
    | MaxPairsReached
    | InsufficientEntrySize
    | ShortSpotDisabled
    | EntryAllowed
    | SharedCooldown

  datatype RiskVerdict = RiskVerdict(allowed: bool, reason: Reason)

  function CheckExit(pair: PairConfig, market: PairMarket, position: PairPosition): RiskVerdict {
    if !position.HasPosition() then RiskVerdict(false, NoPositionToExit)
    else if ExitQuantityMultiplier(pair, market, position) <= 0 then RiskVerdict(false, InsufficientExitSize)
    else if pair.minExitRealizedPnl.Some? then
      var pnl := EstimatedExitPnl(pair, market, position);
      if pnl.None? then RiskVerdict(false, CannotEstimateExitPnl)
      else if pnl.value <= pair.minExitRealizedPnl.value then RiskVerdict(false, ExitPnlBelowThreshold)
      else RiskVerdict(true, ExitAllowed)
    else RiskVerdict(true, ExitAllowed)
  }

  predicate EntryIntervalBlocks(pair: PairConfig, market: PairMarket, position: PairPosition) {
    && pair.minEntryIntervalSec > 0.0
    && position.lastEntryTime.Some?
    && EventTimeSeconds(market.spot.timestamp) - position.lastEntryTime.value < pair.minEntryIntervalSec
  }

  /** RiskManager.check as the replay calls it: no portfolio totals and no trial-match mark. */
  function CheckRisk(
    pair: PairConfig, market: PairMarket, signal: Signal, position: PairPosition, enforcePairMax: bool): RiskVerdict
  {
    if signal == Hold then RiskVerdict(true, HoldReason)
    else if signal == Exit then CheckExit(pair, market, position)
    else if position.HasLegExposure() && !position.HasPosition() then RiskVerdict(false, PartialLegExposure)
    else if EntryIntervalBlocks(pair, market, position) then RiskVerdict(false, EntryIntervalNotElapsed)
    else if enforcePairMax && position.quantity >= pair.maxPairs then RiskVerdict(false, MaxPairsReached)
    else if signal == EnterLong
      && (market.spot.askSize < pair.stockMinAskSize || market.future.bidSize < pair.futureMinBidSize) then
      RiskVerdict(false, InsufficientEntrySize)
    else if signal == EnterShort && !pair.allowShortSpot then RiskVerdict(false, ShortSpotDisabled)
    else if signal == EnterShort
      && (market.spot.bidSize < pair.stockMinBidSize || market.future.askSize < pair.futureMinAskSize) then
      RiskVerdict(false, InsufficientEntrySize)
    else RiskVerdict(true, EntryAllowed)
  }

  datatype Decision = Decision(action: Signal, shouldExecute: bool, reason: Reason)

  /** FutureSpotPairStrategy.decide. */
  function Decide(
    pair: PairConfig, market: PairMarket, pricing: PairPricing, position: PairPosition, enforcePairMax: bool): (d: Decision)
    ensures d.action != Hold ==> LegSide(d.action, position, Stock).Some? && LegSide(d.action, position, Future).Some?
    ensures d.action == Exit ==> position.HasPosition()
    ensures d.action == EnterLong && position.HasPosition() ==> position.direction == EnterLong
    ensures d.action == EnterShort && position.HasPosition() ==> position.direction == EnterShort
    ensures d.shouldExecute && enforcePairMax && d.action in {EnterLong, EnterShort} ==> position.quantity < pair.maxPairs
  {
    var signal := EvaluateWithStopLoss(pair, pricing, position);
    if signal == Hold then Decision(Hold, false, HoldReason)
    else
      var verdict := CheckRisk(pair, market, signal, position, enforcePairMax);
      Decision(signal, verdict.allowed, verdict.reason)
  }
}
