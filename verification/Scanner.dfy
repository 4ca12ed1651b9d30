/** The compiled signal functions: integer signal codes and a missing entry basis instead of NaN. */
module Scanner {
  import opened Wrappers
  import opened Models
  import opened Ticks
  import opened Strategy

  const SIGNAL_HOLD := 0
  const SIGNAL_LONG := 1
  const SIGNAL_SHORT := 2
  const SIGNAL_EXIT := 3

  function SignalCode(signal: Signal): int {
    match signal
    case Hold => SIGNAL_HOLD
    case EnterLong => SIGNAL_LONG
    case EnterShort => SIGNAL_SHORT
    case Exit => SIGNAL_EXIT
  }

  function SignalFromCode(code: int): Option<Signal> {
    if code == SIGNAL_HOLD then Some(Hold)
    else if code == SIGNAL_LONG then Some(EnterLong)
    else if code == SIGNAL_SHORT then Some(EnterShort)
    else if code == SIGNAL_EXIT then Some(Exit)
    else None
  }

  /** The scalar arguments the replay hands to the scanner. */
  datatype ScanParameters = ScanParameters(
    spotShares: int,
    futureShares: int,
    spotTick: real,
    futureTick: real,
    entryThresholdPct: real,
    exitThresholdPct: real,
    stopLossPct: real,
    exitTickMultiple: real,
    exitTickRuleGte: bool,
    minEffectiveTickMultiple: real,
    allowShortSpot: bool,
    positionQuantity: int,
    positionDirection: int,
    entryBasisPct: Option<real>)

  function ParametersOf(pair: PairConfig, position: PairPosition): ScanParameters {
    ScanParameters(
      pair.spotSharesPerPair, pair.futureSharesPerPair,
      ConfiguredTick(pair, Stock), ConfiguredTick(pair, Future),
      pair.entryThresholdPct, pair.exitThresholdPct, pair.stopLossPct,
      pair.exitTickMultiple, pair.exitTickRule.Gte?, pair.minEffectiveTickMultiple, pair.allowShortSpot,
      position.quantity, SignalCode(position.direction), position.entryBasisPct)
  }

  /** pricing_values_from_bbo. */
  function PricingFromBbo(
    q: ScanParameters, spotBid: Price, spotAsk: Price, futureBid: Price, futureAsk: Price, timestamp: int): PairPricing
    requires q.spotShares > 0 && q.futureShares > 0
  {
    var longSpotTick := ScannerLegTick(q.spotTick, Stock, spotAsk, timestamp);
    var shortSpotTick := ScannerLegTick(q.spotTick, Stock, spotBid, timestamp);
    var longFutureTick := ScannerLegTick(q.futureTick, Future, futureBid, timestamp);
    var shortFutureTick := ScannerLegTick(q.futureTick, Future, futureAsk, timestamp);
    var spotBuy := Notional(spotAsk, q.spotShares);
    var spotSell := Notional(spotBid, q.spotShares);
    var spotMid := (spotBid + spotAsk) / 2.0;
    PairPricing(
      (Notional(futureBid, q.futureShares) - spotBuy) / spotBuy,
      (Notional(futureAsk, q.futureShares) - spotSell) / spotSell,
      ((futureBid + futureAsk) / 2.0 - spotMid) / spotMid,
      ((futureBid - spotAsk) - spotAsk * EFFECTIVE_TICK_COST_RATE) / (longSpotTick + longFutureTick),
      ((spotBid - futureAsk) - spotBid * EFFECTIVE_TICK_COST_RATE) / (shortSpotTick + shortFutureTick),
      (futureAsk - spotBid) / (shortSpotTick + shortFutureTick),
      (spotAsk - futureBid) / (longSpotTick + longFutureTick))
  }

  /** signal_from_pricing_values. */
  function SignalFromPricing(q: ScanParameters, v: PairPricing): int {
    var hasPosition := q.positionQuantity != 0;
    if hasPosition && q.entryBasisPct.Some? && q.positionDirection == SIGNAL_LONG
      && q.entryBasisPct.value - v.shortPct <= q.stopLossPct then SIGNAL_EXIT
    else if hasPosition && q.entryBasisPct.Some? && q.positionDirection == SIGNAL_SHORT
      && q.entryBasisPct.value + v.longPct <= q.stopLossPct then SIGNAL_EXIT
    else if hasPosition && q.positionDirection == SIGNAL_LONG then
      var tickExit := if q.exitTickRuleGte then v.longExitTicks >= q.exitTickMultiple else v.longExitTicks <= q.exitTickMultiple;
      if tickExit || v.shortPct <= q.exitThresholdPct then SIGNAL_EXIT
      else if v.longPct >= q.entryThresholdPct && v.longTicks > q.minEffectiveTickMultiple then SIGNAL_LONG
      else SIGNAL_HOLD
    else if hasPosition && q.positionDirection == SIGNAL_SHORT then
      var tickExit := if q.exitTickRuleGte then v.shortExitTicks >= q.exitTickMultiple else v.shortExitTicks <= q.exitTickMultiple;
      if tickExit || v.longPct >= -q.exitThresholdPct then SIGNAL_EXIT
      else if q.allowShortSpot && v.shortPct <= -q.entryThresholdPct && v.shortTicks > q.minEffectiveTickMultiple then SIGNAL_SHORT
      else SIGNAL_HOLD
    else if hasPosition then SIGNAL_HOLD
    else if v.longPct >= q.entryThresholdPct && v.longTicks > q.minEffectiveTickMultiple then SIGNAL_LONG
    else if q.allowShortSpot && v.shortPct <= -q.entryThresholdPct && v.shortTicks > q.minEffectiveTickMultiple then SIGNAL_SHORT
    else SIGNAL_HOLD
  }

  /** Same BBO, same clock: the compiled pricing is the pricer's, value by value. */
  lemma PricingAgrees(pair: PairConfig, position: PairPosition, market: PairMarket)
    requires ValidPair(pair)
    requires market.spot.timestamp == market.future.timestamp
    requires !AmbiguousClock(market.spot.timestamp)
    ensures PricingFromBbo(ParametersOf(pair, position), market.spot.bid, market.spot.ask,
                           market.future.bid, market.future.ask, market.spot.timestamp)
         == PriceMarket(pair, market)
  {
  }

  /** The compiled signal is the code of the stop-loss-aware engine's signal, for every position. */
  lemma SignalAgrees(pair: PairConfig, position: PairPosition, pricing: PairPricing)
    ensures SignalFromPricing(ParametersOf(pair, position), pricing)
         == SignalCode(EvaluateWithStopLoss(pair, pricing, position))
  {
  }
}
