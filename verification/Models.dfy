/** The pair configuration, quotes and position of one futures/spot pair. */
module Models {
  import opened Wrappers

  /** Depth reports strictly positive prices; the tick tables reject anything below zero. */
  type Price = r: real | r > 0.0 witness 1.0

  datatype Signal = Hold | EnterLong | EnterShort | Exit

  datatype Leg = Stock | Future {
    function Other(): Leg { if Stock? then Future else Stock }
  }

  datatype Side = Buy | Sell {
    function Opposite(): Side { if Buy? then Sell else Buy }

    /** +1 for a purchase, -1 for a sale. */
    function Sign(): int { if Buy? then 1 else -1 }
  }

  datatype ExitTickRule = Lte | Gte

  datatype TimeInForce = Rod | Ioc | Fok

  datatype InitialPosition = InitialPosition(
    quantity: int,
    direction: Signal,
    entryBasisPct: Option<real>,
    entrySpotPrice: Option<real>,
    entryFuturePrice: Option<real>)

  datatype PairConfig = PairConfig(
    name: string,
    spotSymbol: string,
    futureSymbol: string,
    spotSharesPerPair: int,
    futureSharesPerPair: int,
    spotOrderQty: int,
    futureOrderQty: int,
    futurePnlMultiplier: int,
    entryThresholdPct: real,
    exitThresholdPct: real,
    stopLossPct: real,
    exitTickMultiple: real,
    exitTickRule: ExitTickRule,
    minExitRealizedPnl: Option<real>,
    minEffectiveTickMultiple: real,
    minEntryIntervalSec: real,
    spotTickSize: Option<real>,
    futureTickSize: Option<real>,
    stockCommissionRate: real,
    stockCommissionDiscount: real,
    stockTransactionTaxRate: real,
    maxPairs: int,
    allowShortSpot: bool,
    stockMinBidSize: real,
    stockMinAskSize: real,
    futureMinBidSize: real,
    futureMinAskSize: real,
    firstLegTif: TimeInForce,
    secondLegTickOffset: real,
    secondLegTif: TimeInForce,
    minSecondLegAdjustedBasisPct: Option<real>,
    flattenFirstLegTickOffset: real,
    flattenFirstLegTif: TimeInForce,
    initialPosition: InitialPosition)

  /** The contract pair a position belongs to. */
  datatype PositionKey = PositionKey(spot: string, future: string)

  function KeyOf(pair: PairConfig): PositionKey { PositionKey(pair.spotSymbol, pair.futureSymbol) }

  /** What the configuration parser guarantees about tick sizes, and what pricing divides by. */
  predicate ValidPair(pair: PairConfig) {
    && pair.spotSharesPerPair > 0
    && pair.futureSharesPerPair > 0
    && (pair.spotTickSize.Some? ==> pair.spotTickSize.value > 0.0)
    && (pair.futureTickSize.Some? ==> pair.futureTickSize.value > 0.0)
  }

  /** `bbo` is the exchange and local time of the book update behind the quote, when known. */
  datatype Quote = Quote(
    bid: Price, ask: Price, bidSize: real, askSize: real, timestamp: int, bbo: Option<(int, int)>)
  {
    function Mid(): real { (bid + ask) / 2.0 }
  }

  datatype PairMarket = PairMarket(spot: Quote, future: Quote) {
    function QuoteOf(leg: Leg): Quote { if leg.Stock? then spot else future }
  }

  datatype PairPosition = PairPosition(
    quantity: int,
    direction: Signal,
    entryBasisPct: Option<real>,
    entrySpotPrice: Option<real>,
    entryFuturePrice: Option<real>,
    stockUnits: int,
    futureUnits: int,
    lastEntryTime: Option<real>)
  {
    predicate HasPosition() { quantity != 0 }

    predicate HasLegExposure() { stockUnits != 0 || futureUnits != 0 }
  }

  const FLAT := PairPosition(0, Hold, None, None, None, 0, 0, None)

  /** Signed pair units of a direction: +1 long spot and short future, -1 the reverse. */
  function DirectionSign(direction: Signal): int {
    match direction
    case EnterLong => 1
    case EnterShort => -1
    case _ => 0
  }

  /** A matched position: both legs carry the same signed quantity and HOLD means flat. */
  predicate ValidPosition(position: PairPosition) {
    && position.quantity >= 0
    && position.direction != Exit
    && (position.direction == Hold <==> position.quantity == 0)
    && position.stockUnits == DirectionSign(position.direction) * position.quantity
    && position.futureUnits == position.stockUnits
  }

  function BuildInitialPosition(pair: PairConfig): PairPosition {
    var initial := pair.initialPosition;
    var units := DirectionSign(initial.direction) * initial.quantity;
    PairPosition(
      initial.quantity, initial.direction, initial.entryBasisPct,
      initial.entrySpotPrice, initial.entryFuturePrice, units, units, None)
  }

  /** The side of one leg; None where the signal has no side. */
  function LegSide(signal: Signal, position: PairPosition, leg: Leg): Option<Side> {
    if signal == EnterLong || (signal == Exit && position.direction == EnterShort) then
      Some(if leg.Stock? then Buy else Sell)
    else if signal == EnterShort || (signal == Exit && position.direction == EnterLong) then
      Some(if leg.Stock? then Sell else Buy)
    else
      None
  }

  function WeightedAverage(oldValue: Option<real>, oldWeight: int, newValue: real, newWeight: int): real
    requires newWeight > 0
  {
    if oldValue.None? || oldWeight <= 0 then newValue
    else (oldValue.value * oldWeight as real + newValue * newWeight as real) / (oldWeight + newWeight) as real
  }

  /** Folding one more unit into the average adds exactly its value to the weighted total. */
  lemma WeightedAverageTotal(oldValue: Option<real>, oldWeight: int, newValue: real)
    requires oldWeight >= 0 && (oldValue.None? ==> oldWeight == 0)
    ensures WeightedAverage(oldValue, oldWeight, newValue, 1) * (oldWeight + 1) as real
         == newValue + (if oldWeight == 0 then 0.0 else oldValue.value * oldWeight as real)
  {
  }
}
