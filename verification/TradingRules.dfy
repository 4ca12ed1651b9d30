/** The trading rules in terms of the market: what the percentages and ticks mean, when the strategy enters
    and exits, and what the risk check lets through. */
module TradingRules {
  import opened Wrappers
  import opened Models
  import opened Ticks
  import opened Strategy
  import opened Replay
  import opened OrderPrices

  // ---------------------------------------------------------------- what the percentages mean

  /** Entering at one market and leaving at another gains the entry basis at the entry and loses the
      exit basis at the exit; long pairs buy the spot at its ask. */
  lemma RoundTripGain(pair: PairConfig, a: PairMarket, b: PairMarket)
    requires ValidPair(pair)
    ensures
      var s, f := pair.spotSharesPerPair as real, pair.futureSharesPerPair as real;
      && f * a.future.bid - s * a.spot.ask + (s * b.spot.bid - f * b.future.ask)
         == PriceMarket(pair, a).longPct * (s * a.spot.ask) - PriceMarket(pair, b).shortPct * (s * b.spot.bid)
      && s * a.spot.bid - f * a.future.ask + (f * b.future.bid - s * b.spot.ask)
         == PriceMarket(pair, b).longPct * (s * b.spot.ask) - PriceMarket(pair, a).shortPct * (s * a.spot.bid)
  {
    LongPctGain(pair, a);
    LongPctGain(pair, b);
    hide PriceMarket;
  }

  lemma LongPctGain(pair: PairConfig, m: PairMarket)
    requires ValidPair(pair)
    ensures
      var s, f := pair.spotSharesPerPair as real, pair.futureSharesPerPair as real;
      && PriceMarket(pair, m).longPct * (s * m.spot.ask) == f * m.future.bid - s * m.spot.ask
      && PriceMarket(pair, m).shortPct * (s * m.spot.bid) == f * m.future.ask - s * m.spot.bid
  {
    hide PairLegTick;
    var buy, sell := Notional(m.spot.ask, pair.spotSharesPerPair), Notional(m.spot.bid, pair.spotSharesPerPair);
    Quotient(Notional(m.future.bid, pair.futureSharesPerPair) - buy, buy);
    Quotient(Notional(m.future.ask, pair.futureSharesPerPair) - sell, sell);
  }

  /** The middle basis is the gap between the middles. */
  lemma MidBasisIs(pair: PairConfig, m: PairMarket)
    requires ValidPair(pair)
    ensures PriceMarket(pair, m).midBasisPct * (m.spot.bid + m.spot.ask) == (m.future.bid + m.future.ask) - (m.spot.bid + m.spot.ask)
  {
    hide PairLegTick, Notional;
    MidQuotient(m.future.bid + m.future.ask, m.spot.bid + m.spot.ask);
  }

  lemma MidQuotient(f: real, s: real)
    requires s > 0.0
    ensures (f / 2.0 - s / 2.0) / (s / 2.0) * s == f - s
  {
    Quotient(f / 2.0 - s / 2.0, s / 2.0);
  }

  lemma Quotient(x: real, y: real)
    requires y > 0.0
    ensures x / y * y == x
  {
  }

  /** What entering one pair of shares gains at once, before costs: the sale less the purchase. */
  function EntryGain(pair: PairConfig, signal: Signal, m: PairMarket): real {
    var s, f := pair.spotSharesPerPair as real, pair.futureSharesPerPair as real;
    if signal == EnterLong then f * m.future.bid - s * m.spot.ask else s * m.spot.bid - f * m.future.ask
  }

  /** The spot notional that gain is measured against. */
  function EntryNotional(pair: PairConfig, signal: Signal, m: PairMarket): real {
    pair.spotSharesPerPair as real * if signal == EnterLong then m.spot.ask else m.spot.bid
  }

  /** The price difference per share left after costs, and the ticks it is counted in. */
  function NetSpread(signal: Signal, m: PairMarket): real {
    if signal == EnterLong then m.future.bid - m.spot.ask - 0.004 * m.spot.ask
    else m.spot.bid - m.future.ask - 0.004 * m.spot.bid
  }

  function EntryTicks(pair: PairConfig, signal: Signal, m: PairMarket): real
    requires ValidPair(pair)
  {
    if signal == EnterLong
    then PairLegTick(pair, Stock, m.spot.ask, m.spot.timestamp) + PairLegTick(pair, Future, m.future.bid, m.future.timestamp)
    else PairLegTick(pair, Stock, m.spot.bid, m.spot.timestamp) + PairLegTick(pair, Future, m.future.ask, m.future.timestamp)
  }

  /** The market pays for an entry: the threshold on its notional and the minimum of ticks. */
  predicate Pays(pair: PairConfig, signal: Signal, m: PairMarket)
    requires ValidPair(pair)
  {
    && EntryGain(pair, signal, m) >= pair.entryThresholdPct * EntryNotional(pair, signal, m)
    && NetSpread(signal, m) > pair.minEffectiveTickMultiple * EntryTicks(pair, signal, m)
  }

  lemma AtLeast(x: real, y: real, t: real)
    requires y > 0.0
    ensures x / y >= t <==> x >= t * y
    ensures x / y > t <==> x > t * y
    ensures x / y <= t <==> x <= t * y
    ensures x / y <= -t <==> -x >= t * y
  {
    Quotient(x, y);
    var q := x / y;
    if q > t { assert (q - t) * y > 0.0; }
    if q < t { assert (t - q) * y > 0.0; }
    if q > -t { assert (q + t) * y > 0.0; }
    if q < -t { assert (-t - q) * y > 0.0; }
  }

  lemma BasisAre(pair: PairConfig, m: PairMarket)
    requires ValidPair(pair)
    ensures EntryNotional(pair, EnterLong, m) > 0.0 && EntryNotional(pair, EnterShort, m) > 0.0
    ensures PriceMarket(pair, m).longPct == EntryGain(pair, EnterLong, m) / EntryNotional(pair, EnterLong, m)
    ensures PriceMarket(pair, m).shortPct == -EntryGain(pair, EnterShort, m) / EntryNotional(pair, EnterShort, m)
  {
    hide PairLegTick;
    var buy, sell := Notional(m.spot.ask, pair.spotSharesPerPair), Notional(m.spot.bid, pair.spotSharesPerPair);
    assert buy == EntryNotional(pair, EnterLong, m) && sell == EntryNotional(pair, EnterShort, m);
    assert Notional(m.future.bid, pair.futureSharesPerPair) - buy == EntryGain(pair, EnterLong, m);
    assert Notional(m.future.ask, pair.futureSharesPerPair) - sell == -EntryGain(pair, EnterShort, m);
    hide Notional, EntryGain, EntryNotional;
  }

  lemma BasisIff(pair: PairConfig, m: PairMarket, threshold: real)
    requires ValidPair(pair)
    ensures PriceMarket(pair, m).longPct >= threshold <==>
      EntryGain(pair, EnterLong, m) >= threshold * EntryNotional(pair, EnterLong, m)
    ensures PriceMarket(pair, m).shortPct <= -threshold <==>
      EntryGain(pair, EnterShort, m) >= threshold * EntryNotional(pair, EnterShort, m)
  {
    hide PriceMarket, EntryGain, EntryNotional;
    BasisAre(pair, m);
    AtLeast(EntryGain(pair, EnterLong, m), EntryNotional(pair, EnterLong, m), threshold);
    AtLeast(-EntryGain(pair, EnterShort, m), EntryNotional(pair, EnterShort, m), threshold);
  }

  lemma TicksAre(pair: PairConfig, m: PairMarket)
    requires ValidPair(pair)
    ensures EntryTicks(pair, EnterLong, m) > 0.0 && EntryTicks(pair, EnterShort, m) > 0.0
    ensures PriceMarket(pair, m).longTicks == NetSpread(EnterLong, m) / EntryTicks(pair, EnterLong, m)
    ensures PriceMarket(pair, m).shortTicks == NetSpread(EnterShort, m) / EntryTicks(pair, EnterShort, m)
  {
    hide PairLegTick, Notional;
    TickPositive(pair, Stock, m.spot.ask, m.spot.timestamp);
    TickPositive(pair, Stock, m.spot.bid, m.spot.timestamp);
    TickPositive(pair, Future, m.future.bid, m.future.timestamp);
    TickPositive(pair, Future, m.future.ask, m.future.timestamp);
  }

  lemma TicksIff(pair: PairConfig, m: PairMarket, minimum: real)
    requires ValidPair(pair)
    ensures PriceMarket(pair, m).longTicks > minimum <==> NetSpread(EnterLong, m) > minimum * EntryTicks(pair, EnterLong, m)
    ensures PriceMarket(pair, m).shortTicks > minimum <==> NetSpread(EnterShort, m) > minimum * EntryTicks(pair, EnterShort, m)
  {
    hide PriceMarket, NetSpread, EntryTicks;
    TicksAre(pair, m);
    AtLeast(NetSpread(EnterLong, m), EntryTicks(pair, EnterLong, m), minimum);
    AtLeast(NetSpread(EnterShort, m), EntryTicks(pair, EnterShort, m), minimum);
  }

  lemma EntryPaysIff(pair: PairConfig, m: PairMarket)
    requires ValidPair(pair)
    ensures LongEntry(pair, PriceMarket(pair, m)) <==> Pays(pair, EnterLong, m)
    ensures ShortEntry(pair, PriceMarket(pair, m)) <==> pair.allowShortSpot && Pays(pair, EnterShort, m)
  {
    hide PriceMarket, EntryGain, EntryNotional, NetSpread, EntryTicks;
    BasisIff(pair, m, pair.entryThresholdPct);
    TicksIff(pair, m, pair.minEffectiveTickMultiple);
  }

  /** Without a position, the strategy enters exactly where the market pays, long before short. */
  lemma EntersWhereItPays(pair: PairConfig, m: PairMarket, position: PairPosition)
    requires ValidPair(pair) && !position.HasPosition()
    ensures
      var signal := EvaluateWithStopLoss(pair, PriceMarket(pair, m), position);
      && (signal == EnterLong <==> Pays(pair, EnterLong, m))
      && (signal == EnterShort <==> !Pays(pair, EnterLong, m) && pair.allowShortSpot && Pays(pair, EnterShort, m))
      && signal != Exit
  {
    EntryPaysIff(pair, m);
    hide PriceMarket, LongEntry, ShortEntry, Pays;
  }

  /** The recheck before the second leg of an entry: the gain still covers its threshold. */
  lemma RecheckIff(pair: PairConfig, position: PairPosition, signal: Signal, m: PairMarket)
    requires ValidPair(pair) && (signal == EnterLong || signal == EnterShort)
    ensures
      var threshold := if pair.minSecondLegAdjustedBasisPct.Some? then pair.minSecondLegAdjustedBasisPct.value else pair.entryThresholdPct;
      SecondLegProfitOk(pair, position, signal, m) <==> EntryGain(pair, signal, m) >= threshold * EntryNotional(pair, signal, m)
  {
    hide PriceMarket, EntryGain, EntryNotional, ExitQuantityMultiplier;
    BasisIff(pair, m, if pair.minSecondLegAdjustedBasisPct.Some? then pair.minSecondLegAdjustedBasisPct.value else pair.entryThresholdPct);
  }

  // ---------------------------------------------------------------- sizes

  /** A book holds n orders of a leg exactly up to its capacity. */
  lemma CapacityIsLargest(bookSize: real, scale: real, orderQty: int, n: int)
    requires orderQty > 0
    ensures n <= BookPairCapacity(bookSize, scale, orderQty) <==> n as real * orderQty as real <= bookSize * scale
  {
    var q := orderQty as real;
    var y := bookSize * scale / q;
    Quotient(bookSize * scale, q);
    if n as real > y { assert (n as real - y) * q > 0.0; }
    if n as real <= y { assert (y - n as real) * q >= 0.0; }
  }

  /** The size of the best price an order trades with. */
  function TouchSize(quote: Quote, side: Side): real {
    match side
    case Buy => quote.askSize
    case Sell => quote.bidSize
  }

  /** The smallest such size the configuration accepts for an entry. */
  function MinimumSize(pair: PairConfig, leg: Leg, side: Side): real {
    match (leg, side)
    case (Stock, Buy) => pair.stockMinAskSize
    case (Stock, Sell) => pair.stockMinBidSize
    case (Future, Buy) => pair.futureMinAskSize
    case (Future, Sell) => pair.futureMinBidSize
  }

  /** One leg's order quantity and the shares or lots one unit of book size stands for. */
  function OrderUnits(pair: PairConfig, leg: Leg): int { if leg.Stock? then pair.spotOrderQty else pair.futureOrderQty }

  function SizeScale(leg: Leg): real { if leg.Stock? then 1000.0 else 1.0 }

  /** The side each leg of the signal trades on. */
  function Trades(signal: Signal, position: PairPosition, leg: Leg): Side {
    if leg.Stock? <==> BuysSpot(signal, position) then Buy else Sell
  }

  /** The touched size of a leg holds n of its orders. */
  predicate Fits(pair: PairConfig, market: PairMarket, signal: Signal, position: PairPosition, leg: Leg, n: int) {
    n as real * OrderUnits(pair, leg) as real
    <= TouchSize(market.QuoteOf(leg), Trades(signal, position, leg)) * SizeScale(leg)
  }

  /** An exit closes as many pairs as are open and as both legs' touched sizes hold. */
  lemma ExitQuantityIff(pair: PairConfig, market: PairMarket, position: PairPosition, n: int)
    requires n >= 1 && (position.direction == EnterLong || position.direction == EnterShort)
    requires pair.spotOrderQty > 0 && pair.futureOrderQty > 0
    ensures n <= ExitQuantityMultiplier(pair, market, position) <==>
      && (n <= position.quantity || n <= -position.quantity)
      && Fits(pair, market, Exit, position, Stock, n) && Fits(pair, market, Exit, position, Future, n)
  {
    var spot := TouchSize(market.spot, Trades(Exit, position, Stock));
    var future := TouchSize(market.future, Trades(Exit, position, Future));
    hide BookPairCapacity, ExitQuantityMultiplier, Trades, TouchSize;
    ExitQuantityIs(pair, market, position);
    CapacityIsLargest(spot, BOARD_LOT_SHARES, pair.spotOrderQty, n);
    CapacityIsLargest(future, 1.0, pair.futureOrderQty, n);
  }

  lemma ExitQuantityIs(pair: PairConfig, market: PairMarket, position: PairPosition)
    requires position.direction == EnterLong || position.direction == EnterShort
    ensures
      var held := if position.quantity < 0 then -position.quantity else position.quantity;
      var spot := BookPairCapacity(TouchSize(market.spot, Trades(Exit, position, Stock)), BOARD_LOT_SHARES, pair.spotOrderQty);
      var future := BookPairCapacity(TouchSize(market.future, Trades(Exit, position, Future)), 1.0, pair.futureOrderQty);
      ExitQuantityMultiplier(pair, market, position) == if held <= 0 then 0 else MaxInt(MinInt(held, MinInt(spot, future)), 0)
  {
    hide BookPairCapacity;
  }

  // ---------------------------------------------------------------- leaving a position

  /** Closing a position trades like entering the other way round. */
  function Reverse(direction: Signal): Signal { if direction == EnterLong then EnterShort else EnterLong }

  /** What closing one pair of shares costs now, and the spot notional it is measured against. */
  function ClosingCost(pair: PairConfig, direction: Signal, m: PairMarket): real { -EntryGain(pair, Reverse(direction), m) }

  function ClosingNotional(pair: PairConfig, direction: Signal, m: PairMarket): real { EntryNotional(pair, Reverse(direction), m) }

  /** The price difference per share to close across, before costs. */
  function ClosingSpread(direction: Signal, m: PairMarket): real {
    if direction == EnterLong then m.future.ask - m.spot.bid else m.spot.ask - m.future.bid
  }

  /** The entry basis less what closing costs has fallen to the stop. */
  predicate StopHit(pair: PairConfig, position: PairPosition, m: PairMarket) {
    && position.entryBasisPct.Some?
    && ClosingCost(pair, position.direction, m)
       >= (position.entryBasisPct.value - pair.stopLossPct) * ClosingNotional(pair, position.direction, m)
  }

  /** Closing is cheap: within the threshold of its notional, or by the configured multiple of ticks. */
  predicate CheapToClose(pair: PairConfig, direction: Signal, m: PairMarket)
    requires ValidPair(pair)
  {
    var ticks := EntryTicks(pair, Reverse(direction), m);
    || ClosingCost(pair, direction, m) <= pair.exitThresholdPct * ClosingNotional(pair, direction, m)
    || (if pair.exitTickRule.Gte? then ClosingSpread(direction, m) >= pair.exitTickMultiple * ticks
        else ClosingSpread(direction, m) <= pair.exitTickMultiple * ticks)
  }

  lemma ClosingBasisIff(pair: PairConfig, m: PairMarket, threshold: real)
    requires ValidPair(pair)
    ensures PriceMarket(pair, m).shortPct <= threshold <==>
      ClosingCost(pair, EnterLong, m) <= threshold * ClosingNotional(pair, EnterLong, m)
    ensures PriceMarket(pair, m).shortPct >= threshold <==>
      ClosingCost(pair, EnterLong, m) >= threshold * ClosingNotional(pair, EnterLong, m)
    ensures PriceMarket(pair, m).longPct >= -threshold <==>
      ClosingCost(pair, EnterShort, m) <= threshold * ClosingNotional(pair, EnterShort, m)
    ensures -PriceMarket(pair, m).longPct >= threshold <==>
      ClosingCost(pair, EnterShort, m) >= threshold * ClosingNotional(pair, EnterShort, m)
  {
    hide PriceMarket, EntryGain, EntryNotional;
    BasisAre(pair, m);
    AtLeast(-EntryGain(pair, EnterShort, m), EntryNotional(pair, EnterShort, m), threshold);
    AtLeast(EntryGain(pair, EnterLong, m), EntryNotional(pair, EnterLong, m), -threshold);
    Negated(EntryGain(pair, EnterLong, m), EntryNotional(pair, EnterLong, m), threshold);
  }

  lemma Negated(x: real, y: real, t: real)
    requires y > 0.0
    ensures x / y >= -t <==> -x <= t * y
    ensures -(x / y) >= t <==> -x >= t * y
  {
    Quotient(x, y);
    var q := x / y;
    if q > -t { assert (q + t) * y > 0.0; }
    if q < -t { assert (-t - q) * y > 0.0; }
  }

  lemma ClosingTicksAre(pair: PairConfig, m: PairMarket)
    requires ValidPair(pair)
    ensures EntryTicks(pair, EnterLong, m) > 0.0 && EntryTicks(pair, EnterShort, m) > 0.0
    ensures PriceMarket(pair, m).longExitTicks == ClosingSpread(EnterLong, m) / EntryTicks(pair, EnterShort, m)
    ensures PriceMarket(pair, m).shortExitTicks == ClosingSpread(EnterShort, m) / EntryTicks(pair, EnterLong, m)
  {
    hide PairLegTick, Notional;
    TickPositive(pair, Stock, m.spot.ask, m.spot.timestamp);
    TickPositive(pair, Stock, m.spot.bid, m.spot.timestamp);
    TickPositive(pair, Future, m.future.bid, m.future.timestamp);
    TickPositive(pair, Future, m.future.ask, m.future.timestamp);
  }

  lemma CheapIff(pair: PairConfig, m: PairMarket, position: PairPosition)
    requires ValidPair(pair) && (position.direction == EnterLong || position.direction == EnterShort)
    ensures ShouldExit(position, pair, PriceMarket(pair, m)) <==> CheapToClose(pair, position.direction, m)
  {
    hide PriceMarket, ClosingSpread, EntryTicks, ClosingCost, ClosingNotional;
    ClosingBasisIff(pair, m, pair.exitThresholdPct);
    ClosingTicksAre(pair, m);
    AtLeast(ClosingSpread(EnterLong, m), EntryTicks(pair, EnterShort, m), pair.exitTickMultiple);
    AtLeast(ClosingSpread(EnterShort, m), EntryTicks(pair, EnterLong, m), pair.exitTickMultiple);
  }

  lemma StopIff(pair: PairConfig, m: PairMarket, position: PairPosition)
    requires ValidPair(pair) && (position.direction == EnterLong || position.direction == EnterShort)
    ensures HitStopLoss(pair, PriceMarket(pair, m), position) <==> StopHit(pair, position, m)
  {
    hide PriceMarket, ClosingCost, ClosingNotional;
    if position.entryBasisPct.Some? {
      ClosingBasisIff(pair, m, position.entryBasisPct.value - pair.stopLossPct);
    }
  }

  /** Holding a position, the strategy leaves exactly at its stop or where closing is cheap, adds to it
      where the market pays for its direction, and never turns around. */
  lemma LeavesWhereCheapOrStopped(pair: PairConfig, m: PairMarket, position: PairPosition)
    requires ValidPair(pair) && position.HasPosition()
    requires position.direction == EnterLong || position.direction == EnterShort
    ensures
      var signal := EvaluateWithStopLoss(pair, PriceMarket(pair, m), position);
      var leaves := StopHit(pair, position, m) || CheapToClose(pair, position.direction, m);
      var adds := Pays(pair, position.direction, m) && (position.direction == EnterShort ==> pair.allowShortSpot);
      signal == if leaves then Exit else if adds then position.direction else Hold
  {
    hide PriceMarket, LongEntry, ShortEntry, Pays, HitStopLoss, StopHit, ShouldExit, CheapToClose;
    EntryPaysIff(pair, m);
    CheapIff(pair, m, position);
    StopIff(pair, m, position);
  }

  // ---------------------------------------------------------------- what the risk check lets through

  /** Time since the last entry is long enough. */
  predicate Waited(pair: PairConfig, market: PairMarket, position: PairPosition) {
    pair.minEntryIntervalSec > 0.0 && position.lastEntryTime.Some? ==>
      EventTimeSeconds(market.spot.timestamp) >= position.lastEntryTime.value + pair.minEntryIntervalSec
  }

  /** Each leg of an entry finds the configured minimum size on the side it trades with. */
  predicate FindsSize(pair: PairConfig, market: PairMarket, signal: Signal, position: PairPosition, leg: Leg) {
    TouchSize(market.QuoteOf(leg), Trades(signal, position, leg)) >= MinimumSize(pair, leg, Trades(signal, position, leg))
  }

  /** An entry is executed exactly when no unmatched leg is open, it has waited, the limit leaves room, and
      both legs find their size; on short spot with the permission only. */
  lemma EntryExecutedIff(pair: PairConfig, market: PairMarket, pricing: PairPricing, position: PairPosition, limits: bool)
    requires
      var d := Decide(pair, market, pricing, position, limits);
      d.action == EnterLong || d.action == EnterShort
    ensures
      var d := Decide(pair, market, pricing, position, limits);
      d.shouldExecute <==>
        && (position.HasPosition() || (position.stockUnits == 0 && position.futureUnits == 0))
        && Waited(pair, market, position)
        && (limits ==> position.quantity < pair.maxPairs)
        && FindsSize(pair, market, d.action, position, Stock) && FindsSize(pair, market, d.action, position, Future)
        && (d.action == EnterShort ==> pair.allowShortSpot)
  {
    hide EvaluateWithStopLoss, EventTimeSeconds;
  }

  /** An exit is executed exactly when a pair can be closed and its estimate beats the configured profit. */
  lemma ExitExecutedIff(pair: PairConfig, market: PairMarket, pricing: PairPricing, position: PairPosition, limits: bool)
    requires Decide(pair, market, pricing, position, limits).action == Exit
    ensures Decide(pair, market, pricing, position, limits).shouldExecute <==>
      && ExitQuantityMultiplier(pair, market, position) >= 1
      && (pair.minExitRealizedPnl.Some? ==>
            && EstimatedExitPnl(pair, market, position).Some?
            && EstimatedExitPnl(pair, market, position).value > pair.minExitRealizedPnl.value)
  {
    hide EvaluateWithStopLoss, EstimatedExitPnl, ExitQuantityMultiplier, PriceMarket;
    ExitHasPosition(pair, pricing, position);
  }

  lemma ExitHasPosition(pair: PairConfig, pricing: PairPricing, position: PairPosition)
    ensures EvaluateWithStopLoss(pair, pricing, position) == Exit ==> position.HasPosition()
  {
  }

  // ---------------------------------------------------------------- constants that mean something

  /** Seconds, milliseconds and nanoseconds of one instant are read as the same time. */
  lemma SameInstant(seconds: int)
    requires 10_000_000 < seconds <= 10_000_000_000
    ensures EventTimeSeconds(seconds) == seconds as real
    ensures EventTimeSeconds(seconds * 1_000) == seconds as real
    ensures EventTimeSeconds(seconds * 1_000_000_000) == seconds as real
  {
  }

  /** A tick is one cent below ten, and from there between a thousandth and a two-hundredth of the price;
      the new futures schedule keeps it between a 2500th and a 500th. */
  lemma TickIsRelative(price: real)
    requires price >= 0.0
    ensures price < 10.0 ==> 100.0 * StockTick(price) == 1.0
    ensures price >= 10.0 ==> 200.0 * StockTick(price) <= price
    ensures 10.0 <= price < 5000.0 ==> 1000.0 * StockTick(price) >= price
    ensures price < 500.0 ==> FutureTick(price, true) == FutureTick(price, false) == StockTick(price)
    ensures price >= 500.0 ==> 500.0 * FutureTick(price, true) <= price && 200.0 * FutureTick(price, false) <= price
    ensures 500.0 <= price < 12500.0 ==> 2500.0 * FutureTick(price, true) >= price
    ensures 500.0 <= price < 5000.0 ==> 1000.0 * FutureTick(price, false) >= price
  {
  }
}
