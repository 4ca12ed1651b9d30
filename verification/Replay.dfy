/** The event replay of one pair as functions over any execution engine: one strategy visit, the
    two-leg execution it may start, and the plain step-by-step loop. */
module Replay {
  import opened Wrappers
  import opened Models
  import opened Strategy
  import opened Ticks

  /** A book with both best prices finite. */
  datatype Depth = Depth(bid: Price, ask: Price, bidSize: real, askSize: real)

  datatype OrderRequest = OrderRequest(
    leg: Leg, orderId: int, side: Side, price: real, quantity: real, timeInForce: TimeInForce)

  datatype OrderView = OrderView(active: bool, execPrice: real, execQty: real, localTimestamp: int, exchTimestamp: int)

  /** An execution engine, given by what each port operation returns and does to the engine state.
      `remaining` bounds the market data left; `netFilled` is the exchange's own ledger of pair
      units bought minus sold per leg. The strategy reads neither. */
  datatype Port<!E> = Port(
    now: E -> int,
    depth: (E, Leg) -> Option<Depth>,
    feedLatency: (E, Leg) -> Option<(int, int)>,
    advance: (E, int) -> (bool, E),
    advanceToNextFeed: E -> (bool, E),
    submitLimit: (E, OrderRequest) -> (int, E),
    waitOrderResponse: (E, Leg, int, int) -> (int, E),
    order: (E, Leg, int) -> Option<OrderView>,
    cancelActiveOrder: (E, Leg, int, int) -> E,
    clearInactiveOrders: (E, Leg) -> E,
    remaining: E -> nat,
    netFilled: (E, Leg) -> int)

  /** Market data is finite: advancing consumes it and no other operation gives any back. */
  ghost predicate Finite<E(!new)>(p: Port<E>) {
    && (forall e, d :: d > 0 && p.advance(e, d).0 ==> p.remaining(p.advance(e, d).1) < p.remaining(e))
    && (forall e, d :: p.remaining(p.advance(e, d).1) <= p.remaining(e))
    && (forall e :: p.advanceToNextFeed(e).0 ==> p.remaining(p.advanceToNextFeed(e).1) < p.remaining(e))
    && (forall e :: p.remaining(p.advanceToNextFeed(e).1) <= p.remaining(e))
    && (forall e, r :: p.remaining(p.submitLimit(e, r).1) <= p.remaining(e))
    && (forall e, l, i, t :: p.remaining(p.waitOrderResponse(e, l, i, t).1) <= p.remaining(e))
    && (forall e, l, i, t :: p.remaining(p.cancelActiveOrder(e, l, i, t)) <= p.remaining(e))
    && (forall e, l :: p.remaining(p.clearInactiveOrders(e, l)) <= p.remaining(e))
  }

  /** Which refreshed feeds the second leg waits for. */
  datatype FeedWait = NoWait | SpotFeed | FutureFeed | AnyFeed | BothFeeds

  datatype HbtConfig = HbtConfig(
    pair: PairConfig,
    firstLeg: Leg,
    eventClock: bool,
    stepNs: int,
    responseTimeoutNs: int,
    secondLegDelayNs: int,
    postFirstFeedWait: FeedWait,
    postFirstFeedTimeoutNs: int,
    postFirstFeedPollNs: int,
    maxSteps: Option<int>,
    maxTrades: Option<int>,
    enforceRiskLimits: bool,
    flattenOnSecondLegFailure: bool,
    secondLegProfitCheck: bool,
    recordMarketEverySteps: Option<int>)

  predicate ValidConfig(c: HbtConfig) { ValidPair(c.pair) && c.stepNs > 0 }

  datatype LegFill = LegFill(
    leg: Leg,
    side: Side,
    orderId: int,
    requestedPrice: real,
    requestedQty: real,
    response: int,
    filled: bool,
    execPrice: Option<real>,
    execQty: real,
    localTimestamp: Option<int>,
    exchTimestamp: Option<int>)

  datatype Status =
    | RiskSkip
    | FirstLegUnfilled
    | SecondLegDelayEndOfData
    | PostFirstFeedTimeout
    | SecondLegProfitCheckFailed
    | SecondLegUnfilled
    | Filled

  /** One execution row. `timestamp` is also the completion time, read when the row is appended. */
  datatype TradeRow = TradeRow(
    timestamp: int,
    step: nat,
    signal: Signal,
    status: Status,
    market: PairMarket,
    quantity: int,
    direction: Signal,
    reason: Option<Reason>,
    signalTimestamp: Option<int>,
    first: Option<LegFill>,
    second: Option<LegFill>,
    flatten: Option<LegFill>,
    realizedPnl: Option<real>)

  datatype MarketRow = MarketRow(
    timestamp: int, step: nat, market: PairMarket, signal: Signal, quantity: int, direction: Signal)

  /** Everything a backtester carries between visits, the engine included. */
  datatype Run<!E> = Run(
    hbt: E,
    step: nat,
    position: PairPosition,
    orderId: int,
    rows: seq<TradeRow>,
    marketRows: seq<MarketRow>,
    last: Option<PairMarket>)

  function Start<E>(c: HbtConfig, hbt: E): Run<E> {
    Run(hbt, 0, BuildInitialPosition(c.pair), 1_000_000, [], [], None)
  }

  // ---------------------------------------------------------------- market and orders

  /** quote_from_depth: no quote from a one-sided or crossed book. */
  function QuoteFromDepth(depth: Option<Depth>, timestamp: int, bbo: Option<(int, int)>): Option<Quote> {
    if depth.None? || depth.value.bid >= depth.value.ask then None
    else Some(Quote(depth.value.bid, depth.value.ask, depth.value.bidSize, depth.value.askSize, timestamp, bbo))
  }

  function CurrentMarket<E>(p: Port<E>, e: E): (m: Option<PairMarket>)
    ensures m.Some? ==> m.value.spot.timestamp == m.value.future.timestamp == p.now(e)
  {
    var spot := QuoteFromDepth(p.depth(e, Stock), p.now(e), p.feedLatency(e, Stock));
    var future := QuoteFromDepth(p.depth(e, Future), p.now(e), p.feedLatency(e, Future));
    if spot.None? || future.None? then None else Some(PairMarket(spot.value, future.value))
  }

  function OrderQty(pair: PairConfig, leg: Leg): real {
    if leg.Stock? then pair.spotOrderQty as real / BOARD_LOT_SHARES else pair.futureOrderQty as real
  }

  /** Round to the nearest integer, ties to the even one. */
  function RoundHalfEven(x: real): int {
    var low := x.Floor;
    var rest := x - low as real;
    if rest < 0.5 || (rest == 0.5 && low % 2 == 0) then low else low + 1
  }

  function RoundToTick(price: real, tick: real): real
    requires tick > 0.0
  {
    RoundHalfEven(price / tick) as real * tick
  }

  function OffsetPrice(pair: PairConfig, leg: Leg, side: Side, quote: Quote, basePrice: Price, ticks: real): real
    requires ValidPair(pair)
  {
    var tick := PairLegTick(pair, leg, basePrice, quote.timestamp);
    var offset := tick * ticks;
    RoundToTick(if side.Buy? then basePrice + offset else MaxReal(basePrice - offset, tick), tick)
  }

  function TouchPrice(market: PairMarket, leg: Leg, side: Side): Price {
    if side.Buy? then market.QuoteOf(leg).ask else market.QuoteOf(leg).bid
  }

  /** One immediate order: submit, wait, read it back, cancel a remainder that still rests, clear. */
  function SubmitRawLeg<E>(p: Port<E>, c: HbtConfig, e: E, request: OrderRequest): (LegFill, E) {
    var (code, e1) := p.submitLimit(e, request);
    var (response, e2) := p.waitOrderResponse(e1, request.leg, request.orderId, c.responseTimeoutNs);
    var order := p.order(e2, request.leg, request.orderId);
    var filled := order.Some? && order.value.execQty > 0.0;
    var fill := LegFill(
      request.leg, request.side, request.orderId, request.price, request.quantity,
      if code == 0 then response else code,
      filled,
      if order.Some? && order.value.execPrice > 0.0 then Some(order.value.execPrice) else None,
      if order.Some? then order.value.execQty else 0.0,
      if order.Some? then Some(order.value.localTimestamp) else None,
      if order.Some? then Some(order.value.exchTimestamp) else None);
    var e3 :=
      if !filled && order.Some? && order.value.active
      then p.cancelActiveOrder(e2, request.leg, request.orderId, c.responseTimeoutNs)
      else e2;
    (fill, p.clearInactiveOrders(e3, request.leg))
  }

  function LegRequest(
    c: HbtConfig, position: PairPosition, orderId: int, signal: Signal, leg: Leg, market: PairMarket, second: bool): OrderRequest
    requires ValidPair(c.pair)
    requires LegSide(signal, position, leg).Some?
  {
    var side := LegSide(signal, position, leg).value;
    var touch := TouchPrice(market, leg, side);
    var price :=
      if second && c.pair.secondLegTickOffset > 0.0
      then OffsetPrice(c.pair, leg, side, market.QuoteOf(leg), touch, c.pair.secondLegTickOffset)
      else touch;
    OrderRequest(leg, orderId, side, price, OrderQty(c.pair, leg),
                 if leg == c.firstLeg then c.pair.firstLegTif else c.pair.secondLegTif)
  }

  function FlattenRequest(
    c: HbtConfig, position: PairPosition, orderId: int, signal: Signal, market: PairMarket): OrderRequest
    requires ValidPair(c.pair)
    requires LegSide(signal, position, c.firstLeg).Some?
  {
    var leg := c.firstLeg;
    var side := LegSide(signal, position, leg).value.Opposite();
    OrderRequest(leg, orderId, side,
                 OffsetPrice(c.pair, leg, side, market.QuoteOf(leg), TouchPrice(market, leg, side), c.pair.flattenFirstLegTickOffset),
                 OrderQty(c.pair, leg), c.pair.flattenFirstLegTif)
  }

  // ---------------------------------------------------------------- waiting for fresh feeds

  predicate FeedRefreshed(before: Option<(int, int)>, after: Option<(int, int)>) {
    after.Some? && (before.None? || after.value.1 > before.value.1)
  }

  predicate FeedReady<E>(p: Port<E>, mode: FeedWait, spot: Option<(int, int)>, future: Option<(int, int)>, e: E) {
    var spotReady := FeedRefreshed(spot, p.feedLatency(e, Stock));
    var futureReady := FeedRefreshed(future, p.feedLatency(e, Future));
    match mode
    case NoWait => true
    case SpotFeed => spotReady
    case FutureFeed => futureReady
    case AnyFeed => spotReady || futureReady
    case BothFeeds => spotReady && futureReady
  }

  function PollFeeds<E(!new)>(
    p: Port<E>, c: HbtConfig, spot: Option<(int, int)>, future: Option<(int, int)>, deadline: int, e: E): (r: (bool, E))
    requires Finite(p)
    ensures p.remaining(r.1) <= p.remaining(e)
    decreases p.remaining(e)
  {
    if p.now(e) >= deadline then (FeedReady(p, c.postFirstFeedWait, spot, future, e), e)
    else
      var (ok, e') := p.advance(e, MinInt(MaxInt(1, c.postFirstFeedPollNs), deadline - p.now(e)));
      if !ok then (false, e')
      else if FeedReady(p, c.postFirstFeedWait, spot, future, e') then (true, e')
      else PollFeeds(p, c, spot, future, deadline, e')
  }

  function WaitPostFirstFeed<E(!new)>(p: Port<E>, c: HbtConfig, e: E): (r: (bool, E))
    requires Finite(p)
    ensures p.remaining(r.1) <= p.remaining(e)
  {
    var spot, future := p.feedLatency(e, Stock), p.feedLatency(e, Future);
    if c.postFirstFeedWait.NoWait? || FeedReady(p, c.postFirstFeedWait, spot, future, e) then (true, e)
    else PollFeeds(p, c, spot, future, p.now(e) + MaxInt(0, c.postFirstFeedTimeoutNs), e)
  }

  // ---------------------------------------------------------------- position updates

  function ReducePosition(position: PairPosition): PairPosition {
    var stock :=
      match position.direction
      case EnterLong => MaxInt(position.stockUnits - 1, 0)
      case EnterShort => MinInt(position.stockUnits + 1, 0)
      case _ => position.stockUnits;
    var future :=
      match position.direction
      case EnterLong => MaxInt(position.futureUnits - 1, 0)
      case EnterShort => MinInt(position.futureUnits + 1, 0)
      case _ => position.futureUnits;
    var magnitude := if position.quantity < 0 then -position.quantity else position.quantity;
    var quantity := MaxInt(magnitude - 1, 0);
    if quantity <= 0 then
      PairPosition(0, Hold, None, None, None, 0, 0, position.lastEntryTime)
    else
      position.(quantity := quantity, stockUnits := stock, futureUnits := future)
  }

  function AddToPosition(
    position: PairPosition, signal: Signal, pricing: PairPricing, spotPrice: real, futurePrice: real,
    firstLocalTimestamp: Option<int>): PairPosition
  {
    var held := if position.quantity < 0 then -position.quantity else position.quantity;
    var basis := if signal == EnterLong then pricing.longPct else -pricing.shortPct;
    var units := DirectionSign(signal);
    PairPosition(
      held + 1,
      signal,
      Some(WeightedAverage(position.entryBasisPct, held, basis, 1)),
      Some(WeightedAverage(position.entrySpotPrice, held, spotPrice, 1)),
      Some(WeightedAverage(position.entryFuturePrice, held, futurePrice, 1)),
      position.stockUnits + units,
      position.futureUnits + units,
      if firstLocalTimestamp.None? then None else Some(firstLocalTimestamp.value as real / 1_000_000_000.0))
  }

  function FillOf(leg: Leg, first: LegFill, second: LegFill): LegFill {
    if second.leg == leg then second else first
  }

  /** _update_position: a pair of fills without both prices leaves the position alone. */
  function UpdatePosition(
    position: PairPosition, signal: Signal, first: LegFill, second: LegFill, pricing: PairPricing): PairPosition
  {
    var spotPrice, futurePrice := FillOf(Stock, first, second).execPrice, FillOf(Future, first, second).execPrice;
    if spotPrice.None? || futurePrice.None? then position
    else if signal == Exit then ReducePosition(position)
    else AddToPosition(position, signal, pricing, spotPrice.value, futurePrice.value, first.localTimestamp)
  }

  function RealizedPnl(
    pair: PairConfig, position: PairPosition, signal: Signal, first: LegFill, second: LegFill): Option<real>
  {
    var spotPrice, futurePrice := FillOf(Stock, first, second).execPrice, FillOf(Future, first, second).execPrice;
    if signal != Exit || spotPrice.None? || futurePrice.None? then None
    else ExitPnl(pair, position, spotPrice.value, futurePrice.value, 1)
  }

  function FlattenPnl(pair: PairConfig, first: LegFill, flatten: Option<LegFill>): Option<real> {
    if flatten.None? || first.execPrice.None? || flatten.value.execPrice.None? then None
    else
      var gain := flatten.value.execPrice.value - first.execPrice.value;
      var quantity := if first.leg.Stock? then pair.spotOrderQty else pair.futurePnlMultiplier * pair.futureOrderQty;
      Some((if first.side.Buy? then gain else -gain) * quantity as real)
  }

  predicate SecondLegProfitOk(pair: PairConfig, position: PairPosition, signal: Signal, market: PairMarket)
    requires ValidPair(pair)
  {
    var pricing := PriceMarket(pair, market);
    var threshold :=
      if pair.minSecondLegAdjustedBasisPct.Some? then pair.minSecondLegAdjustedBasisPct.value else pair.entryThresholdPct;
    match signal
    case EnterLong => pricing.longPct >= threshold
    case EnterShort => -pricing.shortPct >= threshold
    case Exit => pair.minExitRealizedPnl.Some? ==> ExitQuantityMultiplier(pair, market, position) > 0
    case Hold => true
  }

  // ---------------------------------------------------------------- rows

  function AppendRow<E>(
    p: Port<E>, s: Run<E>, signal: Signal, status: Status, market: PairMarket, reason: Option<Reason>,
    signalTimestamp: Option<int>, first: Option<LegFill>, second: Option<LegFill>, flatten: Option<LegFill>,
    realizedPnl: Option<real>): Run<E>
  {
    s.(rows := s.rows + [TradeRow(
      p.now(s.hbt), s.step, signal, status, market, s.position.quantity, s.position.direction, reason,
      signalTimestamp, first, second, flatten, realizedPnl)])
  }

  function AppendSkipRow<E>(p: Port<E>, s: Run<E>, signal: Signal, market: PairMarket, reason: Reason): Run<E> {
    AppendRow(p, s, signal, RiskSkip, market, Some(reason), None, None, None, None, None)
  }

  predicate PeriodicStep(c: HbtConfig, step: nat) {
    c.recordMarketEverySteps.Some? && c.recordMarketEverySteps.value > 0 && step % c.recordMarketEverySteps.value == 0
  }

  function RecordMarketRow<E>(
    p: Port<E>, c: HbtConfig, s: Run<E>, market: PairMarket, signal: Signal, force: bool): Run<E>
  {
    if !force && !PeriodicStep(c, s.step) && signal == Hold then s
    else s.(marketRows := s.marketRows + [MarketRow(
      p.now(s.hbt), s.step, market, signal, s.position.quantity, s.position.direction)])
  }

  function RecordFinalMarket<E>(p: Port<E>, c: HbtConfig, s: Run<E>): Run<E> {
    if s.last.None? || (s.marketRows != [] && s.marketRows[|s.marketRows| - 1].step == s.step) then s
    else RecordMarketRow(p, c, s, s.last.value, Hold, true)
  }

  // ---------------------------------------------------------------- the two-leg execution

  /** The first leg, with the engine and order counter after it. */
  function SubmitFirst<E>(p: Port<E>, c: HbtConfig, s: Run<E>, signal: Signal, market: PairMarket): (LegFill, Run<E>)
    requires ValidPair(c.pair)
    requires LegSide(signal, s.position, c.firstLeg).Some?
  {
    var (fill, e) := SubmitRawLeg(p, c, s.hbt, LegRequest(c, s.position, s.orderId + 1, signal, c.firstLeg, market, false));
    (fill, s.(hbt := e, orderId := s.orderId + 1))
  }

  function SubmitSecond<E>(p: Port<E>, c: HbtConfig, s: Run<E>, signal: Signal, market: PairMarket): (LegFill, Run<E>)
    requires ValidPair(c.pair)
    requires LegSide(signal, s.position, c.firstLeg.Other()).Some?
  {
    var (fill, e) :=
      SubmitRawLeg(p, c, s.hbt, LegRequest(c, s.position, s.orderId + 1, signal, c.firstLeg.Other(), market, true));
    (fill, s.(hbt := e, orderId := s.orderId + 1))
  }

  function FlattenFirstLeg<E>(
    p: Port<E>, c: HbtConfig, s: Run<E>, signal: Signal, market: PairMarket): (Option<LegFill>, Run<E>)
    requires ValidPair(c.pair)
    requires LegSide(signal, s.position, c.firstLeg).Some?
  {
    if !c.flattenOnSecondLegFailure then (None, s)
    else
      var (fill, e) := SubmitRawLeg(p, c, s.hbt, FlattenRequest(c, s.position, s.orderId + 1, signal, market));
      (Some(fill), s.(hbt := e, orderId := s.orderId + 1))
  }

  /** Flatten after a failure of the second leg and record it. A failed profit check passes the
      flatten fill in the second-fill slot. */
  function FailSecondLeg<E>(
    p: Port<E>, c: HbtConfig, s: Run<E>, signal: Signal, status: Status, market: PairMarket, signalTimestamp: int,
    first: LegFill, second: Option<LegFill>): Run<E>
    requires ValidPair(c.pair)
    requires LegSide(signal, s.position, c.firstLeg).Some?
  {
    var (flatten, s1) := FlattenFirstLeg(p, c, s, signal, market);
    var inSecondSlot := status.SecondLegProfitCheckFailed?;
    AppendRow(p, s1, signal, status, market, None, Some(signalTimestamp), Some(first),
              if inSecondSlot then flatten else second,
              if inSecondSlot then None else flatten,
              FlattenPnl(c.pair, first, flatten))
  }

  /** The delay and the feed wait between the legs: None when the data ends during the delay. */
  function BetweenLegs<E(!new)>(p: Port<E>, c: HbtConfig, s: Run<E>): (r: (Option<bool>, Run<E>))
    requires Finite(p)
    ensures p.remaining(r.1.hbt) <= p.remaining(s.hbt)
    ensures r.1 == s.(hbt := r.1.hbt)
  {
    if c.secondLegDelayNs > 0 && !p.advance(s.hbt, c.secondLegDelayNs).0 then
      (None, s.(hbt := p.advance(s.hbt, c.secondLegDelayNs).1))
    else
      var e := if c.secondLegDelayNs > 0 then p.advance(s.hbt, c.secondLegDelayNs).1 else s.hbt;
      var (ready, e') := WaitPostFirstFeed(p, c, e);
      (Some(ready), s.(hbt := e'))
  }

  /** The recheck and second leg, entered once the first leg has filled. */
  function CompletePair<E(!new)>(
    p: Port<E>, c: HbtConfig, s: Run<E>, signal: Signal, market: PairMarket, signalTimestamp: int, first: LegFill): Run<E>
    requires ValidPair(c.pair)
    requires LegSide(signal, s.position, c.firstLeg).Some? && LegSide(signal, s.position, c.firstLeg.Other()).Some?
  {
    if c.secondLegProfitCheck && !SecondLegProfitOk(c.pair, s.position, signal, market) then
      FailSecondLeg(p, c, s, signal, SecondLegProfitCheckFailed, market, signalTimestamp, first, None)
    else
      var (second, s1) := SubmitSecond(p, c, s, signal, market);
      if !second.filled then
        FailSecondLeg(p, c, s1, signal, SecondLegUnfilled, market, signalTimestamp, first, Some(second))
      else
        var realized := RealizedPnl(c.pair, s1.position, signal, first, second);
        var s2 := s1.(position := UpdatePosition(s1.position, signal, first, second, PriceMarket(c.pair, market)));
        AppendRow(p, s2, signal, Filled, market, None, Some(signalTimestamp), Some(first), Some(second), None, realized)
  }

  /** _execute_signal. */
  function ExecuteSignal<E(!new)>(p: Port<E>, c: HbtConfig, s: Run<E>, signal: Signal, market: PairMarket): Run<E>
    requires Finite(p) && ValidPair(c.pair)
    requires LegSide(signal, s.position, c.firstLeg).Some? && LegSide(signal, s.position, c.firstLeg.Other()).Some?
  {
    var signalTimestamp := p.now(s.hbt);
    var (first, s1) := SubmitFirst(p, c, s, signal, market);
    if !first.filled then
      AppendRow(p, s1, signal, FirstLegUnfilled, market, None, Some(signalTimestamp), Some(first), None, None, None)
    else
      var (ready, s2) := BetweenLegs(p, c, s1);
      if ready.None? then
        AppendRow(p, s2, signal, SecondLegDelayEndOfData, market, None, Some(signalTimestamp), Some(first), None, None, None)
      else
        var current := CurrentMarket(p, s2.hbt);
        var decisionMarket := if current.Some? then current.value else market;
        if !ready.value then
          FailSecondLeg(p, c, s2, signal, PostFirstFeedTimeout, decisionMarket, signalTimestamp, first, None)
        else
          CompletePair(p, c, s2, signal, decisionMarket, signalTimestamp, first)
  }

  // ---------------------------------------------------------------- visits and the plain loop

  function DecideRun<E>(c: HbtConfig, s: Run<E>, market: PairMarket): Decision
    requires ValidPair(c.pair)
  {
    Decide(c.pair, market, PriceMarket(c.pair, market), s.position, c.enforceRiskLimits)
  }

  /** Act on a decision already taken at the current engine time. */
  function ActOn<E(!new)>(p: Port<E>, c: HbtConfig, s: Run<E>, market: PairMarket, d: Decision): Run<E>
    requires Finite(p) && ValidPair(c.pair)
    requires d.action != Hold ==> LegSide(d.action, s.position, Stock).Some? && LegSide(d.action, s.position, Future).Some?
  {
    if d.action == Hold then s
    else if !d.shouldExecute then AppendSkipRow(p, s, d.action, market, d.reason)
    else ExecuteSignal(p, c, s, d.action, market)
  }

  /** What one loop iteration does after a successful advance. */
  function Visit<E(!new)>(p: Port<E>, c: HbtConfig, s: Run<E>): Run<E>
    requires Finite(p) && ValidPair(c.pair)
  {
    var current := CurrentMarket(p, s.hbt);
    if current.None? then s
    else
      var market := current.value;
      var d := DecideRun(c, s, market);
      var s1 := RecordMarketRow(p, c, s.(last := Some(market)), market, d.action, false);
      ActOn(p, c, s1, market, d)
  }

  predicate Exhausted<E>(c: HbtConfig, s: Run<E>) {
    || (c.maxSteps.Some? && s.step >= c.maxSteps.value)
    || (c.maxTrades.Some? && |s.rows| >= c.maxTrades.value)
  }

  function AdvanceClock<E>(p: Port<E>, c: HbtConfig, e: E): (bool, E) {
    if c.eventClock then p.advanceToNextFeed(e) else p.advance(e, c.stepNs)
  }

  /** The plain loop, without the final market row. */
  function PlainLoop<E(!new)>(p: Port<E>, c: HbtConfig, s: Run<E>): Run<E>
    requires Finite(p) && ValidConfig(c)
    decreases p.remaining(s.hbt)
  {
    if Exhausted(c, s) then s
    else
      var (ok, e) := AdvanceClock(p, c, s.hbt);
      if !ok then s.(hbt := e)
      else
        VisitConsumes(p, c, s.(hbt := e, step := s.step + 1));
        PlainLoop(p, c, Visit(p, c, s.(hbt := e, step := s.step + 1)))
  }

  function RunPlain<E(!new)>(p: Port<E>, c: HbtConfig, s: Run<E>): Run<E>
    requires Finite(p) && ValidConfig(c)
  {
    RecordFinalMarket(p, c, PlainLoop(p, c, s))
  }

  /** One iteration of the plain loop. */
  lemma PlainLoopNext<E(!new)>(p: Port<E>, c: HbtConfig, s: Run<E>)
    requires Finite(p) && ValidConfig(c) && !Exhausted(c, s)
    ensures
      var (ok, e) := AdvanceClock(p, c, s.hbt);
      PlainLoop(p, c, s) == if ok then PlainLoop(p, c, Visit(p, c, s.(hbt := e, step := s.step + 1))) else s.(hbt := e)
  {
    hide Visit;
  }

  lemma PlainLoopEnds<E(!new)>(p: Port<E>, c: HbtConfig, s: Run<E>)
    requires Finite(p) && ValidConfig(c)
    ensures Exhausted(c, s) ==> PlainLoop(p, c, s) == s
  {
  }

  lemma NoMarketNoVisit<E(!new)>(p: Port<E>, c: HbtConfig, s: Run<E>)
    requires Finite(p) && ValidPair(c.pair)
    ensures CurrentMarket(p, s.hbt).None? ==> Visit(p, c, s) == s
  {
    hide ActOn, CurrentMarket;
  }

  // ---------------------------------------------------------------- no operation gives data back

  lemma SubmitConsumes<E(!new)>(p: Port<E>, c: HbtConfig, e: E, request: OrderRequest)
    requires Finite(p)
    ensures p.remaining(SubmitRawLeg(p, c, e, request).1) <= p.remaining(e)
  {
  }

  lemma FailConsumes<E(!new)>(
    p: Port<E>, c: HbtConfig, s: Run<E>, signal: Signal, status: Status, market: PairMarket, t: int,
    first: LegFill, second: Option<LegFill>)
    requires Finite(p) && ValidPair(c.pair)
    requires LegSide(signal, s.position, c.firstLeg).Some?
    ensures p.remaining(FailSecondLeg(p, c, s, signal, status, market, t, first, second).hbt) <= p.remaining(s.hbt)
  {
  }

  lemma CompleteConsumes<E(!new)>(
    p: Port<E>, c: HbtConfig, s: Run<E>, signal: Signal, market: PairMarket, t: int, first: LegFill)
    requires Finite(p) && ValidPair(c.pair)
    requires LegSide(signal, s.position, c.firstLeg).Some? && LegSide(signal, s.position, c.firstLeg.Other()).Some?
    ensures p.remaining(CompletePair(p, c, s, signal, market, t, first).hbt) <= p.remaining(s.hbt)
  {
  }

  lemma ExecuteConsumes<E(!new)>(p: Port<E>, c: HbtConfig, s: Run<E>, signal: Signal, market: PairMarket)
    requires Finite(p) && ValidPair(c.pair)
    requires LegSide(signal, s.position, c.firstLeg).Some? && LegSide(signal, s.position, c.firstLeg.Other()).Some?
    ensures p.remaining(ExecuteSignal(p, c, s, signal, market).hbt) <= p.remaining(s.hbt)
  {
    hide SubmitRawLeg, LegRequest, FailSecondLeg, CompletePair;
    SubmitConsumes(p, c, s.hbt, LegRequest(c, s.position, s.orderId + 1, signal, c.firstLeg, market, false));
    var (first, s1) := SubmitFirst(p, c, s, signal, market);
    if first.filled {
      var (ready, s2) := BetweenLegs(p, c, s1);
      if ready.Some? {
        var current := CurrentMarket(p, s2.hbt);
        var m := if current.Some? then current.value else market;
        FailConsumes(p, c, s2, signal, PostFirstFeedTimeout, m, p.now(s.hbt), first, None);
        CompleteConsumes(p, c, s2, signal, m, p.now(s.hbt), first);
      }
    }
  }

  lemma VisitConsumes<E(!new)>(p: Port<E>, c: HbtConfig, s: Run<E>)
    requires Finite(p) && ValidPair(c.pair)
    ensures p.remaining(Visit(p, c, s).hbt) <= p.remaining(s.hbt)
  {
    var current := CurrentMarket(p, s.hbt);
    if current.Some? {
      var d := DecideRun(c, s, current.value);
      var s1 := RecordMarketRow(p, c, s.(last := current), current.value, d.action, false);
      if d.action != Hold && d.shouldExecute {
        ExecuteConsumes(p, c, s1, d.action, current.value);
      }
    }
  }
}
