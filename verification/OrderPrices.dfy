/** What an execution submits: how many orders, of which legs and sides, and at which prices. */
module OrderPrices {
  import opened Wrappers
  import opened Models
  import opened Ticks
  import opened Strategy
  import opened Replay

  // ---------------------------------------------------------------- prices against the book

  /** An order at the price meets the other side of the quote at once. */
  predicate Crosses(quote: Quote, side: Side, price: real) {
    match side
    case Buy => price >= quote.ask
    case Sell => price <= quote.bid
  }

  /** The best price of the other side, exactly. */
  predicate AtTouch(quote: Quote, side: Side, price: real) {
    match side
    case Buy => price == quote.ask
    case Sell => price == quote.bid
  }

  /** The multiple of the tick nearest to x, the even one of two. */
  ghost predicate Nearest(price: real, x: real, tick: real)
    requires tick > 0.0
  {
    exists n: int :: MultipleFor(n, price, x, tick)
  }

  predicate MultipleFor(n: int, price: real, x: real, tick: real)
    requires tick > 0.0
  {
    price == n as real * tick && NearestMultiple(n, x / tick)
  }

  predicate NearestMultiple(n: int, y: real) {
    && n as real - 0.5 <= y <= n as real + 0.5
    && (y == n as real - 0.5 || y == n as real + 0.5 ==> n % 2 == 0)
  }

  lemma NearestIsUnique(n: int, m: int, y: real)
    requires NearestMultiple(n, y) && NearestMultiple(m, y)
    ensures n == m
  {
  }

  lemma RoundedIsNearest(x: real, tick: real)
    requires tick > 0.0
    ensures Nearest(RoundToTick(x, tick), x, tick)
  {
    var n := RoundHalfEven(x / tick);
    assert MultipleFor(n, RoundToTick(x, tick), x, tick);
  }

  /** The best price of the side an order trades with. */
  function Touch(quote: Quote, side: Side): Price {
    match side
    case Buy => quote.ask
    case Sell => quote.bid
  }

  /** A price moved against the order's own interest, a sale no lower than one tick. */
  function Moved(side: Side, touch: real, tick: real, ticks: real): real {
    match side
    case Buy => touch + tick * ticks
    case Sell => if touch - tick * ticks > tick then touch - tick * ticks else tick
  }

  /** The price of an order that may go through the touch by some ticks: the moved touch on the grid. */
  ghost predicate Through(pair: PairConfig, leg: Leg, quote: Quote, side: Side, ticks: real, price: real)
    requires ValidPair(pair)
  {
    var tick := PairLegTick(pair, leg, Touch(quote, side), quote.timestamp);
    Nearest(price, Moved(side, Touch(quote, side), tick, ticks), tick)
  }

  /** How far y stands below the next multiple of the tick, in ticks. */
  function GapUp(y: real): real { -((-y).Floor as real) - y }

  /** How far y stands above the last multiple of the tick, in ticks. */
  function GapDown(y: real): real { y - y.Floor as real }

  lemma NearestUpIff(n: int, y: real, ticks: real)
    requires ticks >= 0.0 && NearestMultiple(n, y + ticks)
    ensures
      var up := -(-y).Floor;
      n as real >= y <==> GapUp(y) < ticks + 0.5 || (GapUp(y) == ticks + 0.5 && up % 2 == 0)
  {
    var up := -(-y).Floor;
    assert up as real - 1.0 < y <= up as real;
    assert n as real >= y <==> n >= up;
  }

  lemma NearestDownIff(n: int, y: real, ticks: real)
    requires ticks >= 0.0 && NearestMultiple(n, y - ticks)
    ensures
      n as real <= y <==> GapDown(y) < ticks + 0.5 || (GapDown(y) == ticks + 0.5 && y.Floor % 2 == 0)
  {
    assert n as real <= y <==> n <= y.Floor;
  }

  /** Whether a price moved through the touch by `ticks` and rounded still crosses: rounding must not
      take back more than the move, and a sale must not be lifted above a bid below one tick. */
  predicate Reaches(pair: PairConfig, leg: Leg, quote: Quote, side: Side, ticks: real)
    requires ValidPair(pair)
  {
    match side
    case Buy =>
      var y := quote.ask / PairLegTick(pair, leg, quote.ask, quote.timestamp);
      GapUp(y) < ticks + 0.5 || (GapUp(y) == ticks + 0.5 && (-y).Floor % 2 == 0)
    case Sell =>
      var tick := PairLegTick(pair, leg, quote.bid, quote.timestamp);
      var y := quote.bid / tick;
      if y - ticks > 1.0 then GapDown(y) < ticks + 0.5 || (GapDown(y) == ticks + 0.5 && y.Floor % 2 == 0)
      else y >= 1.0
  }

  lemma Scaled(x: real, tick: real, ticks: real)
    requires tick > 0.0
    ensures (x + tick * ticks) / tick == x / tick + ticks
    ensures (x - tick * ticks) / tick == x / tick - ticks
    ensures tick / tick == 1.0 && x == x / tick * tick
  {
  }

  lemma ScaledOrder(n: int, y: real, tick: real)
    requires tick > 0.0
    ensures n as real * tick >= y * tick <==> n as real >= y
    ensures n as real * tick <= y * tick <==> n as real <= y
    ensures y * tick > tick <==> y > 1.0
  {
    if n as real > y { assert (n as real - y) * tick > 0.0; }
    if n as real < y { assert (y - n as real) * tick > 0.0; }
    if y > 1.0 { assert (y - 1.0) * tick > 0.0; }
    if y < 1.0 { assert (1.0 - y) * tick > 0.0; }
  }

  lemma PurchaseReachesIff(n: int, ask: real, tick: real, ticks: real)
    requires tick > 0.0 && ticks >= 0.0 && NearestMultiple(n, Moved(Buy, ask, tick, ticks) / tick)
    ensures
      var y := ask / tick;
      n as real * tick >= ask <==> GapUp(y) < ticks + 0.5 || (GapUp(y) == ticks + 0.5 && (-y).Floor % 2 == 0)
  {
    Scaled(ask, tick, ticks);
    var y := ask / tick;
    assert NearestMultiple(n, y + ticks);
    NearestUpIff(n, y, ticks);
    ScaledOrder(n, y, tick);
    hide GapUp, NearestMultiple;
    EvenNegation((-y).Floor);
  }

  lemma EvenNegation(n: int)
    ensures n % 2 == 0 <==> (-n) % 2 == 0
  {
  }

  lemma SaleReachesIff(n: int, bid: real, tick: real, ticks: real)
    requires tick > 0.0 && ticks >= 0.0 && NearestMultiple(n, Moved(Sell, bid, tick, ticks) / tick)
    ensures
      var y := bid / tick;
      n as real * tick <= bid <==>
        if y - ticks > 1.0 then GapDown(y) < ticks + 0.5 || (GapDown(y) == ticks + 0.5 && y.Floor % 2 == 0)
        else y >= 1.0
  {
    var y := bid / tick;
    Scaled(bid, tick, ticks);
    SaleAboveTick(bid, y, tick, ticks);
    ScaledOrder(n, y, tick);
    assert n as real * tick <= bid <==> n as real <= y;
    var z := if y - ticks > 1.0 then y - ticks else 1.0;
    assert Moved(Sell, bid, tick, ticks) / tick == z;
    SaleMultipleIff(n, y, z, ticks);
    hide GapDown, NearestMultiple, Moved;
  }

  lemma SaleMultipleIff(n: int, y: real, z: real, ticks: real)
    requires ticks >= 0.0 && z == (if y - ticks > 1.0 then y - ticks else 1.0) && NearestMultiple(n, z)
    ensures n as real <= y <==>
      if y - ticks > 1.0 then GapDown(y) < ticks + 0.5 || (GapDown(y) == ticks + 0.5 && y.Floor % 2 == 0)
      else y >= 1.0
  {
    if y - ticks > 1.0 {
      NearestDownIff(n, y, ticks);
    } else {
      NearestIsUnique(n, 1, 1.0);
    }
  }

  /** An order moved through the touch crosses exactly when rounding leaves it there. */
  lemma ThroughCrossesIff(pair: PairConfig, leg: Leg, quote: Quote, side: Side, ticks: real, price: real)
    requires ValidPair(pair) && ticks >= 0.0 && Through(pair, leg, quote, side, ticks, price)
    ensures Crosses(quote, side, price) <==> Reaches(pair, leg, quote, side, ticks)
  {
    hide PairLegTick, NearestMultiple, GapUp, GapDown, Moved;
    var touch := Touch(quote, side);
    TickPositive(pair, leg, touch, quote.timestamp);
    var tick := PairLegTick(pair, leg, touch, quote.timestamp);
    var n := MultipleOf(price, Moved(side, touch, tick, ticks), tick);
    match side
    case Buy => PurchaseReachesIff(n, quote.ask, tick, ticks);
    case Sell => SaleReachesIff(n, quote.bid, tick, ticks);
  }

  lemma MultipleOf(price: real, x: real, tick: real) returns (n: int)
    requires tick > 0.0 && Nearest(price, x, tick)
    ensures price == n as real * tick && NearestMultiple(n, x / tick)
  {
    n :| MultipleFor(n, price, x, tick);
  }

  lemma TickPositive(pair: PairConfig, leg: Leg, price: real, timestamp: int)
    requires ValidPair(pair) && price >= 0.0
    ensures PairLegTick(pair, leg, price, timestamp) > 0.0
  {
  }

  lemma SaleAboveTick(bid: real, y: real, tick: real, ticks: real)
    requires tick > 0.0 && bid == y * tick
    ensures bid - tick * ticks > tick <==> y - ticks > 1.0
  {
    var d := y - ticks - 1.0;
    Distributes(y, tick, ticks);
    assert bid - tick * ticks - tick == d * tick;
    if d > 0.0 { assert d * tick > 0.0; }
    if d < 0.0 { assert (-d) * tick > 0.0; }
  }

  lemma Distributes(y: real, tick: real, ticks: real)
    ensures (y - ticks) * tick == y * tick - tick * ticks
  {
  }

  /** Half a tick is enough, but for a sale into a bid below one tick. */
  lemma HalfTickCrosses(pair: PairConfig, leg: Leg, quote: Quote, side: Side, ticks: real, price: real)
    requires ValidPair(pair) && ticks >= 0.5 && Through(pair, leg, quote, side, ticks, price)
    requires side.Sell? ==> quote.bid >= PairLegTick(pair, leg, quote.bid, quote.timestamp)
    ensures Crosses(quote, side, price)
  {
    hide PairLegTick, Through, GapUp, GapDown;
    ThroughCrossesIff(pair, leg, quote, side, ticks, price);
    TickPositive(pair, leg, Touch(quote, side), quote.timestamp);
    var tick := PairLegTick(pair, leg, Touch(quote, side), quote.timestamp);
    GapsBelowOne(Touch(quote, side) / tick);
    if side.Sell? { AtLeastOne(quote.bid, tick); }
  }

  lemma GapsBelowOne(y: real)
    ensures GapUp(y) < 1.0 && GapDown(y) < 1.0
  {
  }

  lemma AtLeastOne(x: real, tick: real)
    requires x >= tick > 0.0
    ensures x / tick >= 1.0
  {
  }

  /** Without an offset a flatten is rounded to the grid and can fall short: a purchase at 100.0 against
      an ask of 100.04. */
  lemma OffGridPurchaseFallsShort(pair: PairConfig, leg: Leg, quote: Quote)
    requires ValidPair(pair) && quote.ask == 100.04 && PairLegTick(pair, leg, quote.ask, quote.timestamp) == 0.1
    ensures Through(pair, leg, quote, Buy, 0.0, 100.0) && !Crosses(quote, Buy, 100.0)
  {
    assert MultipleFor(1000, 100.0, 100.04, 0.1);
  }

  // ---------------------------------------------------------------- the orders of one execution

  /** An order and the market at the engine when it was sent. */
  datatype Sent = Sent(request: OrderRequest, seen: Option<PairMarket>)

  /** The engine keeps a log of the orders it was sent. */
  ghost predicate KeepsLog<E(!new)>(p: Port<E>, log: E -> seq<Sent>) {
    && (forall e, r :: log(p.submitLimit(e, r).1) == log(e) + [Sent(r, CurrentMarket(p, e))])
    && (forall e, d :: log(p.advance(e, d).1) == log(e))
    && (forall e, l, i, t :: log(p.waitOrderResponse(e, l, i, t).1) == log(e))
    && (forall e, l, i, t :: log(p.cancelActiveOrder(e, l, i, t)) == log(e))
    && (forall e, l :: log(p.clearInactiveOrders(e, l)) == log(e))
  }

  /** The signal buys the spot and sells the future. */
  predicate BuysSpot(signal: Signal, position: PairPosition) {
    signal == EnterLong || (signal == Exit && position.direction == EnterShort)
  }

  /** Leg, side, quantity and time in force of an order of the execution. */
  predicate OrderOf(c: HbtConfig, position: PairPosition, signal: Signal, leg: Leg, r: OrderRequest) {
    && r.leg == leg
    && (r.side.Buy? <==> (leg.Stock? <==> BuysSpot(signal, position)))
    && (if leg.Stock? then r.quantity * BOARD_LOT_SHARES == c.pair.spotOrderQty as real
        else r.quantity == c.pair.futureOrderQty as real)
    && r.timeInForce == if leg == c.firstLeg then c.pair.firstLegTif else c.pair.secondLegTif
  }

  /** The first leg goes in at the touch of the market the signal came from. */
  predicate FirstOrder(c: HbtConfig, position: PairPosition, signal: Signal, market: PairMarket, r: OrderRequest) {
    OrderOf(c, position, signal, c.firstLeg, r) && AtTouch(market.QuoteOf(c.firstLeg), r.side, r.price)
  }

  /** The second leg goes in at the touch of the market decided on, or through it by the offset. */
  ghost predicate SecondOrder(c: HbtConfig, position: PairPosition, signal: Signal, market: PairMarket, r: OrderRequest)
    requires ValidPair(c.pair)
  {
    var leg := c.firstLeg.Other();
    && OrderOf(c, position, signal, leg, r)
    && if c.pair.secondLegTickOffset <= 0.0 then AtTouch(market.QuoteOf(leg), r.side, r.price)
       else Through(c.pair, leg, market.QuoteOf(leg), r.side, c.pair.secondLegTickOffset, r.price)
  }

  /** The flatten undoes the first leg, through the touch of the market decided on. */
  ghost predicate FlattenOrder(c: HbtConfig, position: PairPosition, signal: Signal, market: PairMarket, r: OrderRequest)
    requires ValidPair(c.pair)
  {
    && r.timeInForce == c.pair.flattenFirstLegTif
    && OrderOf(c, position, signal, c.firstLeg, r.(side := r.side.Opposite(), timeInForce := c.pair.firstLegTif))
    && Through(c.pair, c.firstLeg, market.QuoteOf(c.firstLeg), r.side, c.pair.flattenFirstLegTickOffset, r.price)
  }

  lemma LegRequestIs(
    c: HbtConfig, position: PairPosition, id: int, signal: Signal, leg: Leg, market: PairMarket, second: bool)
    requires ValidPair(c.pair) && LegSide(signal, position, leg).Some?
    ensures
      var r := LegRequest(c, position, id, signal, leg, market, second);
      && r.orderId == id
      && OrderOf(c, position, signal, leg, r)
      && if !second || c.pair.secondLegTickOffset <= 0.0 then AtTouch(market.QuoteOf(leg), r.side, r.price)
         else Through(c.pair, leg, market.QuoteOf(leg), r.side, c.pair.secondLegTickOffset, r.price)
  {
    var r := LegRequest(c, position, id, signal, leg, market, second);
    OffsetIsThrough(c.pair, leg, r.side, market.QuoteOf(leg), c.pair.secondLegTickOffset);
    hide OffsetPrice, Through;
  }

  lemma OffsetIsThrough(pair: PairConfig, leg: Leg, side: Side, quote: Quote, ticks: real)
    requires ValidPair(pair)
    ensures Through(pair, leg, quote, side, ticks, OffsetPrice(pair, leg, side, quote, Touch(quote, side), ticks))
  {
    var touch := Touch(quote, side);
    TickPositive(pair, leg, touch, quote.timestamp);
    OffsetIsRounded(pair, leg, side, quote, touch, ticks);
    var tick := PairLegTick(pair, leg, touch, quote.timestamp);
    MovedIs(side, touch, tick, ticks);
    RoundedIsNearest(Moved(side, touch, tick, ticks), tick);
    hide RoundToTick, Nearest, PairLegTick, OffsetPrice, Moved;
  }

  lemma OffsetIsRounded(pair: PairConfig, leg: Leg, side: Side, quote: Quote, touch: Price, ticks: real)
    requires ValidPair(pair) && PairLegTick(pair, leg, touch, quote.timestamp) > 0.0
    ensures
      var tick := PairLegTick(pair, leg, touch, quote.timestamp);
      OffsetPrice(pair, leg, side, quote, touch, ticks)
      == RoundToTick(if side.Buy? then touch + tick * ticks else MaxReal(touch - tick * ticks, tick), tick)
  {
  }

  lemma MovedIs(side: Side, touch: real, tick: real, ticks: real)
    ensures Moved(side, touch, tick, ticks)
         == if side.Buy? then touch + tick * ticks else MaxReal(touch - tick * ticks, tick)
  {
  }

  lemma FlattenRequestIs(c: HbtConfig, position: PairPosition, id: int, signal: Signal, market: PairMarket)
    requires ValidPair(c.pair) && LegSide(signal, position, c.firstLeg).Some?
    ensures FlattenRequest(c, position, id, signal, market).orderId == id
    ensures FlattenOrder(c, position, signal, market, FlattenRequest(c, position, id, signal, market))
  {
    var r := FlattenRequest(c, position, id, signal, market);
    OffsetIsThrough(c.pair, c.firstLeg, r.side, market.QuoteOf(c.firstLeg), c.pair.flattenFirstLegTickOffset);
    hide OffsetPrice, Through;
  }

  lemma SubmitLogs<E(!new)>(p: Port<E>, c: HbtConfig, e: E, r: OrderRequest, log: E -> seq<Sent>)
    requires KeepsLog(p, log)
    ensures log(SubmitRawLeg(p, c, e, r).1) == log(e) + [Sent(r, CurrentMarket(p, e))]
  {
  }

  lemma {:induction false} PollLogsNothing<E(!new)>(
    p: Port<E>, c: HbtConfig, spot: Option<(int, int)>, future: Option<(int, int)>, deadline: int, e: E, log: E -> seq<Sent>)
    requires Finite(p) && KeepsLog(p, log)
    ensures log(PollFeeds(p, c, spot, future, deadline, e).1) == log(e)
    decreases p.remaining(e)
  {
    if p.now(e) < deadline {
      var (ok, e') := p.advance(e, MinInt(MaxInt(1, c.postFirstFeedPollNs), deadline - p.now(e)));
      if ok && !FeedReady(p, c.postFirstFeedWait, spot, future, e') {
        PollLogsNothing(p, c, spot, future, deadline, e', log);
      }
    }
  }

  lemma BetweenLegsLogsNothing<E(!new)>(p: Port<E>, c: HbtConfig, s: Run<E>, log: E -> seq<Sent>)
    requires Finite(p) && KeepsLog(p, log)
    ensures log(BetweenLegs(p, c, s).1.hbt) == log(s.hbt)
  {
    var e := if c.secondLegDelayNs > 0 then p.advance(s.hbt, c.secondLegDelayNs).1 else s.hbt;
    PollLogsNothing(p, c, p.feedLatency(e, Stock), p.feedLatency(e, Future),
                    p.now(e) + MaxInt(0, c.postFirstFeedTimeoutNs), e, log);
  }

  /** What an execution that writes `row` sends: the first leg, then by its outcome the second leg at
      the market decided on, and the flatten where one is due, under consecutive new ids. The market
      decided on is the one at the engine when the order after the first leg goes out, if it has one. */
  ghost predicate Sends(
    c: HbtConfig, position: PairPosition, id: int, signal: Signal, market: PairMarket, row: TradeRow, orders: seq<Sent>)
    requires ValidPair(c.pair)
  {
    && |orders| >= 1 && FirstOrder(c, position, signal, market, orders[0].request)
    && (forall i :: 0 <= i < |orders| ==> orders[i].request.orderId == id + 1 + i)
    && (|orders| > 1 ==> row.market == if orders[1].seen.Some? then orders[1].seen.value else market)
    && (row.status.FirstLegUnfilled? || row.status.SecondLegDelayEndOfData? ==> row.market == market)
    && Continues(c, position, signal, row, orders[1..])
  }

  /** The orders after the first leg, by the outcome that the row records. */
  ghost predicate Continues(c: HbtConfig, position: PairPosition, signal: Signal, row: TradeRow, orders: seq<Sent>)
    requires ValidPair(c.pair)
  {
    match row.status
    case FirstLegUnfilled => orders == []
    case SecondLegDelayEndOfData => orders == []
    case PostFirstFeedTimeout => Flattens(c, position, signal, row.market, orders)
    case SecondLegProfitCheckFailed => Flattens(c, position, signal, row.market, orders)
    case SecondLegUnfilled =>
      |orders| >= 1 && SecondOrder(c, position, signal, row.market, orders[0].request)
      && Flattens(c, position, signal, row.market, orders[1..])
    case Filled => |orders| == 1 && SecondOrder(c, position, signal, row.market, orders[0].request)
    case RiskSkip => false
  }

  ghost predicate Flattens(c: HbtConfig, position: PairPosition, signal: Signal, market: PairMarket, orders: seq<Sent>)
    requires ValidPair(c.pair)
  {
    if c.flattenOnSecondLegFailure then |orders| == 1 && FlattenOrder(c, position, signal, market, orders[0].request) else orders == []
  }

  lemma FailSends<E(!new)>(
    p: Port<E>, c: HbtConfig, s: Run<E>, signal: Signal, status: Status, market: PairMarket, t: int, first: LegFill,
    second: Option<LegFill>, log: E -> seq<Sent>) returns (orders: seq<Sent>)
    requires KeepsLog(p, log) && ValidPair(c.pair) && LegSide(signal, s.position, c.firstLeg).Some?
    ensures
      var r := FailSecondLeg(p, c, s, signal, status, market, t, first, second);
      && log(r.hbt) == log(s.hbt) + orders && Flattens(c, s.position, signal, market, orders)
      && (forall i :: 0 <= i < |orders| ==> orders[i].request.orderId == s.orderId + 1 + i)
      && (orders != [] ==> orders[0].seen == CurrentMarket(p, s.hbt))
      && |r.rows| == |s.rows| + 1 && r.rows[|s.rows|].status == status && r.rows[|s.rows|].market == market
  {
    hide SubmitRawLeg, FlattenRequest, FlattenOrder, KeepsLog, CurrentMarket, FlattenPnl;
    var request := FlattenRequest(c, s.position, s.orderId + 1, signal, market);
    FlattenRequestIs(c, s.position, s.orderId + 1, signal, market);
    SubmitLogs(p, c, s.hbt, request, log);
    orders := if c.flattenOnSecondLegFailure then [Sent(request, CurrentMarket(p, s.hbt))] else [];
  }

  lemma CompleteSends<E(!new)>(
    p: Port<E>, c: HbtConfig, s: Run<E>, signal: Signal, market: PairMarket, t: int, first: LegFill,
    log: E -> seq<Sent>) returns (orders: seq<Sent>)
    requires KeepsLog(p, log) && ValidPair(c.pair)
    requires LegSide(signal, s.position, c.firstLeg).Some? && LegSide(signal, s.position, c.firstLeg.Other()).Some?
    ensures
      var r := CompletePair(p, c, s, signal, market, t, first);
      && log(r.hbt) == log(s.hbt) + orders
      && (forall i :: 0 <= i < |orders| ==> orders[i].request.orderId == s.orderId + 1 + i)
      && (orders != [] ==> orders[0].seen == CurrentMarket(p, s.hbt))
      && |r.rows| == |s.rows| + 1 && r.rows[|s.rows|].market == market
      && !r.rows[|s.rows|].status.FirstLegUnfilled? && !r.rows[|s.rows|].status.SecondLegDelayEndOfData?
      && Continues(c, s.position, signal, r.rows[|s.rows|], orders)
  {
    hide SubmitRawLeg, LegRequest, Flattens, Through, KeepsLog, SecondLegProfitOk, OrderOf, FailSecondLeg, UpdatePosition, RealizedPnl;
    if c.secondLegProfitCheck && !SecondLegProfitOk(c.pair, s.position, signal, market) {
      orders := FailSends(p, c, s, signal, SecondLegProfitCheckFailed, market, t, first, None, log);
    } else {
      var request := LegRequest(c, s.position, s.orderId + 1, signal, c.firstLeg.Other(), market, true);
      LegRequestIs(c, s.position, s.orderId + 1, signal, c.firstLeg.Other(), market, true);
      SubmitLogs(p, c, s.hbt, request, log);
      var (second, s1) := SubmitSecond(p, c, s, signal, market);
      if second.filled {
        orders := [Sent(request, CurrentMarket(p, s.hbt))];
      } else {
        var more := FailSends(p, c, s1, signal, SecondLegUnfilled, market, t, first, Some(second), log);
        orders := [Sent(request, CurrentMarket(p, s.hbt))] + more;
        assert orders[1..] == more;
      }
    }
  }

  lemma FirstRequestIs(c: HbtConfig, position: PairPosition, id: int, signal: Signal, market: PairMarket)
    requires ValidPair(c.pair) && LegSide(signal, position, c.firstLeg).Some?
    ensures
      var r := LegRequest(c, position, id, signal, c.firstLeg, market, false);
      r.orderId == id && FirstOrder(c, position, signal, market, r)
  {
    LegRequestIs(c, position, id, signal, c.firstLeg, market, false);
    hide LegRequest;
  }

  lemma UnfilledSends<E(!new)>(p: Port<E>, c: HbtConfig, s: Run<E>, signal: Signal, market: PairMarket)
    requires Finite(p) && ValidPair(c.pair)
    requires LegSide(signal, s.position, c.firstLeg).Some? && LegSide(signal, s.position, c.firstLeg.Other()).Some?
    requires !SubmitFirst(p, c, s, signal, market).0.filled
    ensures
      var s1, t := SubmitFirst(p, c, s, signal, market).1, ExecuteSignal(p, c, s, signal, market);
      && t.hbt == s1.hbt && |t.rows| == |s.rows| + 1
      && t.rows[|s.rows|].status.FirstLegUnfilled? && t.rows[|s.rows|].market == market
  {
    hide SubmitRawLeg, LegRequest, BetweenLegs, CompletePair, FailSecondLeg, Finite, CurrentMarket;
  }

  /** What follows a filled first leg. */
  lemma FilledSends<E(!new)>(
    p: Port<E>, c: HbtConfig, s: Run<E>, signal: Signal, market: PairMarket, log: E -> seq<Sent>)
    returns (more: seq<Sent>)
    requires Finite(p) && KeepsLog(p, log) && ValidPair(c.pair)
    requires LegSide(signal, s.position, c.firstLeg).Some? && LegSide(signal, s.position, c.firstLeg.Other()).Some?
    requires SubmitFirst(p, c, s, signal, market).0.filled
    ensures
      var s1, t := SubmitFirst(p, c, s, signal, market).1, ExecuteSignal(p, c, s, signal, market);
      && log(t.hbt) == log(s1.hbt) + more && |t.rows| == |s.rows| + 1
      && (forall i :: 0 <= i < |more| ==> more[i].request.orderId == s.orderId + 2 + i)
      && (more != [] ==> t.rows[|s.rows|].market == if more[0].seen.Some? then more[0].seen.value else market)
      && !t.rows[|s.rows|].status.FirstLegUnfilled?
      && (t.rows[|s.rows|].status.SecondLegDelayEndOfData? ==> t.rows[|s.rows|].market == market)
      && Continues(c, s.position, signal, t.rows[|s.rows|], more)
  {
    hide SubmitRawLeg, LegRequest, KeepsLog, Finite, BetweenLegs, CompletePair, FailSecondLeg, CurrentMarket, SecondOrder, FlattenOrder;
    var (first, s1) := SubmitFirst(p, c, s, signal, market);
    BetweenLegsLogsNothing(p, c, s1, log);
    var (ready, s2) := BetweenLegs(p, c, s1);
    more := [];
    if ready.Some? {
      var current := CurrentMarket(p, s2.hbt);
      var m := if current.Some? then current.value else market;
      if ready.value {
        more := CompleteSends(p, c, s2, signal, m, p.now(s.hbt), first, log);
        hide Continues;
      } else {
        more := FailSends(p, c, s2, signal, PostFirstFeedTimeout, m, p.now(s.hbt), first, None, log);
      }
    }
  }

  /** Whatever the engine answers: an execution sends the first leg at the touch of the market the signal
      came from, the second leg at the touch of the market decided on or through it by the configured
      ticks, and the flatten on the opposite side; sides, quantities and times in force by the leg. */
  lemma ExecutionSends<E(!new)>(
    p: Port<E>, c: HbtConfig, s: Run<E>, signal: Signal, market: PairMarket, log: E -> seq<Sent>)
    returns (orders: seq<Sent>)
    requires Finite(p) && KeepsLog(p, log) && ValidPair(c.pair)
    requires LegSide(signal, s.position, c.firstLeg).Some? && LegSide(signal, s.position, c.firstLeg.Other()).Some?
    ensures
      var t := ExecuteSignal(p, c, s, signal, market);
      && log(t.hbt) == log(s.hbt) + orders
      && |t.rows| == |s.rows| + 1
      && Sends(c, s.position, s.orderId, signal, market, t.rows[|s.rows|], orders)
  {
    hide SubmitRawLeg, LegRequest, KeepsLog, Finite, ExecuteSignal, CurrentMarket, FirstOrder, LegSide;
    var request := LegRequest(c, s.position, s.orderId + 1, signal, c.firstLeg, market, false);
    FirstRequestIs(c, s.position, s.orderId + 1, signal, market);
    SubmitLogs(p, c, s.hbt, request, log);
    var more: seq<Sent> := [];
    if SubmitFirst(p, c, s, signal, market).0.filled {
      more := FilledSends(p, c, s, signal, market, log);
      hide Continues;
    } else {
      UnfilledSends(p, c, s, signal, market);
    }
    orders := [Sent(request, CurrentMarket(p, s.hbt))] + more;
    assert orders[1..] == more;
  }
}
