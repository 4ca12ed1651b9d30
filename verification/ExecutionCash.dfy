/** What executions earn: realized profits are the cash of their orders, and an immediate exit realizes
    what the risk check estimated. */
module ExecutionCash {
  import opened Wrappers
  import opened Models
  import opened Strategy
  import opened Replay
  import opened OrderPrices
  import opened TradingRules

  // ---------------------------------------------------------------- cash of orders

  /** Cash from trading a quantity: negative for a purchase. */
  function Cash(side: Side, price: real, quantity: real): real {
    match side
    case Buy => -(price * quantity)
    case Sell => price * quantity
  }

  /** What a stock order costs on top: commission always, tax on a sale. */
  function StockCosts(pair: PairConfig, side: Side, price: real, quantity: real): real {
    var notional := price * quantity;
    notional * (pair.stockCommissionRate * pair.stockCommissionDiscount)
    + if side.Sell? then notional * pair.stockTransactionTaxRate else 0.0
  }

  /** What one pair moves on each leg: shares, and futures at the value of a point. */
  function Shares(pair: PairConfig, pairs: int): real { pair.spotOrderQty as real * pairs as real }

  function Points(pair: PairConfig, pairs: int): real {
    pair.futurePnlMultiplier as real * pair.futureOrderQty as real * pairs as real
  }

  /** Net cash of trading `pairs` pairs, the future on the other side of the stock. */
  function PairCash(pair: PairConfig, stockSide: Side, spot: real, future: real, pairs: int): real {
    Cash(stockSide, spot, Shares(pair, pairs)) + Cash(stockSide.Opposite(), future, Points(pair, pairs))
    - StockCosts(pair, stockSide, spot, Shares(pair, pairs))
  }

  lemma Multiplied(a: int, b: int, c: int)
    ensures (a * b) as real == a as real * b as real
    ensures (a * b * c) as real == a as real * b as real * c as real
  {
  }

  /** The realized profit of an exit, of either direction, is the net cash of opening at the entry
      prices and closing at the exit prices. */
  lemma ExitPnlIsCash(pair: PairConfig, position: PairPosition, exitSpot: real, exitFuture: real, pairs: int)
    requires position.entrySpotPrice.Some? && position.entryFuturePrice.Some?
    requires position.direction == EnterLong || position.direction == EnterShort
    ensures
      var opens := if position.direction == EnterLong then Buy else Sell;
      && ExitPnl(pair, position, exitSpot, exitFuture, pairs).Some?
      && ExitPnl(pair, position, exitSpot, exitFuture, pairs).value
         == PairCash(pair, opens, position.entrySpotPrice.value, position.entryFuturePrice.value, pairs)
            + PairCash(pair, opens.Opposite(), exitSpot, exitFuture, pairs)
  {
    var q, m := Shares(pair, pairs), Points(pair, pairs);
    Multiplied(pair.spotOrderQty, pairs, 1);
    Multiplied(pair.futurePnlMultiplier, pair.futureOrderQty, pairs);
    ExitPnlTerms(pair, position, exitSpot, exitFuture, pairs, q, m);
    hide ExitPnl, Shares, Points;
    var entrySpot, entryFuture := position.entrySpotPrice.value, position.entryFuturePrice.value;
    var c, t := pair.stockCommissionRate * pair.stockCommissionDiscount, pair.stockTransactionTaxRate;
    Spread(exitSpot, entrySpot, q);
    Spread(entryFuture, exitFuture, m);
    assert StockCosts(pair, Buy, entrySpot, q) == entrySpot * q * c;
    assert StockCosts(pair, Sell, entrySpot, q) == entrySpot * q * c + entrySpot * q * t;
    assert StockCosts(pair, Buy, exitSpot, q) == exitSpot * q * c;
    assert StockCosts(pair, Sell, exitSpot, q) == exitSpot * q * c + exitSpot * q * t;
    hide StockCosts;
  }

  lemma ExitPnlTerms(pair: PairConfig, position: PairPosition, exitSpot: real, exitFuture: real, pairs: int, q: real, m: real)
    requires position.entrySpotPrice.Some? && position.entryFuturePrice.Some?
    requires position.direction == EnterLong || position.direction == EnterShort
    requires q == (pair.spotOrderQty * pairs) as real
    requires m == (pair.futurePnlMultiplier * pair.futureOrderQty * pairs) as real
    ensures
      var entrySpot, entryFuture := position.entrySpotPrice.value, position.entryFuturePrice.value;
      var c, t := pair.stockCommissionRate * pair.stockCommissionDiscount, pair.stockTransactionTaxRate;
      && ExitPnl(pair, position, exitSpot, exitFuture, pairs).Some?
      && ExitPnl(pair, position, exitSpot, exitFuture, pairs).value
         == if position.direction == EnterLong
            then (exitSpot - entrySpot) * q + (entryFuture - exitFuture) * m
                 - (entrySpot * q * c + exitSpot * q * c) - exitSpot * q * t
            else (entrySpot - exitSpot) * q + (exitFuture - entryFuture) * m
                 - (entrySpot * q * c + exitSpot * q * c) - entrySpot * q * t
  {
  }

  lemma Spread(a: real, b: real, quantity: real)
    ensures (a - b) * quantity == a * quantity - b * quantity
    ensures (b - a) * quantity == b * quantity - a * quantity
    ensures -(a - b) * quantity == b * quantity - a * quantity
  {
  }

  /** The realized profit of a flatten is the cash of the first leg and of the order that closed it. */
  lemma FlattenPnlIsCash(pair: PairConfig, first: LegFill, flatten: LegFill)
    requires first.execPrice.Some? && flatten.execPrice.Some? && flatten.side == first.side.Opposite()
    ensures
      var quantity := if first.leg.Stock? then Shares(pair, 1) else Points(pair, 1);
      && FlattenPnl(pair, first, Some(flatten)).Some?
      && FlattenPnl(pair, first, Some(flatten)).value
         == Cash(first.side, first.execPrice.value, quantity) + Cash(flatten.side, flatten.execPrice.value, quantity)
  {
    Multiplied(pair.futurePnlMultiplier, pair.futureOrderQty, 1);
    var quantity := if first.leg.Stock? then Shares(pair, 1) else Points(pair, 1);
    FlattenPnlTerms(pair, first, flatten, quantity);
    hide FlattenPnl, Shares, Points;
    Spread(flatten.execPrice.value, first.execPrice.value, quantity);
  }

  lemma FlattenPnlTerms(pair: PairConfig, first: LegFill, flatten: LegFill, quantity: real)
    requires first.execPrice.Some? && flatten.execPrice.Some?
    requires quantity == (if first.leg.Stock? then pair.spotOrderQty else pair.futurePnlMultiplier * pair.futureOrderQty) as real
    ensures
      var a, b := flatten.execPrice.value, first.execPrice.value;
      && FlattenPnl(pair, first, Some(flatten)).Some?
      && FlattenPnl(pair, first, Some(flatten)).value == (if first.side.Buy? then a - b else -(a - b)) * quantity
  {
  }

  // ---------------------------------------------------------------- the estimated exit

  lemma PairCashLinear(pair: PairConfig, side: Side, spot: real, future: real, pairs: int)
    ensures PairCash(pair, side, spot, future, pairs) == pairs as real * PairCash(pair, side, spot, future, 1)
  {
    var n, q, m := pairs as real, pair.spotOrderQty as real, pair.futurePnlMultiplier as real * pair.futureOrderQty as real;
    var c, t := pair.stockCommissionRate * pair.stockCommissionDiscount, pair.stockTransactionTaxRate;
    Regroup(spot, q, n);
    Regroup(future, m, n);
    Regroup(spot * q, c, n);
    Regroup(spot * q, t, n);
    assert spot * (q * n) * c == n * (spot * q * c) by { Swap(spot, q, n, c); }
    assert spot * (q * n) * t == n * (spot * q * t) by { Swap(spot, q, n, t); }
  }

  lemma Together(n: real, a: real, b: real)
    ensures n * a + n * b == n * (a + b)
  {
  }

  lemma Regroup(x: real, q: real, n: real)
    ensures x * (q * n) == n * (x * q)
  {
  }

  lemma Swap(x: real, q: real, n: real, c: real)
    ensures x * (q * n) * c == n * (x * q * c)
  {
  }

  /** The risk check estimates the cash of the pairs that would close now, each leg at its touch. */
  lemma EstimateIsTouchCash(pair: PairConfig, market: PairMarket, position: PairPosition)
    requires EstimatedExitPnl(pair, market, position).Some?
    ensures position.entrySpotPrice.Some? && position.entryFuturePrice.Some?
    ensures
      var n := ExitQuantityMultiplier(pair, market, position);
      var closes := Trades(Exit, position, Stock);
      EstimatedExitPnl(pair, market, position).value
      == n as real * (PairCash(pair, closes.Opposite(), position.entrySpotPrice.value, position.entryFuturePrice.value, 1)
                      + PairCash(pair, closes, Touch(market.spot, closes), Touch(market.future, closes.Opposite()), 1))
  {
    hide PairCash, Touch, Trades, EstimatedExitPnl, ExitQuantityMultiplier, ExitPnl;
    var closes := Trades(Exit, position, Stock);
    EstimatePrices(pair, market, position, closes);
    ExitCashPerPair(pair, position, Touch(market.spot, closes), Touch(market.future, closes.Opposite()),
                    ExitQuantityMultiplier(pair, market, position), closes);
  }

  lemma ExitCashPerPair(pair: PairConfig, position: PairPosition, spot: real, future: real, n: int, closes: Side)
    requires position.entrySpotPrice.Some? && position.entryFuturePrice.Some?
    requires position.direction == if closes.Sell? then EnterLong else EnterShort
    ensures ExitPnl(pair, position, spot, future, n).Some?
    ensures ExitPnl(pair, position, spot, future, n).value
         == n as real * (PairCash(pair, closes.Opposite(), position.entrySpotPrice.value, position.entryFuturePrice.value, 1)
                         + PairCash(pair, closes, spot, future, 1))
  {
    hide PairCash, ExitPnl;
    var entrySpot, entryFuture := position.entrySpotPrice.value, position.entryFuturePrice.value;
    ExitPnlIsCash(pair, position, spot, future, n);
    PairCashLinear(pair, closes.Opposite(), entrySpot, entryFuture, n);
    PairCashLinear(pair, closes, spot, future, n);
    assert closes.Opposite().Opposite() == closes;
    Together(n as real, PairCash(pair, closes.Opposite(), entrySpot, entryFuture, 1), PairCash(pair, closes, spot, future, 1));
  }

  lemma EstimatePrices(pair: PairConfig, market: PairMarket, position: PairPosition, closes: Side)
    requires EstimatedExitPnl(pair, market, position).Some? && closes == Trades(Exit, position, Stock)
    ensures position.direction == if closes.Sell? then EnterLong else EnterShort
    ensures EstimatedExitPnl(pair, market, position)
         == ExitPnl(pair, position, Touch(market.spot, closes), Touch(market.future, closes.Opposite()),
                    ExitQuantityMultiplier(pair, market, position))
    ensures position.entrySpotPrice.Some? && position.entryFuturePrice.Some?
  {
    ExitPnlNeedsPrices(pair, market, position);
    EstimateByDirection(pair, market, position);
    hide EstimatedExitPnl, ExitPnl, ExitQuantityMultiplier;
    match closes
    case Sell => assert position.direction == EnterLong;
    case Buy => assert position.direction == EnterShort;
  }

  lemma EstimateByDirection(pair: PairConfig, market: PairMarket, position: PairPosition)
    requires EstimatedExitPnl(pair, market, position).Some?
    ensures position.direction == EnterLong || position.direction == EnterShort
    ensures position.direction == EnterLong ==>
      EstimatedExitPnl(pair, market, position)
      == ExitPnl(pair, position, market.spot.bid, market.future.ask, ExitQuantityMultiplier(pair, market, position))
    ensures position.direction == EnterShort ==>
      EstimatedExitPnl(pair, market, position)
      == ExitPnl(pair, position, market.spot.ask, market.future.bid, ExitQuantityMultiplier(pair, market, position))
  {
    DirectionOfExit(pair, market, position);
    hide ExitPnl, ExitQuantityMultiplier;
  }

  lemma DirectionOfExit(pair: PairConfig, market: PairMarket, position: PairPosition)
    requires ExitQuantityMultiplier(pair, market, position) > 0
    ensures position.direction == EnterLong || position.direction == EnterShort
  {
    hide BookPairCapacity;
  }

  lemma ExitPnlNeedsPrices(pair: PairConfig, market: PairMarket, position: PairPosition)
    requires EstimatedExitPnl(pair, market, position).Some?
    ensures position.entrySpotPrice.Some? && position.entryFuturePrice.Some?
  {
    hide ExitQuantityMultiplier;
  }

  // ---------------------------------------------------------------- an engine that fills what crosses

  /** At an engine with a market, an order fills exactly when it crosses the book it meets, at its own
      price, and leaves the book alone. */
  ghost predicate FillsAcross<E(!new)>(p: Port<E>, c: HbtConfig) { forall e, r :: AcrossBook(p, c, e, r) }

  ghost predicate AcrossBook<E>(p: Port<E>, c: HbtConfig, e: E, r: OrderRequest) {
    var (fill, e') := SubmitRawLeg(p, c, e, r);
    CurrentMarket(p, e).Some? ==>
      && (fill.filled <==> Crosses(CurrentMarket(p, e).value.QuoteOf(r.leg), r.side, r.price))
      && (fill.filled ==> fill.execPrice == Some(r.price))
      && CurrentMarket(p, e') == CurrentMarket(p, e)
  }

  /** The first leg always fills, at the touch. */
  lemma FirstLegFills<E(!new)>(p: Port<E>, c: HbtConfig, s: Run<E>, signal: Signal, market: PairMarket)
    requires FillsAcross(p, c) && ValidPair(c.pair) && LegSide(signal, s.position, c.firstLeg).Some?
    requires CurrentMarket(p, s.hbt) == Some(market)
    ensures
      var (fill, s1) := SubmitFirst(p, c, s, signal, market);
      && fill.filled && fill.leg == c.firstLeg && fill.side == Trades(signal, s.position, c.firstLeg)
      && fill.execPrice == Some(Touch(market.QuoteOf(c.firstLeg), fill.side) as real)
      && CurrentMarket(p, s1.hbt) == Some(market) && s1.position == s.position && s1.rows == s.rows
  {
    var r := LegRequest(c, s.position, s.orderId + 1, signal, c.firstLeg, market, false);
    LegRequestIs(c, s.position, s.orderId + 1, signal, c.firstLeg, market, false);
    assert AcrossBook(p, c, s.hbt, r);
    hide LegRequest, CurrentMarket, FillsAcross;
  }

  /** The second leg fills exactly when its price still crosses after the move and the rounding. */
  lemma SecondLegFillsIff<E(!new)>(p: Port<E>, c: HbtConfig, s: Run<E>, signal: Signal, market: PairMarket)
    requires FillsAcross(p, c) && ValidPair(c.pair) && LegSide(signal, s.position, c.firstLeg.Other()).Some?
    requires CurrentMarket(p, s.hbt) == Some(market)
    ensures
      var leg := c.firstLeg.Other();
      var (fill, s1) := SubmitSecond(p, c, s, signal, market);
      && fill.leg == leg && fill.side == Trades(signal, s.position, leg)
      && (fill.filled <==> c.pair.secondLegTickOffset <= 0.0
                           || Reaches(c.pair, leg, market.QuoteOf(leg), fill.side, c.pair.secondLegTickOffset))
      && (fill.filled ==> fill.execPrice.Some?)
      && (c.pair.secondLegTickOffset <= 0.0 ==> fill.execPrice == Some(Touch(market.QuoteOf(leg), fill.side) as real))
      && s1.position == s.position && s1.rows == s.rows
  {
    var leg := c.firstLeg.Other();
    var r := LegRequest(c, s.position, s.orderId + 1, signal, leg, market, true);
    LegRequestIs(c, s.position, s.orderId + 1, signal, leg, market, true);
    assert AcrossBook(p, c, s.hbt, r);
    hide LegRequest, CurrentMarket, FillsAcross, Reaches;
    if c.pair.secondLegTickOffset > 0.0 {
      ThroughCrossesIff(c.pair, leg, market.QuoteOf(leg), r.side, c.pair.secondLegTickOffset, r.price);
    }
    hide Through;
  }

  /** Without a delay or a wait between the legs. */
  predicate Immediate(c: HbtConfig) { c.secondLegDelayNs <= 0 && c.postFirstFeedWait.NoWait? }

  /** An immediate execution completes exactly when the recheck passes and the second leg crosses. */
  lemma ImmediateCompletesIff<E(!new)>(p: Port<E>, c: HbtConfig, s: Run<E>, signal: Signal, market: PairMarket)
    requires Finite(p) && FillsAcross(p, c) && ValidPair(c.pair) && Immediate(c)
    requires LegSide(signal, s.position, c.firstLeg).Some? && LegSide(signal, s.position, c.firstLeg.Other()).Some?
    requires CurrentMarket(p, s.hbt) == Some(market)
    ensures
      var t := ExecuteSignal(p, c, s, signal, market);
      var leg := c.firstLeg.Other();
      && |t.rows| == |s.rows| + 1
      && (t.rows[|s.rows|].status.Filled? <==>
            && (c.secondLegProfitCheck ==> SecondLegProfitOk(c.pair, s.position, signal, market))
            && (c.pair.secondLegTickOffset <= 0.0
                || Reaches(c.pair, leg, market.QuoteOf(leg), Trades(signal, s.position, leg), c.pair.secondLegTickOffset)))
  {
    FirstLegFills(p, c, s, signal, market);
    var (first, s1) := SubmitFirst(p, c, s, signal, market);
    assert BetweenLegs(p, c, s1) == (Some(true), s1);
    SecondLegFillsIff(p, c, s1, signal, market);
    hide SubmitRawLeg, LegRequest, CurrentMarket, FillsAcross, Reaches, SecondLegProfitOk, UpdatePosition, RealizedPnl, FlattenFirstLeg;
  }

  /** An exit that executes immediately at the market it was decided at realizes, per pair, what the
      risk check estimated there. */
  lemma ExitRealizesEstimate<E(!new)>(p: Port<E>, c: HbtConfig, s: Run<E>, market: PairMarket)
    requires Finite(p) && FillsAcross(p, c) && ValidPair(c.pair) && Immediate(c) && c.pair.secondLegTickOffset <= 0.0
    requires ValidPosition(s.position) && CurrentMarket(p, s.hbt) == Some(market)
    requires EstimatedExitPnl(c.pair, market, s.position).Some?
    requires LegSide(Exit, s.position, c.firstLeg).Some? && LegSide(Exit, s.position, c.firstLeg.Other()).Some?
    ensures
      var t := ExecuteSignal(p, c, s, Exit, market);
      && |t.rows| == |s.rows| + 1 && t.rows[|s.rows|].status.Filled?
      && t.rows[|s.rows|].realizedPnl.Some?
      && ExitQuantityMultiplier(c.pair, market, s.position) as real * t.rows[|s.rows|].realizedPnl.value
         == EstimatedExitPnl(c.pair, market, s.position).value
  {
    hide ExecuteSignal, CurrentMarket, FillsAcross, Finite, EstimatedExitPnl, ExitQuantityMultiplier, ExitPnl, PairCash, Touch, LegSide,
      ValidPair, ValidPosition, Immediate;
    var closes := Trades(Exit, s.position, Stock);
    EstimatePrices(c.pair, market, s.position, closes);
    EstimateIsTouchCash(c.pair, market, s.position);
    ExitRow(p, c, s, market);
    var spot, future := Touch(market.spot, closes), Touch(market.future, closes.Opposite());
    ExitPnlIsCash(c.pair, s.position, spot, future, 1);
  }

  lemma ExitRow<E(!new)>(p: Port<E>, c: HbtConfig, s: Run<E>, market: PairMarket)
    requires Finite(p) && FillsAcross(p, c) && ValidPair(c.pair) && Immediate(c) && c.pair.secondLegTickOffset <= 0.0
    requires CurrentMarket(p, s.hbt) == Some(market) && EstimatedExitPnl(c.pair, market, s.position).Some?
    requires LegSide(Exit, s.position, c.firstLeg).Some? && LegSide(Exit, s.position, c.firstLeg.Other()).Some?
    ensures
      var t := ExecuteSignal(p, c, s, Exit, market);
      var closes := Trades(Exit, s.position, Stock);
      && |t.rows| == |s.rows| + 1 && t.rows[|s.rows|].status.Filled?
      && t.rows[|s.rows|].realizedPnl
         == ExitPnl(c.pair, s.position, Touch(market.spot, closes), Touch(market.future, closes.Opposite()), 1)
  {
    FirstLegFills(p, c, s, Exit, market);
    var (first, s1) := SubmitFirst(p, c, s, Exit, market);
    assert BetweenLegs(p, c, s1) == (Some(true), s1);
    SecondLegFillsIff(p, c, s1, Exit, market);
    var (second, s2) := SubmitSecond(p, c, s1, Exit, market);
    ExitProfitOk(c, s, market);
    var closes := Trades(Exit, s.position, Stock);
    assert FillOf(Stock, first, second).execPrice == Some(Touch(market.spot, closes) as real);
    assert FillOf(Future, first, second).execPrice == Some(Touch(market.future, closes.Opposite()) as real);
    hide SubmitRawLeg, LegRequest, CurrentMarket, FillsAcross, Reaches, SecondLegProfitOk, UpdatePosition, FlattenFirstLeg, EstimatedExitPnl,
      ExitPnl, FillOf, SubmitFirst, SubmitSecond, Touch, Trades, BetweenLegs, Finite, PriceMarket;
  }

  lemma ExitProfitOk<E>(c: HbtConfig, s: Run<E>, market: PairMarket)
    requires ValidPair(c.pair) && EstimatedExitPnl(c.pair, market, s.position).Some?
    ensures SecondLegProfitOk(c.pair, s.position, Exit, market)
  {
    hide ExitQuantityMultiplier, PriceMarket;
  }
}
