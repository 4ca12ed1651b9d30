/** The backtester object: its methods update the position, rows, order counter and engine in
    place, and each is proved to compute the corresponding replay function. */
module Backtester {
  import opened Wrappers
  import opened Models
  import opened Strategy
  import opened Scanner
  import opened Replay
  import opened ScannedReplay
  import opened CoordinatedSession

  class HbtPairBacktester<E(!new)> {
    const port: Port<E>
    const config: HbtConfig
    var hbt: E
    var position: PairPosition
    var orderId: int
    var rows: seq<TradeRow>
    var marketRows: seq<MarketRow>
    var coordinatedStep: nat
    var coordinatedPending: Option<Pending>
    var coordinatedLastMarket: Option<PairMarket>

    ghost predicate Valid() { Finite(port) && ValidConfig(config) }

    /** The fields as a value; `step` and `last` are locals of the loops. */
    function State(step: nat, last: Option<PairMarket>): Run<E>
      reads this
    {
      Run(hbt, step, position, orderId, rows, marketRows, last)
    }

    constructor (port: Port<E>, config: HbtConfig, hbt: E)
      requires Finite(port) && ValidConfig(config)
      ensures Valid() && this.port == port && this.config == config
      ensures State(0, None) == Start(config, hbt)
      ensures coordinatedPending.None? && coordinatedStep == 0 && coordinatedLastMarket.None?
    {
      this.port := port;
      this.config := config;
      this.hbt := hbt;
      position := BuildInitialPosition(config.pair);
      orderId := 1_000_000;
      rows := [];
      marketRows := [];
      coordinatedStep := 0;
      coordinatedPending := None;
      coordinatedLastMarket := None;
    }

    method NextOrderId() returns (id: int)
      modifies this`orderId
      ensures id == orderId == old(orderId) + 1
    {
      orderId := orderId + 1;
      id := orderId;
    }

    method SubmitRawLeg(leg: Leg, side: Side, price: real, quantity: real, timeInForce: TimeInForce) returns (fill: LegFill)
      modifies this`hbt, this`orderId
      ensures orderId == old(orderId) + 1
      ensures (fill, hbt)
           == Replay.SubmitRawLeg(port, config, old(hbt), OrderRequest(leg, orderId, side, price, quantity, timeInForce))
    {
      var id := NextOrderId();
      var (code, e1) := port.submitLimit(hbt, OrderRequest(leg, id, side, price, quantity, timeInForce));
      hbt := e1;
      var (response, e2) := port.waitOrderResponse(hbt, leg, id, config.responseTimeoutNs);
      hbt := e2;
      var order := port.order(hbt, leg, id);
      var filled := order.Some? && order.value.execQty > 0.0;
      fill := LegFill(leg, side, id, price, quantity, if code == 0 then response else code, filled, None, 0.0, None, None);
      if order.Some? {
        fill := fill.(
          execPrice := if order.value.execPrice > 0.0 then Some(order.value.execPrice) else None,
          execQty := order.value.execQty,
          localTimestamp := Some(order.value.localTimestamp),
          exchTimestamp := Some(order.value.exchTimestamp));
      }
      if !filled && order.Some? && order.value.active {
        hbt := port.cancelActiveOrder(hbt, leg, id, config.responseTimeoutNs);
      }
      hbt := port.clearInactiveOrders(hbt, leg);
    }

    method FlattenFirstLeg(signal: Signal, market: PairMarket, ghost step: nat, ghost last: Option<PairMarket>) returns (fill: Option<LegFill>)
      requires Valid() && LegSide(signal, position, config.firstLeg).Some?
      modifies this`hbt, this`orderId
      ensures (fill, State(step, last)) == Replay.FlattenFirstLeg(port, config, old(State(step, last)), signal, market)
    {
      if !config.flattenOnSecondLegFailure {
        return None;
      }
      var request := FlattenRequest(config, position, orderId + 1, signal, market);
      var raw := SubmitRawLeg(request.leg, request.side, request.price, request.quantity, request.timeInForce);
      fill := Some(raw);
    }

    /** The polling loop of the post-first feed wait. */
    method WaitPostFirstFeed() returns (ready: bool)
      requires Valid()
      modifies this`hbt
      ensures (ready, hbt) == Replay.WaitPostFirstFeed(port, config, old(hbt))
    {
      if config.postFirstFeedWait.NoWait? {
        return true;
      }
      var spot, future := port.feedLatency(hbt, Stock), port.feedLatency(hbt, Future);
      if FeedReady(port, config.postFirstFeedWait, spot, future, hbt) {
        return true;
      }
      var deadline := port.now(hbt) + MaxInt(0, config.postFirstFeedTimeoutNs);
      while port.now(hbt) < deadline
        invariant PollFeeds(port, config, spot, future, deadline, hbt) == PollFeeds(port, config, spot, future, deadline, old(hbt))
        decreases port.remaining(hbt)
      {
        var (ok, e) := port.advance(hbt, MinInt(MaxInt(1, config.postFirstFeedPollNs), deadline - port.now(hbt)));
        hbt := e;
        if !ok {
          return false;
        }
        if FeedReady(port, config.postFirstFeedWait, spot, future, hbt) {
          return true;
        }
      }
      ready := FeedReady(port, config.postFirstFeedWait, spot, future, hbt);
    }

    method ReducePositionAfterExit()
      modifies this`position
      ensures position == ReducePosition(old(position))
    {
      if position.direction == EnterLong {
        position := position.(stockUnits := MaxInt(position.stockUnits - 1, 0), futureUnits := MaxInt(position.futureUnits - 1, 0));
      } else if position.direction == EnterShort {
        position := position.(stockUnits := MinInt(position.stockUnits + 1, 0), futureUnits := MinInt(position.futureUnits + 1, 0));
      }
      var magnitude := if position.quantity < 0 then -position.quantity else position.quantity;
      position := position.(quantity := MaxInt(magnitude - 1, 0));
      if position.quantity <= 0 {
        position := position.(quantity := 0, direction := Hold, entryBasisPct := None, entrySpotPrice := None,
                              entryFuturePrice := None, stockUnits := 0, futureUnits := 0);
      }
    }

    method UpdatePosition(signal: Signal, first: LegFill, second: LegFill, pricing: PairPricing)
      requires signal != Hold
      modifies this`position
      ensures position == Replay.UpdatePosition(old(position), signal, first, second, pricing)
    {
      var spotPrice, futurePrice := FillOf(Stock, first, second).execPrice, FillOf(Future, first, second).execPrice;
      if spotPrice.None? || futurePrice.None? {
        return;
      }
      if signal == Exit {
        ReducePositionAfterExit();
        return;
      }
      var held := if position.quantity < 0 then -position.quantity else position.quantity;
      position := position.(direction := signal);
      if signal == EnterLong {
        position := position.(entryBasisPct := Some(WeightedAverage(position.entryBasisPct, held, pricing.longPct, 1)),
                              stockUnits := position.stockUnits + 1, futureUnits := position.futureUnits + 1);
      } else {
        position := position.(entryBasisPct := Some(WeightedAverage(position.entryBasisPct, held, -pricing.shortPct, 1)),
                              stockUnits := position.stockUnits - 1, futureUnits := position.futureUnits - 1);
      }
      position := position.(
        entrySpotPrice := Some(WeightedAverage(position.entrySpotPrice, held, spotPrice.value, 1)),
        entryFuturePrice := Some(WeightedAverage(position.entryFuturePrice, held, futurePrice.value, 1)),
        lastEntryTime := if first.localTimestamp.None? then None else Some(first.localTimestamp.value as real / 1_000_000_000.0),
        quantity := held + 1);
    }

    method AppendExecutionRow(
      step: nat, signal: Signal, status: Status, market: PairMarket, reason: Option<Reason>, signalTimestamp: Option<int>,
      first: Option<LegFill>, second: Option<LegFill>, flatten: Option<LegFill>, realizedPnl: Option<real>,
      ghost last: Option<PairMarket>)
      modifies this`rows
      ensures State(step, last)
           == AppendRow(port, old(State(step, last)), signal, status, market, reason, signalTimestamp, first, second, flatten, realizedPnl)
    {
      rows := rows + [TradeRow(port.now(hbt), step, signal, status, market, position.quantity, position.direction,
                               reason, signalTimestamp, first, second, flatten, realizedPnl)];
    }

    method RecordMarketRow(step: nat, market: PairMarket, signal: Signal, force: bool, ghost last: Option<PairMarket>)
      modifies this`marketRows
      ensures State(step, last) == Replay.RecordMarketRow(port, config, old(State(step, last)), market, signal, force)
    {
      if !force && !PeriodicStep(config, step) && signal == Hold {
        return;
      }
      marketRows := marketRows + [MarketRow(port.now(hbt), step, market, signal, position.quantity, position.direction)];
    }

    method RecordFinalMarket(step: nat, last: Option<PairMarket>)
      modifies this`marketRows
      ensures State(step, last) == Replay.RecordFinalMarket(port, config, old(State(step, last)))
    {
      if last.None? {
        return;
      }
      if marketRows == [] || marketRows[|marketRows| - 1].step != step {
        RecordMarketRow(step, last.value, Hold, true, last);
      }
    }

    /** The flatten-and-record tail that three failure paths share. */
    method FailSecondLeg(
      step: nat, signal: Signal, status: Status, market: PairMarket, signalTimestamp: int, first: LegFill, second: Option<LegFill>,
      ghost last: Option<PairMarket>)
      requires Valid() && LegSide(signal, position, config.firstLeg).Some?
      modifies this`hbt, this`orderId, this`rows
      ensures State(step, last)
           == Replay.FailSecondLeg(port, config, old(State(step, last)), signal, status, market, signalTimestamp, first, second)
    {
      var flatten := FlattenFirstLeg(signal, market, step, last);
      var realized := FlattenPnl(config.pair, first, flatten);
      if status.SecondLegProfitCheckFailed? {
        AppendExecutionRow(step, signal, status, market, None, Some(signalTimestamp), Some(first), flatten, None, realized, last);
      } else {
        AppendExecutionRow(step, signal, status, market, None, Some(signalTimestamp), Some(first), second, flatten, realized, last);
      }
    }

    /** The delay and the feed wait between the legs: None when the data ends during the delay. */
    method WaitBetweenLegs(ghost step: nat, ghost last: Option<PairMarket>) returns (ready: Option<bool>)
      requires Valid()
      modifies this`hbt
      ensures (ready, State(step, last)) == BetweenLegs(port, config, old(State(step, last)))
    {
      if config.secondLegDelayNs > 0 {
        var (ok, e) := port.advance(hbt, config.secondLegDelayNs);
        hbt := e;
        if !ok {
          return None;
        }
      }
      var refreshed := WaitPostFirstFeed();
      ready := Some(refreshed);
    }

    method ExecuteSignal(step: nat, signal: Signal, signalMarket: PairMarket, ghost last: Option<PairMarket>)
      requires Valid() && signal != Hold
      requires LegSide(signal, position, config.firstLeg).Some? && LegSide(signal, position, config.firstLeg.Other()).Some?
      modifies this`hbt, this`orderId, this`rows, this`position
      ensures State(step, last) == Replay.ExecuteSignal(port, config, old(State(step, last)), signal, signalMarket)
    {
      var signalTimestamp := port.now(hbt);
      var request := LegRequest(config, position, orderId + 1, signal, config.firstLeg, signalMarket, false);
      var first := SubmitRawLeg(request.leg, request.side, request.price, request.quantity, request.timeInForce);
      assert (first, State(step, last)) == SubmitFirst(port, config, old(State(step, last)), signal, signalMarket);
      if !first.filled {
        AppendExecutionRow(step, signal, FirstLegUnfilled, signalMarket, None, Some(signalTimestamp), Some(first), None, None, None, last);
        return;
      }
      var ready := WaitBetweenLegs(step, last);
      if ready.None? {
        AppendExecutionRow(step, signal, SecondLegDelayEndOfData, signalMarket, None, Some(signalTimestamp), Some(first), None, None, None, last);
        return;
      }
      var current := CurrentMarket(port, hbt);
      var market := if current.Some? then current.value else signalMarket;
      if ready.value {
        CompletePair(step, signal, market, signalTimestamp, first, last);
      } else {
        FailSecondLeg(step, signal, PostFirstFeedTimeout, market, signalTimestamp, first, None, last);
      }
    }

    /** The recheck and the second leg. */
    method CompletePair(step: nat, signal: Signal, market: PairMarket, signalTimestamp: int, first: LegFill,
                        ghost last: Option<PairMarket>)
      requires Valid() && signal != Hold
      requires LegSide(signal, position, config.firstLeg).Some? && LegSide(signal, position, config.firstLeg.Other()).Some?
      modifies this`hbt, this`orderId, this`rows, this`position
      ensures State(step, last)
           == Replay.CompletePair(port, config, old(State(step, last)), signal, market, signalTimestamp, first)
    {
      hide Replay.SubmitRawLeg, Replay.FailSecondLeg, Replay.UpdatePosition, SecondLegProfitOk, RealizedPnl, Finite;
      if config.secondLegProfitCheck && !SecondLegProfitOk(config.pair, position, signal, market) {
        FailSecondLeg(step, signal, SecondLegProfitCheckFailed, market, signalTimestamp, first, None, last);
        return;
      }
      var request := LegRequest(config, position, orderId + 1, signal, config.firstLeg.Other(), market, true);
      var second := SubmitRawLeg(request.leg, request.side, request.price, request.quantity, request.timeInForce);
      if !second.filled {
        FailSecondLeg(step, signal, SecondLegUnfilled, market, signalTimestamp, first, Some(second), last);
        return;
      }
      var realized := RealizedPnl(config.pair, position, signal, first, second);
      UpdatePosition(signal, first, second, PriceMarket(config.pair, market));
      AppendExecutionRow(step, signal, Filled, market, None, Some(signalTimestamp), Some(first), Some(second), None, realized, last);
    }

    // -------------------------------------------------------------- run loops

    /** Act on one market: record it, then skip or execute what the strategy decides. */
    method VisitMarket(step: nat, market: PairMarket, ghost last: Option<PairMarket>)
      requires Valid() && CurrentMarket(port, hbt) == Some(market)
      modifies this`hbt, this`orderId, this`rows, this`marketRows, this`position
      ensures State(step, Some(market)) == Visit(port, config, old(State(step, last)))
    {
      var d := Decide(config.pair, market, PriceMarket(config.pair, market), position, config.enforceRiskLimits);
      RecordMarketRow(step, market, d.action, false, Some(market));
      if d.action == Hold {
        return;
      }
      if !d.shouldExecute {
        AppendExecutionRow(step, d.action, RiskSkip, market, Some(d.reason), None, None, None, None, None, Some(market));
        return;
      }
      ExecuteSignal(step, d.action, market, Some(market));
    }

    predicate Stopped(step: nat)
      reads this
    {
      || (config.maxSteps.Some? && step >= config.maxSteps.value)
      || (config.maxTrades.Some? && |rows| >= config.maxTrades.value)
    }

    /** _run_python. */
    method RunPython() returns (step: nat, last: Option<PairMarket>)
      requires Valid()
      modifies this`hbt, this`orderId, this`rows, this`marketRows, this`position
      ensures State(step, last) == RunPlain(port, config, old(State(0, None)))
    {
      hide PlainLoop, Visit, CurrentMarket, Replay.RecordFinalMarket;
      step, last := 0, None;
      ghost var target := PlainLoop(port, config, State(0, None));
      while !Stopped(step)
        invariant PlainLoop(port, config, State(step, last)) == target
        decreases port.remaining(hbt)
      {
        ghost var start := State(step, last);
        PlainLoopNext(port, config, start);
        var (ok, e) := AdvanceClock(port, config, hbt);
        hbt := e;
        if !ok {
          assert State(step, last) == target;
          break;
        }
        step := step + 1;
        ghost var before := State(step, last);
        NoMarketNoVisit(port, config, before);
        var current := CurrentMarket(port, hbt);
        if current.Some? {
          VisitMarket(step, current.value, last);
          last := current;
        }
        VisitConsumes(port, config, before);
      }
      PlainLoopEnds(port, config, State(step, last));
      assert State(step, last) == target;
      RecordFinalMarket(step, last);
    }

    /** scan_until_wakeup over the engine. */
    method ScanUntilWakeup(q: ScanParameters, startStep: nat, limit: int)
      returns (reason: WakeReason, step: nat, code: int, snapshot: Snapshot)
      requires Valid() && q.spotShares > 0 && q.futureShares > 0
      modifies this`hbt
      ensures Wake(reason, step, code, snapshot, hbt)
           == Scan(port, q, config.stepNs, Interval(config), limit, old(hbt), startStep, 0, NO_SNAPSHOT)
    {
      step, snapshot := startStep, NO_SNAPSHOT;
      var advanced := 0;
      while limit < 0 || advanced < limit
        invariant advanced >= 0
        invariant Scan(port, q, config.stepNs, Interval(config), limit, hbt, step, advanced, snapshot)
               == Scan(port, q, config.stepNs, Interval(config), limit, old(hbt), startStep, 0, NO_SNAPSHOT)
        decreases port.remaining(hbt)
      {
        var (ok, e) := port.advance(hbt, config.stepNs);
        hbt := e;
        if !ok {
          return EndOfData, step, SIGNAL_HOLD, snapshot;
        }
        step, advanced := step + 1, advanced + 1;
        var spot, future := port.depth(hbt, Stock), port.depth(hbt, Future);
        if spot.Some? && future.Some? {
          snapshot := TakeSnapshot(port, hbt, snapshot, spot.value, future.value);
          code := SignalFromPricing(q, PricingFromBbo(q, spot.value.bid, spot.value.ask, future.value.bid, future.value.ask, port.now(hbt)));
          if code != SIGNAL_HOLD {
            return SignalFound, step, code, snapshot;
          }
          if Interval(config) > 0 && step % Interval(config) == 0 {
            return PeriodicRecord, step, SIGNAL_HOLD, snapshot;
          }
        }
      }
      reason, code := MaxSteps, SIGNAL_HOLD;
    }

    /** The scanner-driven loop; `failed` stands for the raised signal mismatch. */
    method DriveScanner() returns (step: nat, last: Option<PairMarket>, failed: bool)
      requires Valid()
      modifies this`hbt, this`orderId, this`rows, this`marketRows, this`position
      ensures ScannedLoop(port, config, old(State(0, None))) == if failed then Err(SignalMismatch) else Ok(State(step, last))
    {
      hide Decide, PriceMarket, Visit, Scan, SignalFromCode, MarketFromSnapshot;
      step, last, failed := 0, None, false;
      ghost var target := ScannedLoop(port, config, State(0, None));
      while !Stopped(step)
        invariant ScannedLoop(port, config, State(step, last)) == target
        decreases port.remaining(hbt)
      {
        ghost var before := State(step, last);
        var limit := if config.maxSteps.Some? then config.maxSteps.value - step else -1;
        var reason, wakeStep, code, snapshot := ScanUntilWakeup(ParametersOf(config.pair, position), step, limit);
        step := wakeStep;
        assert target == AfterWake(port, config, before, Wake(reason, step, code, snapshot, hbt));
        if reason.EndOfData? || reason.MaxSteps? {
          var market := MarketFromSnapshot(snapshot);
          if market.Some? {
            last := market;
          }
          return;
        }
        ghost var woken := State(step, last);
        var current := CurrentMarket(port, hbt);
        if current.Some? {
          var d := Decide(config.pair, current.value, PriceMarket(config.pair, current.value), position, config.enforceRiskLimits);
          if Some(d.action) != SignalFromCode(code) {
            failed := true;
            return;
          }
          VisitMarket(step, current.value, last);
          last := current;
        }
        VisitConsumes(port, config, woken);
      }
    }

    /** _run_numba. The mismatch never happens when the clock is unambiguous, and then everything but
        the forced final market row is the plain run's; over uncrossed books that row is too. */
    method RunNumba() returns (step: nat, last: Option<PairMarket>, failed: bool)
      requires Valid()
      modifies this`hbt, this`orderId, this`rows, this`marketRows, this`position
      ensures RunScanned(port, config, old(State(0, None))) == if failed then Err(SignalMismatch) else Ok(State(step, last))
      ensures !config.eventClock && UnambiguousClock(port) ==>
        !failed && State(step, None).(marketRows := []) == RunPlain(port, config, old(State(0, None))).(marketRows := [], last := None)
      ensures !config.eventClock && UnambiguousClock(port) && SnapshotFaithful(port) ==>
        !failed && State(step, last) == RunPlain(port, config, old(State(0, None)))
    {
      ghost var start := State(0, None);
      step, last, failed := DriveScanner();
      if !failed {
        RecordFinalMarket(step, last);
      }
      if !config.eventClock && UnambiguousClock(port) {
        ScannerRefinesPlainLoop(port, config, start);
        if SnapshotFaithful(port) {
          ScannedRunEqualsPlainRun(port, config, start);
        }
      }
    }

    // -------------------------------------------------------------- coordinated sessions

    function CoordinatedState(): Run<E>
      reads this
    {
      State(coordinatedStep, coordinatedLastMarket)
    }

    /** A pending event was taken at the engine's present time for the present position. */
    ghost predicate PendingFits()
      reads this
    {
      coordinatedPending.Some? ==> Answers(port, CoordinatedState(), coordinatedPending.value)
    }

    /** advance_coordinated_event_session, which raises when an event is still pending. */
    method AdvanceCoordinated() returns (event: Option<CoordinatedEvent>)
      requires Valid() && coordinatedPending.None?
      modifies this`hbt, this`marketRows, this`coordinatedStep, this`coordinatedPending, this`coordinatedLastMarket
      ensures (coordinatedPending, CoordinatedState()) == AdvanceSession(port, config, old(CoordinatedState()))
      ensures PendingFits()
      ensures event == if coordinatedPending.Some? then Some(coordinatedPending.value.event) else None
    {
      hide Answers, Decide, PriceMarket, CurrentMarket;
      AdvanceAnswers(port, config, CoordinatedState());
      if Stopped(coordinatedStep) {
        return None;
      }
      var (ok, e) := port.advanceToNextFeed(hbt);
      hbt := e;
      if !ok {
        return None;
      }
      coordinatedStep := coordinatedStep + 1;
      var current := CurrentMarket(port, hbt);
      if current.None? {
        var none := CoordinatedEvent(port.now(hbt), Hold, false, HoldReason);
        coordinatedPending := Some(Pending(none, None, Decision(Hold, false, HoldReason)));
        return Some(none);
      }
      coordinatedLastMarket := current;
      var d := Decide(config.pair, current.value, PriceMarket(config.pair, current.value), position, config.enforceRiskLimits);
      RecordMarketRow(coordinatedStep, current.value, d.action, false, current);
      var found := CoordinatedEvent(port.now(hbt), d.action, d.shouldExecute, d.reason);
      coordinatedPending := Some(Pending(found, current, d));
      event := Some(found);
    }

    /** resolve_coordinated_event_session; returns whether an entry filled. */
    method ResolveCoordinated(blocked: bool) returns (filled: bool)
      requires Valid() && coordinatedPending.Some? && PendingFits()
      modifies this`hbt, this`orderId, this`rows, this`position, this`coordinatedPending
      ensures coordinatedPending.None?
      ensures (filled, CoordinatedState())
           == ResolveSession(port, config, old(CoordinatedState()), old(coordinatedPending.value), blocked)
    {
      var Pending(event, market, decision) := coordinatedPending.value;
      coordinatedPending := None;
      if market.None? || event.signal == Hold {
        return false;
      }
      if !decision.shouldExecute {
        AppendExecutionRow(coordinatedStep, event.signal, RiskSkip, market.value, Some(decision.reason), None, None, None, None, None,
                           coordinatedLastMarket);
        return false;
      }
      if blocked {
        AppendExecutionRow(coordinatedStep, event.signal, RiskSkip, market.value, Some(SharedCooldown), None, None, None, None, None,
                           coordinatedLastMarket);
        return false;
      }
      var previousRows := |rows|;
      ExecuteSignal(coordinatedStep, event.signal, market.value, coordinatedLastMarket);
      filled := IsEntry(event.signal) && |rows| > previousRows && rows[|rows| - 1].status.Filled?;
    }
  }
}
