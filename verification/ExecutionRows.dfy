/** What a run does step by step: its rows say what happened when, the second leg waits for what it is
    configured to, no unfilled order is left behind, and the run stops at its bounds. */
module ExecutionRows {
  import opened Wrappers
  import opened Models
  import opened Strategy
  import opened Replay
  import opened TradingRules

  // ---------------------------------------------------------------- rows

  /** One row was appended that describes the execution; only a filled pair moved the position. */
  predicate Wrote<E>(p: Port<E>, s: Run<E>, t: Run<E>, signal: Signal, start: int) {
    && |t.rows| == |s.rows| + 1 && t.rows[..|s.rows|] == s.rows
    && t.marketRows == s.marketRows && t.last == s.last && t.step == s.step
    && var row := t.rows[|s.rows|];
       && row.timestamp == p.now(t.hbt) && row.step == s.step && row.signal == signal && row.signalTimestamp == Some(start)
       && row.quantity == t.position.quantity && row.direction == t.position.direction && row.reason.None?
       && (!row.status.Filled? ==> t.position == s.position)
  }

  lemma FailWrites<E(!new)>(
    p: Port<E>, c: HbtConfig, s: Run<E>, signal: Signal, status: Status, market: PairMarket, t: int, first: LegFill,
    second: Option<LegFill>)
    requires ValidPair(c.pair) && LegSide(signal, s.position, c.firstLeg).Some? && !status.Filled?
    ensures Wrote(p, s, FailSecondLeg(p, c, s, signal, status, market, t, first, second), signal, t)
  {
    hide SubmitRawLeg, FlattenRequest, FlattenPnl, LegSide;
  }

  lemma CompleteWrites<E(!new)>(
    p: Port<E>, c: HbtConfig, s: Run<E>, signal: Signal, market: PairMarket, t: int, first: LegFill)
    requires ValidPair(c.pair)
    requires LegSide(signal, s.position, c.firstLeg).Some? && LegSide(signal, s.position, c.firstLeg.Other()).Some?
    ensures Wrote(p, s, CompletePair(p, c, s, signal, market, t, first), signal, t)
  {
    hide SubmitRawLeg, LegRequest, FailSecondLeg, SecondLegProfitOk, UpdatePosition, RealizedPnl, PriceMarket, LegSide;
    if c.secondLegProfitCheck && !SecondLegProfitOk(c.pair, s.position, signal, market) {
      FailWrites(p, c, s, signal, SecondLegProfitCheckFailed, market, t, first, None);
    } else {
      var (second, s1) := SubmitSecond(p, c, s, signal, market);
      if !second.filled { FailWrites(p, c, s1, signal, SecondLegUnfilled, market, t, first, Some(second)); }
    }
  }

  lemma ExecutionDescribes<E(!new)>(p: Port<E>, c: HbtConfig, s: Run<E>, signal: Signal, market: PairMarket)
    requires Finite(p) && ValidPair(c.pair)
    requires LegSide(signal, s.position, c.firstLeg).Some? && LegSide(signal, s.position, c.firstLeg.Other()).Some?
    ensures Wrote(p, s, ExecuteSignal(p, c, s, signal, market), signal, p.now(s.hbt))
  {
    hide SubmitRawLeg, LegRequest, FailSecondLeg, CompletePair, BetweenLegs, CurrentMarket, Finite, LegSide;
    var (first, s1) := SubmitFirst(p, c, s, signal, market);
    if first.filled {
      var (ready, s2) := BetweenLegs(p, c, s1);
      if ready.Some? {
        var current := CurrentMarket(p, s2.hbt);
        var m := if current.Some? then current.value else market;
        if ready.value {
          CompleteWrites(p, c, s2, signal, m, p.now(s.hbt), first);
        } else {
          FailWrites(p, c, s2, signal, PostFirstFeedTimeout, m, p.now(s.hbt), first, None);
        }
      }
    }
  }

  /** One visit: a market row for a signal or a periodic step, written before acting; a skip row with its
      reason for a signal the risk check stops; an execution for one it does not. */
  lemma VisitRecords<E(!new)>(p: Port<E>, c: HbtConfig, s: Run<E>, market: PairMarket)
    requires Finite(p) && ValidPair(c.pair) && CurrentMarket(p, s.hbt) == Some(market)
    ensures
      var t, d := Visit(p, c, s), DecideRun(c, s, market);
      var periodic := c.recordMarketEverySteps.Some? && c.recordMarketEverySteps.value > 0 && s.step % c.recordMarketEverySteps.value == 0;
      && t.last == Some(market)
      && t.marketRows == (if periodic || d.action != Hold
                          then s.marketRows + [MarketRow(p.now(s.hbt), s.step, market, d.action, s.position.quantity, s.position.direction)]
                          else s.marketRows)
      && (d.action == Hold ==> t.rows == s.rows && t.hbt == s.hbt && t.position == s.position)
      && (d.action != Hold && !d.shouldExecute ==>
            && t.hbt == s.hbt && t.position == s.position
            && |t.rows| == |s.rows| + 1 && t.rows[..|s.rows|] == s.rows
            && t.rows[|s.rows|].status.RiskSkip? && t.rows[|s.rows|].signal == d.action && t.rows[|s.rows|].market == market
            && t.rows[|s.rows|].reason == Some(d.reason) && t.rows[|s.rows|].first.None?)
      && (d.action != Hold && d.shouldExecute ==>
            && |t.rows| == |s.rows| + 1 && t.rows[..|s.rows|] == s.rows
            && t.rows[|s.rows|].signal == d.action && t.rows[|s.rows|].signalTimestamp == Some(p.now(s.hbt))
            && t.rows[|s.rows|].quantity == t.position.quantity && t.rows[|s.rows|].timestamp == p.now(t.hbt))
  {
    var d := DecideRun(c, s, market);
    hide ExecuteSignal, Finite, CurrentMarket, DecideRun;
    var s1 := RecordMarketRow(p, c, s.(last := Some(market)), market, d.action, false);
    if d.action != Hold && d.shouldExecute {
      ExecutionDescribes(p, c, s1, d.action, market);
    }
  }

  // ---------------------------------------------------------------- how far a run goes

  lemma VisitAddsOneRow<E(!new)>(p: Port<E>, c: HbtConfig, s: Run<E>)
    requires Finite(p) && ValidPair(c.pair)
    ensures |s.rows| <= |Visit(p, c, s).rows| <= |s.rows| + 1 && Visit(p, c, s).step == s.step
  {
    var current := CurrentMarket(p, s.hbt);
    if current.Some? { VisitRecords(p, c, s, current.value); VisitKeepsStep(p, c, s); } else { NoMarketNoVisit(p, c, s); }
    hide Visit, CurrentMarket;
  }

  lemma VisitKeepsStep<E(!new)>(p: Port<E>, c: HbtConfig, s: Run<E>)
    requires Finite(p) && ValidPair(c.pair)
    ensures Visit(p, c, s).step == s.step
  {
    var current := CurrentMarket(p, s.hbt);
    if current.Some? {
      var d := DecideRun(c, s, current.value);
      hide ExecuteSignal, Finite, DecideRun;
      var s1 := RecordMarketRow(p, c, s.(last := current), current.value, d.action, false);
      if d.action != Hold && d.shouldExecute { ExecutionDescribes(p, c, s1, d.action, current.value); }
    }
  }

  /** The engine has no more data. */
  ghost predicate OutOfData<E(!new)>(p: Port<E>, c: HbtConfig, e: E) {
    exists before :: Ends(p, c, before, e)
  }

  predicate Ends<E(==)>(p: Port<E>, c: HbtConfig, before: E, e: E) {
    var (ok, after) := if c.eventClock then p.advanceToNextFeed(before) else p.advance(before, c.stepNs);
    !ok && e == after
  }

  /** A run takes at most its steps and trades, and stops short of both only at the end of the data. */
  lemma {:induction false} RunStopsAtBounds<E(!new)>(p: Port<E>, c: HbtConfig, s: Run<E>)
    requires Finite(p) && ValidConfig(c)
    ensures
      var t := PlainLoop(p, c, s);
      && (c.maxSteps.Some? ==> t.step <= MaxInt(s.step, c.maxSteps.value))
      && (c.maxTrades.Some? ==> |t.rows| <= MaxInt(|s.rows|, c.maxTrades.value))
      && ((c.maxSteps.Some? && t.step >= c.maxSteps.value) || (c.maxTrades.Some? && |t.rows| >= c.maxTrades.value)
          || OutOfData(p, c, t.hbt))
    decreases p.remaining(s.hbt)
  {
    hide Visit;
    PlainLoopEnds(p, c, s);
    if !Exhausted(c, s) {
      PlainLoopNext(p, c, s);
      var (ok, e) := AdvanceClock(p, c, s.hbt);
      var s1 := s.(hbt := e, step := s.step + 1);
      if ok {
        VisitConsumes(p, c, s1);
        VisitAddsOneRow(p, c, s1);
        RunStopsAtBounds(p, c, Visit(p, c, s1));
      } else {
        assert Ends(p, c, s.hbt, e);
      }
    }
    hide PlainLoop;
  }

  // ---------------------------------------------------------------- between the legs

  /** Advancing moves the clock by what was asked. */
  ghost predicate Timed<E(!new)>(p: Port<E>) { forall e, d :: p.advance(e, d).0 ==> p.now(p.advance(e, d).1) == p.now(e) + d }

  /** The leg's feed arrived again after what was known of it. */
  predicate Again<E>(p: Port<E>, leg: Leg, known: Option<(int, int)>, e: E) {
    var feed := p.feedLatency(e, leg);
    feed.Some? && (known.Some? ==> feed.value.1 > known.value.1)
  }

  /** The feeds that the configuration waits for arrived again. */
  predicate Arrived<E>(p: Port<E>, wait: FeedWait, spot: Option<(int, int)>, future: Option<(int, int)>, e: E) {
    match wait
    case NoWait => true
    case SpotFeed => Again(p, Stock, spot, e)
    case FutureFeed => Again(p, Future, future, e)
    case AnyFeed => Again(p, Stock, spot, e) || Again(p, Future, future, e)
    case BothFeeds => Again(p, Stock, spot, e) && Again(p, Future, future, e)
  }

  function Poll(c: HbtConfig): int { if c.postFirstFeedPollNs > 1 then c.postFirstFeedPollNs else 1 }

  /** Polling ended with an arrival, a whole number of polls later or at the deadline. */
  ghost predicate EndedReady<E(!new)>(
    p: Port<E>, c: HbtConfig, spot: Option<(int, int)>, future: Option<(int, int)>, deadline: int, e: E, t: E)
  {
    && Arrived(p, c.postFirstFeedWait, spot, future, t)
    && (t == e || p.now(t) <= deadline)
    && (p.now(t) == deadline || exists k: nat :: Polls(k, p.now(e), p.now(t), Poll(c)))
  }

  predicate Polls(k: nat, from: int, to: int, poll: int) { to - from == k * poll }

  /** Polling ended without one: at the deadline, or with the data. */
  ghost predicate EndedUnready<E(!new)>(
    p: Port<E>, c: HbtConfig, spot: Option<(int, int)>, future: Option<(int, int)>, deadline: int, t: E)
  {
    || (p.now(t) >= deadline && !Arrived(p, c.postFirstFeedWait, spot, future, t))
    || (exists before, d :: Fails(p, before, d, t))
  }

  predicate Fails<E(==)>(p: Port<E>, before: E, d: int, t: E) { !p.advance(before, d).0 && t == p.advance(before, d).1 }

  lemma {:induction false} PollingEnds<E(!new)>(
    p: Port<E>, c: HbtConfig, spot: Option<(int, int)>, future: Option<(int, int)>, deadline: int, e: E)
    requires Finite(p) && Timed(p)
    ensures
      var (ready, t) := PollFeeds(p, c, spot, future, deadline, e);
      if ready then EndedReady(p, c, spot, future, deadline, e, t) else EndedUnready(p, c, spot, future, deadline, t)
    decreases p.remaining(e)
  {
    hide Arrived, FeedReady, EndedUnready, EndedReady;
    ArrivedIs(p, c, spot, future, e);
    if p.now(e) >= deadline {
      AtOnce(p, c, spot, future, deadline, e);
    } else {
      var d := MinInt(MaxInt(1, c.postFirstFeedPollNs), deadline - p.now(e));
      var (ok, e') := p.advance(e, d);
      ArrivedIs(p, c, spot, future, e');
      if !ok {
        FailedAdvance(p, c, spot, future, deadline, e, d);
      } else if FeedReady(p, c.postFirstFeedWait, spot, future, e') {
        OnePoll(p, c, spot, future, deadline, e, e', d);
      } else {
        PollingEnds(p, c, spot, future, deadline, e');
        var (ready, t) := PollFeeds(p, c, spot, future, deadline, e');
        if ready { OnePollMore(p, c, spot, future, deadline, e, e', d, t); }
      }
    }
  }

  lemma AtOnce<E(!new)>(p: Port<E>, c: HbtConfig, spot: Option<(int, int)>, future: Option<(int, int)>, deadline: int, e: E)
    requires p.now(e) >= deadline
    ensures Arrived(p, c.postFirstFeedWait, spot, future, e) ==> EndedReady(p, c, spot, future, deadline, e, e)
    ensures !Arrived(p, c.postFirstFeedWait, spot, future, e) ==> EndedUnready(p, c, spot, future, deadline, e)
  {
    assert Polls(0, p.now(e), p.now(e), Poll(c));
  }

  lemma FailedAdvance<E(!new)>(
    p: Port<E>, c: HbtConfig, spot: Option<(int, int)>, future: Option<(int, int)>, deadline: int, e: E, d: int)
    requires !p.advance(e, d).0
    ensures EndedUnready(p, c, spot, future, deadline, p.advance(e, d).1)
  {
    assert Fails(p, e, d, p.advance(e, d).1);
  }

  lemma OnePoll<E(!new)>(
    p: Port<E>, c: HbtConfig, spot: Option<(int, int)>, future: Option<(int, int)>, deadline: int, e: E, t: E, d: int)
    requires p.now(t) == p.now(e) + d && d == MinInt(Poll(c), deadline - p.now(e)) && p.now(e) < deadline
    requires Arrived(p, c.postFirstFeedWait, spot, future, t)
    ensures EndedReady(p, c, spot, future, deadline, e, t)
  {
    if d == Poll(c) { assert Polls(1, p.now(e), p.now(t), Poll(c)); }
    hide Arrived;
  }

  lemma OnePollMore<E(!new)>(
    p: Port<E>, c: HbtConfig, spot: Option<(int, int)>, future: Option<(int, int)>, deadline: int, e: E, e': E, d: int, t: E)
    requires p.now(e') == p.now(e) + d && d == MinInt(Poll(c), deadline - p.now(e)) && p.now(e) < deadline
    requires EndedReady(p, c, spot, future, deadline, e', t)
    ensures EndedReady(p, c, spot, future, deadline, e, t)
  {
    hide Arrived;
    assert t == e' || p.now(t) <= deadline;
    if p.now(t) != deadline {
      var k: nat :| Polls(k, p.now(e'), p.now(t), Poll(c));
      PollsOnward(k, p.now(e'), p.now(t), Poll(c));
      assert d == Poll(c);
      assert Polls(k + 1, p.now(e), p.now(t), Poll(c));
    }
  }

  lemma PollsOnward(k: nat, from: int, to: int, poll: int)
    requires Polls(k, from, to, poll) && poll > 0
    ensures to >= from && Polls(k + 1, from - poll, to, poll)
  {
  }

  lemma ArrivedIs<E>(p: Port<E>, c: HbtConfig, spot: Option<(int, int)>, future: Option<(int, int)>, e: E)
    ensures FeedReady(p, c.postFirstFeedWait, spot, future, e) <==> Arrived(p, c.postFirstFeedWait, spot, future, e)
  {
  }

  /** Between the legs: first the whole delay, then the wait that is configured; ready means the feeds it
      names arrived again since the delay ended, in time; not ready that they did not, or the data ended. */
  lemma BetweenLegsWaits<E(!new)>(p: Port<E>, c: HbtConfig, s: Run<E>)
    requires Finite(p) && Timed(p)
    ensures
      var (ready, t) := BetweenLegs(p, c, s);
      var delayed := if c.secondLegDelayNs > 0 then p.advance(s.hbt, c.secondLegDelayNs) else (true, s.hbt);
      var e := delayed.1;
      var spot, future := p.feedLatency(e, Stock), p.feedLatency(e, Future);
      var deadline := p.now(e) + if c.postFirstFeedTimeoutNs > 0 then c.postFirstFeedTimeoutNs else 0;
      && (ready.None? <==> !delayed.0)
      && (delayed.0 ==> p.now(e) == p.now(s.hbt) + if c.secondLegDelayNs > 0 then c.secondLegDelayNs else 0)
      && (ready.Some? ==>
            if c.postFirstFeedWait.NoWait? then ready.value && t.hbt == e
            else if ready.value then EndedReady(p, c, spot, future, deadline, e, t.hbt)
            else EndedUnready(p, c, spot, future, deadline, t.hbt))
  {
    var e := if c.secondLegDelayNs > 0 then p.advance(s.hbt, c.secondLegDelayNs).1 else s.hbt;
    var spot, future := p.feedLatency(e, Stock), p.feedLatency(e, Future);
    var deadline := p.now(e) + MaxInt(0, c.postFirstFeedTimeoutNs);
    ArrivedIs(p, c, spot, future, e);
    NotAgainYet(p, e);
    PollingEnds(p, c, spot, future, deadline, e);
    hide PollFeeds, EndedReady, EndedUnready, FeedReady, Finite, Timed;
  }

  /** A feed has not arrived again at the moment it is looked at. */
  lemma NotAgainYet<E>(p: Port<E>, e: E)
    ensures p.feedLatency(e, Stock).Some? ==> !Again(p, Stock, p.feedLatency(e, Stock), e)
    ensures p.feedLatency(e, Future).Some? ==> !Again(p, Future, p.feedLatency(e, Future), e)
  {
  }

  // ---------------------------------------------------------------- what rests at the engine

  /** The engine's resting orders: submitting and waiting touch only the order itself, an order is active
      while it rests, and cancelling takes it out. */
  ghost predicate Rests<E(!new)>(p: Port<E>, resting: E -> set<(Leg, int)>) {
    && (forall e, r: OrderRequest :: resting(p.submitLimit(e, r).1) - {(r.leg, r.orderId)} == resting(e) - {(r.leg, r.orderId)})
    && (forall e, l, i, t :: resting(p.waitOrderResponse(e, l, i, t).1) - {(l, i)} == resting(e) - {(l, i)})
    && (forall e, l, i :: p.order(e, l, i).Some? && p.order(e, l, i).value.active <==> (l, i) in resting(e))
    && (forall e, l, i, t :: resting(p.cancelActiveOrder(e, l, i, t)) == resting(e) - {(l, i)})
    && (forall e, l :: resting(p.clearInactiveOrders(e, l)) == resting(e))
  }

  /** An unfilled order never stays at the engine, and no other order is touched. */
  lemma UnfilledIsCancelled<E(!new)>(p: Port<E>, c: HbtConfig, e: E, r: OrderRequest, resting: E -> set<(Leg, int)>)
    requires Rests(p, resting) && (r.leg, r.orderId) !in resting(e)
    ensures
      var (fill, t) := SubmitRawLeg(p, c, e, r);
      && (!fill.filled ==> resting(t) == resting(e))
      && (fill.filled ==> resting(t) == resting(e) || resting(t) == resting(e) + {(r.leg, r.orderId)})
  {
    var e1 := p.submitLimit(e, r).1;
    var e2 := p.waitOrderResponse(e1, r.leg, r.orderId, c.responseTimeoutNs).1;
    assert resting(e2) - {(r.leg, r.orderId)} == resting(e);
  }

  /** What a fill reports: a refused submission by its own code, an accepted one by the response that was
      waited for; units and price only of what was executed. */
  lemma FillReports<E>(p: Port<E>, c: HbtConfig, e: E, r: OrderRequest)
    ensures
      var (code, e1) := p.submitLimit(e, r);
      var (response, e2) := p.waitOrderResponse(e1, r.leg, r.orderId, c.responseTimeoutNs);
      var fill, order := SubmitRawLeg(p, c, e, r).0, p.order(e2, r.leg, r.orderId);
      && (fill.response == 0 <==> code == 0 && response == 0)
      && (code != 0 ==> fill.response == code)
      && (fill.filled ==> order.Some? && fill.execQty > 0.0 && order.value.execQty == fill.execQty)
      && (fill.execPrice.Some? ==> order.Some? && fill.execPrice.value > 0.0 && order.value.execPrice == fill.execPrice.value)
      && (if order.None? then !fill.filled && fill.localTimestamp.None? && fill.exchTimestamp.None?
          else fill.localTimestamp == Some(order.value.localTimestamp) && fill.exchTimestamp == Some(order.value.exchTimestamp))
  {
    var e1 := p.submitLimit(e, r).1;
    var e2 := p.waitOrderResponse(e1, r.leg, r.orderId, c.responseTimeoutNs).1;
    var order := p.order(e2, r.leg, r.orderId);
  }

  /** Whatever the engine lists as over for the leg is cleared. */
  lemma NothingOverRemains<E(!new)>(p: Port<E>, c: HbtConfig, e: E, r: OrderRequest, over: E -> set<(Leg, int)>)
    requires forall e, l, i :: (l, i) !in over(p.clearInactiveOrders(e, l))
    ensures forall i :: (r.leg, i) !in over(SubmitRawLeg(p, c, e, r).1)
  {
    var e1 := p.submitLimit(e, r).1;
    var e2 := p.waitOrderResponse(e1, r.leg, r.orderId, c.responseTimeoutNs).1;
    assert SubmitRawLeg(p, c, e, r).1 == p.clearInactiveOrders(e2, r.leg)
      || SubmitRawLeg(p, c, e, r).1 == p.clearInactiveOrders(p.cancelActiveOrder(e2, r.leg, r.orderId, c.responseTimeoutNs), r.leg);
  }

  // ---------------------------------------------------------------- positions

  /** One more pair: basis and prices are averaged in with the units held, and the entry is dated by the
      first leg's stamp. */
  lemma EntryAveragesIn(
    pair: PairConfig, position: PairPosition, signal: Signal, market: PairMarket, spot: real, future: real, stamp: int)
    requires ValidPair(pair) && (signal == EnterLong || signal == EnterShort)
    requires position.quantity >= 0
    requires position.quantity > 0 ==> position.entryBasisPct.Some? && position.entrySpotPrice.Some? && position.entryFuturePrice.Some?
    ensures
      var n := position.quantity;
      var t := AddToPosition(position, signal, PriceMarket(pair, market), spot, future, Some(stamp));
      && t.quantity == n + 1 && t.direction == signal
      && t.entryBasisPct.Some? && t.entrySpotPrice.Some? && t.entryFuturePrice.Some?
      && t.entryBasisPct.value * (n + 1) as real
         == EntryGain(pair, signal, market) / PositiveNotional(pair, signal, market) + Held(position.entryBasisPct, n)
      && t.entrySpotPrice.value * (n + 1) as real == spot + Held(position.entrySpotPrice, n)
      && t.entryFuturePrice.value * (n + 1) as real == future + Held(position.entryFuturePrice, n)
      && t.lastEntryTime.Some? && t.lastEntryTime.value * 1_000_000_000.0 == stamp as real
  {
    hide PriceMarket, WeightedAverage, EntryGain, EntryNotional, PositiveNotional;
    var n := position.quantity;
    var pricing := PriceMarket(pair, market);
    var basis := if signal == EnterLong then pricing.longPct else -pricing.shortPct;
    EntryBasisIs(pair, signal, market);
    AveragesIn(position.entryBasisPct, n, basis);
    AveragesIn(position.entrySpotPrice, n, spot);
    AveragesIn(position.entryFuturePrice, n, future);
  }

  lemma AveragesIn(kept: Option<real>, n: int, value: real)
    requires n >= 0 && (n > 0 ==> kept.Some?)
    ensures WeightedAverage(kept, n, value, 1) * (n + 1) as real == value + Held(kept, n)
  {
    if n > 0 { WeightedAverageTotal(kept, n, value); }
  }

  lemma EntryBasisIs(pair: PairConfig, signal: Signal, market: PairMarket)
    requires ValidPair(pair) && (signal == EnterLong || signal == EnterShort)
    ensures (if signal == EnterLong then PriceMarket(pair, market).longPct else -PriceMarket(pair, market).shortPct)
         == EntryGain(pair, signal, market) / PositiveNotional(pair, signal, market)
  {
    hide PriceMarket, EntryGain, EntryNotional;
    BasisAre(pair, market);
    NegatedQuotient(-EntryGain(pair, EnterShort, market), EntryNotional(pair, EnterShort, market));
  }

  lemma NegatedQuotient(x: real, y: real)
    requires y > 0.0
    ensures -(x / y) == -x / y
  {
  }

  function PositiveNotional(pair: PairConfig, signal: Signal, market: PairMarket): (n: real)
    requires ValidPair(pair)
    ensures n > 0.0 && n == EntryNotional(pair, signal, market)
  {
    BasisAre(pair, market);
    EntryNotional(pair, if signal == EnterLong then EnterLong else EnterShort, market)
  }

  function Held(value: Option<real>, n: int): real { if n == 0 || value.None? then 0.0 else value.value * n as real }

  /** One pair less: the rest keeps its basis, prices and entry time; a flat position keeps the time only. */
  lemma ExitKeepsTheRest(position: PairPosition)
    requires ValidPosition(position) && position.quantity > 0
    ensures
      var t := ReducePosition(position);
      && t.quantity == position.quantity - 1 && t.lastEntryTime == position.lastEntryTime
      && (if t.quantity > 0
          then t.entryBasisPct == position.entryBasisPct && t.entrySpotPrice == position.entrySpotPrice
               && t.entryFuturePrice == position.entryFuturePrice && t.direction == position.direction
          else t == FLAT.(lastEntryTime := position.lastEntryTime))
  {
  }
}
