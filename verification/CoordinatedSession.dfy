/** A pair replay driven one feed event at a time: every event is exposed, then resolved. */
module CoordinatedSession {
  import opened Wrappers
  import opened Models
  import opened Strategy
  import opened Replay

  datatype CoordinatedEvent = CoordinatedEvent(timestampNs: int, signal: Signal, shouldExecute: bool, reason: Reason)

  /** The event with what the session needs to resolve it; no market where no quote was available. */
  datatype Pending = Pending(event: CoordinatedEvent, market: Option<PairMarket>, decision: Decision)

  /** advance_coordinated_event_session. */
  function AdvanceSession<E>(p: Port<E>, c: HbtConfig, s: Run<E>): (Option<Pending>, Run<E>)
    requires ValidPair(c.pair)
  {
    if Exhausted(c, s) then (None, s)
    else
      var (ok, e) := p.advanceToNextFeed(s.hbt);
      if !ok then (None, s.(hbt := e))
      else
        var s1 := s.(hbt := e, step := s.step + 1);
        var current := CurrentMarket(p, e);
        if current.None? then
          (Some(Pending(CoordinatedEvent(p.now(e), Hold, false, HoldReason), None, Decision(Hold, false, HoldReason))), s1)
        else
          var market := current.value;
          var d := DecideRun(c, s1, market);
          (Some(Pending(CoordinatedEvent(p.now(e), d.action, d.shouldExecute, d.reason), current, d)),
           RecordMarketRow(p, c, s1.(last := current), market, d.action, false))
  }

  predicate IsEntry(signal: Signal) { signal == EnterLong || signal == EnterShort }

  /** The pending decision still fits the run: it was taken at this engine time for this position. */
  predicate Answers<E>(p: Port<E>, s: Run<E>, w: Pending) {
    && w.event.timestampNs == p.now(s.hbt)
    && w.event.signal == w.decision.action
    && w.event.shouldExecute == w.decision.shouldExecute
    && w.event.reason == w.decision.reason
    && (w.market.None? ==> w.event.signal == Hold)
    && (w.event.signal != Hold ==>
          LegSide(w.event.signal, s.position, Stock).Some? && LegSide(w.event.signal, s.position, Future).Some?)
  }

  /** The run after resolving, before asking whether an entry filled. */
  function Resolved<E(!new)>(p: Port<E>, c: HbtConfig, s: Run<E>, w: Pending, blocked: bool): Run<E>
    requires Finite(p) && ValidPair(c.pair) && Answers(p, s, w)
  {
    if w.market.None? || w.event.signal == Hold then s
    else if !w.decision.shouldExecute then AppendSkipRow(p, s, w.event.signal, w.market.value, w.decision.reason)
    else if blocked then AppendSkipRow(p, s, w.event.signal, w.market.value, SharedCooldown)
    else ExecuteSignal(p, c, s, w.event.signal, w.market.value)
  }

  /** resolve_coordinated_event_session: whether an entry filled, and the run after it. */
  function ResolveSession<E(!new)>(p: Port<E>, c: HbtConfig, s: Run<E>, w: Pending, blocked: bool): (bool, Run<E>)
    requires Finite(p) && ValidPair(c.pair) && Answers(p, s, w)
  {
    var t := Resolved(p, c, s, w, blocked);
    var executed := w.market.Some? && w.event.signal != Hold && w.decision.shouldExecute && !blocked;
    (executed && IsEntry(w.event.signal) && |t.rows| > |s.rows| && t.rows[|t.rows| - 1].status.Filled?, t)
  }

  lemma AdvanceAnswers<E>(p: Port<E>, c: HbtConfig, s: Run<E>)
    requires ValidPair(c.pair)
    ensures var (w, t) := AdvanceSession(p, c, s); w.Some? ==> Answers(p, t, w.value)
  {
  }

  /** The next event is stamped no earlier than the clock before it. */
  lemma AdvanceStamps<E(!new)>(p: Port<E>, c: HbtConfig, s: Run<E>)
    requires Clocked(p) && ValidPair(c.pair)
    ensures var (w, t) := AdvanceSession(p, c, s); w.Some? ==> p.now(s.hbt) <= w.value.event.timestampNs
  {
  }

  /** A successful advance consumes data; resolving gives none back. */
  lemma SessionConsumes<E(!new)>(p: Port<E>, c: HbtConfig, s: Run<E>, w: Pending, blocked: bool)
    requires Finite(p) && ValidPair(c.pair) && Answers(p, s, w)
    ensures
      var t := ResolveSession(p, c, s, w, blocked).1;
      var (next, u) := AdvanceSession(p, c, t);
      && p.remaining(u.hbt) <= p.remaining(t.hbt) <= p.remaining(s.hbt)
      && (next.Some? ==> p.remaining(u.hbt) < p.remaining(s.hbt))
  {
    if w.market.Some? && w.event.signal != Hold && w.decision.shouldExecute && !blocked {
      ExecuteConsumes(p, c, s, w.event.signal, w.market.value);
    }
  }

  /** A blocked entry trades nothing: it leaves one skip row that names the shared cooldown. */
  lemma BlockedIsSkipped<E(!new)>(p: Port<E>, c: HbtConfig, s: Run<E>, w: Pending)
    requires Finite(p) && ValidPair(c.pair) && Answers(p, s, w)
    requires w.market.Some? && w.event.signal != Hold && w.decision.shouldExecute
    ensures
      var (filled, t) := ResolveSession(p, c, s, w, true);
      && !filled && t.hbt == s.hbt && t.position == s.position && t.orderId == s.orderId
      && |t.rows| == |s.rows| + 1 && t.rows[..|s.rows|] == s.rows
      && t.rows[|s.rows|].status.RiskSkip? && t.rows[|s.rows|].reason == Some(SharedCooldown)
      && t.rows[|s.rows|].signal == w.event.signal && t.rows[|s.rows|].first.None?
  {
  }

  /** A session exposes events until a bound of the run is reached or the data ends; at a bound it leaves
      the engine alone. */
  lemma SessionEndsIff<E>(p: Port<E>, c: HbtConfig, s: Run<E>)
    requires ValidPair(c.pair)
    ensures
      var (next, t) := AdvanceSession(p, c, s);
      var bounded := (c.maxSteps.Some? && s.step >= c.maxSteps.value) || (c.maxTrades.Some? && |s.rows| >= c.maxTrades.value);
      && (next.None? <==> bounded || !p.advanceToNextFeed(s.hbt).0)
      && (bounded ==> t == s)
      && (next.Some? ==> t.step == s.step + 1 && t.rows == s.rows && t.position == s.position)
  {
    hide DecideRun, CurrentMarket;
  }

  /** One event at a time is the plain event-clock loop: advancing and resolving unblocked is one
      visit of that loop. */
  lemma UnblockedSessionIsVisit<E(!new)>(p: Port<E>, c: HbtConfig, s: Run<E>)
    requires Finite(p) && ValidPair(c.pair) && !Exhausted(c, s) && p.advanceToNextFeed(s.hbt).0
    ensures
      var (w, t) := AdvanceSession(p, c, s);
      && w.Some? && Answers(p, t, w.value)
      && ResolveSession(p, c, t, w.value, false).1 == Visit(p, c, s.(hbt := p.advanceToNextFeed(s.hbt).1, step := s.step + 1))
  {
    hide ExecuteSignal, Decide, PriceMarket;
    AdvanceAnswers(p, c, s);
  }

  // ---------------------------------------------------------------- clocks

  /** No operation turns the engine clock back. */
  ghost predicate Clocked<E(!new)>(p: Port<E>) {
    && (forall e, d :: p.now(e) <= p.now(p.advance(e, d).1))
    && (forall e :: p.now(e) <= p.now(p.advanceToNextFeed(e).1))
    && (forall e, r :: p.now(e) <= p.now(p.submitLimit(e, r).1))
    && (forall e, l, i, t :: p.now(e) <= p.now(p.waitOrderResponse(e, l, i, t).1))
    && (forall e, l, i, t :: p.now(e) <= p.now(p.cancelActiveOrder(e, l, i, t)))
    && (forall e, l :: p.now(e) <= p.now(p.clearInactiveOrders(e, l)))
  }

  /** The slim engine stamps an order with the time of its request. */
  ghost predicate StampedAtRequest<E>(p: Port<E>, c: HbtConfig, e: E, request: OrderRequest) {
    var fill := SubmitRawLeg(p, c, e, request).0;
    fill.filled ==> fill.localTimestamp == Some(p.now(e))
  }

  ghost predicate StampsRequests<E(!new)>(p: Port<E>, c: HbtConfig) {
    forall e, request :: StampedAtRequest(p, c, e, request)
  }

  lemma SubmitClock<E(!new)>(p: Port<E>, c: HbtConfig, e: E, request: OrderRequest)
    requires Clocked(p)
    ensures p.now(e) <= p.now(SubmitRawLeg(p, c, e, request).1)
  {
  }

  lemma {:induction false} PollClock<E(!new)>(
    p: Port<E>, c: HbtConfig, spot: Option<(int, int)>, future: Option<(int, int)>, deadline: int, e: E)
    requires Finite(p) && Clocked(p)
    ensures p.now(e) <= p.now(PollFeeds(p, c, spot, future, deadline, e).1)
    decreases p.remaining(e)
  {
    if p.now(e) < deadline {
      var (ok, e') := p.advance(e, MinInt(MaxInt(1, c.postFirstFeedPollNs), deadline - p.now(e)));
      if ok && !FeedReady(p, c.postFirstFeedWait, spot, future, e') {
        PollClock(p, c, spot, future, deadline, e');
      }
    }
  }

  lemma BetweenClock<E(!new)>(p: Port<E>, c: HbtConfig, s: Run<E>)
    requires Finite(p) && Clocked(p)
    ensures p.now(s.hbt) <= p.now(BetweenLegs(p, c, s).1.hbt)
  {
    var e := if c.secondLegDelayNs > 0 then p.advance(s.hbt, c.secondLegDelayNs).1 else s.hbt;
    PollClock(p, c, p.feedLatency(e, Stock), p.feedLatency(e, Future), p.now(e) + MaxInt(0, c.postFirstFeedTimeoutNs), e);
  }

  lemma FailClock<E(!new)>(
    p: Port<E>, c: HbtConfig, s: Run<E>, signal: Signal, status: Status, market: PairMarket, t: int,
    first: LegFill, second: Option<LegFill>)
    requires Clocked(p) && ValidPair(c.pair) && LegSide(signal, s.position, c.firstLeg).Some?
    ensures
      var u := FailSecondLeg(p, c, s, signal, status, market, t, first, second);
      && p.now(s.hbt) <= p.now(u.hbt)
      && |u.rows| == |s.rows| + 1 && u.rows[|s.rows|].status == status
  {
  }

  lemma CompleteClock<E(!new)>(
    p: Port<E>, c: HbtConfig, s: Run<E>, signal: Signal, market: PairMarket, t: int, first: LegFill)
    requires Clocked(p) && ValidPair(c.pair)
    requires LegSide(signal, s.position, c.firstLeg).Some? && LegSide(signal, s.position, c.firstLeg.Other()).Some?
    ensures
      var u := CompletePair(p, c, s, signal, market, t, first);
      && p.now(s.hbt) <= p.now(u.hbt)
      && |u.rows| == |s.rows| + 1
      && (u.rows[|s.rows|].status.Filled? ==> u.rows[|s.rows|].first == Some(first))
  {
    if c.secondLegProfitCheck && !SecondLegProfitOk(c.pair, s.position, signal, market) {
      FailClock(p, c, s, signal, SecondLegProfitCheckFailed, market, t, first, None);
    } else {
      SubmitClock(p, c, s.hbt, LegRequest(c, s.position, s.orderId + 1, signal, c.firstLeg.Other(), market, true));
      var (second, s1) := SubmitSecond(p, c, s, signal, market);
      if !second.filled {
        FailClock(p, c, s1, signal, SecondLegUnfilled, market, t, first, Some(second));
      }
    }
  }

  lemma FirstStamped<E(!new)>(p: Port<E>, c: HbtConfig, s: Run<E>, signal: Signal, market: PairMarket)
    requires Clocked(p) && StampsRequests(p, c) && ValidPair(c.pair)
    requires LegSide(signal, s.position, c.firstLeg).Some?
    ensures
      var (first, s1) := SubmitFirst(p, c, s, signal, market);
      && p.now(s.hbt) <= p.now(s1.hbt)
      && s1.rows == s.rows && s1.position == s.position
      && (first.filled ==> first.localTimestamp == Some(p.now(s.hbt)))
  {
    var request := LegRequest(c, s.position, s.orderId + 1, signal, c.firstLeg, market, false);
    SubmitClock(p, c, s.hbt, request);
    assert StampedAtRequest(p, c, s.hbt, request);
    hide SubmitRawLeg;
  }

  /** An execution appends one row, and a filled one carries the first leg's request time. */
  lemma ExecuteClock<E(!new)>(p: Port<E>, c: HbtConfig, s: Run<E>, signal: Signal, market: PairMarket)
    requires Finite(p) && Clocked(p) && StampsRequests(p, c) && ValidPair(c.pair)
    requires LegSide(signal, s.position, c.firstLeg).Some? && LegSide(signal, s.position, c.firstLeg.Other()).Some?
    ensures
      var t := ExecuteSignal(p, c, s, signal, market);
      && p.now(s.hbt) <= p.now(t.hbt)
      && |t.rows| == |s.rows| + 1
      && (t.rows[|s.rows|].status.Filled? ==>
            t.rows[|s.rows|].first.Some? && t.rows[|s.rows|].first.value.localTimestamp == Some(p.now(s.hbt)))
  {
    hide SubmitRawLeg, LegRequest, Finite, Clocked, StampsRequests, CompletePair, FailSecondLeg, BetweenLegs, CurrentMarket;
    FirstStamped(p, c, s, signal, market);
    var (first, s1) := SubmitFirst(p, c, s, signal, market);
    if first.filled {
      BetweenClock(p, c, s1);
      var (ready, s2) := BetweenLegs(p, c, s1);
      if ready.Some? {
        var current := CurrentMarket(p, s2.hbt);
        var m := if current.Some? then current.value else market;
        if ready.value {
          CompleteClock(p, c, s2, signal, m, p.now(s.hbt), first);
        } else {
          FailClock(p, c, s2, signal, PostFirstFeedTimeout, m, p.now(s.hbt), first, None);
        }
      }
    }
  }

  /** Only an allowed, unblocked decision reaches the exchange. */
  predicate Executes(w: Pending, blocked: bool) {
    w.market.Some? && w.event.signal != Hold && w.decision.shouldExecute && !blocked
  }

  lemma ResolveWithoutExecuting<E(!new)>(p: Port<E>, c: HbtConfig, s: Run<E>, w: Pending, blocked: bool)
    requires Finite(p) && ValidPair(c.pair) && Answers(p, s, w) && !Executes(w, blocked)
    ensures !ResolveSession(p, c, s, w, blocked).0
    ensures ResolveSession(p, c, s, w, blocked).1.hbt == s.hbt
  {
  }

  lemma ResolveByExecuting<E(!new)>(p: Port<E>, c: HbtConfig, s: Run<E>, w: Pending, blocked: bool)
    requires Finite(p) && ValidPair(c.pair) && Answers(p, s, w) && Executes(w, blocked)
    ensures
      var t := ExecuteSignal(p, c, s, w.event.signal, w.market.value);
      && ResolveSession(p, c, s, w, blocked).1 == t
      && (ResolveSession(p, c, s, w, blocked).0 ==>
            IsEntry(w.event.signal) && |t.rows| > |s.rows| && t.rows[|t.rows| - 1].status.Filled?)
  {
    hide ExecuteSignal, Finite, ValidPair, LegSide;
  }

  /** Resolving never turns the clock back; a filled entry is stamped with the event's time. */
  lemma ResolveClock<E(!new)>(p: Port<E>, c: HbtConfig, s: Run<E>, w: Pending, blocked: bool)
    requires Finite(p) && Clocked(p) && StampsRequests(p, c) && ValidPair(c.pair) && Answers(p, s, w)
    ensures
      var (filled, t) := ResolveSession(p, c, s, w, blocked);
      && w.event.timestampNs <= p.now(t.hbt)
      && (filled ==> Executes(w, blocked) && IsEntry(w.event.signal))
      && (filled ==> t.rows != [] && t.rows[|t.rows| - 1].first.Some?
                     && t.rows[|t.rows| - 1].first.value.localTimestamp == Some(w.event.timestampNs))
  {
    if Executes(w, blocked) {
      ResolveByExecuting(p, c, s, w, blocked);
      ExecuteClock(p, c, s, w.event.signal, w.market.value);
    } else {
      ResolveWithoutExecuting(p, c, s, w, blocked);
    }
  }
}
