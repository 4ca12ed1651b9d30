/** Within one run, filled entries keep the configured distance. */
module EntrySpacing {
  import opened Wrappers
  import opened Models
  import opened Strategy
  import opened Replay
  import opened TradingRules
  import opened CoordinatedSession
  import opened ExecutionRows

  /** Fills carry their price, and the clock counts nanoseconds. */
  ghost predicate FillsPriced<E(!new)>(p: Port<E>, c: HbtConfig) { forall e, r :: PricedFill(p, c, e, r) }

  ghost predicate PricedFill<E>(p: Port<E>, c: HbtConfig, e: E, r: OrderRequest) {
    var fill := SubmitRawLeg(p, c, e, r).0;
    fill.filled ==> fill.execPrice.Some?
  }

  ghost predicate Nanoseconds<E(!new)>(p: Port<E>) { forall e :: p.now(e) > 10_000_000_000_000 }

  predicate FilledEntry(row: TradeRow) {
    row.status.Filled? && (row.signal == EnterLong || row.signal == EnterShort) && row.signalTimestamp.Some?
  }

  /** Filled entries stand the interval apart, and the position remembers the last one. */
  ghost predicate Spaced<E>(c: HbtConfig, s: Run<E>) {
    && (forall i, j :: 0 <= i < j < |s.rows| && FilledEntry(s.rows[i]) && FilledEntry(s.rows[j]) ==>
          (s.rows[j].signalTimestamp.value - s.rows[i].signalTimestamp.value) as real >= c.pair.minEntryIntervalSec * 1_000_000_000.0)
    && (forall i :: 0 <= i < |s.rows| && FilledEntry(s.rows[i]) ==> Remembered(s.position, s.rows[i].signalTimestamp.value))
  }

  predicate Remembered(position: PairPosition, stamp: int) {
    position.lastEntryTime.Some? && position.lastEntryTime.value * 1_000_000_000.0 >= stamp as real
  }

  lemma CompleteUpdates<E(!new)>(
    p: Port<E>, c: HbtConfig, s: Run<E>, signal: Signal, market: PairMarket, t: int, first: LegFill)
    requires FillsPriced(p, c) && ValidPair(c.pair) && first.execPrice.Some? && first.leg == c.firstLeg
    requires LegSide(signal, s.position, c.firstLeg).Some? && LegSide(signal, s.position, c.firstLeg.Other()).Some?
    ensures
      var u := CompletePair(p, c, s, signal, market, t, first);
      && |u.rows| == |s.rows| + 1
      && (u.rows[|s.rows|].status.Filled? ==>
            u.position.lastEntryTime == if signal == Exit then s.position.lastEntryTime else
              if first.localTimestamp.None? then None else Some(first.localTimestamp.value as real / 1_000_000_000.0))
  {
    hide SubmitRawLeg, FailSecondLeg, SecondLegProfitOk, RealizedPnl, PriceMarket, WeightedAverage;
    if c.secondLegProfitCheck && !SecondLegProfitOk(c.pair, s.position, signal, market) {
      FailStatus(p, c, s, signal, SecondLegProfitCheckFailed, market, t, first, None);
    } else {
      var r := LegRequest(c, s.position, s.orderId + 1, signal, c.firstLeg.Other(), market, true);
      assert PricedFill(p, c, s.hbt, r);
      var (second, s1) := SubmitSecond(p, c, s, signal, market);
      SubmittedLeg(p, c, s.hbt, r);
      assert second.leg == c.firstLeg.Other();
      hide LegRequest, FillsPriced;
      if second.filled { UpdateDates(s.position, signal, first, second, PriceMarket(c.pair, market)); }
      if !second.filled { FailStatus(p, c, s1, signal, SecondLegUnfilled, market, t, first, Some(second)); }
    }
  }

  lemma UpdateDates(position: PairPosition, signal: Signal, first: LegFill, second: LegFill, pricing: PairPricing)
    requires first.execPrice.Some? && second.execPrice.Some? && second.leg == first.leg.Other()
    ensures UpdatePosition(position, signal, first, second, pricing).lastEntryTime
         == if signal == Exit then position.lastEntryTime
            else if first.localTimestamp.None? then None else Some(first.localTimestamp.value as real / 1_000_000_000.0)
  {
    hide WeightedAverage;
  }

  lemma SubmittedLeg<E>(p: Port<E>, c: HbtConfig, e: E, r: OrderRequest)
    ensures SubmitRawLeg(p, c, e, r).0.leg == r.leg
  {
  }

  /** An execution dates the position by its signal exactly when it fills an entry. */
  lemma ExecutionDates<E(!new)>(p: Port<E>, c: HbtConfig, s: Run<E>, signal: Signal, market: PairMarket)
    requires Finite(p) && Clocked(p) && StampsRequests(p, c) && FillsPriced(p, c) && ValidPair(c.pair)
    requires LegSide(signal, s.position, c.firstLeg).Some? && LegSide(signal, s.position, c.firstLeg.Other()).Some?
    ensures
      var t := ExecuteSignal(p, c, s, signal, market);
      && Wrote(p, s, t, signal, p.now(s.hbt))
      && t.position.lastEntryTime
         == if t.rows[|s.rows|].status.Filled? && signal != Exit then Some(p.now(s.hbt) as real / 1_000_000_000.0)
            else s.position.lastEntryTime
  {
    hide SubmitRawLeg, FailSecondLeg, CompletePair, BetweenLegs, CurrentMarket, Finite, Clocked, StampsRequests;
    ExecutionDescribes(p, c, s, signal, market);
    FirstStamped(p, c, s, signal, market);
    var r := LegRequest(c, s.position, s.orderId + 1, signal, c.firstLeg, market, false);
    assert PricedFill(p, c, s.hbt, r);
    SubmittedLeg(p, c, s.hbt, r);
    hide LegRequest, FillsPriced, Wrote;
    var (first, s1) := SubmitFirst(p, c, s, signal, market);
    if first.filled {
      var (ready, s2) := BetweenLegs(p, c, s1);
      if ready.Some? {
        var current := CurrentMarket(p, s2.hbt);
        var m := if current.Some? then current.value else market;
        if ready.value {
          CompleteUpdates(p, c, s2, signal, m, p.now(s.hbt), first);
          CompleteWrites(p, c, s2, signal, m, p.now(s.hbt), first);
          Unfilled(p, s2, CompletePair(p, c, s2, signal, m, p.now(s.hbt), first), signal, p.now(s.hbt));
        } else {
          FailWrites(p, c, s2, signal, PostFirstFeedTimeout, m, p.now(s.hbt), first, None);
          Unfilled(p, s2, FailSecondLeg(p, c, s2, signal, PostFirstFeedTimeout, m, p.now(s.hbt), first, None), signal, p.now(s.hbt));
          FailStatus(p, c, s2, signal, PostFirstFeedTimeout, m, p.now(s.hbt), first, None);
        }
      }
    }
  }

  lemma Unfilled<E>(p: Port<E>, s: Run<E>, t: Run<E>, signal: Signal, start: int)
    requires Wrote(p, s, t, signal, start)
    ensures |t.rows| == |s.rows| + 1
    ensures !t.rows[|s.rows|].status.Filled? ==> t.position == s.position
  {
  }

  lemma FailStatus<E(!new)>(
    p: Port<E>, c: HbtConfig, s: Run<E>, signal: Signal, status: Status, market: PairMarket, t: int,
    first: LegFill, second: Option<LegFill>)
    requires ValidPair(c.pair) && LegSide(signal, s.position, c.firstLeg).Some?
    ensures
      var u := FailSecondLeg(p, c, s, signal, status, market, t, first, second);
      |u.rows| == |s.rows| + 1 && u.rows[|s.rows|].status == status
  {
    hide SubmitRawLeg, FlattenRequest, FlattenPnl, LegSide;
  }

  /** A decided entry has waited since the last one, by the engine clock. */
  lemma DecidedEntryWaited<E(!new)>(p: Port<E>, c: HbtConfig, s: Run<E>, market: PairMarket)
    requires ValidPair(c.pair) && Nanoseconds(p) && CurrentMarket(p, s.hbt) == Some(market)
    requires c.pair.minEntryIntervalSec > 0.0 && s.position.lastEntryTime.Some?
    requires
      var d := DecideRun(c, s, market);
      d.shouldExecute && (d.action == EnterLong || d.action == EnterShort)
    ensures p.now(s.hbt) as real
         >= s.position.lastEntryTime.value * 1_000_000_000.0 + c.pair.minEntryIntervalSec * 1_000_000_000.0
  {
    EntryExecutedIff(c.pair, market, PriceMarket(c.pair, market), s.position, c.enforceRiskLimits);
    hide Decide, PriceMarket;
    assert market.spot.timestamp == p.now(s.hbt);
    assert EventTimeSeconds(market.spot.timestamp) * 1_000_000_000.0 == p.now(s.hbt) as real;
  }

  lemma VisitSpaced<E(!new)>(p: Port<E>, c: HbtConfig, s: Run<E>)
    requires Finite(p) && Clocked(p) && StampsRequests(p, c) && FillsPriced(p, c) && Nanoseconds(p) && ValidPair(c.pair)
    requires c.pair.minEntryIntervalSec > 0.0 && Spaced(c, s)
    ensures Spaced(c, Visit(p, c, s))
  {
    var current := CurrentMarket(p, s.hbt);
    if current.None? {
      NoMarketNoVisit(p, c, s);
    } else {
      var market := current.value;
      var d := DecideRun(c, s, market);
      var s1 := RecordMarketRow(p, c, s.(last := current), market, d.action, false);
      hide CurrentMarket, DecideRun, ExecuteSignal, Finite, Clocked, StampsRequests, FillsPriced;
      if d.action != Hold && d.shouldExecute {
        ExecutionDates(p, c, s1, d.action, market);
        if s.position.lastEntryTime.Some? && d.action != Exit { DecidedEntryWaited(p, c, s, market); }
        NextSpaced(p, c, s1, Visit(p, c, s), d.action);
      } else if d.action != Hold {
        SkipSpaced(p, c, s, Visit(p, c, s));
      }
    }
  }

  lemma SkipSpaced<E(!new)>(p: Port<E>, c: HbtConfig, s: Run<E>, t: Run<E>)
    requires Spaced(c, s) && t.position == s.position
    requires |t.rows| == |s.rows| + 1 && t.rows[..|s.rows|] == s.rows && t.rows[|s.rows|].status.RiskSkip?
    ensures Spaced(c, t)
  {
    assert forall i :: 0 <= i < |s.rows| ==> t.rows[i] == s.rows[i];
  }

  lemma NextSpaced<E(!new)>(p: Port<E>, c: HbtConfig, s: Run<E>, t: Run<E>, signal: Signal)
    requires Spaced(c, s) && c.pair.minEntryIntervalSec > 0.0 && Wrote(p, s, t, signal, p.now(s.hbt))
    requires t.position.lastEntryTime
          == if t.rows[|s.rows|].status.Filled? && signal != Exit then Some(p.now(s.hbt) as real / 1_000_000_000.0)
             else s.position.lastEntryTime
    requires signal != Exit && s.position.lastEntryTime.Some? ==>
      p.now(s.hbt) as real >= s.position.lastEntryTime.value * 1_000_000_000.0 + c.pair.minEntryIntervalSec * 1_000_000_000.0
    ensures Spaced(c, t)
  {
    var n := |s.rows|;
    assert forall i :: 0 <= i < n ==> t.rows[i] == s.rows[i];
    var interval := c.pair.minEntryIntervalSec * 1_000_000_000.0;
    assert interval > 0.0;
    forall i | 0 <= i < |t.rows| && FilledEntry(t.rows[i]) ensures Remembered(t.position, t.rows[i].signalTimestamp.value) {
      if i < n { assert Remembered(s.position, s.rows[i].signalTimestamp.value); }
    }
    forall i, j | 0 <= i < j < |t.rows| && FilledEntry(t.rows[i]) && FilledEntry(t.rows[j])
      ensures (t.rows[j].signalTimestamp.value - t.rows[i].signalTimestamp.value) as real >= interval
    {
      if j == n { assert Remembered(s.position, s.rows[i].signalTimestamp.value); }
    }
  }

  /** Over a whole run on a clock in nanoseconds, any two filled entries are signalled at least the
      configured interval apart, whatever exits come between. */
  lemma {:induction false} RunSpacesEntries<E(!new)>(p: Port<E>, c: HbtConfig, s: Run<E>)
    requires Finite(p) && Clocked(p) && StampsRequests(p, c) && FillsPriced(p, c) && Nanoseconds(p) && ValidConfig(c)
    requires c.pair.minEntryIntervalSec > 0.0 && Spaced(c, s)
    ensures Spaced(c, PlainLoop(p, c, s))
    decreases p.remaining(s.hbt)
  {
    hide Visit, Spaced, Clocked, StampsRequests, FillsPriced, Nanoseconds;
    PlainLoopEnds(p, c, s);
    if !Exhausted(c, s) {
      PlainLoopNext(p, c, s);
      var (ok, e) := AdvanceClock(p, c, s.hbt);
      var s1 := s.(hbt := e, step := s.step + 1);
      SameRowsSpaced(c, s, s1);
      SameRowsSpaced(c, s, s.(hbt := e));
      if ok {
        VisitConsumes(p, c, s1);
        VisitSpaced(p, c, s1);
        RunSpacesEntries(p, c, Visit(p, c, s1));
      }
    }
    hide PlainLoop;
  }

  lemma SameRowsSpaced<E>(c: HbtConfig, s: Run<E>, t: Run<E>)
    requires Spaced(c, s) && t.rows == s.rows && t.position == s.position
    ensures Spaced(c, t)
  {
  }
}
