/** What every run keeps: a matched position within its limit, and exchange exposure that is
    exactly the tracked position plus the first legs left open. */
module Exposure {
  import opened Wrappers
  import opened Models
  import opened Strategy
  import opened Replay
  import opened ScannedReplay

  /** The exchange filled a submitted order exactly when the strategy sees it filled, in full, at a
      positive price, and nothing else traded meanwhile. `netFilled` is the exchange's ledger. */
  ghost predicate ReportedFill<E>(p: Port<E>, c: HbtConfig, e: E, request: OrderRequest) {
    var (fill, e') := SubmitRawLeg(p, c, e, request);
    && p.netFilled(e', request.leg) == p.netFilled(e, request.leg) + (if fill.filled then request.side.Sign() else 0)
    && p.netFilled(e', request.leg.Other()) == p.netFilled(e, request.leg.Other())
    && (fill.filled ==> fill.execPrice.Some?)
  }

  /** Responses are visible within the timeout and advancing the clock trades nothing. */
  ghost predicate FillsAsReported<E(!new)>(p: Port<E>, c: HbtConfig) {
    && (forall e, request :: ReportedFill(p, c, e, request))
    && (forall e, d, l :: p.netFilled(p.advance(e, d).1, l) == p.netFilled(e, l))
    && (forall e, l :: p.netFilled(p.advanceToNextFeed(e).1, l) == p.netFilled(e, l))
  }

  /** The order that should have closed the first leg of a failed execution. A failed profit check
      leaves it in the second-fill slot. */
  function ClosingFill(row: TradeRow): Option<LegFill> {
    if row.status.SecondLegProfitCheckFailed? then row.second else row.flatten
  }

  /** Signed pair units of one leg that a row left open. */
  function OpenUnits(row: TradeRow, leg: Leg): int {
    if row.status.Filled? || row.first.None? || !row.first.value.filled || row.first.value.leg != leg then 0
    else if ClosingFill(row).Some? && ClosingFill(row).value.filled then 0
    else row.first.value.side.Sign()
  }

  function OpenLegs(rows: seq<TradeRow>, leg: Leg): int {
    if rows == [] then 0 else OpenLegs(rows[..|rows| - 1], leg) + OpenUnits(rows[|rows| - 1], leg)
  }

  /** Bought minus sold pair units of one leg, as the position tracks them. */
  function TrackedUnits(position: PairPosition, leg: Leg): int {
    if leg.Stock? then position.stockUnits else -position.futureUnits
  }

  /** Exchange fills that neither the position nor an open first leg accounts for. */
  function Unexplained<E>(p: Port<E>, s: Run<E>, leg: Leg): int {
    p.netFilled(s.hbt, leg) - TrackedUnits(s.position, leg) - OpenLegs(s.rows, leg)
  }

  lemma OpenLegsAppend(rows: seq<TradeRow>, row: TradeRow, leg: Leg)
    ensures OpenLegs(rows + [row], leg) == OpenLegs(rows, leg) + OpenUnits(row, leg)
  {
  }

  // ---------------------------------------------------------------- the position

  /** The signal may be executed from the position: an entry never meets the other direction. */
  predicate Compatible(signal: Signal, position: PairPosition) {
    match signal
    case EnterLong => position.direction != EnterShort
    case EnterShort => position.direction != EnterLong
    case Exit => position.quantity > 0
    case Hold => false
  }

  /** A completed pair of fills moves both legs by one unit in step and keeps the position matched. */
  lemma UpdateKeepsValid(position: PairPosition, signal: Signal, first: LegFill, second: LegFill, pricing: PairPricing)
    requires ValidPosition(position) && Compatible(signal, position)
    requires first.leg != second.leg && first.execPrice.Some? && second.execPrice.Some?
    ensures
      var after := UpdatePosition(position, signal, first, second, pricing);
      && ValidPosition(after)
      && after.quantity == position.quantity + (if signal == Exit then -1 else 1)
      && after.stockUnits == position.stockUnits
           + (if signal == Exit then -DirectionSign(position.direction) else DirectionSign(signal))
  {
  }

  // ---------------------------------------------------------------- one execution

  /** How an execution changes the run: the position moves by one matched unit or not at all, and
      nothing unexplained appears on the exchange. */
  ghost predicate Accounted<E>(p: Port<E>, s: Run<E>, t: Run<E>, signal: Signal) {
    && ValidPosition(t.position)
    && (t.position == s.position
        || t.position.quantity == s.position.quantity + (if signal == Exit then -1 else 1))
    && (forall leg :: Unexplained(p, t, leg) == Unexplained(p, s, leg))
  }

  /** One new row accounts for the exchange fills since `s` that the position does not show. */
  lemma RowAccounts<E>(p: Port<E>, s: Run<E>, t: Run<E>, row: TradeRow, signal: Signal)
    requires t.rows == s.rows + [row]
    requires ValidPosition(t.position)
    requires t.position == s.position || t.position.quantity == s.position.quantity + (if signal == Exit then -1 else 1)
    requires forall leg ::
      p.netFilled(t.hbt, leg) - TrackedUnits(t.position, leg) - OpenUnits(row, leg)
      == p.netFilled(s.hbt, leg) - TrackedUnits(s.position, leg)
    ensures Accounted(p, s, t, signal)
  {
  }

  /** Between the legs: nothing recorded yet and exactly the first leg's fill on the exchange. */
  ghost predicate HoldsFirstLeg<E>(p: Port<E>, c: HbtConfig, s0: Run<E>, s: Run<E>, signal: Signal, first: LegFill) {
    && s.position == s0.position
    && s.rows == s0.rows
    && first.leg == c.firstLeg
    && first.filled
    && first.execPrice.Some?
    && LegSide(signal, s0.position, c.firstLeg) == Some(first.side)
    && p.netFilled(s.hbt, first.leg) == p.netFilled(s0.hbt, first.leg) + first.side.Sign()
    && p.netFilled(s.hbt, first.leg.Other()) == p.netFilled(s0.hbt, first.leg.Other())
  }

  lemma FailAccounted<E(!new)>(
    p: Port<E>, c: HbtConfig, s0: Run<E>, s: Run<E>, signal: Signal, status: Status, market: PairMarket, t: int,
    first: LegFill, second: Option<LegFill>)
    requires FillsAsReported(p, c) && ValidPair(c.pair) && ValidPosition(s0.position)
    requires HoldsFirstLeg(p, c, s0, s, signal, first)
    requires status.PostFirstFeedTimeout? || status.SecondLegProfitCheckFailed? || status.SecondLegUnfilled?
    ensures Accounted(p, s0, FailSecondLeg(p, c, s, signal, status, market, t, first, second), signal)
  {
    var request := FlattenRequest(c, s.position, s.orderId + 1, signal, market);
    assert ReportedFill(p, c, s.hbt, request);
    assert request.leg == first.leg && request.side == first.side.Opposite();
    var (flatten, s1) := FlattenFirstLeg(p, c, s, signal, market);
    var after := FailSecondLeg(p, c, s, signal, status, market, t, first, second);
    var row := after.rows[|s0.rows|];
    assert after.rows == s0.rows + [row] && after.hbt == s1.hbt;
    assert row.first == Some(first) && row.status == status && ClosingFill(row) == flatten;
    forall leg ensures
      p.netFilled(after.hbt, leg) - TrackedUnits(after.position, leg) - OpenUnits(row, leg)
      == p.netFilled(s0.hbt, leg) - TrackedUnits(s0.position, leg)
    {
      assert leg == first.leg || leg == first.leg.Other();
    }
    RowAccounts(p, s0, after, row, signal);
  }

  /** A pair that completes: both legs' fills are the position's one-unit move. */
  lemma FilledAccounted<E(!new)>(
    p: Port<E>, c: HbtConfig, s0: Run<E>, t: Run<E>, signal: Signal, first: LegFill, second: LegFill, pricing: PairPricing)
    requires ValidPosition(s0.position) && Compatible(signal, s0.position)
    requires LegSide(signal, s0.position, first.leg) == Some(first.side)
    requires LegSide(signal, s0.position, second.leg) == Some(second.side)
    requires second.leg == first.leg.Other() && first.execPrice.Some? && second.execPrice.Some?
    requires p.netFilled(t.hbt, first.leg) == p.netFilled(s0.hbt, first.leg) + first.side.Sign()
    requires p.netFilled(t.hbt, second.leg) == p.netFilled(s0.hbt, second.leg) + second.side.Sign()
    requires t.position == UpdatePosition(s0.position, signal, first, second, pricing)
    requires |t.rows| == |s0.rows| + 1 && t.rows[..|s0.rows|] == s0.rows && t.rows[|s0.rows|].status.Filled?
    ensures Accounted(p, s0, t, signal)
  {
    UpdateKeepsValid(s0.position, signal, first, second, pricing);
    var row := t.rows[|s0.rows|];
    assert t.rows == s0.rows + [row];
    forall leg ensures
      p.netFilled(t.hbt, leg) - TrackedUnits(t.position, leg) - OpenUnits(row, leg)
      == p.netFilled(s0.hbt, leg) - TrackedUnits(s0.position, leg)
    {
      assert leg == first.leg || leg == second.leg;
    }
    RowAccounts(p, s0, t, row, signal);
  }

  lemma CompleteAccounted<E(!new)>(
    p: Port<E>, c: HbtConfig, s0: Run<E>, s: Run<E>, signal: Signal, market: PairMarket, t: int, first: LegFill)
    requires FillsAsReported(p, c) && ValidPair(c.pair) && ValidPosition(s0.position) && Compatible(signal, s0.position)
    requires HoldsFirstLeg(p, c, s0, s, signal, first)
    requires LegSide(signal, s.position, c.firstLeg.Other()).Some?
    ensures Accounted(p, s0, CompletePair(p, c, s, signal, market, t, first), signal)
  {
    if c.secondLegProfitCheck && !SecondLegProfitOk(c.pair, s.position, signal, market) {
      FailAccounted(p, c, s0, s, signal, SecondLegProfitCheckFailed, market, t, first, None);
    } else {
      var request := LegRequest(c, s.position, s.orderId + 1, signal, c.firstLeg.Other(), market, true);
      assert ReportedFill(p, c, s.hbt, request);
      var (second, s1) := SubmitSecond(p, c, s, signal, market);
      assert second.leg == request.leg == first.leg.Other() && second.side == request.side;
      assert request.leg.Other() == first.leg;
      if !second.filled {
        FailAccounted(p, c, s0, s1, signal, SecondLegUnfilled, market, t, first, Some(second));
      } else {
        FilledAccounted(p, c, s0, CompletePair(p, c, s, signal, market, t, first), signal, first, second,
                        PriceMarket(c.pair, market));
      }
    }
  }

  lemma BetweenLegsTradesNothing<E(!new)>(p: Port<E>, c: HbtConfig, s: Run<E>, leg: Leg)
    requires Finite(p) && FillsAsReported(p, c)
    ensures p.netFilled(BetweenLegs(p, c, s).1.hbt, leg) == p.netFilled(s.hbt, leg)
  {
    var e := if c.secondLegDelayNs > 0 then p.advance(s.hbt, c.secondLegDelayNs).1 else s.hbt;
    PollTradesNothing(p, c, p.feedLatency(e, Stock), p.feedLatency(e, Future),
                      p.now(e) + MaxInt(0, c.postFirstFeedTimeoutNs), e, leg);
  }

  lemma {:induction false} PollTradesNothing<E(!new)>(
    p: Port<E>, c: HbtConfig, spot: Option<(int, int)>, future: Option<(int, int)>, deadline: int, e: E, leg: Leg)
    requires Finite(p) && FillsAsReported(p, c)
    ensures p.netFilled(PollFeeds(p, c, spot, future, deadline, e).1, leg) == p.netFilled(e, leg)
    decreases p.remaining(e)
  {
    if p.now(e) < deadline {
      var (ok, e') := p.advance(e, MinInt(MaxInt(1, c.postFirstFeedPollNs), deadline - p.now(e)));
      if ok && !FeedReady(p, c.postFirstFeedWait, spot, future, e') {
        PollTradesNothing(p, c, spot, future, deadline, e', leg);
      }
    }
  }

  /** _execute_signal, whatever the engine answers. */
  lemma ExecuteAccounted<E(!new)>(p: Port<E>, c: HbtConfig, s: Run<E>, signal: Signal, market: PairMarket)
    requires Finite(p) && FillsAsReported(p, c) && ValidPair(c.pair) && ValidPosition(s.position)
    requires Compatible(signal, s.position)
    requires LegSide(signal, s.position, c.firstLeg).Some? && LegSide(signal, s.position, c.firstLeg.Other()).Some?
    ensures Accounted(p, s, ExecuteSignal(p, c, s, signal, market), signal)
  {
    var request := LegRequest(c, s.position, s.orderId + 1, signal, c.firstLeg, market, false);
    assert ReportedFill(p, c, s.hbt, request);
    var (first, s1) := SubmitFirst(p, c, s, signal, market);
    assert first.leg == request.leg && first.side == request.side;
    var after := ExecuteSignal(p, c, s, signal, market);
    if !first.filled {
      OpenFirstAccounted(p, s, after, signal, first);
    } else {
      assert HoldsFirstLeg(p, c, s, s1, signal, first);
      var (ready, s2) := BetweenLegs(p, c, s1);
      forall leg { BetweenLegsTradesNothing(p, c, s1, leg); }
      assert HoldsFirstLeg(p, c, s, s2, signal, first);
      if ready.None? {
        OpenFirstAccounted(p, s, after, signal, first);
      } else {
        var current := CurrentMarket(p, s2.hbt);
        var m := if current.Some? then current.value else market;
        if ready.value {
          CompleteAccounted(p, c, s, s2, signal, m, p.now(s.hbt), first);
        } else {
          FailAccounted(p, c, s, s2, signal, PostFirstFeedTimeout, m, p.now(s.hbt), first, None);
        }
      }
    }
  }

  /** Rows that close nothing: an unfilled first leg, or the end of data before the second. */
  lemma OpenFirstAccounted<E(!new)>(p: Port<E>, s: Run<E>, t: Run<E>, signal: Signal, first: LegFill)
    requires ValidPosition(s.position) && t.position == s.position
    requires |t.rows| == |s.rows| + 1 && t.rows[..|s.rows|] == s.rows
    requires
      var row := t.rows[|s.rows|];
      row.first == Some(first) && row.second.None? && row.flatten.None? && !row.status.Filled?
    requires p.netFilled(t.hbt, first.leg) == p.netFilled(s.hbt, first.leg) + if first.filled then first.side.Sign() else 0
    requires p.netFilled(t.hbt, first.leg.Other()) == p.netFilled(s.hbt, first.leg.Other())
    ensures Accounted(p, s, t, signal)
  {
  }

  // ---------------------------------------------------------------- main results

  /** What every run from `s` keeps. */
  ghost predicate Kept<E>(p: Port<E>, c: HbtConfig, s: Run<E>, t: Run<E>) {
    && ValidPosition(t.position)
    && (c.enforceRiskLimits ==> t.position.quantity <= MaxInt(s.position.quantity, c.pair.maxPairs))
    && (forall leg :: Unexplained(p, t, leg) == Unexplained(p, s, leg))
  }

  /** The strategy only acts on what its position allows, and below the limit when limits are on. */
  lemma DecisionCompatible<E>(c: HbtConfig, s: Run<E>, market: PairMarket)
    requires ValidPair(c.pair) && ValidPosition(s.position)
    ensures
      var d := DecideRun(c, s, market);
      && (d.action != Hold ==>
            && Compatible(d.action, s.position)
            && LegSide(d.action, s.position, Stock).Some? && LegSide(d.action, s.position, Future).Some?)
      && (d.shouldExecute && c.enforceRiskLimits && d.action in {EnterLong, EnterShort} ==> s.position.quantity < c.pair.maxPairs)
  {
    hide PriceMarket, EvaluateWithStopLoss, CheckRisk;
  }

  lemma VisitKeeps<E(!new)>(p: Port<E>, c: HbtConfig, s: Run<E>)
    requires Finite(p) && FillsAsReported(p, c) && ValidPair(c.pair) && ValidPosition(s.position)
    ensures Kept(p, c, s, Visit(p, c, s))
  {
    hide CurrentMarket, ExecuteSignal, PriceMarket, Finite, FillsAsReported;
    var current := CurrentMarket(p, s.hbt);
    if current.Some? {
      var market := current.value;
      var d := DecideRun(c, s, market);
      DecisionCompatible(c, s, market);
      hide DecideRun;
      var s1 := RecordMarketRow(p, c, s.(last := Some(market)), market, d.action, false);
      assert s1.position == s.position && s1.rows == s.rows && s1.hbt == s.hbt;
      if d.action != Hold && d.shouldExecute {
        ExecuteAccounted(p, c, s1, d.action, market);
        assert forall leg :: Unexplained(p, s1, leg) == Unexplained(p, s, leg);
      } else if d.action != Hold {
        var t := Visit(p, c, s);
        forall leg ensures Unexplained(p, t, leg) == Unexplained(p, s, leg) {
          OpenLegsAppend(s.rows, t.rows[|s.rows|], leg);
        }
      }
    }
  }

  /** Every run keeps the position matched (quantity >= 0, HOLD iff flat, both legs at the signed
      quantity) and within its limit, and ends with net exchange fills per leg equal to the tracked
      position change plus exactly the first legs left open. */
  lemma {:induction false} PlainLoopKeeps<E(!new)>(p: Port<E>, c: HbtConfig, s: Run<E>)
    requires Finite(p) && FillsAsReported(p, c) && ValidConfig(c) && ValidPosition(s.position)
    ensures Kept(p, c, s, PlainLoop(p, c, s))
    decreases p.remaining(s.hbt)
  {
    if !Exhausted(c, s) {
      var (ok, e) := AdvanceClock(p, c, s.hbt);
      var s1 := s.(hbt := e, step := s.step + 1);
      assert forall leg :: p.netFilled(e, leg) == p.netFilled(s.hbt, leg);
      if ok {
        VisitConsumes(p, c, s1);
        VisitKeeps(p, c, s1);
        PlainLoopKeeps(p, c, Visit(p, c, s1));
      }
    }
  }

  /** From a fresh backtester, spelled out per leg: what the exchange filled is the final position
      less the initial one, plus the open first legs of the rows. */
  lemma RunConservesExposure<E(!new)>(p: Port<E>, c: HbtConfig, hbt: E)
    requires Finite(p) && FillsAsReported(p, c) && ValidConfig(c)
    requires ValidPosition(BuildInitialPosition(c.pair))
    ensures
      var initial := BuildInitialPosition(c.pair);
      var t := RunPlain(p, c, Start(c, hbt));
      && (forall leg ::
            p.netFilled(t.hbt, leg) - p.netFilled(hbt, leg)
            == TrackedUnits(t.position, leg) - TrackedUnits(initial, leg) + OpenLegs(t.rows, leg))
      && ValidPosition(t.position)
      && (c.enforceRiskLimits ==> t.position.quantity <= MaxInt(initial.quantity, c.pair.maxPairs))
  {
    var s := Start(c, hbt);
    PlainLoopKeeps(p, c, s);
    var t := RunPlain(p, c, s);
    forall leg ensures
      p.netFilled(t.hbt, leg) - p.netFilled(hbt, leg)
      == TrackedUnits(t.position, leg) - TrackedUnits(s.position, leg) + OpenLegs(t.rows, leg)
    {
      assert Unexplained(p, PlainLoop(p, c, s), leg) == Unexplained(p, s, leg);
    }
  }

  /** The scanner-driven run keeps the same, because it ends in the plain loop's state. */
  lemma ScannedLoopKeeps<E(!new)>(p: Port<E>, c: HbtConfig, s: Run<E>)
    requires Finite(p) && FillsAsReported(p, c) && ValidConfig(c) && ValidPosition(s.position)
    requires !c.eventClock && UnambiguousClock(p)
    ensures ScannedLoop(p, c, s).Ok? && Kept(p, c, s, ScannedLoop(p, c, s).value)
  {
    ScannerRefinesPlainLoop(p, c, s);
    PlainLoopKeeps(p, c, s);
    var t, u := ScannedLoop(p, c, s).value, PlainLoop(p, c, s);
    assert t.position == u.position && t.rows == u.rows && t.hbt == u.hbt;
    forall leg ensures Unexplained(p, t, leg) == Unexplained(p, s, leg) {
      assert Unexplained(p, u, leg) == Unexplained(p, s, leg);
    }
  }
}
