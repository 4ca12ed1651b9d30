/** What the flatten column of an execution row says about the first leg, and when it misleads. */
module FlattenColumn {
  import opened Wrappers
  import opened Models
  import opened Strategy
  import opened Replay
  import opened Exposure

  /** One execution appends one row for its first leg; only a filled pair moves the position, and a
      failed profit check leaves the flatten column empty. */
  ghost predicate RowShape<E>(c: HbtConfig, s: Run<E>, t: Run<E>, signal: Signal) {
    && |t.rows| == |s.rows| + 1 && t.rows[..|s.rows|] == s.rows
    && var row := t.rows[|s.rows|];
       && row.first.Some? && row.first.value.leg == c.firstLeg
       && (row.status.Filled? ==>
             row.flatten.None? && t.position.quantity == s.position.quantity + (if signal == Exit then -1 else 1))
       && (!row.status.Filled? ==> t.position == s.position)
       && (row.status.SecondLegProfitCheckFailed? ==> row.flatten.None? && row.first.value.filled)
  }

  lemma FailRow<E>(
    p: Port<E>, c: HbtConfig, s: Run<E>, signal: Signal, status: Status, market: PairMarket, t: int,
    first: LegFill, second: Option<LegFill>)
    requires ValidPair(c.pair) && LegSide(signal, s.position, c.firstLeg).Some?
    requires first.leg == c.firstLeg && first.filled && !status.Filled?
    ensures RowShape(c, s, FailSecondLeg(p, c, s, signal, status, market, t, first, second), signal)
  {
    hide SubmitRawLeg, FlattenRequest, FlattenPnl;
  }

  lemma CompleteRow<E(!new)>(
    p: Port<E>, c: HbtConfig, s0: Run<E>, s: Run<E>, signal: Signal, market: PairMarket, t: int, first: LegFill)
    requires FillsAsReported(p, c) && ValidPair(c.pair) && ValidPosition(s0.position) && Compatible(signal, s0.position)
    requires HoldsFirstLeg(p, c, s0, s, signal, first)
    requires LegSide(signal, s.position, c.firstLeg.Other()).Some?
    ensures RowShape(c, s0, CompletePair(p, c, s, signal, market, t, first), signal)
  {
    if c.secondLegProfitCheck && !SecondLegProfitOk(c.pair, s.position, signal, market) {
      FailRow(p, c, s, signal, SecondLegProfitCheckFailed, market, t, first, None);
    } else {
      var request := LegRequest(c, s.position, s.orderId + 1, signal, c.firstLeg.Other(), market, true);
      assert ReportedFill(p, c, s.hbt, request);
      var (second, s1) := SubmitSecond(p, c, s, signal, market);
      assert second.leg == request.leg == first.leg.Other();
      hide SubmitRawLeg, LegRequest, SecondLegProfitOk, FillsAsReported, PriceMarket, RealizedPnl;
      if !second.filled {
        FailRow(p, c, s1, signal, SecondLegUnfilled, market, t, first, Some(second));
      } else {
        UpdateKeepsValid(s0.position, signal, first, second, PriceMarket(c.pair, market));
        hide UpdatePosition;
      }
    }
  }

  lemma ExecuteRow<E(!new)>(p: Port<E>, c: HbtConfig, s: Run<E>, signal: Signal, market: PairMarket)
    requires Finite(p) && FillsAsReported(p, c) && ValidPair(c.pair) && ValidPosition(s.position)
    requires Compatible(signal, s.position)
    requires LegSide(signal, s.position, c.firstLeg).Some? && LegSide(signal, s.position, c.firstLeg.Other()).Some?
    ensures RowShape(c, s, ExecuteSignal(p, c, s, signal, market), signal)
  {
    var request := LegRequest(c, s.position, s.orderId + 1, signal, c.firstLeg, market, false);
    assert ReportedFill(p, c, s.hbt, request);
    var (first, s1) := SubmitFirst(p, c, s, signal, market);
    assert first.leg == request.leg && first.side == request.side;
    hide SubmitRawLeg, LegRequest, CompletePair, FailSecondLeg;
    if first.filled {
      var (ready, s2) := BetweenLegs(p, c, s1);
      forall leg { BetweenLegsTradesNothing(p, c, s1, leg); }
      assert HoldsFirstLeg(p, c, s, s2, signal, first);
      hide Finite, FillsAsReported, BetweenLegs;
      if ready.Some? {
        var current := CurrentMarket(p, s2.hbt);
        var m := if current.Some? then current.value else market;
        if ready.value {
          CompleteRow(p, c, s, s2, signal, m, p.now(s.hbt), first);
        } else {
          FailRow(p, c, s2, signal, PostFirstFeedTimeout, m, p.now(s.hbt), first, None);
        }
      }
    }
  }

  /** A one-unit change of a matched position shows on both legs. */
  lemma OneUnitShows(before: PairPosition, after: PairPosition, leg: Leg)
    requires ValidPosition(before) && ValidPosition(after)
    requires after.quantity == before.quantity + 1 || after.quantity == before.quantity - 1
    ensures TrackedUnits(after, leg) != TrackedUnits(before, leg)
  {
  }

  /** For every row the execution writes: the first leg filled, the flatten column is empty and yet the
      exchange's ledger shows the first leg closed, exactly when the second-leg profit check failed and
      its flatten order filled. */
  lemma FlattenColumnMisleadsIff<E(!new)>(p: Port<E>, c: HbtConfig, s: Run<E>, signal: Signal, market: PairMarket)
    requires Finite(p) && FillsAsReported(p, c) && ValidPair(c.pair) && ValidPosition(s.position)
    requires Compatible(signal, s.position)
    requires LegSide(signal, s.position, c.firstLeg).Some? && LegSide(signal, s.position, c.firstLeg.Other()).Some?
    ensures
      var t := ExecuteSignal(p, c, s, signal, market);
      && |t.rows| == |s.rows| + 1
      && var row := t.rows[|s.rows|];
         && row.first.Some?
         && ((row.first.value.filled && row.flatten.None?
              && p.netFilled(t.hbt, c.firstLeg) == p.netFilled(s.hbt, c.firstLeg))
             <==> row.status.SecondLegProfitCheckFailed? && row.second.Some? && row.second.value.filled)
  {
    ExecuteRow(p, c, s, signal, market);
    ExecuteAccounted(p, c, s, signal, market);
    hide ExecuteSignal, Finite, FillsAsReported, Compatible;
    var t := ExecuteSignal(p, c, s, signal, market);
    var row := t.rows[|s.rows|];
    assert t.rows == s.rows + [row];
    OpenLegsAppend(s.rows, row, c.firstLeg);
    assert Unexplained(p, t, c.firstLeg) == Unexplained(p, s, c.firstLeg);
    if row.status.Filled? { OneUnitShows(s.position, t.position, c.firstLeg); }
  }

  // ---------------------------------------------------------------- a run on which it misleads

  /** A market of two steps that fills every order whole at its price: the exchange's ledger per leg
      and the order filled last. */
  datatype Exchange = Exchange(step: int, stock: int, future: int, filled: Option<OrderRequest>) {
    function After(r: OrderRequest): Exchange {
      if r.leg.Stock? then Exchange(step, stock + r.side.Sign(), future, Some(r))
      else Exchange(step, stock, future + r.side.Sign(), Some(r))
    }

    /** The future trades above the stock at the first step and below it after. */
    function Book(leg: Leg): Depth {
      if leg.Stock? then Depth(99.0, 100.0, 5.0, 5.0)
      else if step <= 1 then Depth(110.0, 111.0, 5.0, 5.0)
      else Depth(90.0, 91.0, 5.0, 5.0)
    }

    function View(): Option<OrderView> {
      if filled.None? then None
      else Some(OrderView(false, if filled.value.price > 0.0 then filled.value.price else 1.0, 1.0, step, step))
    }
  }

  function FillingPort(): Port<Exchange> {
    Port(
      (e: Exchange) => e.step,
      (e: Exchange, l: Leg) => Some(e.Book(l)),
      (e: Exchange, l: Leg) => None,
      (e: Exchange, d: int) => if e.step < 2 then (true, e.(step := e.step + 1)) else (false, e),
      (e: Exchange) => if e.step < 2 then (true, e.(step := e.step + 1)) else (false, e),
      (e: Exchange, r: OrderRequest) => (0, e.After(r)),
      (e: Exchange, l: Leg, i: int, t: int) => (0, e),
      (e: Exchange, l: Leg, i: int) => e.View(),
      (e: Exchange, l: Leg, i: int, t: int) => e,
      (e: Exchange, l: Leg) => e,
      (e: Exchange) => if e.step < 2 then 2 - e.step else 0,
      (e: Exchange, l: Leg) => if l.Stock? then e.stock else e.future)
  }

  /** Enters at a five percent basis, one tick of one on either leg, and rechecks it before the second
      leg one step later. */
  function RecheckingPair(): PairConfig {
    PairConfig(
      "pair", "spot", "future", 1, 1, 1, 1, 1, 0.05, -1.0, -10.0, 1000.0, Models.Gte, None, -1000.0, 0.0, Some(1.0), Some(1.0),
      0.0, 0.0, 0.0, 1, false, 0.0, 0.0, 0.0, 0.0, Rod, 0.0, Rod, None, 0.0, Ioc,
      InitialPosition(0, Hold, None, None, None))
  }

  function RecheckingConfig(): HbtConfig {
    HbtConfig(RecheckingPair(), Stock, false, 1, 1, 1, NoWait, 0, 1, None, None, true, true, true, None)
  }

  lemma FillingPortIsFinite()
    ensures Finite(FillingPort()) && ValidConfig(RecheckingConfig())
  {
  }

  lemma FillingPortReports()
    ensures FillsAsReported(FillingPort(), RecheckingConfig())
  {
    forall e, request ensures ReportedFill(FillingPort(), RecheckingConfig(), e, request) { OrderReported(e, request); }
    hide ReportedFill;
  }

  lemma OrderReported(e: Exchange, request: OrderRequest)
    ensures ReportedFill(FillingPort(), RecheckingConfig(), e, request)
  {
    hide RecheckingConfig;
  }

  /** The market of a step. */
  function MarketAt(step: int): PairMarket {
    var e := Exchange(step, 0, 0, None);
    PairMarket(
      Quote(e.Book(Stock).bid, e.Book(Stock).ask, 5.0, 5.0, step, None),
      Quote(e.Book(Future).bid, e.Book(Future).ask, 5.0, 5.0, step, None))
  }

  lemma SeesMarket(e: Exchange)
    ensures CurrentMarket(FillingPort(), e) == Some(MarketAt(e.step))
  {
  }

  /** The position of a run that has not traded. */
  const FLAT_START := BuildInitialPosition(RecheckingPair())

  lemma EntersAtFirst(s: Run<Exchange>)
    requires s.position == FLAT_START
    ensures
      var d := DecideRun(RecheckingConfig(), s, MarketAt(1));
      d.action == EnterLong && d.shouldExecute
  {
    var pair, market := RecheckingPair(), MarketAt(1);
    var pricing := PriceMarket(pair, market);
    assert pricing.longPct == 0.1 && pricing.longTicks > -1000.0;
  }

  lemma RecheckFails()
    ensures !SecondLegProfitOk(RecheckingPair(), FLAT_START, EnterLong, MarketAt(2))
  {
    assert PriceMarket(RecheckingPair(), MarketAt(2)).longPct == -0.1;
  }

  /** Any order of the port fills, at once and whole. */
  lemma OrderFills(e: Exchange, request: OrderRequest)
    ensures
      var (fill, e') := SubmitRawLeg(FillingPort(), RecheckingConfig(), e, request);
      e' == e.After(request) && fill.filled && fill.leg == request.leg
  {
  }

  lemma ExecutesAndFlattens(s: Run<Exchange>)
    requires s.position == FLAT_START && s.hbt == Exchange(1, 0, 0, None) && s.rows == []
    requires Finite(FillingPort())
    ensures
      var t := ExecuteSignal(FillingPort(), RecheckingConfig(), s, EnterLong, MarketAt(1));
      && |t.rows| == 1 && t.rows[0].status.SecondLegProfitCheckFailed? && t.rows[0].flatten.None?
      && t.rows[0].first.Some? && t.rows[0].first.value.filled
      && t.hbt.step == 2 && t.hbt.stock == 0 && t.hbt.future == 0
  {
    var p, c := FillingPort(), RecheckingConfig();
    var buy := LegRequest(c, s.position, s.orderId + 1, EnterLong, Stock, MarketAt(1), false);
    OrderFills(s.hbt, buy);
    assert buy.leg.Stock? && buy.side.Buy?;
    var (first, s1) := SubmitFirst(p, c, s, EnterLong, MarketAt(1));
    assert s1.hbt.step == 1 && s1.hbt.stock == 1 && s1.hbt.future == 0;
    var (ready, s2) := BetweenLegs(p, c, s1);
    assert ready == Some(true) && s2.hbt == s1.hbt.(step := 2);
    SeesMarket(s2.hbt);
    RecheckFails();
    var sell := FlattenRequest(c, s2.position, s2.orderId + 1, EnterLong, MarketAt(2));
    OrderFills(s2.hbt, sell);
    assert sell.leg.Stock? && sell.side.Sell?;
    hide Finite, LegRequest, FlattenRequest, SubmitRawLeg, SecondLegProfitOk, BetweenLegs, FlattenPnl, MarketAt, FillingPort;
  }

  /** The run enters, fails its recheck and flattens: the one row has an empty flatten column, and the
      exchange holds nothing. */
  lemma FlattenColumnMisleads()
    ensures
      var p, c := FillingPort(), RecheckingConfig();
      && Finite(p) && ValidConfig(c) && FillsAsReported(p, c)
      && var t := RunPlain(p, c, Start(c, Exchange(0, 0, 0, None)));
         && |t.rows| == 1 && t.rows[0].status.SecondLegProfitCheckFailed? && t.rows[0].flatten.None?
         && t.rows[0].first.Some? && t.rows[0].first.value.filled && t.hbt.stock == 0 && t.hbt.future == 0
  {
    FillingPortIsFinite();
    FillingPortReports();
    hide Finite, FillsAsReported, MarketAt, ExecuteSignal, CurrentMarket, DecideRun, SubmitRawLeg;
    var p, c := FillingPort(), RecheckingConfig();
    var s := Start(c, Exchange(0, 0, 0, None));
    var s1 := s.(hbt := Exchange(1, 0, 0, None), step := 1);
    SeesMarket(s1.hbt);
    EntersAtFirst(s1.(last := Some(MarketAt(1))));
    EntersAtFirst(s1);
    var s2 := RecordMarketRow(p, c, s1.(last := Some(MarketAt(1))), MarketAt(1), EnterLong, false);
    ExecutesAndFlattens(s2);
    assert PlainLoop(p, c, s) == PlainLoop(p, c, Visit(p, c, s1));
    assert Visit(p, c, s1) == ExecuteSignal(p, c, s2, EnterLong, MarketAt(1));
  }
}
