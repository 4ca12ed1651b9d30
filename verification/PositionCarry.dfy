/** Carrying an open position to the next trade day: summary row, snapshot, restored pair, position. */
module PositionCarry {
  import opened Wrappers
  import opened Models
  import opened Strategy
  import opened Replay
  import opened Exposure
  import opened ContractExpiry

  /** The columns of a pair summary row that the next day reads. */
  datatype SummaryRow = SummaryRow(
    finalQuantity: Option<real>,
    finalDirection: Signal,
    finalEntryBasisPct: Option<real>,
    finalEntrySpotPrice: Option<real>,
    finalEntryFuturePrice: Option<real>)

  datatype PositionSnapshot = PositionSnapshot(
    sourceTradeDate: Date,
    pair: PairConfig,
    configPath: string,
    quantity: int,
    direction: Signal,
    entryBasisPct: real,
    entrySpotPrice: real,
    entryFuturePrice: real)

  datatype SnapshotError = NonIntegralQuantity | InvalidDirection | MissingEntryPrices

  function SummaryOf(position: PairPosition): SummaryRow {
    SummaryRow(
      Some(position.quantity as real), position.direction,
      position.entryBasisPct, position.entrySpotPrice, position.entryFuturePrice)
  }

  function PositiveOnly(value: Option<real>): Option<real> {
    if value.Some? && value.value > 0.0 then value else None
  }

  /** The basis a snapshot falls back to when the row has none. */
  function EntryBasis(direction: Signal, spot: real, future: real): real
    requires spot > 0.0
  {
    if direction == EnterLong then (future - spot) / spot else (spot - future) / spot
  }

  /** snapshot_from_summary_row. */
  function SnapshotOf(row: SummaryRow, pair: PairConfig, configPath: string, tradeDate: Date): Result<Option<PositionSnapshot>, SnapshotError> {
    if row.finalQuantity.None? || row.finalQuantity.value <= 0.0 then Ok(None)
    else
      var quantity := RoundHalfEven(row.finalQuantity.value);
      var gap := row.finalQuantity.value - quantity as real;
      var spot, future := PositiveOnly(row.finalEntrySpotPrice), PositiveOnly(row.finalEntryFuturePrice);
      if gap > 0.000_000_001 || -gap > 0.000_000_001 then Err(NonIntegralQuantity)
      else if row.finalDirection != EnterLong && row.finalDirection != EnterShort then Err(InvalidDirection)
      else if spot.None? || future.None? then Err(MissingEntryPrices)
      else
        var basis :=
          if row.finalEntryBasisPct.Some? then row.finalEntryBasisPct.value
          else EntryBasis(row.finalDirection, spot.value, future.value);
        Ok(Some(PositionSnapshot(tradeDate, pair, configPath, quantity, row.finalDirection, basis, spot.value, future.value)))
  }

  predicate NearInteger(x: real, n: int) { n as real - 0.000_000_001 <= x <= n as real + 0.000_000_001 }

  /** When a summary row is a position and when it raises: the quantity must be whole, the direction one of
      the two, and both prices positive, in this order; no quantity, or none above zero, is no position. */
  lemma SnapshotIff(row: SummaryRow, pair: PairConfig, configPath: string, tradeDate: Date)
    ensures
      var r := SnapshotOf(row, pair, configPath, tradeDate);
      var held := row.finalQuantity.Some? && row.finalQuantity.value > 0.0;
      var whole := held && exists n: int :: NearInteger(row.finalQuantity.value, n);
      var directed := row.finalDirection == EnterLong || row.finalDirection == EnterShort;
      var priced := PositiveOnly(row.finalEntrySpotPrice).Some? && PositiveOnly(row.finalEntryFuturePrice).Some?;
      && (r == Ok(None) <==> !held)
      && (r == Err(NonIntegralQuantity) <==> held && !whole)
      && (r == Err(InvalidDirection) <==> whole && !directed)
      && (r == Err(MissingEntryPrices) <==> whole && directed && !priced)
      && (r.Ok? && r.value.Some? <==> whole && directed && priced)
  {
    if row.finalQuantity.Some? {
      var x := row.finalQuantity.value;
      var q := RoundHalfEven(x);
      if n: int :| NearInteger(x, n) { assert q == n; }
      if !NearInteger(x, q) { assert forall n: int :: NearInteger(x, n) ==> n == q; }
    }
  }

  /** What a position row becomes: its own date, pair and configuration, its quantity rounded, and its
      basis, or the one its entry prices imply. */
  lemma SnapshotFields(row: SummaryRow, pair: PairConfig, configPath: string, tradeDate: Date)
    requires SnapshotOf(row, pair, configPath, tradeDate).Ok? && SnapshotOf(row, pair, configPath, tradeDate).value.Some?
    ensures
      var p := SnapshotOf(row, pair, configPath, tradeDate).value.value;
      && p.sourceTradeDate == tradeDate && p.pair == pair && p.configPath == configPath
      && NearInteger(row.finalQuantity.value, p.quantity) && p.direction == row.finalDirection
      && Some(p.entrySpotPrice) == row.finalEntrySpotPrice && Some(p.entryFuturePrice) == row.finalEntryFuturePrice
      && (if row.finalEntryBasisPct.Some? then Some(p.entryBasisPct) == row.finalEntryBasisPct
          else p.entryBasisPct * p.entrySpotPrice
               == if p.direction == EnterLong then p.entryFuturePrice - p.entrySpotPrice else p.entrySpotPrice - p.entryFuturePrice)
  {
  }

  function RestoredPair(snapshot: PositionSnapshot, target: PairConfig): PairConfig {
    target.(initialPosition := InitialPosition(
      snapshot.quantity, snapshot.direction, Some(snapshot.entryBasisPct),
      Some(snapshot.entrySpotPrice), Some(snapshot.entryFuturePrice)))
  }

  // ---------------------------------------------------------------- the round trip

  /** Open positions carry all their entry values and positive entry prices. */
  predicate Priced(position: PairPosition) {
    position.quantity != 0 ==>
      && position.entryBasisPct.Some?
      && PositiveOnly(position.entrySpotPrice).Some?
      && PositiveOnly(position.entryFuturePrice).Some?
  }

  /** A matched, priced position restores to itself except for the time of its last entry, and a
      flat one leaves nothing to restore. */
  lemma CarryRoundTrip(position: PairPosition, pair: PairConfig, target: PairConfig, configPath: string, tradeDate: Date)
    requires ValidPosition(position) && Priced(position)
    ensures
      var carried := SnapshotOf(SummaryOf(position), pair, configPath, tradeDate);
      && carried.Ok?
      && (carried.value.Some? <==> position.HasPosition())
      && (carried.value.Some? ==>
            BuildInitialPosition(RestoredPair(carried.value.value, target)) == position.(lastEntryTime := None))
  {
  }

  /** A matched open position survives the carry in full exactly when it is priced. */
  lemma CarryRoundTripIff(position: PairPosition, pair: PairConfig, target: PairConfig, configPath: string, tradeDate: Date)
    requires ValidPosition(position) && position.HasPosition()
    ensures
      var carried := SnapshotOf(SummaryOf(position), pair, configPath, tradeDate);
      && (carried.Err? <==> PositiveOnly(position.entrySpotPrice).None? || PositiveOnly(position.entryFuturePrice).None?)
      && ((carried.Ok? && carried.value.Some?
           && BuildInitialPosition(RestoredPair(carried.value.value, target)) == position.(lastEntryTime := None))
          <==> Priced(position))
  {
  }

  // ---------------------------------------------------------------- reachable positions are priced

  predicate Carriable(position: PairPosition) { ValidPosition(position) && Priced(position) }

  lemma AveragePositive(oldValue: Option<real>, oldWeight: int, newValue: real)
    requires newValue > 0.0 && (oldWeight > 0 ==> PositiveOnly(oldValue).Some?)
    ensures WeightedAverage(oldValue, oldWeight, newValue, 1) > 0.0
  {
    if oldWeight > 0 {
      ProductPositive(oldValue.value, oldWeight as real);
      var total := oldValue.value * oldWeight as real + newValue;
      assert WeightedAverage(oldValue, oldWeight, newValue, 1) == total / (oldWeight + 1) as real;
      QuotientPositive(total, (oldWeight + 1) as real);
    }
  }

  lemma QuotientPositive(a: real, b: real)
    requires a > 0.0 && b > 0.0
    ensures a / b > 0.0
  {
  }

  lemma UpdateKeepsCarriable(position: PairPosition, signal: Signal, first: LegFill, second: LegFill, pricing: PairPricing)
    requires Carriable(position) && Compatible(signal, position) && first.leg != second.leg
    requires first.execPrice == PositiveOnly(first.execPrice) && second.execPrice == PositiveOnly(second.execPrice)
    ensures Carriable(UpdatePosition(position, signal, first, second, pricing))
  {
    if first.execPrice.Some? && second.execPrice.Some? {
      UpdateKeepsValid(position, signal, first, second, pricing);
      if signal != Exit {
        AveragePositive(position.entrySpotPrice, position.quantity, FillOf(Stock, first, second).execPrice.value);
        AveragePositive(position.entryFuturePrice, position.quantity, FillOf(Future, first, second).execPrice.value);
      }
    }
  }

  lemma CompleteKeepsCarriable<E(!new)>(
    p: Port<E>, c: HbtConfig, s: Run<E>, signal: Signal, market: PairMarket, t: int, first: LegFill)
    requires Finite(p) && ValidPair(c.pair) && Carriable(s.position) && Compatible(signal, s.position)
    requires LegSide(signal, s.position, c.firstLeg).Some? && LegSide(signal, s.position, c.firstLeg.Other()).Some?
    requires first.leg == c.firstLeg && first.execPrice == PositiveOnly(first.execPrice)
    ensures Carriable(CompletePair(p, c, s, signal, market, t, first).position)
  {
    var (second, s1) := SubmitSecond(p, c, s, signal, market);
    assert second.leg == c.firstLeg.Other() && second.execPrice == PositiveOnly(second.execPrice);
    UpdateKeepsCarriable(s.position, signal, first, second, PriceMarket(c.pair, market));
    hide LegRequest, FlattenRequest, SubmitRawLeg, PriceMarket, UpdatePosition, Carriable, RealizedPnl, FlattenPnl;
  }

  lemma ExecuteKeepsCarriable<E(!new)>(p: Port<E>, c: HbtConfig, s: Run<E>, signal: Signal, market: PairMarket)
    requires Finite(p) && ValidPair(c.pair) && Carriable(s.position) && Compatible(signal, s.position)
    requires LegSide(signal, s.position, c.firstLeg).Some? && LegSide(signal, s.position, c.firstLeg.Other()).Some?
    ensures Carriable(ExecuteSignal(p, c, s, signal, market).position)
  {
    var (first, s1) := SubmitFirst(p, c, s, signal, market);
    assert first.leg == c.firstLeg && first.execPrice == PositiveOnly(first.execPrice);
    hide LegRequest, FlattenRequest, SubmitRawLeg, PriceMarket, UpdatePosition, Carriable, CompletePair, Finite;
    if first.filled {
      var (ready, s2) := BetweenLegs(p, c, s1);
      if ready == Some(true) {
        var current := CurrentMarket(p, s2.hbt);
        var m := if current.Some? then current.value else market;
        CompleteKeepsCarriable(p, c, s2, signal, m, p.now(s.hbt), first);
      }
    }
  }

  /** Whatever the engine answers, every position a run reaches can be carried. */
  lemma {:induction false} RunKeepsCarriable<E(!new)>(p: Port<E>, c: HbtConfig, s: Run<E>)
    requires Finite(p) && ValidConfig(c) && Carriable(s.position)
    ensures Carriable(PlainLoop(p, c, s).position)
    decreases p.remaining(s.hbt)
  {
    if !Exhausted(c, s) {
      var (ok, e) := AdvanceClock(p, c, s.hbt);
      if ok {
        var s1 := s.(hbt := e, step := s.step + 1);
        VisitConsumes(p, c, s1);
        var current := CurrentMarket(p, s1.hbt);
        if current.Some? {
          var d := DecideRun(c, s1, current.value);
          if d.action != Hold && d.shouldExecute {
            var s2 := RecordMarketRow(p, c, s1.(last := current), current.value, d.action, false);
            ExecuteKeepsCarriable(p, c, s2, d.action, current.value);
          }
        }
        assert Carriable(Visit(p, c, s1).position) by { hide ExecuteSignal, Carriable; }
        RunKeepsCarriable(p, c, Visit(p, c, s1));
      }
    }
  }

  /** The position a run ends with is the position the next day's run starts from, but for the time
      of the last entry. */
  lemma NextDayStartsWhereRunEnded<E(!new)>(p: Port<E>, c: HbtConfig, hbt: E, tomorrow: HbtConfig, configPath: string, tradeDate: Date, next: E)
    requires Finite(p) && ValidConfig(c) && Carriable(BuildInitialPosition(c.pair))
    ensures
      var end := RunPlain(p, c, Start(c, hbt)).position;
      var carried := SnapshotOf(SummaryOf(end), c.pair, configPath, tradeDate);
      && carried.Ok?
      && (carried.value.Some? <==> end.HasPosition())
      && (carried.value.Some? ==>
            Start(tomorrow.(pair := RestoredPair(carried.value.value, tomorrow.pair)), next).position
            == end.(lastEntryTime := None))
  {
    RunKeepsCarriable(p, c, Start(c, hbt));
    CarryRoundTrip(RunPlain(p, c, Start(c, hbt)).position, c.pair, tomorrow.pair, configPath, tradeDate);
  }
}
