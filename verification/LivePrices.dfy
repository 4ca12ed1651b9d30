/** What fills do to the entry prices of the live position, and how long a failed second leg blocks entries. */
module LivePrices {
  import opened Wrappers
  import opened Models
  import opened LiveOrders
  import opened LiveProtocol

  // ---------------------------------------------------------------- entry prices

  datatype Fill = Fill(leg: Leg, side: Side, units: int, price: real, now: real)

  /** Fills one after the other, with whatever the position held before. */
  function FillAll(s: Live, fills: seq<Fill>): Live
    requires forall k :: 0 <= k < |fills| ==> fills[k].units > 0
  {
    if fills == [] then s
    else
      var f := fills[|fills| - 1];
      Filled(FillAll(s, fills[..|fills| - 1]), f.leg, f.side, f.units, f.price, f.now)
  }

  function EntryPrice(s: Live, leg: Leg): Option<real> {
    if leg.Stock? then s.position.entrySpotPrice else s.position.entryFuturePrice
  }

  /** The fills of one leg: their signed units, and their units at their prices. */
  function UnitsOf(fills: seq<Fill>, leg: Leg): int {
    if fills == [] then 0
    else
      var f := fills[|fills| - 1];
      UnitsOf(fills[..|fills| - 1], leg) + if f.leg == leg then SignedUnits(leg, f.side, f.units) else 0
  }

  function CostOf(fills: seq<Fill>, leg: Leg): real {
    if fills == [] then 0.0
    else
      var f := fills[|fills| - 1];
      CostOf(fills[..|fills| - 1], leg) + if f.leg == leg then f.price * f.units as real else 0.0
  }

  /** A fill moves its own leg's units only, and its own leg's entry price unless the pair is flat. */
  lemma FillMovesLeg(s: Live, f: Fill)
    requires f.units > 0
    ensures
      var t := Filled(s, f.leg, f.side, f.units, f.price, f.now);
      var signed := SignedUnits(f.leg, f.side, f.units);
      var held := s.Units(f.leg);
      && t.Units(f.leg) == held + signed && t.Units(f.leg.Other()) == s.Units(f.leg.Other())
      && (t.position.stockUnits != 0 || t.position.futureUnits != 0 ==>
            && EntryPrice(t, f.leg.Other()) == EntryPrice(s, f.leg.Other())
            && EntryPrice(t, f.leg)
               == if f.price > 0.0 && (held == 0 || held * signed > 0)
                  then Some(WeightedAverage(EntryPrice(s, f.leg), Magnitude(held), f.price, Magnitude(signed)))
                  else EntryPrice(s, f.leg))
  {
    hide WeightedAverage;
  }

  lemma AverageTotal(entry: Option<real>, held: nat, price: real, more: nat)
    requires more > 0 && (held > 0 ==> entry.Some?)
    ensures WeightedAverage(entry, held, price, more) * (held + more) as real
         == (if held == 0 then 0.0 else entry.value * held as real) + price * more as real
  {
  }

  /** The fills only take the leg further in one direction, at positive prices. */
  predicate OnlyIncrease(fills: seq<Fill>, leg: Leg, side: Side) {
    forall k :: 0 <= k < |fills| ==>
      fills[k].units > 0 && (fills[k].leg == leg ==> fills[k].side == side && fills[k].price > 0.0)
  }

  /** The leg holds the units in the direction of its fills, at an entry price that makes up their cost. */
  predicate Averages(s: Live, leg: Leg, side: Side, units: int, cost: real) {
    && s.Units(leg) == units
    && (units == 0 || (units > 0 <==> SignedUnits(leg, side, 1) > 0))
    && (units == 0 ==> cost == 0.0)
    && (units != 0 ==> EntryPrice(s, leg).Some? && EntryPrice(s, leg).value * Magnitude(units) as real == cost)
  }

  lemma OtherLegAverages(s: Live, f: Fill, leg: Leg, side: Side, units: int, cost: real)
    requires f.units > 0 && f.leg == leg.Other() && Averages(s, leg, side, units, cost)
    ensures Averages(Filled(s, f.leg, f.side, f.units, f.price, f.now), leg, side, units, cost)
  {
    FillMovesLeg(s, f);
    hide Filled, WeightedAverage, SignedUnits;
  }

  lemma SameLegAverages(s: Live, f: Fill, units: int, cost: real)
    requires f.units > 0 && f.price > 0.0 && Averages(s, f.leg, f.side, units, cost)
    ensures Averages(Filled(s, f.leg, f.side, f.units, f.price, f.now), f.leg, f.side,
                     units + SignedUnits(f.leg, f.side, f.units), cost + f.price * f.units as real)
  {
    hide Filled, WeightedAverage, SignedUnits, EntryPrice, Live.Units, Magnitude;
    var t := Filled(s, f.leg, f.side, f.units, f.price, f.now);
    FillMovesLeg(s, f);
    OneDirection(units, f.leg, f.side, f.units);
    NoMagnitude(units);
    AverageTotal(EntryPrice(s, f.leg), Magnitude(units), f.price, f.units);
    FlatHasNoUnits(t, f.leg);
    assert EntryPrice(t, f.leg) == Some(WeightedAverage(EntryPrice(s, f.leg), Magnitude(units), f.price, f.units));
  }

  lemma NoMagnitude(n: int)
    ensures Magnitude(n) == 0 <==> n == 0
  {
  }

  /** From zero units, over any fills that only increase a leg, interleaved with any fills of the other:
      its entry price times its units is what those fills cost. */
  lemma {:induction false} EntryPriceIsAverage(s: Live, fills: seq<Fill>, leg: Leg, side: Side)
    requires s.Units(leg) == 0 && OnlyIncrease(fills, leg, side)
    ensures Averages(FillAll(s, fills), leg, side, UnitsOf(fills, leg), CostOf(fills, leg))
    decreases |fills|
  {
    hide Averages, Filled, SignedUnits, Live.Units;
    if fills == [] {
      NothingAverages(s, leg, side);
    } else {
      var n := |fills| - 1;
      var f, before := fills[n], FillAll(s, fills[..n]);
      EntryPriceIsAverage(s, fills[..n], leg, side);
      LastFill(s, fills);
      hide FillAll;
      if f.leg == leg {
        SameLegAverages(before, f, UnitsOf(fills[..n], leg), CostOf(fills[..n], leg));
        assert UnitsOf(fills, leg) == UnitsOf(fills[..n], leg) + SignedUnits(leg, side, f.units);
        assert CostOf(fills, leg) == CostOf(fills[..n], leg) + f.price * f.units as real;
      } else {
        OtherLegAverages(before, f, leg, side, UnitsOf(fills[..n], leg), CostOf(fills[..n], leg));
      }
    }
  }

  lemma NothingAverages(s: Live, leg: Leg, side: Side)
    requires s.Units(leg) == 0
    ensures Averages(s, leg, side, 0, 0.0)
  {
  }

  lemma FlatHasNoUnits(s: Live, leg: Leg)
    ensures s.position.stockUnits == 0 && s.position.futureUnits == 0 ==> s.Units(leg) == 0
  {
  }

  lemma LastFill(s: Live, fills: seq<Fill>)
    requires fills != [] && forall k :: 0 <= k < |fills| ==> fills[k].units > 0
    ensures
      var f := fills[|fills| - 1];
      FillAll(s, fills) == Filled(FillAll(s, fills[..|fills| - 1]), f.leg, f.side, f.units, f.price, f.now)
  {
  }

  lemma OneDirection(held: int, leg: Leg, side: Side, units: int)
    requires units > 0 && (held == 0 || (held > 0 <==> SignedUnits(leg, side, 1) > 0))
    ensures
      var signed := SignedUnits(leg, side, units);
      && Magnitude(signed) == units && Magnitude(held + signed) == Magnitude(held) + units
      && (held == 0 || held * signed > 0) && held + signed != 0
      && (held + signed > 0 <==> SignedUnits(leg, side, 1) > 0)
  {
    var signed := SignedUnits(leg, side, units);
    if held > 0 && signed > 0 { assert held * signed > 0; }
    if held < 0 && signed < 0 { assert (-held) * (-signed) > 0; }
  }

  /** A fill against the units a leg holds leaves its entry price alone, unless it leaves the pair flat;
      and a flat pair has no entry values at all. */
  lemma ReducingKeepsEntryPrice(s: Live, f: Fill)
    requires f.units > 0 && s.Units(f.leg) * SignedUnits(f.leg, f.side, f.units) < 0
    ensures
      var t := Filled(s, f.leg, f.side, f.units, f.price, f.now);
      if t.position.stockUnits == 0 && t.position.futureUnits == 0
      then t.position.entrySpotPrice.None? && t.position.entryFuturePrice.None? && t.position.entryBasisPct.None?
           && t.position.lastEntryTime.None?
      else EntryPrice(t, f.leg) == EntryPrice(s, f.leg) && EntryPrice(t, f.leg.Other()) == EntryPrice(s, f.leg.Other())
  {
    FillMovesLeg(s, f);
    hide WeightedAverage;
  }

  /** The fill that first matches the legs gives the position the basis of its order and its time. */
  lemma OpeningKeepsBasis(s: Live, f: Fill)
    requires f.units > 0 && s.position.quantity == 0
    ensures
      var t := Filled(s, f.leg, f.side, f.units, f.price, f.now);
      t.position.quantity != 0 ==>
        && (s.pendingEntryBasis.Some? ==> t.position.entryBasisPct == s.pendingEntryBasis)
        && t.position.lastEntryTime == Some(f.now)
  {
    hide FillPrice;
  }

  // ---------------------------------------------------------------- the cooldown

  /** Entries are blocked until then. */
  predicate CoolsUntil(s: Live, until: real) { s.cooldownUntil.Some? && s.cooldownUntil.value >= until }

  /** The second leg of the pending order fails in this step. */
  predicate FailsIn(w: World, t: World) {
    && w.s.pending.Some? && t.s.pending.Some? && w.s.pending.value.id == t.s.pending.value.id
    && !w.s.pending.value.secondLegFailureHandled && t.s.pending.value.secondLegFailureHandled
  }

  function TimeOf(e: Event): real {
    match e
    case DeferredBasisFails(_, now) => now
    case OrderDies(_, _, now) => now
    case TimeoutActs(now) => now
    case OtherReport(_, _, now) => now
    case OtherFailure(now) => now
    case _ => 0.0
  }

  lemma SecondLegFailsCools(c: LiveConfig, s: Live, now: real)
    ensures FailsNow(s) && c.cooldownAfterFailureSec > 0.0 ==> CoolsUntil(SecondLegFails(c, s, now), now + c.cooldownAfterFailureSec)
    ensures forall until :: CoolsUntil(s, until) ==> CoolsUntil(SecondLegFails(c, s, now), until)
  {
  }

  lemma FailStepCools(c: LiveConfig, w: World, now: real)
    ensures c.cooldownAfterFailureSec > 0.0 && FailsNow(w.s) ==>
      CoolsUntil(FailStep(c, w, now).s, now + c.cooldownAfterFailureSec)
    ensures forall until :: CoolsUntil(w.s, until) ==> CoolsUntil(FailStep(c, w, now).s, until)
  {
    SecondLegFailsCools(c, w.s, now);
    hide SecondLegFails;
  }

  lemma ReportCools(c: LiveConfig, s: Live, leg: Leg, r: Report, now: real)
    ensures
      var t := Reported(c, s, leg, r, now).1;
      && (c.cooldownAfterFailureSec > 0.0 && FailsNow(s) && t.pending.Some? && t.pending.value.secondLegFailureHandled ==>
            CoolsUntil(t, now + c.cooldownAfterFailureSec))
      && (forall until :: CoolsUntil(s, until) ==> CoolsUntil(t, until))
  {
  }

  lemma TimeoutCools(c: LiveConfig, w: World, now: real)
    requires Marked(w)
    ensures c.cooldownAfterFailureSec > 0.0 && FailsIn(w, Step(c, w, TimeoutActs(now))) ==>
      CoolsUntil(Step(c, w, TimeoutActs(now)).s, now + c.cooldownAfterFailureSec)
    ensures forall until :: CoolsUntil(w.s, until) ==> CoolsUntil(Step(c, w, TimeoutActs(now)).s, until)
  {
    FailStepCools(c, w.(task := Idle), now);
    hide FailStep, Marked;
  }

  lemma DeathCools(c: LiveConfig, w: World, e: Event)
    requires e.OrderDies?
    ensures c.cooldownAfterFailureSec > 0.0 && FailsIn(w, Step(c, w, e)) ==>
      CoolsUntil(Step(c, w, e).s, TimeOf(e) + c.cooldownAfterFailureSec)
    ensures forall until :: CoolsUntil(w.s, until) ==> CoolsUntil(Step(c, w, e).s, until)
  {
    ReportCools(c, w.s, w.LegOf(e.role), DeathReport(c, e.role, e.rejected), e.now);
    hide Reported, DeathReport;
  }

  /** The step in which a second leg fails starts the configured cooldown, and no step ever shortens one. */
  lemma StepCools(c: LiveConfig, w: World, e: Event)
    requires Marked(w)
    ensures c.cooldownAfterFailureSec > 0.0 && FailsIn(w, Step(c, w, e)) ==>
      CoolsUntil(Step(c, w, e).s, TimeOf(e) + c.cooldownAfterFailureSec)
    ensures forall until :: CoolsUntil(w.s, until) ==> CoolsUntil(Step(c, w, e).s, until)
  {
    hide Marked;
    match e
    case OrderDies(_, _, _) => DeathCools(c, w, e); hide Step;
    case OtherReport(leg, r, now) => ReportCools(c, w.s, leg, r, now); hide Reported;
    case DeferredBasisFails(role, now) =>
      if Deferred(role) && w.Slot(role).Submitting? { FailStepCools(c, w.WithSlot(role, Dead), now); }
      hide FailStep;
    case OtherFailure(now) => FailStepCools(c, w, now); hide FailStep;
    case TimeoutActs(now) => TimeoutCools(c, w, now); hide Step;
    case _ => NothingFails(c, w, e); hide Step;
  }

  lemma NothingFails(c: LiveConfig, w: World, e: Event)
    requires !e.OrderDies? && !e.OtherReport? && !e.DeferredBasisFails? && !e.OtherFailure? && !e.TimeoutActs?
    ensures !FailsIn(w, Step(c, w, e))
    ensures Step(c, w, e).s.cooldownUntil == w.s.cooldownUntil
  {
    hide ReadField, EntryBasis, DeferredReady, DeathStep, TimeoutStep, FailStep, PendingFor;
    match e
    case OrderFills(role, price, now) =>
      if w.order.quantityMultiplier > 0 { FillKeepsFailure(w.s, w.LegOf(role), w.SideOf(role), w.order.quantityMultiplier, price, now); }
      hide Filled;
    case OtherFill(leg, side, units, price, now) =>
      if units > 0 { FillKeepsFailure(w.s, leg, side, units, price, now); }
      hide Filled;
    case FillHandled(_) => CallbackKeepsFailure(c, w, e); hide Step;
    case DeferredSubmitted(_, _) => CallbackKeepsFailure(c, w, e); hide Step;
    case FlattenSubmitted(_) => CallbackKeepsFailure(c, w, e); hide Step;
    case _ => StrategyKeepsFailure(c, w, e); hide Step;
  }

  lemma CallbackKeepsFailure(c: LiveConfig, w: World, e: Event)
    requires e.FillHandled? || e.DeferredSubmitted? || e.FlattenSubmitted?
    ensures !FailsIn(w, Step(c, w, e)) && Step(c, w, e).s.cooldownUntil == w.s.cooldownUntil
  {
    if e.FillHandled? { HandlingKeepsFailure(c, w, e.leg); hide Step; }
  }

  lemma HandlingKeepsFailure(c: LiveConfig, w: World, leg: Leg)
    ensures !FailsIn(w, Step(c, w, FillHandled(leg))) && Step(c, w, FillHandled(leg)).s.cooldownUntil == w.s.cooldownUntil
  {
    hide DeferredReady;
  }

  lemma StrategyKeepsFailure(c: LiveConfig, w: World, e: Event)
    requires e.PlaceBegins? || e.FieldRead? || e.OrderInstalls? || e.BasisIsKept? || e.FirstIsNamed? || e.FirstSubmitted?
          || e.FirstMarked? || e.TimeoutFound? || e.TimeoutRoleRead? || e.OtherDisable?
    ensures !FailsIn(w, Step(c, w, e)) && Step(c, w, e).s.cooldownUntil == w.s.cooldownUntil
  {
    hide ReadField, EntryBasis, PendingFor;
  }

  lemma FillKeepsFailure(s: Live, leg: Leg, side: Side, units: int, price: real, now: real)
    requires units > 0
    ensures
      var t := Filled(s, leg, side, units, price, now);
      t.cooldownUntil == s.cooldownUntil && (t.pending.Some? ==> t.pending == s.pending)
  {
    hide FillPrice, ReconciledQuantity;
  }

  /** Until then no entry begins. */
  lemma {:induction false} EntriesWaitOut(c: LiveConfig, w: World, events: seq<Event>, e: Event, until: real)
    requires Marked(w) && CoolsUntil(w.s, until)
    requires e.PlaceBegins? && e.signal != Exit && e.now < until
    ensures CoolsUntil(Run(c, w, events).s, until)
    ensures Step(c, Run(c, w, events), e) == Run(c, w, events)
    decreases |events|
  {
    if events != [] {
      var n := |events| - 1;
      EntriesWaitOut(c, w, events[..n], e, until);
      RunStaysMarked(c, w, events[..n]);
      hide Marked;
      StepCools(c, Run(c, w, events[..n]), events[n]);
    }
    hide Run;
  }
}
