/** Which reports drop an order, which steps stop new entries, and what stopping means. */
module LiveRules {
  import opened Wrappers
  import opened Models
  import opened LiveOrders
  import opened LiveProtocol

  // ---------------------------------------------------------------- reports

  /** A FOK order that filled in part, which it must not. */
  predicate InPart(r: Report) { r.fok && r.filled > 0 && (r.after > 0 || (r.total > 0 && r.filled < r.total)) }

  /** A FOK order that is over without a fill. */
  predicate Killed(r: Report) { r.fok && !InPart(r) && r.status == 30 && !r.error && r.after == 0 && r.filled == 0 }

  predicate Refused(r: Report) { r.fok && !InPart(r) && !Killed(r) && (r.status == 90 || r.error) }

  /** A report acts on the pending order by what it says and by the leg it is for: a partial fill stops and
      locks entries and keeps the order; a killed or refused first leg drops it, a refused one stopping
      entries; a killed or refused second leg that was sent and not failed yet fails it; all other reports,
      those of resting orders among them, change nothing. */
  lemma ReportActs(c: LiveConfig, s: Live, leg: Leg, r: Report, now: real)
    requires s.pending.Some?
    ensures
      var t := Reported(c, s, leg, r, now).1;
      var order := s.pending.value;
      var second := order.firstLeg.Some? && order.firstLeg.value != leg && order.Sent(leg) && !order.secondLegFailureHandled;
      t == if InPart(r) then s.(entriesDisabled := true, entriesLocked := true)
           else if order.firstLeg == Some(leg) && Killed(r) then s.(pending := None)
           else if order.firstLeg == Some(leg) && Refused(r) then s.(pending := None, entriesDisabled := true)
           else if second && Killed(r) then SecondLegFails(c, s, now)
           else if second && Refused(r) then SecondLegFails(c, s.(entriesDisabled := true), now)
           else s
  {
    hide SecondLegFails;
  }

  lemma DropsByReportIff(s: Live, leg: Leg, r: Report)
    ensures DropsByReport(s, leg, r) <==>
      s.pending.Some? && s.pending.value.firstLeg == Some(leg) && (Killed(r) || Refused(r))
  {
  }

  // ---------------------------------------------------------------- stopping entries

  /** The report stops new entries: a partial fill, or a refusal that drops or fails the pending order. */
  predicate StopsByReport(s: Live, leg: Leg, r: Report) {
    && s.pending.Some?
    && (InPart(r)
        || (Refused(r) && s.pending.value.firstLeg.Some?
            && (s.pending.value.firstLeg.value == leg
                || (s.pending.value.Sent(leg) && !s.pending.value.secondLegFailureHandled))))
  }

  /** The steps that stop new entries for good. */
  predicate Stops(c: LiveConfig, w: World, e: Event) {
    match e
    case OrderDies(role, rejected, _) => Dies(w, role) && StopsByReport(w.s, w.LegOf(role), DeathReport(c, role, rejected))
    case OtherReport(leg, r, _) => StopsByReport(w.s, leg, r)
    case TimeoutActs(_) => w.task.ReleasingFirst? && w.Pending()
    case OtherDisable => true
    case _ => false
  }

  lemma ReportStopsIff(c: LiveConfig, s: Live, leg: Leg, r: Report, now: real)
    ensures Reported(c, s, leg, r, now).1.entriesDisabled <==> s.entriesDisabled || StopsByReport(s, leg, r)
  {
  }

  lemma OthersDoNotStop(c: LiveConfig, w: World, e: Event)
    requires !e.OrderDies? && !e.OtherReport? && !e.TimeoutActs? && !e.OtherDisable?
    ensures Step(c, w, e).s.entriesDisabled == w.s.entriesDisabled
  {
    hide ReadField, EntryBasis, DeferredReady, PendingFor;
    match e
    case OrderFills(role, price, now) =>
      if w.order.quantityMultiplier > 0 { FilledUnits(w.s, w.LegOf(role), w.SideOf(role), w.order.quantityMultiplier, price, now); }
      hide Filled;
    case OtherFill(leg, side, units, price, now) =>
      if units > 0 { FilledUnits(w.s, leg, side, units, price, now); }
      hide Filled;
    case _ => hide FillStep;
  }

  /** Entries are stopped exactly by these steps, and never come back. */
  lemma StopsIff(c: LiveConfig, w: World, e: Event)
    ensures Step(c, w, e).s.entriesDisabled <==> w.s.entriesDisabled || Stops(c, w, e)
  {
    match e
    case OrderDies(role, rejected, now) =>
      ReportStopsIff(c, w.s, w.LegOf(role), DeathReport(c, role, rejected), now);
      hide Reported, DeathReport, StopsByReport;
    case OtherReport(leg, r, now) =>
      ReportStopsIff(c, w.s, leg, r, now);
      hide Reported, StopsByReport;
    case TimeoutActs(_) => hide SecondLegFails; FailKeepsStops(c, w);
    case OtherDisable =>
    case _ => OthersDoNotStop(c, w, e); hide Step;
  }

  lemma FailKeepsStops(c: LiveConfig, w: World)
    ensures forall now :: SecondLegFails(c, w.s, now).entriesDisabled == w.s.entriesDisabled
  {
  }

  // ---------------------------------------------------------------- locked pairs

  /** A locked pair stays locked, and no entry of it begins. */
  lemma LockedForGood(c: LiveConfig, w: World, e: Event)
    requires w.s.entriesLocked
    ensures Step(c, w, e).s.entriesLocked
    ensures e.PlaceBegins? && e.signal != Exit ==> Step(c, w, e) == w
  {
    hide ReadField, EntryBasis, DeferredReady, PendingFor, DeathReport;
    match e
    case OrderFills(_, _, _) => hide FillPrice, Release, Reconciled; LockedThroughFill(w, e);
    case OtherFill(_, _, _, _, _) => hide FillPrice, Release, Reconciled; LockedThroughFill(w, e);
    case OrderDies(role, rejected, now) =>
      LockedThroughReport(c, w.s, w.LegOf(role), DeathReport(c, role, rejected), now);
      hide Reported;
    case OtherReport(leg, r, now) => LockedThroughReport(c, w.s, leg, r, now); hide Reported;
    case _ => hide FillStep, DeathStep;
  }

  lemma LockedThroughFill(w: World, e: Event)
    ensures forall leg, side, units: int, price, now :: units > 0 ==> Filled(w.s, leg, side, units, price, now).entriesLocked == w.s.entriesLocked
  {
    hide FillPrice, Reconciled;
  }

  lemma LockedThroughReport(c: LiveConfig, s: Live, leg: Leg, r: Report, now: real)
    ensures s.entriesLocked ==> Reported(c, s, leg, r, now).1.entriesLocked
  {
  }

  // ---------------------------------------------------------------- placing an entry

  /** The world after an entry was put together and installed with nothing in between. */
  function Placed(c: LiveConfig, w: World, signal: Signal, market: PairMarket, triggered: bool, now: real): World {
    var w1 := Step(c, w, PlaceBegins(signal, market, triggered, now));
    var w2 := Step(c, Step(c, Step(c, Step(c, w1, FieldRead), FieldRead), FieldRead), FieldRead);
    Step(c, Step(c, Step(c, w2, OrderInstalls), BasisIsKept), FirstIsNamed)
  }

  /** An entry placed undisturbed asks each leg for one unit more of its direction; the leg whose feed
      triggered it goes first. */
  lemma EntryPlacesOneUnit(c: LiveConfig, w: World, signal: Signal, market: PairMarket, triggered: bool, now: real)
    requires w.task.Idle? && w.s.pending.None? && !EntryBlocked(w.s, now) && (signal == EnterLong || signal == EnterShort)
    ensures
      var t, unit := Placed(c, w, signal, market, triggered, now), if signal == EnterLong then 1 else -1;
      && t.s.position == w.s.position && t.s.pending.Some? && t.task.SubmittingFirst?
      && var order := t.s.pending.value;
         && order.signal == signal && order.quantityMultiplier == 1
         && order.targetStockUnits == w.s.position.stockUnits + unit
         && order.targetFutureUnits == w.s.position.futureUnits + unit
         && (order.stockSide.Buy? <==> signal == EnterLong) && (order.futureSide.Sell? <==> signal == EnterLong)
         && order.firstLeg == Some(if triggered then Future else Stock) && t.firstLeg == order.firstLeg.value
         && !order.stockOrderSent && !order.futureOrderSent
  {
    var d := Draft(signal, market, if triggered then Future else Stock, 1, Hold, 0, 0);
    var w1 := Step(c, w, PlaceBegins(signal, market, triggered, now));
    assert w1 == w.(task := Reading(d, QuantityField));
    var d2 := d.(direction := w.s.position.direction, stockUnits := w.s.position.stockUnits, futureUnits := w.s.position.futureUnits);
    var w2 := Step(c, Step(c, Step(c, Step(c, w1, FieldRead), FieldRead), FieldRead), FieldRead);
    FieldsAreRead(c, w, d);
    hide Step;
    assert w2 == w.(task := Installing(d2));
    DraftIsInstalled(c, w, d2);
  }

  lemma DraftIsInstalled(c: LiveConfig, w: World, d: Draft)
    requires w.s.pending.None? && (d.signal == EnterLong || d.signal == EnterShort) && d.q == 1
    ensures
      var t := Step(c, Step(c, Step(c, w.(task := Installing(d)), OrderInstalls), BasisIsKept), FirstIsNamed);
      var unit := if d.signal == EnterLong then 1 else -1;
      && t.s.position == w.s.position && t.s.pending.Some? && t.task.SubmittingFirst?
      && var order := t.s.pending.value;
         && order.signal == d.signal && order.quantityMultiplier == 1
         && order.targetStockUnits == d.stockUnits + unit && order.targetFutureUnits == d.futureUnits + unit
         && (order.stockSide.Buy? <==> d.signal == EnterLong) && (order.futureSide.Sell? <==> d.signal == EnterLong)
         && order.firstLeg == Some(d.firstLeg) && t.firstLeg == d.firstLeg
         && !order.stockOrderSent && !order.futureOrderSent
  {
    hide EntryBasis, Step;
    var w2 := InstallStep(w.(task := Installing(d)));
    OneStep(c, w.(task := Installing(d)));
    OneStep(c, w2);
    OneStep(c, w2.(s := BasisKept(w2.s, d), task := NamingFirst(d)));
  }

  lemma OneStep(c: LiveConfig, w: World)
    ensures w.task.Installing? ==> Step(c, w, OrderInstalls) == InstallStep(w)
    ensures w.task.KeepingBasis? ==>
      Step(c, w, BasisIsKept) == w.(s := BasisKept(w.s, w.task.draft), task := NamingFirst(w.task.draft))
    ensures w.task.NamingFirst? ==>
      Step(c, w, FirstIsNamed) == w.(s := FirstLegNamed(w.s, w.order.id, w.firstLeg), first := Submitting, task := SubmittingFirst)
  {
    hide BasisKept, InstallStep, FirstLegNamed;
  }

  lemma FieldsAreRead(c: LiveConfig, w: World, d: Draft)
    requires d.signal != Exit && d.q > 0
    ensures
      var w1 := w.(task := Reading(d, QuantityField));
      Step(c, Step(c, Step(c, Step(c, w1, FieldRead), FieldRead), FieldRead), FieldRead)
      == w.(task := Installing(d.(direction := w.s.position.direction, stockUnits := w.s.position.stockUnits,
                                  futureUnits := w.s.position.futureUnits)))
  {
    var w1 := w.(task := Reading(d, QuantityField));
    var w2 := Step(c, w1, FieldRead);
    assert w2 == w.(task := Reading(d, DirectionField));
    var w3 := Step(c, w2, FieldRead);
    assert w3 == w.(task := Reading(d.(direction := w.s.position.direction), StockField));
    var w4 := Step(c, w3, FieldRead);
    assert w4 == w.(task := Reading(d.(direction := w.s.position.direction, stockUnits := w.s.position.stockUnits), FutureField));
  }

  /** A second leg is dropped for its basis only on an entry, under a positive threshold. */
  lemma OnlyEntriesCheckBasis(c: LiveConfig, w: World, role: Role, now: real)
    requires w.order.signal == Exit || c.pair.minSecondLegAdjustedBasisPct.None? || c.pair.minSecondLegAdjustedBasisPct.value <= 0.0
    ensures Step(c, w, DeferredBasisFails(role, now)) == w
  {
    hide FailStep;
  }

  // ---------------------------------------------------------------- the basis of an entry

  /** The basis kept for an entry is what it gains per share against its spot price; an exit keeps the last. */
  lemma KeptBasisIsGain(s: Live, d: Draft)
    ensures
      var kept, m := BasisKept(s, d).pendingEntryBasis, d.market;
      && (d.signal == EnterLong ==> kept.Some? && kept.value * m.spot.ask == m.future.bid - m.spot.ask)
      && (d.signal == EnterShort ==> kept.Some? && kept.value * m.spot.bid == m.spot.bid - m.future.ask)
      && (d.signal == Exit ==> kept == s.pendingEntryBasis)
  {
  }

  /** An order is timed out only while it is pending, its second leg has not failed, and a limit is set. */
  lemma TimesOutOnlyUnhandled(c: LiveConfig, w: World)
    ensures Step(c, w, TimeoutFound) != w <==>
      w.task.Idle? && w.s.pending.Some? && !w.s.pending.value.secondLegFailureHandled && c.fokOrderTimeoutSec > 0.0
  {
  }
}
