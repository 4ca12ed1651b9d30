/** Every interleaving of the strategy thread, the fill, report and submission callbacks and the broker
    for one pair. */
module LiveProtocol {
  import opened Wrappers
  import opened Models
  import opened Strategy
  import opened LiveOrders

  /** One broker order of the pair order placed last. */
  datatype OrderState = Unsent | Submitting | Working | Complete | Dead

  /** The broker orders of a pair order: the first leg by the strategy thread, either leg by a fill's
      callback, and the flatten of the first leg. */
  datatype Role = FirstRole | AgainRole | SecondRole | FlattenRole

  /** What the strategy thread is in the middle of. It reads a draft field by field, installs the order,
      keeps the entry basis, names and submits the first leg and marks it as sent. It also runs the
      timeout checks: find the order, read its leg role, and fail its second leg or release it. */
  datatype StrategyTask =
    | Idle
    | Reading(draft: Draft, field: Field)
    | Installing(draft: Draft)
    | KeepingBasis(draft: Draft)
    | NamingFirst(draft: Draft)
    | SubmittingFirst
    | MarkingFirst
    | TimingOut
    | FailingSecond
    | ReleasingFirst
  {
    predicate Unnamed() { KeepingBasis? || NamingFirst? }
  }

  /** The provider, with the broker orders of the pair order placed last and the units it was installed
      at. `handling` are the fills whose callback has not looked at the other leg yet. */
  datatype World = World(
    s: Live,
    order: PendingPairOrder,
    firstLeg: Leg,
    stockBase: int,
    futureBase: int,
    first: OrderState,
    again: OrderState,
    second: OrderState,
    flatten: OrderState,
    task: StrategyTask,
    handling: multiset<Leg>,
    againAccepted: nat,
    secondAccepted: nat,
    flattenAccepted: nat)
  {
    function SecondLeg(): Leg { firstLeg.Other() }

    function Base(leg: Leg): int { if leg.Stock? then stockBase else futureBase }

    /** The placed order is still the pending one. */
    predicate Pending() { s.IsPending(order.id) }

    function Slot(role: Role): OrderState {
      match role
      case FirstRole => first
      case AgainRole => again
      case SecondRole => second
      case FlattenRole => flatten
    }

    function WithSlot(role: Role, state: OrderState): World {
      match role
      case FirstRole => this.(first := state)
      case AgainRole => this.(again := state)
      case SecondRole => this.(second := state)
      case FlattenRole => this.(flatten := state)
    }

    function LegOf(role: Role): Leg { if role.SecondRole? then SecondLeg() else firstLeg }

    function SideOf(role: Role): Side {
      if role.FlattenRole? then order.SideOf(firstLeg).Opposite() else order.SideOf(LegOf(role))
    }
  }

  /** What can happen. The last four are whatever else the broker or an earlier pair order does: any
      other fill, partial ones included, any other report, a failure acted on late, and a rejection
      that disables entries late. */
  datatype Event =
    | PlaceBegins(signal: Signal, market: PairMarket, futureTriggered: bool, now: real)
    | FieldRead
    | OrderInstalls
    | BasisIsKept
    | FirstIsNamed
    | FirstSubmitted(accepted: bool)
    | FirstMarked
    | OrderFills(role: Role, price: real, now: real)
    | FillHandled(leg: Leg)
    | DeferredSubmitted(role: Role, accepted: bool)
    | DeferredBasisFails(role: Role, now: real)
    | FlattenSubmitted(accepted: bool)
    | OrderDies(role: Role, rejected: bool, now: real)
    | TimeoutFound
    | TimeoutRoleRead
    | TimeoutActs(now: real)
    | OtherFill(leg: Leg, side: Side, units: int, price: real, now: real)
    | OtherReport(leg: Leg, report: Report, now: real)
    | OtherFailure(now: real)
    | OtherDisable
  {
    /** An event of the pair order placed last or of the strategy thread. */
    predicate Own() { !OtherFill? && !OtherReport? && !OtherFailure? && !OtherDisable? }
  }

  // ---------------------------------------------------------------- steps

  function StartFlatten(w: World, starts: bool): World {
    if starts then w.(flatten := Submitting) else w
  }

  function TifOf(c: LiveConfig, role: Role): TimeInForce {
    match role
    case FirstRole => c.pair.firstLegTif
    case AgainRole => c.pair.firstLegTif
    case SecondRole => c.pair.secondLegTif
    case FlattenRole => c.pair.flattenFirstLegTif
  }

  function DeathReport(c: LiveConfig, role: Role, rejected: bool): Report {
    Report(TifOf(c, role).Fok?, if rejected then 90 else 30, false, 0, 0, 0)
  }

  /** One more field of the draft; an exit without quantity ends there. */
  function ReadStep(c: LiveConfig, w: World): World
    requires w.task.Reading?
  {
    var d := ReadField(c, w.s, w.task.draft, w.task.field);
    w.(task :=
      match w.task.field
      case QuantityField => if d.q <= 0 then Idle else Reading(d, DirectionField)
      case DirectionField => Reading(d, StockField)
      case StockField => Reading(d, FutureField)
      case FutureField => Installing(d))
  }

  /** The order the strategy thread is about to install. */
  function Drafted(w: World): Option<PendingPairOrder>
    requires w.task.Installing?
  {
    PendingFor(w.task.draft, w.order.id + 1)
  }

  predicate Installs(w: World, e: Event) {
    e.OrderInstalls? && w.task.Installing? && w.s.pending.None? && Drafted(w).Some?
  }

  function InstallStep(w: World): World
    requires w.task.Installing?
  {
    if w.s.pending.Some? || Drafted(w).None? then w.(task := Idle)
    else
      var order := Drafted(w).value;
      World(Installed(w.s, order), order, w.task.draft.firstLeg, w.s.position.stockUnits, w.s.position.futureUnits,
            Unsent, Unsent, Unsent, Unsent, KeepingBasis(w.task.draft), w.handling, 0, 0, 0)
  }

  /** A fill of whole pairs, its callback still to look at the other leg. */
  function FillStep(w: World, leg: Leg, side: Side, units: int, price: real, now: real): World {
    if units > 0
    then w.(s := Filled(w.s, leg, side, units, price, now), handling := w.handling + multiset{leg})
    else w
  }

  /** An order of the pending pair order is at the broker; a second leg that failed does not fill. */
  predicate MayFill(w: World, role: Role) {
    w.Slot(role).Working? && w.Pending() && (role.SecondRole? ==> !w.s.pending.value.secondLegFailureHandled)
  }

  predicate Dies(w: World, role: Role) { w.Slot(role).Working? && w.Pending() }

  /** An order dies at the exchange and its report arrives; the report of a flatten order reads as a
      report of the leg it flattens. */
  function DeathStep(c: LiveConfig, w: World, e: Event): World
    requires e.OrderDies?
  {
    if !Dies(w, e.role) then w
    else
      var (starts, s) := Reported(c, w.s, w.LegOf(e.role), DeathReport(c, e.role, e.rejected), e.now);
      StartFlatten(w.(s := s).WithSlot(e.role, Dead), starts)
  }

  function FailStep(c: LiveConfig, w: World, now: real): World {
    StartFlatten(w.(s := SecondLegFails(c, w.s, now)), StartsFlatten(c, w.s))
  }

  /** A second leg's adjusted basis is checked on entries, against a positive threshold only. */
  predicate ChecksBasis(c: LiveConfig, order: PendingPairOrder) {
    && c.pair.minSecondLegAdjustedBasisPct.Some? && c.pair.minSecondLegAdjustedBasisPct.value > 0.0
    && order.signal != Exit
  }

  predicate Deferred(role: Role) { role.SecondRole? || role.AgainRole? }

  /** A fill's callback looks at the other leg, which is the first one when it is not marked yet. */
  function HandleStep(w: World, leg: Leg): World {
    if leg !in w.handling then w
    else
      var t := w.(handling := w.handling - multiset{leg});
      if !DeferredReady(t.s, leg) then t
      else t.(s := DeferredStart(t.s, leg)).WithSlot(if leg.Other() == t.firstLeg then AgainRole else SecondRole, Submitting)
  }

  function DeferredSubmitStep(w: World, role: Role, accepted: bool): World
    requires Deferred(role)
  {
    if !w.Slot(role).Submitting? then w
    else if !accepted then w.(s := SecondLegRaised(w.s, w.order.id, w.LegOf(role))).WithSlot(role, Unsent)
    else if role.SecondRole? then w.(second := Working, secondAccepted := w.secondAccepted + 1)
    else w.(again := Working, againAccepted := w.againAccepted + 1)
  }

  function TimeoutStep(c: LiveConfig, w: World, now: real): World {
    match w.task
    case FailingSecond => FailStep(c, w.(task := Idle), now)
    case ReleasingFirst => w.(s := TimeoutReleases(w.s, w.order.id), task := Idle)
    case _ => w
  }

  /** The next world; an event that cannot happen changes nothing. */
  function Step(c: LiveConfig, w: World, e: Event): World {
    match e
    case PlaceBegins(signal, market, futureTriggered, now) =>
      if w.task.Idle? && (signal == Exit || !EntryBlocked(w.s, now))
      then w.(task := Reading(NewDraft(signal, market, futureTriggered), QuantityField)) else w
    case FieldRead => if w.task.Reading? then ReadStep(c, w) else w
    case OrderInstalls => if w.task.Installing? then InstallStep(w) else w
    case BasisIsKept =>
      if w.task.KeepingBasis? then w.(s := BasisKept(w.s, w.task.draft), task := NamingFirst(w.task.draft)) else w
    case FirstIsNamed =>
      if w.task.NamingFirst?
      then w.(s := FirstLegNamed(w.s, w.order.id, w.firstLeg), first := Submitting, task := SubmittingFirst) else w
    case FirstSubmitted(accepted) =>
      if !w.task.SubmittingFirst? then w
      else if accepted then w.(first := Working, task := MarkingFirst)
      else w.(s := FirstLegRaised(w.s), first := Dead, task := Idle)
    case FirstMarked =>
      if w.task.MarkingFirst? then w.(s := FirstLegAccepted(w.s, w.order.id, w.firstLeg), task := Idle) else w
    case OrderFills(role, price, now) =>
      if MayFill(w, role)
      then FillStep(w.WithSlot(role, Complete), w.LegOf(role), w.SideOf(role), w.order.quantityMultiplier, price, now)
      else w
    case FillHandled(leg) => HandleStep(w, leg)
    case DeferredSubmitted(role, accepted) => if Deferred(role) then DeferredSubmitStep(w, role, accepted) else w
    case DeferredBasisFails(role, now) =>
      if Deferred(role) && w.Slot(role).Submitting? && ChecksBasis(c, w.order)
      then FailStep(c, w.WithSlot(role, Dead), now) else w
    case FlattenSubmitted(accepted) =>
      if !w.flatten.Submitting? then w
      else if accepted then w.(flatten := Working, flattenAccepted := w.flattenAccepted + 1)
      else w.(s := FlattenRaised(w.s, w.order.id), flatten := Unsent)
    case OrderDies(_, _, _) => DeathStep(c, w, e)
    case TimeoutFound =>
      if w.task.Idle? && MayTimeOut(c, w.s) then w.(task := TimingOut) else w
    case TimeoutRoleRead =>
      if !w.task.TimingOut? then w
      else
        var order := if w.Pending() then w.s.pending.value else w.order;
        w.(s := w.s.(entriesLocked := true), task := if TimesOutSecondLeg(order) then FailingSecond else ReleasingFirst)
    case TimeoutActs(now) => TimeoutStep(c, w, now)
    case OtherFill(leg, side, units, price, now) => FillStep(w, leg, side, units, price, now)
    case OtherReport(leg, report, now) =>
      var (starts, s) := Reported(c, w.s, leg, report, now);
      StartFlatten(w.(s := s), starts)
    case OtherFailure(now) => FailStep(c, w, now)
    case OtherDisable => w.(s := w.s.(entriesDisabled := true))
  }

  function Run(c: LiveConfig, w: World, events: seq<Event>): World {
    if events == [] then w else Step(c, Run(c, w, events[..|events| - 1]), events[|events| - 1])
  }

  lemma RunSnoc(c: LiveConfig, w: World, events: seq<Event>, n: nat)
    requires n < |events|
    ensures Run(c, w, events[..n + 1]) == Step(c, Run(c, w, events[..n]), events[n])
  {
    assert events[..n + 1][..n] == events[..n];
  }

  // ---------------------------------------------------------------- balance at rest, on every run

  predicate LegsDiffer(s: Live) { s.position.stockUnits != s.position.futureUnits }

  /** No pending order means matched legs. */
  predicate BalancedAtRest(w: World) { w.s.pending.None? ==> !LegsDiffer(w.s) }

  /** The fill brings both legs to targets, and the targets differ. */
  predicate MeetsUnequalTargets(s: Live, leg: Leg, side: Side, units: int) {
    && units > 0 && s.pending.Some?
    && s.pending.value.targetStockUnits != s.pending.value.targetFutureUnits
    && s.Units(leg) + SignedUnits(leg, side, units) == s.pending.value.Target(leg)
    && s.Units(leg.Other()) == s.pending.value.Target(leg.Other())
  }

  /** A report that drops the pending order: a FOK order of its first leg did not fill or was rejected. */
  predicate DropsByReport(s: Live, leg: Leg, r: Report) {
    && s.pending.Some? && s.pending.value.firstLeg == Some(leg)
    && r.fok && !r.PartialAbnormal() && (r.NoFill() || r.Rejected())
  }

  /** The branches that drop the pending order other than by a fill: a first submission that raises, a
      timeout that read an unsent second leg, and a terminal report for the order's first leg. */
  predicate Drops(c: LiveConfig, w: World, e: Event) {
    w.s.pending.Some?
    && match e
       case FirstSubmitted(accepted) => !accepted && w.task.SubmittingFirst?
       case TimeoutActs(_) => w.task.ReleasingFirst? && w.Pending()
       case OrderDies(role, rejected, _) => Dies(w, role) && DropsByReport(w.s, w.LegOf(role), DeathReport(c, role, rejected))
       case OtherReport(leg, r, _) => DropsByReport(w.s, leg, r)
       case _ => false
  }

  /** The steps that unbalance the legs: the pending order is dropped while they differ, a fill meets
      targets that differ, or a fill comes while nothing is pending. */
  predicate Abandons(c: LiveConfig, w: World, e: Event) {
    || (Drops(c, w, e) && LegsDiffer(w.s))
    || (e.OrderFills? && MayFill(w, e.role)
        && MeetsUnequalTargets(w.s, w.LegOf(e.role), w.SideOf(e.role), w.order.quantityMultiplier))
    || (e.OtherFill? && MeetsUnequalTargets(w.s, e.leg, e.side, e.units))
    || (e.OtherFill? && e.units > 0 && w.s.pending.None?)
  }

  predicate SettledQuantity(s: Live) {
    (s.position.direction, s.position.quantity) == ReconciledQuantity(s.position.stockUnits, s.position.futureUnits)
  }

  /** What a fill does to the units and to the pending order. */
  lemma FilledUnits(s: Live, leg: Leg, side: Side, units: int, price: real, now: real)
    requires units > 0
    ensures
      var t := Filled(s, leg, side, units, price, now);
      && t.Units(leg) == s.Units(leg) + SignedUnits(leg, side, units)
      && t.Units(leg.Other()) == s.Units(leg.Other())
      && SettledQuantity(t)
      && t.entriesDisabled == s.entriesDisabled
      && (s.pending.None? ==> t.pending.None?)
      && (s.pending.Some? ==>
            var order := s.pending.value;
            t.pending == (
              if (order.secondLegFailureHandled && t.position.stockUnits == 0 && t.position.futureUnits == 0)
                 || (t.position.stockUnits == order.targetStockUnits && t.position.futureUnits == order.targetFutureUnits)
              then None else s.pending))
  {
  }

  lemma FillBalancedIff(w: World, leg: Leg, side: Side, units: int, price: real, now: real)
    requires BalancedAtRest(w)
    ensures
      BalancedAtRest(FillStep(w, leg, side, units, price, now))
      <==> !(MeetsUnequalTargets(w.s, leg, side, units) || (units > 0 && w.s.pending.None?))
  {
    if units > 0 {
      FilledUnits(w.s, leg, side, units, price, now);
      hide Filled, SettledQuantity;
    }
  }

  lemma ReportBalancedIff(c: LiveConfig, w: World, leg: Leg, r: Report, now: real)
    requires BalancedAtRest(w)
    ensures
      var t := Reported(c, w.s, leg, r, now).1;
      && t.position == w.s.position
      && ((t.pending.None? ==> !LegsDiffer(t)) <==> !(DropsByReport(w.s, leg, r) && LegsDiffer(w.s)))
  {
  }

  lemma FillsBalancedIff(c: LiveConfig, w: World, e: Event)
    requires BalancedAtRest(w) && (e.OrderFills? || e.OtherFill?)
    ensures BalancedAtRest(Step(c, w, e)) <==> !Abandons(c, w, e)
  {
    match e
    case OrderFills(role, price, now) =>
      if MayFill(w, role) {
        FillBalancedIff(w.WithSlot(role, Complete), w.LegOf(role), w.SideOf(role), w.order.quantityMultiplier, price, now);
      }
      hide FillStep, MeetsUnequalTargets;
    case OtherFill(leg, side, units, price, now) =>
      FillBalancedIff(w, leg, side, units, price, now);
      hide FillStep, MeetsUnequalTargets;
  }

  lemma ReportsBalancedIff(c: LiveConfig, w: World, e: Event)
    requires BalancedAtRest(w) && (e.OrderDies? || e.OtherReport?)
    ensures BalancedAtRest(Step(c, w, e)) <==> !Abandons(c, w, e)
  {
    match e
    case OtherReport(leg, r, now) =>
      ReportBalancedIff(c, w, leg, r, now);
      hide Reported, DropsByReport;
    case OrderDies(role, rejected, now) =>
      ReportBalancedIff(c, w, w.LegOf(role), DeathReport(c, role, rejected), now);
      hide Reported, DropsByReport, DeathReport;
  }

  /** Placing and handling only ever add an order or its marks. */
  lemma QuietBalanced(c: LiveConfig, w: World, e: Event)
    requires BalancedAtRest(w)
    requires e.PlaceBegins? || e.FieldRead? || e.OrderInstalls? || e.BasisIsKept? || e.FirstIsNamed? || e.FirstMarked?
          || e.FillHandled? || e.DeferredSubmitted?
    ensures BalancedAtRest(Step(c, w, e)) && !Abandons(c, w, e)
  {
    hide ReadField, PendingFor, EntryBasis;
  }

  lemma RestBalancedIff(c: LiveConfig, w: World, e: Event)
    requires BalancedAtRest(w)
    requires e.FirstSubmitted? || e.DeferredBasisFails? || e.FlattenSubmitted? || e.TimeoutFound? || e.TimeoutRoleRead?
          || e.TimeoutActs? || e.OtherFailure? || e.OtherDisable?
    ensures BalancedAtRest(Step(c, w, e)) <==> !Abandons(c, w, e)
  {
  }

  /** One step keeps the legs balanced at rest exactly when it does not abandon. */
  lemma StepBalancedIff(c: LiveConfig, w: World, e: Event)
    requires BalancedAtRest(w)
    ensures BalancedAtRest(Step(c, w, e)) <==> !Abandons(c, w, e)
  {
    hide BalancedAtRest, Abandons, Step;
    if e.OrderFills? || e.OtherFill? {
      FillsBalancedIff(c, w, e);
    } else if e.OrderDies? || e.OtherReport? {
      ReportsBalancedIff(c, w, e);
    } else if e.FirstSubmitted? || e.DeferredBasisFails? || e.FlattenSubmitted? || e.TimeoutFound? || e.TimeoutRoleRead?
           || e.TimeoutActs? || e.OtherFailure? || e.OtherDisable? {
      RestBalancedIff(c, w, e);
    } else {
      QuietBalanced(c, w, e);
    }
  }

  predicate NeverAbandons(c: LiveConfig, w: World, events: seq<Event>, n: nat)
    requires n <= |events|
  {
    forall k :: 0 <= k < n ==> !Abandons(c, Run(c, w, events[..k]), events[k])
  }

  /** The legs match at every moment without a pending order exactly when no step of the run abandons. */
  lemma {:induction false} BalancedAtRestIff(c: LiveConfig, w: World, events: seq<Event>, m: nat)
    requires BalancedAtRest(w) && m <= |events|
    ensures (forall n :: 0 <= n <= m ==> BalancedAtRest(Run(c, w, events[..n]))) <==> NeverAbandons(c, w, events, m)
    decreases m
  {
    hide BalancedAtRest, Abandons, Step;
    if m == 0 {
      assert Run(c, w, events[..0]) == w;
    } else {
      BalancedAtRestIff(c, w, events, m - 1);
      RunSnoc(c, w, events, m - 1);
      if BalancedAtRest(Run(c, w, events[..m - 1])) {
        StepBalancedIff(c, Run(c, w, events[..m - 1]), events[m - 1]);
      }
    }
  }

  // ---------------------------------------------------------------- what every step keeps

  predicate SoundOrder(order: PendingPairOrder) {
    order.quantityMultiplier >= 1 && order.stockSide == order.futureSide.Opposite()
  }

  /** Signed units each leg moves by when it fills. */
  function Change(order: PendingPairOrder): int {
    SignedUnits(Stock, order.stockSide, order.quantityMultiplier)
  }

  lemma ChangeOf(order: PendingPairOrder, leg: Leg)
    requires SoundOrder(order)
    ensures SignedUnits(leg, order.SideOf(leg), order.quantityMultiplier) == Change(order) != 0
    ensures SignedUnits(leg, order.SideOf(leg).Opposite(), order.quantityMultiplier) == -Change(order)
    ensures Change(order) == order.quantityMultiplier || Change(order) == -order.quantityMultiplier
  {
  }

  predicate SameOrder(a: PendingPairOrder, b: PendingPairOrder) {
    && a.id == b.id && a.quantityMultiplier == b.quantityMultiplier
    && a.stockSide == b.stockSide && a.futureSide == b.futureSide
    && a.targetStockUnits == b.targetStockUnits && a.targetFutureUnits == b.targetFutureUnits
  }

  /** Nothing accepted before it is at the broker, and one acceptance after. */
  predicate OnceIf(state: OrderState, accepted: nat) {
    accepted <= if state.Unsent? || state.Submitting? then 0 else 1
  }

  /** Each order of a callback is accepted at most once per placed order. */
  predicate AcceptedOnce(w: World) {
    OnceIf(w.again, w.againAccepted) && OnceIf(w.second, w.secondAccepted) && OnceIf(w.flatten, w.flattenAccepted)
  }

  /** The quantity of a draft is positive once it is read. */
  predicate SoundTask(w: World) {
    && (w.first.Submitting? <==> w.task.SubmittingFirst?)
    && (w.task.Unnamed() ==> w.first.Unsent?)
    && match w.task
       case Reading(d, field) => d.q >= 1 || (field.QuantityField? && d.signal == Exit)
       case Installing(d) => d.q >= 1
       case _ => true
  }

  /** The pending order is the one placed last, and its marks follow its broker orders. */
  predicate SoundPending(w: World)
    requires w.s.pending.Some?
  {
    var order := w.s.pending.value;
    && SameOrder(order, w.order) && SoundOrder(order)
    && order.firstLeg == (if w.task.Unnamed() then None else Some(w.firstLeg))
    && (w.first.Unsent? ==> w.task.Unnamed())
    && (w.second.Unsent? <==> !order.Sent(w.SecondLeg()))
    && (!w.again.Unsent? ==> order.Sent(w.firstLeg))
    && (!w.flatten.Unsent? ==> order.secondLegFailureHandled)
  }

  predicate Marked(w: World) {
    SettledQuantity(w.s) && AcceptedOnce(w) && SoundTask(w) && (w.s.pending.Some? ==> SoundPending(w))
  }

  lemma PlacingKeepsMarks(c: LiveConfig, w: World, e: Event)
    requires Marked(w)
    requires e.PlaceBegins? || e.FieldRead? || e.OrderInstalls? || e.BasisIsKept? || e.FirstIsNamed? || e.FirstMarked?
    ensures Marked(Step(c, w, e))
  {
    hide ReconciledQuantity, ExitQuantityMultiplier, EntryBasis;
  }

  lemma FillKeepsMarks(w: World, leg: Leg, side: Side, units: int, price: real, now: real)
    requires Marked(w)
    ensures Marked(FillStep(w, leg, side, units, price, now))
    ensures FillStep(w, leg, side, units, price, now).s.pending.Some? ==>
      FillStep(w, leg, side, units, price, now).s.pending == w.s.pending
  {
    if units > 0 {
      FilledUnits(w.s, leg, side, units, price, now);
      hide Filled, ReconciledQuantity, SignedUnits;
    }
  }

  lemma OrderFillKeepsMarks(c: LiveConfig, w: World, e: Event)
    requires Marked(w) && (e.OrderFills? || e.OtherFill?)
    ensures Marked(Step(c, w, e))
  {
    match e
    case OrderFills(role, price, now) =>
      hide FillStep, ReconciledQuantity;
      if MayFill(w, role) {
        var t := w.WithSlot(role, Complete);
        assert Marked(t);
        FillKeepsMarks(t, w.LegOf(role), w.SideOf(role), w.order.quantityMultiplier, price, now);
      }
    case OtherFill(leg, side, units, price, now) =>
      hide FillStep, Marked;
      FillKeepsMarks(w, leg, side, units, price, now);
  }

  /** A callback only submits a leg that has nothing of its own at the broker. */
  lemma DeferredStartsUnsent(w: World, leg: Leg)
    requires Marked(w) && DeferredReady(w.s, leg)
    ensures w.Slot(if leg.Other() == w.firstLeg then AgainRole else SecondRole).Unsent?
  {
    hide ReconciledQuantity;
  }

  lemma HandlingKeepsMarks(w: World, leg: Leg)
    requires Marked(w)
    ensures Marked(HandleStep(w, leg))
  {
    hide ReconciledQuantity, SoundOrder, DeferredReady;
    if leg in w.handling && DeferredReady(w.s, leg) {
      DeferredStartsUnsent(w, leg);
      DeferredIsPending(w.s, leg);
      hide DeferredStart;
      SoundOrderIs(w.s.pending.value, w.s.pending.value.WithSent(leg.Other(), true));
    }
  }

  lemma DeferredIsPending(s: Live, leg: Leg)
    requires DeferredReady(s, leg)
    ensures s.pending.Some? && DeferredStart(s, leg) == s.(pending := Some(s.pending.value.WithSent(leg.Other(), true)))
  {
  }

  lemma SoundOrderIs(a: PendingPairOrder, b: PendingPairOrder)
    requires SameOrder(a, b)
    ensures SoundOrder(a) <==> SoundOrder(b)
  {
  }

  lemma DeferredKeepsMarks(w: World, role: Role, accepted: bool)
    requires Marked(w) && Deferred(role)
    ensures Marked(DeferredSubmitStep(w, role, accepted))
  {
    hide ReconciledQuantity;
  }

  lemma SubmissionKeepsMarks(c: LiveConfig, w: World, e: Event)
    requires Marked(w) && (e.FlattenSubmitted? || e.FirstSubmitted?)
    ensures Marked(Step(c, w, e))
  {
    hide ReconciledQuantity, DeferredReady, HandleStep, FailStep, FillStep, DeathStep, TimeoutStep, InstallStep;
  }

  lemma CallbacksKeepMarks(c: LiveConfig, w: World, e: Event)
    requires Marked(w)
    requires e.FillHandled? || e.DeferredSubmitted? || e.FlattenSubmitted? || e.FirstSubmitted?
    ensures Marked(Step(c, w, e))
  {
    hide Marked, HandleStep, DeferredSubmitStep;
    match e
    case FillHandled(leg) => HandlingKeepsMarks(w, leg);
    case DeferredSubmitted(role, accepted) => if Deferred(role) { DeferredKeepsMarks(w, role, accepted); }
    case _ => SubmissionKeepsMarks(c, w, e);
  }

  lemma FailingKeepsMarks(c: LiveConfig, w: World, now: real)
    requires Marked(w)
    ensures Marked(FailStep(c, w, now))
  {
    hide ReconciledQuantity;
  }

  lemma TimeoutKeepsMarks(c: LiveConfig, w: World, e: Event)
    requires Marked(w) && (e.TimeoutFound? || e.TimeoutRoleRead? || e.OtherDisable?)
    ensures Marked(Step(c, w, e))
  {
    hide ReconciledQuantity;
  }

  lemma ReleaseKeepsMarks(c: LiveConfig, w: World, now: real)
    requires Marked(w)
    ensures Marked(TimeoutStep(c, w, now))
  {
    hide ReconciledQuantity, FailStep;
    match w.task
    case FailingSecond => FailingKeepsMarks(c, w.(task := Idle), now);
    case _ =>
  }

  lemma FailureKeepsMarks(c: LiveConfig, w: World, e: Event)
    requires Marked(w)
    requires e.DeferredBasisFails? || e.TimeoutFound? || e.TimeoutRoleRead? || e.TimeoutActs? || e.OtherFailure? || e.OtherDisable?
    ensures Marked(Step(c, w, e))
  {
    hide FailStep, TimeoutStep, ReconciledQuantity;
    match e
    case TimeoutActs(now) => ReleaseKeepsMarks(c, w, now);
    case OtherFailure(now) => FailingKeepsMarks(c, w, now);
    case DeferredBasisFails(role, now) =>
      if Deferred(role) && w.Slot(role).Submitting? { FailingKeepsMarks(c, w.WithSlot(role, Dead), now); }
    case _ => TimeoutKeepsMarks(c, w, e);
  }

  /** A report changes the entry flags, and may drop the pending order or fail its second leg. */
  predicate ReportForm(c: LiveConfig, s: Live, starts: bool, t: Live, now: real) {
    var u := s.(entriesDisabled := t.entriesDisabled, entriesLocked := t.entriesLocked);
    && (s.entriesDisabled ==> t.entriesDisabled)
    && ((!starts && (t == u || t == u.(pending := None)))
        || (starts == StartsFlatten(c, s) && t == SecondLegFails(c, u, now)))
  }

  lemma ReportForms(c: LiveConfig, s: Live, leg: Leg, r: Report, now: real)
    ensures ReportForm(c, s, Reported(c, s, leg, r, now).0, Reported(c, s, leg, r, now).1, now)
  {
  }

  lemma ReportKeepsMarks(c: LiveConfig, w: World, leg: Leg, r: Report, now: real)
    requires Marked(w)
    ensures
      var (starts, s) := Reported(c, w.s, leg, r, now);
      Marked(StartFlatten(w.(s := s), starts))
  {
    ReportForms(c, w.s, leg, r, now);
    hide Reported, SecondLegFails, ReconciledQuantity;
    var (starts, s) := Reported(c, w.s, leg, r, now);
    var u := w.(s := w.s.(entriesDisabled := s.entriesDisabled, entriesLocked := s.entriesLocked));
    assert Marked(u);
    FailingKeepsMarks(c, u, now);
  }

  lemma DeadKeepsMarks(w: World, role: Role)
    requires Marked(w) && w.Slot(role).Working?
    ensures Marked(w.WithSlot(role, Dead))
  {
    hide ReconciledQuantity, SoundOrder;
  }

  lemma DeathKeepsMarks(c: LiveConfig, w: World, e: Event)
    requires Marked(w) && (e.OrderDies? || e.OtherReport?)
    ensures Marked(Step(c, w, e))
  {
    hide Marked, Reported, DeathReport;
    match e
    case OtherReport(leg, r, now) =>
      ReportKeepsMarks(c, w, leg, r, now);
    case OrderDies(role, rejected, now) =>
      if Dies(w, role) {
        DeadKeepsMarks(w, role);
        ReportKeepsMarks(c, w.WithSlot(role, Dead), w.LegOf(role), DeathReport(c, role, rejected), now);
      }
  }

  /** Every step, whatever it abandons, keeps the marks of the pending order and its broker orders in step. */
  lemma StepKeepsMarks(c: LiveConfig, w: World, e: Event)
    requires Marked(w)
    ensures Marked(Step(c, w, e))
  {
    hide Marked, Step;
    if e.OrderFills? || e.OtherFill? {
      OrderFillKeepsMarks(c, w, e);
    } else if e.OrderDies? || e.OtherReport? {
      DeathKeepsMarks(c, w, e);
    } else if e.FillHandled? || e.DeferredSubmitted? || e.FlattenSubmitted? || e.FirstSubmitted? {
      CallbacksKeepMarks(c, w, e);
    } else if e.DeferredBasisFails? || e.TimeoutFound? || e.TimeoutRoleRead? || e.TimeoutActs? || e.OtherFailure? || e.OtherDisable? {
      FailureKeepsMarks(c, w, e);
    } else {
      PlacingKeepsMarks(c, w, e);
    }
  }

  /** On every run each placed order's second leg, repeated first leg and flatten are accepted at most once. */
  lemma {:induction false} RunStaysMarked(c: LiveConfig, w: World, events: seq<Event>)
    requires Marked(w)
    ensures Marked(Run(c, w, events)) && AcceptedOnce(Run(c, w, events))
    decreases |events|
  {
    if events != [] {
      RunStaysMarked(c, w, events[..|events| - 1]);
      hide Step;
      StepKeepsMarks(c, Run(c, w, events[..|events| - 1]), events[|events| - 1]);
      hide SoundPending;
    }
  }

  // ---------------------------------------------------------------- the units, order by order

  function Done(state: OrderState): int { if state.Complete? then 1 else 0 }

  /** How often the orders of a leg filled, the flatten taken back. */
  function NetFills(w: World, leg: Leg): int {
    if leg == w.firstLeg then Done(w.first) + Done(w.again) - Done(w.flatten) else Done(w.second)
  }

  /** The broker orders of the pending pair order leave its legs unequal. */
  predicate Open(w: World) { NetFills(w, w.firstLeg) != NetFills(w, w.SecondLeg()) }

  /** Each leg stands where the order was installed plus what the order's fills moved. */
  predicate Explained(w: World) {
    w.s.pending.Some? ==>
      forall leg :: w.s.Units(leg) == w.Base(leg) + Moved(w.order, NetFills(w, leg))
  }

  function Moved(order: PendingPairOrder, fills: int): int { Change(order) * fills }

  lemma MovedOneMore(order: PendingPairOrder, fills: int)
    ensures Moved(order, fills + 1) == Moved(order, fills) + Change(order)
    ensures Moved(order, fills - 1) == Moved(order, fills) - Change(order)
    ensures Moved(order, 0) == 0
  {
  }

  /** The legs match, or did when the pending order was installed. */
  predicate Balanced(w: World) {
    if w.s.pending.None? then !LegsDiffer(w.s) else w.stockBase == w.futureBase
  }

  predicate Sound(w: World) { Marked(w) && Explained(w) }

  predicate Good(w: World) { Sound(w) && Balanced(w) }

  lemma FillStaysExplained(c: LiveConfig, w: World, e: Event)
    requires Sound(w) && e.OrderFills?
    ensures Explained(Step(c, w, e))
  {
    if MayFill(w, e.role) && w.order.quantityMultiplier > 0 {
      var leg, q := w.LegOf(e.role), w.order.quantityMultiplier;
      FilledUnits(w.s, leg, w.SideOf(e.role), q, e.price, e.now);
      var t := Step(c, w, e);
      SlotFilled(c, w, e);
      FillMoves(w, e.role);
      FillMovesOthers(w, e.role, leg.Other());
      hide Step, Filled, Moved, Marked, NetFills, SignedUnits, MayFill;
      forall l | t.s.pending.Some? ensures t.s.Units(l) == t.Base(l) + Moved(t.order, NetFills(t, l)) {
        assert w.s.Units(l) == w.Base(l) + Moved(w.order, NetFills(w, l));
        assert l == leg || l == leg.Other();
      }
    }
  }

  lemma SlotFilled(c: LiveConfig, w: World, e: Event)
    requires e.OrderFills? && MayFill(w, e.role) && w.order.quantityMultiplier > 0
    ensures
      var t := Step(c, w, e);
      && t.s == Filled(w.s, w.LegOf(e.role), w.SideOf(e.role), w.order.quantityMultiplier, e.price, e.now)
      && t.order == w.order && t.stockBase == w.stockBase && t.futureBase == w.futureBase
      && NetFills(t, Stock) == NetFills(w.WithSlot(e.role, Complete), Stock)
      && NetFills(t, Future) == NetFills(w.WithSlot(e.role, Complete), Future)
  {
    hide Filled;
  }

  /** The units an order's fill moves are those its state accounts for. */
  lemma FillMoves(w: World, role: Role)
    requires Marked(w) && MayFill(w, role)
    ensures
      var leg, t := w.LegOf(role), w.WithSlot(role, Complete);
      Moved(w.order, NetFills(t, leg))
      == Moved(w.order, NetFills(w, leg)) + SignedUnits(leg, w.SideOf(role), w.order.quantityMultiplier)
  {
    var leg := w.LegOf(role);
    ChangeOf(w.order, leg);
    MovedOneMore(w.order, NetFills(w, leg));
    hide Moved, SignedUnits, SettledQuantity;
  }

  lemma FillMovesOthers(w: World, role: Role, leg: Leg)
    requires leg != w.LegOf(role)
    ensures NetFills(w.WithSlot(role, Complete), leg) == NetFills(w, leg)
  {
  }

  /** Submissions, handlings, reports and failures move nothing and complete nothing. */
  lemma OthersStayExplained(c: LiveConfig, w: World, e: Event)
    requires Sound(w) && e.Own() && !e.OrderFills? && !e.OrderInstalls?
    ensures Explained(Step(c, w, e))
  {
    var t := Step(c, w, e);
    NothingMoves(c, w, e);
    hide Step, Marked, NetFills, Moved;
    forall leg | t.s.pending.Some? ensures t.s.Units(leg) == t.Base(leg) + Moved(t.order, NetFills(t, leg)) {
      assert w.s.Units(leg) == w.Base(leg) + Moved(w.order, NetFills(w, leg));
    }
  }

  /** The position and what has filled stay, and no order comes. */
  predicate Unmoved(w: World, t: World) {
    && t.s.position == w.s.position && t.order == w.order && t.firstLeg == w.firstLeg
    && t.stockBase == w.stockBase && t.futureBase == w.futureBase
    && (t.s.pending.Some? ==> w.s.pending.Some?)
    && (t.s.pending.Some? ==> NetFills(t, Stock) == NetFills(w, Stock) && NetFills(t, Future) == NetFills(w, Future))
  }

  lemma HandlingMovesNothing(w: World, leg: Leg)
    requires Marked(w)
    ensures Unmoved(w, HandleStep(w, leg))
  {
    hide DeferredReady, Marked;
    if DeferredReady(w.s, leg) {
      DeferredStartsUnsent(w, leg);
      DeferredIsPending(w.s, leg);
      hide DeferredStart;
    }
  }

  lemma FailingMovesNothing(c: LiveConfig, w: World, now: real)
    requires Marked(w)
    ensures Unmoved(w, FailStep(c, w, now))
  {
    hide ReconciledQuantity, SignedUnits, DeferredReady;
  }

  lemma DeathMovesNothing(c: LiveConfig, w: World, e: Event)
    requires Marked(w) && e.OrderDies?
    ensures Unmoved(w, DeathStep(c, w, e))
  {
    if Dies(w, e.role) {
      var leg, r := w.LegOf(e.role), DeathReport(c, e.role, e.rejected);
      ReportForms(c, w.s, leg, r, e.now);
      hide Reported, DeathReport, StartsFlatten, Marked;
      var (starts, s) := Reported(c, w.s, leg, r, e.now);
      DeadUnmoved(w, e.role, s);
      if starts { StartsWithoutFlatten(c, w); }
      FlattenUnmoved(w.(s := s).WithSlot(e.role, Dead), starts);
      hide NetFills, ReportForm, StartFlatten;
    }
  }

  lemma DeadUnmoved(w: World, role: Role, s: Live)
    requires w.Slot(role).Working? && s.position == w.s.position && w.s.pending.Some?
    ensures Unmoved(w, w.(s := s).WithSlot(role, Dead))
    ensures role != FlattenRole ==> w.(s := s).WithSlot(role, Dead).flatten == w.flatten
  {
  }

  lemma FlattenUnmoved(w: World, starts: bool)
    requires starts ==> !w.flatten.Complete?
    ensures Unmoved(w, StartFlatten(w, starts))
  {
  }

  lemma StartsWithoutFlatten(c: LiveConfig, w: World)
    requires Marked(w) && StartsFlatten(c, w.s)
    ensures w.flatten.Unsent?
  {
  }

  lemma DeferredMovesNothing(w: World, role: Role, accepted: bool)
    requires Deferred(role)
    ensures Unmoved(w, DeferredSubmitStep(w, role, accepted))
  {
  }

  lemma StrategyMovesNothing(c: LiveConfig, w: World, e: Event)
    requires Marked(w)
    requires e.PlaceBegins? || e.FieldRead? || e.BasisIsKept? || e.FirstIsNamed? || e.FirstSubmitted? || e.FirstMarked?
          || e.FlattenSubmitted? || e.TimeoutFound? || e.TimeoutRoleRead?
    ensures Unmoved(w, Step(c, w, e))
  {
    hide ReconciledQuantity, ReadField, EntryBasis;
  }

  lemma ReleaseMovesNothing(c: LiveConfig, w: World, now: real)
    requires Marked(w)
    ensures Unmoved(w, TimeoutStep(c, w, now))
  {
    hide FailStep, ReconciledQuantity;
    match w.task
    case FailingSecond => FailingMovesNothing(c, w.(task := Idle), now);
    case _ =>
  }

  /** A step that neither fills nor installs keeps the position and the counted fills. */
  lemma NothingMoves(c: LiveConfig, w: World, e: Event)
    requires Marked(w) && e.Own() && !e.OrderFills? && !e.OrderInstalls?
    ensures Unmoved(w, Step(c, w, e))
  {
    hide HandleStep, FailStep, DeathStep, DeferredSubmitStep, TimeoutStep, ReconciledQuantity;
    match e
    case FillHandled(leg) => HandlingMovesNothing(w, leg);
    case DeferredSubmitted(role, accepted) => if Deferred(role) { DeferredMovesNothing(w, role, accepted); }
    case DeferredBasisFails(role, now) =>
      if Deferred(role) && w.Slot(role).Submitting? { FailingMovesNothing(c, w.WithSlot(role, Dead), now); }
    case OrderDies(_, _, _) => DeathMovesNothing(c, w, e);
    case TimeoutActs(now) => ReleaseMovesNothing(c, w, now);
    case _ => StrategyMovesNothing(c, w, e); hide Step;
  }

  /** Every own step keeps the units explained. */
  lemma StepStaysSound(c: LiveConfig, w: World, e: Event)
    requires Sound(w) && e.Own()
    ensures Sound(Step(c, w, e))
  {
    StepKeepsMarks(c, w, e);
    if e.OrderFills? {
      FillStaysExplained(c, w, e);
      hide Step, Marked, Explained;
    } else if e.OrderInstalls? {
      InstalledExplained(c, w, e);
      hide Step, Marked, Explained;
    } else {
      OthersStayExplained(c, w, e);
      hide Step, Marked, Explained;
    }
  }

  lemma InstalledExplained(c: LiveConfig, w: World, e: Event)
    requires Sound(w) && e.OrderInstalls?
    ensures Explained(Step(c, w, e))
    ensures Balanced(w) ==> Balanced(Step(c, w, e))
  {
    hide PendingFor, Marked, SignedUnits;
    var t := Step(c, w, e);
    if Installs(w, e) { MovedOneMore(t.order, 0); }
  }

  /** A step that does not abandon keeps the balance; only an own step can drop an order here. */
  lemma StepStaysGood(c: LiveConfig, w: World, e: Event)
    requires Good(w) && e.Own() && !Abandons(c, w, e)
    ensures Good(Step(c, w, e))
  {
    StepStaysSound(c, w, e);
    StepBalancedIff(c, w, e);
    if e.OrderInstalls? {
      InstalledExplained(c, w, e);
    } else if e.OrderFills? {
      FillKeepsBases(c, w, e);
    } else {
      NothingMoves(c, w, e);
    }
    hide Sound, Step, Abandons;
  }

  lemma FillKeepsBases(c: LiveConfig, w: World, e: Event)
    requires e.OrderFills?
    ensures
      var t := Step(c, w, e);
      && t.stockBase == w.stockBase && t.futureBase == w.futureBase
      && (t.s.pending.Some? ==> w.s.pending.Some?)
  {
    if MayFill(w, e.role) && w.order.quantityMultiplier > 0 {
      FilledUnits(w.s, w.LegOf(e.role), w.SideOf(e.role), w.order.quantityMultiplier, e.price, e.now);
      hide Filled;
    }
  }

  /** In a good state with an order pending, the legs differ exactly when its broker orders left them open. */
  lemma OpenIff(w: World)
    requires Good(w) && w.s.pending.Some?
    ensures LegsDiffer(w.s) <==> Open(w)
    ensures w.s.position.stockUnits - w.s.position.futureUnits
         == Change(w.order) * (NetFills(w, Stock) - NetFills(w, Future))
    ensures Magnitude(w.s.position.stockUnits - w.s.position.futureUnits) <= 2 * w.order.quantityMultiplier
  {
    ChangeOf(w.order, Stock);
    assert w.s.Units(Stock) == w.Base(Stock) + Moved(w.order, NetFills(w, Stock));
    assert w.s.Units(Future) == w.Base(Future) + Moved(w.order, NetFills(w, Future));
    Spread(w.order, NetFills(w, Stock), NetFills(w, Future));
    hide Marked;
  }

  lemma Spread(order: PendingPairOrder, a: int, b: int)
    requires SoundOrder(order) && -2 <= a - b <= 2
    ensures Moved(order, a) - Moved(order, b) == Change(order) * (a - b)
    ensures Moved(order, a) == Moved(order, b) <==> a == b
    ensures Magnitude(Change(order) * (a - b)) <= 2 * order.quantityMultiplier
  {
    ChangeOf(order, Stock);
    var d := a - b;
    assert d == -2 || d == -1 || d == 0 || d == 1 || d == 2;
    hide Change;
  }

  predicate OwnEvents(events: seq<Event>) { forall e :: e in events ==> e.Own() }

  /** A run of own events that does not abandon stays good. */
  lemma {:induction false} RunStaysGood(c: LiveConfig, w: World, events: seq<Event>, n: nat)
    requires Good(w) && OwnEvents(events) && n <= |events| && NeverAbandons(c, w, events, n)
    ensures Good(Run(c, w, events[..n]))
    decreases n
  {
    hide Good, Step, Abandons;
    if n > 0 {
      RunStaysGood(c, w, events, n - 1);
      RunSnoc(c, w, events, n - 1);
      StepStaysGood(c, Run(c, w, events[..n - 1]), events[n - 1]);
    }
  }

  /** Along any such run: no pending order means matched legs, and a pending one legs that differ by what
      its broker orders left open, at most twice its quantity. */
  lemma LegsStayWithinTheOrder(c: LiveConfig, w: World, events: seq<Event>, n: nat)
    requires Good(w) && OwnEvents(events) && n <= |events| && NeverAbandons(c, w, events, n)
    ensures
      var t := Run(c, w, events[..n]);
      && BalancedAtRest(t)
      && (t.s.pending.Some? ==>
            && (LegsDiffer(t.s) <==> Open(t))
            && Magnitude(t.s.position.stockUnits - t.s.position.futureUnits) <= 2 * t.order.quantityMultiplier)
  {
    RunStaysGood(c, w, events, n);
    var t := Run(c, w, events[..n]);
    hide Run, Sound;
    if t.s.pending.Some? { OpenIff(t); }
  }

  /** For own events the steps that abandon, by the broker orders: the pending order is dropped while
      they left its legs open, or a fill meets its unequal targets. */
  predicate AbandonsOpen(c: LiveConfig, w: World, e: Event) {
    || (Drops(c, w, e) && Open(w))
    || (e.OrderFills? && MayFill(w, e.role)
        && MeetsUnequalTargets(w.s, w.LegOf(e.role), w.SideOf(e.role), w.order.quantityMultiplier))
  }

  lemma AbandonsOpenIff(c: LiveConfig, w: World, e: Event)
    requires Good(w) && e.Own()
    ensures Abandons(c, w, e) <==> AbandonsOpen(c, w, e)
  {
    if w.s.pending.Some? { OpenIff(w); }
    hide Good, Open, LegsDiffer, MayFill, MeetsUnequalTargets;
  }

  predicate NeverAbandonsOpen(c: LiveConfig, w: World, events: seq<Event>, n: nat)
    requires n <= |events|
  {
    forall k :: 0 <= k < n ==> !AbandonsOpen(c, Run(c, w, events[..k]), events[k])
  }

  lemma {:induction false} OwnRunAbandonsIff(c: LiveConfig, w: World, events: seq<Event>, n: nat)
    requires Good(w) && OwnEvents(events) && n <= |events|
    ensures NeverAbandons(c, w, events, n) <==> NeverAbandonsOpen(c, w, events, n)
    decreases n
  {
    hide Good, Abandons, AbandonsOpen, Open, LegsDiffer, Run;
    if n > 0 {
      OwnRunAbandonsIff(c, w, events, n - 1);
      if NeverAbandons(c, w, events, n - 1) {
        RunStaysGood(c, w, events, n - 1);
        AbandonsOpenIff(c, Run(c, w, events[..n - 1]), events[n - 1]);
      }
    }
  }

  /** Over any run of own events, stale orders and repeated first legs included: the legs match at every
      moment without a pending order exactly when no order is dropped with its legs open and no fill
      meets unequal targets. */
  lemma OwnBalancedAtRestIff(c: LiveConfig, w: World, events: seq<Event>)
    requires Good(w) && OwnEvents(events)
    ensures
      (forall n :: 0 <= n <= |events| ==> BalancedAtRest(Run(c, w, events[..n])))
      <==> NeverAbandonsOpen(c, w, events, |events|)
  {
    OwnRunAbandonsIff(c, w, events, |events|);
    BalancedAtRestIff(c, w, events, |events|);
    hide NeverAbandons, NeverAbandonsOpen;
  }
}
