/** Pair orders whose targets were read from the position they are installed at, and those whose were not. */
module FreshOrders {
  import opened Wrappers
  import opened Models
  import opened Strategy
  import opened LiveOrders
  import opened LiveProtocol

  // ---------------------------------------------------------------- orders placed from the current position

  /** The order's targets are the position moved by the order. */
  predicate FreshOrder(order: PendingPairOrder, stock: int, future: int) {
    order.targetStockUnits == stock + Change(order) && order.targetFutureUnits == future + Change(order)
  }

  /** The strategy thread installs an order whose targets were read from another position. */
  predicate InstallsStale(w: World, e: Event) {
    Installs(w, e) && !FreshOrder(Drafted(w).value, w.s.position.stockUnits, w.s.position.futureUnits)
  }

  /** The first leg is filled and not flattened. */
  predicate FirstLegOpen(w: World) { w.first.Complete? && !w.flatten.Complete? }

  /** The pending order is fresh: the second leg and the flatten follow a filled first leg. */
  predicate Fresh(w: World) {
    w.s.pending.Some? ==>
      && FreshOrder(w.order, w.stockBase, w.futureBase)
      && w.again.Unsent? && !w.second.Complete?
      && (!w.first.Complete? ==> w.second.Unsent? && w.flatten.Unsent? && !w.s.pending.value.secondLegFailureHandled)
      && (w.task.FailingSecond? ==> w.first.Complete?)
      && (w.s.pending.value.secondLegFailureHandled && (w.task.TimingOut? || w.task.FailingSecond? || w.task.ReleasingFirst?) ==>
            w.second.Dead?)
  }

  /** A fresh order starts its second leg only from the filled first leg, at its target. */
  lemma SecondLegStartsAtTarget(w: World, leg: Leg)
    requires Sound(w) && Fresh(w) && DeferredReady(w.s, leg)
    ensures leg == w.firstLeg && FirstLegOpen(w) && w.second.Unsent?
    ensures w.s.Units(leg) == w.order.Target(leg) && w.s.Units(leg.Other()) == w.Base(leg.Other())
  {
    ChangeOf(w.order, Stock);
    assert w.s.Units(leg) == w.Base(leg) + Moved(w.order, NetFills(w, leg));
    assert w.s.Units(leg.Other()) == w.Base(leg.Other()) + Moved(w.order, NetFills(w, leg.Other()));
    MovedOneMore(w.order, 0);
    MovedOneMore(w.order, -1);
    hide Moved, SignedUnits, SettledQuantity;
  }

  /** The units of a fresh pending order's legs. */
  lemma FreshUnits(w: World)
    requires Sound(w) && Fresh(w) && w.s.pending.Some?
    ensures w.s.Units(w.SecondLeg()) == w.Base(w.SecondLeg())
    ensures w.first.Complete? || w.flatten.Unsent?
    ensures w.s.Units(w.firstLeg) == if FirstLegOpen(w) then w.order.Target(w.firstLeg) else w.Base(w.firstLeg)
  {
    assert w.s.Units(w.firstLeg) == w.Base(w.firstLeg) + Moved(w.order, NetFills(w, w.firstLeg));
    assert w.s.Units(w.SecondLeg()) == w.Base(w.SecondLeg()) + Moved(w.order, NetFills(w, w.SecondLeg()));
    MovedOneMore(w.order, 0);
    hide Moved, Marked;
  }

  /** While its order is fresh, exactly two steps abandon: the release of a pair order whose second leg
      was not marked as sent when the timeout read its role, and a terminal report of a FOK flatten
      order, which is taken for a report of the first leg; each with the first leg open. */
  predicate AbandonsFresh(c: LiveConfig, w: World, e: Event) {
    w.Pending() && FirstLegOpen(w)
    && ((e.TimeoutActs? && w.task.ReleasingFirst?)
        || (e.OrderDies? && e.role.FlattenRole? && w.flatten.Working? && c.pair.flattenFirstLegTif.Fok?))
  }

  lemma FreshAbandonsIff(c: LiveConfig, w: World, e: Event)
    requires Good(w) && Fresh(w) && e.Own()
    ensures Abandons(c, w, e) <==> AbandonsFresh(c, w, e)
  {
    if w.s.pending.Some? {
      FreshUnits(w);
      ChangeOf(w.order, Stock);
      if e.OrderFills? { hide SettledQuantity, Change, SignedUnits; }
      hide SettledQuantity, Change, SignedUnits, Explained;
    }
  }

  lemma FillStaysFresh(c: LiveConfig, w: World, e: Event)
    requires Sound(w) && Fresh(w) && e.OrderFills?
    ensures Fresh(Step(c, w, e))
  {
    if MayFill(w, e.role) && w.order.quantityMultiplier > 0 {
      FreshUnits(w);
      ChangeOf(w.order, w.LegOf(e.role));
      FilledUnits(w.s, w.LegOf(e.role), w.SideOf(e.role), w.order.quantityMultiplier, e.price, e.now);
      hide Filled, Change, SignedUnits, SettledQuantity, Explained;
    }
  }

  lemma HandlingStaysFresh(w: World, leg: Leg)
    requires Sound(w) && Fresh(w)
    ensures Fresh(HandleStep(w, leg))
  {
    if DeferredReady(w.s, leg) { SecondLegStartsAtTarget(w, leg); }
    hide Change, SettledQuantity, Explained;
  }

  lemma InstallStaysFresh(c: LiveConfig, w: World, e: Event)
    requires Fresh(w) && e.OrderInstalls? && !InstallsStale(w, e)
    ensures Fresh(Step(c, w, e))
  {
    hide Change;
  }

  lemma StrategyStaysFresh(c: LiveConfig, w: World, e: Event)
    requires Marked(w) && Fresh(w)
    requires e.PlaceBegins? || e.FieldRead? || e.BasisIsKept? || e.FirstIsNamed? || e.FirstSubmitted? || e.FirstMarked?
          || e.TimeoutFound? || e.TimeoutRoleRead?
    ensures Fresh(Step(c, w, e))
  {
    hide ReadField, EntryBasis, Change, SettledQuantity;
  }

  lemma FailingStaysFresh(c: LiveConfig, w: World, now: real)
    requires Marked(w) && Fresh(w) && (w.s.pending.Some? ==> w.first.Complete?)
    requires w.second.Dead? || !(w.task.TimingOut? || w.task.FailingSecond? || w.task.ReleasingFirst?)
    ensures Fresh(FailStep(c, w, now))
  {
    hide Change, SettledQuantity;
  }

  lemma DeathStaysFresh(c: LiveConfig, w: World, e: Event)
    requires Marked(w) && Fresh(w) && e.OrderDies?
    ensures Fresh(DeathStep(c, w, e))
  {
    hide Change, SettledQuantity;
  }

  lemma SubmissionStaysFresh(c: LiveConfig, w: World, e: Event)
    requires Marked(w) && Fresh(w) && (e.DeferredSubmitted? || e.FlattenSubmitted?)
    ensures Fresh(Step(c, w, e))
  {
    hide Change, SettledQuantity;
  }

  lemma BasisStaysFresh(c: LiveConfig, w: World, role: Role, now: real)
    requires Marked(w) && Fresh(w) && Deferred(role) && w.Slot(role).Submitting?
    ensures Fresh(FailStep(c, w.WithSlot(role, Dead), now))
  {
    var t := w.WithSlot(role, Dead);
    if w.s.pending.Some? {
      assert Marked(t) && Fresh(t);
      FailingStaysFresh(c, t, now);
    } else {
      NothingFails(c, t, now);
    }
    hide FailStep, Change, SettledQuantity;
  }

  lemma TimeoutStaysFresh(c: LiveConfig, w: World, now: real)
    requires Marked(w) && Fresh(w)
    ensures Fresh(TimeoutStep(c, w, now))
  {
    hide FailStep, Change, SettledQuantity;
    if w.task.FailingSecond? { FailingStaysFresh(c, w.(task := Idle), now); }
  }

  lemma NothingFails(c: LiveConfig, w: World, now: real)
    requires w.s.pending.None?
    ensures FailStep(c, w, now) == w
  {
  }

  /** Every own step keeps the pending order fresh unless it installs a stale one. */
  lemma StepStaysFresh(c: LiveConfig, w: World, e: Event)
    requires Sound(w) && Fresh(w) && e.Own() && !InstallsStale(w, e)
    ensures Fresh(Step(c, w, e))
  {
    hide Fresh, HandleStep, DeathStep, InstallsStale, Sound, Marked;
    assert Marked(w) by { SoundIsMarked(w); }
    match e
    case OrderFills(_, _, _) => FillStaysFresh(c, w, e); hide Step;
    case FillHandled(leg) => HandlingStaysFresh(w, leg);
    case OrderInstalls => InstallStaysFresh(c, w, e); hide Step;
    case OrderDies(_, _, _) => DeathStaysFresh(c, w, e);
    case DeferredSubmitted(_, _) => SubmissionStaysFresh(c, w, e); hide Step;
    case FlattenSubmitted(_) => SubmissionStaysFresh(c, w, e); hide Step;
    case DeferredBasisFails(role, now) =>
      if Deferred(role) && w.Slot(role).Submitting? { BasisStaysFresh(c, w, role, now); }
      hide FailStep;
    case TimeoutActs(now) => TimeoutStaysFresh(c, w, now); hide TimeoutStep;
    case _ => StrategyStaysFresh(c, w, e); hide Step;
  }

  lemma GoodIsSound(w: World)
    requires Good(w)
    ensures Sound(w)
  {
  }

  lemma SoundIsMarked(w: World)
    requires Sound(w)
    ensures Marked(w)
  {
  }

  predicate NeverInstallsStale(c: LiveConfig, w: World, events: seq<Event>, n: nat)
    requires n <= |events|
  {
    forall k :: 0 <= k < n ==> !InstallsStale(Run(c, w, events[..k]), events[k])
  }

  predicate NeverAbandonsFresh(c: LiveConfig, w: World, events: seq<Event>, n: nat)
    requires n <= |events|
  {
    forall k :: 0 <= k < n ==> !AbandonsFresh(c, Run(c, w, events[..k]), events[k])
  }

  lemma {:induction false} StaysFresh(c: LiveConfig, w: World, events: seq<Event>, n: nat)
    requires Sound(w) && Fresh(w) && OwnEvents(events) && n <= |events| && NeverInstallsStale(c, w, events, n)
    ensures Sound(Run(c, w, events[..n])) && Fresh(Run(c, w, events[..n]))
    decreases n
  {
    if n > 0 {
      StaysFresh(c, w, events, n - 1);
      RunSnoc(c, w, events, n - 1);
      hide Sound, Fresh, Step, InstallsStale;
      StepStaysSound(c, Run(c, w, events[..n - 1]), events[n - 1]);
      StepStaysFresh(c, Run(c, w, events[..n - 1]), events[n - 1]);
    }
  }

  /** As long as every order is installed from the position its targets were read from, only the two
      steps abandon. */
  lemma {:induction false} FreshRunAbandonsIff(c: LiveConfig, w: World, events: seq<Event>, n: nat)
    requires Good(w) && Fresh(w) && OwnEvents(events) && n <= |events| && NeverInstallsStale(c, w, events, n)
    ensures NeverAbandons(c, w, events, n) <==> NeverAbandonsFresh(c, w, events, n)
    decreases n
  {
    hide Good, Sound, Fresh, Abandons, AbandonsFresh, InstallsStale, Open, LegsDiffer, Run;
    if n > 0 {
      FreshRunAbandonsIff(c, w, events, n - 1);
      if NeverAbandons(c, w, events, n - 1) {
        RunStaysGood(c, w, events, n - 1);
        GoodIsSound(w);
        StaysFresh(c, w, events, n - 1);
        FreshAbandonsIff(c, Run(c, w, events[..n - 1]), events[n - 1]);
      }
    }
  }

  /** Over fresh orders: the legs match at every moment without a pending order exactly when no timeout
      releases, and no FOK flatten report drops, an order with its first leg open. */
  lemma FreshBalancedAtRestIff(c: LiveConfig, w: World, events: seq<Event>)
    requires Good(w) && Fresh(w) && OwnEvents(events) && NeverInstallsStale(c, w, events, |events|)
    ensures
      (forall n :: 0 <= n <= |events| ==> BalancedAtRest(Run(c, w, events[..n])))
      <==> NeverAbandonsFresh(c, w, events, |events|)
  {
    FreshRunAbandonsIff(c, w, events, |events|);
    BalancedAtRestIff(c, w, events, |events|);
    hide NeverAbandons, NeverAbandonsFresh;
  }

  // ---------------------------------------------------------------- when an order is stale

  /** A draft's fields read so far are those of the position. */
  predicate Undisturbed(w: World) {
    SettledQuantity(w.s) &&
    match w.task
    case Reading(d, field) =>
      && (field.QuantityField? ==> d.signal == Exit || d.q == 1)
      && (!field.QuantityField? ==> QuantityRead(w.s, d))
      && (field.StockField? || field.FutureField? ==> d.direction == w.s.position.direction)
      && (field.FutureField? ==> d.stockUnits == w.s.position.stockUnits)
    case Installing(d) =>
      && QuantityRead(w.s, d)
      && d.direction == w.s.position.direction
      && d.stockUnits == w.s.position.stockUnits && d.futureUnits == w.s.position.futureUnits
    case _ => true
  }

  predicate QuantityRead(s: Live, d: Draft) {
    if d.signal == Exit then 1 <= d.q <= Magnitude(s.position.quantity) else d.q == 1
  }

  lemma ExitWithinPosition(c: LiveConfig, market: PairMarket, position: PairPosition)
    ensures ExitQuantityMultiplier(c.pair, market, position) <= Magnitude(position.quantity)
  {
    hide BookPairCapacity;
  }

  predicate IsFill(e: Event) { e.OrderFills? || e.OtherFill? }

  /** Only fills disturb a draft. */
  lemma StepUndisturbed(c: LiveConfig, w: World, e: Event)
    requires Undisturbed(w) && !IsFill(e)
    ensures Undisturbed(Step(c, w, e))
  {
    if w.task.Reading? && e.FieldRead? {
      ExitWithinPosition(c, w.task.draft.market, w.s.position);
      hide ExitQuantityMultiplier, ReconciledQuantity;
    } else {
      PositionStays(c, w, e);
      if (w.task.Reading? || w.task.Installing?) && !e.OrderInstalls? && !e.FieldRead? { DraftStays(c, w, e); hide Step; }
      hide ReconciledQuantity, Installs, Drafted, DeathStep, HandleStep, FailStep, DeferredSubmitStep, TimeoutStep, FillStep;
    }
  }

  lemma PositionStays(c: LiveConfig, w: World, e: Event)
    requires !IsFill(e)
    ensures Step(c, w, e).s.position == w.s.position
  {
    hide ReadField, EntryBasis, PendingFor;
    if e.OrderDies? {
      ReportForms(c, w.s, w.LegOf(e.role), DeathReport(c, e.role, e.rejected), e.now);
      hide Reported;
    } else if e.OtherReport? {
      ReportForms(c, w.s, e.leg, e.report, e.now);
      hide Reported;
    } else {
      hide DeathStep, FillStep, DeferredReady, StartsFlatten;
    }
  }

  /** Only the strategy thread itself moves on while it reads a draft or is about to install it. */
  lemma DraftStays(c: LiveConfig, w: World, e: Event)
    requires !e.FieldRead? && !e.OrderInstalls? && (w.task.Reading? || w.task.Installing?)
    ensures Step(c, w, e).task == w.task
  {
    hide Reported, Filled, SecondLegFails, DeferredReady, StartsFlatten, DeathReport, MayFill;
  }

  /** An undisturbed draft is installed as a fresh order. */
  lemma UndisturbedIsFresh(w: World, e: Event)
    requires Undisturbed(w)
    ensures !InstallsStale(w, e)
  {
  }

  /** Whatever signal the strategy acts on: if nothing fills between the start of placing and the
      installation, the order is fresh. */
  lemma {:induction false} QuietPlacingIsFresh(c: LiveConfig, w: World, events: seq<Event>, e: Event)
    requires SettledQuantity(w.s) && w.task.Idle?
    requires forall f :: f in events ==> !IsFill(f)
    ensures Undisturbed(Run(c, w, events)) && !InstallsStale(Run(c, w, events), e)
    decreases |events|
  {
    if events != [] {
      QuietPlacingIsFresh(c, w, events[..|events| - 1], e);
      hide Undisturbed, Step, InstallsStale;
      StepUndisturbed(c, Run(c, w, events[..|events| - 1]), events[|events| - 1]);
    }
    hide Run;
    UndisturbedIsFresh(Run(c, w, events), e);
  }

  /** An entry is stale exactly when a leg has moved since its units were read. */
  lemma EntryStaleIff(w: World, e: Event)
    requires Installs(w, e) && w.task.draft.signal != Exit
    ensures InstallsStale(w, e) <==>
      w.task.draft.stockUnits != w.s.position.stockUnits || w.task.draft.futureUnits != w.s.position.futureUnits
  {
  }

  /** The units an exit of q pairs needs to have read as `read` to be fresh. */
  function ExitBase(direction: Signal, read: int, q: int): int {
    if direction == EnterLong then MaxInt(read, q) else MinInt(read, -q)
  }

  /** An exit, which stops at flat, is stale exactly when a leg is not where it was read, or smaller than
      the quantity when read. */
  lemma ExitStaleIff(w: World, e: Event)
    requires Installs(w, e) && w.task.draft.signal == Exit
    ensures
      var d := w.task.draft;
      InstallsStale(w, e) <==>
        || ExitBase(d.direction, d.stockUnits, d.q) != w.s.position.stockUnits
        || ExitBase(d.direction, d.futureUnits, d.q) != w.s.position.futureUnits
  {
  }

  // ---------------------------------------------------------------- disabled entries

  /** The strategy thread is not in the middle of placing an entry. */
  predicate EntryFree(w: World) {
    match w.task
    case Reading(d, _) => d.signal == Exit
    case Installing(d) => d.signal == Exit
    case _ => true
  }

  /** Once entries are disabled they stay so, and what is installed is an entry exactly when one was
      being placed. */
  lemma DisabledForGood(c: LiveConfig, w: World, e: Event)
    requires w.s.entriesDisabled
    ensures Step(c, w, e).s.entriesDisabled
    ensures EntryFree(w) ==> EntryFree(Step(c, w, e))
    ensures Installs(w, e) ==> (Drafted(w).value.signal == Exit <==> EntryFree(w))
  {
    hide ExitQuantityMultiplier, EntryBasis, Reported, Filled, DeferredReady;
    if IsFill(e) {
      DisabledThroughFill(c, w, e);
      hide Step;
    } else if e.OrderDies? || e.OtherReport? {
      DisabledThroughReport(c, w, e);
      hide Step;
    }
  }

  lemma DisabledThroughReport(c: LiveConfig, w: World, e: Event)
    requires w.s.entriesDisabled && (e.OrderDies? || e.OtherReport?)
    ensures Step(c, w, e).s.entriesDisabled && Step(c, w, e).task == w.task
  {
    if e.OrderDies? {
      ReportForms(c, w.s, w.LegOf(e.role), DeathReport(c, e.role, e.rejected), e.now);
    } else {
      ReportForms(c, w.s, e.leg, e.report, e.now);
    }
    hide Reported, DeathReport, StartsFlatten;
  }

  lemma DisabledThroughFill(c: LiveConfig, w: World, e: Event)
    requires IsFill(e)
    ensures Step(c, w, e).s.entriesDisabled == w.s.entriesDisabled && Step(c, w, e).task == w.task
  {
    if e.OtherFill? && e.units > 0 {
      FilledUnits(w.s, e.leg, e.side, e.units, e.price, e.now);
    } else if e.OrderFills? && w.order.quantityMultiplier > 0 {
      FilledUnits(w.s, w.LegOf(e.role), w.SideOf(e.role), w.order.quantityMultiplier, e.price, e.now);
    }
    hide Filled;
  }

  // ---------------------------------------------------------------- after a flatten

  /** The flatten's fill restores both legs of a fresh order. */
  lemma FlattenRestores(c: LiveConfig, w: World, price: real, now: real)
    requires Good(w) && Fresh(w) && MayFill(w, FlattenRole)
    ensures
      var t := Step(c, w, OrderFills(FlattenRole, price, now));
      && t.s.position.stockUnits == t.s.position.futureUnits == w.stockBase
      && t.s.pending == if w.stockBase == 0 then None else w.s.pending
  {
    FreshUnits(w);
    ChangeOf(w.order, w.firstLeg);
    FilledUnits(w.s, w.firstLeg, w.SideOf(FlattenRole), w.order.quantityMultiplier, price, now);
    hide Filled, Change, SignedUnits, SettledQuantity, Explained;
  }

  /** The first leg was flattened back to a held position, the order is still pending, and the strategy
      thread is not about to release it. */
  predicate Stuck(w: World) {
    && Good(w) && Fresh(w) && w.Pending()
    && w.s.pending.value.secondLegFailureHandled
    && w.first.Complete? && w.flatten.Complete? && !w.task.ReleasingFirst?
    && w.stockBase != 0
  }

  /** The flatten's fill releases the order exactly when the pair was flat before the order, and
      otherwise leaves it stuck. */
  lemma FlattenReleasesIffWasFlat(c: LiveConfig, w: World, price: real, now: real)
    requires Good(w) && Fresh(w) && MayFill(w, FlattenRole)
    ensures
      var t := Step(c, w, OrderFills(FlattenRole, price, now));
      && (t.s.pending.None? <==> w.stockBase == 0)
      && (w.stockBase != 0 && !w.task.ReleasingFirst? ==> Stuck(t))
  {
    var e := OrderFills(FlattenRole, price, now);
    FlattenRestores(c, w, price, now);
    FreshAbandonsIff(c, w, e);
    StepStaysGood(c, w, e);
    StepStaysFresh(c, w, e);
    hide Good, Fresh, Abandons, InstallsStale;
    FlattenStates(c, w, price, now);
    hide Step;
  }

  lemma FlattenStates(c: LiveConfig, w: World, price: real, now: real)
    requires Good(w) && Fresh(w) && MayFill(w, FlattenRole)
    ensures w.s.pending.value.secondLegFailureHandled && w.first.Complete?
    ensures
      var t := Step(c, w, OrderFills(FlattenRole, price, now));
      t.order == w.order && t.first == w.first && t.flatten.Complete? && t.task == w.task && t.stockBase == w.stockBase
  {
    hide Filled, SettledQuantity, Explained;
  }

  /** The flattened order, its position and its states stay. */
  predicate StillFlattened(w: World, t: World) {
    && t.order == w.order && t.s.position == w.s.position && t.Pending() && t.stockBase == w.stockBase
    && t.s.pending.value.secondLegFailureHandled && t.first.Complete? && t.flatten.Complete? && !t.task.ReleasingFirst?
  }

  lemma StuckThroughCallbacks(c: LiveConfig, w: World, leg: Leg)
    requires Stuck(w)
    ensures StillFlattened(w, Step(c, w, FillHandled(leg)))
  {
    hide SettledQuantity, Explained, FreshOrder, SoundOrder, SoundTask;
  }

  lemma StuckThroughSubmissions(c: LiveConfig, w: World, e: Event)
    requires Stuck(w) && (e.DeferredSubmitted? || e.FlattenSubmitted?)
    ensures StillFlattened(w, Step(c, w, e))
  {
    hide SettledQuantity, Explained, FreshOrder, SoundOrder, SoundTask;
  }

  lemma StuckThroughFailures(c: LiveConfig, w: World, e: Event)
    requires Stuck(w) && (e.DeferredBasisFails? || e.OrderDies? || e.OrderFills?)
    ensures StillFlattened(w, Step(c, w, e))
  {
    hide SettledQuantity, Explained, FreshOrder, SoundOrder, SoundTask, FillStep;
  }

  lemma StuckThroughTimeouts(c: LiveConfig, w: World, e: Event)
    requires Stuck(w) && (e.TimeoutFound? || e.TimeoutRoleRead? || e.TimeoutActs?)
    ensures StillFlattened(w, Step(c, w, e))
  {
    hide SettledQuantity, Explained, FreshOrder, SoundOrder;
  }

  lemma StuckThroughPlacing(c: LiveConfig, w: World, e: Event)
    requires Stuck(w)
    requires e.PlaceBegins? || e.FieldRead? || e.OrderInstalls? || e.BasisIsKept? || e.FirstIsNamed? || e.FirstSubmitted? || e.FirstMarked?
    ensures StillFlattened(w, Step(c, w, e))
  {
    hide ReadField, EntryBasis, PendingFor, SettledQuantity, Explained, FreshOrder, SoundOrder;
  }

  lemma StuckUntouched(c: LiveConfig, w: World, e: Event)
    requires Stuck(w) && e.Own()
    ensures !AbandonsFresh(c, w, e) && !InstallsStale(w, e) && StillFlattened(w, Step(c, w, e))
  {
    hide Good, Fresh, Step, StillFlattened;
    if e.FillHandled? {
      StuckThroughCallbacks(c, w, e.leg);
    } else if e.DeferredSubmitted? || e.FlattenSubmitted? {
      StuckThroughSubmissions(c, w, e);
    } else if e.DeferredBasisFails? || e.OrderDies? || e.OrderFills? {
      StuckThroughFailures(c, w, e);
    } else if e.TimeoutFound? || e.TimeoutRoleRead? || e.TimeoutActs? {
      StuckThroughTimeouts(c, w, e);
    } else {
      StuckThroughPlacing(c, w, e);
    }
  }

  lemma StuckStays(c: LiveConfig, w: World, e: Event)
    requires Stuck(w) && e.Own()
    ensures
      var t := Step(c, w, e);
      Stuck(t) && t.order == w.order && t.s.position == w.s.position
  {
    StuckUntouched(c, w, e);
    FreshAbandonsIff(c, w, e);
    StepStaysGood(c, w, e);
    GoodIsSound(w);
    StepStaysFresh(c, w, e);
    hide Good, Fresh, Step, Abandons, AbandonsFresh, InstallsStale;
  }

  /** Then it stays pending through any further events of its own orders and of the strategy: neither
      entries nor exits of the pair are ever submitted again. */
  lemma {:induction false} StuckForever(c: LiveConfig, w: World, events: seq<Event>)
    requires Stuck(w) && OwnEvents(events)
    ensures
      var t := Run(c, w, events);
      t.s.pending.Some? && t.s.pending.value.id == w.order.id && t.order == w.order && t.s.position == w.s.position
    ensures Stuck(Run(c, w, events))
    decreases |events|
  {
    if events != [] {
      StuckForever(c, w, events[..|events| - 1]);
      StuckStays(c, Run(c, w, events[..|events| - 1]), events[|events| - 1]);
      hide Step, Good, Fresh;
    }
  }
}
