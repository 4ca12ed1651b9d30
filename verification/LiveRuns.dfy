/** Runs of the live protocol that leave the legs unequal, or the pair stuck. */
module LiveRuns {
  import opened Wrappers
  import opened Models
  import opened LiveOrders
  import opened LiveProtocol
  import opened FreshOrders

  // ---------------------------------------------------------------- runs that unbalance the legs

  lemma {:induction false} RunConcat(c: LiveConfig, w: World, events: seq<Event>, more: seq<Event>)
    ensures Run(c, w, events + more) == Run(c, Run(c, w, events), more)
    decreases |more|
  {
    hide Step;
    if more == [] {
      assert events + more == events;
    } else {
      assert (events + more)[..|events + more| - 1] == events + more[..|more| - 1];
      RunConcat(c, w, events, more[..|more| - 1]);
    }
  }

  lemma RunOfOne(c: LiveConfig, w: World, e: Event)
    ensures Run(c, w, [e]) == Step(c, w, e)
  {
    assert [e][..|[e]| - 1] == [];
  }

  lemma RunOfTwo(c: LiveConfig, w: World, e: Event, f: Event)
    ensures Run(c, w, [e, f]) == Step(c, Step(c, w, e), f)
  {
    RunConcat(c, w, [e], [f]);
    RunOfOne(c, w, e);
    RunOfOne(c, Step(c, w, e), f);
    assert [e] + [f] == [e, f];
  }

  lemma RunOfThree(c: LiveConfig, w: World, e: Event, f: Event, g: Event)
    ensures Run(c, w, [e, f, g]) == Step(c, Step(c, Step(c, w, e), f), g)
  {
    RunConcat(c, w, [e, f], [g]);
    RunOfTwo(c, w, e, f);
    RunOfOne(c, Step(c, Step(c, w, e), f), g);
    assert [e, f] + [g] == [e, f, g];
  }

  /** A provider over a matched position with nothing pending; `order` is any earlier order. */
  function Start(position: PairPosition, order: PendingPairOrder): World {
    World(Live(position, None, None, false, false, None), order, Stock, 0, 0, Unsent, Unsent, Unsent, Unsent, Idle,
          multiset{}, 0, 0, 0)
  }

  lemma StartIsGood(position: PairPosition, order: PendingPairOrder)
    requires ValidPosition(position)
    ensures Good(Start(position, order)) && Fresh(Start(position, order))
  {
  }

  /** A long position of n pairs, flat for none. */
  function Holding(n: nat): PairPosition {
    if n == 0 then FLAT else PairPosition(n, EnterLong, Some(0.0), Some(1.0), Some(1.0), n, n, None)
  }

  /** A long entry of one pair, its stock leg first, from the units read. */
  function EntryDraft(market: PairMarket, position: PairPosition): Draft {
    Draft(EnterLong, market, Stock, 1, position.direction, position.stockUnits, position.futureUnits)
  }

  function EntryOrder(id: nat, stock: int, future: int): PendingPairOrder {
    PendingPairOrder(id, EnterLong, stock + 1, future + 1, Buy, Sell, 1, None, false, false, false, false)
  }

  function DraftEvents(market: PairMarket, now: real): seq<Event> {
    [PlaceBegins(EnterLong, market, false, now), FieldRead, FieldRead] + [FieldRead, FieldRead]
  }

  function InstallEvents(): seq<Event> { [OrderInstalls, BasisIsKept, FirstIsNamed] + [FirstSubmitted(true)] }

  function EntryEvents(market: PairMarket, now: real): seq<Event> {
    DraftEvents(market, now) + InstallEvents() + [FirstMarked]
  }

  lemma DraftIsRead(c: LiveConfig, w: World, market: PairMarket, now: real)
    requires w.task.Idle? && !EntryBlocked(w.s, now)
    ensures Run(c, w, DraftEvents(market, now)) == w.(task := Installing(EntryDraft(market, w.s.position)))
  {
    var begin := PlaceBegins(EnterLong, market, false, now);
    RunConcat(c, w, [begin, FieldRead, FieldRead], [FieldRead, FieldRead]);
    RunOfThree(c, w, begin, FieldRead, FieldRead);
    RunOfTwo(c, Run(c, w, [begin, FieldRead, FieldRead]), FieldRead, FieldRead);
    hide Run;
  }

  /** The entry order of the draft is pending and its stock leg is at the broker, not marked yet. */
  predicate FirstAccepted(t: World, w: World, d: Draft) {
    && t.order == EntryOrder(w.order.id + 1, d.stockUnits, d.futureUnits) && t.firstLeg == Stock
    && t.first.Working? && t.again.Unsent? && t.second.Unsent? && t.flatten.Unsent?
    && t.s.pending == Some(t.order.(firstLeg := Some(Stock)))
    && t.s.position == w.s.position && t.task.MarkingFirst? && t.handling == w.handling
    && t.stockBase == w.s.position.stockUnits && t.futureBase == w.s.position.futureUnits
    && t.s.entriesDisabled == w.s.entriesDisabled && t.s.entriesLocked == w.s.entriesLocked
    && t.s.cooldownUntil == w.s.cooldownUntil
  }

  lemma EntryIsInstalled(c: LiveConfig, w: World, d: Draft)
    requires w.task == Installing(d) && w.s.pending.None? && d.signal == EnterLong && d.q == 1 && d.firstLeg == Stock
    ensures FirstAccepted(Run(c, w, InstallEvents()), w, d)
  {
    RunConcat(c, w, [OrderInstalls, BasisIsKept, FirstIsNamed], [FirstSubmitted(true)]);
    RunOfThree(c, w, OrderInstalls, BasisIsKept, FirstIsNamed);
    RunOfOne(c, Run(c, w, [OrderInstalls, BasisIsKept, FirstIsNamed]), FirstSubmitted(true));
    hide Run, EntryBasis;
  }

  /** The same with the stock leg marked as sent. */
  predicate FirstWorking(t: World, n: nat) {
    && t.first.Working? && t.again.Unsent? && t.second.Unsent? && t.flatten.Unsent? && t.firstLeg == Stock
    && t.order == EntryOrder(t.order.id, n, n)
    && t.s.pending == Some(t.order.(firstLeg := Some(Stock), stockOrderSent := true))
    && t.s.position == Holding(n) && t.handling == multiset{} && t.stockBase == t.futureBase == n
    && !t.s.entriesDisabled && t.s.cooldownUntil.None?
  }

  lemma EntryIsWorking(c: LiveConfig, market: PairMarket, order: PendingPairOrder, now: real, n: nat)
    ensures
      var t := Run(c, Start(Holding(n), order), EntryEvents(market, now));
      FirstWorking(t, n) && t.task.Idle? && !t.s.entriesLocked
  {
    var w := Start(Holding(n), order);
    DraftIsRead(c, w, market, now);
    var w1 := Run(c, w, DraftEvents(market, now));
    EntryIsInstalled(c, w1, w1.task.draft);
    RunConcat(c, w, DraftEvents(market, now), InstallEvents());
    RunConcat(c, w, DraftEvents(market, now) + InstallEvents(), [FirstMarked]);
    RunOfOne(c, Run(c, w1, InstallEvents()), FirstMarked);
    hide Run, DraftEvents, InstallEvents;
  }

  /** The same entry with its stock leg filled and its second leg being submitted. */
  predicate SubmittingSecond(t: World, n: nat) {
    && t.Pending() && t.first.Complete? && t.again.Unsent? && t.second.Submitting? && t.flatten.Unsent? && t.firstLeg == Stock
    && t.order == EntryOrder(t.order.id, n, n)
    && t.s.pending == Some(t.order.(firstLeg := Some(Stock), stockOrderSent := true, futureOrderSent := true))
    && !t.s.entriesDisabled && t.s.cooldownUntil.None? && t.handling == multiset{}
    && t.s.position.stockUnits == n + 1 && t.s.position.futureUnits == n && t.stockBase == t.futureBase == n
  }

  function FirstFill(now: real): seq<Event> { [OrderFills(FirstRole, 1.0, now), FillHandled(Stock)] }

  lemma FillStartsSecond(c: LiveConfig, w: World, now: real, n: nat)
    requires FirstWorking(w, n)
    ensures
      var t := Run(c, w, FirstFill(now));
      SubmittingSecond(t, n) && t.task == w.task && t.s.entriesLocked == w.s.entriesLocked && t.order == w.order
  {
    RunOfTwo(c, w, OrderFills(FirstRole, 1.0, now), FillHandled(Stock));
    hide Run, Filled, SettledQuantity;
    FirstFillLands(c, w, now, n);
    hide Step, FirstWorking;
    var s := Filled(w.s, Stock, Buy, 1, 1.0, now);
    SecondIsStarted(c, w.(first := Complete, s := s, handling := multiset{Stock}), n);
  }

  lemma FirstFillLands(c: LiveConfig, w: World, now: real, n: nat)
    requires FirstWorking(w, n)
    ensures
      var s := Filled(w.s, Stock, Buy, 1, 1.0, now);
      && Step(c, w, OrderFills(FirstRole, 1.0, now)) == w.(first := Complete, s := s, handling := multiset{Stock})
      && s.position.stockUnits == n + 1 && s.position.futureUnits == n && s.pending == w.s.pending
      && !s.entriesDisabled && s.entriesLocked == w.s.entriesLocked && s.cooldownUntil.None?
      && w.again.Unsent? && w.flatten.Unsent? && w.firstLeg == Stock && w.order == EntryOrder(w.order.id, n, n)
      && w.s.pending == Some(w.order.(firstLeg := Some(Stock), stockOrderSent := true)) && w.stockBase == w.futureBase == n
  {
    FilledUnits(w.s, Stock, Buy, 1, 1.0, now);
    FillKeepsEntries(w.s, Stock, Buy, 1, 1.0, now);
    hide Filled, SettledQuantity;
  }

  lemma SecondIsStarted(c: LiveConfig, w: World, n: nat)
    requires w.first.Complete? && w.again.Unsent? && w.flatten.Unsent? && w.firstLeg == Stock && w.handling == multiset{Stock}
    requires w.order == EntryOrder(w.order.id, n, n) && w.stockBase == w.futureBase == n
    requires w.s.pending == Some(w.order.(firstLeg := Some(Stock), stockOrderSent := true))
    requires w.s.position.stockUnits == n + 1 && w.s.position.futureUnits == n
    requires !w.s.entriesDisabled && w.s.cooldownUntil.None?
    ensures
      var t := Step(c, w, FillHandled(Stock));
      SubmittingSecond(t, n) && t.task == w.task && t.s.entriesLocked == w.s.entriesLocked && t.order == w.order
  {
    assert w.handling - multiset{Stock} == multiset{};
  }

  lemma FillKeepsEntries(s: Live, leg: Leg, side: Side, units: int, price: real, now: real)
    requires units > 0
    ensures
      var t := Filled(s, leg, side, units, price, now);
      t.entriesDisabled == s.entriesDisabled && t.entriesLocked == s.entriesLocked && t.cooldownUntil == s.cooldownUntil
  {
  }

  /** An entry from n pairs up to the submission of its second leg. */
  function HalfEntry(market: PairMarket, now: real): seq<Event> { EntryEvents(market, now) + FirstFill(now) }

  lemma HalfEntryRuns(c: LiveConfig, market: PairMarket, order: PendingPairOrder, now: real, n: nat)
    ensures
      var t := Run(c, Start(Holding(n), order), HalfEntry(market, now));
      SubmittingSecond(t, n) && t.task.Idle? && !t.s.entriesLocked
  {
    hide Run, EntryEvents, FirstFill, FirstWorking, SubmittingSecond;
    var w := Start(Holding(n), order);
    EntryIsWorking(c, market, order, now, n);
    FillStartsSecond(c, Run(c, w, EntryEvents(market, now)), now, n);
    RunConcat(c, w, EntryEvents(market, now), FirstFill(now));
  }

  /** The property fails: the second submission raises, its mark comes off, and the timeout then takes
      the order for one whose first leg never filled. */
  lemma FailedSubmissionThenTimeoutUnbalances(c: LiveConfig, market: PairMarket, order: PendingPairOrder, now: real)
    requires c.fokOrderTimeoutSec > 0.0
    ensures
      var events := HalfEntry(market, now) + [DeferredSubmitted(SecondRole, false), TimeoutFound] + [TimeoutRoleRead, TimeoutActs(now)];
      !BalancedAtRest(Run(c, Start(FLAT, order), events))
  {
    hide Run, HalfEntry;
    var w, half := Start(FLAT, order), HalfEntry(market, now);
    var fail, act := [DeferredSubmitted(SecondRole, false), TimeoutFound], [TimeoutRoleRead, TimeoutActs(now)];
    HalfEntryRuns(c, market, order, now, 0);
    RunConcat(c, w, half, fail);
    RunConcat(c, w, half + fail, act);
    var w2, w3 := Run(c, w, half), Run(c, w, half + fail);
    RunOfTwo(c, w2, fail[0], fail[1]);
    RunOfTwo(c, w3, act[0], act[1]);
    assert w3.task.TimingOut? && w3.Pending() && !w3.s.pending.value.Sent(Future) && w3.s.position == w2.s.position;
  }

  /** It fails when the first leg fills, and its second leg starts, between the timeout's reading of the
      leg role and its release of the order. */
  lemma FillDuringTimeoutUnbalances(c: LiveConfig, market: PairMarket, order: PendingPairOrder, now: real)
    requires c.fokOrderTimeoutSec > 0.0
    ensures
      var events := EntryEvents(market, now) + [TimeoutFound, TimeoutRoleRead] + FirstFill(now) + [TimeoutActs(now)];
      !BalancedAtRest(Run(c, Start(FLAT, order), events))
  {
    hide Run, EntryEvents, FirstFill;
    var w, entry, read := Start(FLAT, order), EntryEvents(market, now), [TimeoutFound, TimeoutRoleRead];
    EntryIsWorking(c, market, order, now, 0);
    RunConcat(c, w, entry, read);
    RunConcat(c, w, entry + read, FirstFill(now));
    RunConcat(c, w, entry + read + FirstFill(now), [TimeoutActs(now)]);
    var w1, w2 := Run(c, w, entry), Run(c, w, entry + read);
    RunOfTwo(c, w1, TimeoutFound, TimeoutRoleRead);
    assert w2 == w1.(s := w1.s.(entriesLocked := true), task := ReleasingFirst);
    FillStartsSecond(c, w2, now, 0);
    RunOfOne(c, Run(c, w2, FirstFill(now)), TimeoutActs(now));
  }

  /** An entry that was being placed is installed even though entries were disabled meanwhile. */
  lemma DisabledWhileReading(c: LiveConfig, market: PairMarket, order: PendingPairOrder, now: real)
    ensures
      var t := Run(c, Start(FLAT, order), DraftEvents(market, now) + [OtherDisable] + InstallEvents());
      t.s.entriesDisabled && t.first.Working? && t.s.pending.Some? && t.s.pending.value.signal == EnterLong
  {
    hide Run, DraftEvents, InstallEvents;
    var w, read := Start(FLAT, order), DraftEvents(market, now);
    DraftIsRead(c, w, market, now);
    RunConcat(c, w, read, [OtherDisable]);
    RunConcat(c, w, read + [OtherDisable], InstallEvents());
    RunOfOne(c, Run(c, w, read), OtherDisable);
    var w1 := Run(c, w, read + [OtherDisable]);
    EntryIsInstalled(c, w1, w1.task.draft);
  }

  /** It fails when an order fills after a timeout released it. */
  lemma LateFillUnbalances(c: LiveConfig, market: PairMarket, order: PendingPairOrder, now: real)
    requires c.fokOrderTimeoutSec > 0.0
    ensures
      var events := EntryEvents(market, now) + [TimeoutFound, TimeoutRoleRead]
                    + [TimeoutActs(now), OtherFill(Stock, Buy, 1, 1.0, now)];
      !BalancedAtRest(Run(c, Start(FLAT, order), events))
  {
    hide Run, EntryEvents;
    var w, entry, read := Start(FLAT, order), EntryEvents(market, now), [TimeoutFound, TimeoutRoleRead];
    var late := [TimeoutActs(now), OtherFill(Stock, Buy, 1, 1.0, now)];
    EntryIsWorking(c, market, order, now, 0);
    RunConcat(c, w, entry, read);
    RunConcat(c, w, entry + read, late);
    var w1, w2 := Run(c, w, entry), Run(c, w, entry + read);
    RunOfTwo(c, w1, TimeoutFound, TimeoutRoleRead);
    RunOfTwo(c, w2, late[0], late[1]);
    var w3 := Step(c, w2, TimeoutActs(now));
    assert w2 == w1.(s := w1.s.(entriesLocked := true), task := ReleasingFirst);
    assert w3.s.pending.None? && w3.s.position == FLAT;
    StepBalancedIff(c, w3, late[1]);
  }

  // ---------------------------------------------------------------- stale targets

  /** An entry on top of one pair whose second leg is working, and a second entry read meanwhile. */
  function StaleDraftEvents(market: PairMarket, now: real): seq<Event> {
    HalfEntry(market, now) + [DeferredSubmitted(SecondRole, true)] + DraftEvents(market, now) + [OrderFills(SecondRole, 1.0, now)]
  }

  /** The first entry is through; the draft of the second was read in the middle of it. */
  predicate StaleDraft(t: World, market: PairMarket) {
    && t.task.Installing? && t.task.draft.signal == EnterLong && t.task.draft.q == 1 && t.task.draft.firstLeg == Stock
    && t.task.draft.stockUnits == 2 && t.task.draft.futureUnits == 1
    && t.s.pending.None? && t.s.position.stockUnits == 2 && t.s.position.futureUnits == 2
    && t.handling == multiset{Future} && !t.s.entriesDisabled
  }

  lemma StaleDraftRuns(c: LiveConfig, market: PairMarket, order: PendingPairOrder, now: real)
    ensures StaleDraft(Run(c, Start(Holding(1), order), StaleDraftEvents(market, now)), market)
  {
    hide Run, HalfEntry, DraftEvents;
    var w, half, sent, read := Start(Holding(1), order), HalfEntry(market, now), [DeferredSubmitted(SecondRole, true)], DraftEvents(market, now);
    HalfEntryRuns(c, market, order, now, 1);
    RunConcat(c, w, half, sent);
    RunConcat(c, w, half + sent, read);
    RunConcat(c, w, half + sent + read, [OrderFills(SecondRole, 1.0, now)]);
    var w1, w2, w3 := Run(c, w, half), Run(c, w, half + sent), Run(c, w, half + sent + read);
    RunOfOne(c, w1, sent[0]);
    DraftIsRead(c, w2, market, now);
    RunOfOne(c, w3, OrderFills(SecondRole, 1.0, now));
    SecondFillReleases(c, w3, now);
    hide Step, SubmittingSecond, EntryBlocked;
  }

  lemma SecondFillReleases(c: LiveConfig, w: World, now: real)
    requires w.Pending() && w.second.Working? && w.firstLeg == Stock && w.order == EntryOrder(w.order.id, 1, 1)
    requires w.s.pending == Some(w.order.(firstLeg := Some(Stock), stockOrderSent := true, futureOrderSent := true))
    requires w.s.position.stockUnits == 2 && w.s.position.futureUnits == 1
    ensures
      var t := Step(c, w, OrderFills(SecondRole, 1.0, now));
      && t.s.pending.None? && t.s.position.stockUnits == 2 && t.s.position.futureUnits == 2
      && t.s.entriesDisabled == w.s.entriesDisabled && t.task == w.task && t.handling == w.handling + multiset{Future}
  {
    FilledUnits(w.s, Future, Sell, 1, 1.0, now);
    hide Filled, SettledQuantity;
  }

  /** It fails when an order is installed with targets read before the previous order's last fill: the
      second leg's target already equals its units, so the first fill alone releases the order. */
  lemma StaleTargetsUnbalance(c: LiveConfig, market: PairMarket, order: PendingPairOrder, now: real)
    ensures
      var events := StaleDraftEvents(market, now) + InstallEvents() + [FirstMarked, OrderFills(FirstRole, 1.0, now)];
      var t := Run(c, Start(Holding(1), order), events);
      && !BalancedAtRest(t) && !t.s.entriesDisabled
      && t.s.position.stockUnits == 3 && t.s.position.futureUnits == 2
  {
    hide Run, StaleDraftEvents, InstallEvents;
    var w, stale, last := Start(Holding(1), order), StaleDraftEvents(market, now), [FirstMarked, OrderFills(FirstRole, 1.0, now)];
    StaleDraftRuns(c, market, order, now);
    RunConcat(c, w, stale, InstallEvents());
    RunConcat(c, w, stale + InstallEvents(), last);
    var w1, w2 := Run(c, w, stale), Run(c, w, stale + InstallEvents());
    EntryIsInstalled(c, w1, w1.task.draft);
    RunOfTwo(c, w2, last[0], last[1]);
    var w3 := Step(c, w2, FirstMarked);
    assert w3.s == w2.s.(pending := Some(w2.s.pending.value.(stockOrderSent := true)));
    FilledUnits(w3.s, Stock, Buy, 1, 1.0, now);
    hide Filled, SettledQuantity;
  }

  /** The callback of the previous order's last fill finds that target met and submits the first leg a
      second time: two orders for the same leg of one pair order are at the broker. */
  lemma LateCallbackRepeatsFirstLeg(c: LiveConfig, market: PairMarket, order: PendingPairOrder, now: real)
    ensures
      var events := StaleDraftEvents(market, now) + InstallEvents() + [FillHandled(Future), DeferredSubmitted(AgainRole, true)];
      var t := Run(c, Start(Holding(1), order), events);
      t.Pending() && t.first.Working? && t.again.Working? && t.LegOf(FirstRole) == t.LegOf(AgainRole)
  {
    hide Run, StaleDraftEvents, InstallEvents;
    var w, stale, last := Start(Holding(1), order), StaleDraftEvents(market, now), [FillHandled(Future), DeferredSubmitted(AgainRole, true)];
    StaleDraftRuns(c, market, order, now);
    RunConcat(c, w, stale, InstallEvents());
    RunConcat(c, w, stale + InstallEvents(), last);
    var w1, w2 := Run(c, w, stale), Run(c, w, stale + InstallEvents());
    EntryIsInstalled(c, w1, w1.task.draft);
    RunOfTwo(c, w2, last[0], last[1]);
    assert DeferredReady(w2.s, Future) && Future in w2.handling;
  }

  // ---------------------------------------------------------------- runs that flatten

  /** A dead FOK second leg, and the flatten of the first leg at the broker. */
  predicate Flattening(t: World, n: nat) {
    && t.Pending() && t.first.Complete? && t.again.Unsent? && t.second.Dead? && t.flatten.Working?
    && t.task.Idle? && t.firstLeg == Stock && t.stockBase == t.futureBase == n
    && t.order == EntryOrder(t.order.id, n, n)
    && t.s.pending == Some(t.order.(firstLeg := Some(Stock),
         stockOrderSent := true, futureOrderSent := true, secondLegFailureHandled := true, flattenOrderSent := true))
    && !t.s.entriesDisabled && t.s.position.stockUnits == n + 1 && t.s.position.futureUnits == n
  }

  function DeadSecond(now: real): seq<Event> {
    [DeferredSubmitted(SecondRole, true), OrderDies(SecondRole, false, now), FlattenSubmitted(true)]
  }

  function FlattenEvents(market: PairMarket, now: real): seq<Event> { HalfEntry(market, now) + DeadSecond(now) }

  lemma DeadSecondLegFlattens(c: LiveConfig, market: PairMarket, order: PendingPairOrder, now: real, n: nat)
    requires c.flattenOnSecondLegFailure && c.pair.secondLegTif.Fok?
    ensures Flattening(Run(c, Start(Holding(n), order), FlattenEvents(market, now)), n)
  {
    var w := Start(Holding(n), order);
    HalfEntryRuns(c, market, order, now, n);
    RunConcat(c, w, HalfEntry(market, now), DeadSecond(now));
    var w2 := Run(c, w, HalfEntry(market, now));
    var dead := DeadSecond(now);
    RunOfThree(c, w2, dead[0], dead[1], dead[2]);
    hide Run, Step, SubmittingSecond, Flattening, HalfEntry;
    SecondDies(c, w2, now, n);
  }

  lemma SecondDies(c: LiveConfig, w: World, now: real, n: nat)
    requires c.flattenOnSecondLegFailure && c.pair.secondLegTif.Fok? && SubmittingSecond(w, n) && w.task.Idle?
    ensures
      var dead := DeadSecond(now);
      Flattening(Step(c, Step(c, Step(c, w, dead[0]), dead[1]), dead[2]), n)
  {
    var w1 := Step(c, w, DeferredSubmitted(SecondRole, true));
    assert w1.second.Working? && w1.s == w.s && w1.order == w.order;
    var w2 := Step(c, w1, OrderDies(SecondRole, false, now));
    assert w2.flatten.Submitting? && w2.second.Dead? && w2.s.position == w.s.position;
  }

  /** It fails again when a FOK flatten order does not fill: its report releases the order. */
  lemma UnfilledFokFlattenUnbalances(c: LiveConfig, market: PairMarket, order: PendingPairOrder, now: real)
    requires c.flattenOnSecondLegFailure && c.pair.secondLegTif.Fok? && c.pair.flattenFirstLegTif.Fok?
    ensures
      var t := Run(c, Start(FLAT, order), FlattenEvents(market, now) + [OrderDies(FlattenRole, false, now)]);
      !BalancedAtRest(t) && !t.s.entriesDisabled
  {
    DeadSecondLegFlattens(c, market, order, now, 0);
    var w := Run(c, Start(FLAT, order), FlattenEvents(market, now));
    RunConcat(c, Start(FLAT, order), FlattenEvents(market, now), [OrderDies(FlattenRole, false, now)]);
    RunOfOne(c, w, OrderDies(FlattenRole, false, now));
    hide Run, FlattenEvents;
  }

  lemma FlatteningIsGood(t: World, n: nat)
    requires Flattening(t, n) && Marked(t)
    ensures Good(t) && Fresh(t) && MayFill(t, FlattenRole)
  {
    assert Change(t.order) == 1;
    MovedOneMore(t.order, 0);
    hide Marked, Moved;
  }

  /** A run from a held pair that gets stuck: an entry on top of it whose FOK second leg does not fill. */
  lemma FlattenOfHeldPairSticks(c: LiveConfig, market: PairMarket, order: PendingPairOrder, now: real)
    requires c.flattenOnSecondLegFailure && c.pair.secondLegTif.Fok?
    ensures Stuck(Run(c, Start(Holding(1), order), FlattenEvents(market, now) + [OrderFills(FlattenRole, 1.0, now)]))
  {
    var events, w := FlattenEvents(market, now), Start(Holding(1), order);
    DeadSecondLegFlattens(c, market, order, now, 1);
    StartIsGood(Holding(1), order);
    RunStaysMarked(c, w, events);
    RunConcat(c, w, events, [OrderFills(FlattenRole, 1.0, now)]);
    var t := Run(c, w, events);
    RunOfOne(c, t, OrderFills(FlattenRole, 1.0, now));
    FlatteningIsGood(t, 1);
    hide Run, FlattenEvents, Step;
    FlattenReleasesIffWasFlat(c, t, 1.0, now);
  }
}
