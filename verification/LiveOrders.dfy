/** The live two-leg order protocol of one pair: every lock-protected step of the handlers, as a
    function of the pair's state and as the method that updates it. */
module LiveOrders {
  import opened Wrappers
  import opened Models
  import opened Strategy

  /** A pending pair order; `id` is its identity as an object. Its first leg is named after it is
      installed. */
  datatype PendingPairOrder = PendingPairOrder(
    id: nat,
    signal: Signal,
    targetStockUnits: int,
    targetFutureUnits: int,
    stockSide: Side,
    futureSide: Side,
    quantityMultiplier: int,
    firstLeg: Option<Leg>,
    stockOrderSent: bool,
    futureOrderSent: bool,
    secondLegFailureHandled: bool,
    flattenOrderSent: bool)
  {
    function Target(leg: Leg): int { if leg.Stock? then targetStockUnits else targetFutureUnits }

    function SideOf(leg: Leg): Side { if leg.Stock? then stockSide else futureSide }

    predicate Sent(leg: Leg) { if leg.Stock? then stockOrderSent else futureOrderSent }

    function WithSent(leg: Leg, sent: bool): PendingPairOrder {
      if leg.Stock? then this.(stockOrderSent := sent) else this.(futureOrderSent := sent)
    }
  }

  datatype LiveConfig = LiveConfig(
    pair: PairConfig, flattenOnSecondLegFailure: bool, cooldownAfterFailureSec: real, fokOrderTimeoutSec: real)

  /** What the provider keeps for one pair. */
  datatype Live = Live(
    position: PairPosition,
    pending: Option<PendingPairOrder>,
    pendingEntryBasis: Option<real>,
    entriesDisabled: bool,
    entriesLocked: bool,
    cooldownUntil: Option<real>)
  {
    function Units(leg: Leg): int { if leg.Stock? then position.stockUnits else position.futureUnits }

    predicate IsPending(id: nat) { pending.Some? && pending.value.id == id }
  }

  // ---------------------------------------------------------------- placing

  predicate EntryBlocked(s: Live, now: real) {
    s.entriesDisabled || s.entriesLocked || (s.cooldownUntil.Some? && s.cooldownUntil.value > now)
  }

  /** An order being put together from fields of the position that are read one by one, without the
      lock; `q` is its quantity multiplier. */
  datatype Draft = Draft(
    signal: Signal, market: PairMarket, firstLeg: Leg, q: int, direction: Signal, stockUnits: int, futureUnits: int)

  datatype Field = QuantityField | DirectionField | StockField | FutureField

  function NewDraft(signal: Signal, market: PairMarket, futureTriggered: bool): Draft {
    Draft(signal, market, if futureTriggered then Future else Stock, 1, Hold, 0, 0)
  }

  /** The draft with one more field read from the live position. */
  function ReadField(c: LiveConfig, s: Live, d: Draft, field: Field): Draft {
    match field
    case QuantityField => if d.signal == Exit then d.(q := ExitQuantityMultiplier(c.pair, d.market, s.position)) else d
    case DirectionField => d.(direction := s.position.direction)
    case StockField => d.(stockUnits := s.position.stockUnits)
    case FutureField => d.(futureUnits := s.position.futureUnits)
  }

  /** _pending_order_for_signal; None where it raises. */
  function PendingFor(d: Draft, id: nat): Option<PendingPairOrder> {
    var stock, future, q := d.stockUnits, d.futureUnits, d.q;
    match d.signal
    case EnterLong =>
      Some(PendingPairOrder(id, d.signal, stock + q, future + q, Buy, Sell, q, None, false, false, false, false))
    case EnterShort =>
      Some(PendingPairOrder(id, d.signal, stock - q, future - q, Sell, Buy, q, None, false, false, false, false))
    case Exit =>
      if d.direction == EnterLong then
        Some(PendingPairOrder(id, d.signal, MaxInt(stock - q, 0), MaxInt(future - q, 0), Sell, Buy, q, None, false, false, false, false))
      else if d.direction == EnterShort then
        Some(PendingPairOrder(id, d.signal, MinInt(stock + q, 0), MinInt(future + q, 0), Buy, Sell, q, None, false, false, false, false))
      else None
    case Hold => None
  }

  /** The locked part of placing: an order is installed unless one is pending. */
  function Installed(s: Live, order: PendingPairOrder): Live {
    if s.pending.Some? then s else s.(pending := Some(order))
  }

  function EntryBasis(signal: Signal, market: PairMarket, kept: Option<real>): Option<real> {
    match signal
    case EnterLong => Some((market.future.bid - market.spot.ask) / market.spot.ask)
    case EnterShort => Some(-((market.future.ask - market.spot.bid) / market.spot.bid))
    case _ => kept
  }

  /** The entry basis is kept after the order is installed. */
  function BasisKept(s: Live, d: Draft): Live {
    s.(pendingEntryBasis := EntryBasis(d.signal, d.market, s.pendingEntryBasis))
  }

  function FirstLegNamed(s: Live, id: nat, leg: Leg): Live {
    if s.IsPending(id) then s.(pending := Some(s.pending.value.(firstLeg := Some(leg)))) else s
  }

  /** The submitted first leg was accepted: its flag goes up on that order, pending or not. */
  function FirstLegAccepted(s: Live, id: nat, leg: Leg): Live {
    if s.IsPending(id) then s.(pending := Some(s.pending.value.WithSent(leg, true))) else s
  }

  /** The submission raised before any leg was accepted. */
  function FirstLegRaised(s: Live): Live { s.(pending := None) }

  // ---------------------------------------------------------------- fills

  /** Stock units grow with purchases, futures units with sales. */
  function SignedUnits(leg: Leg, side: Side, units: int): int {
    if (leg.Stock? && side.Buy?) || (leg.Future? && side.Sell?) then units else -units
  }

  function Magnitude(n: int): nat { if n < 0 then -n else n }

  function ReconciledQuantity(stock: int, future: int): (Signal, int) {
    if stock > 0 && future > 0 then (EnterLong, MinInt(stock, future))
    else if stock < 0 && future < 0 then (EnterShort, MinInt(-stock, -future))
    else (Hold, 0)
  }

  /** _reconcile_position_from_legs, without the release. */
  function Reconciled(p: PairPosition, entryBasis: Option<real>, now: real): PairPosition {
    var (direction, quantity) := ReconciledQuantity(p.stockUnits, p.futureUnits);
    var p0 := p.(direction := direction, quantity := quantity);
    var p1 := if quantity != 0 && quantity > Magnitude(p.quantity) then p0.(lastEntryTime := Some(now)) else p0;
    var p2 := if quantity != 0 && p.quantity == 0 && entryBasis.Some? then p1.(entryBasisPct := entryBasis) else p1;
    if quantity == 0 && p.stockUnits == 0 && p.futureUnits == 0
    then p2.(entryBasisPct := None, entrySpotPrice := None, entryFuturePrice := None, lastEntryTime := None)
    else p2
  }

  /** _release_pending_order_if_target_met. */
  function Release(s: Live): Live {
    if s.pending.None? then s
    else
      var order := s.pending.value;
      var flattened := order.secondLegFailureHandled && s.position.stockUnits == 0 && s.position.futureUnits == 0;
      var met := s.position.stockUnits == order.targetStockUnits && s.position.futureUnits == order.targetFutureUnits;
      if flattened || met then s.(pending := None) else s
  }

  function FillPrice(entry: Option<real>, oldUnits: int, signed: int, price: real): Option<real>
    requires signed != 0
  {
    if price > 0.0 && (oldUnits == 0 || oldUnits * signed > 0)
    then Some(WeightedAverage(entry, Magnitude(oldUnits), price, Magnitude(signed))) else entry
  }

  /** The position update of a stock or futures fill. */
  function Filled(s: Live, leg: Leg, side: Side, units: int, price: real, now: real): Live
    requires units > 0
  {
    var signed := SignedUnits(leg, side, units);
    var p := s.position;
    var filled :=
      if leg.Stock?
      then p.(entrySpotPrice := FillPrice(p.entrySpotPrice, p.stockUnits, signed, price), stockUnits := p.stockUnits + signed)
      else p.(entryFuturePrice := FillPrice(p.entryFuturePrice, p.futureUnits, signed, price), futureUnits := p.futureUnits + signed);
    Release(s.(position := Reconciled(filled, s.pendingEntryBasis, now)))
  }

  // ---------------------------------------------------------------- the second leg

  /** A fill of `leg` may start the other leg: the order is pending, not sent yet, and this leg is at
      its target. */
  predicate DeferredReady(s: Live, leg: Leg) {
    && s.pending.Some?
    && !s.pending.value.Sent(leg.Other())
    && s.Units(leg) == s.pending.value.Target(leg)
  }

  /** _place_deferred_*_order_if_ready, its locked part: the flag goes up before the submission. */
  function DeferredStart(s: Live, leg: Leg): Live {
    if DeferredReady(s, leg) then s.(pending := Some(s.pending.value.WithSent(leg.Other(), true))) else s
  }

  /** The second submission raised: the flag comes down again. */
  function SecondLegRaised(s: Live, id: nat, leg: Leg): Live {
    if s.IsPending(id) then s.(pending := Some(s.pending.value.WithSent(leg, false))) else s
  }

  predicate FailsNow(s: Live) { s.pending.Some? && !s.pending.value.secondLegFailureHandled }

  /** An order whose first leg is not named yet cannot be flattened. */
  predicate StartsFlatten(c: LiveConfig, s: Live) {
    FailsNow(s) && c.flattenOnSecondLegFailure && !s.pending.value.flattenOrderSent && s.pending.value.firstLeg.Some?
  }

  /** _handle_second_leg_fok_failure with the start of the flatten. */
  function SecondLegFails(c: LiveConfig, s: Live, now: real): Live {
    if !FailsNow(s) then s
    else
      var order := s.pending.value.(secondLegFailureHandled := true);
      var until := now + c.cooldownAfterFailureSec;
      s.(
        pending := Some(if StartsFlatten(c, s) then order.(flattenOrderSent := true) else order),
        cooldownUntil :=
          if c.cooldownAfterFailureSec <= 0.0 then s.cooldownUntil
          else Some(MaxReal(if s.cooldownUntil.Some? then s.cooldownUntil.value else 0.0, until)))
  }

  /** The flatten submission raised. */
  function FlattenRaised(s: Live, id: nat): Live {
    if s.IsPending(id) then s.(pending := Some(s.pending.value.(flattenOrderSent := false))) else s
  }

  // ---------------------------------------------------------------- order reports and timeouts

  datatype Report = Report(fok: bool, status: int, error: bool, after: int, filled: int, total: int) {
    predicate NoFill() { status == 30 && !error && after == 0 && filled == 0 }

    predicate Rejected() { !NoFill() && (status == 90 || error) }

    predicate PartialAbnormal() { fok && filled > 0 && (after > 0 || (total > 0 && filled < total)) }
  }

  /** _handle_stock_order_report_state and its futures twin; the flag says a flatten starts. */
  function Reported(c: LiveConfig, s: Live, leg: Leg, r: Report, now: real): (bool, Live) {
    if s.pending.None? || !r.fok then (false, s)
    else
      var order := s.pending.value;
      if r.PartialAbnormal() then (false, s.(entriesDisabled := true, entriesLocked := true))
      else if order.firstLeg.None? then (false, s)
      else if order.firstLeg == Some(leg) then
        if r.NoFill() then (false, s.(pending := None))
        else if r.Rejected() then (false, s.(pending := None, entriesDisabled := true))
        else (false, s)
      else if !order.Sent(leg) || order.secondLegFailureHandled then (false, s)
      else if r.NoFill() then (StartsFlatten(c, s), SecondLegFails(c, s, now))
      else if r.Rejected() then (StartsFlatten(c, s), SecondLegFails(c, s.(entriesDisabled := true), now))
      else (false, s)
  }

  /** An order the timeout check picks up once its time has elapsed. */
  predicate MayTimeOut(c: LiveConfig, s: Live) {
    s.pending.Some? && !s.pending.value.secondLegFailureHandled && c.fokOrderTimeoutSec > 0.0
  }

  /** _handle_pending_order_timeout reads the leg role of the picked-up order without the lock. */
  predicate TimesOutSecondLeg(order: PendingPairOrder) { order.firstLeg.Some? && order.Sent(order.firstLeg.value.Other()) }

  /** Its locked release of an order read as one whose first leg never filled. */
  function TimeoutReleases(s: Live, id: nat): Live {
    if s.IsPending(id) then s.(pending := None, entriesDisabled := true) else s
  }

  // ---------------------------------------------------------------- the provider

  class LivePairProvider {
    const config: LiveConfig
    var position: PairPosition
    var pending: Option<PendingPairOrder>
    var pendingEntryBasis: Option<real>
    var entriesDisabled: bool
    var entriesLocked: bool
    var cooldownUntil: Option<real>

    function View(): Live
      reads this
    {
      Live(position, pending, pendingEntryBasis, entriesDisabled, entriesLocked, cooldownUntil)
    }

    constructor (config: LiveConfig, position: PairPosition)
      ensures this.config == config && View() == Live(position, None, None, false, false, None)
    {
      this.config, this.position := config, position;
      pending, pendingEntryBasis, entriesDisabled, entriesLocked, cooldownUntil := None, None, false, false, None;
    }

    /** The first step of place_pair_orders: the entry block, checked under the lock. */
    method BeginPairOrders(signal: Signal, now: real) returns (proceeds: bool)
      ensures proceeds == (signal == Exit || !EntryBlocked(View(), now))
    {
      if signal != Exit && (entriesDisabled || entriesLocked || (cooldownUntil.Some? && cooldownUntil.value > now)) {
        return false;
      }
      return true;
    }

    /** One of its unlocked reads of the live position. */
    method ReadDraft(d: Draft, field: Field) returns (read: Draft)
      ensures read == ReadField(config, View(), d, field)
    {
      read := d;
      match field {
        case QuantityField =>
          if d.signal == Exit {
            var q := ExitQuantityMultiplier(config.pair, d.market, position);
            read := d.(q := q);
          }
        case DirectionField => read := d.(direction := position.direction);
        case StockField => read := d.(stockUnits := position.stockUnits);
        case FutureField => read := d.(futureUnits := position.futureUnits);
      }
    }

    /** Its locked part. */
    method InstallPairOrder(order: PendingPairOrder) returns (installed: bool)
      modifies this
      ensures View() == Installed(old(View()), order) && installed == old(pending).None?
    {
      if pending.Some? { return false; }
      pending := Some(order);
      return true;
    }

    method KeepEntryBasis(d: Draft)
      modifies this
      ensures View() == BasisKept(old(View()), d)
    {
      if d.signal == EnterLong {
        pendingEntryBasis := Some((d.market.future.bid - d.market.spot.ask) / d.market.spot.ask);
      } else if d.signal == EnterShort {
        pendingEntryBasis := Some(-((d.market.future.ask - d.market.spot.bid) / d.market.spot.bid));
      }
    }

    method NameFirstLeg(id: nat, leg: Leg)
      modifies this
      ensures View() == FirstLegNamed(old(View()), id, leg)
    {
      if pending.Some? && pending.value.id == id {
        pending := Some(pending.value.(firstLeg := Some(leg)));
      }
    }

    method AcceptFirstLeg(id: nat, leg: Leg)
      modifies this
      ensures View() == FirstLegAccepted(old(View()), id, leg)
    {
      if pending.Some? && pending.value.id == id {
        pending := Some(pending.value.WithSent(leg, true));
      }
    }

    method HandlePairOrderSubmitFailure()
      modifies this
      ensures View() == FirstLegRaised(old(View()))
    {
      pending := None;
    }

    method UpdatePositionFromFill(leg: Leg, side: Side, units: int, price: real, now: real)
      requires units > 0
      modifies this
      ensures View() == Filled(old(View()), leg, side, units, price, now)
    {
      hide Reconciled, Release, WeightedAverage;
      var signed := SignedUnits(leg, side, units);
      if leg.Stock? {
        if price > 0.0 && (position.stockUnits == 0 || position.stockUnits * signed > 0) {
          position := position.(entrySpotPrice :=
            Some(WeightedAverage(position.entrySpotPrice, Magnitude(position.stockUnits), price, Magnitude(signed))));
        }
        position := position.(stockUnits := position.stockUnits + signed);
      } else {
        if price > 0.0 && (position.futureUnits == 0 || position.futureUnits * signed > 0) {
          position := position.(entryFuturePrice :=
            Some(WeightedAverage(position.entryFuturePrice, Magnitude(position.futureUnits), price, Magnitude(signed))));
        }
        position := position.(futureUnits := position.futureUnits + signed);
      }
      ReconcilePositionFromLegs(now);
    }

    method ReconcilePositionFromLegs(now: real)
      modifies this
      ensures View() == Release(old(View()).(position := Reconciled(old(position), old(pendingEntryBasis), now)))
    {
      var hadPosition, oldQuantity := position.quantity != 0, Magnitude(position.quantity);
      if position.stockUnits > 0 && position.futureUnits > 0 {
        position := position.(direction := EnterLong, quantity := MinInt(position.stockUnits, position.futureUnits));
      } else if position.stockUnits < 0 && position.futureUnits < 0 {
        position := position.(direction := EnterShort, quantity := MinInt(-position.stockUnits, -position.futureUnits));
      } else {
        position := position.(direction := Hold, quantity := 0);
      }
      if position.quantity != 0 && position.quantity > oldQuantity {
        position := position.(lastEntryTime := Some(now));
      }
      if position.quantity != 0 && !hadPosition && pendingEntryBasis.Some? {
        position := position.(entryBasisPct := pendingEntryBasis);
      }
      if position.quantity == 0 && position.stockUnits == 0 && position.futureUnits == 0 {
        position := position.(entryBasisPct := None, entrySpotPrice := None, entryFuturePrice := None, lastEntryTime := None);
      }
      ReleasePendingOrderIfTargetMet();
    }

    method ReleasePendingOrderIfTargetMet()
      modifies this
      ensures View() == Release(old(View()))
    {
      if pending.None? { return; }
      if pending.value.secondLegFailureHandled && position.stockUnits == 0 && position.futureUnits == 0 {
        pending := None;
        return;
      }
      if position.stockUnits == pending.value.targetStockUnits && position.futureUnits == pending.value.targetFutureUnits {
        pending := None;
      }
    }

    method StartDeferredLeg(leg: Leg) returns (submit: bool)
      modifies this
      ensures View() == DeferredStart(old(View()), leg) && submit == DeferredReady(old(View()), leg)
    {
      if pending.None? || pending.value.Sent(leg.Other()) { return false; }
      var units := if leg.Stock? then position.stockUnits else position.futureUnits;
      if units != pending.value.Target(leg) { return false; }
      pending := Some(pending.value.WithSent(leg.Other(), true));
      return true;
    }

    method DeferredLegRaised(id: nat, leg: Leg)
      modifies this
      ensures View() == SecondLegRaised(old(View()), id, leg)
    {
      if pending.Some? && pending.value.id == id {
        pending := Some(pending.value.WithSent(leg, false));
      }
    }

    method HandleSecondLegFailure(now: real) returns (flatten: bool)
      modifies this
      ensures View() == SecondLegFails(config, old(View()), now) && flatten == StartsFlatten(config, old(View()))
    {
      if pending.None? || pending.value.secondLegFailureHandled { return false; }
      pending := Some(pending.value.(secondLegFailureHandled := true));
      if config.cooldownAfterFailureSec > 0.0 {
        var current := if cooldownUntil.Some? then cooldownUntil.value else 0.0;
        cooldownUntil := Some(MaxReal(current, now + config.cooldownAfterFailureSec));
      }
      if !config.flattenOnSecondLegFailure || pending.value.flattenOrderSent || pending.value.firstLeg.None? { return false; }
      pending := Some(pending.value.(flattenOrderSent := true));
      return true;
    }

    method FlattenLegRaised(id: nat)
      modifies this
      ensures View() == FlattenRaised(old(View()), id)
    {
      if pending.Some? && pending.value.id == id {
        pending := Some(pending.value.(flattenOrderSent := false));
      }
    }

    method HandleOrderReport(leg: Leg, r: Report, now: real) returns (flatten: bool)
      modifies this
      ensures (flatten, View()) == Reported(config, old(View()), leg, r, now)
    {
      flatten := false;
      if pending.None? || !r.fok { return; }
      if r.PartialAbnormal() {
        entriesDisabled, entriesLocked := true, true;
        return;
      }
      if pending.value.firstLeg.None? { return; }
      if pending.value.firstLeg == Some(leg) {
        if r.NoFill() {
          pending := None;
        } else if r.Rejected() {
          pending, entriesDisabled := None, true;
        }
        return;
      }
      if !pending.value.Sent(leg) || pending.value.secondLegFailureHandled { return; }
      if r.NoFill() {
        flatten := HandleSecondLegFailure(now);
      } else if r.Rejected() {
        entriesDisabled := true;
        flatten := HandleSecondLegFailure(now);
      }
    }

    /** The first part of the timeout handler: lock the pair's entries and read the leg role. */
    method BeginPendingOrderTimeout(order: PendingPairOrder) returns (secondLeg: bool)
      modifies this
      ensures View() == old(View()).(entriesLocked := true) && secondLeg == TimesOutSecondLeg(order)
    {
      secondLeg := order.firstLeg.Some? && order.Sent(order.firstLeg.value.Other());
      entriesLocked := true;
    }

    /** Its second part for a first leg; for a second leg it is HandleSecondLegFailure. */
    method ReleaseTimedOutOrder(id: nat)
      modifies this
      ensures View() == TimeoutReleases(old(View()), id)
    {
      if pending.None? || pending.value.id != id { return; }
      pending, entriesDisabled := None, true;
    }
  }
}
