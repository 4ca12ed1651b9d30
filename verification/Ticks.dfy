/** Tick tables, and the two ways the code picks the futures schedule of a quote. */
module Ticks {
  import opened Models

  /** 2026-07-06 00:00 in Taipei, in seconds since the epoch. */
  const CHANGE_SECONDS := 1_783_267_200

  /** The same instant as the scanner stores it, in nanoseconds. */
  const CHANGE_TIMESTAMP_NS := 1_783_267_200_000_000_000

  function StockTick(price: real): (tick: real)
    requires price >= 0.0
    ensures tick > 0.0
  {
    if price < 10.0 then 0.01
    else if price < 50.0 then 0.05
    else if price < 100.0 then 0.1
    else if price < 500.0 then 0.5
    else if price < 1000.0 then 1.0
    else 5.0
  }

  /** The date-based table of the Python pricer. */
  function FutureTick(price: real, newSchedule: bool): (tick: real)
    requires price >= 0.0
    ensures tick > 0.0
  {
    if price < 500.0 then StockTick(price)
    else if newSchedule then (if price < 2500.0 then 1.0 else 5.0)
    else if price < 1000.0 then 1.0
    else 5.0
  }

  /** Whether a raw numeric quote time falls on or after the change date. The magnitude decides
      whether it is read as nanoseconds, milliseconds or seconds; floating rounding is not modelled. */
  predicate NewScheduleByDate(timestamp: int) {
    var magnitude := if timestamp < 0 then -timestamp else timestamp;
    var seconds :=
      if magnitude >= 10_000_000_000_000 then timestamp as real / 1_000_000_000.0
      else if magnitude >= 10_000_000_000 then timestamp as real / 1_000.0
      else timestamp as real;
    seconds >= CHANGE_SECONDS as real
  }

  /** The compiled scanner compares nanoseconds directly. */
  predicate NewScheduleByTimestamp(timestamp: int) { timestamp >= CHANGE_TIMESTAMP_NS }

  /** Clock values that the Python path would read as seconds or milliseconds after the change. */
  predicate AmbiguousClock(timestamp: int) {
    || CHANGE_SECONDS <= timestamp < 10_000_000_000
    || CHANGE_SECONDS * 1_000 <= timestamp < 10_000_000_000_000
  }

  /** The two schedule choices agree exactly outside the ambiguous windows. */
  lemma SchedulesAgreeIff(timestamp: int)
    ensures NewScheduleByDate(timestamp) == NewScheduleByTimestamp(timestamp) <==> !AmbiguousClock(timestamp)
  {
  }

  /** A configured size wins unless it is absent or zero. */
  function PairLegTick(pair: PairConfig, leg: Leg, price: real, timestamp: int): (tick: real)
    requires price >= 0.0
  {
    var configured := if leg.Stock? then pair.spotTickSize else pair.futureTickSize;
    if configured.Some? && configured.value != 0.0 then configured.value
    else if leg.Stock? then StockTick(price)
    else FutureTick(price, NewScheduleByDate(timestamp))
  }

  /** The scanner receives 0.0 for an absent size and treats every size up to zero as absent. */
  function ScannerLegTick(configured: real, leg: Leg, price: real, timestamp: int): (tick: real)
    requires price >= 0.0
    ensures tick > 0.0
  {
    if configured > 0.0 then configured
    else if leg.Stock? then StockTick(price)
    else FutureTick(price, NewScheduleByTimestamp(timestamp))
  }

  function ConfiguredTick(pair: PairConfig, leg: Leg): real {
    var configured := if leg.Stock? then pair.spotTickSize else pair.futureTickSize;
    if configured.None? then 0.0 else configured.value
  }

  /** Both engines use the same tick at every price iff no negative size is configured and, for a
      future priced by the table, the clock is unambiguous. */
  lemma LegTicksAgreeIff(pair: PairConfig, leg: Leg, timestamp: int)
    ensures
      (forall price: Price :: PairLegTick(pair, leg, price, timestamp)
                           == ScannerLegTick(ConfiguredTick(pair, leg), leg, price, timestamp))
      <==> (&& ConfiguredTick(pair, leg) >= 0.0
            && (leg.Future? && ConfiguredTick(pair, leg) == 0.0 ==> !AmbiguousClock(timestamp)))
  {
    SchedulesAgreeIff(timestamp);
    var thousand: Price := 1000.0;
    assert FutureTick(thousand, true) != FutureTick(thousand, false);
    var left := PairLegTick(pair, leg, thousand, timestamp);
    var right := ScannerLegTick(ConfiguredTick(pair, leg), leg, thousand, timestamp);
    if ConfiguredTick(pair, leg) < 0.0 {
      assert left != right;
    } else if leg.Future? && ConfiguredTick(pair, leg) == 0.0 && AmbiguousClock(timestamp) {
      assert left != right;
    }
  }
}
