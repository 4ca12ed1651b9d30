/** A feed with an ambiguous clock on which the scanner-driven run stops with its mismatch error. */
module AmbiguousFeed {
  import opened Wrappers
  import opened Models
  import opened Ticks
  import opened Scanner
  import opened Replay
  import opened ScannedReplay

  /** Seconds after the schedule change: the pricer reads them as a date, the scanner as nanoseconds. */
  const CLOCK := 1_800_000_000

  /** One step of data in which a future above one thousand stands ten percent over its spot. */
  function SecondsFeed(): Port<int> {
    Port(
      (e: int) => CLOCK,
      (e: int, l: Leg) => Some(if l.Stock? then Depth(999.0, 1000.0, 1.0, 1.0) else Depth(1100.0, 1101.0, 1.0, 1.0)),
      (e: int, l: Leg) => None,
      (e: int, d: int) => if e < 1 then (true, e + 1) else (false, e),
      (e: int) => (false, e),
      (e: int, r: OrderRequest) => (0, e),
      (e: int, l: Leg, i: int, t: int) => (0, e),
      (e: int, l: Leg, i: int) => None,
      (e: int, l: Leg, i: int, t: int) => e,
      (e: int, l: Leg) => e,
      (e: int) => if e < 1 then 1 - e else 0,
      (e: int, l: Leg) => 0)
  }

  /** Enters above twenty effective ticks; the future's tick comes from the table. */
  function TickedPair(): PairConfig {
    PairConfig(
      "pair", "spot", "future", 1, 1, 1, 1, 1, 0.0, -10.0, -10.0, 1.0, Models.Lte, None, 20.0, 0.0, Some(1.0), None,
      0.0, 0.0, 0.0, 1, false, 0.0, 0.0, 0.0, 0.0, Rod, 0.0, Rod, None, 0.0, Ioc,
      InitialPosition(0, Hold, None, None, None))
  }

  function EveryStepConfig(): HbtConfig {
    HbtConfig(TickedPair(), Future, false, 1, 1, 0, NoWait, 0, 1, None, None, true, true, true, Some(1))
  }

  lemma FeedIsValid()
    ensures Finite(SecondsFeed()) && ValidConfig(EveryStepConfig()) && AmbiguousClock(CLOCK)
  {
  }

  /** At the one step the scanner holds, with a future tick of five, and the pricer enters, with one. */
  lemma EnginesDiffer(s: Run<int>)
    requires s.position == BuildInitialPosition(TickedPair())
    ensures
      var p, c := SecondsFeed(), EveryStepConfig();
      && ScanCode(p, ParametersOf(c.pair, s.position), s.hbt, p.depth(s.hbt, Stock).value, p.depth(s.hbt, Future).value) == SIGNAL_HOLD
      && CurrentMarket(p, s.hbt).Some?
      && DecideRun(c, s, CurrentMarket(p, s.hbt).value).action == EnterLong
  {
  }

  /** The refinement needs its clock: here the scanner-driven run ends in its mismatch error. */
  lemma AmbiguousClockMismatches()
    ensures Finite(SecondsFeed()) && ValidConfig(EveryStepConfig())
    ensures RunScanned(SecondsFeed(), EveryStepConfig(), Start(EveryStepConfig(), 0)) == Err(SignalMismatch)
  {
    FeedIsValid();
    hide Finite;
    var p, c := SecondsFeed(), EveryStepConfig();
    var s := Start(c, 0);
    var s1 := s.(hbt := 1, step := 1);
    EnginesDiffer(s1);
    hide ScanCode, CurrentMarket, DecideRun;
    var w := ScanFrom(p, c, s, StepLimit(c, s), 0, NO_SNAPSHOT);
    assert w.reason.PeriodicRecord? && w.code == SIGNAL_HOLD && w.hbt == 1 && w.step == 1;
  }
}
