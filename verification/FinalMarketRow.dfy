/** The one place where the two runs can differ: the market row forced after the last step. */
module FinalMarketRow {
  import opened Wrappers
  import opened Models
  import opened Replay
  import opened ScannedReplay

  predicate UncrossedMarket(m: PairMarket) { m.spot.bid < m.spot.ask && m.future.bid < m.future.ask }

  predicate UncrossedBooks(books: (Depth, Depth)) { books.0.bid < books.0.ask && books.1.bid < books.1.ask }

  // ---------------------------------------------------------------- what a run has seen

  /** What matters of the books seen so far: the market last acted on, the last uncrossed one of scans
      that ended at a crossed wake-up since then, the last uncrossed one of the current scan, and the
      last finite books of the current scan. */
  datatype Memory = Memory(
    visited: Option<PairMarket>, dropped: Option<PairMarket>, skipped: Option<PairMarket>, snapshot: Snapshot)

  function NewMemory(last: Option<PairMarket>): Memory { Memory(last, None, None, NO_SNAPSHOT) }

  /** What the plain loop remembers: the last uncrossed market of all steps. */
  function PlainMemory(m: Memory): Option<PairMarket> {
    if m.skipped.Some? then m.skipped else if m.dropped.Some? then m.dropped else m.visited
  }

  /** What the scanner-driven loop remembers: the last finite books of the last scan, else the market
      last acted on. */
  function ScannedMemory(m: Memory): Option<PairMarket> { Remembered(m.visited, m.snapshot) }

  /** The books of one more step. */
  function Observe<E>(p: Port<E>, c: HbtConfig, s: Run<E>, m: Memory): Memory
    requires ValidPair(c.pair)
  {
    var current := CurrentMarket(p, s.hbt);
    if WakesAt(p, c, s) then
      if current.Some? then NewMemory(current)
      else Memory(m.visited, if m.skipped.Some? then m.skipped else m.dropped, None, NO_SNAPSHOT)
    else
      Memory(m.visited, m.dropped, if current.Some? then current else m.skipped, SeenAt(p, s, m.snapshot))
  }

  /** The books of a whole run, step by step. */
  function Watch<E(!new)>(p: Port<E>, c: HbtConfig, s: Run<E>, m: Memory): Memory
    requires Finite(p) && ValidConfig(c)
    decreases p.remaining(s.hbt)
  {
    if Exhausted(c, s) || !p.advance(s.hbt, c.stepNs).0 then m
    else
      var s1 := Stepped(p, c, s);
      VisitConsumes(p, c, s1);
      Watch(p, c, Visit(p, c, s1), Observe(p, c, s1, m))
  }

  /** Remembered markets are uncrossed, and the snapshot is the last skipped one unless crossed. */
  ghost predicate Faithful(m: Memory) {
    && (m.visited.Some? ==> UncrossedMarket(m.visited.value))
    && (m.dropped.Some? ==> UncrossedMarket(m.dropped.value))
    && (m.skipped.Some? ==> UncrossedMarket(m.skipped.value))
    && (m.snapshot.books.None? ==> m.skipped.None?)
    && (m.snapshot.books.Some? ==> m.snapshot.timestamp >= 0)
    && (m.snapshot.books.Some? && UncrossedBooks(m.snapshot.books.value) ==> m.skipped == MarketFromSnapshot(m.snapshot))
  }

  // ---------------------------------------------------------------- both loops remember what was seen

  lemma ObserveSkipped<E(!new)>(p: Port<E>, c: HbtConfig, s: Run<E>, m: Memory)
    requires ValidConfig(c) && ClocksTagged(p) && FeedsCurrent(p, s.hbt, m.snapshot) && Faithful(m)
    requires !WakesAt(p, c, Stepped(p, c, s))
    ensures
      var s1 := Stepped(p, c, s);
      var m1 := Observe(p, c, s1, m);
      && Faithful(m1) && FeedsCurrent(p, s1.hbt, m1.snapshot)
      && PlainMemory(m1) == if CurrentMarket(p, s1.hbt).Some? then CurrentMarket(p, s1.hbt) else PlainMemory(m)
  {
    hide WakesAt;
  }

  lemma ObserveWakeUp<E(!new)>(p: Port<E>, c: HbtConfig, s: Run<E>, m: Memory, e: E)
    requires ValidConfig(c) && Faithful(m) && WakesAt(p, c, s)
    ensures
      var m1 := Observe(p, c, s, m);
      && Faithful(m1) && m1.skipped.None? && m1.snapshot == NO_SNAPSHOT && FeedsCurrent(p, e, m1.snapshot)
      && (if CurrentMarket(p, s.hbt).Some? then m1 == NewMemory(CurrentMarket(p, s.hbt))
          else m1.visited == m.visited && PlainMemory(m1) == PlainMemory(m))
  {
    hide WakesAt;
  }

  lemma VisitRemembers<E(!new)>(p: Port<E>, c: HbtConfig, s: Run<E>)
    requires Finite(p) && ValidPair(c.pair)
    ensures Visit(p, c, s).last == if CurrentMarket(p, s.hbt).Some? then CurrentMarket(p, s.hbt) else s.last
  {
    hide SubmitRawLeg, LegRequest, FlattenRequest, SecondLegProfitOk, UpdatePosition, FlattenPnl, RealizedPnl, Finite;
  }

  /** Both loops end with what their memory of the run says. */
  ghost predicate Remember<E(!new)>(r: Result<Run<E>, ReplayError>, t: Run<E>, m: Memory) {
    Faithful(m) && r.Ok? && r.value.last == ScannedMemory(m) && t.last == PlainMemory(m)
  }

  /** From states that agree, at the start of a scan. */
  lemma LoopsRemember<E(!new)>(p: Port<E>, c: HbtConfig, s: Run<E>, t: Run<E>, m: Memory)
    requires Finite(p) && ValidConfig(c) && !c.eventClock && UnambiguousClock(p) && ClocksTagged(p)
    requires SameButLast(s, t) && s.last == m.visited && t.last == PlainMemory(m)
    requires Faithful(m) && m.skipped.None? && m.snapshot == NO_SNAPSHOT
    ensures Remember(ScannedLoop(p, c, s), PlainLoop(p, c, t), Watch(p, c, t, m))
    decreases p.remaining(s.hbt), 1
  {
    if !Exhausted(c, s) {
      ScanRemembers(p, c, s, t, StepLimit(c, s), 0, m);
    }
  }

  /** From the middle of a scan. */
  lemma {:induction false} ScanRemembers<E(!new)>(
    p: Port<E>, c: HbtConfig, s: Run<E>, t: Run<E>, limit: int, advanced: nat, m: Memory)
    requires Finite(p) && ValidConfig(c) && !c.eventClock && UnambiguousClock(p) && ClocksTagged(p)
    requires SameButLast(s, t) && !Exhausted(c, s) && s.last == m.visited && t.last == PlainMemory(m)
    requires if c.maxSteps.Some? then limit - advanced == c.maxSteps.value - s.step else limit == -1
    requires Faithful(m) && FeedsCurrent(p, s.hbt, m.snapshot)
    ensures Remember(AfterWake(p, c, s, ScanFrom(p, c, s, limit, advanced, m.snapshot)), PlainLoop(p, c, t), Watch(p, c, t, m))
    decreases p.remaining(s.hbt), 0
  {
    hide WakesAt, Observe, Faithful, FeedsCurrent, ClocksTagged, UnambiguousClock, Visit, ScanFrom, AfterWake, Remember;
    if p.advance(s.hbt, c.stepNs).0 {
      assert p.remaining(p.advance(s.hbt, c.stepNs).1) < p.remaining(s.hbt);
      hide Finite;
      var s1, t1 := Stepped(p, c, s), Stepped(p, c, t);
      StepUnfolds(p, c, t, m);
      hide Watch, PlainLoop, PlainMemory, ScannedMemory;
      if WakesAt(p, c, s1) {
        WakeUpRemembers(p, c, s, t, limit, advanced, m);
      } else {
        SkipRemembers(p, c, s, t, limit, advanced, m);
        if Exhausted(c, s1) {
          StoppedRemembers(p, c, s1, Visit(p, c, t1), limit, advanced + 1, Observe(p, c, t1, m));
        } else {
          ScanRemembers(p, c, s1, Visit(p, c, t1), limit, advanced + 1, Observe(p, c, t1, m));
        }
      }
    } else {
      EndRemembers(p, c, s, t, limit, advanced, m);
    }
  }

  lemma StepUnfolds<E(!new)>(p: Port<E>, c: HbtConfig, t: Run<E>, m: Memory)
    requires Finite(p) && ValidConfig(c) && !c.eventClock && !Exhausted(c, t) && p.advance(t.hbt, c.stepNs).0
    ensures
      var t1 := Stepped(p, c, t);
      && PlainLoop(p, c, t) == PlainLoop(p, c, Visit(p, c, t1))
      && Watch(p, c, t, m) == Watch(p, c, Visit(p, c, t1), Observe(p, c, t1, m))
  {
    hide Visit, Observe;
  }

  /** A skipped step keeps the loops and the memory in step. */
  lemma SkipRemembers<E(!new)>(p: Port<E>, c: HbtConfig, s: Run<E>, t: Run<E>, limit: int, advanced: nat, m: Memory)
    requires Finite(p) && ValidConfig(c) && UnambiguousClock(p) && ClocksTagged(p)
    requires SameButLast(s, t) && s.last == m.visited && t.last == PlainMemory(m)
    requires limit < 0 || advanced < limit
    requires Faithful(m) && FeedsCurrent(p, s.hbt, m.snapshot)
    requires p.advance(s.hbt, c.stepNs).0 && !WakesAt(p, c, Stepped(p, c, s))
    ensures
      var s1, t2, m1 := Stepped(p, c, s), Visit(p, c, Stepped(p, c, t)), Observe(p, c, Stepped(p, c, t), m);
      && AfterWake(p, c, s, ScanFrom(p, c, s, limit, advanced, m.snapshot))
         == AfterWake(p, c, s1, ScanFrom(p, c, s1, limit, advanced + 1, m1.snapshot))
      && SameButLast(s1, t2) && s1.last == m1.visited && t2.last == PlainMemory(m1)
      && Faithful(m1) && FeedsCurrent(p, s1.hbt, m1.snapshot)
  {
    SkipStep(p, c, s, limit, advanced, m.snapshot);
    SkippedStepHolds(p, c, Stepped(p, c, t));
    ObserveSkipped(p, c, t, m);
    assert Observe(p, c, Stepped(p, c, t), m).snapshot == SeenAt(p, Stepped(p, c, s), m.snapshot);
    hide AfterWake, ScanFrom, Faithful, FeedsCurrent, SeenAt, Finite, ClocksTagged, UnambiguousClock;
  }

  lemma StoppedRemembers<E(!new)>(p: Port<E>, c: HbtConfig, s: Run<E>, t: Run<E>, limit: int, advanced: nat, m: Memory)
    requires Finite(p) && ValidConfig(c) && SameButLast(s, t) && Exhausted(c, s)
    requires limit >= 0 && advanced >= limit
    requires s.last == m.visited && t.last == PlainMemory(m) && Faithful(m)
    ensures Remember(AfterWake(p, c, s, ScanFrom(p, c, s, limit, advanced, m.snapshot)), PlainLoop(p, c, t), Watch(p, c, t, m))
  {
    StoppedScan(p, c, s, t, limit, advanced, m.snapshot);
    hide Finite, Faithful, PlainMemory;
  }

  lemma EndRemembers<E(!new)>(p: Port<E>, c: HbtConfig, s: Run<E>, t: Run<E>, limit: int, advanced: nat, m: Memory)
    requires Finite(p) && ValidConfig(c) && !c.eventClock && SameButLast(s, t) && !Exhausted(c, s)
    requires limit < 0 || advanced < limit
    requires s.last == m.visited && t.last == PlainMemory(m) && Faithful(m) && !p.advance(s.hbt, c.stepNs).0
    ensures Remember(AfterWake(p, c, s, ScanFrom(p, c, s, limit, advanced, m.snapshot)), PlainLoop(p, c, t), Watch(p, c, t, m))
  {
    hide Faithful, PlainMemory;
  }

  lemma WakeUpRemembers<E(!new)>(
    p: Port<E>, c: HbtConfig, s: Run<E>, t: Run<E>, limit: int, advanced: nat, m: Memory)
    requires Finite(p) && ValidConfig(c) && !c.eventClock && UnambiguousClock(p) && ClocksTagged(p)
    requires SameButLast(s, t) && !Exhausted(c, s) && s.last == m.visited && t.last == PlainMemory(m)
    requires if c.maxSteps.Some? then limit - advanced == c.maxSteps.value - s.step else limit == -1
    requires Faithful(m) && p.advance(s.hbt, c.stepNs).0 && WakesAt(p, c, Stepped(p, c, s))
    ensures Remember(AfterWake(p, c, s, ScanFrom(p, c, s, limit, advanced, m.snapshot)),
                     PlainLoop(p, c, Visit(p, c, Stepped(p, c, t))),
                     Watch(p, c, Visit(p, c, Stepped(p, c, t)), Observe(p, c, Stepped(p, c, t), m)))
    decreases p.remaining(s.hbt), 0, 0
  {
    var s1, t1 := Stepped(p, c, s), Stepped(p, c, t);
    WakeStep(p, c, s, limit, advanced, m.snapshot);
    VisitConsumes(p, c, s1);
    ObserveWakeUp(p, c, t1, m, t1.hbt);
    VisitRemembers(p, c, s1);
    VisitRemembers(p, c, t1);
    if CurrentMarket(p, s1.hbt).Some? {
      VisitIgnoresLast(p, c, s1, t1);
    }
    LoopsRemember(p, c, Visit(p, c, s1), Visit(p, c, t1), Observe(p, c, t1, m));
  }

  // ---------------------------------------------------------------- when the forced rows agree

  /** Nothing is forced: the last step has a market row already. */
  predicate LastStepRecorded<E>(r: Run<E>) {
    r.marketRows != [] && r.marketRows[|r.marketRows| - 1].step == r.step
  }

  /** The last finite books of the last scan are uncrossed; and if that scan saw none, no other market
      was dropped since the one last acted on. */
  predicate SameFinalMarket(m: Memory) {
    if m.snapshot.books.Some? then UncrossedBooks(m.snapshot.books.value)
    else m.dropped.None? || m.dropped == m.visited
  }

  lemma SameFinalMarketIff(m: Memory)
    requires Faithful(m)
    ensures ScannedMemory(m) == PlainMemory(m) <==> SameFinalMarket(m)
  {
  }

  /** Over whole runs, from any state: the two runs end with the same market rows exactly when the last
      step is recorded anyway or the last scan leaves the same market; everything else agrees. */
  lemma FinalRowAgreesIff<E(!new)>(p: Port<E>, c: HbtConfig, s: Run<E>)
    requires Finite(p) && ValidConfig(c) && !c.eventClock && UnambiguousClock(p) && ClocksTagged(p)
    requires s.last.Some? ==> UncrossedMarket(s.last.value)
    ensures
      var r := RunScanned(p, c, s);
      && r.Ok?
      && r.value.(last := None, marketRows := []) == RunPlain(p, c, s).(last := None, marketRows := [])
      && (r.value.marketRows == RunPlain(p, c, s).marketRows
          <==> LastStepRecorded(PlainLoop(p, c, s)) || SameFinalMarket(Watch(p, c, s, NewMemory(s.last))))
  {
    var m := Watch(p, c, s, NewMemory(s.last));
    ScannerRefinesPlainLoop(p, c, s);
    LoopsRemember(p, c, s, s, NewMemory(s.last));
    SameFinalMarketIff(m);
    hide ScannedLoop, PlainLoop, Watch, Finite, UnambiguousClock, ClocksTagged;
    ForcedRows(p, c, ScannedLoop(p, c, s).value, PlainLoop(p, c, s));
  }

  /** The forced rows tell two different remembered markets apart. */
  lemma ForcedRows<E>(p: Port<E>, c: HbtConfig, r: Run<E>, t: Run<E>)
    requires SameButLast(r, t)
    ensures
      var a, b := RecordFinalMarket(p, c, r), RecordFinalMarket(p, c, t);
      && a.(last := None, marketRows := []) == b.(last := None, marketRows := [])
      && (a.marketRows == b.marketRows <==> LastStepRecorded(t) || r.last == t.last)
  {
    var a, b := RecordFinalMarket(p, c, r), RecordFinalMarket(p, c, t);
    if !LastStepRecorded(t) && r.last.Some? && t.last.Some? {
      assert a.marketRows[|t.marketRows|].market == r.last.value;
      assert b.marketRows[|t.marketRows|].market == t.last.value;
    }
  }

  // ---------------------------------------------------------------- two feeds on which the rows differ

  /** `steps` steps of data; the future book is crossed at the last. */
  function CrossedFeed(steps: nat): Port<int> {
    Port(
      (e: int) => if e <= 0 then 1_000_000_000_000_000_000 else 1_000_000_000_000_000_000 + e,
      (e: int, l: Leg) => Some(
        if l.Stock? then Depth(99.0, 100.0, 1.0, 1.0)
        else if e < steps then Depth(100.0, 101.0, 1.0, 1.0)
        else Depth(101.0, 100.0, 1.0, 1.0)),
      (e: int, l: Leg) => None,
      (e: int, d: int) => if e < steps then (true, e + 1) else (false, e),
      (e: int) => (false, e),
      (e: int, r: OrderRequest) => (0, e),
      (e: int, l: Leg, i: int, t: int) => (0, e),
      (e: int, l: Leg, i: int) => None,
      (e: int, l: Leg, i: int, t: int) => e,
      (e: int, l: Leg) => e,
      (e: int) => if e < steps then steps - e else 0,
      (e: int, l: Leg) => 0)
  }

  function QuietPair(): PairConfig {
    PairConfig(
      "pair", "spot", "future", 1, 1, 1, 1, 1, 10.0, 0.0, -10.0, 1.0, Models.Lte, None, 0.0, 0.0, None, None,
      0.0, 0.0, 0.0, 1, false, 0.0, 0.0, 0.0, 0.0, Rod, 0.0, Rod, None, 0.0, Ioc,
      InitialPosition(0, Hold, None, None, None))
  }

  /** No signal ever; a market row every `interval` steps, if given. */
  function QuietConfig(interval: Option<int>): HbtConfig {
    HbtConfig(QuietPair(), Future, false, 1, 1, 0, NoWait, 0, 1, None, None, true, true, true, interval)
  }

  lemma CrossedFeedIsValid(steps: nat, interval: Option<int>)
    ensures
      var p := CrossedFeed(steps);
      Finite(p) && ValidConfig(QuietConfig(interval)) && UnambiguousClock(p) && ClocksTagged(p)
  {
  }

  /** The quiet pair never signals at these books. */
  lemma QuietHolds(steps: nat, interval: Option<int>, s: Run<int>)
    requires s.position == BuildInitialPosition(QuietPair())
    ensures WakesAt(CrossedFeed(steps), QuietConfig(interval), s) <==> PeriodicStep(QuietConfig(interval), s.step)
  {
    CrossedFeedIsValid(steps, interval);
    hide Finite, UnambiguousClock, ClocksTagged;
  }

  lemma FeedMarket(steps: nat, e: int)
    ensures CurrentMarket(CrossedFeed(steps), e).None? <==> e >= steps
  {
  }

  /** One step of the quiet pair: nothing is recorded, only remembered. */
  lemma QuietStep(steps: nat, interval: Option<int>, s: Run<int>, m: Memory)
    requires s.position == BuildInitialPosition(QuietPair()) && 0 <= s.hbt < steps
    requires PeriodicStep(QuietConfig(interval), s.step + 1) ==> s.hbt + 1 == steps
    ensures
      var p, c := CrossedFeed(steps), QuietConfig(interval);
      var s1 := Stepped(p, c, s);
      var crossed := s.hbt + 1 == steps;
      && Finite(p) && ValidConfig(c)
      && CurrentMarket(p, s1.hbt).None? == crossed
      && Watch(p, c, s, m) == Watch(p, c, s1.(last := if crossed then s.last else CurrentMarket(p, s1.hbt)), Observe(p, c, s1, m))
      && PlainLoop(p, c, s) == PlainLoop(p, c, s1.(last := if crossed then s.last else CurrentMarket(p, s1.hbt)))
      && (WakesAt(p, c, s1) <==> PeriodicStep(c, s1.step))
  {
    var p, c := CrossedFeed(steps), QuietConfig(interval);
    var s1 := Stepped(p, c, s);
    CrossedFeedIsValid(steps, interval);
    hide Watch, PlainLoop, Observe, Visit, WakesAt, Finite, ClocksTagged;
    QuietHolds(steps, interval, s1);
    StepUnfolds(p, c, s, m);
    FeedMarket(steps, s.hbt + 1);
    hide CurrentMarket;
    if !PeriodicStep(c, s1.step) {
      SkippedStepHolds(p, c, s1);
    } else {
      NoVisit(p, c, s1);
    }
  }

  lemma NoVisit<E(!new)>(p: Port<E>, c: HbtConfig, s: Run<E>)
    requires Finite(p) && ValidPair(c.pair) && CurrentMarket(p, s.hbt).None?
    ensures Visit(p, c, s) == s
  {
  }

  lemma QuietEnd(steps: nat, interval: Option<int>, s: Run<int>, m: Memory)
    requires s.hbt == steps
    ensures
      var p, c := CrossedFeed(steps), QuietConfig(interval);
      && Finite(p) && ValidConfig(c)
      && Watch(p, c, s, m) == m && PlainLoop(p, c, s).marketRows == s.marketRows
  {
    CrossedFeedIsValid(steps, interval);
    hide Finite, UnambiguousClock, ClocksTagged;
  }

  /** The two runs force different rows on the feed. */
  ghost predicate RowsDiffer(p: Port<int>, c: HbtConfig) {
    && Finite(p) && ValidConfig(c)
    && RunScanned(p, c, Start(c, 0)).Ok?
    && RunScanned(p, c, Start(c, 0)).value.marketRows != RunPlain(p, c, Start(c, 0)).marketRows
  }

  lemma RowsDifferIf(steps: nat, interval: Option<int>)
    requires Finite(CrossedFeed(steps)) && ValidConfig(QuietConfig(interval))
    requires
      var p, c := CrossedFeed(steps), QuietConfig(interval);
      PlainLoop(p, c, Start(c, 0)).marketRows == [] && !SameFinalMarket(Watch(p, c, Start(c, 0), NewMemory(None)))
    ensures RowsDiffer(CrossedFeed(steps), QuietConfig(interval))
  {
    CrossedFeedIsValid(steps, interval);
    hide Finite, UnambiguousClock, ClocksTagged, RunScanned, RunPlain, Watch, PlainLoop, SameFinalMarket;
    FinalRowAgreesIff(CrossedFeed(steps), QuietConfig(interval), Start(QuietConfig(interval), 0));
  }

  /** A crossed last book: the scanner-driven run records a market row the plain run does not. */
  lemma CrossedLastBookDiffers()
    ensures RowsDiffer(CrossedFeed(1), QuietConfig(None))
  {
    var p, c := CrossedFeed(1), QuietConfig(None);
    var s := Start(c, 0);
    QuietStep(1, None, s, NewMemory(None));
    var s1 := Stepped(p, c, s);
    QuietEnd(1, None, s1, Observe(p, c, s1, NewMemory(None)));
    hide RowsDiffer, Watch, PlainLoop, WakesAt;
    RowsDifferIf(1, None);
  }

  /** A crossed wake-up: the scanner-driven run drops the uncrossed market of the step before and
      records nothing at the end, the plain run records it. */
  lemma CrossedWakeUpDiffers()
    ensures RowsDiffer(CrossedFeed(2), QuietConfig(Some(2)))
  {
    var p, c := CrossedFeed(2), QuietConfig(Some(2));
    var s := Start(c, 0);
    QuietStep(2, Some(2), s, NewMemory(None));
    hide RowsDiffer, Watch, PlainLoop, WakesAt;
    var s1 := Stepped(p, c, s);
    var t1, m1 := s1.(last := CurrentMarket(p, s1.hbt)), Observe(p, c, s1, NewMemory(None));
    QuietStep(2, Some(2), t1, m1);
    var s2 := Stepped(p, c, t1);
    QuietEnd(2, Some(2), s2, Observe(p, c, s2, m1));
    RowsDifferIf(2, Some(2));
  }
}
