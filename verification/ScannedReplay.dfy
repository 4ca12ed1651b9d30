/** The scanner-driven loop, and the proof that skipping HOLD spans changes nothing. */
module ScannedReplay {
  import opened Wrappers
  import opened Models
  import opened Ticks
  import opened Scanner
  import opened Replay

  datatype WakeReason = EndOfData | SignalFound | PeriodicRecord | MaxSteps

  /** The last finite books the scanner saw, with -1 where it has seen no clock or feed time. */
  datatype Snapshot = Snapshot(
    timestamp: int, books: Option<(Depth, Depth)>, spotFeed: (int, int), futureFeed: (int, int))

  const NO_SNAPSHOT := Snapshot(-1, None, (-1, -1), (-1, -1))

  datatype Wake<!E> = Wake(reason: WakeReason, step: nat, code: int, snapshot: Snapshot, hbt: E)

  function TakeSnapshot<E>(p: Port<E>, e: E, previous: Snapshot, spot: Depth, future: Depth): Snapshot {
    Snapshot(
      p.now(e), Some((spot, future)),
      if p.feedLatency(e, Stock).Some? then p.feedLatency(e, Stock).value else previous.spotFeed,
      if p.feedLatency(e, Future).Some? then p.feedLatency(e, Future).value else previous.futureFeed)
  }

  function ScanCode<E>(p: Port<E>, q: ScanParameters, e: E, spot: Depth, future: Depth): int
    requires q.spotShares > 0 && q.futureShares > 0
  {
    SignalFromPricing(q, PricingFromBbo(q, spot.bid, spot.ask, future.bid, future.ask, p.now(e)))
  }

  /** scan_until_wakeup, with `advanced` steps already taken of the `limit` (-1: unlimited). */
  function Scan<E(!new)>(
    p: Port<E>, q: ScanParameters, stepNs: int, interval: int, limit: int,
    e: E, step: nat, advanced: nat, snapshot: Snapshot): (w: Wake<E>)
    requires Finite(p) && stepNs > 0 && q.spotShares > 0 && q.futureShares > 0
    ensures p.remaining(w.hbt) <= p.remaining(e)
    ensures w.reason.SignalFound? || w.reason.PeriodicRecord? ==> p.remaining(w.hbt) < p.remaining(e)
    decreases p.remaining(e)
  {
    if limit >= 0 && advanced >= limit then Wake(MaxSteps, step, SIGNAL_HOLD, snapshot, e)
    else
      var (ok, e') := p.advance(e, stepNs);
      if !ok then Wake(EndOfData, step, SIGNAL_HOLD, snapshot, e')
      else
        var spot, future := p.depth(e', Stock), p.depth(e', Future);
        if spot.None? || future.None? then
          Scan(p, q, stepNs, interval, limit, e', step + 1, advanced + 1, snapshot)
        else
          var seen := TakeSnapshot(p, e', snapshot, spot.value, future.value);
          var code := ScanCode(p, q, e', spot.value, future.value);
          if code != SIGNAL_HOLD then Wake(SignalFound, step + 1, code, seen, e')
          else if interval > 0 && (step + 1) % interval == 0 then Wake(PeriodicRecord, step + 1, SIGNAL_HOLD, seen, e')
          else Scan(p, q, stepNs, interval, limit, e', step + 1, advanced + 1, seen)
  }

  /** A feed once seen in a scan is not forgotten while the leg reports none. */
  lemma {:induction false} FeedsAreKept<E(!new)>(
    p: Port<E>, q: ScanParameters, stepNs: int, interval: int, limit: int, e: E, step: nat, advanced: nat, snapshot: Snapshot,
    known: (int, int) -> bool)
    requires Finite(p) && stepNs > 0 && q.spotShares > 0 && q.futureShares > 0
    requires forall e, leg :: p.feedLatency(e, leg).Some? ==> known(p.feedLatency(e, leg).value.0, p.feedLatency(e, leg).value.1)
    ensures
      var w := Scan(p, q, stepNs, interval, limit, e, step, advanced, snapshot);
      && (known(snapshot.spotFeed.0, snapshot.spotFeed.1) ==> known(w.snapshot.spotFeed.0, w.snapshot.spotFeed.1))
      && (known(snapshot.futureFeed.0, snapshot.futureFeed.1) ==> known(w.snapshot.futureFeed.0, w.snapshot.futureFeed.1))
    decreases p.remaining(e)
  {
    hide ScanCode;
    if !(limit >= 0 && advanced >= limit) {
      var (ok, e') := p.advance(e, stepNs);
      if ok {
        var spot, future := p.depth(e', Stock), p.depth(e', Future);
        var seen := if spot.None? || future.None? then snapshot else TakeSnapshot(p, e', snapshot, spot.value, future.value);
        FeedsAreKept(p, q, stepNs, interval, limit, e', step + 1, advanced + 1, seen, known);
      }
    }
  }

  function FeedFromSnapshot(feed: (int, int)): Option<(int, int)> {
    if feed.0 >= 0 then Some(feed) else None
  }

  function QuoteFromSnapshot(depth: Depth, timestamp: int, feed: (int, int)): Quote {
    Quote(depth.bid, depth.ask, depth.bidSize, depth.askSize, timestamp, FeedFromSnapshot(feed))
  }

  /** _market_from_numba_snapshot: it checks that values exist, not that the books are uncrossed. */
  function MarketFromSnapshot(w: Snapshot): Option<PairMarket> {
    if w.timestamp < 0 || w.books.None? then None
    else Some(PairMarket(
      QuoteFromSnapshot(w.books.value.0, w.timestamp, w.spotFeed),
      QuoteFromSnapshot(w.books.value.1, w.timestamp, w.futureFeed)))
  }

  function Interval(c: HbtConfig): int {
    if c.recordMarketEverySteps.Some? then c.recordMarketEverySteps.value else 0
  }

  function StepLimit<E>(c: HbtConfig, s: Run<E>): int {
    if c.maxSteps.Some? then c.maxSteps.value - s.step else -1
  }

  function ScanFrom<E(!new)>(p: Port<E>, c: HbtConfig, s: Run<E>, limit: int, advanced: nat, snapshot: Snapshot): (w: Wake<E>)
    requires Finite(p) && ValidConfig(c)
    ensures p.remaining(w.hbt) <= p.remaining(s.hbt)
    ensures w.reason.SignalFound? || w.reason.PeriodicRecord? ==> p.remaining(w.hbt) < p.remaining(s.hbt)
  {
    Scan(p, ParametersOf(c.pair, s.position), c.stepNs, Interval(c), limit, s.hbt, s.step, advanced, snapshot)
  }

  datatype ReplayError = SignalMismatch

  /** The scanner-driven loop, without the final market row. */
  function ScannedLoop<E(!new)>(p: Port<E>, c: HbtConfig, s: Run<E>): Result<Run<E>, ReplayError>
    requires Finite(p) && ValidConfig(c)
    decreases p.remaining(s.hbt), 1
  {
    if Exhausted(c, s) then Ok(s)
    else AfterWake(p, c, s, ScanFrom(p, c, s, StepLimit(c, s), 0, NO_SNAPSHOT))
  }

  /** One wake-up: stop on the end of data or steps, otherwise recheck the signal in Python and act. */
  function AfterWake<E(!new)>(p: Port<E>, c: HbtConfig, s: Run<E>, w: Wake<E>): Result<Run<E>, ReplayError>
    requires Finite(p) && ValidConfig(c)
    requires p.remaining(w.hbt) <= p.remaining(s.hbt)
    requires w.reason.SignalFound? || w.reason.PeriodicRecord? ==> p.remaining(w.hbt) < p.remaining(s.hbt)
    decreases p.remaining(s.hbt), 0
  {
    var s1 := s.(hbt := w.hbt, step := w.step);
    if w.reason.EndOfData? || w.reason.MaxSteps? then
      var market := MarketFromSnapshot(w.snapshot);
      Ok(s1.(last := if market.Some? then market else s.last))
    else
      var current := CurrentMarket(p, s1.hbt);
      if current.None? then ScannedLoop(p, c, s1)
      else if Some(DecideRun(c, s1, current.value).action) != SignalFromCode(w.code) then Err(SignalMismatch)
      else
        VisitConsumes(p, c, s1);
        ScannedLoop(p, c, Visit(p, c, s1))
  }

  function RunScanned<E(!new)>(p: Port<E>, c: HbtConfig, s: Run<E>): Result<Run<E>, ReplayError>
    requires Finite(p) && ValidConfig(c)
  {
    var r := ScannedLoop(p, c, s);
    if r.Err? then r else Ok(RecordFinalMarket(p, c, r.value))
  }

  // ---------------------------------------------------------------- refinement

  /** Equal but for the market remembered for the final row. */
  predicate SameButLast<E(==)>(a: Run<E>, b: Run<E>) { a.(last := None) == b.(last := None) }

  /** Every clock value the engine shows is read as nanoseconds by both schedule choices. */
  ghost predicate UnambiguousClock<E(!new)>(p: Port<E>) { forall e :: !AmbiguousClock(p.now(e)) }

  /** What the snapshot needs to reproduce a quote: no crossed book, nonnegative clocks, and a feed
      time that stays known once it is known. */
  ghost predicate SnapshotFaithful<E(!new)>(p: Port<E>) {
    && (forall e, l :: p.depth(e, l).Some? ==> p.depth(e, l).value.bid < p.depth(e, l).value.ask)
    && ClocksTagged(p)
  }

  ghost predicate ClocksTagged<E(!new)>(p: Port<E>) {
    && (forall e :: p.now(e) >= 0)
    && (forall e, l :: p.feedLatency(e, l).Some? ==> p.feedLatency(e, l).value.0 >= 0)
    && (forall e, d, l :: p.feedLatency(e, l).Some? ==> p.feedLatency(p.advance(e, d).1, l).Some?)
  }

  /** The feed times in a snapshot are still known to the engine. */
  ghost predicate FeedsCurrent<E(!new)>(p: Port<E>, e: E, snapshot: Snapshot) {
    && (snapshot.spotFeed.0 >= 0 ==> p.feedLatency(e, Stock).Some?)
    && (snapshot.futureFeed.0 >= 0 ==> p.feedLatency(e, Future).Some?)
  }

  function Remembered(last: Option<PairMarket>, snapshot: Snapshot): Option<PairMarket> {
    if MarketFromSnapshot(snapshot).Some? then MarketFromSnapshot(snapshot) else last
  }

  /** The scanner's code at an uncrossed book is the code of the Python decision there. */
  lemma CodeAgrees<E(!new)>(p: Port<E>, c: HbtConfig, s: Run<E>, market: PairMarket)
    requires ValidPair(c.pair) && !AmbiguousClock(p.now(s.hbt))
    requires CurrentMarket(p, s.hbt) == Some(market)
    ensures ScanCode(p, ParametersOf(c.pair, s.position), s.hbt, p.depth(s.hbt, Stock).value, p.depth(s.hbt, Future).value)
         == SignalCode(DecideRun(c, s, market).action)
  {
  }

  /** A step the scanner skips is a HOLD that records nothing in the plain loop. */
  lemma SkippedStepHolds<E(!new)>(p: Port<E>, c: HbtConfig, s: Run<E>)
    requires Finite(p) && ValidPair(c.pair) && !AmbiguousClock(p.now(s.hbt))
    requires
      || p.depth(s.hbt, Stock).None? || p.depth(s.hbt, Future).None?
      || (&& ScanCode(p, ParametersOf(c.pair, s.position), s.hbt, p.depth(s.hbt, Stock).value, p.depth(s.hbt, Future).value) == SIGNAL_HOLD
          && !PeriodicStep(c, s.step))
    ensures Visit(p, c, s) == s.(last := if CurrentMarket(p, s.hbt).Some? then CurrentMarket(p, s.hbt) else s.last)
  {
    var current := CurrentMarket(p, s.hbt);
    if current.Some? {
      CodeAgrees(p, c, s, current.value);
    }
  }

  /** Visits do not read the remembered market, and a visited market replaces it. */
  lemma VisitIgnoresLast<E(!new)>(p: Port<E>, c: HbtConfig, s: Run<E>, t: Run<E>)
    requires Finite(p) && ValidPair(c.pair) && SameButLast(s, t)
    requires CurrentMarket(p, s.hbt).Some?
    ensures Visit(p, c, s) == Visit(p, c, t)
  {
  }

  /** Over a skipped step the remembered market follows the plain loop's. */
  lemma SkippedSnapshot<E(!new)>(p: Port<E>, e: E, stepNs: int, snapshot: Snapshot, last: Option<PairMarket>)
    requires SnapshotFaithful(p) && FeedsCurrent(p, e, snapshot)
    ensures
      var e' := p.advance(e, stepNs).1;
      var spot, future := p.depth(e', Stock), p.depth(e', Future);
      var seen := if spot.Some? && future.Some? then TakeSnapshot(p, e', snapshot, spot.value, future.value) else snapshot;
      && FeedsCurrent(p, e', seen)
      && Remembered(last, seen)
         == if CurrentMarket(p, e').Some? then CurrentMarket(p, e') else Remembered(last, snapshot)
  {
  }

  /** The state after one successful step of the clock. */
  function Stepped<E>(p: Port<E>, c: HbtConfig, s: Run<E>): Run<E> {
    s.(hbt := p.advance(s.hbt, c.stepNs).1, step := s.step + 1)
  }

  /** Whether the scanner stops at the books it sees now. */
  predicate WakesAt<E>(p: Port<E>, c: HbtConfig, s: Run<E>)
    requires ValidPair(c.pair)
  {
    var spot, future := p.depth(s.hbt, Stock), p.depth(s.hbt, Future);
    && spot.Some? && future.Some?
    && (ScanCode(p, ParametersOf(c.pair, s.position), s.hbt, spot.value, future.value) != SIGNAL_HOLD || PeriodicStep(c, s.step))
  }

  function SeenAt<E>(p: Port<E>, s: Run<E>, snapshot: Snapshot): Snapshot {
    var spot, future := p.depth(s.hbt, Stock), p.depth(s.hbt, Future);
    if spot.Some? && future.Some? then TakeSnapshot(p, s.hbt, snapshot, spot.value, future.value) else snapshot
  }

  /** A wake-up at the next step passes the recheck and continues from the visited state. */
  lemma WakeStep<E(!new)>(p: Port<E>, c: HbtConfig, s: Run<E>, limit: int, advanced: nat, snapshot: Snapshot)
    requires Finite(p) && ValidConfig(c) && UnambiguousClock(p)
    requires limit < 0 || advanced < limit
    requires p.advance(s.hbt, c.stepNs).0 && WakesAt(p, c, Stepped(p, c, s))
    ensures AfterWake(p, c, s, ScanFrom(p, c, s, limit, advanced, snapshot)) == ScannedLoop(p, c, Visit(p, c, Stepped(p, c, s)))
  {
    var s1 := Stepped(p, c, s);
    var w := ScanFrom(p, c, s, limit, advanced, snapshot);
    assert w.hbt == s1.hbt && w.step == s1.step && (w.reason.SignalFound? || w.reason.PeriodicRecord?);
    var current := CurrentMarket(p, s1.hbt);
    if current.Some? {
      CodeAgrees(p, c, s1, current.value);
    }
  }

  /** A skipped step leaves the scan to continue from the stepped state. */
  lemma SkipStep<E(!new)>(p: Port<E>, c: HbtConfig, s: Run<E>, limit: int, advanced: nat, snapshot: Snapshot)
    requires Finite(p) && ValidConfig(c)
    requires limit < 0 || advanced < limit
    requires p.advance(s.hbt, c.stepNs).0 && !WakesAt(p, c, Stepped(p, c, s))
    ensures
      var s1 := Stepped(p, c, s);
      AfterWake(p, c, s, ScanFrom(p, c, s, limit, advanced, snapshot))
      == AfterWake(p, c, s1, ScanFrom(p, c, s1, limit, advanced + 1, SeenAt(p, s1, snapshot)))
  {
    var s1 := Stepped(p, c, s);
    assert ScanFrom(p, c, s, limit, advanced, snapshot) == ScanFrom(p, c, s1, limit, advanced + 1, SeenAt(p, s1, snapshot));
  }

  /** The two loops agree from states that agree. */
  lemma LoopsAgree<E(!new)>(p: Port<E>, c: HbtConfig, s: Run<E>, t: Run<E>, faithful: bool)
    requires Finite(p) && ValidConfig(c) && !c.eventClock && UnambiguousClock(p)
    requires SameButLast(s, t)
    requires faithful ==> SnapshotFaithful(p) && s == t
    ensures
      var r := ScannedLoop(p, c, s);
      r.Ok? && SameButLast(r.value, PlainLoop(p, c, t)) && (faithful ==> r.value == PlainLoop(p, c, t))
    decreases p.remaining(s.hbt), 1
  {
    if !Exhausted(c, s) {
      Simulates(p, c, s, t, StepLimit(c, s), 0, NO_SNAPSHOT, faithful);
    }
  }

  /** Simulation from the middle of a scan: `s` drives the scanner, `t` the plain loop. With
      `faithful` the remembered markets agree too. */
  lemma {:induction false} Simulates<E(!new)>(
    p: Port<E>, c: HbtConfig, s: Run<E>, t: Run<E>, limit: int, advanced: nat, snapshot: Snapshot, faithful: bool)
    requires Finite(p) && ValidConfig(c) && !c.eventClock && UnambiguousClock(p)
    requires SameButLast(s, t) && !Exhausted(c, s)
    requires if c.maxSteps.Some? then limit - advanced == c.maxSteps.value - s.step else limit == -1
    requires faithful ==> SnapshotFaithful(p) && FeedsCurrent(p, s.hbt, snapshot) && t.last == Remembered(s.last, snapshot)
    ensures
      var r := AfterWake(p, c, s, ScanFrom(p, c, s, limit, advanced, snapshot));
      r.Ok? && SameButLast(r.value, PlainLoop(p, c, t)) && (faithful ==> r.value == PlainLoop(p, c, t))
    decreases p.remaining(s.hbt), 0
  {
    hide AfterWake, Scan, PlainLoop, Visit, SeenAt, WakesAt;
    if p.advance(s.hbt, c.stepNs).0 {
      var s1 := Stepped(p, c, s);
      var t2 := Visit(p, c, Stepped(p, c, t));
      if WakesAt(p, c, s1) {
        BothWake(p, c, s, t, limit, advanced, snapshot);
        LoopsAgree(p, c, Visit(p, c, s1), t2, faithful);
      } else {
        BothSkip(p, c, s, t, limit, advanced, snapshot);
        if faithful {
          SkippedFaithfully(p, c, s, t, snapshot);
        }
        if Exhausted(c, s1) {
          StoppedScan(p, c, s1, t2, limit, advanced + 1, SeenAt(p, s1, snapshot));
        } else {
          Simulates(p, c, s1, t2, limit, advanced + 1, SeenAt(p, s1, snapshot), faithful);
        }
      }
    } else {
      ScanEnds(p, c, s, limit, advanced, snapshot);
      PlainLoopNext(p, c, t);
    }
  }

  /** The end of data inside a scan ends the run with the snapshot remembered. */
  lemma ScanEnds<E(!new)>(p: Port<E>, c: HbtConfig, s: Run<E>, limit: int, advanced: nat, snapshot: Snapshot)
    requires Finite(p) && ValidConfig(c) && (limit < 0 || advanced < limit)
    requires !p.advance(s.hbt, c.stepNs).0
    ensures AfterWake(p, c, s, ScanFrom(p, c, s, limit, advanced, snapshot))
         == Ok(s.(hbt := p.advance(s.hbt, c.stepNs).1, last := Remembered(s.last, snapshot)))
  {
  }

  /** A wake-up takes both loops through the same visit. */
  lemma BothWake<E(!new)>(p: Port<E>, c: HbtConfig, s: Run<E>, t: Run<E>, limit: int, advanced: nat, snapshot: Snapshot)
    requires Finite(p) && ValidConfig(c) && !c.eventClock && UnambiguousClock(p)
    requires SameButLast(s, t) && !Exhausted(c, s) && (limit < 0 || advanced < limit)
    requires p.advance(s.hbt, c.stepNs).0 && WakesAt(p, c, Stepped(p, c, s))
    ensures
      var s2, t2 := Visit(p, c, Stepped(p, c, s)), Visit(p, c, Stepped(p, c, t));
      && AfterWake(p, c, s, ScanFrom(p, c, s, limit, advanced, snapshot)) == ScannedLoop(p, c, s2)
      && PlainLoop(p, c, t) == PlainLoop(p, c, t2)
      && SameButLast(s2, t2) && p.remaining(s2.hbt) < p.remaining(s.hbt)
      && (SnapshotFaithful(p) ==> s2 == t2)
  {
    var s1, t1 := Stepped(p, c, s), Stepped(p, c, t);
    WakeStep(p, c, s, limit, advanced, snapshot);
    VisitConsumes(p, c, s1);
    PlainLoopNext(p, c, t);
    if CurrentMarket(p, s1.hbt).Some? {
      VisitIgnoresLast(p, c, s1, t1);
    } else {
      NoMarketNoVisit(p, c, s1);
      NoMarketNoVisit(p, c, t1);
    }
  }

  /** A skipped step leaves both loops where they were, one step later. */
  lemma BothSkip<E(!new)>(p: Port<E>, c: HbtConfig, s: Run<E>, t: Run<E>, limit: int, advanced: nat, snapshot: Snapshot)
    requires Finite(p) && ValidConfig(c) && !c.eventClock && UnambiguousClock(p)
    requires SameButLast(s, t) && !Exhausted(c, s) && (limit < 0 || advanced < limit)
    requires p.advance(s.hbt, c.stepNs).0 && !WakesAt(p, c, Stepped(p, c, s))
    ensures
      var s1, t2 := Stepped(p, c, s), Visit(p, c, Stepped(p, c, t));
      && AfterWake(p, c, s, ScanFrom(p, c, s, limit, advanced, snapshot))
         == AfterWake(p, c, s1, ScanFrom(p, c, s1, limit, advanced + 1, SeenAt(p, s1, snapshot)))
      && PlainLoop(p, c, t) == PlainLoop(p, c, t2)
      && SameButLast(s1, t2)
  {
    hide AfterWake, ScanFrom, PlainLoop, Visit, SeenAt;
    SkipStep(p, c, s, limit, advanced, snapshot);
    PlainLoopNext(p, c, t);
    SkippedStepHolds(p, c, Stepped(p, c, t));
  }

  /** Over a skipped step the snapshot still holds the market the plain loop remembers. */
  lemma SkippedFaithfully<E(!new)>(p: Port<E>, c: HbtConfig, s: Run<E>, t: Run<E>, snapshot: Snapshot)
    requires Finite(p) && ValidConfig(c) && UnambiguousClock(p) && SnapshotFaithful(p)
    requires SameButLast(s, t) && !WakesAt(p, c, Stepped(p, c, s))
    requires FeedsCurrent(p, s.hbt, snapshot) && t.last == Remembered(s.last, snapshot)
    ensures
      var s1, t2 := Stepped(p, c, s), Visit(p, c, Stepped(p, c, t));
      FeedsCurrent(p, s1.hbt, SeenAt(p, s1, snapshot)) && t2.last == Remembered(s1.last, SeenAt(p, s1, snapshot))
  {
    SkippedStepHolds(p, c, Stepped(p, c, t));
    SkippedSnapshot(p, s.hbt, c.stepNs, snapshot, s.last);
  }

  /** Running out of steps inside a scan returns the state with the snapshot remembered. */
  lemma StoppedScan<E(!new)>(
    p: Port<E>, c: HbtConfig, s: Run<E>, t: Run<E>, limit: int, advanced: nat, snapshot: Snapshot)
    requires Finite(p) && ValidConfig(c) && SameButLast(s, t)
    requires limit >= 0 && advanced >= limit
    requires Exhausted(c, s)
    ensures AfterWake(p, c, s, ScanFrom(p, c, s, limit, advanced, snapshot))
         == Ok(s.(last := Remembered(s.last, snapshot)))
    ensures PlainLoop(p, c, t) == t
  {
  }

  // ---------------------------------------------------------------- main results

  /** Skipping HOLD spans is invisible: from any state, the scanner-driven loop never meets its
      mismatch error and ends with the plain loop's engine, step, position, order counter, trade
      and skip rows, and signal and periodic market rows. */
  lemma ScannerRefinesPlainLoop<E(!new)>(p: Port<E>, c: HbtConfig, s: Run<E>)
    requires Finite(p) && ValidConfig(c) && !c.eventClock && UnambiguousClock(p)
    ensures
      var r := ScannedLoop(p, c, s);
      r.Ok? && SameButLast(r.value, PlainLoop(p, c, s))
  {
    LoopsAgree(p, c, s, s, false);
  }

  /** Over uncrossed books the forced final market row agrees as well. */
  lemma ScannedRunEqualsPlainRun<E(!new)>(p: Port<E>, c: HbtConfig, s: Run<E>)
    requires Finite(p) && ValidConfig(c) && !c.eventClock && UnambiguousClock(p) && SnapshotFaithful(p)
    ensures RunScanned(p, c, s) == Ok(RunPlain(p, c, s))
  {
    LoopsAgree(p, c, s, s, true);
  }
}
