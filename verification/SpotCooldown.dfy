/** One coordinator interleaves the sessions of a spot group under one shared entry cooldown. */
module SpotCooldown {
  import opened Wrappers
  import opened Models
  import opened Replay
  import opened CoordinatedSession

  /** A session of the group. Members stand in run-key order, so an index is a run key.
      `exposed` is every event the session has exposed so far. */
  datatype Member<!E> = Member(
    port: Port<E>, config: HbtConfig, run: Run<E>, pending: Option<Pending>, exposed: seq<CoordinatedEvent>)

  datatype Resolution = Resolution(member: nat, event: CoordinatedEvent, blocked: bool, filled: bool)

  datatype Group<!E> = Group(members: seq<Member<E>>, lastEntryNs: Option<int>, log: seq<Resolution>)

  function CooldownNs(c: HbtConfig): int { RoundHalfEven(c.pair.minEntryIntervalSec * 1_000_000_000.0) }

  /** The cooldown is the configured seconds in nanoseconds, to the nearest one. */
  lemma CooldownIsSeconds(c: HbtConfig)
    ensures CooldownNs(c) as real - 0.5 <= c.pair.minEntryIntervalSec * 1_000_000_000.0 <= CooldownNs(c) as real + 0.5
  {
  }

  /** What the runner checks before it coordinates a group. */
  ghost predicate SharedGroup<E(!new)>(g: Group<E>, cooldownNs: int) {
    forall i :: 0 <= i < |g.members| ==>
      && Finite(g.members[i].port) && Clocked(g.members[i].port)
      && StampsRequests(g.members[i].port, g.members[i].config)
      && ValidPair(g.members[i].config.pair)
      && CooldownNs(g.members[i].config) == cooldownNs
      && (g.members[i].pending.Some? ==> Answers(g.members[i].port, g.members[i].run, g.members[i].pending.value))
  }

  predicate Waiting<E>(g: Group<E>, i: int) { 0 <= i < |g.members| && g.members[i].pending.Some? }

  function EventTime<E>(g: Group<E>, i: int): int
    requires Waiting(g, i)
  {
    g.members[i].pending.value.event.timestampNs
  }

  /** Heap order: the earliest event first, the smaller run key among equals. */
  ghost predicate IsNext<E>(g: Group<E>, i: int) {
    && Waiting(g, i)
    && (forall j :: Waiting(g, j) ==> EventTime(g, i) < EventTime(g, j) || (EventTime(g, i) == EventTime(g, j) && i <= j))
  }

  /** The head of the heap of pending events: -1 when it is empty. */
  function NextAmong<E>(g: Group<E>, count: nat): (i: int)
    requires count <= |g.members|
    ensures i < 0 ==> forall j :: 0 <= j < count ==> !Waiting(g, j)
    ensures i >= 0 ==> i < count && Waiting(g, i)
    ensures i >= 0 ==> forall j :: 0 <= j < count && Waiting(g, j) ==>
      EventTime(g, i) < EventTime(g, j) || (EventTime(g, i) == EventTime(g, j) && i <= j)
  {
    if count == 0 then -1
    else
      var i := NextAmong(g, count - 1);
      if !Waiting(g, count - 1) then i
      else if i < 0 || EventTime(g, count - 1) < EventTime(g, i) then count - 1
      else i
  }

  predicate CooldownBlocks(event: CoordinatedEvent, lastEntryNs: Option<int>, cooldownNs: int) {
    && IsEntry(event.signal) && event.shouldExecute && lastEntryNs.Some?
    && 0 <= event.timestampNs - lastEntryNs.value < cooldownNs
  }

  /** The fill time the coordinator reads back: the first leg's stamp, else the row's time. */
  function FillTimestamp(row: TradeRow): int {
    if row.first.Some? && row.first.value.localTimestamp.Some? then row.first.value.localTimestamp.value
    else row.timestamp
  }

  /** Resolve the head of the heap and let its session expose the next event. */
  function CoordinateStep<E(!new)>(g: Group<E>, i: int): Group<E>
    requires Waiting(g, i)
    requires Finite(g.members[i].port) && ValidPair(g.members[i].config.pair)
    requires Answers(g.members[i].port, g.members[i].run, g.members[i].pending.value)
  {
    var m := g.members[i];
    var w := m.pending.value;
    var blocked := CooldownBlocks(w.event, g.lastEntryNs, CooldownNs(m.config));
    var (filled, t) := ResolveSession(m.port, m.config, m.run, w, blocked);
    var last :=
      if !filled then g.lastEntryNs
      else
        var fillTime := FillTimestamp(t.rows[|t.rows| - 1]);
        Some(if g.lastEntryNs.None? then fillTime else MaxInt(g.lastEntryNs.value, fillTime));
    var (next, u) := AdvanceSession(m.port, m.config, t);
    var exposed := m.exposed + (if next.Some? then [next.value.event] else []);
    Group(g.members[i := m.(run := u, pending := next, exposed := exposed)], last,
          g.log + [Resolution(i, w.event, blocked, filled)])
  }

  // ---------------------------------------------------------------- termination

  function Work<E>(g: Group<E>, count: nat): nat
    requires count <= |g.members|
  {
    if count == 0 then 0
    else
      var m := g.members[count - 1];
      Work(g, count - 1) + (if m.pending.Some? then 1 + m.port.remaining(m.run.hbt) else 0)
  }

  lemma WorkDecreases<E>(g: Group<E>, h: Group<E>, i: nat, count: nat)
    requires i < count <= |g.members| == |h.members|
    requires forall j :: 0 <= j < |g.members| && j != i ==> h.members[j] == g.members[j]
    requires g.members[i].pending.Some?
    requires h.members[i].pending.Some? ==>
      h.members[i].port.remaining(h.members[i].run.hbt) < g.members[i].port.remaining(g.members[i].run.hbt)
    ensures Work(h, count) < Work(g, count)
  {
    if count - 1 == i {
      WorkUnchanged(g, h, count - 1);
    } else {
      WorkDecreases(g, h, i, count - 1);
    }
  }

  lemma WorkUnchanged<E>(g: Group<E>, h: Group<E>, count: nat)
    requires count <= |g.members| == |h.members|
    requires forall j :: 0 <= j < count ==> h.members[j] == g.members[j]
    ensures Work(h, count) == Work(g, count)
  {
  }

  lemma StepWorks<E(!new)>(g: Group<E>, i: int, cooldownNs: int)
    requires SharedGroup(g, cooldownNs) && Waiting(g, i)
    ensures SharedGroup(CoordinateStep(g, i), cooldownNs)
    ensures Work(CoordinateStep(g, i), |g.members|) < Work(g, |g.members|)
  {
    var m, h := g.members[i], CoordinateStep(g, i);
    var w := m.pending.value;
    var blocked := CooldownBlocks(w.event, g.lastEntryNs, CooldownNs(m.config));
    SessionConsumes(m.port, m.config, m.run, w, blocked);
    AdvanceAnswers(m.port, m.config, ResolveSession(m.port, m.config, m.run, w, blocked).1);
    WorkDecreases(g, h, i, |g.members|);
  }

  /** The coordinator's loop over the heap. */
  function Coordinate<E(!new)>(g: Group<E>, cooldownNs: int): Group<E>
    requires SharedGroup(g, cooldownNs)
    decreases Work(g, |g.members|)
  {
    var i := NextAmong(g, |g.members|);
    if i < 0 then g
    else
      StepWorks(g, i, cooldownNs);
      Coordinate(CoordinateStep(g, i), cooldownNs)
  }

  // ---------------------------------------------------------------- what every step keeps

  function EventsOf(log: seq<Resolution>, member: nat): seq<CoordinatedEvent> {
    if log == [] then []
    else
      var rest := EventsOf(log[..|log| - 1], member);
      if log[|log| - 1].member == member then rest + [log[|log| - 1].event] else rest
  }

  /** Every exposed event is resolved once, in its session's order, or is the one still pending. */
  ghost predicate ResolvedOnce<E>(g: Group<E>) {
    forall i :: 0 <= i < |g.members| ==>
      g.members[i].exposed == EventsOf(g.log, i) + (if Waiting(g, i) then [g.members[i].pending.value.event] else [])
  }

  /** Events are resolved in nondecreasing time, and nothing pending is earlier. */
  ghost predicate TimeOrdered<E>(g: Group<E>) {
    && (forall a, b :: 0 <= a <= b < |g.log| ==> g.log[a].event.timestampNs <= g.log[b].event.timestampNs)
    && (forall a, i :: 0 <= a < |g.log| && Waiting(g, i) ==> g.log[a].event.timestampNs <= EventTime(g, i))
  }

  /** Filled entries keep their distance, the latest is remembered, and only allowed entries are blocked. */
  ghost predicate EntriesSpaced(log: seq<Resolution>, lastEntryNs: Option<int>, cooldownNs: int) {
    && (forall a, b :: 0 <= a < b < |log| && log[a].filled && log[b].filled ==>
          log[b].event.timestampNs - log[a].event.timestampNs >= cooldownNs)
    && (forall a :: 0 <= a < |log| && log[a].filled ==>
          lastEntryNs.Some? && log[a].event.timestampNs <= lastEntryNs.value)
    && (lastEntryNs.Some? ==> exists a :: 0 <= a < |log| && log[a].filled && log[a].event.timestampNs == lastEntryNs.value)
    && (forall a :: 0 <= a < |log| && log[a].blocked ==>
          IsEntry(log[a].event.signal) && log[a].event.shouldExecute && !log[a].filled)
    && (forall a :: 0 <= a < |log| && log[a].filled ==> IsEntry(log[a].event.signal))
  }

  /** Some filled entry among the first n resolutions is less than the cooldown before the event. */
  predicate Cooling(log: seq<Resolution>, n: nat, event: CoordinatedEvent, cooldownNs: int)
    requires n <= |log|
  {
    exists a :: 0 <= a < n && log[a].filled && 0 <= event.timestampNs - log[a].event.timestampNs < cooldownNs
  }

  /** Exactly the executable entries inside the cooldown of an earlier filled entry are blocked. */
  predicate BlockedWhileCooling(log: seq<Resolution>, cooldownNs: int) {
    forall b :: 0 <= b < |log| ==>
      (log[b].blocked <==>
        IsEntry(log[b].event.signal) && log[b].event.shouldExecute && Cooling(log, b, log[b].event, cooldownNs))
  }

  ghost predicate LogInvariant<E>(g: Group<E>, cooldownNs: int) {
    && ResolvedOnce(g) && TimeOrdered(g) && EntriesSpaced(g.log, g.lastEntryNs, cooldownNs)
    && BlockedWhileCooling(g.log, cooldownNs)
  }

  /** The coordinator right after opening every session. */
  predicate Opened<E(==)>(g: Group<E>) {
    && g.log == [] && g.lastEntryNs.None?
    && (forall i :: 0 <= i < |g.members| ==>
          g.members[i].exposed == if g.members[i].pending.Some? then [g.members[i].pending.value.event] else [])
  }

  /** A step resolves the event of member i and touches no other member. */
  ghost predicate Effect<E(!new)>(g: Group<E>, h: Group<E>, i: int, cooldownNs: int) {
    && Waiting(g, i)
    && |h.members| == |g.members|
    && (forall j :: 0 <= j < |g.members| && j != i ==> h.members[j] == g.members[j])
    && |h.log| == |g.log| + 1 && h.log[..|g.log|] == g.log
    && var r, event := h.log[|g.log|], g.members[i].pending.value.event;
    && r.member == i && r.event == event
    && r.blocked == CooldownBlocks(event, g.lastEntryNs, cooldownNs)
    && (r.filled ==> !r.blocked && IsEntry(event.signal) && event.shouldExecute)
    && h.lastEntryNs == LatestEntry(g.lastEntryNs, r)
    && (Waiting(h, i) ==> EventTime(h, i) >= event.timestampNs)
    && h.members[i].exposed == g.members[i].exposed + (if Waiting(h, i) then [h.members[i].pending.value.event] else [])
  }

  lemma StepEffect<E(!new)>(g: Group<E>, i: int, cooldownNs: int)
    requires SharedGroup(g, cooldownNs) && Waiting(g, i)
    ensures Effect(g, CoordinateStep(g, i), i, cooldownNs)
  {
    hide ResolveSession, AdvanceSession, StampsRequests, Finite, ValidPair;
    var m := g.members[i];
    var w := m.pending.value;
    var blocked := CooldownBlocks(w.event, g.lastEntryNs, cooldownNs);
    ResolveClock(m.port, m.config, m.run, w, blocked);
    var t := ResolveSession(m.port, m.config, m.run, w, blocked).1;
    AdvanceStamps(m.port, m.config, t);
    hide Clocked;
  }

  lemma EffectResolvesOnce<E(!new)>(g: Group<E>, h: Group<E>, i: int, cooldownNs: int)
    requires Effect(g, h, i, cooldownNs) && ResolvedOnce(g)
    ensures ResolvedOnce(h)
  {
  }

  lemma EffectKeepsTime<E(!new)>(g: Group<E>, h: Group<E>, i: int, cooldownNs: int)
    requires Effect(g, h, i, cooldownNs) && IsNext(g, i) && TimeOrdered(g)
    ensures TimeOrdered(h)
  {
    var n := |g.log|;
    forall a, b | 0 <= a <= b < |h.log| ensures h.log[a].event.timestampNs <= h.log[b].event.timestampNs {
      assert a < n ==> h.log[a] == g.log[a];
      assert b < n ==> h.log[b] == g.log[b];
      assert h.log[n].event.timestampNs == EventTime(g, i);
    }
    forall a, j | 0 <= a < |h.log| && Waiting(h, j) ensures h.log[a].event.timestampNs <= EventTime(h, j) {
      assert a < n ==> h.log[a] == g.log[a];
      if j != i { assert Waiting(g, j); }
    }
  }

  /** The entry time remembered after one more resolution. */
  function LatestEntry(lastEntryNs: Option<int>, r: Resolution): Option<int> {
    if !r.filled then lastEntryNs
    else Some(if lastEntryNs.None? then r.event.timestampNs else MaxInt(lastEntryNs.value, r.event.timestampNs))
  }

  lemma ResolutionKeepsSpacing(log: seq<Resolution>, lastEntryNs: Option<int>, r: Resolution, cooldownNs: int)
    requires EntriesSpaced(log, lastEntryNs, cooldownNs)
    requires forall a :: 0 <= a < |log| ==> log[a].event.timestampNs <= r.event.timestampNs
    requires r.blocked == CooldownBlocks(r.event, lastEntryNs, cooldownNs)
    requires r.filled ==> !r.blocked && IsEntry(r.event.signal) && r.event.shouldExecute
    ensures EntriesSpaced(log + [r], LatestEntry(lastEntryNs, r), cooldownNs)
  {
    var n, after := |log|, log + [r];
    if lastEntryNs.Some? {
      var a :| 0 <= a < n && log[a].filled && log[a].event.timestampNs == lastEntryNs.value;
      assert after[if r.filled then n else a].event.timestampNs == LatestEntry(lastEntryNs, r).value;
    } else if r.filled {
      assert after[n].event.timestampNs == LatestEntry(lastEntryNs, r).value;
    }
  }

  lemma EffectKeepsSpacing<E(!new)>(g: Group<E>, h: Group<E>, i: int, cooldownNs: int)
    requires Effect(g, h, i, cooldownNs) && TimeOrdered(g) && EntriesSpaced(g.log, g.lastEntryNs, cooldownNs)
    ensures EntriesSpaced(h.log, h.lastEntryNs, cooldownNs)
  {
    hide EntriesSpaced;
    var r := h.log[|g.log|];
    assert h.log == g.log + [r];
    assert EventTime(g, i) == r.event.timestampNs;
    ResolutionKeepsSpacing(g.log, g.lastEntryNs, r, cooldownNs);
  }

  /** The remembered entry time tells what the whole log would. */
  lemma CooldownBlocksIff(log: seq<Resolution>, lastEntryNs: Option<int>, event: CoordinatedEvent, cooldownNs: int)
    requires EntriesSpaced(log, lastEntryNs, cooldownNs)
    requires forall a :: 0 <= a < |log| ==> log[a].event.timestampNs <= event.timestampNs
    ensures CooldownBlocks(event, lastEntryNs, cooldownNs) <==>
      IsEntry(event.signal) && event.shouldExecute && Cooling(log, |log|, event, cooldownNs)
  {
  }

  lemma EffectKeepsBlocked<E(!new)>(g: Group<E>, h: Group<E>, i: int, cooldownNs: int)
    requires Effect(g, h, i, cooldownNs) && TimeOrdered(g) && EntriesSpaced(g.log, g.lastEntryNs, cooldownNs)
    requires BlockedWhileCooling(g.log, cooldownNs)
    ensures BlockedWhileCooling(h.log, cooldownNs)
  {
    var n := |g.log|;
    var r := h.log[n];
    assert h.log == g.log + [r] && EventTime(g, i) == r.event.timestampNs;
    CooldownBlocksIff(g.log, g.lastEntryNs, r.event, cooldownNs);
    hide CooldownBlocks, EntriesSpaced, TimeOrdered, Effect;
    forall b | 0 <= b < |h.log| ensures Cooling(h.log, b, h.log[b].event, cooldownNs) == Cooling(g.log, b, h.log[b].event, cooldownNs) {
      CoolingPrefix(g.log, r, b, h.log[b].event, cooldownNs);
    }
  }

  lemma CoolingPrefix(log: seq<Resolution>, r: Resolution, n: nat, event: CoordinatedEvent, cooldownNs: int)
    requires n <= |log|
    ensures Cooling(log + [r], n, event, cooldownNs) <==> Cooling(log, n, event, cooldownNs)
  {
    if a :| 0 <= a < n && log[a].filled && 0 <= event.timestampNs - log[a].event.timestampNs < cooldownNs {
      assert (log + [r])[a] == log[a];
    }
    if a :| 0 <= a < n && (log + [r])[a].filled && 0 <= event.timestampNs - (log + [r])[a].event.timestampNs < cooldownNs {
      assert (log + [r])[a] == log[a];
    }
  }

  // ---------------------------------------------------------------- main result

  /** From freshly opened sessions the coordinator empties the heap; every exposed event has been
      resolved exactly once, in its session's order and globally in nondecreasing time; any two
      filled entries of the group are at least the cooldown apart; and exactly the executable entries
      inside the cooldown of a filled one are blocked, no exit ever. */
  lemma {:induction false} CoordinateKeepsLog<E(!new)>(g: Group<E>, cooldownNs: int)
    requires SharedGroup(g, cooldownNs) && LogInvariant(g, cooldownNs)
    ensures
      var h := Coordinate(g, cooldownNs);
      && LogInvariant(h, cooldownNs)
      && (forall i :: !Waiting(h, i))
    decreases Work(g, |g.members|)
  {
    hide Effect, ResolvedOnce, TimeOrdered, EntriesSpaced, BlockedWhileCooling;
    var i := NextAmong(g, |g.members|);
    if i >= 0 {
      var h := CoordinateStep(g, i);
      assert |h.members| == |g.members|;
      hide CoordinateStep;
      StepWorks(g, i, cooldownNs);
      StepEffect(g, i, cooldownNs);
      EffectResolvesOnce(g, h, i, cooldownNs);
      EffectKeepsTime(g, h, i, cooldownNs);
      EffectKeepsSpacing(g, h, i, cooldownNs);
      EffectKeepsBlocked(g, h, i, cooldownNs);
      CoordinateKeepsLog(h, cooldownNs);
    }
  }

  lemma OpenedKeepsLog<E(!new)>(g: Group<E>, cooldownNs: int)
    requires Opened(g)
    ensures LogInvariant(g, cooldownNs)
  {
  }

  /** What the invariant says once no event is pending. */
  lemma SettledLog<E(!new)>(h: Group<E>, cooldownNs: int)
    requires LogInvariant(h, cooldownNs) && forall i :: !Waiting(h, i)
    ensures forall i :: 0 <= i < |h.members| ==> h.members[i].pending.None? && h.members[i].exposed == EventsOf(h.log, i)
    ensures forall a, b :: 0 <= a <= b < |h.log| ==> h.log[a].event.timestampNs <= h.log[b].event.timestampNs
    ensures forall a, b :: 0 <= a < b < |h.log| && h.log[a].filled && h.log[b].filled ==>
      h.log[b].event.timestampNs - h.log[a].event.timestampNs >= cooldownNs
    ensures forall a :: 0 <= a < |h.log| && h.log[a].event.signal == Exit ==> !h.log[a].blocked
    ensures BlockedWhileCooling(h.log, cooldownNs)
  {
    hide EventsOf, Cooling;
    forall i | 0 <= i < |h.members| ensures h.members[i].pending.None? && h.members[i].exposed == EventsOf(h.log, i) {
      assert !Waiting(h, i);
    }
  }

  lemma SharedCooldownHolds<E(!new)>(g: Group<E>, cooldownNs: int)
    requires SharedGroup(g, cooldownNs) && Opened(g)
    ensures
      var h := Coordinate(g, cooldownNs);
      && (forall i :: 0 <= i < |h.members| ==> h.members[i].pending.None? && h.members[i].exposed == EventsOf(h.log, i))
      && (forall a, b :: 0 <= a <= b < |h.log| ==> h.log[a].event.timestampNs <= h.log[b].event.timestampNs)
      && (forall a, b :: 0 <= a < b < |h.log| && h.log[a].filled && h.log[b].filled ==>
            h.log[b].event.timestampNs - h.log[a].event.timestampNs >= cooldownNs)
      && (forall a :: 0 <= a < |h.log| && h.log[a].event.signal == Exit ==> !h.log[a].blocked)
      && BlockedWhileCooling(h.log, cooldownNs)
  {
    hide SharedGroup, Opened, EventsOf, Waiting, LogInvariant, Coordinate, BlockedWhileCooling;
    OpenedKeepsLog(g, cooldownNs);
    CoordinateKeepsLog(g, cooldownNs);
    SettledLog(Coordinate(g, cooldownNs), cooldownNs);
  }

  /** The loop of the shared-cooldown runner. */
  method RunSharedCooldownGroup<E(!new)>(g: Group<E>, cooldownNs: int) returns (h: Group<E>)
    requires SharedGroup(g, cooldownNs) && Opened(g)
    ensures h == Coordinate(g, cooldownNs)
    ensures forall a, b :: 0 <= a < b < |h.log| && h.log[a].filled && h.log[b].filled ==>
      h.log[b].event.timestampNs - h.log[a].event.timestampNs >= cooldownNs
    ensures BlockedWhileCooling(h.log, cooldownNs)
  {
    hide BlockedWhileCooling;
    h := g;
    var i := NextAmong(h, |h.members|);
    while i >= 0
      invariant SharedGroup(h, cooldownNs) && i == NextAmong(h, |h.members|)
      invariant Coordinate(h, cooldownNs) == Coordinate(g, cooldownNs)
      decreases Work(h, |h.members|)
    {
      StepWorks(h, i, cooldownNs);
      h := CoordinateStep(h, i);
      i := NextAmong(h, |h.members|);
    }
    SharedCooldownHolds(g, cooldownNs);
  }
}
