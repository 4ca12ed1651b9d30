/** The carry run over dates: partitions an earlier run left behind are reused, the rest executed,
    and the result is the one of an uninterrupted run. */
module ResumeRun {
  import opened Wrappers
  import opened ContractExpiry
  import opened ResultStore

  /** The deterministic steps of one date. */
  datatype DayFunction<!C, !D, I, !R> = DayFunction(
    records: (Date, C) -> D,
    identity: (Date, D) -> I,
    runKeys: D -> seq<string>,
    execute: (Date, D, C) -> seq<Table<R>>,
    advance: (C, D, seq<R>) -> C)

  const SUMMARY := "summary"

  /** The result tables are named as the store demands. */
  ghost predicate WellNamed<C(!new), D(!new), I, R>(f: DayFunction<C, D, I, R>)
  {
    forall date, records: D, carry: C ::
      DistinctNames(f.execute(date, records, carry)) && ValidNames(f.execute(date, records, carry))
  }

  /** load_table of the summary: empty when the partition has none. */
  function SummaryRows<R>(files: map<string, seq<R>>): seq<R> {
    if SUMMARY in files then files[SUMMARY] else []
  }

  // ---------------------------------------------------------------- the uninterrupted run

  function CarryAt<C, D, I, R>(f: DayFunction<C, D, I, R>, dates: seq<Date>, first: C, i: nat): C
    requires i <= |dates|
    decreases i, 0
  {
    if i == 0 then first
    else
      f.advance(CarryAt(f, dates, first, i - 1), RecordsAt(f, dates, first, i - 1),
                SummaryRows(Files(TablesAt(f, dates, first, i - 1))))
  }

  function RecordsAt<C, D, I, R>(f: DayFunction<C, D, I, R>, dates: seq<Date>, first: C, i: nat): D
    requires i < |dates|
    decreases i, 1
  {
    f.records(dates[i], CarryAt(f, dates, first, i))
  }

  function TablesAt<C, D, I, R>(f: DayFunction<C, D, I, R>, dates: seq<Date>, first: C, i: nat): seq<Table<R>>
    requires i < |dates|
    decreases i, 2
  {
    f.execute(dates[i], RecordsAt(f, dates, first, i), CarryAt(f, dates, first, i))
  }

  function RequestAt<C, D, I, R>(f: DayFunction<C, D, I, R>, dates: seq<Date>, first: C, i: nat, replace: bool): Request<I, C, R>
    requires i < |dates|
  {
    var records := RecordsAt(f, dates, first, i);
    Request(dates[i], TablesAt(f, dates, first, i), f.identity(dates[i], records), CarryAt(f, dates, first, i),
            CarryAt(f, dates, first, i + 1), f.runKeys(records), replace)
  }

  /** The carry of the next date is advanced from the table published under the summary's name, or from no
      rows when there is none. */
  lemma CarryFollowsSummary<C(!new), D(!new), I, R>(f: DayFunction<C, D, I, R>, dates: seq<Date>, first: C, i: nat)
    requires WellNamed(f) && i < |dates|
    ensures
      var tables := TablesAt(f, dates, first, i);
      var carry, records := CarryAt(f, dates, first, i), RecordsAt(f, dates, first, i);
      && (forall k :: 0 <= k < |tables| && tables[k].name == "summary" ==>
            CarryAt(f, dates, first, i + 1) == f.advance(carry, records, tables[k].rows))
      && ((forall k :: 0 <= k < |tables| ==> tables[k].name != "summary") ==>
            CarryAt(f, dates, first, i + 1) == f.advance(carry, records, []))
  {
    var tables := TablesAt(f, dates, first, i);
    assert DistinctNames(f.execute(dates[i], RecordsAt(f, dates, first, i), CarryAt(f, dates, first, i)));
    forall k | 0 <= k < |tables| ensures tables[k].name in Files(tables) && Files(tables)[tables[k].name] == tables[k].rows {
      FilesHold(tables, k);
    }
    if forall k :: 0 <= k < |tables| ==> tables[k].name != SUMMARY { OnlyTables(tables, SUMMARY); }
  }

  lemma {:induction false} OnlyTables<R>(tables: seq<Table<R>>, name: string)
    requires forall k :: 0 <= k < |tables| ==> tables[k].name != name
    ensures name !in Files(tables)
    decreases |tables|
  {
    if tables != [] { OnlyTables(tables[..|tables| - 1], name); }
  }

  function AllRecords<C, D, I, R>(f: DayFunction<C, D, I, R>, dates: seq<Date>, first: C, n: nat): (r: seq<D>)
    requires n <= |dates|
    ensures |r| == n
  {
    if n == 0 then [] else AllRecords(f, dates, first, n - 1) + [RecordsAt(f, dates, first, n - 1)]
  }

  predicate DistinctDates(dates: seq<Date>) { forall i, j :: 0 <= i < j < |dates| ==> dates[i] != dates[j] }

  /** The date holds exactly the partition of the uninterrupted run. */
  ghost predicate Stored<C, D, I, R>(disk: Disk<I, C, R>, f: DayFunction<C, D, I, R>, dates: seq<Date>, first: C, i: nat)
    requires i < |dates|
  {
    Final(dates[i]) in disk && disk[Final(dates[i])] == Complete(RequestAt(f, dates, first, i, false))
  }

  /** A verified partition with the date's identity, carry-in and run keys came from the same
      deterministic function, so it holds the same tables. */
  ghost predicate Trusted<C, D, I, R>(
    disk: Disk<I, C, R>, f: DayFunction<C, D, I, R>, dates: seq<Date>, first: C, i: nat)
    requires i < |dates|
  {
    var found := Validate(disk, dates[i]);
    var q := RequestAt(f, dates, first, i, false);
    (found.Ok?
     && found.value.inputIdentitySha == Sha(q.inputIdentity)
     && found.value.carryInSha == Sha(q.carryIn)
     && found.value.runKeys == q.runKeys)
    ==> Stored(disk, f, dates, first, i)
  }

  /** The run can get past the date: nothing is stored, the right partition is, or a readable one
      may be replaced. */
  ghost predicate Passable<C, D, I, R>(
    disk: Disk<I, C, R>, f: DayFunction<C, D, I, R>, dates: seq<Date>, first: C, rebuild: bool, i: nat)
    requires i < |dates|
  {
    Final(dates[i]) !in disk
    || (if rebuild then Validate(disk, dates[i]).Ok? else Stored(disk, f, dates, first, i))
  }

  datatype RunOutcome<+C, +D> = Finished(records: seq<D>, carry: C) | Stopped(error: StoreError) | Killed

  /** Each date is untouched, complete, or absent while being replaced. */
  ghost predicate DateEffect<C, D, I, R>(
    before: Disk<I, C, R>, after: Disk<I, C, R>, f: DayFunction<C, D, I, R>, dates: seq<Date>, first: C, rebuild: bool, i: nat)
    requires i < |dates|
  {
    || SameAt(before, after, Final(dates[i]))
    || Stored(after, f, dates, first, i)
    || (rebuild && Final(dates[i]) !in after)
  }

  lemma StoredValidates<C(!new), D(!new), I, R>(
    disk: Disk<I, C, R>, f: DayFunction<C, D, I, R>, dates: seq<Date>, first: C, i: nat)
    requires WellNamed(f) && i < |dates| && Stored(disk, f, dates, first, i)
    ensures Validate(disk, dates[i]) == Ok(ManifestOf(RequestAt(f, dates, first, i, false)))
    ensures Matches(ManifestOf(RequestAt(f, dates, first, i, false)), RequestAt(f, dates, first, i, false))
  {
    CompleteValidates(disk, RequestAt(f, dates, first, i, false));
  }

  /** One date: reuse its partition or execute and publish it. */
  method RunDate<C(==, !new), D(!new), I(==), R(==)>(
    store: DailyResultStore<I, C, R>, f: DayFunction<C, D, I, R>, dates: seq<Date>, ghost first: C, i: nat, carry: C, rebuild: bool)
    returns (outcome: RunOutcome<C, D>)
    requires store.Valid() && WellNamed(f) && i < |dates|
    requires carry == CarryAt(f, dates, first, i)
    requires Trusted(store.disk, f, dates, first, i)
    modifies store
    ensures store.Valid() && store.clock >= old(store.clock)
    ensures forall d :: d != dates[i] ==> SameAt(old(store.disk), store.disk, Final(d))
    ensures DateEffect(old(store.disk), store.disk, f, dates, first, rebuild, i)
    ensures outcome.Finished? ==>
      outcome == Finished([RecordsAt(f, dates, first, i)], CarryAt(f, dates, first, i + 1))
      && Stored(store.disk, f, dates, first, i)
      && Passable(old(store.disk), f, dates, first, rebuild, i)
    ensures store.FaultFree(old(store.clock)) && Passable(old(store.disk), f, dates, first, rebuild, i) ==> outcome.Finished?
  {
    var date := dates[i];
    var records := f.records(date, carry);
    var identity := f.identity(date, records);
    ghost var q := RequestAt(f, dates, first, i, false);
    if Stored(store.disk, f, dates, first, i) { StoredValidates(store.disk, f, dates, first, i); }
    if !rebuild {
      var found := Validate(store.disk, date);
      if found.Ok?
        && found.value.inputIdentitySha == Sha(identity)
        && found.value.carryInSha == Sha(carry)
        && found.value.runKeys == f.runKeys(records)
      {
        var next := f.advance(carry, records, SummaryRows(store.disk[Final(date)].files));
        if Sha(next) == found.value.carryOutSha {
          return Finished([records], next);
        }
      }
    }
    var tables := f.execute(date, records, carry);
    var next := f.advance(carry, records, SummaryRows(Files(tables)));
    assert DistinctNames(tables) && ValidNames(tables);
    var request := Request(date, tables, identity, carry, next, f.runKeys(records), rebuild);
    assert request == RequestAt(f, dates, first, i, rebuild) && Complete(request) == Complete(q);
    var published := store.Publish(request);
    match published {
      case Died => outcome := Killed;
      case Failed(error) => outcome := Stopped(error);
      case Published(_) => outcome := Finished([records], next);
    }
  }

  /** run_backtests_with_position_carry. Whatever was stored before and whatever fails on the way,
      every date ends untouched, complete, or absent while being replaced; a finished run has the
      records, the carry and the partitions of the uninterrupted run; and a run none of whose file
      operations fails finishes exactly when it can get past every date. */
  method RunDates<C(==, !new), D(!new), I(==), R(==)>(
    store: DailyResultStore<I, C, R>, f: DayFunction<C, D, I, R>, dates: seq<Date>, first: C, rebuild: bool)
    returns (outcome: RunOutcome<C, D>)
    requires store.Valid() && WellNamed(f) && DistinctDates(dates)
    requires forall i :: 0 <= i < |dates| ==> Trusted(store.disk, f, dates, first, i)
    modifies store
    ensures store.Valid() && store.clock >= old(store.clock)
    ensures forall i :: 0 <= i < |dates| ==> DateEffect(old(store.disk), store.disk, f, dates, first, rebuild, i)
    ensures outcome.Finished? ==>
      && outcome == Finished(AllRecords(f, dates, first, |dates|), CarryAt(f, dates, first, |dates|))
      && forall i :: 0 <= i < |dates| ==> Stored(store.disk, f, dates, first, i)
    ensures outcome.Finished? ==> forall i :: 0 <= i < |dates| ==> Passable(old(store.disk), f, dates, first, rebuild, i)
    ensures
      (store.FaultFree(old(store.clock))
       && forall i :: 0 <= i < |dates| ==> Passable(old(store.disk), f, dates, first, rebuild, i))
      ==> outcome.Finished?
  {
    hide Stored, Passable, Trusted, RecordsAt, SameAt, DateEffect;
    var carry := first;
    var records: seq<D> := [];
    NothingChangedYet(store.disk);
    for i := 0 to |dates|
      invariant store.Valid() && store.clock >= old(store.clock)
      invariant carry == CarryAt(f, dates, first, i) && records == AllRecords(f, dates, first, i)
      invariant forall j :: 0 <= j < i ==> Stored(store.disk, f, dates, first, j)
      invariant forall j :: 0 <= j < i ==> Passable(old(store.disk), f, dates, first, rebuild, j)
      invariant forall j :: i <= j < |dates| ==> SameAt(old(store.disk), store.disk, Final(dates[j]))
    {
      ghost var before := store.disk;
      TrustedStill(old(store.disk), before, f, dates, first, rebuild, i);
      var today := RunDate(store, f, dates, first, i, carry, rebuild);
      OtherDatesStill(old(store.disk), before, store.disk, f, dates, first, i);
      if !today.Finished? {
        StoppedEffects(old(store.disk), before, store.disk, f, dates, first, rebuild, i);
        return today;
      }
      carry, records := today.carry, records + today.records;
    }
    FinishedEffects(old(store.disk), store.disk, f, dates, first, rebuild);
    outcome := Finished(records, carry);
  }

  lemma NothingChangedYet<C, I, R>(disk: Disk<I, C, R>)
    ensures forall d :: SameAt(disk, disk, Final(d))
  {
  }

  /** A day that changes its own date only keeps the earlier partitions and the later dates. */
  lemma OtherDatesStill<C(!new), D(!new), I, R>(
    start: Disk<I, C, R>, before: Disk<I, C, R>, after: Disk<I, C, R>, f: DayFunction<C, D, I, R>, dates: seq<Date>, first: C, i: nat)
    requires DistinctDates(dates) && i < |dates|
    requires forall d :: d != dates[i] ==> SameAt(before, after, Final(d))
    requires forall j :: 0 <= j < i ==> Stored(before, f, dates, first, j)
    requires forall j :: i <= j < |dates| ==> SameAt(start, before, Final(dates[j]))
    ensures forall j :: 0 <= j < i ==> Stored(after, f, dates, first, j)
    ensures forall j :: i < j < |dates| ==> SameAt(start, after, Final(dates[j]))
  {
    hide Stored, Complete;
    forall j | 0 <= j < i ensures Stored(after, f, dates, first, j) {
      assert dates[j] != dates[i];
      StoredStill(before, after, f, dates, first, j);
    }
    forall j | i < j < |dates| ensures SameAt(start, after, Final(dates[j])) {
      assert dates[j] != dates[i];
      assert SameAt(before, after, Final(dates[j]));
    }
  }

  /** Where a run stops: stored before the day, the day's own effect, untouched after it. */
  lemma StoppedEffects<C(!new), D(!new), I, R>(
    start: Disk<I, C, R>, before: Disk<I, C, R>, after: Disk<I, C, R>, f: DayFunction<C, D, I, R>, dates: seq<Date>, first: C,
    rebuild: bool, i: nat)
    requires i < |dates| && SameAt(start, before, Final(dates[i])) && DateEffect(before, after, f, dates, first, rebuild, i)
    requires forall j :: 0 <= j < i ==> Stored(after, f, dates, first, j)
    requires forall j :: i < j < |dates| ==> SameAt(start, after, Final(dates[j]))
    ensures forall j :: 0 <= j < |dates| ==> DateEffect(start, after, f, dates, first, rebuild, j)
  {
    hide Stored;
    forall j | 0 <= j < |dates| ensures DateEffect(start, after, f, dates, first, rebuild, j) {
      if j == i { assert SameAt(before, after, Final(dates[i])) ==> SameAt(start, after, Final(dates[i])); }
    }
  }

  /** Stored everywhere is an effect on every date. */
  lemma FinishedEffects<C(!new), D(!new), I, R>(
    start: Disk<I, C, R>, after: Disk<I, C, R>, f: DayFunction<C, D, I, R>, dates: seq<Date>, first: C, rebuild: bool)
    requires forall j :: 0 <= j < |dates| ==> Stored(after, f, dates, first, j)
    ensures forall j :: 0 <= j < |dates| ==> DateEffect(start, after, f, dates, first, rebuild, j)
  {
    hide Stored;
  }

  /** Trust and passability depend on the date's own partition only. */
  lemma TrustedStill<C, D, I, R>(
    before: Disk<I, C, R>, after: Disk<I, C, R>, f: DayFunction<C, D, I, R>, dates: seq<Date>, first: C, rebuild: bool, i: nat)
    requires i < |dates| && SameAt(before, after, Final(dates[i]))
    ensures Trusted(before, f, dates, first, i) <==> Trusted(after, f, dates, first, i)
    ensures Passable(before, f, dates, first, rebuild, i) <==> Passable(after, f, dates, first, rebuild, i)
  {
  }

  lemma StoredStill<C, D, I, R>(
    before: Disk<I, C, R>, after: Disk<I, C, R>, f: DayFunction<C, D, I, R>, dates: seq<Date>, first: C, i: nat)
    requires i < |dates| && SameAt(before, after, Final(dates[i])) && Stored(before, f, dates, first, i)
    ensures Stored(after, f, dates, first, i)
  {
  }

  // ---------------------------------------------------------------- resuming

  /** Each date is absent or holds the partition of the uninterrupted run. */
  ghost predicate Agrees<C, D, I, R>(disk: Disk<I, C, R>, f: DayFunction<C, D, I, R>, dates: seq<Date>, first: C) {
    forall i :: 0 <= i < |dates| ==> Final(dates[i]) !in disk || Stored(disk, f, dates, first, i)
  }

  lemma AgreeingIsTrusted<C(!new), D(!new), I, R>(
    disk: Disk<I, C, R>, f: DayFunction<C, D, I, R>, dates: seq<Date>, first: C, rebuild: bool)
    requires WellNamed(f) && Agrees(disk, f, dates, first)
    ensures forall i :: 0 <= i < |dates| ==> Trusted(disk, f, dates, first, i) && Passable(disk, f, dates, first, rebuild, i)
  {
    forall i | 0 <= i < |dates|
      ensures Trusted(disk, f, dates, first, i) && Passable(disk, f, dates, first, rebuild, i)
    {
      if Final(dates[i]) in disk { StoredValidates(disk, f, dates, first, i); }
    }
  }

  /** Any number of runs of the same function, each interrupted anywhere or not at all, leave a store
      that agrees with the uninterrupted run. */
  method InterruptedRuns<C(==, !new), D(!new), I(==), R(==)>(
    store: DailyResultStore<I, C, R>, f: DayFunction<C, D, I, R>, dates: seq<Date>, first: C, rebuilds: seq<bool>)
    requires store.Valid() && WellNamed(f) && DistinctDates(dates)
    requires Agrees(store.disk, f, dates, first)
    modifies store
    ensures store.Valid() && store.clock >= old(store.clock)
    ensures Agrees(store.disk, f, dates, first)
  {
    for k := 0 to |rebuilds|
      invariant store.Valid() && store.clock >= old(store.clock)
      invariant Agrees(store.disk, f, dates, first)
    {
      AgreeingIsTrusted(store.disk, f, dates, first, rebuilds[k]);
      ghost var before := store.disk;
      var _ := RunDates(store, f, dates, first, rebuilds[k]);
      StillAgrees(before, store.disk, f, dates, first, rebuilds[k]);
    }
  }

  /** A run over what such runs left, none of whose file operations fails, finishes with the records,
      carry and partitions of an uninterrupted run from an empty store. */
  method ResumedRun<C(==, !new), D(!new), I(==), R(==)>(
    store: DailyResultStore<I, C, R>, f: DayFunction<C, D, I, R>, dates: seq<Date>, first: C, rebuild: bool)
    returns (outcome: RunOutcome<C, D>)
    requires store.Valid() && WellNamed(f) && DistinctDates(dates)
    requires Agrees(store.disk, f, dates, first) && store.FaultFree(store.clock)
    modifies store
    ensures store.Valid()
    ensures outcome == Finished(AllRecords(f, dates, first, |dates|), CarryAt(f, dates, first, |dates|))
    ensures forall i :: 0 <= i < |dates| ==> Stored(store.disk, f, dates, first, i)
  {
    AgreeingIsTrusted(store.disk, f, dates, first, rebuild);
    outcome := RunDates(store, f, dates, first, rebuild);
  }

  /** An empty store agrees with every run. */
  lemma EmptyAgrees<C, D, I, R>(f: DayFunction<C, D, I, R>, dates: seq<Date>, first: C)
    ensures Agrees(map[], f, dates, first)
  {
  }

  /** What any interrupted run leaves behind agrees with the uninterrupted one. */
  lemma StillAgrees<C, D, I, R>(
    before: Disk<I, C, R>, after: Disk<I, C, R>, f: DayFunction<C, D, I, R>, dates: seq<Date>, first: C, rebuild: bool)
    requires Agrees(before, f, dates, first)
    requires forall i :: 0 <= i < |dates| ==> DateEffect(before, after, f, dates, first, rebuild, i)
    ensures Agrees(after, f, dates, first)
  {
    forall i | 0 <= i < |dates| ensures Final(dates[i]) !in after || Stored(after, f, dates, first, i) {
      assert DateEffect(before, after, f, dates, first, rebuild, i);
    }
  }
}
