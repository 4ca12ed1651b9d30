/** Positions carried over trade dates: restored into the next day's records and advanced from the
    day's results, with nothing lost on the way. */
module CarryChain {
  import opened Wrappers
  import opened Models
  import opened ContractExpiry
  import opened PositionCarry

  type Carry = map<PositionKey, PositionSnapshot>

  datatype RunKey = RunKey(tradeDate: Date, pairName: string)

  datatype Universe = Selected | SelectedAndCarried | CarriedPosition

  datatype Record = Record(
    tradeDate: Date, runKey: RunKey, pair: PairConfig, configPath: string, source: Universe, carriedFrom: Option<Date>)
  {
    function Key(): PositionKey { KeyOf(pair) }
  }

  /** Every snapshot sits under its own pair. */
  predicate WellKeyed(carry: Carry) { forall k :: k in carry ==> KeyOf(carry[k].pair) == k }

  function Count(records: seq<Record>, key: PositionKey): nat {
    if records == [] then 0
    else Count(records[..|records| - 1], key) + if records[|records| - 1].Key() == key then 1 else 0
  }

  // ---------------------------------------------------------------- restoring

  function Restore(record: Record, carry: Carry): Record {
    if record.Key() !in carry then record
    else
      var snapshot := carry[record.Key()];
      record.(
        pair := RestoredPair(snapshot, record.pair),
        source := SelectedAndCarried,
        carriedFrom := Some(snapshot.sourceTradeDate))
  }

  function HeldRecord(snapshot: PositionSnapshot, tradeDate: Date): Record {
    var pair := RestoredPair(snapshot, snapshot.pair);
    Record(tradeDate, RunKey(tradeDate, pair.name), pair, snapshot.configPath, CarriedPosition,
           Some(snapshot.sourceTradeDate))
  }

  function RestoreAll(base: seq<Record>, carry: Carry): (r: seq<Record>)
    ensures |r| == |base|
    ensures forall i :: 0 <= i < |base| ==> r[i] == Restore(base[i], carry)
  {
    seq(|base|, i requires 0 <= i < |base| => Restore(base[i], carry))
  }

  /** The held pairs without a record in `base`, in the order visited. */
  function AppendHeld(base: seq<Record>, carry: Carry, order: seq<PositionKey>, tradeDate: Date): seq<Record>
    requires forall k :: k in order ==> k in carry
  {
    if order == [] then []
    else
      var key := order[|order| - 1];
      AppendHeld(base, carry, order[..|order| - 1], tradeDate)
      + if (exists r :: r in base && r.Key() == key) then [] else [HeldRecord(carry[key], tradeDate)]
  }

  /** An enumeration of the carried keys, each once; the runner visits them in sorted order. */
  ghost predicate Enumerates(order: seq<PositionKey>, carry: Carry) {
    && (forall k :: k in order <==> k in carry)
    && (forall i, j :: 0 <= i < j < |order| ==> order[i] != order[j])
  }

  /** augment_records_with_position_carry. */
  function Augment(base: seq<Record>, carry: Carry, order: seq<PositionKey>, tradeDate: Date): seq<Record>
    requires Enumerates(order, carry)
  {
    RestoreAll(base, carry) + AppendHeld(base, carry, order, tradeDate)
  }

  method AugmentRecords(base: seq<Record>, carry: Carry, order: seq<PositionKey>, tradeDate: Date)
    returns (augmented: seq<Record>)
    requires Enumerates(order, carry)
    ensures augmented == Augment(base, carry, order, tradeDate)
  {
    hide Restore, HeldRecord, Record.Key;
    augmented := [];
    var selected: set<PositionKey> := {};
    for i := 0 to |base|
      invariant augmented == RestoreAll(base, carry)[..i]
      invariant forall k :: k in selected <==> exists j :: 0 <= j < i && base[j].Key() == k
    {
      selected := selected + {base[i].Key()};
      augmented := augmented + [Restore(base[i], carry)];
    }
    assert augmented == RestoreAll(base, carry);
    for i := 0 to |order|
      invariant augmented == RestoreAll(base, carry) + AppendHeld(base, carry, order[..i], tradeDate)
    {
      assert order[..i + 1][..i] == order[..i];
      assert order[i] in selected <==> exists r :: r in base && r.Key() == order[i];
      if order[i] !in selected {
        augmented := augmented + [HeldRecord(carry[order[i]], tradeDate)];
      }
    }
    assert order[..|order|] == order;
  }

  lemma {:induction false} CountConcat(a: seq<Record>, b: seq<Record>, key: PositionKey)
    ensures Count(a + b, key) == Count(a, key) + Count(b, key)
    decreases |b|
  {
    if b == [] {
      assert a + b == a;
    } else {
      assert (a + b)[..|a + b| - 1] == a + b[..|b| - 1];
      CountConcat(a, b[..|b| - 1], key);
    }
  }

  lemma {:induction false} CountPositive(records: seq<Record>, key: PositionKey)
    ensures Count(records, key) > 0 <==> exists r :: r in records && r.Key() == key
    decreases |records|
  {
    if records != [] {
      var n := |records| - 1;
      CountPositive(records[..n], key);
      assert records == records[..n] + [records[n]];
    }
  }

  lemma {:induction false} RestoreKeepsCount(base: seq<Record>, carry: Carry, key: PositionKey)
    ensures Count(RestoreAll(base, carry), key) == Count(base, key)
    decreases |base|
  {
    if base != [] {
      var n := |base| - 1;
      assert RestoreAll(base, carry)[..n] == RestoreAll(base[..n], carry);
      RestoreKeepsCount(base[..n], carry, key);
    }
  }

  lemma {:induction false} AppendHeldCount(
    base: seq<Record>, carry: Carry, order: seq<PositionKey>, tradeDate: Date, key: PositionKey)
    requires WellKeyed(carry) && forall k :: k in order ==> k in carry
    requires forall i, j :: 0 <= i < j < |order| ==> order[i] != order[j]
    ensures Count(AppendHeld(base, carry, order, tradeDate), key) == if key in order && Count(base, key) == 0 then 1 else 0
    decreases |order|
  {
    hide HeldRecord, Record.Key, WellKeyed;
    if order != [] {
      var n := |order| - 1;
      var last := order[n];
      AppendHeldCount(base, carry, order[..n], tradeDate, key);
      CountPositive(base, last);
      HeldKey(carry, last, tradeDate);
      assert order == order[..n] + [last] && last !in order[..n];
      var added := if (exists r :: r in base && r.Key() == last) then [] else [HeldRecord(carry[last], tradeDate)];
      assert AppendHeld(base, carry, order, tradeDate) == AppendHeld(base, carry, order[..n], tradeDate) + added;
      CountConcat(AppendHeld(base, carry, order[..n], tradeDate), added, key);
      CountFew(added, key);
      hide Count, AppendHeld;
    }
  }

  lemma CountFew(records: seq<Record>, key: PositionKey)
    requires |records| <= 1
    ensures Count(records, key) == if |records| == 1 && records[0].Key() == key then 1 else 0
  {
    if |records| == 1 { assert Count(records[..0], key) == 0; }
  }

  lemma HeldKey(carry: Carry, key: PositionKey, tradeDate: Date)
    requires WellKeyed(carry) && key in carry
    ensures HeldRecord(carry[key], tradeDate).Key() == key
  {
  }

  /** Every carried key appears once if the day did not select it and as often as selected otherwise. */
  lemma AugmentCounts(base: seq<Record>, carry: Carry, order: seq<PositionKey>, tradeDate: Date, key: PositionKey)
    requires Enumerates(order, carry) && WellKeyed(carry)
    ensures Count(Augment(base, carry, order, tradeDate), key)
         == if key in carry && Count(base, key) == 0 then 1 else Count(base, key)
  {
    CountConcat(RestoreAll(base, carry), AppendHeld(base, carry, order, tradeDate), key);
    RestoreKeepsCount(base, carry, key);
    AppendHeldCount(base, carry, order, tradeDate, key);
  }

  predicate StartsFrom(record: Record, snapshot: PositionSnapshot) {
    record.pair.initialPosition == RestoredPair(snapshot, snapshot.pair).initialPosition
  }

  lemma {:induction false} HeldRecordsStart(base: seq<Record>, carry: Carry, order: seq<PositionKey>, tradeDate: Date, r: Record)
    requires WellKeyed(carry) && forall k :: k in order ==> k in carry
    requires r in AppendHeld(base, carry, order, tradeDate)
    ensures r.tradeDate == tradeDate && r.Key() in carry && StartsFrom(r, carry[r.Key()])
    ensures r.carriedFrom == Some(carry[r.Key()].sourceTradeDate) && r.source.CarriedPosition?
    ensures r.configPath == carry[r.Key()].configPath && r.runKey == RunKey(tradeDate, r.pair.name)
    decreases |order|
  {
    var n := |order| - 1;
    if r in AppendHeld(base, carry, order[..n], tradeDate) {
      HeldRecordsStart(base, carry, order[..n], tradeDate, r);
    }
  }

  /** Records of carried keys start from the carried position; all others are the day's own. */
  lemma AugmentRestores(base: seq<Record>, carry: Carry, order: seq<PositionKey>, tradeDate: Date, r: Record)
    requires Enumerates(order, carry) && WellKeyed(carry)
    requires forall b :: b in base ==> b.tradeDate == tradeDate
    requires r in Augment(base, carry, order, tradeDate)
    ensures r.tradeDate == tradeDate
    ensures if r.Key() in carry then StartsFrom(r, carry[r.Key()]) else r in base
    ensures r.Key() in carry ==>
      && r.carriedFrom == Some(carry[r.Key()].sourceTradeDate)
      && (r.source.CarriedPosition? || r.source.SelectedAndCarried?)
      && (r.source.CarriedPosition? ==> r.configPath == carry[r.Key()].configPath && r.runKey == RunKey(tradeDate, r.pair.name))
  {
    if r in RestoreAll(base, carry) {
      var i :| 0 <= i < |base| && RestoreAll(base, carry)[i] == r;
      assert base[i] in base && r == Restore(base[i], carry);
    } else {
      HeldRecordsStart(base, carry, order, tradeDate, r);
    }
  }

  // ---------------------------------------------------------------- exclusions

  /** filter_excluded_run_records. */
  function WithoutExcluded(records: seq<Record>, excluded: set<RunKey>): seq<Record> {
    if records == [] then []
    else
      var last := records[|records| - 1];
      WithoutExcluded(records[..|records| - 1], excluded) + if last.runKey in excluded then [] else [last]
  }

  lemma {:induction false} WithoutExcludedMembers(records: seq<Record>, excluded: set<RunKey>, r: Record)
    ensures r in WithoutExcluded(records, excluded) <==> r in records && r.runKey !in excluded
    decreases |records|
  {
    if records != [] {
      var n := |records| - 1;
      WithoutExcludedMembers(records[..n], excluded, r);
      assert records == records[..n] + [records[n]];
    }
  }

  // ---------------------------------------------------------------- advancing

  datatype CarryStatus = ExpiryPositionRemaining | CarriedWithoutResult | NoResult | Closed | CarriedForward {
    predicate Carried() { CarriedWithoutResult? || CarriedForward? }
  }

  datatype AuditRow = AuditRow(
    record: Record, final: Option<PositionSnapshot>, expiry: Option<Date>, carryToNextDate: bool, status: CarryStatus)

  datatype Advanced = Advanced(next: Carry, audit: seq<AuditRow>, errors: seq<RunKey>)

  /** The position a record ends the day with. */
  function FinalSnapshot(previous: Carry, record: Record, summary: map<RunKey, SummaryRow>):
    Result<Option<PositionSnapshot>, SnapshotError>
  {
    if record.runKey in summary then SnapshotOf(summary[record.runKey], record.pair, record.configPath, record.tradeDate)
    else if record.Key() in previous then Ok(Some(previous[record.Key()]))
    else Ok(None)
  }

  function RecordExpiry(record: Record, calendar: seq<Date>): Option<Date>
    requires ValidMonth(record.tradeDate.month)
  {
    ExpiryDate(record.pair.futureSymbol, record.tradeDate, calendar)
  }

  predicate Expired(record: Record, calendar: seq<Date>)
    requires ValidMonth(record.tradeDate.month)
  {
    var expiry := RecordExpiry(record, calendar);
    expiry.Some? && expiry.value.NotAfter(record.tradeDate)
  }

  function StatusOf(previous: Carry, record: Record, summary: map<RunKey, SummaryRow>, calendar: seq<Date>): CarryStatus
    requires ValidMonth(record.tradeDate.month) && FinalSnapshot(previous, record, summary).Ok?
  {
    var final := FinalSnapshot(previous, record, summary).value;
    if final.Some? && Expired(record, calendar) then ExpiryPositionRemaining
    else if record.runKey !in summary then (if record.Key() in previous then CarriedWithoutResult else NoResult)
    else if final.None? then Closed
    else CarriedForward
  }

  /** The status of a record, whichever is asked first: open on or past expiry; open after a result, or
      without one from the day before; closed by a result; or never there. */
  lemma StatusIff(previous: Carry, record: Record, summary: map<RunKey, SummaryRow>, calendar: seq<Date>)
    requires ValidMonth(record.tradeDate.month) && FinalSnapshot(previous, record, summary).Ok?
    ensures
      var status := StatusOf(previous, record, summary, calendar);
      var expiry := ExpiryDate(record.pair.futureSymbol, record.tradeDate, calendar);
      var expired := expiry.Some? && (expiry.value == record.tradeDate || !record.tradeDate.NotAfter(expiry.value));
      var ran, held := record.runKey in summary, record.Key() in previous;
      var open := if ran
                  then SnapshotOf(summary[record.runKey], record.pair, record.configPath, record.tradeDate).value.Some?
                  else held;
      && (status.ExpiryPositionRemaining? <==> open && expired)
      && (status.CarriedForward? <==> ran && open && !expired)
      && (status.CarriedWithoutResult? <==> !ran && held && !expired)
      && (status.Closed? <==> ran && !open)
      && (status.NoResult? <==> !ran && !held)
  {
    hide ExpiryDate, SnapshotOf;
  }

  function AdvanceOne(
    a: Advanced, previous: Carry, record: Record, summary: map<RunKey, SummaryRow>, calendar: seq<Date>): Advanced
    requires ValidMonth(record.tradeDate.month) && FinalSnapshot(previous, record, summary).Ok?
  {
    var final := FinalSnapshot(previous, record, summary).value;
    var status := StatusOf(previous, record, summary, calendar);
    var next := if status.Carried() then a.next[record.Key() := final.value] else a.next;
    Advanced(
      next,
      a.audit + [AuditRow(record, final, RecordExpiry(record, calendar), record.Key() in next, status)],
      if status.ExpiryPositionRemaining? then a.errors + [record.runKey] else a.errors)
  }

  predicate DatedRecords(records: seq<Record>) { forall r :: r in records ==> ValidMonth(r.tradeDate.month) }

  /** advance_position_carry: the first summary row that is not a position raises. */
  function Advance(previous: Carry, records: seq<Record>, summary: map<RunKey, SummaryRow>, calendar: seq<Date>):
    Result<Advanced, SnapshotError>
    requires DatedRecords(records)
  {
    if records == [] then Ok(Advanced(map[], [], []))
    else
      var before := Advance(previous, records[..|records| - 1], summary, calendar);
      var record := records[|records| - 1];
      if before.Err? then before
      else if FinalSnapshot(previous, record, summary).Err? then Err(FinalSnapshot(previous, record, summary).error)
      else Ok(AdvanceOne(before.value, previous, record, summary, calendar))
  }

  lemma AdvanceNext(previous: Carry, records: seq<Record>, i: nat, summary: map<RunKey, SummaryRow>, calendar: seq<Date>)
    requires DatedRecords(records) && i < |records| && Advance(previous, records[..i], summary, calendar).Ok?
    ensures
      var final := FinalSnapshot(previous, records[i], summary);
      Advance(previous, records[..i + 1], summary, calendar)
      == if final.Err? then Err(final.error)
         else Ok(AdvanceOne(Advance(previous, records[..i], summary, calendar).value, previous, records[i], summary, calendar))
  {
    hide FinalSnapshot, AdvanceOne;
    assert records[..i + 1][..i] == records[..i];
  }

  method AdvancePositionCarry(previous: Carry, records: seq<Record>, summary: map<RunKey, SummaryRow>, calendar: seq<Date>)
    returns (result: Result<Advanced, SnapshotError>)
    requires DatedRecords(records)
    ensures result == Advance(previous, records, summary, calendar)
  {
    hide ExpiryDate, SnapshotOf;
    assert Advance(previous, [], summary, calendar) == Ok(Advanced(map[], [], []));
    hide Advance;
    var next: Carry := map[];
    var audit: seq<AuditRow> := [];
    var errors: seq<RunKey> := [];
    for i := 0 to |records|
      invariant Advance(previous, records[..i], summary, calendar) == Ok(Advanced(next, audit, errors))
    {
      var record := records[i];
      AdvanceNext(previous, records, i, summary, calendar);
      var found := FinalSnapshot(previous, record, summary);
      if found.Err? {
        FirstErrorStays(previous, records, i + 1, summary, calendar);
        return Err(found.error);
      }
      var final := found.value;
      var expiry := ExpiryDate(record.pair.futureSymbol, record.tradeDate, calendar);
      var status: CarryStatus;
      if final.Some? && expiry.Some? && expiry.value.NotAfter(record.tradeDate) {
        status := ExpiryPositionRemaining;
        errors := errors + [record.runKey];
      } else if record.runKey !in summary && record.Key() in previous {
        status := CarriedWithoutResult;
        next := next[record.Key() := previous[record.Key()]];
      } else if record.runKey !in summary {
        status := NoResult;
      } else if final.None? {
        status := Closed;
      } else {
        status := CarriedForward;
        next := next[record.Key() := final.value];
      }
      audit := audit + [AuditRow(record, final, expiry, record.Key() in next, status)];
    }
    assert records[..|records|] == records;
    return Ok(Advanced(next, audit, errors));
  }

  lemma {:induction false} FirstErrorStays(
    previous: Carry, records: seq<Record>, n: nat, summary: map<RunKey, SummaryRow>, calendar: seq<Date>)
    requires DatedRecords(records) && n <= |records| && Advance(previous, records[..n], summary, calendar).Err?
    ensures Advance(previous, records, summary, calendar) == Advance(previous, records[..n], summary, calendar)
    decreases |records|
  {
    if n == |records| {
      assert records[..n] == records;
    } else {
      assert records[..|records| - 1][..n] == records[..n];
      FirstErrorStays(previous, records[..|records| - 1], n, summary, calendar);
    }
  }

  /** The record's own result carries its position on. */
  predicate Carries(previous: Carry, record: Record, summary: map<RunKey, SummaryRow>, calendar: seq<Date>)
    requires ValidMonth(record.tradeDate.month)
  {
    FinalSnapshot(previous, record, summary).Ok? && StatusOf(previous, record, summary, calendar).Carried()
  }

  /** Some record of the key among the first `n` carries its position on. */
  ghost predicate CarriedAmong(
    previous: Carry, records: seq<Record>, summary: map<RunKey, SummaryRow>, calendar: seq<Date>, key: PositionKey, n: nat)
    requires DatedRecords(records) && n <= |records|
  {
    exists j :: 0 <= j < n && records[j].Key() == key && Carries(previous, records[j], summary, calendar)
  }

  /** Record i is the last of its key that carries a position on. */
  ghost predicate LastCarrier(
    previous: Carry, records: seq<Record>, summary: map<RunKey, SummaryRow>, calendar: seq<Date>, i: nat)
    requires DatedRecords(records) && i < |records|
  {
    && Carries(previous, records[i], summary, calendar)
    && forall j :: i < j < |records| && records[j].Key() == records[i].Key() ==> !Carries(previous, records[j], summary, calendar)
  }

  /** The audit row of record i: its own final position, expiry and status, and whether it or an
      earlier record carried a position of its key. */
  ghost predicate Audits(
    previous: Carry, records: seq<Record>, summary: map<RunKey, SummaryRow>, calendar: seq<Date>, i: nat, row: AuditRow)
    requires DatedRecords(records) && i < |records|
  {
    && FinalSnapshot(previous, records[i], summary).Ok?
    && row == AuditRow(
         records[i], FinalSnapshot(previous, records[i], summary).value, RecordExpiry(records[i], calendar),
         CarriedAmong(previous, records, summary, calendar, records[i].Key(), i + 1),
         StatusOf(previous, records[i], summary, calendar))
  }

  /** What the records, in order, say about the whole result. */
  ghost predicate Decided(
    previous: Carry, records: seq<Record>, summary: map<RunKey, SummaryRow>, calendar: seq<Date>, a: Advanced)
    requires DatedRecords(records)
  {
    && |a.audit| == |records|
    && (forall i :: 0 <= i < |records| ==> Audits(previous, records, summary, calendar, i, a.audit[i]))
    && (forall key :: key in a.next <==> CarriedAmong(previous, records, summary, calendar, key, |records|))
    && (forall key :: key in a.next ==> CarriedLast(previous, records, summary, calendar, key, a.next[key]))
    && (forall k :: k in a.errors <==> ExpiredAmong(previous, records, summary, calendar, k))
  }

  /** The last record of the key that carries a position on ends with `snapshot`. */
  ghost predicate CarriedLast(
    previous: Carry, records: seq<Record>, summary: map<RunKey, SummaryRow>, calendar: seq<Date>, key: PositionKey,
    snapshot: PositionSnapshot)
    requires DatedRecords(records)
  {
    exists i :: 0 <= i < |records| && records[i].Key() == key && LastCarrier(previous, records, summary, calendar, i)
                && FinalSnapshot(previous, records[i], summary) == Ok(Some(snapshot))
  }

  predicate Remains(previous: Carry, record: Record, summary: map<RunKey, SummaryRow>, calendar: seq<Date>)
    requires ValidMonth(record.tradeDate.month)
  {
    FinalSnapshot(previous, record, summary).Ok? && StatusOf(previous, record, summary, calendar).ExpiryPositionRemaining?
  }

  /** A record under the run key holds a position on or past its contract's expiry. */
  ghost predicate ExpiredAmong(
    previous: Carry, records: seq<Record>, summary: map<RunKey, SummaryRow>, calendar: seq<Date>, key: RunKey)
    requires DatedRecords(records)
  {
    exists i :: 0 <= i < |records| && records[i].runKey == key && Remains(previous, records[i], summary, calendar)
  }

  /** One more record decides its own audit row, and overrides what earlier records of its key carried. */
  lemma CarriedNext(previous: Carry, records: seq<Record>, summary: map<RunKey, SummaryRow>, calendar: seq<Date>, key: PositionKey)
    requires DatedRecords(records) && records != []
    ensures
      var n := |records| - 1;
      CarriedAmong(previous, records, summary, calendar, key, |records|)
      <==> CarriedAmong(previous, records[..n], summary, calendar, key, n)
           || (records[n].Key() == key && Carries(previous, records[n], summary, calendar))
  {
    hide Carries, Record.Key;
    var n := |records| - 1;
    if CarriedAmong(previous, records[..n], summary, calendar, key, n) {
      var j :| 0 <= j < n && records[..n][j].Key() == key && Carries(previous, records[..n][j], summary, calendar);
      assert records[j] == records[..n][j];
    }
    if j :| 0 <= j < n && records[j].Key() == key && Carries(previous, records[j], summary, calendar) {
      assert records[j] == records[..n][j];
    }
  }

  lemma AuditFront(
    previous: Carry, records: seq<Record>, summary: map<RunKey, SummaryRow>, calendar: seq<Date>, i: nat, row: AuditRow)
    requires DatedRecords(records) && i < |records| - 1
    ensures Audits(previous, records, summary, calendar, i, row)
       <==> Audits(previous, records[..|records| - 1], summary, calendar, i, row)
  {
    hide Carries, Record.Key, FinalSnapshot, StatusOf, RecordExpiry;
    var front, key := records[..|records| - 1], records[i].Key();
    assert CarriedAmong(previous, records, summary, calendar, key, i + 1)
      <==> CarriedAmong(previous, front, summary, calendar, key, i + 1) by {
      if j :| 0 <= j < i + 1 && records[j].Key() == key && Carries(previous, records[j], summary, calendar) {
        assert front[j] == records[j];
      }
      if j :| 0 <= j < i + 1 && front[j].Key() == key && Carries(previous, front[j], summary, calendar) {
        assert front[j] == records[j];
      }
    }
  }

  lemma CarriedLastNext(
    previous: Carry, records: seq<Record>, summary: map<RunKey, SummaryRow>, calendar: seq<Date>, key: PositionKey,
    snapshot: PositionSnapshot)
    requires DatedRecords(records) && records != []
    requires
      var last := records[|records| - 1];
      if last.Key() == key && Carries(previous, last, summary, calendar)
      then FinalSnapshot(previous, last, summary) == Ok(Some(snapshot))
      else CarriedLast(previous, records[..|records| - 1], summary, calendar, key, snapshot)
    ensures CarriedLast(previous, records, summary, calendar, key, snapshot)
  {
    hide Carries, Record.Key, FinalSnapshot;
    var n := |records| - 1;
    var front := records[..n];
    if records[n].Key() == key && Carries(previous, records[n], summary, calendar) {
      assert LastCarrier(previous, records, summary, calendar, n);
    } else {
      var i :| 0 <= i < n && front[i].Key() == key && LastCarrier(previous, front, summary, calendar, i)
               && FinalSnapshot(previous, front[i], summary) == Ok(Some(snapshot));
      assert records[i] == front[i];
      forall j | i < j < |records| && records[j].Key() == records[i].Key()
        ensures !Carries(previous, records[j], summary, calendar)
      {
        if j < n { assert records[j] == front[j]; }
      }
      assert LastCarrier(previous, records, summary, calendar, i);
    }
  }

  lemma ExpiredNext(previous: Carry, records: seq<Record>, summary: map<RunKey, SummaryRow>, calendar: seq<Date>, key: RunKey)
    requires DatedRecords(records) && records != []
    ensures
      var n := |records| - 1;
      ExpiredAmong(previous, records, summary, calendar, key)
      <==> ExpiredAmong(previous, records[..n], summary, calendar, key)
           || (records[n].runKey == key && Remains(previous, records[n], summary, calendar))
  {
    hide Remains;
    var n := |records| - 1;
    if i :| 0 <= i < n && records[..n][i].runKey == key && Remains(previous, records[..n][i], summary, calendar) {
      assert records[i] == records[..n][i];
    }
    if i :| 0 <= i < n && records[i].runKey == key && Remains(previous, records[i], summary, calendar) {
      assert records[i] == records[..n][i];
    }
  }

  /** What one record adds to the result. */
  lemma AdvanceOneAdds(
    a: Advanced, previous: Carry, record: Record, summary: map<RunKey, SummaryRow>, calendar: seq<Date>)
    requires ValidMonth(record.tradeDate.month) && FinalSnapshot(previous, record, summary).Ok?
    ensures
      var after := AdvanceOne(a, previous, record, summary, calendar);
      var final := FinalSnapshot(previous, record, summary).value;
      && after.audit == a.audit + [AuditRow(record, final, RecordExpiry(record, calendar), record.Key() in after.next,
                                            StatusOf(previous, record, summary, calendar))]
      && (if Carries(previous, record, summary, calendar)
          then final.Some? && after.next == a.next[record.Key() := final.value]
          else after.next == a.next)
      && after.errors == a.errors + if Remains(previous, record, summary, calendar) then [record.runKey] else []
  {
    hide ExpiryDate, SnapshotOf;
  }

  /** Each record decides its own audit row; a position is carried exactly when some record of its
      key carries it, as the last such record left it; and exactly the expired ones are reported. */
  lemma {:induction false} AdvanceDecides(
    previous: Carry, records: seq<Record>, summary: map<RunKey, SummaryRow>, calendar: seq<Date>)
    requires DatedRecords(records) && Advance(previous, records, summary, calendar).Ok?
    ensures Decided(previous, records, summary, calendar, Advance(previous, records, summary, calendar).value)
    decreases |records|
  {
    hide FinalSnapshot, StatusOf, RecordExpiry, AdvanceOne, Carries, Remains, CarriedAmong, CarriedLast, ExpiredAmong,
      Audits, Record.Key;
    if records != [] {
      var n := |records| - 1;
      AdvanceDecides(previous, records[..n], summary, calendar);
      var before := Advance(previous, records[..n], summary, calendar).value;
      AdvanceOneAdds(before, previous, records[n], summary, calendar);
      DecidedNext(before, previous, records, summary, calendar);
    } else {
      NothingDecided(previous, summary, calendar);
    }
  }

  lemma NothingDecided(previous: Carry, summary: map<RunKey, SummaryRow>, calendar: seq<Date>)
    ensures Decided(previous, [], summary, calendar, Advanced(map[], [], []))
  {
  }

  lemma DecidedNext(
    before: Advanced, previous: Carry, records: seq<Record>, summary: map<RunKey, SummaryRow>, calendar: seq<Date>)
    requires DatedRecords(records) && records != []
    requires Decided(previous, records[..|records| - 1], summary, calendar, before)
    requires FinalSnapshot(previous, records[|records| - 1], summary).Ok?
    ensures Decided(previous, records, summary, calendar,
                    AdvanceOne(before, previous, records[|records| - 1], summary, calendar))
  {
    hide FinalSnapshot, StatusOf, RecordExpiry, AdvanceOne, Carries, Remains, CarriedAmong, CarriedLast, ExpiredAmong, Record.Key;
    var n := |records| - 1;
    var last := records[n];
    var after := AdvanceOne(before, previous, last, summary, calendar);
    AdvanceOneAdds(before, previous, last, summary, calendar);
    forall key ensures key in after.next <==> CarriedAmong(previous, records, summary, calendar, key, |records|) {
      CarriedNext(previous, records, summary, calendar, key);
    }
    forall i | 0 <= i < |records| ensures Audits(previous, records, summary, calendar, i, after.audit[i]) {
      if i < n { AuditFront(previous, records, summary, calendar, i, after.audit[i]); }
    }
    forall key | key in after.next ensures CarriedLast(previous, records, summary, calendar, key, after.next[key]) {
      CarriedLastNext(previous, records, summary, calendar, key, after.next[key]);
    }
    forall k ensures k in after.errors <==> ExpiredAmong(previous, records, summary, calendar, k) {
      ExpiredNext(previous, records, summary, calendar, k);
    }
  }

  // ---------------------------------------------------------------- one trade date

  /** A trade date's inputs; `order` enumerates the positions carried into it. */
  datatype Day = Day(
    tradeDate: Date, base: seq<Record>, order: seq<PositionKey>, excluded: set<RunKey>, summary: map<RunKey, SummaryRow>)

  /** The selected records are of the trade date; one pair may be selected more than once. */
  ghost predicate ValidDay(day: Day, carry: Carry) {
    && ValidMonth(day.tradeDate.month)
    && (forall b :: b in day.base ==> b.tradeDate == day.tradeDate)
    && Enumerates(day.order, carry)
  }

  /** The day's records before exclusions. */
  function Augmented(day: Day, carry: Carry): seq<Record>
    requires ValidDay(day, carry)
  {
    Augment(day.base, carry, day.order, day.tradeDate)
  }

  function DayRecords(day: Day, carry: Carry): seq<Record>
    requires ValidDay(day, carry)
  {
    WithoutExcluded(Augmented(day, carry), day.excluded)
  }

  lemma DayRecordsDated(day: Day, carry: Carry)
    requires ValidDay(day, carry) && WellKeyed(carry)
    ensures forall r :: r in DayRecords(day, carry) <==> r in Augmented(day, carry) && r.runKey !in day.excluded
    ensures forall r :: r in Augmented(day, carry) ==> r.tradeDate == day.tradeDate
    ensures DatedRecords(DayRecords(day, carry))
  {
    hide Augment, WithoutExcluded;
    forall r ensures r in DayRecords(day, carry) <==> r in Augmented(day, carry) && r.runKey !in day.excluded {
      WithoutExcludedMembers(Augmented(day, carry), day.excluded, r);
    }
    forall r | r in Augmented(day, carry) ensures r.tradeDate == day.tradeDate {
      AugmentRestores(day.base, carry, day.order, day.tradeDate, r);
    }
  }

  /** The carry out of one trade date. */
  function DayResult(day: Day, carry: Carry, calendar: seq<Date>): Result<Advanced, SnapshotError>
    requires ValidDay(day, carry) && WellKeyed(carry)
  {
    DayRecordsDated(day, carry);
    Advance(carry, DayRecords(day, carry), day.summary, calendar)
  }

  /** The ways a record ends the position it started from. */
  datatype Ending = ClosedByRun | ReportedExpired | ExcludedByKey

  ghost predicate EndedBy(day: Day, calendar: seq<Date>, a: Advanced, record: Record, ending: Ending)
    requires ValidMonth(record.tradeDate.month)
  {
    match ending
    case ClosedByRun =>
      record.runKey in day.summary
      && SnapshotOf(day.summary[record.runKey], record.pair, record.configPath, record.tradeDate) == Ok(None)
    case ReportedExpired => Expired(record, calendar) && record.runKey in a.errors
    case ExcludedByKey => record.runKey in day.excluded
  }

  ghost predicate RecordEnded(day: Day, calendar: seq<Date>, a: Advanced, record: Record)
    requires ValidMonth(record.tradeDate.month)
  {
    exists ending: Ending :: EndedBy(day, calendar, a, record, ending)
  }

  /** Every record of the key ended its position on the day. */
  ghost predicate EndedOn(day: Day, calendar: seq<Date>, carry: Carry, a: Advanced, key: PositionKey)
    requires ValidDay(day, carry)
  {
    forall record :: record in Augmented(day, carry) && record.Key() == key && record.tradeDate == day.tradeDate
      ==> RecordEnded(day, calendar, a, record)
  }

  /** A record of a carried key ends its position, or it is there and carries it on. */
  lemma RecordEndsOrCarries(day: Day, carry: Carry, calendar: seq<Date>, a: Advanced, record: Record)
    requires ValidDay(day, carry) && WellKeyed(carry) && DatedRecords(DayRecords(day, carry))
    requires Decided(carry, DayRecords(day, carry), day.summary, calendar, a)
    requires record in Augmented(day, carry) && record.Key() in carry
    ensures record.tradeDate == day.tradeDate
    ensures RecordEnded(day, calendar, a, record)
       <==> !(record in DayRecords(day, carry) && Carries(carry, record, day.summary, calendar))
  {
    hide Augment, WithoutExcluded, SnapshotOf, RecordExpiry, Advance, Enumerates, CarriedAmong, CarriedLast, Record.Key, WellKeyed;
    DayRecordsDated(day, carry);
    var records := DayRecords(day, carry);
    hide Augmented, DayRecords, ValidDay;
    if record in records {
      var i :| 0 <= i < |records| && records[i] == record;
      assert Audits(carry, records, day.summary, calendar, i, a.audit[i]);
      if Remains(carry, record, day.summary, calendar) {
        assert ExpiredAmong(carry, records, day.summary, calendar, record.runKey);
        assert EndedBy(day, calendar, a, record, ReportedExpired);
      } else if !Carries(carry, record, day.summary, calendar) {
        assert EndedBy(day, calendar, a, record, ClosedByRun);
      }
    } else {
      assert EndedBy(day, calendar, a, record, ExcludedByKey);
    }
  }

  lemma CarriedIffNotEnded(day: Day, carry: Carry, calendar: seq<Date>, a: Advanced, key: PositionKey)
    requires ValidDay(day, carry) && WellKeyed(carry) && DatedRecords(DayRecords(day, carry))
    requires Decided(carry, DayRecords(day, carry), day.summary, calendar, a)
    requires key in carry
    ensures key in a.next <==> !EndedOn(day, calendar, carry, a, key)
  {
    hide Augment, WithoutExcluded, WellKeyed, Enumerates, Record.Key, Carries, RecordEnded, Audits, CarriedLast, ExpiredAmong, Advance;
    DayRecordsDated(day, carry);
    var records := DayRecords(day, carry);
    hide Augmented, DayRecords, ValidDay;
    if key in a.next {
      var i :| 0 <= i < |records| && records[i].Key() == key && Carries(carry, records[i], day.summary, calendar);
      assert records[i] in records;
      RecordEndsOrCarries(day, carry, calendar, a, records[i]);
    }
    if !EndedOn(day, calendar, carry, a, key) {
      var record :| record in Augmented(day, carry) && record.Key() == key && record.tradeDate == day.tradeDate
                    && !RecordEnded(day, calendar, a, record);
      RecordEndsOrCarries(day, carry, calendar, a, record);
      var i :| 0 <= i < |records| && records[i] == record;
      assert CarriedAmong(carry, records, day.summary, calendar, key, |records|);
    }
  }

  lemma DayDecided(day: Day, carry: Carry, calendar: seq<Date>)
    requires ValidDay(day, carry) && WellKeyed(carry) && DayResult(day, carry, calendar).Ok?
    ensures DatedRecords(DayRecords(day, carry))
    ensures Decided(carry, DayRecords(day, carry), day.summary, calendar, DayResult(day, carry, calendar).value)
  {
    hide Advance, Decided, DayRecords, Augmented;
    DayRecordsDated(day, carry);
    AdvanceDecides(carry, DayRecords(day, carry), day.summary, calendar);
  }

  /** Each carried position has a record on the next date, all its records start from it, and it is
      carried on unless every one of them was closed, reported at expiry or explicitly excluded. */
  lemma NoPositionIsLost(day: Day, carry: Carry, calendar: seq<Date>, key: PositionKey)
    requires ValidDay(day, carry) && WellKeyed(carry) && DayResult(day, carry, calendar).Ok?
    requires key in carry
    ensures
      var a := DayResult(day, carry, calendar).value;
      && (exists record :: record in Augmented(day, carry) && record.Key() == key)
      && (forall record :: record in Augmented(day, carry) && record.Key() == key ==> StartsFrom(record, carry[key]))
      && (key in a.next <==> !EndedOn(day, calendar, carry, a, key))
  {
    hide DayResult, DayRecords, Augment, StartsFrom, EndedOn;
    var augmented := Augmented(day, carry);
    AugmentCounts(day.base, carry, day.order, day.tradeDate, key);
    CountPositive(augmented, key);
    forall record | record in augmented && record.Key() == key ensures StartsFrom(record, carry[key]) {
      AugmentRestores(day.base, carry, day.order, day.tradeDate, record);
    }
    DayDecided(day, carry, calendar);
    hide Decided;
    CarriedIffNotEnded(day, carry, calendar, DayResult(day, carry, calendar).value, key);
  }

  /** Everything carried on has an unexcluded record that did not expire by the trade date. */
  lemma NothingIsCarriedPastExpiry(day: Day, carry: Carry, calendar: seq<Date>, key: PositionKey)
    requires ValidDay(day, carry) && WellKeyed(carry) && DayResult(day, carry, calendar).Ok?
    requires key in DayResult(day, carry, calendar).value.next
    ensures
      var expiry := ExpiryDate(key.future, day.tradeDate, calendar);
      expiry.None? || !expiry.value.NotAfter(day.tradeDate)
  {
    hide DayResult, DayRecords, Augmented, SnapshotOf, ExpiryDate, Audits, CarriedLast, ExpiredAmong, Enumerates;
    DayRecordsDated(day, carry);
    DayDecided(day, carry, calendar);
    hide WellKeyed;
    var records := DayRecords(day, carry);
    var i :| 0 <= i < |records| && records[i].Key() == key && Carries(carry, records[i], day.summary, calendar);
    assert records[i] in records && records[i].tradeDate == day.tradeDate;
  }

  lemma DayKeepsKeys(day: Day, carry: Carry, calendar: seq<Date>)
    requires ValidDay(day, carry) && WellKeyed(carry) && DayResult(day, carry, calendar).Ok?
    ensures WellKeyed(DayResult(day, carry, calendar).value.next)
  {
    hide DayResult, DayRecords, Augmented, Audits, Record.Key, KeyOf, LastCarrier, FinalSnapshot;
    DayDecided(day, carry, calendar);
    var records, a := DayRecords(day, carry), DayResult(day, carry, calendar).value;
    forall key | key in a.next ensures KeyOf(a.next[key].pair) == key {
      assert CarriedLast(carry, records, day.summary, calendar, key, a.next[key]);
      var i :| 0 <= i < |records| && records[i].Key() == key
               && FinalSnapshot(carry, records[i], day.summary) == Ok(Some(a.next[key]));
      FinalKey(carry, records[i], day.summary, a.next[key]);
    }
  }

  /** A record ends the day with a position of its own pair. */
  lemma FinalKey(previous: Carry, record: Record, summary: map<RunKey, SummaryRow>, snapshot: PositionSnapshot)
    requires WellKeyed(previous) && FinalSnapshot(previous, record, summary) == Ok(Some(snapshot))
    ensures KeyOf(snapshot.pair) == record.Key()
  {
  }

  // ---------------------------------------------------------------- any number of dates

  /** The carry after the first `n` days, None once a day raises. */
  ghost function CarryAfter(days: seq<Day>, calendar: seq<Date>, carry: Carry, n: nat): (r: Option<Carry>)
    requires WellKeyed(carry) && n <= |days|
    ensures r.Some? ==> WellKeyed(r.value)
  {
    if n == 0 then Some(carry)
    else
      var before := CarryAfter(days, calendar, carry, n - 1);
      if before.None? || !ValidDay(days[n - 1], before.value) || DayResult(days[n - 1], before.value, calendar).Err? then None
      else
        DayKeepsKeys(days[n - 1], before.value, calendar);
        Some(DayResult(days[n - 1], before.value, calendar).value.next)
  }

  /** Over any number of dates, a position carried into the first is still carried after the last or
      ended on one of them by closing, a reported expiry or an explicit exclusion. */
  lemma {:induction false} NoPositionIsEverLost(
    days: seq<Day>, calendar: seq<Date>, carry: Carry, n: nat, key: PositionKey)
    requires WellKeyed(carry) && key in carry && n <= |days| && CarryAfter(days, calendar, carry, n).Some?
    ensures
      || key in CarryAfter(days, calendar, carry, n).value
      || EndedBefore(days, calendar, carry, n, key)
  {
    hide DayResult, EndedOn, Augmented, StartsFrom, WellKeyed, ValidDay, KeyOf;
    if n > 0 {
      NoPositionIsEverLost(days, calendar, carry, n - 1, key);
      var before := CarryAfter(days, calendar, carry, n - 1).value;
      if key in before {
        NoPositionIsLost(days[n - 1], before, calendar, key);
      }
    }
  }

  ghost predicate EndedBefore(days: seq<Day>, calendar: seq<Date>, carry: Carry, n: nat, key: PositionKey)
    requires WellKeyed(carry) && n <= |days|
  {
    n > 0
    && (EndedBefore(days, calendar, carry, n - 1, key)
        || (CarryAfter(days, calendar, carry, n - 1).Some?
            && EndedToday(days[n - 1], calendar, CarryAfter(days, calendar, carry, n - 1).value, key)))
  }

  ghost predicate EndedToday(day: Day, calendar: seq<Date>, carry: Carry, key: PositionKey)
    requires WellKeyed(carry)
  {
    && key in carry && ValidDay(day, carry)
    && DayResult(day, carry, calendar).Ok?
    && EndedOn(day, calendar, carry, DayResult(day, carry, calendar).value, key)
  }

  /** While the trade dates stay within the window in which a contract symbol keeps its meaning, no
      position is carried out of a date on or past that contract's one expiry date. */
  lemma NoPositionOutlivesItsContract(
    days: seq<Day>, calendar: seq<Date>, carry: Carry, n: nat, key: PositionKey, year: int, month: int, any: Date)
    requires WellKeyed(carry) && 0 < n <= |days| && CarryAfter(days, calendar, carry, n).Some?
    requires key in CarryAfter(days, calendar, carry, n).value
    requires NamesContract(key.future, year, month)
    requires year - 8 <= days[n - 1].tradeDate.year <= year + 1
    requires ValidMonth(any.month) && year - 8 <= any.year <= year + 1
    ensures
      var expiry := ExpiryDate(key.future, any, calendar);
      expiry.Some? && !expiry.value.NotAfter(days[n - 1].tradeDate)
  {
    var before := CarryAfter(days, calendar, carry, n - 1).value;
    hide ExpiryDate, DayResult, WellKeyed, NamesContract;
    NothingIsCarriedPastExpiry(days[n - 1], before, calendar, key);
    ExpiryIsHolidayAdjustedThirdWednesday(key.future, year, month, any, days[n - 1].tradeDate, calendar);
  }
}
