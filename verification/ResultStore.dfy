/** The date-partitioned result store: publishing by directory renames, under crashes and failures
    of any file operation. Identities, carries and tables are left abstract. */
module ResultStore {
  import opened Wrappers
  import opened ContractExpiry

  /** A digest that tells any two values apart. */
  datatype Digest<+V> = Sha(of: V)

  datatype Table<+R> = Table(name: string, rows: seq<R>)

  datatype TableEntry<+R> = TableEntry(name: string, rows: nat, digest: Digest<seq<R>>)

  const SCHEMA_VERSION := 2

  datatype Manifest<+I, +C, +R> = Manifest(
    schemaVersion: int,
    tradeDate: Date,
    buildComplete: bool,
    inputIdentity: I,
    inputIdentitySha: Digest<I>,
    carryInSha: Digest<C>,
    carryOutSha: Digest<C>,
    runKeys: seq<string>,
    tables: seq<TableEntry<R>>)

  /** A directory of table files and the manifest, once that can be read. */
  datatype Directory<+I, +C, +R> = Directory(files: map<string, seq<R>>, manifest: Option<Manifest<I, C, R>>)

  datatype DirectoryName = Final(date: Date) | Temp(token: nat) | Superseded(date: Date, token: nat)

  type Disk<I, C, R> = map<DirectoryName, Directory<I, C, R>>

  datatype StoreError =
    | UnreadableManifest
    | UnsupportedSchema
    | IncompleteManifest
    | IdentityMismatch
    | InvalidTableName
    | ChangedTable
    | Conflict
    | OsFailure

  /** What a publication is asked to store. */
  datatype Request<+I, +C, +R> = Request(
    date: Date,
    tables: seq<Table<R>>,
    inputIdentity: I,
    carryIn: C,
    carryOut: C,
    runKeys: seq<string>,
    replaceExisting: bool)

  // ---------------------------------------------------------------- validation

  predicate LowerOrDigit(c: char) { 'a' <= c <= 'z' || '0' <= c <= '9' || c == '_' }

  predicate ValidTableName(name: string) {
    name != [] && 'a' <= name[0] <= 'z' && forall i :: 0 <= i < |name| ==> LowerOrDigit(name[i])
  }

  /** Names grow from one lower-case letter by lower-case letters, digits and underscores. */
  lemma TableNamesGrow(name: string, c: char)
    ensures !ValidTableName("") && (ValidTableName([c]) <==> 'a' <= c <= 'z')
    ensures name != "" ==>
      (ValidTableName(name + [c]) <==> ValidTableName(name) && ('a' <= c <= 'z' || '0' <= c <= '9' || c == '_'))
  {
    if name != "" && ValidTableName(name + [c]) {
      assert (name + [c])[|name|] == c;
      assert forall i :: 0 <= i < |name| ==> (name + [c])[i] == name[i];
    }
  }

  function CheckTables<R(==)>(files: map<string, seq<R>>, entries: seq<TableEntry<R>>): Option<StoreError> {
    if entries == [] then None
    else
      var e := entries[0];
      if !ValidTableName(e.name) then Some(InvalidTableName)
      else if e.name !in files || e.digest != Sha(files[e.name]) then Some(ChangedTable)
      else CheckTables(files, entries[1..])
  }

  /** validate. */
  function Validate<I(==), C, R(==)>(disk: Disk<I, C, R>, date: Date): Result<Manifest<I, C, R>, StoreError> {
    if Final(date) !in disk || disk[Final(date)].manifest.None? then Err(UnreadableManifest)
    else
      var m := disk[Final(date)].manifest.value;
      if m.schemaVersion != SCHEMA_VERSION then Err(UnsupportedSchema)
      else if m.tradeDate != date || !m.buildComplete then Err(IncompleteManifest)
      else if m.inputIdentitySha != Sha(m.inputIdentity) then Err(IdentityMismatch)
      else
        var changed := CheckTables(disk[Final(date)].files, m.tables);
        if changed.Some? then Err(changed.value) else Ok(m)
  }

  /** The completed partition is the one asked for. */
  predicate Matches<I(==), C(==), R>(m: Manifest<I, C, R>, q: Request<I, C, R>) {
    && m.inputIdentitySha == Sha(q.inputIdentity)
    && m.carryInSha == Sha(q.carryIn)
    && m.carryOutSha == Sha(q.carryOut)
    && m.runKeys == q.runKeys
  }

  // ---------------------------------------------------------------- what a publication should leave

  function Files<R>(tables: seq<Table<R>>): map<string, seq<R>> {
    if tables == [] then map[]
    else Files(tables[..|tables| - 1])[tables[|tables| - 1].name := tables[|tables| - 1].rows]
  }

  function Entries<R>(tables: seq<Table<R>>): (r: seq<TableEntry<R>>)
    ensures |r| == |tables|
    ensures forall i :: 0 <= i < |tables| ==> r[i] == TableEntry(tables[i].name, |tables[i].rows|, Sha(tables[i].rows))
  {
    seq(|tables|, i requires 0 <= i < |tables| => TableEntry(tables[i].name, |tables[i].rows|, Sha(tables[i].rows)))
  }

  function ManifestOf<I, C, R>(q: Request<I, C, R>): Manifest<I, C, R> {
    Manifest(SCHEMA_VERSION, q.date, true, q.inputIdentity, Sha(q.inputIdentity), Sha(q.carryIn), Sha(q.carryOut),
             q.runKeys, Entries(q.tables))
  }

  /** The complete partition of a request. */
  function Complete<I, C, R>(q: Request<I, C, R>): Directory<I, C, R> {
    Directory(Files(q.tables), Some(ManifestOf(q)))
  }

  /** Tables come from a dictionary, so no name repeats. */
  predicate DistinctNames<R>(tables: seq<Table<R>>) {
    forall i, j :: 0 <= i < j < |tables| ==> tables[i].name != tables[j].name
  }

  predicate ValidNames<R>(tables: seq<Table<R>>) {
    forall i :: 0 <= i < |tables| ==> ValidTableName(tables[i].name)
  }

  lemma {:induction false} FilesHold<R>(tables: seq<Table<R>>, i: nat)
    requires DistinctNames(tables) && i < |tables|
    ensures tables[i].name in Files(tables) && Files(tables)[tables[i].name] == tables[i].rows
    decreases |tables|
  {
    var n := |tables| - 1;
    if i < n {
      assert tables[i].name != tables[n].name;
      FilesHold(tables[..n], i);
    }
  }

  lemma {:induction false} EntriesCheck<R>(tables: seq<Table<R>>, from: nat)
    requires DistinctNames(tables) && ValidNames(tables) && from <= |tables|
    ensures CheckTables(Files(tables), Entries(tables)[from..]) == None
    decreases |tables| - from
  {
    if from < |tables| {
      FilesHold(tables, from);
      assert Entries(tables)[from..][1..] == Entries(tables)[from + 1..];
      EntriesCheck(tables, from + 1);
    }
  }

  /** A complete partition validates and matches its request. */
  lemma CompleteValidates<I, C, R>(disk: Disk<I, C, R>, q: Request<I, C, R>)
    requires DistinctNames(q.tables) && ValidNames(q.tables)
    requires Final(q.date) in disk && disk[Final(q.date)] == Complete(q)
    ensures Validate(disk, q.date) == Ok(ManifestOf(q)) && Matches(ManifestOf(q), q)
  {
    EntriesCheck(q.tables, 0);
    assert Entries(q.tables)[0..] == Entries(q.tables);
  }

  /** A recorded table is named properly and its file holds the rows it was recorded with. */
  predicate Unchanged<R(==)>(files: map<string, seq<R>>, e: TableEntry<R>) {
    ValidTableName(e.name) && e.name in files && files[e.name] == e.digest.of
  }

  lemma {:induction false} TablesCheckIff<R>(files: map<string, seq<R>>, entries: seq<TableEntry<R>>)
    ensures CheckTables(files, entries).None? <==> forall i :: 0 <= i < |entries| ==> Unchanged(files, entries[i])
  {
    if entries != [] {
      TablesCheckIff(files, entries[1..]);
      assert forall i :: 1 <= i < |entries| ==> entries[i] == entries[1..][i - 1];
      assert (forall i :: 0 <= i < |entries[1..]| ==> Unchanged(files, entries[1..][i]))
        <==> (forall i :: 1 <= i < |entries| ==> Unchanged(files, entries[i])) by {
        assert forall i :: 0 <= i < |entries[1..]| ==> entries[1..][i] == entries[i + 1];
      }
    }
  }

  /** A partition validates exactly when its manifest is there, current, complete and for the date, its
      identity is the digested one, and every recorded table is unchanged. */
  lemma ValidatesIff<I, C, R>(disk: Disk<I, C, R>, date: Date)
    ensures Validate(disk, date).Ok? <==>
      && Final(date) in disk && disk[Final(date)].manifest.Some?
      && var m := disk[Final(date)].manifest.value;
         && m.schemaVersion == 2 && m.tradeDate == date && m.buildComplete
         && m.inputIdentitySha.of == m.inputIdentity
         && forall i :: 0 <= i < |m.tables| ==> Unchanged(disk[Final(date)].files, m.tables[i])
    ensures Validate(disk, date).Ok? ==> disk[Final(date)].manifest == Some(Validate(disk, date).value)
  {
    if Final(date) in disk && disk[Final(date)].manifest.Some? {
      TablesCheckIff(disk[Final(date)].files, disk[Final(date)].manifest.value.tables);
    }
    hide CheckTables;
  }

  /** Under the manifest of a request, the files validate exactly when they hold its tables: a changed
      or missing table is refused. */
  lemma OnlyOriginalTablesValidate<I, C, R>(disk: Disk<I, C, R>, q: Request<I, C, R>)
    requires ValidNames(q.tables) && Final(q.date) in disk && disk[Final(q.date)].manifest == Some(ManifestOf(q))
    ensures Validate(disk, q.date).Ok? <==>
      forall i :: 0 <= i < |q.tables| ==>
        q.tables[i].name in disk[Final(q.date)].files && disk[Final(q.date)].files[q.tables[i].name] == q.tables[i].rows
  {
    ValidatesIff(disk, q.date);
    var files, entries := disk[Final(q.date)].files, Entries(q.tables);
    hide Validate;
    forall i | 0 <= i < |q.tables|
      ensures Unchanged(files, entries[i]) <==> q.tables[i].name in files && files[q.tables[i].name] == q.tables[i].rows
    {
      assert ValidTableName(q.tables[i].name);
    }
  }

  /** A partition is taken for the one asked for exactly when both have the same identity, carries and
      run keys. */
  lemma MatchesIff<I, C, R>(q: Request<I, C, R>, asked: Request<I, C, R>)
    ensures Matches(ManifestOf(q), asked) <==>
      q.inputIdentity == asked.inputIdentity && q.carryIn == asked.carryIn && q.carryOut == asked.carryOut && q.runKeys == asked.runKeys
  {
  }

  // ---------------------------------------------------------------- publishing under faults

  /** What the operating system does with one file operation. A crash during a write may leave any
      content behind. */
  datatype Verdict<+R> = Proceed | Fail | Crash(torn: seq<R>)

  datatype Step = Done | Raised(error: StoreError) | Crashed

  datatype Outcome<+I, +C, +R> = Published(manifest: Manifest<I, C, R>) | Failed(error: StoreError) | Died

  ghost predicate SameAt<I, C, R>(before: Disk<I, C, R>, after: Disk<I, C, R>, name: DirectoryName) {
    (name in before <==> name in after) && (name in before ==> after[name] == before[name])
  }

  /** No completed date changes. */
  ghost predicate SameDates<I, C, R>(before: Disk<I, C, R>, after: Disk<I, C, R>) {
    forall d :: SameAt(before, after, Final(d))
  }

  /** What a publication may do to the completed dates, however it ends: nothing outside its date;
      there the old partition stays, or the new complete one is in place, or, only when replacing,
      the date is absent for the moment between the two renames. */
  ghost predicate PublishEffect<I, C, R>(before: Disk<I, C, R>, after: Disk<I, C, R>, q: Request<I, C, R>) {
    && (forall d :: d != q.date ==> SameAt(before, after, Final(d)))
    && (|| SameAt(before, after, Final(q.date))
        || ((Final(q.date) in before ==> q.replaceExisting) && Final(q.date) in after && after[Final(q.date)] == Complete(q))
        || (q.replaceExisting && Final(q.date) in before && Final(q.date) !in after))
  }

  class DailyResultStore<I(==), C(==), R(==)> {
    const faults: nat -> Verdict<R>
    var disk: Disk<I, C, R>
    /** File operations so far; a new name carries the count, so no name is used twice. */
    var clock: nat

    ghost predicate Valid()
      reads this
    {
      && (forall n: nat :: Temp(n) in disk ==> n < clock)
      && (forall d: Date, n: nat :: Superseded(d, n) in disk ==> n < clock)
    }

    constructor (faults: nat -> Verdict<R>, disk: Disk<I, C, R>, clock: nat)
      requires forall n: nat :: Temp(n) in disk ==> n < clock
      requires forall d: Date, n: nat :: Superseded(d, n) in disk ==> n < clock
      ensures Valid() && this.faults == faults && this.disk == disk && this.clock == clock
    {
      this.faults, this.disk, this.clock := faults, disk, clock;
    }

    method MakeTemp() returns (step: Step, temp: DirectoryName)
      requires Valid()
      modifies this
      ensures Valid() && clock == old(clock) + 1
      ensures temp == Temp(old(clock)) && temp !in old(disk)
      ensures SameDates(old(disk), disk)
      ensures step.Done? ==> temp in disk && disk[temp] == Directory(map[], None)
      ensures faults(old(clock)).Proceed? ==> step.Done?
    {
      temp := Temp(clock);
      match faults(clock) {
        case Proceed => step, disk := Done, disk[temp := Directory(map[], None)];
        case Fail => step := Raised(OsFailure);
        case Crash(_) => step := Crashed;
      }
      clock := clock + 1;
    }

    method WriteTable(temp: DirectoryName, table: Table<R>) returns (step: Step)
      requires Valid() && temp in disk && temp.Temp?
      modifies this
      ensures Valid() && clock >= old(clock) && temp in disk
      ensures SameDates(old(disk), disk)
      ensures step.Done? ==>
        disk[temp] == Directory(old(disk)[temp].files[table.name := table.rows], old(disk)[temp].manifest)
        && ValidTableName(table.name)
      ensures faults(old(clock)).Proceed? && ValidTableName(table.name) ==> step.Done? && clock == old(clock) + 1
    {
      if !ValidTableName(table.name) {
        return Raised(InvalidTableName);
      }
      var directory := disk[temp];
      match faults(clock) {
        case Proceed => step, disk := Done, disk[temp := directory.(files := directory.files[table.name := table.rows])];
        case Fail => step := Raised(OsFailure);
        case Crash(torn) => step, disk := Crashed, disk[temp := directory.(files := directory.files[table.name := torn])];
      }
      clock := clock + 1;
    }

    method WriteManifest(temp: DirectoryName, manifest: Manifest<I, C, R>) returns (step: Step)
      requires Valid() && temp in disk && temp.Temp?
      modifies this
      ensures Valid() && clock == old(clock) + 1 && temp in disk
      ensures SameDates(old(disk), disk)
      ensures step.Done? ==> disk[temp] == Directory(old(disk)[temp].files, Some(manifest))
      ensures faults(old(clock)).Proceed? ==> step.Done?
    {
      match faults(clock) {
        case Proceed => step, disk := Done, disk[temp := disk[temp].(manifest := Some(manifest))];
        case Fail => step := Raised(OsFailure);
        case Crash(_) => step := Crashed;
      }
      clock := clock + 1;
    }

    /** os.replace onto a name not in use: the one atomic step. */
    method Rename(source: DirectoryName, target: DirectoryName) returns (step: Step)
      requires Valid() && source in disk && target !in disk
      requires (target.Temp? || target.Superseded?) ==> target.token <= clock
      modifies this
      ensures Valid() && clock == old(clock) + 1
      ensures if step.Done? then disk == (old(disk) - {source})[target := old(disk)[source]] else disk == old(disk)
      ensures faults(old(clock)).Proceed? ==> step.Done?
    {
      match faults(clock) {
        case Proceed => step, disk := Done, (disk - {source})[target := disk[source]];
        case Fail => step := Raised(OsFailure);
        case Crash(_) => step := Crashed;
      }
      clock := clock + 1;
    }

    method RemoveTemp(temp: DirectoryName) returns (step: Step)
      requires Valid() && temp.Temp?
      modifies this
      ensures Valid() && clock == old(clock) + 1
      ensures SameDates(old(disk), disk)
      ensures step.Done? ==> temp !in disk
    {
      match faults(clock) {
        case Proceed => step, disk := Done, disk - {temp};
        case Fail => step := Raised(OsFailure);
        case Crash(_) => step := Crashed;
      }
      clock := clock + 1;
    }

    /** No file operation from `from` on fails. */
    ghost predicate FaultFree(from: nat) { forall k :: k >= from ==> faults(k).Proceed? }

    method WriteTables(temp: DirectoryName, tables: seq<Table<R>>) returns (step: Step)
      requires Valid() && temp in disk && temp.Temp? && disk[temp] == Directory(map[], None)
      modifies this
      ensures Valid() && clock >= old(clock) && temp in disk
      ensures SameDates(old(disk), disk)
      ensures step.Done? ==> disk[temp] == Directory(Files(tables), None) && ValidNames(tables)
      ensures FaultFree(old(clock)) && ValidNames(tables) ==> step.Done?
    {
      for i := 0 to |tables|
        invariant Valid() && clock >= old(clock) && temp in disk
        invariant SameDates(old(disk), disk)
        invariant disk[temp] == Directory(Files(tables[..i]), None) && ValidNames(tables[..i])
      {
        assert tables[..i + 1][..i] == tables[..i];
        step := WriteTable(temp, tables[i]);
        if !step.Done? { return; }
        assert forall j :: 0 <= j < i ==> tables[..i + 1][j] == tables[..i][j];
      }
      assert tables[..|tables|] == tables;
      step := Done;
    }

    /** Put the finished temporary directory in place; on failure put a partition moved aside back. */
    method MoveIn(temp: DirectoryName, q: Request<I, C, R>) returns (step: Step)
      requires Valid() && temp in disk && temp.Temp? && disk[temp] == Complete(q)
      requires Final(q.date) in disk ==> q.replaceExisting
      modifies this
      ensures Valid() && clock >= old(clock)
      ensures PublishEffect(old(disk), disk, q)
      ensures step.Done? ==> Final(q.date) in disk && disk[Final(q.date)] == Complete(q)
      ensures step.Raised? && Final(q.date) !in old(disk) ==> Final(q.date) !in disk
      ensures FaultFree(old(clock)) ==> step.Done?
    {
      var final := Final(q.date);
      if final !in disk {
        step := Rename(temp, final);
        return;
      }
      var stale := Superseded(q.date, clock);
      step := Rename(final, stale);
      if !step.Done? { return; }
      step := Rename(temp, final);
      if step.Raised? {
        var restored := Rename(stale, final);
        if !restored.Done? { step := restored; }
      }
    }

    /** publish. */
    method Publish(q: Request<I, C, R>) returns (outcome: Outcome<I, C, R>)
      requires Valid() && DistinctNames(q.tables)
      modifies this
      ensures Valid() && clock >= old(clock)
      ensures PublishEffect(old(disk), disk, q)
      ensures outcome.Published? ==> Validate(disk, q.date) == Ok(outcome.manifest) && Matches(outcome.manifest, q)
      ensures Final(q.date) in old(disk) && Validate(old(disk), q.date).Err? ==>
        outcome == Failed(Validate(old(disk), q.date).error) && disk == old(disk)
      ensures Final(q.date) in old(disk) && !q.replaceExisting && Validate(old(disk), q.date).Ok? ==>
        disk == old(disk)
        && outcome == if Matches(Validate(old(disk), q.date).value, q) then Published(Validate(old(disk), q.date).value) else Failed(Conflict)
      ensures FaultFree(old(clock)) && ValidNames(q.tables)
              && (Final(q.date) !in old(disk) || (q.replaceExisting && Validate(old(disk), q.date).Ok?)) ==>
        outcome == Published(ManifestOf(q)) && Final(q.date) in disk && disk[Final(q.date)] == Complete(q)
    {
      if Final(q.date) in disk {
        var existing := Validate(disk, q.date);
        if existing.Err? { return Failed(existing.error); }
        if !q.replaceExisting {
          if Matches(existing.value, q) { return Published(existing.value); }
          return Failed(Conflict);
        }
      }
      ghost var before := disk;
      var step, temp := MakeTemp();
      if step.Raised? { return Failed(step.error); }
      if step.Crashed? { return Died; }
      step := WriteTables(temp, q.tables);
      if step.Done? { step := WriteManifest(temp, ManifestOf(q)); }
      assert SameDates(before, disk);
      assert SameAt(before, disk, Final(q.date));
      if step.Done? { step := MoveIn(temp, q); }
      if step.Crashed? { return Died; }
      if step.Raised? {
        var cleanup := RemoveTemp(temp);
        return if cleanup.Crashed? then Died else Failed(step.error);
      }
      CompleteValidates(disk, q);
      return Published(ManifestOf(q));
    }

    /** validated_prefix: the verified dates before the first break of the carry chain. */
    method ValidatedPrefix(dates: seq<Date>, firstCarry: C, identities: Option<map<Date, I>>)
      returns (prefix: seq<Manifest<I, C, R>>)
      ensures |prefix| <= |dates|
      ensures forall i :: 0 <= i < |prefix| ==> Validate(disk, dates[i]) == Ok(prefix[i])
      ensures forall n: nat :: n <= |dates| ==> (Unbroken(disk, dates, firstCarry, identities, n) <==> n <= |prefix|)
    {
      prefix := [];
      var expected := Sha(firstCarry);
      for i := 0 to |dates|
        invariant |prefix| == i && expected == CarryInto(disk, dates, firstCarry, i)
        invariant forall j :: 0 <= j < i ==> Validate(disk, dates[j]) == Ok(prefix[j])
        invariant Unbroken(disk, dates, firstCarry, identities, i)
      {
        var found := Validate(disk, dates[i]);
        if found.Err? || found.value.carryInSha != expected {
          assert !Linked(disk, dates, firstCarry, identities, i);
          break;
        }
        if identities.Some?
          && (dates[i] !in identities.value || found.value.inputIdentitySha != Sha(identities.value[dates[i]])) {
          assert !Linked(disk, dates, firstCarry, identities, i);
          break;
        }
        prefix := prefix + [found.value];
        expected := found.value.carryOutSha;
      }
    }
  }

  // ---------------------------------------------------------------- chains and sequences of publications

  /** The carry a date has to start from: the first carry, or what the date before it ended with. */
  function CarryInto<I(==), C, R(==)>(disk: Disk<I, C, R>, dates: seq<Date>, firstCarry: C, i: nat): Digest<C>
    requires i <= |dates|
  {
    if i == 0 || Validate(disk, dates[i - 1]).Err? then Sha(firstCarry) else Validate(disk, dates[i - 1]).value.carryOutSha
  }

  predicate Linked<I(==), C(==), R(==)>(
    disk: Disk<I, C, R>, dates: seq<Date>, firstCarry: C, identities: Option<map<Date, I>>, i: nat)
    requires i < |dates|
  {
    var found := Validate(disk, dates[i]);
    && found.Ok?
    && found.value.carryInSha == CarryInto(disk, dates, firstCarry, i)
    && (identities.Some? ==>
          dates[i] in identities.value && found.value.inputIdentity == identities.value[dates[i]])
  }

  /** The first n dates form an unbroken chain of verified partitions with the expected identities. */
  predicate Unbroken<I(==), C(==), R(==)>(
    disk: Disk<I, C, R>, dates: seq<Date>, firstCarry: C, identities: Option<map<Date, I>>, n: nat)
    requires n <= |dates|
  {
    forall i :: 0 <= i < n ==> Linked(disk, dates, firstCarry, identities, i)
  }

  /** In an unbroken chain every date validates, the first starts from the first carry, each next one from
      what the date before it ended with, and each has its expected identity. */
  lemma UnbrokenIff<I, C, R>(
    disk: Disk<I, C, R>, dates: seq<Date>, firstCarry: C, identities: Option<map<Date, I>>, n: nat)
    requires n <= |dates|
    ensures Unbroken(disk, dates, firstCarry, identities, n) <==>
      && (forall i :: 0 <= i < n ==> Validate(disk, dates[i]).Ok?)
      && (n > 0 ==> Validate(disk, dates[0]).value.carryInSha.of == firstCarry)
      && (forall i :: 0 < i < n ==>
            Validate(disk, dates[i]).value.carryInSha == Validate(disk, dates[i - 1]).value.carryOutSha)
      && (identities.Some? ==> forall i :: 0 <= i < n ==>
            dates[i] in identities.value && Validate(disk, dates[i]).value.inputIdentity == identities.value[dates[i]])
  {
    hide Validate;
    forall i | 0 <= i < n
      ensures Linked(disk, dates, firstCarry, identities, i) ==> Validate(disk, dates[i]).Ok?
      ensures Validate(disk, dates[i]).Ok? && (i > 0 ==> Validate(disk, dates[i - 1]).Ok?) ==>
        (Linked(disk, dates, firstCarry, identities, i) <==>
          && (i == 0 ==> Validate(disk, dates[0]).value.carryInSha.of == firstCarry)
          && (i > 0 ==> Validate(disk, dates[i]).value.carryInSha == Validate(disk, dates[i - 1]).value.carryOutSha)
          && (identities.Some? ==>
                dates[i] in identities.value && Validate(disk, dates[i]).value.inputIdentity == identities.value[dates[i]]))
    {
    }
    hide Linked;
    if Unbroken(disk, dates, firstCarry, identities, n) {
      forall i | 0 <= i < n
        ensures Validate(disk, dates[i]).Ok?
        ensures i > 0 && Validate(disk, dates[i - 1]).Ok? ==>
          Validate(disk, dates[i]).value.carryInSha == Validate(disk, dates[i - 1]).value.carryOutSha
        ensures identities.Some? ==>
          dates[i] in identities.value && Validate(disk, dates[i]).value.inputIdentity == identities.value[dates[i]]
      {
        assert Linked(disk, dates, firstCarry, identities, i);
        if i > 0 { assert Linked(disk, dates, firstCarry, identities, i - 1); }
      }
      if n > 0 { assert Linked(disk, dates, firstCarry, identities, 0); }
    } else {
      var i :| 0 <= i < n && !Linked(disk, dates, firstCarry, identities, i);
    }
  }

  /** Disks before and after each of some publications, each complete, failed or cut short. */
  ghost predicate PublishRun<I, C, R>(disks: seq<Disk<I, C, R>>, requests: seq<Request<I, C, R>>) {
    && |disks| == |requests| + 1
    && forall i :: 0 <= i < |requests| ==> PublishEffect(disks[i], disks[i + 1], requests[i])
  }

  /** After any sequence of publications, each possibly crashing at any file operation, a date is
      absent, holds the partition it held at first, or holds one of the complete new ones. */
  lemma {:induction false} AbsentOldOrNew<I, C, R>(disks: seq<Disk<I, C, R>>, requests: seq<Request<I, C, R>>, date: Date)
    requires PublishRun(disks, requests)
    ensures
      var last := disks[|requests|];
      || Final(date) !in last
      || SameAt(disks[0], last, Final(date))
      || exists i :: 0 <= i < |requests| && requests[i].date == date && last[Final(date)] == Complete(requests[i])
    decreases |requests|
  {
    if requests != [] {
      var n := |requests| - 1;
      AbsentOldOrNew(disks[..n + 1], requests[..n], date);
      assert PublishEffect(disks[n], disks[n + 1], requests[n]);
      if date != requests[n].date {
        assert SameAt(disks[n], disks[n + 1], Final(date));
      }
    }
  }

  /** Without replacement a stored date never changes again. */
  lemma {:induction false} CompletedDatesAreImmutable<I, C, R>(
    disks: seq<Disk<I, C, R>>, requests: seq<Request<I, C, R>>, date: Date)
    requires PublishRun(disks, requests) && Final(date) in disks[0]
    requires forall i :: 0 <= i < |requests| ==> !requests[i].replaceExisting
    ensures SameAt(disks[0], disks[|requests|], Final(date))
    decreases |requests|
  {
    if requests != [] {
      var n := |requests| - 1;
      CompletedDatesAreImmutable(disks[..n + 1], requests[..n], date);
      assert PublishEffect(disks[n], disks[n + 1], requests[n]);
      if date != requests[n].date {
        assert SameAt(disks[n], disks[n + 1], Final(date));
      }
    }
  }
}
