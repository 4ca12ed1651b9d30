/** The last trade date of a futures contract, read from its symbol and a reference date. */
module ContractExpiry {
  import opened Wrappers

  datatype Date = Date(year: int, month: int, day: int) {
    /** ISO text compares in this order. */
    predicate NotAfter(d: Date) {
      year < d.year || (year == d.year && (month < d.month || (month == d.month && day <= d.day)))
    }

    predicate SameMonth(d: Date) { year == d.year && month == d.month }
  }

  predicate ValidMonth(month: int) { 1 <= month <= 12 }

  // ---------------------------------------------------------------- the calendar

  predicate Leap(year: int) { year % 4 == 0 && (year % 100 != 0 || year % 400 == 0) }

  function DaysInMonth(year: int, month: int): (n: int)
    requires ValidMonth(month)
    ensures 28 <= n <= 31
  {
    if month == 2 then (if Leap(year) then 29 else 28)
    else if month in {4, 6, 9, 11} then 30 else 31
  }

  function DaysBeforeMonth(year: int, month: int): int
    requires ValidMonth(month)
  {
    if month == 1 then 0 else DaysBeforeMonth(year, month - 1) + DaysInMonth(year, month - 1)
  }

  function DaysBeforeYear(year: int): int {
    var y := year - 1;
    y * 365 + y / 4 - y / 100 + y / 400
  }

  const WEDNESDAY := 2

  /** Monday is 0. */
  function Weekday(year: int, month: int, day: int): int
    requires ValidMonth(month)
  {
    (DaysBeforeYear(year) + DaysBeforeMonth(year, month) + day + 6) % 7
  }

  /** The day after a date. */
  function NextDate(d: Date): Date
    requires ValidMonth(d.month)
  {
    if d.day < DaysInMonth(d.year, d.month) then Date(d.year, d.month, d.day + 1)
    else if d.month < 12 then Date(d.year, d.month + 1, 1)
    else Date(d.year + 1, 1, 1)
  }

  lemma Quotients(n: int)
    ensures n / 4 - (n - 1) / 4 == if n % 4 == 0 then 1 else 0
    ensures n / 100 - (n - 1) / 100 == if n % 100 == 0 then 1 else 0
    ensures n / 400 - (n - 1) / 400 == if n % 400 == 0 then 1 else 0
  {
  }

  lemma Multiples(n: int)
    ensures n % 400 == 0 ==> n % 100 == 0
    ensures n % 100 == 0 ==> n % 4 == 0
  {
  }

  lemma YearLength(year: int)
    ensures DaysBeforeYear(year + 1) - DaysBeforeYear(year) == DaysBeforeMonth(year, 12) + DaysInMonth(year, 12)
  {
    MonthStarts(year);
    Quotients(year);
    Multiples(year);
    hide DaysBeforeMonth;
  }

  lemma MonthStarts(year: int)
    ensures
      var leap := if Leap(year) then 1 else 0;
      && DaysBeforeMonth(year, 4) == 90 + leap
      && DaysBeforeMonth(year, 8) == 212 + leap
      && DaysBeforeMonth(year, 12) == 334 + leap
  {
    assert DaysBeforeMonth(year, 2) == 31;
    assert DaysBeforeMonth(year, 6) == DaysBeforeMonth(year, 4) + 61;
    assert DaysBeforeMonth(year, 8) == DaysBeforeMonth(year, 6) + 61;
    assert DaysBeforeMonth(year, 10) == DaysBeforeMonth(year, 8) + 61;
    assert DaysBeforeMonth(year, 12) == DaysBeforeMonth(year, 10) + 61;
  }

  /** Weekdays follow each other through months and years of any length, and 1 January 2025 is a
      Wednesday: together they fix the weekday of every date. */
  lemma WeekdaysFollow(d: Date)
    requires ValidMonth(d.month) && 1 <= d.day <= DaysInMonth(d.year, d.month)
    ensures ValidMonth(NextDate(d).month)
    ensures Weekday(NextDate(d).year, NextDate(d).month, NextDate(d).day) == (Weekday(d.year, d.month, d.day) + 1) % 7
    ensures 0 <= Weekday(d.year, d.month, d.day) < 7
    ensures Weekday(2025, 1, 1) == WEDNESDAY
  {
    hide NextDate, DaysBeforeYear, DaysBeforeMonth, DaysInMonth;
    NextIsOneLater(d);
    Anchor();
    NextRemainder(DaysBeforeYear(d.year) + DaysBeforeMonth(d.year, d.month) + d.day);
  }

  lemma NextRemainder(days: int)
    ensures (days + 1 + 6) % 7 == ((days + 6) % 7 + 1) % 7
  {
  }

  lemma Anchor()
    ensures Weekday(2025, 1, 1) == WEDNESDAY
  {
    assert DaysBeforeMonth(2025, 1) == 0;
    assert DaysBeforeYear(2025) == 739251;
    hide DaysBeforeYear, DaysBeforeMonth;
  }

  lemma NextIsOneLater(d: Date)
    requires ValidMonth(d.month) && 1 <= d.day <= DaysInMonth(d.year, d.month)
    ensures
      var n := NextDate(d);
      ValidMonth(n.month)
      && DaysBeforeYear(n.year) + DaysBeforeMonth(n.year, n.month) + n.day
         == DaysBeforeYear(d.year) + DaysBeforeMonth(d.year, d.month) + d.day + 1
  {
    hide DaysBeforeYear;
    if d.day == DaysInMonth(d.year, d.month) && d.month == 12 {
      YearLength(d.year);
      assert DaysBeforeMonth(d.year + 1, 1) == 0;
      hide DaysBeforeMonth;
    }
  }

  /** The Wednesdays of a month from `day` on, in order. */
  function Wednesdays(year: int, month: int, day: int): seq<int>
    requires ValidMonth(month)
    decreases DaysInMonth(year, month) + 1 - day
  {
    if day > DaysInMonth(year, month) then []
    else (if Weekday(year, month, day) == WEDNESDAY then [day] else []) + Wednesdays(year, month, day + 1)
  }

  /** Weekdays follow each other around the week. */
  lemma WeekdayAfter(year: int, month: int, day: int)
    requires ValidMonth(month)
    ensures 0 <= Weekday(year, month, day) < 7
    ensures Weekday(year, month, day + 1) == if Weekday(year, month, day) == 6 then 0 else Weekday(year, month, day) + 1
  {
    hide DaysBeforeYear, DaysBeforeMonth;
  }

  lemma {:induction false} NextWednesday(year: int, month: int, day: int)
    requires ValidMonth(month)
    requires day + (WEDNESDAY - Weekday(year, month, day)) % 7 <= DaysInMonth(year, month)
    ensures
      var next := day + (WEDNESDAY - Weekday(year, month, day)) % 7;
      && Weekday(year, month, next) == WEDNESDAY
      && Wednesdays(year, month, day) == [next] + Wednesdays(year, month, next + 1)
    decreases (WEDNESDAY - Weekday(year, month, day)) % 7
  {
    hide Weekday, DaysInMonth;
    WeekdayAfter(year, month, day);
    if Weekday(year, month, day) != WEDNESDAY {
      NextWednesday(year, month, day + 1);
    }
  }

  lemma SameWeekday(year: int, month: int, a: int, b: int)
    requires ValidMonth(month)
    ensures Weekday(year, month, a) == Weekday(year, month, b) <==> (a - b) % 7 == 0
  {
  }

  lemma ThirdWednesdayListed(year: int, month: int)
    requires ValidMonth(month)
    ensures |Wednesdays(year, month, 1)| >= 3
    ensures 15 <= Wednesdays(year, month, 1)[2] <= 21
    ensures Weekday(year, month, Wednesdays(year, month, 1)[2]) == WEDNESDAY
  {
    NextWednesday(year, month, 1);
    var w := Wednesdays(year, month, 1);
    var first := w[0];
    hide Wednesdays, Weekday;
    SameWeekday(year, month, first, first + 7);
    SameWeekday(year, month, first, first + 14);
    SecondWednesday(year, month, first);
    SecondWednesday(year, month, first + 7);
    assert w[1..] == Wednesdays(year, month, first + 1);
    assert w[2] == w[1..][1];
  }

  lemma SecondWednesday(year: int, month: int, day: int)
    requires ValidMonth(month) && 1 <= day <= 21 && Weekday(year, month, day) == WEDNESDAY
    ensures Wednesdays(year, month, day + 1) == [day + 7] + Wednesdays(year, month, day + 8)
  {
    hide Wednesdays, DaysBeforeYear, DaysBeforeMonth;
    assert (WEDNESDAY - Weekday(year, month, day + 1)) % 7 == 6;
    NextWednesday(year, month, day + 1);
  }

  /** The third Wednesday is the one Wednesday from the 15th to the 21st. */
  lemma ThirdWednesday(year: int, month: int)
    requires ValidMonth(month)
    ensures
      var w := Wednesdays(year, month, 1);
      && |w| >= 3
      && 15 <= w[2] <= 21
      && forall day :: 15 <= day <= 21 ==> (Weekday(year, month, day) == WEDNESDAY <==> day == w[2])
  {
    ThirdWednesdayListed(year, month);
    hide Wednesdays, Weekday;
    forall day | 15 <= day <= 21
      ensures Weekday(year, month, day) == WEDNESDAY <==> day == Wednesdays(year, month, 1)[2]
    {
      SameWeekday(year, month, day, Wednesdays(year, month, 1)[2]);
    }
  }

  // ---------------------------------------------------------------- the contract year

  function Distance(year: int, month: int, reference: Date): int {
    var months := (year - reference.year) * 12 + month - reference.month;
    if months < 0 then -months else months
  }

  /** The first year closest to the reference among those from `from` below `to` with the last digit. */
  function ClosestYear(from: int, limit: int, digit: int, month: int, reference: Date): Option<int>
    decreases limit - from
  {
    if from >= limit then None
    else
      var later := ClosestYear(from + 1, limit, digit, month, reference);
      if from % 10 != digit then later
      else if later.None? || Distance(from, month, reference) <= Distance(later.value, month, reference) then Some(from)
      else later
  }

  /** The year a contract digit and month mean at a reference date. */
  function ContractYear(digit: int, month: int, reference: Date): Option<int> {
    ClosestYear(reference.year - 1, reference.year + 11, digit, month, reference)
  }

  lemma {:induction false} ClosestYearIsCandidate(from: int, limit: int, digit: int, month: int, reference: Date)
    requires 0 <= digit < 10
    ensures
      var year := ClosestYear(from, limit, digit, month, reference);
      && (year.Some? ==> from <= year.value < limit && year.value % 10 == digit)
      && (year.None? ==> forall y :: from <= y < limit ==> y % 10 != digit)
    decreases limit - from
  {
    if from < limit { ClosestYearIsCandidate(from + 1, limit, digit, month, reference); }
  }

  /** The nearest candidate is always the earliest one: ten years are too far to compete. */
  lemma {:induction false} EarliestIsClosest(from: int, year: int, digit: int, month: int, reference: Date)
    requires ValidMonth(month) && ValidMonth(reference.month) && year % 10 == digit
    requires reference.year - 1 <= from <= year <= reference.year + 8 && from > year - 10
    ensures ClosestYear(from, reference.year + 11, digit, month, reference) == Some(year)
    decreases year - from
  {
    hide Distance;
    if from < year {
      OtherDigit(from, year);
      EarliestIsClosest(from + 1, year, digit, month, reference);
    } else {
      ClosestYearIsCandidate(year + 1, reference.year + 11, digit, month, reference);
      var later := ClosestYear(year + 1, reference.year + 11, digit, month, reference);
      if later.Some? {
        TenYearsLater(year, later.value);
        FartherYear(year, later.value, month, reference);
      }
    }
  }

  lemma OtherDigit(a: int, b: int)
    requires a < b < a + 10
    ensures a % 10 != b % 10
  {
  }

  lemma TenYearsLater(a: int, b: int)
    requires a < b && a % 10 == b % 10
    ensures b >= a + 10
  {
  }

  lemma FartherYear(year: int, later: int, month: int, reference: Date)
    requires ValidMonth(month) && ValidMonth(reference.month)
    requires reference.year - 1 <= year <= reference.year + 8 && later >= year + 10
    ensures Distance(year, month, reference) <= Distance(later, month, reference)
  {
  }

  /** The first year from `from` on with the digit of `year`. */
  function FirstWithDigit(from: int, year: int): (first: int)
    ensures from <= first < from + 10 && first % 10 == year % 10
    ensures from <= year < from + 10 ==> first == year
  {
    from + (year - from) % 10
  }

  /** A contract of year Y is read as year Y exactly from eight years before Y to one year after. */
  lemma ContractYearIff(year: int, month: int, reference: Date)
    requires ValidMonth(month) && ValidMonth(reference.month)
    ensures ContractYear(year % 10, month, reference) == Some(year) <==> year - 8 <= reference.year <= year + 1
  {
    hide ClosestYear, FirstWithDigit;
    var from := reference.year - 1;
    EarliestIsClosest(from, FirstWithDigit(from, year), year % 10, month, reference);
  }

  // ---------------------------------------------------------------- the expiry date

  /** A..L for January to December. */
  function MonthOfCode(code: char): Option<int> {
    if 'A' <= code <= 'L' then Some(code as int - 'A' as int + 1) else None
  }

  /** The latest listed trade date in the nominal month that is not after the nominal date. */
  function LatestListed(calendar: seq<Date>, nominal: Date): Option<Date> {
    if calendar == [] then None
    else
      var rest := LatestListed(calendar[1..], nominal);
      var d := calendar[0];
      if d.SameMonth(nominal) && d.NotAfter(nominal) && (rest.None? || rest.value.NotAfter(d)) then Some(d) else rest
  }

  /** futures_contract_expiry_date, for a symbol already trimmed and in upper case. */
  function ExpiryDate(symbol: string, reference: Date, calendar: seq<Date>): Option<Date>
    requires ValidMonth(reference.month)
  {
    if |symbol| < 5 then None
    else
      var month, digit := MonthOfCode(symbol[|symbol| - 2]), symbol[|symbol| - 1];
      if month.None? || !('0' <= digit <= '9') then None
      else
        var year := ContractYear(digit as int - '0' as int, month.value, reference);
        if year.None? then None
        else
          ThirdWednesday(year.value, month.value);
          var nominal := Date(year.value, month.value, Wednesdays(year.value, month.value, 1)[2]);
          var listed := LatestListed(calendar, nominal);
          if listed.Some? then listed else Some(nominal)
  }

  lemma {:induction false} LatestListedIsLatest(calendar: seq<Date>, nominal: Date)
    ensures
      var listed := LatestListed(calendar, nominal);
      && (listed.Some? ==> listed.value in calendar && listed.value.SameMonth(nominal) && listed.value.NotAfter(nominal))
      && forall d :: d in calendar && d.SameMonth(nominal) && d.NotAfter(nominal) ==>
           listed.Some? && d.NotAfter(listed.value)
    decreases |calendar|
  {
    if calendar != [] { LatestListedIsLatest(calendar[1..], nominal); }
  }

  /** A symbol of the given contract month. */
  predicate NamesContract(symbol: string, year: int, month: int) {
    && |symbol| >= 5
    && ValidMonth(month)
    && MonthOfCode(symbol[|symbol| - 2]) == Some(month)
    && symbol[|symbol| - 1] as int == '0' as int + year % 10
  }

  /** The third Wednesday of the month, or the last listed trade date up to it in that month. */
  ghost predicate IsAdjustedThirdWednesday(expiry: Date, year: int, month: int, calendar: seq<Date>)
    requires ValidMonth(month)
  {
    exists day ::
      && 15 <= day <= 21
      && Weekday(year, month, day) == WEDNESDAY
      && var nominal := Date(year, month, day);
         && expiry.SameMonth(nominal) && expiry.NotAfter(nominal)
         && (expiry == nominal || expiry in calendar)
         && forall d :: d in calendar && d.SameMonth(nominal) && d.NotAfter(nominal) ==> d.NotAfter(expiry)
  }

  lemma ExpiryAsRead(symbol: string, year: int, read: int, month: int, reference: Date, calendar: seq<Date>)
    requires NamesContract(symbol, year, month) && ValidMonth(reference.month)
    requires ContractYear(year % 10, month, reference) == Some(read)
    ensures
      var expiry := ExpiryDate(symbol, reference, calendar);
      expiry.Some? && expiry.value.year == read && IsAdjustedThirdWednesday(expiry.value, read, month, calendar)
  {
    ThirdWednesday(read, month);
    hide Wednesdays, Weekday, ContractYear, LatestListed;
    var third := Wednesdays(read, month, 1)[2];
    var nominal := Date(read, month, third);
    LatestListedIsLatest(calendar, nominal);
    var expiry := ExpiryDate(symbol, reference, calendar).value;
    assert expiry == if LatestListed(calendar, nominal).Some? then LatestListed(calendar, nominal).value else nominal;
    assert 15 <= third <= 21 && Weekday(read, month, third) == WEDNESDAY;
  }

  /** From eight years before the contract year to one year after it, every reference date gives the
      same expiry: the third Wednesday of the contract month, brought back to a listed trade date. */
  lemma ExpiryIsHolidayAdjustedThirdWednesday(
    symbol: string, year: int, month: int, reference: Date, other: Date, calendar: seq<Date>)
    requires NamesContract(symbol, year, month) && ValidMonth(reference.month) && ValidMonth(other.month)
    requires year - 8 <= reference.year <= year + 1 && year - 8 <= other.year <= year + 1
    ensures
      var expiry := ExpiryDate(symbol, reference, calendar);
      && expiry.Some?
      && IsAdjustedThirdWednesday(expiry.value, year, month, calendar)
      && ExpiryDate(symbol, other, calendar) == expiry
  {
    ContractYearIff(year, month, reference);
    ContractYearIff(year, month, other);
    hide ContractYear;
    ExpiryAsRead(symbol, year, year, month, reference, calendar);
  }

  /** Outside that window the symbol is read as a contract of another year. */
  lemma ExpiryYearIff(symbol: string, year: int, month: int, reference: Date, calendar: seq<Date>)
    requires NamesContract(symbol, year, month) && ValidMonth(reference.month)
    ensures
      var expiry := ExpiryDate(symbol, reference, calendar);
      expiry.Some? && (expiry.value.year == year <==> year - 8 <= reference.year <= year + 1)
  {
    ContractYearIff(year, month, reference);
    var read := ReadYear(year, month, reference);
    hide ContractYear, ExpiryDate, IsAdjustedThirdWednesday;
    ExpiryAsRead(symbol, year, read, month, reference, calendar);
  }

  /** The January 2025 contract, seen from 2027, is read as the one of 2035. */
  lemma OldContractIsMisread(calendar: seq<Date>)
    ensures
      var expiry := ExpiryDate("CDFA5", Date(2027, 1, 4), calendar);
      NamesContract("CDFA5", 2025, 1) && expiry.Some? && expiry.value.year == 2035
  {
    hide ExpiryDate;
    ExpiryYearIff("CDFA5", 2035, 1, Date(2027, 1, 4), calendar);
  }

  /** Some year is always read. */
  lemma ReadYear(year: int, month: int, reference: Date) returns (read: int)
    requires ValidMonth(month) && ValidMonth(reference.month)
    ensures ContractYear(year % 10, month, reference) == Some(read)
  {
    hide ClosestYear, FirstWithDigit;
    read := FirstWithDigit(reference.year - 1, year);
    EarliestIsClosest(reference.year - 1, read, year % 10, month, reference);
  }
}
