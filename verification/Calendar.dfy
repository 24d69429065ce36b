/**
 * Civil dates and times of the proleptic Gregorian calendar, in UTC, and the
 * month arithmetic of app/services/deadlines.py.
 */
module Calendar {

  const DAY: nat := 86_400_000_000 // microseconds

  predicate Leap(year: int) { year % 4 == 0 && (year % 100 != 0 || year % 400 == 0) }

  function DaysIn(year: int, month: int): nat {
    if month == 2 then (if Leap(year) then 29 else 28)
    else if month in {4, 6, 9, 11} then 30
    else 31
  }

  datatype Ymd = Ymd(year: int, month: int, day: int)
  type Date = d: Ymd | 1 <= d.month <= 12 && 1 <= d.day <= DaysIn(d.year, d.month) witness Ymd(1, 1, 1)

  // A date and the microseconds since its midnight.
  datatype Stamp = Stamp(date: Date, micros: nat)
  type Moment = m: Stamp | m.micros < DAY witness Stamp(Ymd(1, 1, 1), 0)

  predicate Earlier(a: Date, b: Date) {
    a.year < b.year || (a.year == b.year && (a.month < b.month || (a.month == b.month && a.day < b.day)))
  }

  predicate Before(a: Moment, b: Moment) {
    Earlier(a.date, b.date) || (a.date == b.date && a.micros < b.micros)
  }

  predicate NotAfter(a: Moment, b: Moment) { !Before(b, a) }

  // ── Days ──────────────────────────────────────────────────────────

  function BeforeMonth(year: int, month: int): nat
    requires 1 <= month <= 12
  {
    if month == 1 then 0 else BeforeMonth(year, month - 1) + DaysIn(year, month - 1)
  }

  function BeforeYear(year: int): int {
    var y := year - 1;
    y * 365 + y / 4 - y / 100 + y / 400
  }

  // The day's number, 1 for 1 January of year 1.
  function Ordinal(d: Date): int { BeforeYear(d.year) + BeforeMonth(d.year, d.month) + d.day }

  function Instant(m: Moment): int { Ordinal(m.date) * DAY + m.micros }

  function Next(d: Date): Date {
    if d.day < DaysIn(d.year, d.month) then Ymd(d.year, d.month, d.day + 1)
    else if d.month < 12 then Ymd(d.year, d.month + 1, 1)
    else Ymd(d.year + 1, 1, 1)
  }

  function Previous(d: Date): Date {
    if d.day > 1 then Ymd(d.year, d.month, d.day - 1)
    else if d.month > 1 then Ymd(d.year, d.month - 1, DaysIn(d.year, d.month - 1))
    else Ymd(d.year - 1, 12, 31)
  }

  function PlusDays(d: Date, n: int): Date
    decreases if n < 0 then -n else n
  {
    if n == 0 then d else if n > 0 then PlusDays(Next(d), n - 1) else PlusDays(Previous(d), n + 1)
  }

  function Plus(m: Moment, days: int): Moment { Stamp(PlusDays(m.date, days), m.micros) }

  lemma StepQuotient(y: int, k: int)
    requires k in {4, 100, 400}
    ensures (y + 1) / k == y / k + if (y + 1) % k == 0 then 1 else 0
  {
  }

  lemma YearStep(year: int)
    ensures BeforeYear(year + 1) == BeforeYear(year) + if Leap(year) then 366 else 365
  {
    StepQuotient(year - 1, 4);
    StepQuotient(year - 1, 100);
    StepQuotient(year - 1, 400);
  }

  lemma MonthSum(year: int)
    ensures BeforeMonth(year, 12) + 31 == if Leap(year) then 366 else 365
  {
    hide Leap;
    var feb := DaysIn(year, 2);
    assert BeforeMonth(year, 2) == 31;
    assert BeforeMonth(year, 3) == 31 + feb;
    assert BeforeMonth(year, 5) == 31 + feb + 61;
    assert BeforeMonth(year, 7) == 31 + feb + 122;
    assert BeforeMonth(year, 9) == 31 + feb + 184;
    assert BeforeMonth(year, 11) == 31 + feb + 245;
  }

  lemma YearLength(year: int)
    ensures BeforeYear(year + 1) == BeforeYear(year) + if Leap(year) then 366 else 365
    ensures BeforeMonth(year, 12) + 31 == if Leap(year) then 366 else 365
  {
    YearStep(year);
    MonthSum(year);
  }

  // The days before each month, in a common year and in a leap year.
  lemma MonthsBegin(year: int)
    ensures var leap := if year % 400 == 0 || (year % 4 == 0 && year % 100 != 0) then 1 else 0;
            && BeforeMonth(year, 1) == 0 && BeforeMonth(year, 2) == 31 && BeforeMonth(year, 3) == 59 + leap
            && BeforeMonth(year, 4) == 90 + leap && BeforeMonth(year, 5) == 120 + leap && BeforeMonth(year, 6) == 151 + leap
            && BeforeMonth(year, 7) == 181 + leap && BeforeMonth(year, 8) == 212 + leap && BeforeMonth(year, 9) == 243 + leap
            && BeforeMonth(year, 10) == 273 + leap && BeforeMonth(year, 11) == 304 + leap && BeforeMonth(year, 12) == 334 + leap
            && DaysIn(year, 12) == 31
  {
    assert BeforeMonth(year, 2) == 31;
    assert BeforeMonth(year, 3) == 31 + DaysIn(year, 2);
    assert BeforeMonth(year, 5) == BeforeMonth(year, 3) + 61;
    assert BeforeMonth(year, 7) == BeforeMonth(year, 5) + 61;
    assert BeforeMonth(year, 9) == BeforeMonth(year, 7) + 62;
    assert BeforeMonth(year, 11) == BeforeMonth(year, 9) + 61;
  }

  // Midnight UTC of 1 January 1970 and of 29 February 2024 lie as many days
  // apart as their POSIX times say.
  lemma PosixDays()
    ensures Ordinal(Ymd(1970, 1, 1)) == 719_163 && Ordinal(Ymd(2024, 2, 29)) == 719_163 + 1_709_164_800 / 86_400
  {
    MonthsBegin(2024);
  }

  lemma NextIsOneMore(d: Date)
    ensures Ordinal(Next(d)) == Ordinal(d) + 1
  {
    YearLength(d.year);
  }

  lemma PreviousIsOneLess(d: Date)
    ensures Next(Previous(d)) == d && Ordinal(Previous(d)) == Ordinal(d) - 1
  {
    NextIsOneMore(Previous(d));
  }

  lemma {:induction false} PlusDaysOrdinal(d: Date, n: int)
    ensures Ordinal(PlusDays(d, n)) == Ordinal(d) + n
    decreases if n < 0 then -n else n
  {
    if n > 0 {
      NextIsOneMore(d);
      PlusDaysOrdinal(Next(d), n - 1);
    } else if n < 0 {
      PreviousIsOneLess(d);
      PlusDaysOrdinal(Previous(d), n + 1);
    }
  }

  lemma {:induction false} MonthsGrow(year: int, m: int, n: int)
    requires 1 <= m < n <= 12
    ensures BeforeMonth(year, m) + DaysIn(year, m) <= BeforeMonth(year, n)
    decreases n
  {
    if m < n - 1 {
      MonthsGrow(year, m, n - 1);
    }
  }

  lemma {:induction false} YearsGrow(y: int, z: int)
    requires y < z
    ensures BeforeYear(y) + (if Leap(y) then 366 else 365) <= BeforeYear(z)
    decreases z - y
  {
    YearLength(y);
    if y + 1 < z {
      YearsGrow(y + 1, z);
    }
  }

  lemma DayOfYear(d: Date)
    ensures 1 <= BeforeMonth(d.year, d.month) + d.day <= if Leap(d.year) then 366 else 365
  {
    YearLength(d.year);
    if d.month < 12 {
      MonthsGrow(d.year, d.month, 12);
    }
  }

  // Day numbers order dates as the calendar does.
  lemma OrdinalOrder(a: Date, b: Date)
    ensures Earlier(a, b) <==> Ordinal(a) < Ordinal(b)
    ensures a == b <==> Ordinal(a) == Ordinal(b)
  {
    if Earlier(a, b) {
      EarlierIsLess(a, b);
    } else if Earlier(b, a) {
      EarlierIsLess(b, a);
    } else {
      assert a == b;
    }
  }

  lemma EarlierIsLess(a: Date, b: Date)
    requires Earlier(a, b)
    ensures Ordinal(a) < Ordinal(b)
  {
    if a.year < b.year {
      YearsGrow(a.year, b.year);
      DayOfYear(a);
      DayOfYear(b);
    } else if a.month < b.month {
      MonthsGrow(a.year, a.month, b.month);
    }
  }

  lemma InstantOrder(a: Moment, b: Moment)
    ensures Before(a, b) <==> Instant(a) < Instant(b)
    ensures a == b <==> Instant(a) == Instant(b)
  {
    OrdinalOrder(a.date, b.date);
    var x, y := Ordinal(a.date), Ordinal(b.date);
    hide Ordinal;
    if x < y {
      assert (x + 1) * DAY <= y * DAY;
    } else if y < x {
      assert (y + 1) * DAY <= x * DAY;
    }
  }

  lemma PlusInstant(m: Moment, days: int)
    ensures Instant(Plus(m, days)) == Instant(m) + days * DAY
  {
    PlusDaysOrdinal(m.date, days);
    hide Ordinal;
  }

  // ── Months ────────────────────────────────────────────────────────

  function Target(d: Date, months: int): (int, int) {
    var index := d.month - 1 + months;
    (d.year + index / 12, index % 12 + 1)
  }

  // A day the month lacks becomes its last.
  function AddMonthsToDate(d: Date, months: int): Date {
    var (year, month) := Target(d, months);
    Ymd(year, month, if d.day < DaysIn(year, month) then d.day else DaysIn(year, month))
  }

  function AddMonths(m: Moment, months: int): Moment { Stamp(AddMonthsToDate(m.date, months), m.micros) }

  // So many months on in the count of all months; the same day, or the last
  // that is before it.
  lemma AddMonthsIs(m: Moment, months: int)
    ensures var d, r := m.date, AddMonths(m, months).date;
            && r.year * 12 + r.month == d.year * 12 + d.month + months
            && (r.day == d.day || (r.day < d.day && Next(r).day == 1))
    ensures AddMonths(m, months).micros == m.micros
  {
  }

  lemma AddMonthsToDateMonotone(a: Date, b: Date, months: int)
    requires !Earlier(b, a)
    ensures !Earlier(AddMonthsToDate(b, months), AddMonthsToDate(a, months))
  {
  }

  // Both days are cut to the same last day of the target month.
  predicate Collapses(a: Date, b: Date, months: int) {
    var (year, month) := Target(a, months);
    a.year == b.year && a.month == b.month && DaysIn(year, month) <= a.day < b.day
  }

  // Adding months keeps the order of two moments unless both are cut to the
  // same day and the time of day was the other way round.
  lemma AddMonthsKeepsOrderIff(a: Moment, b: Moment, months: int)
    requires NotAfter(a, b)
    ensures NotAfter(AddMonths(a, months), AddMonths(b, months)) <==>
            !(Collapses(a.date, b.date, months) && b.micros < a.micros)
  {
    AddMonthsToDateMonotone(a.date, b.date, months);
  }

  // 30 January 23:00 is before 31 January 01:00; a month later it is after it.
  lemma AddMonthsCanSwap()
    ensures var a: Moment, b: Moment := Stamp(Ymd(2027, 1, 30), 23 * (DAY / 24)), Stamp(Ymd(2027, 1, 31), DAY / 24);
            Before(a, b) && Before(AddMonths(b, 1), AddMonths(a, 1))
  {
  }

  lemma BackAndForth(m: Moment, months: int)
    ensures NotAfter(AddMonths(AddMonths(m, -months), months), m)
  {
    var d := m.date;
    var back := AddMonthsToDate(d, -months);
    assert Target(back, months) == (d.year, d.month);
  }
}
