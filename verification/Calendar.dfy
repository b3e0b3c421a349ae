/** The proleptic Gregorian calendar in a fixed-offset zone: civil dates, their
    day numbers, and the normalising constructors the cron search relies on. */
module Calendar {

  datatype Date = Date(year: int, month: int, day: int)

  /** A whole local minute. */
  datatype Moment = Moment(date: Date, hour: int, minute: int)

  predicate IsLeap(year: int) {
    year % 4 == 0 && (year % 100 != 0 || year % 400 == 0)
  }

  function DaysIn(year: int, month: int): (days: int)
    ensures 28 <= days <= 31
  {
    if month == 2 then (if IsLeap(year) then 29 else 28)
    else if month == 4 || month == 6 || month == 9 || month == 11 then 30
    else 31
  }

  predicate ValidDate(d: Date) {
    1 <= d.month <= 12 && 1 <= d.day <= DaysIn(d.year, d.month)
  }

  predicate ValidMoment(t: Moment) {
    ValidDate(t.date) && 0 <= t.hour < 24 && 0 <= t.minute < 60
  }

  function DaysInYear(year: int): int {
    if IsLeap(year) then 366 else 365
  }

  /** Days from 0001-01-01 to the first of January of the year. */
  function DaysBeforeYear(year: int): int
    decreases if year >= 1 then year - 1 else 1 - year
  {
    if year == 1 then 0
    else if year > 1 then DaysBeforeYear(year - 1) + DaysInYear(year - 1)
    else DaysBeforeYear(year + 1) - DaysInYear(year)
  }

  function DaysBeforeMonth(year: int, month: int): int
    requires 1 <= month <= 13
    decreases month
  {
    if month == 1 then 0 else DaysBeforeMonth(year, month - 1) + DaysIn(year, month - 1)
  }

  /** Days since 0001-01-01, which was a Monday. */
  function DayNumber(d: Date): int
    requires ValidDate(d)
  {
    DaysBeforeYear(d.year) + DaysBeforeMonth(d.year, d.month) + d.day - 1
  }

  /** Sunday is 0, as in Go's time.Weekday. */
  function Weekday(d: Date): (w: int)
    requires ValidDate(d)
    ensures 0 <= w < 7
  {
    (DayNumber(d) + 1) % 7
  }

  /** The position of a minute on the absolute time line. */
  function Ordinal(t: Moment): int
    requires ValidMoment(t)
  {
    DayNumber(t.date) * 1440 + t.hour * 60 + t.minute
  }

  predicate DateBefore(a: Date, b: Date) {
    a.year < b.year || (a.year == b.year && (a.month < b.month || (a.month == b.month && a.day < b.day)))
  }

  // ---- Year, month and day lengths add up ----

  lemma YearLength(year: int)
    ensures DaysBeforeYear(year + 1) == DaysBeforeYear(year) + DaysInYear(year)
    ensures DaysBeforeMonth(year, 13) == DaysInYear(year)
  {
    assert DaysBeforeMonth(year, 2) == 31;
    assert DaysBeforeMonth(year, 3) == 31 + DaysIn(year, 2);
    assert DaysBeforeMonth(year, 5) == DaysBeforeMonth(year, 3) + 61;
    assert DaysBeforeMonth(year, 7) == DaysBeforeMonth(year, 5) + 61;
    assert DaysBeforeMonth(year, 9) == DaysBeforeMonth(year, 7) + 62;
    assert DaysBeforeMonth(year, 11) == DaysBeforeMonth(year, 9) + 61;
    assert DaysBeforeMonth(year, 13) == DaysBeforeMonth(year, 11) + 61;
  }

  lemma {:induction false} YearsMonotone(a: int, b: int)
    requires a < b
    ensures DaysBeforeYear(a + 1) <= DaysBeforeYear(b)
    decreases b - a
  {
    if a + 1 < b {
      YearLength(b - 1);
      YearsMonotone(a, b - 1);
    }
  }

  lemma {:induction false} MonthsMonotone(year: int, a: int, b: int)
    requires 1 <= a < b <= 13
    ensures DaysBeforeMonth(year, a) + DaysIn(year, a) <= DaysBeforeMonth(year, b)
    decreases b - a
  {
    if a + 1 < b {
      MonthsMonotone(year, a, b - 1);
    }
  }

  lemma {:induction false} MonthsNonNegative(year: int, month: int)
    requires 1 <= month <= 13
    ensures 0 <= DaysBeforeMonth(year, month)
    decreases month
  {
    if month > 1 {
      MonthsNonNegative(year, month - 1);
    }
  }

  /** The day of the year stays inside the year. */
  lemma DayInYear(d: Date)
    requires ValidDate(d)
    ensures DaysBeforeYear(d.year) <= DayNumber(d) < DaysBeforeYear(d.year + 1)
  {
    MonthsNonNegative(d.year, d.month);
    MonthsMonotone(d.year, d.month, 13);
    YearLength(d.year);
  }

  lemma DateOrderForward(a: Date, b: Date)
    requires ValidDate(a) && ValidDate(b) && DateBefore(a, b)
    ensures DayNumber(a) < DayNumber(b)
  {
    if a.year < b.year {
      DayInYear(a);
      DayInYear(b);
      YearsMonotone(a.year, b.year);
    } else if a.month < b.month {
      MonthsMonotone(a.year, a.month, b.month);
    }
  }

  /** Day numbers order dates exactly as (year, month, day) does. */
  lemma DateOrder(a: Date, b: Date)
    requires ValidDate(a) && ValidDate(b)
    ensures DayNumber(a) < DayNumber(b) <==> DateBefore(a, b)
    ensures DayNumber(a) == DayNumber(b) <==> a == b
  {
    if DateBefore(a, b) {
      DateOrderForward(a, b);
    } else if DateBefore(b, a) {
      DateOrderForward(b, a);
    }
  }

  /** Minutes are ordered first by day and then by time of day. */
  lemma MomentOrder(a: Moment, b: Moment)
    requires ValidMoment(a) && ValidMoment(b)
    ensures Ordinal(a) < Ordinal(b) <==>
            DateBefore(a.date, b.date) || (a.date == b.date && a.hour * 60 + a.minute < b.hour * 60 + b.minute)
    ensures Ordinal(a) == Ordinal(b) <==> a == b
  {
    DateOrder(a.date, b.date);
  }

  /** The running count is the 4/100/400 closed form. */
  lemma {:induction false} ClosedForm(year: int)
    ensures DaysBeforeYear(year) == 365 * (year - 1) + (year - 1) / 4 - (year - 1) / 100 + (year - 1) / 400
    decreases if year >= 1 then year - 1 else 1 - year
  {
    if year > 1 {
      ClosedForm(year - 1);
      LeapStep(year - 1);
    } else if year < 1 {
      ClosedForm(year + 1);
      LeapStep(year);
    }
  }

  lemma LeapStep(year: int)
    ensures year / 4 - year / 100 + year / 400
         == (year - 1) / 4 - (year - 1) / 100 + (year - 1) / 400 + (if IsLeap(year) then 1 else 0)
  {
    QuotientStep(year, 4);
    QuotientStep(year, 100);
    QuotientStep(year, 400);
    CenturiesNest(year);
  }

  /** A quotient grows by one exactly at the multiples of its divisor. */
  lemma QuotientStep(n: int, k: int)
    requires k in {4, 100, 400}
    ensures n / k == (n - 1) / k + (if n % k == 0 then 1 else 0)
  {
  }

  /** Multiples of 400 are multiples of 100, and those of 4. */
  lemma CenturiesNest(year: int)
    ensures year % 400 == 0 ==> year % 100 == 0
    ensures year % 100 == 0 ==> year % 4 == 0
  {
    var q, c := year / 400, year / 100;
    assert year % 400 == 0 ==> year == 100 * (4 * q);
    assert year % 100 == 0 ==> year == 4 * (25 * c);
  }

  // ---- The normalising constructors ----

  /** time.Date's normalisation, for one month or one day too many. */
  function CivilDate(year: int, month: int, day: int): (d: Date)
    requires 1 <= month <= 13 && 1 <= day <= 32
    ensures ValidDate(d)
    ensures month <= 12 && day <= DaysIn(year, month) ==> d == Date(year, month, day)
  {
    var y := if month == 13 then year + 1 else year;
    var m := if month == 13 then 1 else month;
    if day <= DaysIn(y, m) then Date(y, m, day)
    else if m == 12 then Date(y + 1, 1, day - DaysIn(y, m))
    else Date(y, m + 1, day - DaysIn(y, m))
  }

  /** One month too many is the January of the next year. */
  lemma MonthCarry(year: int)
    ensures DaysBeforeYear(year + 1) + DaysBeforeMonth(year + 1, 1)
         == DaysBeforeYear(year) + DaysBeforeMonth(year, 13)
  {
    YearLength(year);
  }

  lemma DecemberCarry(year: int, day: int)
    requires 31 < day <= 32
    ensures DayNumber(Date(year + 1, 1, day - 31)) == DaysBeforeYear(year) + DaysBeforeMonth(year, 12) + day - 1
  {
    MonthCarry(year);
  }

  lemma DayCarry(year: int, month: int, day: int)
    requires 1 <= month <= 11 && DaysIn(year, month) < day <= 32
    ensures DayNumber(Date(year, month + 1, day - DaysIn(year, month)))
         == DaysBeforeYear(year) + DaysBeforeMonth(year, month) + day - 1
  {
  }

  /** Normalising moves the overflow to the following days: nothing is lost. */
  lemma CivilDateCounts(year: int, month: int, day: int)
    requires 1 <= month <= 13 && 1 <= day <= 32
    ensures DayNumber(CivilDate(year, month, day))
         == DaysBeforeYear(year) + DaysBeforeMonth(year, month) + day - 1
  {
    var y := if month == 13 then year + 1 else year;
    var m := if month == 13 then 1 else month;
    if month == 13 {
      MonthCarry(year);
    }
    assert CivilDate(year, month, day) == CivilDate(y, m, day);
    if day > DaysIn(y, m) {
      if m == 12 {
        DecemberCarry(y, day);
      } else {
        DayCarry(y, m, day);
      }
    }
  }

  function NextDay(d: Date): (n: Date)
    requires ValidDate(d)
    ensures ValidDate(n)
  {
    CivilDate(d.year, d.month, d.day + 1)
  }

  function NextMonth(d: Date): (n: Date)
    requires ValidDate(d)
    ensures ValidDate(n)
  {
    CivilDate(d.year, d.month + 1, 1)
  }

  lemma NextDayNumber(d: Date)
    requires ValidDate(d)
    ensures DayNumber(NextDay(d)) == DayNumber(d) + 1
  {
    CivilDateCounts(d.year, d.month, d.day + 1);
  }

  function PreviousDay(d: Date): (p: Date)
    requires ValidDate(d)
    ensures ValidDate(p)
  {
    if d.day > 1 then Date(d.year, d.month, d.day - 1)
    else if d.month > 1 then Date(d.year, d.month - 1, DaysIn(d.year, d.month - 1))
    else Date(d.year - 1, 12, 31)
  }

  lemma PreviousDayNumber(d: Date)
    requires ValidDate(d)
    ensures DayNumber(PreviousDay(d)) == DayNumber(d) - 1
  {
    NextDayNumber(PreviousDay(d));
    assert NextDay(PreviousDay(d)) == d;
  }

  // ---- Weekdays ----

  /** Whole weeks do not change the remainder. */
  lemma WholeWeeks(a: int, b: int, weeks: int)
    requires a == b + 7 * weeks
    ensures a % 7 == b % 7
  {
  }

  /** The days of the week follow each other. */
  lemma WeekdayFollows(d: Date)
    requires ValidDate(d)
    ensures Weekday(NextDay(d)) == (Weekday(d) + 1) % 7
  {
    NextDayNumber(d);
    WeekAfter(DayNumber(d), DayNumber(NextDay(d)));
  }

  lemma WeekAfter(n: int, next: int)
    requires next == n + 1
    ensures (next + 1) % 7 == ((n + 1) % 7 + 1) % 7
  {
    WholeWeeks(next + 1, (n + 1) % 7 + 1, (n + 1) / 7);
  }

  lemma DaysBeforeLaterMonth(year: int, month: int)
    requires 3 <= month <= 12
    ensures DaysBeforeMonth(year, month) ==
            28 * (month - 3) + 13 * (month + 1) / 5 + 49 + (if IsLeap(year) then 1 else 0)
  {
    assert DaysBeforeMonth(year, 2) == 31;
    assert DaysBeforeMonth(year, 3) == 31 + DaysIn(year, 2);
    assert DaysBeforeMonth(year, 5) == DaysBeforeMonth(year, 3) + 61;
    assert DaysBeforeMonth(year, 7) == DaysBeforeMonth(year, 5) + 61;
    assert DaysBeforeMonth(year, 9) == DaysBeforeMonth(year, 7) + 62;
    assert DaysBeforeMonth(year, 11) == DaysBeforeMonth(year, 9) + 61;
  }

  /** The weekday by Zeller's congruence, which takes January and February as
      months 13 and 14 of the year before: no table of days and no counting. */
  lemma WeekdayByZeller(d: Date)
    requires ValidDate(d)
    ensures var year := if d.month <= 2 then d.year - 1 else d.year;
            var month := if d.month <= 2 then d.month + 12 else d.month;
            Weekday(d) == (d.day + 13 * (month + 1) / 5 + year + year / 4 - year / 100 + year / 400 + 6) % 7
  {
    ClosedForm(d.year);
    if d.month <= 2 {
      EarlyWeekday(d, (d.year - 1) / 4 - (d.year - 1) / 100 + (d.year - 1) / 400);
    } else {
      LeapStep(d.year);
      LateWeekday(d, d.year / 4 - d.year / 100 + d.year / 400);
    }
  }

  lemma EarlyWeekday(d: Date, leaps: int)
    requires ValidDate(d) && d.month <= 2 && DaysBeforeYear(d.year) == 365 * (d.year - 1) + leaps
    ensures Weekday(d) == (d.day + 13 * (d.month + 13) / 5 + (d.year - 1) + leaps + 6) % 7
  {
    assert DaysBeforeMonth(d.year, 2) == 31;
    WholeWeeks(DayNumber(d) + 1, d.day + 13 * (d.month + 13) / 5 + (d.year - 1) + leaps + 6,
               52 * (d.year - 1) - (if d.month == 1 then 6 else 2));
  }

  lemma LateWeekday(d: Date, leaps: int)
    requires ValidDate(d) && d.month > 2
    requires DaysBeforeYear(d.year) + (if IsLeap(d.year) then 1 else 0) == 365 * (d.year - 1) + leaps
    ensures Weekday(d) == (d.day + 13 * (d.month + 1) / 5 + d.year + leaps + 6) % 7
  {
    DaysBeforeLaterMonth(d.year, d.month);
    WholeWeeks(DayNumber(d) + 1, d.day + 13 * (d.month + 1) / 5 + d.year + leaps + 6,
               52 * (d.year - 1) + 4 * (d.month - 3) + 6);
  }

  /** The first day of 1970 was a Thursday. */
  lemma KnownWeekday()
    ensures Weekday(Date(1970, 1, 1)) == 4
  {
    WeekdayByZeller(Date(1970, 1, 1));
  }

  lemma {:induction false} DateFrom(d: Date, number: int) returns (found: Date)
    requires ValidDate(d)
    ensures ValidDate(found) && DayNumber(found) == number
    decreases if number >= DayNumber(d) then number - DayNumber(d) else DayNumber(d) - number
  {
    NextDayNumber(d);
    PreviousDayNumber(d);
    found := d;
    if number > DayNumber(d) {
      found := DateFrom(NextDay(d), number);
    } else if number < DayNumber(d) {
      found := DateFrom(PreviousDay(d), number);
    }
  }

  /** Valid dates and integers correspond one to one: the day number leaves
      no day of the time line out, and DateOrder says it names none twice. */
  lemma EveryDayHasADate(number: int)
    ensures exists d :: ValidDate(d) && DayNumber(d) == number
  {
    var d := DateFrom(Date(1, 1, 1), number);
  }

  /** The moment n minutes later, for the steps of at most an hour the search takes. */
  function AddMinutes(t: Moment, n: int): (r: Moment)
    requires ValidMoment(t) && 0 <= n <= 60
    ensures ValidMoment(r)
  {
    var minutes := t.minute + n;
    if minutes < 60 then Moment(t.date, t.hour, minutes)
    else if t.hour < 23 then Moment(t.date, t.hour + 1, minutes - 60)
    else Moment(NextDay(t.date), 0, minutes - 60)
  }

  lemma AddMinutesOrdinal(t: Moment, n: int)
    requires ValidMoment(t) && 0 <= n <= 60
    ensures Ordinal(AddMinutes(t, n)) == Ordinal(t) + n
  {
    NextDayNumber(t.date);
  }

  /** time.AddDate(years, 0, 0): the same civil date, with 29 February
      becoming 1 March in a common year. */
  function AddYears(t: Moment, years: int): (r: Moment)
    requires ValidMoment(t)
    ensures ValidMoment(r)
  {
    Moment(CivilDate(t.date.year + years, t.date.month, t.date.day), t.hour, t.minute)
  }
}
