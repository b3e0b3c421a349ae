/** The cron occurrence search: the month, day, hour and minute jumps find the
    least matching minute, and eight years are always enough. */
module CronSearch {
  import opened Wrappers
  import opened Calendar

  const CRON_SEARCH_YEARS := 8

  datatype CronExpression = CronExpression(
    minutes: seq<bool>,
    hours: seq<bool>,
    daysOfMonth: seq<bool>,
    months: seq<bool>,
    weekdays: seq<bool>,
    dayWildcard: bool,
    weekdayWildcard: bool)

  /** A local time with the nanoseconds past its whole minute. */
  datatype Instant = Instant(moment: Moment, nanos: int)

  const NANOS_PER_MINUTE := 60_000_000_000

  predicate ValidInstant(at: Instant) {
    ValidMoment(at.moment) && 0 <= at.nanos < NANOS_PER_MINUTE
  }

  function Nanos(at: Instant): int
    requires ValidInstant(at)
  {
    Ordinal(at.moment) * NANOS_PER_MINUTE + at.nanos
  }

  function AllowsEvery(allowed: seq<bool>, minimum: int, maximum: int): (every: bool)
    requires 0 <= minimum && maximum < |allowed|
    ensures every <==> forall v | minimum <= v <= maximum :: allowed[v]
    decreases maximum - minimum + 1
  {
    minimum > maximum || (allowed[minimum] && AllowsEvery(allowed, minimum + 1, maximum))
  }

  predicate AllowsSome(allowed: seq<bool>, minimum: int, maximum: int)
    requires 0 <= minimum && maximum < |allowed|
  {
    exists v | minimum <= v <= maximum :: allowed[v]
  }

  /** What every parsed expression satisfies. */
  predicate WellFormed(e: CronExpression) {
    && |e.minutes| == 60 && AllowsSome(e.minutes, 0, 59)
    && |e.hours| == 24 && AllowsSome(e.hours, 0, 23)
    && |e.daysOfMonth| == 32 && AllowsSome(e.daysOfMonth, 1, 31)
    && |e.months| == 13 && AllowsSome(e.months, 1, 12)
    && |e.weekdays| == 7 && AllowsSome(e.weekdays, 0, 6)
    && e.dayWildcard == AllowsEvery(e.daysOfMonth, 1, 31)
    && e.weekdayWildcard == AllowsEvery(e.weekdays, 0, 6)
  }

  predicate MatchesDay(e: CronExpression, d: Date)
    requires WellFormed(e) && ValidDate(d)
  {
    if e.dayWildcard then e.weekdays[Weekday(d)]
    else if e.weekdayWildcard then e.daysOfMonth[d.day]
    else e.daysOfMonth[d.day] || e.weekdays[Weekday(d)]
  }

  predicate MatchesDate(e: CronExpression, d: Date)
    requires WellFormed(e) && ValidDate(d)
  {
    e.months[d.month] && MatchesDay(e, d)
  }

  /** The naive test, minute by minute, that the search must agree with. */
  predicate Fires(e: CronExpression, t: Moment)
    requires WellFormed(e) && ValidMoment(t)
  {
    MatchesDate(e, t.date) && e.hours[t.hour] && e.minutes[t.minute]
  }

  /** No minute of the half-open stretch fires. */
  ghost predicate Silent(e: CronExpression, from: int, to: int)
    requires WellFormed(e)
  {
    forall t | ValidMoment(t) && from <= Ordinal(t) < to :: !Fires(e, t)
  }

  ghost predicate HasDate(e: CronExpression)
    requires WellFormed(e)
  {
    exists d :: ValidDate(d) && MatchesDate(e, d)
  }

  // ---- No jump passes over a match ----

  function Midnight(d: Date): Moment {
    Moment(d, 0, 0)
  }

  lemma MonthJump(e: CronExpression, c: Moment)
    requires WellFormed(e) && ValidMoment(c) && !e.months[c.date.month]
    ensures Ordinal(c) < Ordinal(Midnight(NextMonth(c.date)))
    ensures Silent(e, Ordinal(c), Ordinal(Midnight(NextMonth(c.date))))
  {
    var jump := Midnight(NextMonth(c.date));
    MomentOrder(c, jump);
    forall t | ValidMoment(t) && Ordinal(c) <= Ordinal(t) < Ordinal(jump)
      ensures !Fires(e, t)
    {
      MomentOrder(t, jump);
      MomentOrder(t, c);
      assert t.date.month == c.date.month;
    }
  }

  lemma DayJump(e: CronExpression, c: Moment)
    requires WellFormed(e) && ValidMoment(c) && !MatchesDay(e, c.date)
    ensures Ordinal(c) < Ordinal(Midnight(NextDay(c.date)))
    ensures Silent(e, Ordinal(c), Ordinal(Midnight(NextDay(c.date))))
  {
    var jump := Midnight(NextDay(c.date));
    NextDayNumber(c.date);
    forall t | ValidMoment(t) && Ordinal(c) <= Ordinal(t) < Ordinal(jump)
      ensures !Fires(e, t)
    {
      assert DayNumber(t.date) == DayNumber(c.date);
      DateOrder(t.date, c.date);
    }
  }

  lemma HourJump(e: CronExpression, c: Moment)
    requires WellFormed(e) && ValidMoment(c) && !e.hours[c.hour]
    ensures Ordinal(AddMinutes(c, 60 - c.minute)) == Ordinal(c) + 60 - c.minute
    ensures Silent(e, Ordinal(c), Ordinal(c) + 60 - c.minute)
  {
    AddMinutesOrdinal(c, 60 - c.minute);
    forall t | ValidMoment(t) && Ordinal(c) <= Ordinal(t) < Ordinal(c) + 60 - c.minute
      ensures !Fires(e, t)
    {
      assert DayNumber(t.date) == DayNumber(c.date);
      assert t.hour == c.hour;
    }
  }

  lemma MinuteStep(e: CronExpression, c: Moment)
    requires WellFormed(e) && ValidMoment(c) && !e.minutes[c.minute]
    ensures Ordinal(AddMinutes(c, 1)) == Ordinal(c) + 1
    ensures Silent(e, Ordinal(c), Ordinal(c) + 1)
  {
    AddMinutesOrdinal(c, 1);
    forall t | ValidMoment(t) && Ordinal(t) == Ordinal(c)
      ensures !Fires(e, t)
    {
      MomentOrder(t, c);
    }
  }

  // ---- Eight years reach every date pattern ----

  /** A leap year follows within seven years, except around a century that is
      not one: then this year and the eighth after it both are. */
  lemma LeapNearby(year: int) returns (leap: int)
    ensures IsLeap(leap)
    ensures year < leap <= year + 7 || (leap == year + 8 && IsLeap(year))
  {
    var first := year + 4 - year % 4;
    FourthYear(year);
    if IsLeap(first) {
      leap := first;
    } else {
      BesideCentury(first);
      leap := first + 4;
    }
  }

  lemma FourthYear(year: int)
    ensures (year + 4 - year % 4) % 4 == 0
  {
  }

  /** The fourth years before and after a common century are leap years. */
  lemma BesideCentury(century: int)
    requires century % 4 == 0 && !IsLeap(century)
    ensures IsLeap(century - 4) && IsLeap(century + 4)
  {
    var n := century / 100;
    HundredsAnd(n, 4);
    HundredsAnd(n - 1, 96);
    FoursBeside(century);
  }

  lemma HundredsAnd(n: int, rest: int)
    requires 0 <= rest < 100
    ensures (100 * n + rest) % 100 == rest
  {
  }

  lemma FoursBeside(n: int)
    requires n % 4 == 0
    ensures (n - 4) % 4 == 0 && (n + 4) % 4 == 0
  {
  }

  lemma ConsecutiveDays(year: int, month: int, k: int)
    requires 1 <= month <= 12 && 1 <= k <= 7
    ensures DayNumber(Date(year, month, k)) == DayNumber(Date(year, month, 1)) + k - 1
  {
  }

  /** Every month has every weekday in its first seven days. */
  lemma WeekdayInMonth(year: int, month: int, w: int) returns (d: Date)
    requires 1 <= month <= 12 && 0 <= w < 7
    ensures ValidDate(d) && d.year == year && d.month == month && Weekday(d) == w
  {
    var first := DayNumber(Date(year, month, 1)) + 1;
    var k := 1 + (w - first) % 7;
    ConsecutiveDays(year, month, k);
    d := Date(year, month, k);
    SevenDays(first, w);
    assert Weekday(d) == (first + (w - first) % 7) % 7;
  }

  lemma SevenDays(first: int, w: int)
    requires 0 <= w < 7
    ensures (first + (w - first) % 7) % 7 == w
  {
  }

  lemma LimitYear(c: Moment)
    requires ValidMoment(c)
    ensures AddYears(c, CRON_SEARCH_YEARS).date.year == c.date.year + 8
  {
  }

  /** A date in one of the next seven years lies inside the search window. */
  lemma InsideWindow(c: Moment, t: Moment)
    requires ValidMoment(c) && ValidMoment(t) && c.date.year < t.date.year <= c.date.year + 7
    ensures Ordinal(c) <= Ordinal(t) <= Ordinal(AddYears(c, CRON_SEARCH_YEARS))
  {
    LimitYear(c);
    MomentOrder(c, t);
    MomentOrder(t, AddYears(c, CRON_SEARCH_YEARS));
  }

  lemma DayPattern(e: CronExpression, c: Moment, d: Date) returns (found: Date)
    requires WellFormed(e) && ValidMoment(c) && ValidDate(d)
    requires e.months[d.month] && e.daysOfMonth[d.day] && !e.dayWildcard
    ensures ValidDate(found) && MatchesDate(e, found)
    ensures c.date.year < found.year <= c.date.year + 7
         || (found == Date(c.date.year + 8, 2, 29) && IsLeap(c.date.year) && MatchesDate(e, Date(c.date.year, 2, 29)))
  {
    if d.day <= DaysIn(c.date.year + 1, d.month) {
      found := Date(c.date.year + 1, d.month, d.day);
    } else {
      var leap := LeapNearby(c.date.year);
      found := Date(leap, d.month, d.day);
    }
  }

  /** The window of the search contains a match whenever the calendar does. */
  lemma EightYearsReach(e: CronExpression, c: Moment, d: Date) returns (t: Moment)
    requires WellFormed(e) && ValidMoment(c) && ValidDate(d) && MatchesDate(e, d)
    ensures ValidMoment(t) && Fires(e, t)
    ensures Ordinal(c) <= Ordinal(t) <= Ordinal(AddYears(c, CRON_SEARCH_YEARS))
  {
    var hour :| 0 <= hour <= 23 && e.hours[hour];
    var minute :| 0 <= minute <= 59 && e.minutes[minute];
    var found: Date;
    if e.weekdays[Weekday(d)] && (e.dayWildcard || !e.weekdayWildcard) {
      found := WeekdayInMonth(c.date.year + 1, d.month, Weekday(d));
    } else {
      found := DayPattern(e, c, d);
    }
    t := Moment(found, hour, minute);
    if found.year <= c.date.year + 7 {
      InsideWindow(c, t);
    } else {
      var early := Moment(Date(c.date.year, 2, 29), hour, minute);
      var limit := AddYears(c, CRON_SEARCH_YEARS);
      MomentOrder(early, c);
      MomentOrder(c, early);
      MomentOrder(early, limit);
      LimitYear(c);
      if Ordinal(c) <= Ordinal(early) {
        t := early;
      } else {
        MomentOrder(c, t);
        MomentOrder(t, limit);
      }
    }
  }

  lemma SilentWindow(e: CronExpression, start: Moment, to: int)
    requires WellFormed(e) && ValidMoment(start) && Silent(e, Ordinal(start), to)
    requires Ordinal(AddYears(start, CRON_SEARCH_YEARS)) < to
    ensures !HasDate(e)
  {
    forall d | ValidDate(d)
      ensures !MatchesDate(e, d)
    {
      if MatchesDate(e, d) {
        var t := EightYearsReach(e, start, d);
      }
    }
  }

  // ---- The search ----

  lemma WholeMinutesAfter(after: Instant, t: Moment)
    requires ValidInstant(after) && ValidMoment(t)
    ensures Nanos(after) < Nanos(Instant(t, 0)) <==> Ordinal(after.moment) + 1 <= Ordinal(t)
  {
  }

  /** The least whole minute strictly after the given time that fires, or none
      exactly when no date of the whole calendar meets the month and day rules. */
  method Next(e: CronExpression, after: Instant) returns (found: Option<Moment>)
    requires WellFormed(e) && ValidInstant(after)
    ensures found.Some? ==>
              && ValidMoment(found.value) && Fires(e, found.value)
              && Nanos(after) < Nanos(Instant(found.value, 0))
              && forall t | ValidMoment(t) && Nanos(after) < Nanos(Instant(t, 0)) && Ordinal(t) < Ordinal(found.value)
                   :: !Fires(e, t)
    ensures found.None? <==> !HasDate(e)
  {
    var candidate := AddMinutes(after.moment, 1);
    AddMinutesOrdinal(after.moment, 1);
    ghost var from := Ordinal(candidate);
    var limit := AddYears(candidate, CRON_SEARCH_YEARS);
    ghost var start := candidate;

    while Ordinal(candidate) <= Ordinal(limit)
      invariant ValidMoment(candidate) && from <= Ordinal(candidate)
      invariant Silent(e, from, Ordinal(candidate))
      decreases Ordinal(limit) - Ordinal(candidate)
    {
      if !e.months[candidate.date.month] {
        MonthJump(e, candidate);
        candidate := Midnight(CivilDate(candidate.date.year, candidate.date.month + 1, 1));
      } else if !MatchesDay(e, candidate.date) {
        DayJump(e, candidate);
        candidate := Midnight(CivilDate(candidate.date.year, candidate.date.month, candidate.date.day + 1));
      } else if !e.hours[candidate.hour] {
        HourJump(e, candidate);
        candidate := AddMinutes(candidate, 60 - candidate.minute);
      } else if !e.minutes[candidate.minute] {
        MinuteStep(e, candidate);
        candidate := AddMinutes(candidate, 1);
      } else {
        forall t | ValidMoment(t) && Nanos(after) < Nanos(Instant(t, 0)) && Ordinal(t) < Ordinal(candidate)
          ensures !Fires(e, t)
        {
          WholeMinutesAfter(after, t);
        }
        WholeMinutesAfter(after, candidate);
        return Some(candidate);
      }
    }
    SilentWindow(e, start, Ordinal(candidate));
    found := None;
  }
}
