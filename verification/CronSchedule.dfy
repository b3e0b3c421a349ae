/** A schedule from its text to its next run: what the five words say about a
    minute, and the first minute they name. */
module CronSchedules {
  import opened Wrappers
  import opened Text
  import opened Calendar
  import opened CronSearch
  import opened CronParse

  // ---- What the words say ----

  /** The fifth word names the weekday, Sunday as 0 or as 7. */
  ghost predicate NamesWeekday(word: string, w: int) {
    FieldAllows(word, Weekdays(), w) || (w == 0 && FieldAllows(word, Weekdays(), 7))
  }

  ghost predicate Restricted(word: string, b: Bounds) {
    exists v | b.minimum <= v <= b.maximum :: !FieldAllows(word, b, v)
  }

  ghost predicate RestrictedWeekday(word: string) {
    exists w | 0 <= w <= 6 :: !NamesWeekday(word, w)
  }

  /** Both day fields must name the date, but when both leave days out one is enough. */
  ghost predicate NamesDay(words: seq<string>, d: Date)
    requires |words| == 5 && ValidDate(d)
  {
    var day, weekday := FieldAllows(words[2], Days(), d.day), NamesWeekday(words[4], Weekday(d));
    (day && weekday) || ((day || weekday) && Restricted(words[2], Days()) && RestrictedWeekday(words[4]))
  }

  ghost predicate NamesMinute(words: seq<string>, t: Moment)
    requires |words| == 5 && ValidMoment(t)
  {
    && FieldAllows(words[0], Minutes(), t.minute) && FieldAllows(words[1], Hours(), t.hour)
    && FieldAllows(words[3], Months(), t.date.month) && NamesDay(words, t.date)
  }

  /** A parsed expression fires exactly at the minutes its words name. */
  lemma FiresAsWritten(words: seq<string>, e: CronExpression, t: Moment)
    requires |words| == 5 && WellFormed(e) && Agrees(words, e) && ValidMoment(t)
    ensures Fires(e, t) <==> NamesMinute(words, t)
  {
    hide FieldAllows;
    WildcardsAreWritten(words, e);
    WeekdaysAreWritten(words, e, Weekday(t.date));
  }

  lemma WeekdaysAreWritten(words: seq<string>, e: CronExpression, w: int)
    requires |words| == 5 && WellFormed(e) && Agrees(words, e) && 0 <= w <= 6
    ensures e.weekdays[w] <==> NamesWeekday(words[4], w)
  {
    hide FieldAllows;
  }

  lemma WildcardsAreWritten(words: seq<string>, e: CronExpression)
    requires |words| == 5 && WellFormed(e) && Agrees(words, e)
    ensures e.dayWildcard <==> !Restricted(words[2], Days())
    ensures e.weekdayWildcard <==> !RestrictedWeekday(words[4])
  {
    hide FieldAllows;
    forall w | 0 <= w <= 6
      ensures e.weekdays[w] <==> NamesWeekday(words[4], w)
    {
      WeekdaysAreWritten(words, e, w);
    }
  }

  // ---- What an item says ----

  /** The values between the ends, a step apart from the first. */
  predicate EveryStep(first: int, last: int, step: int, v: int)
    requires step > 0
  {
    first <= v <= last && (v - first) % step == 0
  }

  /** A star means every value, a number itself, a range what lies between its ends. */
  lemma ItemForms(low: nat, high: nat, b: Bounds, v: int)
    requires b.minimum <= low <= high <= b.maximum
    ensures ItemMeans(Item(Every, None), b, v) <==> b.minimum <= v <= b.maximum
    ensures ItemMeans(Item(Single(Plain(low)), None), b, v) <==> v == low
    ensures ItemMeans(Item(Range(Plain(low), Plain(high)), None), b, v) <==> low <= v <= high
  {
    DecimalValue(low);
    DecimalValue(high);
    assert Meaning(Item(Every, None), b) == Some(Span(b.minimum, b.maximum, 1));
    assert Meaning(Item(Single(Plain(low)), None), b) == Some(Span(low, low, 1));
    assert Meaning(Item(Range(Plain(low), Plain(high)), None), b) == Some(Span(low, high, 1));
    hide Meaning;
  }

  function Plain(n: nat): Value {
    Number(Count(false, Decimal(n)))
  }

  /** With a step, a star and a number go on to the end of the field. */
  lemma SteppedForms(low: nat, high: nat, step: nat, b: Bounds, v: int)
    requires b.minimum <= low <= high <= b.maximum && 0 < step <= MAX_INT64
    ensures var s := Some(Count(false, Decimal(step)));
            && (ItemMeans(Item(Every, s), b, v) <==> EveryStep(b.minimum, b.maximum, step, v))
            && (ItemMeans(Item(Single(Plain(low)), s), b, v) <==> EveryStep(low, b.maximum, step, v))
            && (ItemMeans(Item(Range(Plain(low), Plain(high)), s), b, v) <==> EveryStep(low, high, step, v))
  {
    DecimalValue(low);
    DecimalValue(high);
    DecimalValue(step);
    var s := Some(Count(false, Decimal(step)));
    assert Meaning(Item(Every, s), b) == Some(Span(b.minimum, b.maximum, step));
    assert Meaning(Item(Single(Plain(low)), s), b) == Some(Span(low, b.maximum, step));
    assert Meaning(Item(Range(Plain(low), Plain(high)), s), b) == Some(Span(low, high, step));
    hide Meaning;
  }

  const YEAR := ["JAN", "FEB", "MAR", "APR", "MAY", "JUN", "JUL", "AUG", "SEP", "OCT", "NOV", "DEC"]

  const WEEK := ["SUN", "MON", "TUE", "WED", "THU", "FRI", "SAT"]

  /** The names of the months, in any case of letters, mean their places in the
      year, and there are no others. */
  lemma MonthNames(word: Word)
    ensures var month := ValueMeaning(Named(word), Months());
            && (month.Some? <==> ToUpper(word) in YEAR)
            && (month.Some? ==> 1 <= month.value <= 12 && ToUpper(word) == YEAR[month.value - 1])
  {
    assert forall i | 0 <= i < 12 :: YEAR[i] in MONTH_NAMES;
    hide ToUpper;
  }

  /** Those of the weekdays mean their places in the week that begins on Sunday. */
  lemma WeekdayNames(word: Word)
    ensures var day := ValueMeaning(Named(word), Weekdays());
            && (day.Some? <==> ToUpper(word) in WEEK)
            && (day.Some? ==> 0 <= day.value <= 6 && ToUpper(word) == WEEK[day.value])
  {
    assert forall i | 0 <= i < 7 :: WEEK[i] in WEEKDAY_NAMES;
    hide ToUpper;
  }

  // ---- From the text to the first run ----

  /** The delay leads to the first whole minute after now that the words name. */
  ghost predicate IsFirstDelay(words: seq<string>, now: Instant, delay: int)
    requires |words| == 5 && ValidInstant(now)
  {
    && delay > 0
    && (exists t | ValidMoment(t) && NamesMinute(words, t) :: Nanos(Instant(t, 0)) == Nanos(now) + delay)
    && forall t | ValidMoment(t) && Nanos(now) < Nanos(Instant(t, 0)) < Nanos(now) + delay :: !NamesMinute(words, t)
  }

  /** Registering a cron task: the text is taken exactly when it is five cron
      fields that name some date, and the first delay is as the words say. */
  method ScheduleCron(text: string, now: Instant) returns (r: Parse<int>)
    requires ValidInstant(now)
    ensures r.Read? <==>
              && ExpressionValid(Fields(text)) && !ExpressionOverruns(Fields(text))
              && exists t :: ValidMoment(t) && NamesMinute(Fields(text), t)
    ensures ExpressionValid(Fields(text)) ==> (r.Panics? <==> ExpressionOverruns(Fields(text)))
    ensures r.Read? ==> IsFirstDelay(Fields(text), now, r.value)
  {
    hide FieldAllows, Fields, ExpressionValid, ExpressionOverruns;
    var parsed := ParseCronExpression(text);
    if parsed.Panics? { return Panics; }
    if parsed.Refused? { return Refused; }
    var e := parsed.value;
    ghost var words := Fields(text);
    assert |words| == 5 by { ValidFields(words); }
    forall t | ValidMoment(t)
      ensures Fires(e, t) <==> NamesMinute(words, t)
    {
      FiresAsWritten(words, e, t);
    }
    hide Agrees, NamesMinute, WellFormed;
    var found := Next(e, now);
    if found.None? {
      NoDateNoMinute(e);
      return Refused;
    }
    r := Read(Nanos(Instant(found.value, 0)) - Nanos(now));
  }

  lemma ValidFields(words: seq<string>)
    requires ExpressionValid(words)
    ensures |words| == 5
  {
  }

  lemma NoDateNoMinute(e: CronExpression)
    requires WellFormed(e) && !HasDate(e)
    ensures forall t | ValidMoment(t) :: !Fires(e, t)
  {
  }
}
