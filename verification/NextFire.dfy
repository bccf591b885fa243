/** When a cron expression fires next: the skip-ahead search against a minute-by-minute
    reading of the calendar. */
module NextFire {
  import opened Wrappers
  import opened Calendar

  datatype CronExpression = CronExpression(
    minute: seq<int>, hour: seq<int>, dayOfMonth: seq<int>, month: seq<int>, dayOfWeek: seq<int>)

  /** Cron counts weekdays from Sunday, the calendar from Monday. */
  function CronWeekday(d: Date): (w: int)
    requires 1 <= d.month <= 12
    ensures 0 <= w <= 6
  {
    (Weekday(d) + 1) % 7
  }

  /** All five fields match: day-of-month and day-of-week are both required. */
  predicate Matches(e: CronExpression, t: DateTime)
    requires 1 <= t.date.month <= 12
  {
    t.date.month in e.month && t.date.day in e.dayOfMonth && CronWeekday(t.date) in e.dayOfWeek &&
    t.hour in e.hour && t.minute in e.minute
  }

  // ---- the weekday, from a calendar on the wall ----

  const EPOCH := Date(1970, 1, 1)

  /** A numbering of weekdays from Sunday, 0, in which 1 January 1970 was a Thursday and each
      day is followed by the next of seven. */
  ghost predicate NumbersWeekdays(weekday: Date -> int) {
    && weekday(EPOCH) == 4
    && (forall d {:trigger weekday(d)} :: ValidDate(d) ==> 0 <= weekday(d) <= 6)
    && (forall d {:trigger NextDay(d)} :: ValidDate(d) && NextDay(d).Some? ==>
          weekday(NextDay(d).value) == (weekday(d) + 1) % 7)
  }

  lemma EpochIsThursday()
    ensures Ordinal(EPOCH) == 719163 && CronWeekday(EPOCH) == 4
  {
    assert DaysBeforeYear(1970) == 719162;
    assert DaysBeforeMonth(1970, 1) == 0;
  }

  lemma WeekGoesOn(n: int)
    ensures (n + 1) % 7 == (n % 7 + 1) % 7
  {
  }

  lemma NextDayNextWeekday(d: Date)
    requires ValidDate(d) && NextDay(d).Some?
    ensures CronWeekday(NextDay(d).value) == (CronWeekday(d) + 1) % 7
  {
    NextDayIsOneLater(d);
    WeekGoesOn(Ordinal(d) + 6);
    hide Ordinal, NextDay;
  }

  function PreviousDay(d: Date): (r: Date)
    requires ValidDate(d) && d != Date(MIN_YEAR, 1, 1)
    ensures ValidDate(r) && NextDay(r) == Some(d)
  {
    if d.day > 1 then d.(day := d.day - 1)
    else if d.month > 1 then Date(d.year, d.month - 1, DaysInMonth(d.year, d.month - 1))
    else Date(d.year - 1, 12, 31)
  }

  lemma {:induction false} WeekdayIsTheNumbering(weekday: Date -> int, d: Date)
    requires NumbersWeekdays(weekday) && ValidDate(d)
    ensures weekday(d) == CronWeekday(d)
    decreases if Ordinal(d) < Ordinal(EPOCH) then Ordinal(EPOCH) - Ordinal(d) else Ordinal(d) - Ordinal(EPOCH)
  {
    EpochIsThursday();
    hide Ordinal, NextDay;
    if d == EPOCH {
    } else if DateBefore(d, EPOCH) {
      DateBeforeIsSmaller(d, EPOCH);
      var next := NextDay(d).value;
      NextDayIsOneLater(d);
      NextDayNextWeekday(d);
      WeekdayIsTheNumbering(weekday, next);
    } else {
      DateBeforeIsSmaller(EPOCH, d);
      var before := PreviousDay(d);
      NextDayIsOneLater(before);
      NextDayNextWeekday(before);
      WeekdayIsTheNumbering(weekday, before);
      assert NextDay(before) == Some(d);
    }
  }

  /** Weekday fields are read in that numbering, and there is one. */
  lemma MatchesByWeekday(weekday: Date -> int, e: CronExpression, t: DateTime)
    requires NumbersWeekdays(weekday) && Valid(t)
    ensures Matches(e, t) <==>
      && t.date.month in e.month && t.date.day in e.dayOfMonth && weekday(t.date) in e.dayOfWeek
      && t.hour in e.hour && t.minute in e.minute
  {
    WeekdayIsTheNumbering(weekday, t.date);
  }

  /** In any numbering of the weekdays, the date's is one of the expression's. */
  ghost predicate OnListedWeekday(e: CronExpression, d: Date) {
    forall weekday :: NumbersWeekdays(weekday) ==> weekday(d) in e.dayOfWeek
  }

  lemma MatchIsListed(e: CronExpression, t: DateTime)
    requires Valid(t) && Matches(e, t)
    ensures OnListedWeekday(e, t.date)
  {
    forall weekday | NumbersWeekdays(weekday) ensures weekday(t.date) in e.dayOfWeek {
      WeekdayIsTheNumbering(weekday, t.date);
    }
  }

  lemma SomeNumbering() returns (weekday: Date -> int)
    ensures NumbersWeekdays(weekday)
  {
    EpochIsThursday();
    hide Ordinal, NextDay, CronWeekday;
    weekday := (d: Date) => if 1 <= d.month <= 12 then CronWeekday(d) else 0;
    forall d | ValidDate(d) && NextDay(d).Some? ensures weekday(NextDay(d).value) == (weekday(d) + 1) % 7 {
      NextDayNextWeekday(d);
    }
  }

  const SEARCH_WINDOW := 366 * MICROS_PER_DAY

  /** The stamp of `datetime.max`, past which Python raises. */
  function LastStamp(): int {
    Stamp(DateTime(Date(MAX_YEAR, 12, 31), 23, 59, 59, 999_999))
  }

  /** A matching minute in the year after `after`. */
  ghost predicate Candidate(e: CronExpression, after: DateTime, t: DateTime)
    requires Valid(after)
  {
    Valid(t) && Aligned(t) && Stamp(after) < Stamp(t) <= Stamp(after) + SEARCH_WINDOW && Matches(e, t)
  }

  /** The least matching minute strictly after `after`. */
  ghost predicate FirstCandidate(e: CronExpression, after: DateTime, t: DateTime)
    requires Valid(after)
  {
    Candidate(e, after, t) && forall u :: Candidate(e, after, u) ==> Stamp(t) <= Stamp(u)
  }

  /** `NoMatch` is the documented ValueError; `OutOfRange` is the error raised by date
      arithmetic at the end of year 9999. */
  datatype FireResult = Fires(at: DateTime) | NoMatch | OutOfRange

  ghost predicate NothingBefore(e: CronExpression, after: DateTime, t: DateTime)
    requires Valid(after) && Valid(t)
  {
    forall u :: Candidate(e, after, u) ==> Stamp(t) <= Stamp(u)
  }

  method NextFireTime(e: CronExpression, after: DateTime) returns (r: FireResult)
    requires Valid(after)
    ensures r.Fires? ==> FirstCandidate(e, after, r.at) && OnListedWeekday(e, r.at.date)
    ensures !r.Fires? ==> Stamp(after) + SEARCH_WINDOW <= LastStamp() ==> forall t :: !Candidate(e, after, t)
    ensures r.OutOfRange? ==> after.date.year >= MAX_YEAR - 1
  {
    hide Stamp;
    var start := StartOfNextMinute(after);
    StartMissesNothing(e, after);
    if start.None? || Stamp(after) + SEARCH_WINDOW > LastStamp() {
      LateStart(after);
      return OutOfRange;
    }
    var candidate := start.value;
    while Stamp(candidate) <= Stamp(after) + SEARCH_WINDOW
      invariant Valid(candidate) && Aligned(candidate)
      invariant Stamp(after) < Stamp(candidate)
      invariant NothingBefore(e, after, candidate)
      decreases Stamp(after) + SEARCH_WINDOW - Stamp(candidate)
    {
      if Matches(e, candidate) {
        MatchIsListed(e, candidate);
        return Fires(candidate);
      }
      var next := Skip(e, candidate);
      SkipMissesNothing(e, after, candidate);
      if next.None? {
        WindowReachesLastYear(after, candidate);
        return OutOfRange;
      }
      candidate := next.value;
    }
    r := NoMatch;
  }

  lemma StartMissesNothing(e: CronExpression, after: DateTime)
    requires Valid(after)
    ensures StartOfNextMinute(after).Some? ==>
      var start := StartOfNextMinute(after).value;
      Stamp(after) < Stamp(start) && NothingBefore(e, after, start)
  {
    if StartOfNextMinute(after).Some? {
      forall u | Candidate(e, after, u) ensures Stamp(StartOfNextMinute(after).value) <= Stamp(u) {
        assert Minutes(after) < Minutes(u);
      }
    }
  }

  /** One advance of the search: to the next month, day, hour or minute. */
  function Skip(e: CronExpression, t: DateTime): (r: Option<DateTime>)
    requires Valid(t) && Aligned(t)
    ensures r.Some? ==> Valid(r.value) && Aligned(r.value)
    ensures r.None? ==> t.date.year == MAX_YEAR && t.date.month == 12
  {
    if t.date.month !in e.month then
      match FirstOfNextMonth(t.date)
      case None => None
      case Some(d) => Some(Midnight(d))
    else if t.date.day !in e.dayOfMonth || CronWeekday(t.date) !in e.dayOfWeek then StartOfNextDay(t)
    else if t.hour !in e.hour then StartOfNextHour(t)
    else StartOfNextMinute(t)
  }

  /** No aligned instant from `t` up to where the search skips matches, unless `t` does. */
  lemma SkippedDoesNotMatch(e: CronExpression, t: DateTime, u: DateTime)
    requires Valid(t) && Aligned(t) && Valid(u) && Aligned(u) && !Matches(e, t)
    requires Minutes(t) <= Minutes(u)
    requires Skip(e, t).Some? ==> Minutes(u) < Minutes(Skip(e, t).value)
    ensures !Matches(e, u)
  {
    hide Minutes, Ordinal;
    OrderIsLexicographic(u, t);
    if Skip(e, t).Some? {
      OrderIsLexicographic(u, Skip(e, t).value);
    }
  }

  lemma SkipAdvances(e: CronExpression, t: DateTime)
    requires Valid(t) && Aligned(t) && Skip(e, t).Some?
    ensures Minutes(t) < Minutes(Skip(e, t).value)
  {
    OrderIsLexicographic(t, Skip(e, t).value);
  }

  lemma SkipMissesNothing(e: CronExpression, after: DateTime, t: DateTime)
    requires Valid(after) && Valid(t) && Aligned(t) && !Matches(e, t)
    requires NothingBefore(e, after, t)
    ensures Skip(e, t).Some? ==> NothingBefore(e, after, Skip(e, t).value) && Stamp(t) < Stamp(Skip(e, t).value)
    ensures Skip(e, t).None? ==> forall u :: !Candidate(e, after, u)
  {
    if Skip(e, t).Some? { SkipAdvances(e, t); }
    forall u | Candidate(e, after, u)
      ensures Skip(e, t).Some? && Stamp(Skip(e, t).value) <= Stamp(u)
    {
      if Skip(e, t).None? || Minutes(u) < Minutes(Skip(e, t).value) {
        SkippedDoesNotMatch(e, t, u);
      }
    }
  }

  // ---- the end of the calendar ----

  lemma LateStart(after: DateTime)
    requires Valid(after)
    requires StartOfNextMinute(after).None? || Stamp(after) + SEARCH_WINDOW > LastStamp()
    ensures after.date.year >= MAX_YEAR - 1
    ensures StartOfNextMinute(after).None? ==> Stamp(after) + SEARCH_WINDOW > LastStamp()
  {
    var d := after.date;
    if d.year < MAX_YEAR - 1 {
      YearsAreMonotone(d.year + 1, MAX_YEAR - 1);
      YearLength(d.year);
      MonthsAreMonotone(d.year, d.month, 13);
      MonthsFillTheYear(d.year);
      YearLength(MAX_YEAR - 1);
      MonthsFillTheYear(MAX_YEAR);
    }
  }

  lemma WindowReachesLastYear(after: DateTime, t: DateTime)
    requires Valid(after) && Valid(t) && Stamp(t) <= Stamp(after) + SEARCH_WINDOW
    requires t.date.year == MAX_YEAR && t.date.month == 12
    ensures after.date.year >= MAX_YEAR - 1
  {
    var d := after.date;
    if d.year < MAX_YEAR - 1 {
      YearsAreMonotone(d.year + 1, MAX_YEAR - 1);
      YearLength(d.year);
      MonthsAreMonotone(d.year, d.month, 13);
      MonthsFillTheYear(d.year);
      YearLength(MAX_YEAR - 1);
      MonthsAreMonotone(MAX_YEAR, 1, 12);
    }
  }
}
