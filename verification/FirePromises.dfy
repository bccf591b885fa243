/** What the next-fire search promises to the scheduler: a unique least minute, existence
    for everyday schedules, and indifference to fractions of a second. */
module FirePromises {
  import opened Wrappers
  import opened Calendar
  import opened NextFire

  // ---- the least matching minute as a function ----

  lemma FirstIsUnique(e: CronExpression, after: DateTime, t: DateTime, u: DateTime)
    requires Valid(after) && FirstCandidate(e, after, t) && FirstCandidate(e, after, u)
    ensures t == u
  {
    assert Minutes(t) == Minutes(u);
    OrderIsLexicographic(t, u);
    OrderIsLexicographic(u, t);
  }

  lemma {:induction false} SomeFirst(e: CronExpression, after: DateTime, t: DateTime)
    requires Valid(after) && Candidate(e, after, t)
    ensures exists u :: FirstCandidate(e, after, u)
    decreases Stamp(t) - Stamp(after)
  {
    if u :| Candidate(e, after, u) && Stamp(u) < Stamp(t) {
      SomeFirst(e, after, u);
    } else {
      assert FirstCandidate(e, after, t);
    }
  }

  /** The search's answer, or `None` when it raises. */
  ghost function FireTime(e: CronExpression, after: DateTime): (r: Option<DateTime>)
    requires Valid(after)
    ensures r.Some? ==> FirstCandidate(e, after, r.value)
    ensures r.None? ==> forall t :: !Candidate(e, after, t)
  {
    if t :| Candidate(e, after, t) then
      SomeFirst(e, after, t);
      var u :| FirstCandidate(e, after, u);
      Some(u)
    else None
  }

  // ---- schedules that always fire ----

  /** The day exists in every year, so also in a common one. */
  ghost predicate EveryYear(month: int, day: int) {
    1 <= month <= 12 && 1 <= day && (month == 2 ==> day <= 28) && day <= DaysInMonth(2001, month)
  }

  ghost predicate AnyWeekday(e: CronExpression) {
    forall w :: 0 <= w <= 6 ==> w in e.dayOfWeek
  }

  lemma WindowStaysInCalendar(after: DateTime)
    requires Valid(after) && Stamp(after) + SEARCH_WINDOW <= LastStamp()
    ensures after.date.year < MAX_YEAR
  {
    if after.date.year == MAX_YEAR {
      MonthsAreMonotone(MAX_YEAR, 1, after.date.month);
      MonthsFillTheYear(MAX_YEAR);
    }
  }

  lemma SameYearIsWithinWindow(a: Date, b: Date)
    requires ValidDate(a) && ValidDate(b) && a.year == b.year
    ensures Ordinal(b) - Ordinal(a) <= 365
  {
    MonthsAreMonotone(a.year, 1, a.month);
    MonthsAreMonotone(b.year, b.month, 13);
    MonthsFillTheYear(b.year);
  }

  lemma {:induction false} MonthOffsetsNextYear(y: int, m: int)
    requires 1 <= m <= 12
    ensures DaysBeforeMonth(y, m) == (if m <= 2 then DaysBeforeMonth(2001, m)
                                      else DaysBeforeMonth(2001, m) + DaysInYear(y) - 365)
  {
    if m > 1 { MonthOffsetsNextYear(y, m - 1); }
  }

  lemma SameDayNextYear(a: Date)
    requires ValidDate(a) && a.year < MAX_YEAR && EveryYear(a.month, a.day)
    ensures ValidDate(a.(year := a.year + 1))
    ensures Ordinal(a) < Ordinal(a.(year := a.year + 1)) <= Ordinal(a) + 366
  {
    YearLength(a.year);
    MonthOffsetsNextYear(a.year, a.month);
    MonthOffsetsNextYear(a.year + 1, a.month);
  }

  /** With the weekday unrestricted and some date that exists in every year, the search
      always finds a minute. */
  lemma EverydayScheduleFires(e: CronExpression, after: DateTime, month: int, day: int, hour: int, minute: int)
    requires Valid(after) && Stamp(after) + SEARCH_WINDOW <= LastStamp()
    requires AnyWeekday(e) && month in e.month && day in e.dayOfMonth && EveryYear(month, day)
    requires hour in e.hour && minute in e.minute && 0 <= hour < 24 && 0 <= minute < 60
    ensures FireTime(e, after).Some?
  {
    WindowStaysInCalendar(after);
    var t := DateTime(Date(after.date.year, month, day), hour, minute, 0, 0);
    assert Valid(t);
    hide Ordinal, DaysInMonth;
    if Stamp(after) < Stamp(t) {
      SameYearIsWithinWindow(after.date, t.date);
      assert Candidate(e, after, t);
    } else {
      SameDayNextYear(t.date);
      var u := t.(date := t.date.(year := t.date.year + 1));
      OrderIsLexicographic(after, u);
      assert Candidate(e, after, u);
    }
  }

  // ---- schedules that can raise ----

  /** The last minute of a leap day, from which the next leap day is out of reach. */
  const LAST_LEAP_MINUTE := DateTime(Date(2024, 2, 29), 23, 59, 0, 0)

  lemma NextLeapDayIsFar(t: DateTime)
    requires Valid(t) && Aligned(t) && t.date.month == 2 && t.date.day == 29
    requires Stamp(LAST_LEAP_MINUTE) < Stamp(t)
    ensures Stamp(LAST_LEAP_MINUTE) + SEARCH_WINDOW < Stamp(t)
  {
    OrderIsLexicographic(LAST_LEAP_MINUTE, t);
    assert IsLeap(t.date.year) && t.date.year >= 2028;
    YearsAreMonotone(2024, t.date.year);
    assert DaysBeforeMonth(2024, 2) == DaysBeforeMonth(t.date.year, 2) == 31;
  }

  /** A date that exists but not in every year is a leap day. */
  lemma OnlyLeapDaysAreRare(d: Date)
    requires ValidDate(d) && !EveryYear(d.month, d.day)
    ensures d.month == 2 && d.day == 29
  {
  }

  /** Without a date that exists in every year, nothing is found after a leap day. */
  lemma RareDatesRaise(e: CronExpression)
    requires forall m, d :: m in e.month && d in e.dayOfMonth ==> !EveryYear(m, d)
    ensures Valid(LAST_LEAP_MINUTE) && FireTime(e, LAST_LEAP_MINUTE) == None
  {
    assert Valid(LAST_LEAP_MINUTE);
    forall t ensures !Candidate(e, LAST_LEAP_MINUTE, t) {
      if Valid(t) && Aligned(t) && Stamp(LAST_LEAP_MINUTE) < Stamp(t) && Matches(e, t) {
        OnlyLeapDaysAreRare(t.date);
        NextLeapDayIsFar(t);
      }
    }
  }

  lemma LeapMinuteIsEarly()
    ensures Valid(LAST_LEAP_MINUTE) && Stamp(LAST_LEAP_MINUTE) + SEARCH_WINDOW <= LastStamp()
  {
    YearsAreMonotone(2026, MAX_YEAR);
    assert Ordinal(LAST_LEAP_MINUTE.date) == 738945;
    assert DaysBeforeYear(2026) == 739616;
    hide Ordinal, DaysBeforeYear;
    LastDayIsLate();
  }

  lemma LastDayIsLate()
    ensures Ordinal(Date(MAX_YEAR, 12, 31)) > DaysBeforeYear(MAX_YEAR)
  {
    MonthsAreMonotone(MAX_YEAR, 1, 12);
  }

  ghost predicate NeverRaises(e: CronExpression) {
    forall after :: Valid(after) && Stamp(after) + SEARCH_WINDOW <= LastStamp() ==> FireTime(e, after).Some?
  }

  /** With the weekday unrestricted and some valid time of day, the search never raises exactly
      when some allowed month and day make a date that exists in every year. */
  lemma NeverRaisesWhen(e: CronExpression, hour: int, minute: int)
    requires AnyWeekday(e) && hour in e.hour && minute in e.minute && 0 <= hour < 24 && 0 <= minute < 60
    ensures NeverRaises(e) <==> exists m, d :: m in e.month && d in e.dayOfMonth && EveryYear(m, d)
  {
    hide Candidate, Stamp;
    if m, d :| m in e.month && d in e.dayOfMonth && EveryYear(m, d) {
      forall after | Valid(after) && Stamp(after) + SEARCH_WINDOW <= LastStamp() ensures FireTime(e, after).Some? {
        EverydayScheduleFires(e, after, m, d, hour, minute);
      }
    } else {
      RareDatesRaise(e);
      LeapMinuteIsEarly();
    }
  }

  /** A schedule for 29 February can raise. */
  lemma LeapDayScheduleCanRaise()
    ensures !NeverRaises(CronExpression([0], [0], [29], [2], [0, 1, 2, 3, 4, 5, 6]))
  {
    var e := CronExpression([0], [0], [29], [2], [0, 1, 2, 3, 4, 5, 6]);
    assert AnyWeekday(e) && 0 in e.hour && 0 in e.minute;
    NeverRaisesWhen(e, 0, 0);
  }

  // ---- fractions of a second ----

  /** What survives the `%Y-%m-%dT%H:%M:%S` round trip. */
  function WholeSecond(t: DateTime): DateTime {
    t.(micro := 0)
  }

  lemma FractionKeepsCandidates(e: CronExpression, after: DateTime, t: DateTime)
    requires Valid(after)
    ensures Candidate(e, WholeSecond(after), t) <==> Candidate(e, after, t)
  {
    hide Ordinal;
    if Valid(t) && Aligned(t) {
      assert Minutes(WholeSecond(after)) == Minutes(after);
      var s := after.second * 1_000_000;
      LaterMinute(Minutes(after), Minutes(t), s, s + after.micro);
      LaterMinute(Minutes(after), Minutes(t) - 366 * 1440, s, s + after.micro);
    }
  }

  /** Saving and reloading a reference time never changes when its task fires next. */
  lemma FractionDoesNotMatter(e: CronExpression, after: DateTime)
    requires Valid(after)
    ensures FireTime(e, WholeSecond(after)) == FireTime(e, after)
  {
    hide Candidate;
    forall t ensures Candidate(e, WholeSecond(after), t) <==> Candidate(e, after, t) {
      FractionKeepsCandidates(e, after, t);
    }
    var a, b := FireTime(e, WholeSecond(after)), FireTime(e, after);
    if a.Some? {
      assert FirstCandidate(e, after, a.value);
      FirstIsUnique(e, after, a.value, b.value);
    }
  }
}
