/** The proleptic Gregorian calendar of naive datetimes: ordinals, weekdays, and the fact
    that comparing fields lexicographically is comparing elapsed time. */
module Calendar {
  import opened Wrappers

  const MIN_YEAR := 1
  const MAX_YEAR := 9999
  const MICROS_PER_MINUTE := 60_000_000
  const MICROS_PER_DAY := 1440 * MICROS_PER_MINUTE

  datatype Date = Date(year: int, month: int, day: int)

  datatype DateTime = DateTime(date: Date, hour: int, minute: int, second: int, micro: int)

  predicate IsLeap(y: int) {
    y % 4 == 0 && (y % 100 != 0 || y % 400 == 0)
  }

  function DaysInYear(y: int): int {
    if IsLeap(y) then 366 else 365
  }

  function DaysInMonth(y: int, m: int): (n: int)
    requires 1 <= m <= 12
    ensures 28 <= n <= 31
  {
    if m == 2 then (if IsLeap(y) then 29 else 28)
    else if m in {4, 6, 9, 11} then 30
    else 31
  }

  predicate ValidDate(d: Date) {
    MIN_YEAR <= d.year <= MAX_YEAR && 1 <= d.month <= 12 && 1 <= d.day <= DaysInMonth(d.year, d.month)
  }

  predicate Valid(t: DateTime) {
    ValidDate(t.date) && 0 <= t.hour < 24 && 0 <= t.minute < 60 && 0 <= t.second < 60 && 0 <= t.micro < 1_000_000
  }

  /** On a minute boundary. */
  predicate Aligned(t: DateTime) {
    t.second == 0 && t.micro == 0
  }

  function DaysBeforeYear(y: int): int {
    var p := y - 1;
    p * 365 + p / 4 - p / 100 + p / 400
  }

  function DaysBeforeMonth(y: int, m: int): int
    requires 1 <= m <= 13
  {
    if m == 1 then 0 else DaysBeforeMonth(y, m - 1) + DaysInMonth(y, m - 1)
  }

  /** `date.toordinal`: 1 is the first of January of year 1. */
  function Ordinal(d: Date): int
    requires 1 <= d.month <= 12
  {
    DaysBeforeYear(d.year) + DaysBeforeMonth(d.year, d.month) + d.day
  }

  /** `date.weekday`: Monday is 0. */
  function Weekday(d: Date): int
    requires 1 <= d.month <= 12
  {
    (Ordinal(d) + 6) % 7
  }

  /** Whole minutes since ordinal 0. */
  function Minutes(t: DateTime): int
    requires 1 <= t.date.month <= 12
  {
    Ordinal(t.date) * 1440 + t.hour * 60 + t.minute
  }

  /** Microseconds since ordinal 0; comparing datetimes is comparing stamps. */
  function Stamp(t: DateTime): int
    requires 1 <= t.date.month <= 12
  {
    Minutes(t) * MICROS_PER_MINUTE + t.second * 1_000_000 + t.micro
  }

  // ---- the calendar is a numbering ----

  lemma CarryAt4(p: int)
    ensures (p + 1) / 4 - p / 4 == if (p + 1) % 4 == 0 then 1 else 0
  {
  }

  lemma CarryAt100(p: int)
    ensures (p + 1) / 100 - p / 100 == if (p + 1) % 100 == 0 then 1 else 0
  {
  }

  lemma CarryAt400(p: int)
    ensures (p + 1) / 400 - p / 400 == if (p + 1) % 400 == 0 then 1 else 0
  {
  }

  lemma LeapCount(y: int)
    ensures DaysInYear(y) - 365 ==
      (if y % 4 == 0 then 1 else 0) - (if y % 100 == 0 then 1 else 0) + (if y % 400 == 0 then 1 else 0)
  {
    if y % 400 == 0 { assert y == 400 * (y / 400) && y == 100 * (4 * (y / 400)); }
    if y % 100 == 0 { assert y == 100 * (y / 100) && y == 4 * (25 * (y / 100)); }
  }

  lemma YearLength(y: int)
    ensures DaysBeforeYear(y + 1) == DaysBeforeYear(y) + DaysInYear(y)
  {
    CarryAt4(y - 1);
    CarryAt100(y - 1);
    CarryAt400(y - 1);
    LeapCount(y);
  }

  lemma {:induction false} YearsAreMonotone(a: int, b: int)
    requires a <= b
    ensures DaysBeforeYear(a) + 365 * (b - a) <= DaysBeforeYear(b)
    decreases b - a
  {
    if a < b {
      YearLength(b - 1);
      YearsAreMonotone(a, b - 1);
    }
  }

  lemma {:induction false} MonthsAreMonotone(y: int, a: int, b: int)
    requires 1 <= a <= b <= 13
    ensures DaysBeforeMonth(y, a) <= DaysBeforeMonth(y, b)
    ensures a < b ==> DaysBeforeMonth(y, a) + DaysInMonth(y, a) <= DaysBeforeMonth(y, b)
    decreases b - a
  {
    if a < b {
      MonthsAreMonotone(y, a, b - 1);
    }
  }

  lemma MonthsFillTheYear(y: int)
    ensures DaysBeforeMonth(y, 13) == DaysInYear(y)
  {
    assert DaysBeforeMonth(y, 2) == 31;
    assert DaysBeforeMonth(y, 3) == 31 + DaysInMonth(y, 2);
    assert DaysBeforeMonth(y, 5) == 31 + DaysInMonth(y, 2) + 61;
    assert DaysBeforeMonth(y, 7) == 31 + DaysInMonth(y, 2) + 122;
    assert DaysBeforeMonth(y, 9) == 31 + DaysInMonth(y, 2) + 184;
    assert DaysBeforeMonth(y, 11) == 31 + DaysInMonth(y, 2) + 245;
  }

  /** The usual closed form of the month lengths; the extra day of a leap year is in February. */
  lemma MonthLength(y: int, m: int)
    requires 1 <= m <= 12
    ensures DaysInMonth(y, m)
      == 28 + (m + m / 8) % 2 + 2 % m + (if m == 1 then 2 else 0) + if m == 2 then DaysInYear(y) - 365 else 0
  {
  }

  ghost predicate DateBefore(a: Date, b: Date) {
    a.year < b.year || (a.year == b.year && (a.month < b.month || (a.month == b.month && a.day < b.day)))
  }

  lemma DateBeforeIsSmaller(a: Date, b: Date)
    requires ValidDate(a) && ValidDate(b) && DateBefore(a, b)
    ensures Ordinal(a) < Ordinal(b)
  {
    if a.year < b.year {
      MonthsAreMonotone(a.year, a.month, 13);
      MonthsFillTheYear(a.year);
      YearLength(a.year);
      YearsAreMonotone(a.year + 1, b.year);
      MonthsAreMonotone(b.year, 1, b.month);
    } else if a.month < b.month {
      MonthsAreMonotone(a.year, a.month, b.month);
    }
  }

  ghost predicate MinuteBefore(a: DateTime, b: DateTime) {
    DateBefore(a.date, b.date) ||
    (a.date == b.date && (a.hour < b.hour || (a.hour == b.hour && a.minute < b.minute)))
  }

  /** Elapsed minutes are ordered as the fields are, lexicographically. */
  lemma OrderIsLexicographic(a: DateTime, b: DateTime)
    requires Valid(a) && Valid(b)
    ensures Minutes(a) < Minutes(b) <==> MinuteBefore(a, b)
  {
    if DateBefore(a.date, b.date) {
      DateBeforeIsSmaller(a.date, b.date);
    } else if DateBefore(b.date, a.date) {
      DateBeforeIsSmaller(b.date, a.date);
    } else {
      assert a.date == b.date;
    }
  }

  /** Within a minute, seconds and fractions do not matter when comparing with a minute mark. */
  lemma LaterMinute(a: int, b: int, s: int, r: int)
    requires 0 <= s <= r < MICROS_PER_MINUTE
    ensures a * MICROS_PER_MINUTE + s < b * MICROS_PER_MINUTE <==> a * MICROS_PER_MINUTE + r < b * MICROS_PER_MINUTE
  {
    if a < b {
      assert b * MICROS_PER_MINUTE >= (a + 1) * MICROS_PER_MINUTE;
    } else {
      assert a * MICROS_PER_MINUTE >= b * MICROS_PER_MINUTE;
    }
  }

  // ---- arithmetic on dates; `None` is Python's OverflowError ----

  function FirstOfNextMonth(d: Date): (r: Option<Date>)
    requires ValidDate(d)
    ensures r.Some? ==> ValidDate(r.value) && DateBefore(d, r.value)
    ensures r.None? <==> d.year == MAX_YEAR && d.month == 12
  {
    if d.month < 12 then Some(Date(d.year, d.month + 1, 1))
    else if d.year < MAX_YEAR then Some(Date(d.year + 1, 1, 1))
    else None
  }

  function NextDay(d: Date): (r: Option<Date>)
    requires ValidDate(d)
    ensures r.Some? ==> ValidDate(r.value)
    ensures r.None? <==> d == Date(MAX_YEAR, 12, 31)
  {
    if d.day < DaysInMonth(d.year, d.month) then Some(d.(day := d.day + 1)) else FirstOfNextMonth(d)
  }

  lemma NextDayIsOneLater(d: Date)
    requires ValidDate(d) && NextDay(d).Some?
    ensures Ordinal(NextDay(d).value) == Ordinal(d) + 1
  {
    if d.day == DaysInMonth(d.year, d.month) && d.month == 12 {
      MonthsFillTheYear(d.year);
      YearLength(d.year);
    }
  }

  function Midnight(d: Date): DateTime {
    DateTime(d, 0, 0, 0, 0)
  }

  function StartOfNextDay(t: DateTime): (r: Option<DateTime>)
    requires Valid(t)
    ensures r.Some? ==> Valid(r.value) && Aligned(r.value)
  {
    match NextDay(t.date)
    case None => None
    case Some(d) => Some(Midnight(d))
  }

  function StartOfNextHour(t: DateTime): (r: Option<DateTime>)
    requires Valid(t)
    ensures r.Some? ==> Valid(r.value) && Aligned(r.value)
  {
    if t.hour < 23 then Some(DateTime(t.date, t.hour + 1, 0, 0, 0)) else StartOfNextDay(t)
  }

  function StartOfNextMinute(t: DateTime): (r: Option<DateTime>)
    requires Valid(t)
    ensures r.Some? ==> Valid(r.value) && Aligned(r.value) && Minutes(r.value) == Minutes(t) + 1
    ensures r.None? ==> t.date == Date(MAX_YEAR, 12, 31)
  {
    if t.minute < 59 then Some(DateTime(t.date, t.hour, t.minute + 1, 0, 0))
    else
      if NextDay(t.date).Some? then
        NextDayIsOneLater(t.date);
        StartOfNextHour(t)
      else StartOfNextHour(t)
  }
}
