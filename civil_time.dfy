/**
 * Civil (proleptic Gregorian) date-times and the calendar arithmetic of Go's
 * `time.Time.AddDate` and `time.Date`, and of JavaScript's `new Date(y, m, d)`:
 * a field that overflows its range is carried into the next larger field.
 * Time zones and daylight saving are not modelled: every instant is a wall
 * clock reading in one fixed zone.
 */
module CivilTime {
  import opened Wrappers

  /** Nanoseconds in a day: the resolution of Go's `time.Time`. */
  const NanosPerDay: int := 86_400_000_000_000

  predicate IsLeapYear(year: int) {
    year % 4 == 0 && (year % 100 != 0 || year % 400 == 0)
  }

  /** Number of days of `month` (1 = January) in `year`. */
  function DaysIn(year: int, month: int): (n: int)
    ensures 28 <= n <= 31
    ensures month == 2 ==> (n == 29 <==> IsLeapYear(year)) && n <= 29
    ensures month != 2 ==> n >= 30
  {
    if month == 2 then (if IsLeapYear(year) then 29 else 28)
    else if month == 4 || month == 6 || month == 9 || month == 11 then 30
    else 31
  }

  /** A calendar date with a time of day (`clock`, in nanoseconds since midnight). */
  datatype DateTime = DateTime(year: int, month: int, day: int, clock: int)
  {
    predicate Valid() {
      1 <= month <= 12 && 1 <= day <= DaysIn(year, month) && 0 <= clock < NanosPerDay
    }
  }

  /** A valid date-time: the values a `time.Time` or a JavaScript `Date` can hold. */
  type Instant = t: DateTime | t.Valid() witness DateTime(1, 1, 1, 0)

  /** Go's zero `time.Time`: January 1 of year 1, 00:00:00. */
  const Zero: Instant := DateTime(1, 1, 1, 0)

  /** `time.Time.IsZero`. */
  predicate IsZero(t: Instant) {
    t == Zero
  }

  /**
   * `a.Before(b)` in Go, `a < b` on JavaScript dates and SQL timestamps: the
   * lexicographic order on (year, month, day, clock).
   */
  predicate Before(a: Instant, b: Instant) {
    a.year < b.year ||
    (a.year == b.year && (a.month < b.month ||
    (a.month == b.month && (a.day < b.day ||
    (a.day == b.day && a.clock < b.clock)))))
  }

  /** Not after: `!b.Before(a)`. */
  predicate NotAfter(a: Instant, b: Instant) {
    !Before(b, a)
  }

  /**
   * A number that grows with the date-time: each field is scaled past the
   * largest value the smaller fields can take. It measures the distance to a
   * later instant in termination arguments.
   */
  function Ordinal(t: DateTime): int {
    ((t.year * 12 + (t.month - 1)) * 31 + (t.day - 1)) * NanosPerDay + t.clock
  }

  /** The order on instants is the order on their ordinals. */
  lemma BeforeIsOrdinalOrder(a: Instant, b: Instant)
    ensures Before(a, b) <==> Ordinal(a) < Ordinal(b)
  {
    var ma, mb := a.year * 12 + (a.month - 1), b.year * 12 + (b.month - 1);
    var da, db := ma * 31 + (a.day - 1), mb * 31 + (b.day - 1);
    assert Ordinal(a) == da * NanosPerDay + a.clock;
    assert Ordinal(b) == db * NanosPerDay + b.clock;
    assert da < db <==> (ma < mb || (ma == mb && a.day < b.day));
    assert ma < mb <==> (a.year < b.year || (a.year == b.year && a.month < b.month));
    if da < db {
      assert (da + 1) * NanosPerDay <= db * NanosPerDay;
    } else if db < da {
      assert (db + 1) * NanosPerDay <= da * NanosPerDay;
    }
  }

  /** Two instants with the same ordinal are the same instant. */
  lemma OrdinalInjective(a: Instant, b: Instant)
    requires Ordinal(a) == Ordinal(b)
    ensures a == b
  {
    BeforeIsOrdinalOrder(a, b);
    BeforeIsOrdinalOrder(b, a);
  }

  /**
   * Normalises a (year, month, day) whose month may be one past either end of
   * the year (0 or 13) and whose day may run up to four weeks outside the
   * month, as `time.Date` and the JavaScript `Date` constructor do: day 0 is
   * the last day of the previous month, day `DaysIn + 1` the first of the next.
   */
  function Date(year: int, month: int, day: int, clock: int): (t: Instant)
    requires 0 <= month <= 13 && -27 <= day <= 56 && 0 <= clock < NanosPerDay
    ensures t.clock == clock
  {
    var y := if month == 0 then year - 1 else if month == 13 then year + 1 else year;
    var m := if month == 0 then 12 else if month == 13 then 1 else month;
    if day < 1 then
      var py := if m == 1 then y - 1 else y;
      var pm := if m == 1 then 12 else m - 1;
      DateTime(py, pm, DaysIn(py, pm) + day, clock)
    else if day <= DaysIn(y, m) then
      DateTime(y, m, day, clock)
    else
      var ny := if m == 12 then y + 1 else y;
      var nm := if m == 12 then 1 else m + 1;
      DateTime(ny, nm, day - DaysIn(y, m), clock)
  }

  /** Normalisation leaves an in-range date alone. */
  lemma DateInRange(year: int, month: int, day: int, clock: int)
    requires 1 <= month <= 12 && 1 <= day <= DaysIn(year, month) && 0 <= clock < NanosPerDay
    ensures Date(year, month, day, clock) == DateTime(year, month, day, clock)
  {
  }

  /** A recurrence interval of a recurring expense. */
  datatype Interval = Daily | Weekly | Monthly | Yearly

  /** The interval names a recurring expense row stores; any other name is unknown. */
  function ParseInterval(name: string): (r: Option<Interval>)
    ensures r.Some? <==> name in {"daily", "weekly", "monthly", "yearly"}
  {
    match name
    case "daily" => Some(Daily)
    case "weekly" => Some(Weekly)
    case "monthly" => Some(Monthly)
    case "yearly" => Some(Yearly)
    case _ => None
  }

  /**
   * One step of the schedule: `AddDate(0, 0, 1)`, `AddDate(0, 0, 7)`,
   * `AddDate(0, 1, 0)` or `AddDate(1, 0, 0)`. A month or year step keeps the day
   * of the month and lets it overflow into the following month (January 31
   * plus one month is early March).
   */
  function Step(t: Instant, interval: Interval): (r: Instant)
    ensures r.clock == t.clock
  {
    match interval
    case Daily => Date(t.year, t.month, t.day + 1, t.clock)
    case Weekly => Date(t.year, t.month, t.day + 7, t.clock)
    case Monthly => Date(t.year, t.month + 1, t.day, t.clock)
    case Yearly => Date(t.year + 1, t.month, t.day, t.clock)
  }

  /** Every step moves strictly forward in time. */
  lemma StepIncreases(t: Instant, interval: Interval)
    ensures Before(t, Step(t, interval))
  {
  }

  /** The step the source takes for an interval name, or None for an unknown name. */
  function Advance(t: Instant, name: string): (r: Option<Instant>)
    ensures r.Some? <==> ParseInterval(name).Some?
    ensures r.Some? ==> Before(t, r.value)
  {
    match ParseInterval(name)
    case None => None
    case Some(interval) =>
      StepIncreases(t, interval);
      Some(Step(t, interval))
  }

  /** With a known interval name, the step is that interval's. */
  lemma AdvanceKnown(t: Instant, name: string, interval: Interval)
    requires ParseInterval(name) == Some(interval)
    ensures Advance(t, name) == Some(Step(t, interval))
  {
  }

  /** A step that does not cross a month end keeps the month and adds to the day. */
  lemma DailyWithinMonth(t: Instant)
    requires t.day < DaysIn(t.year, t.month)
    ensures Step(t, Daily) == t.(day := t.day + 1)
  {
  }

  /** A monthly step keeps the day of the month when the next month has that day. */
  lemma MonthlyKeepsDay(t: Instant)
    requires t.month < 12 && t.day <= DaysIn(t.year, t.month + 1)
    ensures Step(t, Monthly) == t.(month := t.month + 1)
  {
  }

  /** No snapping to the month end: January 31, 2024 plus one month is March 2, 2024. */
  lemma MonthlyOverflowExample()
    ensures Step(DateTime(2024, 1, 31, 0), Monthly) == DateTime(2024, 3, 2, 0)
    ensures Step(DateTime(2023, 1, 31, 0), Monthly) == DateTime(2023, 3, 3, 0)
  {
  }

  /** February 29 plus one year is March 1 of the following (common) year. */
  lemma YearlyLeapDayExample()
    ensures Step(DateTime(2024, 2, 29, 0), Yearly) == DateTime(2025, 3, 1, 0)
  {
  }
}
