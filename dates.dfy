/**
 * Calendar dates of the proleptic Gregorian calendar, as Python's `datetime.date`
 * represents them, and the day ordinal (`date.toordinal()`, 0001-01-01 is day 1)
 * that links a date to an instant counted in seconds.
 */
module Dates {

  const SecondsPerDay: int := 86400

  /** Python's `date.toordinal()` of 1970-01-01: instants are seconds since that midnight (UTC). */
  const EpochOrdinal: int := 719163

  datatype Date = Date(year: int, month: int, day: int)

  predicate IsLeap(y: int) {
    y % 4 == 0 && (y % 100 != 0 || y % 400 == 0)
  }

  function DaysInMonth(y: int, m: int): (n: int)
    requires 1 <= m <= 12
    ensures 28 <= n <= 31
  {
    if m == 2 then (if IsLeap(y) then 29 else 28)
    else if m == 4 || m == 6 || m == 9 || m == 11 then 30
    else 31
  }

  function DaysInYear(y: int): int {
    if IsLeap(y) then 366 else 365
  }

  /** A date `datetime.date` accepts: years 1 to 9999, real months and days. */
  predicate Valid(d: Date) {
    1 <= d.year <= 9999 && 1 <= d.month <= 12 && 1 <= d.day <= DaysInMonth(d.year, d.month)
  }

  /** Python's `a < b` on dates: lexicographic on (year, month, day). */
  predicate Before(a: Date, b: Date) {
    a.year < b.year
    || (a.year == b.year && a.month < b.month)
    || (a.year == b.year && a.month == b.month && a.day < b.day)
  }

  predicate NotAfter(a: Date, b: Date) {
    a == b || Before(a, b)
  }

  function FirstOfMonth(d: Date): Date {
    Date(d.year, d.month, 1)
  }

  /** The first day of the month after `d`'s month. */
  function FirstOfNextMonth(d: Date): (r: Date)
    ensures r.day == 1
  {
    if d.month < 12 then Date(d.year, d.month + 1, 1) else Date(d.year + 1, 1, 1)
  }

  function DaysBeforeYear(y: int): int
    requires y >= 1
  {
    var p := y - 1;
    p * 365 + p / 4 - p / 100 + p / 400
  }

  function DaysBeforeMonth(y: int, m: int): (n: int)
    requires 1 <= m <= 12
    ensures 0 <= n
  {
    if m == 1 then 0 else DaysBeforeMonth(y, m - 1) + DaysInMonth(y, m - 1)
  }

  /** Python's `date.toordinal()`. */
  function Ordinal(d: Date): int
    requires Valid(d)
  {
    DaysBeforeYear(d.year) + DaysBeforeMonth(d.year, d.month) + d.day
  }

  /** The calendar day after `d`; Python raises OverflowError after 9999-12-31. */
  function NextDay(d: Date): (r: Date)
    requires Valid(d) && d != Date(9999, 12, 31)
    ensures Valid(r) && Before(d, r)
  {
    if d.day < DaysInMonth(d.year, d.month) then Date(d.year, d.month, d.day + 1)
    else if d.month < 12 then Date(d.year, d.month + 1, 1)
    else Date(d.year + 1, 1, 1)
  }

  /** The UTC instant of a day's midnight, given its ordinal. */
  function DayStart(ordinal: int): int {
    (ordinal - EpochOrdinal) * SecondsPerDay
  }

  /** `datetime.combine(d, time.min)` in UTC: the first instant of date `d`. */
  function Midnight(d: Date): int
    requires Valid(d)
  {
    DayStart(Ordinal(d))
  }

  /** Python's `dt.date()` for a UTC instant, as a day ordinal; it rounds down, also before 1970. */
  function DayOf(t: int): (ordinal: int)
    ensures DayStart(ordinal) <= t < DayStart(ordinal) + SecondsPerDay
  {
    t / SecondsPerDay + EpochOrdinal
  }

  lemma DayOfDayStart(ordinal: int)
    ensures DayOf(DayStart(ordinal)) == ordinal
  {
  }

  lemma EpochIsOrdinalOf1970()
    ensures Ordinal(Date(1970, 1, 1)) == EpochOrdinal
  {
  }

  lemma {:induction false} DaysBeforeYearStep(y: int)
    requires y >= 1
    ensures DaysBeforeYear(y + 1) == DaysBeforeYear(y) + DaysInYear(y)
  {
    var p := y - 1;
    DivSucc(p, 4);
    DivSucc(p, 100);
    DivSucc(p, 400);
  }

  lemma MulMonotone(a: int, b: int, c: int)
    requires 0 <= a <= b && c > 0
    ensures a * c <= b * c
  {
  }

  /** Euclidean division has one quotient and one remainder: those with the remainder in [0, d). */
  lemma DivUnique(x: int, d: int, q: int, r: int)
    requires d > 0 && 0 <= r < d && x == q * d + r
    ensures x / d == q && x % d == r
  {
    var q', r' := x / d, x % d;
    assert (q - q') * d == r' - r;
    if q > q' {
      MulMonotone(1, q - q', d);
    } else if q < q' {
      MulMonotone(1, q' - q, d);
    }
  }

  /** The quotient goes up by one exactly when the next number is a multiple. */
  lemma DivSucc(p: int, d: int)
    requires d > 0
    ensures (p + 1) / d == p / d + (if (p + 1) % d == 0 then 1 else 0)
  {
    var q, r := p / d, p % d;
    if r == d - 1 {
      assert p + 1 == (q + 1) * d + 0;
      DivUnique(p + 1, d, q + 1, 0);
    } else {
      assert p + 1 == q * d + (r + 1);
      DivUnique(p + 1, d, q, r + 1);
    }
  }

  lemma {:induction false} DaysBeforeYearMonotone(a: int, b: int)
    requires 1 <= a <= b
    ensures DaysBeforeYear(a) + (if a < b then DaysInYear(a) else 0) <= DaysBeforeYear(b)
    decreases b - a
  {
    if a < b {
      DaysBeforeYearStep(a);
      if a + 1 < b {
        DaysBeforeYearMonotone(a + 1, b);
      }
    }
  }

  lemma {:induction false} DaysBeforeMonthMonotone(y: int, a: int, b: int)
    requires 1 <= a < b <= 12
    ensures DaysBeforeMonth(y, a) + DaysInMonth(y, a) <= DaysBeforeMonth(y, b)
    decreases b - a
  {
    if a + 1 < b {
      DaysBeforeMonthMonotone(y, a + 1, b);
    }
  }

  lemma DaysBeforeDecember(y: int)
    ensures DaysBeforeMonth(y, 12) + 31 == DaysInYear(y)
  {
    var leap := if IsLeap(y) then 1 else 0;
    assert DaysBeforeMonth(y, 2) == 31;
    assert DaysBeforeMonth(y, 3) == 59 + leap;
    assert DaysBeforeMonth(y, 4) == 90 + leap;
    assert DaysBeforeMonth(y, 5) == 120 + leap;
    assert DaysBeforeMonth(y, 6) == 151 + leap;
    assert DaysBeforeMonth(y, 7) == 181 + leap;
    assert DaysBeforeMonth(y, 8) == 212 + leap;
    assert DaysBeforeMonth(y, 9) == 243 + leap;
    assert DaysBeforeMonth(y, 10) == 273 + leap;
    assert DaysBeforeMonth(y, 11) == 304 + leap;
    assert DaysBeforeMonth(y, 12) == 334 + leap;
  }

  /** Distinct valid dates have distinct ordinals, in the same order as the dates. */
  lemma OrdinalStrictlyIncreasing(a: Date, b: Date)
    requires Valid(a) && Valid(b) && Before(a, b)
    ensures Ordinal(a) < Ordinal(b)
  {
    if a.year < b.year {
      if a.month < 12 {
        DaysBeforeMonthMonotone(a.year, a.month, 12);
      }
      DaysBeforeDecember(a.year);
      DaysBeforeYearMonotone(a.year, b.year);
      assert Ordinal(a) <= DaysBeforeYear(a.year) + DaysBeforeMonth(a.year, 12) + 31;
    } else if a.month < b.month {
      DaysBeforeMonthMonotone(a.year, a.month, b.month);
    }
  }

  /** Two valid dates are equal exactly when their ordinals are. */
  lemma OrdinalInjective(a: Date, b: Date)
    requires Valid(a) && Valid(b)
    ensures Ordinal(a) == Ordinal(b) <==> a == b
  {
    if Before(a, b) {
      OrdinalStrictlyIncreasing(a, b);
    } else if Before(b, a) {
      OrdinalStrictlyIncreasing(b, a);
    }
  }

  /** The next calendar day is the next ordinal, so its midnight is one day later. */
  lemma NextDayOrdinal(d: Date)
    requires Valid(d) && d != Date(9999, 12, 31)
    ensures Ordinal(NextDay(d)) == Ordinal(d) + 1
    ensures Midnight(NextDay(d)) == Midnight(d) + SecondsPerDay
  {
    if d.day == DaysInMonth(d.year, d.month) && d.month == 12 {
      DaysBeforeYearStep(d.year);
      DaysBeforeDecember(d.year);
    }
  }
}
