/** Calendar dates as Python's `datetime.date` sees them: proleptic Gregorian
    triples with years 1..9999, ordered lexicographically, converted to POSIX
    timestamps the way `calendar.timegm(day.timetuple())` does. */
module Dates {
  import opened Results

  datatype Date = Date(year: int, month: int, day: int)

  predicate IsLeap(y: int) {
    y % 4 == 0 && (y % 100 != 0 || y % 400 == 0)
  }

  function DaysInMonth(y: int, m: int): (n: int)
    ensures 28 <= n <= 31
  {
    if m == 2 then (if IsLeap(y) then 29 else 28)
    else if m == 4 || m == 6 || m == 9 || m == 11 then 30
    else 31
  }

  function DaysInYear(y: int): int {
    if IsLeap(y) then 366 else 365
  }

  /** The range `datetime.date` accepts: MINYEAR = 1, MAXYEAR = 9999. */
  predicate Valid(d: Date) {
    && 1 <= d.year <= 9999
    && 1 <= d.month <= 12
    && 1 <= d.day <= DaysInMonth(d.year, d.month)
  }

  type CalDate = d: Date | Valid(d) witness Date(1, 1, 1)

  /** Python's date comparison `a < b`. */
  predicate Before(a: Date, b: Date) {
    || a.year < b.year
    || (a.year == b.year && a.month < b.month)
    || (a.year == b.year && a.month == b.month && a.day < b.day)
  }

  predicate NotAfter(a: Date, b: Date) {
    a == b || Before(a, b)
  }

  lemma BeforeTotal(a: Date, b: Date)
    ensures Before(a, b) || a == b || Before(b, a)
    ensures !(Before(a, b) && Before(b, a))
  {}

  /** `_days_before_year` of CPython's datetime module. */
  function DaysBeforeYear(y: int): int
    requires y >= 1
  {
    var p := y - 1;
    p * 365 + p / 4 - p / 100 + p / 400
  }

  /** Days in the months of year `y` that precede month `m` (1 <= m <= 13). */
  function DaysBeforeMonth(y: int, m: int): int
    requires 1 <= m <= 13
    decreases m
  {
    if m == 1 then 0 else DaysBeforeMonth(y, m - 1) + DaysInMonth(y, m - 1)
  }

  /** `date.toordinal()`: 0001-01-01 is day 1. */
  function Ordinal(d: CalDate): int {
    DaysBeforeYear(d.year) + DaysBeforeMonth(d.year, d.month) + d.day
  }

  /** Ordinal of 1970-01-01, the POSIX epoch. */
  const EpochOrdinal: int := 719163

  /** `calendar.timegm(day.timetuple())` for a day at midnight. */
  function ToTimestamp(d: CalDate): int {
    (Ordinal(d) - EpochOrdinal) * 86400
  }

  lemma YearLength(y: int)
    requires y >= 1
    ensures DaysBeforeYear(y + 1) == DaysBeforeYear(y) + DaysInYear(y)
  {
    var p := y - 1;
    assert y % 4 == 0 <==> (p + 1) / 4 == p / 4 + 1;
    assert y % 4 != 0 <==> (p + 1) / 4 == p / 4;
    assert y % 100 == 0 <==> (p + 1) / 100 == p / 100 + 1;
    assert y % 100 != 0 <==> (p + 1) / 100 == p / 100;
    assert y % 400 == 0 <==> (p + 1) / 400 == p / 400 + 1;
    assert y % 400 != 0 <==> (p + 1) / 400 == p / 400;
  }

  lemma {:induction false} MonthsGrow(y: int, m: int, m': int)
    requires 1 <= m < m' <= 13
    ensures DaysBeforeMonth(y, m) + DaysInMonth(y, m) <= DaysBeforeMonth(y, m')
    decreases m' - m
  {
    if m + 1 < m' {
      MonthsGrow(y, m + 1, m');
    }
  }

  lemma WholeYear(y: int)
    ensures DaysBeforeMonth(y, 13) == DaysInYear(y)
  {}

  lemma {:induction false} YearsGrow(y: int, y': int)
    requires 1 <= y < y'
    ensures DaysBeforeYear(y) + DaysInYear(y) <= DaysBeforeYear(y')
    decreases y' - y
  {
    YearLength(y);
    if y + 1 < y' {
      YearsGrow(y + 1, y');
    }
  }

  /** Within its year, a date's ordinal lies in the year's span. */
  lemma OrdinalInYear(d: CalDate)
    ensures DaysBeforeYear(d.year) < Ordinal(d)
    ensures Ordinal(d) <= DaysBeforeYear(d.year) + DaysInYear(d.year)
  {
    WholeYear(d.year);
    if d.month < 12 {
      MonthsGrow(d.year, d.month, 13);
    }
  }

  /** `date.toordinal` is strictly monotone: the ledger's date order and the
      time axis of the interpolation agree. */
  lemma OrdinalMonotone(a: CalDate, b: CalDate)
    requires Before(a, b)
    ensures Ordinal(a) < Ordinal(b)
  {
    if a.year < b.year {
      OrdinalInYear(a);
      OrdinalInYear(b);
      YearsGrow(a.year, b.year);
    } else if a.month < b.month {
      MonthsGrow(a.year, a.month, b.month);
    }
  }

  /** Timestamps order dates exactly as date comparison does. */
  lemma TimestampOrder(a: CalDate, b: CalDate)
    ensures Before(a, b) <==> ToTimestamp(a) < ToTimestamp(b)
    ensures a == b <==> ToTimestamp(a) == ToTimestamp(b)
  {
    BeforeTotal(a, b);
    if Before(a, b) {
      OrdinalMonotone(a, b);
    } else if Before(b, a) {
      OrdinalMonotone(b, a);
    }
  }

  /** `day.replace(month=1, day=1)`. */
  function FirstOfYear(d: CalDate): (r: CalDate)
    ensures r.year == d.year && NotAfter(r, d)
    ensures r == d <==> d.month == 1 && d.day == 1
  {
    Date(d.year, 1, 1)
  }

  /** `day.replace(month=1, day=1) - timedelta(days=1)`; year 1 has no
      predecessor (Python raises OverflowError). */
  function LastOfPreviousYear(d: CalDate): (r: Option<CalDate>)
    ensures r.Some? <==> d.year > 1
    ensures r.Some? ==> Before(r.value, FirstOfYear(d)) && r.value.year == d.year - 1
  {
    if d.year > 1 then Some(Date(d.year - 1, 12, 31)) else None
  }

  /** The day before January 1st is one day earlier on the calendar, as
      `timedelta(days=1)` subtracts. */
  lemma DayBeforeNewYear(d: CalDate)
    requires d.year > 1
    ensures Ordinal(LastOfPreviousYear(d).value) + 1 == Ordinal(FirstOfYear(d))
  {
    YearLength(d.year - 1);
    WholeYear(d.year - 1);
    assert DaysBeforeMonth(d.year - 1, 13) == DaysBeforeMonth(d.year - 1, 12) + 31;
  }

  /** One decimal digit. */
  function Digit(n: int): char
    requires 0 <= n < 10
  {
    "0123456789"[n]
  }

  /** `date.isoformat()`: `YYYY-MM-DD`. */
  function IsoFormat(d: CalDate): (s: string)
    ensures |s| == 10 && s[4] == '-' && s[7] == '-'
  {
    FourDigits(d.year) + "-" + TwoDigits(d.month) + "-" + TwoDigits(d.day)
  }

  function TwoDigits(n: int): (s: string)
    requires 0 <= n < 100
    ensures |s| == 2
  {
    [Digit(n / 10), Digit(n % 10)]
  }

  function FourDigits(n: int): (s: string)
    requires 0 <= n < 10000
    ensures |s| == 4
  {
    TwoDigits(n / 100) + TwoDigits(n % 100)
  }

  lemma DigitInjective(a: int, b: int)
    requires 0 <= a < 10 && 0 <= b < 10
    ensures Digit(a) == Digit(b) ==> a == b
  {}

  lemma TwoDigitsInjective(a: int, b: int)
    requires 0 <= a < 100 && 0 <= b < 100
    ensures TwoDigits(a) == TwoDigits(b) ==> a == b
  {
    if TwoDigits(a) == TwoDigits(b) {
      assert TwoDigits(a)[0] == TwoDigits(b)[0] && TwoDigits(a)[1] == TwoDigits(b)[1];
      DigitInjective(a / 10, b / 10);
      DigitInjective(a % 10, b % 10);
    }
  }

  /** Distinct dates have distinct ISO strings, so `toJSON` never merges two
      date keys of one dict. */
  lemma IsoFormatInjective(a: CalDate, b: CalDate)
    ensures IsoFormat(a) == IsoFormat(b) ==> a == b
  {
    var sa, sb := IsoFormat(a), IsoFormat(b);
    if sa == sb {
      assert sa[..2] == TwoDigits(a.year / 100) && sb[..2] == TwoDigits(b.year / 100);
      assert sa[2..4] == TwoDigits(a.year % 100) && sb[2..4] == TwoDigits(b.year % 100);
      assert sa[5..7] == TwoDigits(a.month) && sb[5..7] == TwoDigits(b.month);
      assert sa[8..10] == TwoDigits(a.day) && sb[8..10] == TwoDigits(b.day);
      TwoDigitsInjective(a.year / 100, b.year / 100);
      TwoDigitsInjective(a.year % 100, b.year % 100);
      TwoDigitsInjective(a.month, b.month);
      TwoDigitsInjective(a.day, b.day);
    }
  }
}
