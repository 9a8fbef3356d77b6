/**
 * Whole calendar days in the proleptic Gregorian calendar. A day is a (year, month, day)
 * record; order and distance between days go through `Ordinal`, the number of days since
 * 0001-01-01. This replaces the pages' `new Date(...)` values normalised to local midnight.
 */
module Dates {
  import opened Common
  import Text

  datatype Date = Date(year: int, month: int, day: int)

  predicate IsLeapYear(y: int) {
    y % 4 == 0 && (y % 100 != 0 || y % 400 == 0)
  }

  function DaysInYear(y: int): int {
    if IsLeapYear(y) then 366 else 365
  }

  /** `new Date(year, month, 0).getDate()`: the length of a month (months numbered 1..12). */
  function DaysInMonth(y: int, m: int): (n: int)
    requires 1 <= m <= 12
    ensures 28 <= n <= 31
    ensures n == 29 <==> m == 2 && IsLeapYear(y)
    ensures n == 28 <==> m == 2 && !IsLeapYear(y)
    ensures n == 30 <==> m == 4 || m == 6 || m == 9 || m == 11
  {
    if m == 2 then (if IsLeapYear(y) then 29 else 28)
    else if m == 4 || m == 6 || m == 9 || m == 11 then 30
    else 31
  }

  predicate Valid(d: Date) {
    1 <= d.month <= 12 && 1 <= d.day <= DaysInMonth(d.year, d.month)
  }

  /** A real calendar day. */
  type Day = d: Date | Valid(d) witness Date(1970, 1, 1)

  /** Days of year `y` before the first of month `m`; `m == 13` gives the whole year. */
  function DaysBeforeMonth(y: int, m: int): (n: int)
    requires 1 <= m <= 13
    ensures 0 <= n <= 366
  {
    [0, 31, 59, 90, 120, 151, 181, 212, 243, 273, 304, 334, 365][m - 1]
      + (if m > 2 && IsLeapYear(y) then 1 else 0)
  }

  lemma MonthStep(y: int, m: int)
    requires 1 <= m <= 12
    ensures DaysBeforeMonth(y, m + 1) == DaysBeforeMonth(y, m) + DaysInMonth(y, m)
    ensures DaysBeforeMonth(y, 13) == DaysInYear(y)
  {
  }

  /** Days from 0001-01-01 to the first of January of year `y` (negative before year 1). */
  function DaysBeforeYear(y: int): int {
    365 * (y - 1) + (y - 1) / 4 - (y - 1) / 100 + (y - 1) / 400
  }

  lemma DivStep(k: int, n: int)
    requires n == 4 || n == 100 || n == 400
    ensures (k + 1) / n == k / n + (if (k + 1) % n == 0 then 1 else 0)
  {
  }

  /** Consecutive years are one year-length apart. */
  lemma YearStep(y: int)
    ensures DaysBeforeYear(y + 1) == DaysBeforeYear(y) + DaysInYear(y)
  {
    var k := y - 1;
    DivStep(k, 4);
    DivStep(k, 100);
    DivStep(k, 400);
    LeapDivisors(y);
    var leap := (if y % 4 == 0 then 1 else 0) - (if y % 100 == 0 then 1 else 0) + (if y % 400 == 0 then 1 else 0);
    assert leap == DaysInYear(y) - 365;
    assert DaysBeforeYear(y + 1) == 365 * k + 365 + y / 4 - y / 100 + y / 400;
  }

  lemma LeapDivisors(y: int)
    ensures y % 400 == 0 ==> y % 100 == 0
    ensures y % 100 == 0 ==> y % 4 == 0
  {
  }

  /** Later years start later: at least 365 days apart per year. */
  lemma {:induction false} YearsMonotone(a: int, b: int)
    requires a <= b
    ensures DaysBeforeYear(b) - DaysBeforeYear(a) >= 365 * (b - a)
    decreases b - a
  {
    if a < b {
      YearsMonotone(a, b - 1);
      YearStep(b - 1);
    }
  }

  /** The day number of `d`: 0 for 0001-01-01, consecutive days differ by one. */
  function Ordinal(d: Day): int {
    DaysBeforeYear(d.year) + DaysBeforeMonth(d.year, d.month) + d.day - 1
  }

  /** The year that contains day number `n`, searching upwards from year `y`. */
  function YearUp(n: int, y: int): (r: int)
    requires DaysBeforeYear(y) <= n
    ensures DaysBeforeYear(r) <= n < DaysBeforeYear(r + 1)
    decreases n - DaysBeforeYear(y)
  {
    YearStep(y);
    if n < DaysBeforeYear(y + 1) then y else YearUp(n, y + 1)
  }

  /** The year that contains day number `n`, searching downwards from year `y`. */
  function YearDown(n: int, y: int): (r: int)
    requires n < DaysBeforeYear(y + 1)
    ensures DaysBeforeYear(r) <= n < DaysBeforeYear(r + 1)
    decreases DaysBeforeYear(y + 1) - n
  {
    YearStep(y);
    if DaysBeforeYear(y) <= n then y else YearDown(n, y - 1)
  }

  function YearOf(n: int): (r: int)
    ensures DaysBeforeYear(r) <= n < DaysBeforeYear(r + 1)
  {
    if n >= 0 then YearUp(n, 1) else YearDown(n, 0)
  }

  /** The month that contains day `doy` (counted from 0) of year `y`, searching from month `m`. */
  function MonthFrom(y: int, doy: int, m: int): (r: int)
    requires 1 <= m <= 12 && DaysBeforeMonth(y, m) <= doy < DaysInYear(y)
    ensures m <= r <= 12 && DaysBeforeMonth(y, r) <= doy < DaysBeforeMonth(y, r + 1)
    decreases 12 - m
  {
    MonthStep(y, m);
    if m == 12 || doy < DaysBeforeMonth(y, m + 1) then m else MonthFrom(y, doy, m + 1)
  }

  /** The calendar day with day number `n`. */
  function FromOrdinal(n: int): (d: Day)
    ensures Ordinal(d) == n
  {
    var y := YearOf(n);
    YearStep(y);
    var doy := n - DaysBeforeYear(y);
    var m := MonthFrom(y, doy, 1);
    MonthStep(y, m);
    Date(y, m, doy - DaysBeforeMonth(y, m) + 1)
  }

  /** Day numbers identify days: different days have different numbers. */
  lemma OrdinalInjective(a: Day, b: Day)
    requires Ordinal(a) == Ordinal(b)
    ensures a == b
  {
    if a.year < b.year {
      EarlierYearFirst(a, b);
    } else if b.year < a.year {
      EarlierYearFirst(b, a);
    } else if a.month < b.month {
      EarlierMonthFirst(a, b);
    } else if b.month < a.month {
      EarlierMonthFirst(b, a);
    }
  }

  lemma EarlierYearFirst(a: Day, b: Day)
    requires a.year < b.year
    ensures Ordinal(a) < Ordinal(b)
  {
    MonthInYear(a);
    YearStep(a.year);
    YearsMonotone(a.year + 1, b.year);
  }

  lemma EarlierMonthFirst(a: Day, b: Day)
    requires a.year == b.year && a.month < b.month
    ensures Ordinal(a) < Ordinal(b)
  {
    MonthStep(a.year, a.month);
    MonthsMonotone(a.year, a.month + 1, b.month);
  }

  lemma MonthInYear(d: Day)
    ensures DaysBeforeMonth(d.year, d.month) + d.day - 1 < DaysInYear(d.year)
  {
    MonthStep(d.year, d.month);
    MonthsMonotone(d.year, d.month + 1, 13);
  }

  lemma MonthsMonotone(y: int, a: int, b: int)
    requires 1 <= a <= b <= 13
    ensures DaysBeforeMonth(y, b) - DaysBeforeMonth(y, a) >= 28 * (b - a)
  {
  }

  /** Every day is the day with its own number. */
  lemma FromOrdinalOfOrdinal(d: Day)
    ensures FromOrdinal(Ordinal(d)) == d
  {
    OrdinalInjective(FromOrdinal(Ordinal(d)), d);
  }

  predicate Before(a: Day, b: Day) {
    Ordinal(a) < Ordinal(b)
  }

  predicate AtOrBefore(a: Day, b: Day) {
    Ordinal(a) <= Ordinal(b)
  }

  /** Day comparison is the lexicographic order on (year, month, day). */
  lemma BeforeIsLexicographic(a: Day, b: Day)
    ensures Before(a, b) <==>
      a.year < b.year || (a.year == b.year && (a.month < b.month || (a.month == b.month && a.day < b.day)))
  {
    if a.year < b.year {
      EarlierYearFirst(a, b);
    } else if b.year < a.year {
      EarlierYearFirst(b, a);
    } else if a.month < b.month {
      EarlierMonthFirst(a, b);
    } else if b.month < a.month {
      EarlierMonthFirst(b, a);
    }
  }

  /** The day `n` days after `d` (before it when `n` is negative). */
  function AddDays(d: Day, n: int): (r: Day)
    ensures Ordinal(r) == Ordinal(d) + n
  {
    FromOrdinal(Ordinal(d) + n)
  }

  /** Whole days from `a` to `b`. */
  function DaysBetween(a: Day, b: Day): int {
    Ordinal(b) - Ordinal(a)
  }

  /** Adding the distance between two days to the first gives the second. */
  lemma AddDaysBetween(a: Day, b: Day)
    ensures AddDays(a, DaysBetween(a, b)) == b
  {
    OrdinalInjective(AddDays(a, DaysBetween(a, b)), b);
  }

  /** `Date.prototype.getDay`: 0 for Sunday through 6 for Saturday (0001-01-01 was a Monday). */
  function DayOfWeek(d: Day): (w: int)
    ensures 0 <= w < 7
  {
    (Ordinal(d) + 1) % 7
  }

  /** The next day falls on the next weekday. */
  lemma DayOfWeekNext(d: Day)
    ensures DayOfWeek(AddDays(d, 1)) == (DayOfWeek(d) + 1) % 7
  {
    var e := AddDays(d, 1);
    WeekStep(Ordinal(d) + 1, Ordinal(e) + 1);
  }

  lemma WeekStep(k: int, k': int)
    requires k' == k + 1
    ensures k' % 7 == (k % 7 + 1) % 7
  {
    var q, r := k / 7, k % 7;
    assert k == 7 * q + r && 0 <= r < 7;
    if r == 6 {
      assert k' == 7 * (q + 1);
    } else {
      assert k' == 7 * q + (r + 1);
    }
  }

  /** `String(n).padStart(2, '0')` for the numbers 0..99. */
  function Pad2(n: int): (s: string)
    requires 0 <= n < 100
    ensures |s| == 2 && Text.AllDigits(s) && Text.DigitsValue(s) == n
  {
    var s := [Text.DigitChar(n / 10), Text.DigitChar(n % 10)];
    assert s[..1] == [s[0]] && [s[0]][..0] == [];
    assert Text.DigitsValue([s[0]]) == n / 10;
    s
  }

  /** `${year}-${month}-${day}` with month and day zero-padded to two digits. */
  function Format(d: Day): (s: string)
    ensures |s| >= 7 && s[|s| - 3] == '-' && s[|s| - 6] == '-'
  {
    Text.IntToString(d.year) + "-" + Pad2(d.month) + "-" + Pad2(d.day)
  }

  /** For four-digit years the text is exactly YYYY-MM-DD. */
  lemma FormatIsIsoShape(d: Day)
    requires 1000 <= d.year <= 9999
    ensures var s := Format(d);
      |s| == 10 && s[4] == '-' && s[7] == '-' &&
      forall i :: 0 <= i < 10 && i != 4 && i != 7 ==> Text.IsDigit(s[i])
  {
    Text.FourDigits(d.year);
  }

  /** Reads `year-MM-DD` back into a day; `None` when the text is not a real date in that form. */
  function Parse(s: string): (r: Option<Day>)
  {
    if |s| < 7 || s[|s| - 3] != '-' || s[|s| - 6] != '-' then None
    else
      var ys, ms, ds := s[..|s| - 6], s[|s| - 5..|s| - 3], s[|s| - 2..];
      if !Text.AllDigits(ms) || !Text.AllDigits(ds) then None
      else
        match Text.ParseInt(ys)
        case None => None
        case Some(y) =>
          var date := Date(y, Text.DigitsValue(ms), Text.DigitsValue(ds));
          if Valid(date) then Some(date) else None
  }

  /** Formatting a day and reading the text back gives the same day. */
  lemma ParseFormat(d: Day)
    ensures Parse(Format(d)) == Some(d)
  {
    var s := Format(d);
    var ys := Text.IntToString(d.year);
    assert s[..|s| - 6] == ys;
    assert s[|s| - 5..|s| - 3] == Pad2(d.month);
    assert s[|s| - 2..] == Pad2(d.day);
    Text.ParseIntOfIntToString(d.year);
  }
}
