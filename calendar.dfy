/** The parts of .NET's `DateTime` the services rely on: construction of valid
    dates, `DaysInMonth`, `DayOfYear`, chronological comparison and the
    service's own `isSameDay`. */
module Calendar {

  /** The fields of a `DateTime`; only valid combinations form a `DateTime`. */
  datatype Stamp = Stamp(year: int, month: int, day: int, hour: int, minute: int, second: int)

  predicate IsLeapYear(year: int) {
    year % 4 == 0 && (year % 100 != 0 || year % 400 == 0)
  }

  /** `DateTime.DaysInMonth(year, month)`. */
  function DaysInMonth(year: int, month: int): (n: int)
    requires 1 <= month <= 12
    ensures 28 <= n <= 31
    ensures n == 29 <==> month == 2 && IsLeapYear(year)
  {
    if month == 2 then (if IsLeapYear(year) then 29 else 28)
    else if month == 4 || month == 6 || month == 9 || month == 11 then 30
    else 31
  }

  /** The range `DateTime`'s constructor accepts (anything else throws). */
  predicate ValidStamp(s: Stamp) {
    && 1 <= s.year <= 9999
    && 1 <= s.month <= 12
    && 1 <= s.day <= DaysInMonth(s.year, s.month)
    && 0 <= s.hour < 24
    && 0 <= s.minute < 60
    && 0 <= s.second < 60
  }

  type DateTime = s: Stamp | ValidStamp(s) witness Stamp(1, 1, 1, 0, 0, 0)

  /** `DateTime.MinValue`, the value of a `DateTime` field never assigned. */
  const MinValue: DateTime := Stamp(1, 1, 1, 0, 0, 0)

  /** `new DateTime(year, month, day)` (midnight). */
  function Date(year: int, month: int, day: int): (d: DateTime)
    requires 1 <= year <= 9999 && 1 <= month <= 12 && 1 <= day <= DaysInMonth(year, month)
    ensures d.year == year && d.month == month && d.day == day
  {
    Stamp(year, month, day, 0, 0, 0)
  }

  /** Number of days in the months of `year` before `month`. */
  function DaysBefore(year: int, month: int): (n: int)
    requires 1 <= month <= 13
    ensures n >= 0
    decreases month
  {
    if month == 1 then 0 else DaysBefore(year, month - 1) + DaysInMonth(year, month - 1)
  }

  /** `DateTime.DayOfYear`: 1 on January 1st. */
  function DayOfYear(d: DateTime): (n: int)
    ensures 1 <= n <= 366
  {
    DaysBeforeAtMost(d.year, d.month);
    DaysBefore(d.year, d.month) + d.day
  }

  lemma {:induction false} DaysBeforeAtMost(year: int, month: int)
    requires 1 <= month <= 12
    ensures DaysBefore(year, month) + DaysInMonth(year, month) <= 366
    decreases month
  {
    if month > 1 {
      DaysBeforeAtMost(year, month - 1);
    }
  }

  /** Every month starts after all days of any earlier month. */
  lemma {:induction false} DaysBeforeGrows(year: int, m1: int, m2: int)
    requires 1 <= m1 < m2 <= 13
    ensures DaysBefore(year, m1) + DaysInMonth(year, m1) <= DaysBefore(year, m2)
    decreases m2
  {
    if m1 + 1 < m2 {
      DaysBeforeGrows(year, m1, m2 - 1);
    }
  }

  /** Chronological order key: one step per second, fields weighted so that
      earlier fields dominate. */
  function Ticks(d: DateTime): int {
    ((((d.year * 12 + (d.month - 1)) * 31 + (d.day - 1)) * 24 + d.hour) * 60 + d.minute) * 60 + d.second
  }

  /** `d1 <= d2` on `DateTime`. */
  predicate AtOrBefore(d1: DateTime, d2: DateTime) {
    Ticks(d1) <= Ticks(d2)
  }

  /** The service's `isSameDay`: same day of the year and same year. */
  predicate IsSameDay(d1: DateTime, d2: DateTime) {
    DayOfYear(d1) == DayOfYear(d2) && d2.year == d1.year
  }

  /** Same calendar date, field by field: the reference `isSameDay` is meant to decide. */
  predicate SameDate(d1: DateTime, d2: DateTime) {
    d1.year == d2.year && d1.month == d2.month && d1.day == d2.day
  }

  /** `isSameDay` holds exactly for two moments of the same calendar date. */
  lemma IsSameDayIffSameDate(d1: DateTime, d2: DateTime)
    ensures IsSameDay(d1, d2) <==> SameDate(d1, d2)
  {
    if IsSameDay(d1, d2) && d1.month != d2.month {
      if d1.month < d2.month {
        DaysBeforeGrows(d1.year, d1.month, d2.month);
      } else {
        DaysBeforeGrows(d1.year, d2.month, d1.month);
      }
    }
  }
}
