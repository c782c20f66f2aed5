/**
 * Calendar dates and clock times in the proleptic Gregorian calendar, which both
 * JavaScript's Date and Python's datetime use.
 */
module Calendar {

  /** A broken-down local date and time. `month` is 1..12, i.e. JavaScript's `getMonth() + 1`. */
  datatype DateTime = DateTime(year: int, month: int, day: int, hour: int, minute: int, second: int)

  predicate IsLeapYear(y: int) {
    y % 4 == 0 && (y % 100 != 0 || y % 400 == 0)
  }

  function DaysInMonth(y: int, m: int): (n: int)
    requires 1 <= m <= 12
    ensures 28 <= n <= 31
    ensures m == 2 ==> (n == 29 <==> IsLeapYear(y))
  {
    if m == 2 then (if IsLeapYear(y) then 29 else 28)
    else if m == 4 || m == 6 || m == 9 || m == 11 then 30
    else 31
  }

  predicate IsRealDate(y: int, m: int, d: int) {
    1 <= m <= 12 && 1 <= d <= DaysInMonth(y, m)
  }

  predicate IsClockTime(h: int, mi: int, s: int) {
    0 <= h <= 23 && 0 <= mi <= 59 && 0 <= s <= 59
  }

  /** A date and time that exists: what a JavaScript Date's local getters can return. */
  predicate IsValid(dt: DateTime) {
    IsRealDate(dt.year, dt.month, dt.day) && IsClockTime(dt.hour, dt.minute, dt.second)
  }
}
