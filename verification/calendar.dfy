/**
 Proleptic Gregorian calendar dates, and the day arithmetic that the
 JavaScript `Date` constructor performs when it is given an out-of-range
 month index or day number.
 */
module Calendar {

  /** A calendar date; `month` runs from 1 to 12 (JavaScript's `getMonth()` is `month - 1`). */
  datatype Date = Date(year: int, month: int, day: int)

  predicate IsLeapYear(y: int)
  {
    y % 4 == 0 && (y % 100 != 0 || y % 400 == 0)
  }

  function DaysInMonth(y: int, m: int): (n: int)
    requires 1 <= m <= 12
    ensures 28 <= n <= 31
    ensures m == 2 <==> n < 30
  {
    if m == 2 then (if IsLeapYear(y) then 29 else 28)
    else if m == 4 || m == 6 || m == 9 || m == 11 then 30
    else 31
  }

  predicate ValidDate(d: Date)
  {
    1 <= d.month <= 12 && 1 <= d.day <= DaysInMonth(d.year, d.month)
  }

  /** `a` is a strictly earlier calendar day than `b`. */
  predicate Precedes(a: Date, b: Date)
  {
    || a.year < b.year
    || (a.year == b.year && a.month < b.month)
    || (a.year == b.year && a.month == b.month && a.day < b.day)
  }

  predicate OnOrBefore(a: Date, b: Date)
  {
    a == b || Precedes(a, b)
  }

  function FirstOfMonth(d: Date): Date
  {
    Date(d.year, d.month, 1)
  }

  function LastOfMonth(y: int, m: int): Date
    requires 1 <= m <= 12
  {
    Date(y, m, DaysInMonth(y, m))
  }

  /** The calendar day immediately before `d`. */
  function PrevDay(d: Date): (p: Date)
    requires ValidDate(d)
    ensures ValidDate(p) && Precedes(p, d)
  {
    if d.day > 1 then Date(d.year, d.month, d.day - 1)
    else if d.month > 1 then LastOfMonth(d.year, d.month - 1)
    else LastOfMonth(d.year - 1, 12)
  }

  /** No valid date lies strictly between `PrevDay(d)` and `d`. */
  lemma PrevDayIsImmediate(d: Date, e: Date)
    requires ValidDate(d) && ValidDate(e)
    requires Precedes(e, d)
    ensures OnOrBefore(e, PrevDay(d))
  {
  }

  /**
   `new Date(year, monthIndex, day)` with a zero-based month index: the month
   index is carried into the year by floor division, then the day number is
   counted from the first of that month, rolling into earlier or later months
   as needed (so day 0 is the last day of the previous month).
   */
  function JsDate(year: int, monthIndex: int, day: int): (d: Date)
    ensures ValidDate(d)
  {
    RollDay(year + monthIndex / 12, monthIndex % 12 + 1, day)
  }

  /** The date `day - 1` days after the first of month `m` of year `y`. */
  function RollDay(y: int, m: int, day: int): (d: Date)
    requires 1 <= m <= 12
    ensures ValidDate(d)
    decreases if day < 1 then 1 - day else 0, day
  {
    if day < 1 then
      var py := if m == 1 then y - 1 else y;
      var pm := if m == 1 then 12 else m - 1;
      RollDay(py, pm, day + DaysInMonth(py, pm))
    else if day > DaysInMonth(y, m) then
      var ny := if m == 12 then y + 1 else y;
      var nm := if m == 12 then 1 else m + 1;
      RollDay(ny, nm, day - DaysInMonth(y, m))
    else Date(y, m, day)
  }

  /** In-range arguments denote the date they name. */
  lemma JsDateInRange(y: int, monthIndex: int, day: int)
    requires 0 <= monthIndex < 12 && 1 <= day <= DaysInMonth(y, monthIndex + 1)
    ensures JsDate(y, monthIndex, day) == Date(y, monthIndex + 1, day)
  {
  }

  /** Day 0 of a month is the day before its first. */
  lemma JsDateDayZero(y: int, monthIndex: int)
    requires 0 <= monthIndex < 12
    ensures JsDate(y, monthIndex, 0) == PrevDay(Date(y, monthIndex + 1, 1))
  {
    assert RollDay(y, monthIndex + 1, 0) == PrevDay(Date(y, monthIndex + 1, 1));
  }

  /** Month index -1 is December of the previous year; otherwise the month before. */
  lemma JsDatePrevMonth(y: int, monthIndex: int)
    requires 0 <= monthIndex < 12
    ensures monthIndex == 0 ==> JsDate(y, monthIndex - 1, 1) == Date(y - 1, 12, 1)
    ensures monthIndex > 0 ==> JsDate(y, monthIndex - 1, 1) == Date(y, monthIndex, 1)
  {
    if monthIndex == 0 {
      assert (-1) / 12 == -1 && (-1) % 12 == 11;
    }
  }
}
