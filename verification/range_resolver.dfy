/**
 Range resolution for the ingest run: a range key and today's date give an
 inclusive span of calendar days, and each end of the span is rendered as
 the `YYYY/MM/DD` text typed into the report's date filter.
 */
module RangeResolver {

  import opened Calendar
  import opened Decimal

  /** An inclusive span of calendar days. */
  datatype Span = Span(start: Date, end: Date)

  /**
   `computeRange`: the five recognised keys select a span relative to
   `today`; every other key (including a missing one) falls back to today.
   */
  function ComputeRange(key: string, today: Date): (r: Span)
    requires ValidDate(today)
    ensures ValidDate(r.start) && ValidDate(r.end)
    ensures OnOrBefore(r.start, r.end)
  {
    var y, mi, d := today.year, today.month - 1, today.day;
    if key == "Today" then Span(today, today)
    else if key == "Yesterday" then
      var p := JsDate(y, mi, d - 1);
      Span(p, p)
    else if key == "This month" then
      JsDateInRange(y, mi, 1);
      Span(JsDate(y, mi, 1), today)
    else if key == "Last month" then
      JsDatePrevMonth(y, mi);
      JsDateDayZero(y, mi);
      Span(JsDate(y, mi - 1, 1), JsDate(y, mi, 0))
    else if key == "This year" then
      JsDateInRange(y, 0, 1);
      Span(JsDate(y, 0, 1), today)
    else Span(today, today)
  }

  /** "Yesterday" is the single calendar day before today, across month and year ends. */
  lemma YesterdaySpan(today: Date)
    requires ValidDate(today)
    ensures ComputeRange("Yesterday", today) == Span(PrevDay(today), PrevDay(today))
  {
    if today.day > 1 {
      JsDateInRange(today.year, today.month - 1, today.day - 1);
    } else {
      JsDateDayZero(today.year, today.month - 1);
    }
  }

  /** "Last month" runs from the first to the last day of the previous month. */
  lemma LastMonthSpan(today: Date)
    requires ValidDate(today)
    ensures var r := ComputeRange("Last month", today);
      && r.start.day == 1
      && r.start.month == (if today.month == 1 then 12 else today.month - 1)
      && r.start.year == (if today.month == 1 then today.year - 1 else today.year)
      && r.end == LastOfMonth(r.start.year, r.start.month)
      && r.end == PrevDay(FirstOfMonth(today))
  {
    JsDatePrevMonth(today.year, today.month - 1);
    JsDateDayZero(today.year, today.month - 1);
  }

  /** "This month" runs from the first of the current month to today. */
  lemma ThisMonthSpan(today: Date)
    requires ValidDate(today)
    ensures ComputeRange("This month", today) == Span(FirstOfMonth(today), today)
  {
    JsDateInRange(today.year, today.month - 1, 1);
  }

  /** "This year" runs from the first of January of the current year to today. */
  lemma ThisYearSpan(today: Date)
    requires ValidDate(today)
    ensures ComputeRange("This year", today) == Span(Date(today.year, 1, 1), today)
  {
    JsDateInRange(today.year, 0, 1);
  }

  /** "Today" and every unrecognised key give the one-day span of today; nothing is rejected. */
  lemma FallbackSpan(key: string, today: Date)
    requires ValidDate(today)
    requires key !in {"Yesterday", "This month", "Last month", "This year"}
    ensures ComputeRange(key, today) == Span(today, today)
  {
  }

  /** The text `Date.prototype.toISOString` writes for the year: four digits, else a sign and six. */
  function IsoYear(y: int): (s: string)
    ensures |s| == 4 || |s| == 7
  {
    if 0 <= y <= 9999 then FixedDigits(y, 4)
    else if y < 0 then "-" + FixedDigits(-y, 6)
    else "+" + FixedDigits(y, 6)
  }

  /** The date part of `toISOString`: year, two-digit month and day, joined by dashes. */
  function IsoDate(d: Date): (s: string)
    requires ValidDate(d)
    ensures |s| >= 10
  {
    IsoYear(d.year) + "-" + FixedDigits(d.month, 2) + "-" + FixedDigits(d.day, 2)
  }

  /** `.replace(/-/g, '/')` */
  function DashesToSlashes(s: string): (r: string)
    ensures |r| == |s|
    ensures forall i :: 0 <= i < |s| ==> r[i] == if s[i] == '-' then '/' else s[i]
  {
    seq(|s|, i requires 0 <= i < |s| => if s[i] == '-' then '/' else s[i])
  }

  /** `fmt`: the first ten characters of the ISO text with every dash turned into a slash. */
  function Fmt(d: Date): (s: string)
    requires ValidDate(d)
    ensures |s| == 10
    ensures '-' !in s
    ensures 0 <= d.year <= 9999 ==> IsSlashDate(s)
  {
    if 0 <= d.year <= 9999 then
      SlashedParts(FixedDigits(d.year, 4), FixedDigits(d.month, 2), FixedDigits(d.day, 2));
      DashesToSlashes(IsoDate(d)[..10])
    else
      DashesToSlashes(IsoDate(d)[..10])
  }

  /** Turning the dashes of `a-b-c` into slashes leaves the three digit groups in place. */
  lemma SlashedParts(a: string, b: string, c: string)
    requires |a| == 4 && |b| == 2 && |c| == 2
    requires AllDigits(a) && AllDigits(b) && AllDigits(c)
    ensures var r := DashesToSlashes((a + "-" + b + "-" + c)[..10]);
      && r[..4] == a && r[4] == '/' && r[5..7] == b && r[7] == '/' && r[8..] == c
      && IsSlashDate(r)
  {
    var t := a + "-" + b + "-" + c;
    assert |t| == 10 && t[..10] == t;
    var r := DashesToSlashes(t);
    assert forall i :: 0 <= i < 4 ==> t[i] == a[i] && r[i] == a[i];
    assert forall i :: 0 <= i < 2 ==> t[5 + i] == b[i] && r[5 + i] == b[i];
    assert forall i :: 0 <= i < 2 ==> t[8 + i] == c[i] && r[8 + i] == c[i];
    assert r[..4] == a;
    assert r[5..7] == b;
    assert r[8..] == c;
  }

  /** Text of the shape `DDDD/DD/DD`. */
  predicate IsSlashDate(s: string)
  {
    && |s| == 10 && s[4] == '/' && s[7] == '/'
    && AllDigits(s[..4]) && AllDigits(s[5..7]) && AllDigits(s[8..])
  }

  /** Reads a `YYYY/MM/DD` text back into a date. */
  function ParseSlashDate(s: string): Date
    requires IsSlashDate(s)
  {
    Date(ValueOf(s[..4]), ValueOf(s[5..7]), ValueOf(s[8..]))
  }

  /** For four-digit years the filter text names exactly the date it was made from. */
  lemma FmtRoundTrip(d: Date)
    requires ValidDate(d) && 0 <= d.year <= 9999
    ensures ParseSlashDate(Fmt(d)) == d
  {
    SlashedParts(FixedDigits(d.year, 4), FixedDigits(d.month, 2), FixedDigits(d.day, 2));
    FixedDigitsValue(d.year, 4);
    FixedDigitsValue(d.month, 2);
    FixedDigitsValue(d.day, 2);
  }
}
