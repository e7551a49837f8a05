/**
 * Calendar dates as (year, month, day) triples with 1-based months, the
 * ISO `YYYY-MM-DD` text form, and the two month-shifting rules the client
 * uses: JavaScript's `Date.setMonth` (the day overflows into the next month)
 * and date-fns `subMonths` (the day is clamped to the end of the month).
 */
module Dates {
  import opened Wrappers
  import opened Text

  datatype Date = Date(year: int, month: int, day: int)

  predicate IsLeapYear(y: int) {
    y % 4 == 0 && (y % 100 != 0 || y % 400 == 0)
  }

  function DaysInMonth(y: int, m: int): (n: int)
    requires 1 <= m <= 12
    ensures 28 <= n <= 31
  {
    if m == 2 then (if IsLeapYear(y) then 29 else 28)
    else if m == 4 || m == 6 || m == 9 || m == 11 then 30
    else 31
  }

  /** A real calendar day (any year, as JavaScript dates allow). */
  predicate Wellformed(d: Date) {
    1 <= d.month <= 12 && 1 <= d.day <= DaysInMonth(d.year, d.month)
  }

  /** A day that Python's `datetime.date` accepts (years 1 to 9999). */
  predicate InPythonRange(d: Date) {
    Wellformed(d) && 1 <= d.year <= 9999
  }

  /** Chronological order, `a <= b`. */
  predicate OnOrBefore(a: Date, b: Date) {
    a.year < b.year || (a.year == b.year && (a.month < b.month || (a.month == b.month && a.day <= b.day)))
  }

  lemma OnOrBeforeTotal(a: Date, b: Date)
    ensures OnOrBefore(a, b) || OnOrBefore(b, a)
  {
  }

  lemma OnOrBeforeTransitive(a: Date, b: Date, c: Date)
    requires OnOrBefore(a, b) && OnOrBefore(b, c)
    ensures OnOrBefore(a, c)
  {
  }

  /** Months counted from year 0: consecutive months have consecutive numbers. */
  function MonthNumber(year: int, month: int): int {
    12 * year + (month - 1)
  }

  function FirstOfMonth(d: Date): Date {
    Date(d.year, d.month, 1)
  }

  function LastOfMonth(d: Date): Date
    requires 1 <= d.month <= 12
  {
    Date(d.year, d.month, DaysInMonth(d.year, d.month))
  }

  /** The inclusive bounds first-of-month .. last-of-month hold exactly the days of that month. */
  lemma MonthBounds(d: Date, x: Date)
    requires Wellformed(d) && Wellformed(x)
    ensures OnOrBefore(FirstOfMonth(d), x) && OnOrBefore(x, LastOfMonth(d))
            <==> x.year == d.year && x.month == d.month
  {
  }

  /**
   * JavaScript's month normalisation: month index `monthIndex` (0-based, any
   * integer) of year `y` is month `r.1` (1-based) of year `r.0`.
   */
  function NormalizeMonth(y: int, monthIndex: int): (r: (int, int))
    ensures 1 <= r.1 <= 12
    ensures MonthNumber(r.0, r.1) == 12 * y + monthIndex
  {
    (y + monthIndex / 12, monthIndex % 12 + 1)
  }

  /**
   * `new Date(y, monthIndex, day)` for the days the client passes (0 to 31):
   * day 0 is the last day of the previous month, and a day past the end of
   * the month runs over into the next one.
   */
  function JsDate(y: int, monthIndex: int, day: int): (d: Date)
    requires 0 <= day <= 31
    ensures Wellformed(d)
  {
    var (y1, m1) := NormalizeMonth(y, monthIndex);
    if day == 0 then
      var (y0, m0) := NormalizeMonth(y, monthIndex - 1);
      Date(y0, m0, DaysInMonth(y0, m0))
    else if day <= DaysInMonth(y1, m1) then Date(y1, m1, day)
    else
      var (y2, m2) := NormalizeMonth(y, monthIndex + 1);
      Date(y2, m2, day - DaysInMonth(y1, m1))
  }

  /** `date.setMonth(date.getMonth() + delta)` on a copy of `d`. */
  function AddMonthsJs(d: Date, delta: int): (r: Date)
    requires Wellformed(d)
    ensures Wellformed(r)
  {
    JsDate(d.year, d.month - 1 + delta, d.day)
  }

  /**
   * `setMonth` lands `delta` months later on the same day when that month is
   * long enough, and otherwise runs over into the month after it.
   */
  lemma AddMonthsJsMonth(d: Date, delta: int)
    requires Wellformed(d)
    ensures var (ty, tm) := NormalizeMonth(d.year, d.month - 1 + delta);
            var r := AddMonthsJs(d, delta);
            if d.day <= DaysInMonth(ty, tm)
            then MonthNumber(r.year, r.month) == MonthNumber(d.year, d.month) + delta && r.day == d.day
            else MonthNumber(r.year, r.month) == MonthNumber(d.year, d.month) + delta + 1
                 && r.day == d.day - DaysInMonth(ty, tm)
  {
  }

  /** Moving one month forward from 31 January skips February. */
  lemma NextMonthFromJanuary31(y: int)
    ensures AddMonthsJs(Date(y, 1, 31), 1).month == 3
  {
    AddMonthsJsMonth(Date(y, 1, 31), 1);
  }

  /** date-fns `subMonths(d, n)`: `n` months earlier, the day clamped to the end of that month. */
  function SubMonthsClamped(d: Date, n: int): (r: Date)
    requires Wellformed(d)
    ensures Wellformed(r)
    ensures MonthNumber(r.year, r.month) == MonthNumber(d.year, d.month) - n
    ensures r.day == if d.day <= DaysInMonth(r.year, r.month) then d.day else DaysInMonth(r.year, r.month)
  {
    var (y, m) := NormalizeMonth(d.year, d.month - 1 - n);
    Date(y, m, if d.day <= DaysInMonth(y, m) then d.day else DaysInMonth(y, m))
  }

  /** The two-digit, zero-padded rendering of a month or a day. */
  function Pad2(n: nat): string {
    PadStart(NatToString(n), 2, '0')
  }

  /** Python's `date.isoformat()` and date-fns `format(d, 'yyyy-MM-dd')`. */
  function IsoFormat(d: Date): string
    requires d.year >= 0 && d.month >= 0 && d.day >= 0
  {
    PadStart(NatToString(d.year), 4, '0') + "-" + Pad2(d.month) + "-" + Pad2(d.day)
  }

  /**
   * Python's `datetime.strptime(s, '%Y-%m-%d').date()`: exactly four year
   * digits, one or two month digits, one or two day digits or a space and
   * one digit, and a real day.
   */
  function ParseIsoDate(s: string): (r: Option<Date>)
    ensures r.Some? ==> InPythonRange(r.value)
  {
    if |s| < 8 || !AllDigits(s[..4]) || s[4] != '-' then None
    else
      var rest := s[5..];
      var monthLength := if rest[1] == '-' then 1 else 2;
      if |rest| < monthLength + 2 || rest[monthLength] != '-' then None
      else
        var monthText := rest[..monthLength];
        var dayText := rest[monthLength + 1..];
        var dayDigits := if |dayText| == 2 && dayText[0] == ' ' then dayText[1..] else dayText;
        if !AllDigits(monthText) || !AllDigits(dayDigits) || |dayText| > 2 then None
        else
          var d := Date(NatValue(s[..4]), NatValue(monthText), NatValue(dayDigits));
          if InPythonRange(d) then Some(d) else None
  }

  /** `%d` also reads a day written as a space and one digit, as if it were zero-padded. */
  lemma SpacePaddedDay(y: string, m: string, c: char)
    requires |y| == 4 && |m| == 2 && AllDigits(y) && AllDigits(m) && IsDigit(c)
    ensures ParseIsoDate(y + "-" + m + "- " + [c]) == ParseIsoDate(y + "-" + m + "-0" + [c])
  {
    var spaced, padded := y + "-" + m + "- " + [c], y + "-" + m + "-0" + [c];
    assert spaced[..4] == y == padded[..4];
    assert spaced[5..] == m + "- " + [c] && padded[5..] == m + "-0" + [c];
    assert (m + "- " + [c])[..2] == m == (m + "-0" + [c])[..2];
    assert (m + "- " + [c])[3..] == " " + [c] && (m + "-0" + [c])[3..] == "0" + [c];
    assert (" " + [c])[1..] == [c];
    assert NatValue("0" + [c]) == NatValue([c]);
  }

  lemma ParseIsoDateOfParts(s: string, y: string, m: string, d: string)
    requires |y| == 4 && |m| == 2 && |d| == 2 && AllDigits(y) && AllDigits(m) && AllDigits(d)
    requires s == y + "-" + m + "-" + d
    ensures var r := Date(NatValue(y), NatValue(m), NatValue(d));
            ParseIsoDate(s) == if InPythonRange(r) then Some(r) else None
  {
    assert s[..4] == y;
    assert s[5..] == m + "-" + d;
    assert (m + "-" + d)[..2] == m;
    assert (m + "-" + d)[3..] == d;
  }

  lemma PaddedDigits(n: nat, width: nat)
    requires width >= 1 && n < Pow10(width)
    ensures |PadStart(NatToString(n), width, '0')| == width
    ensures AllDigits(PadStart(NatToString(n), width, '0'))
    ensures NatValue(PadStart(NatToString(n), width, '0')) == n
  {
    NatToStringLength(n, width);
    PaddedValue(n, width);
  }

  /** Reading back the ISO text of a date gives the date: `strptime(d.isoformat()) == d`. */
  lemma IsoRoundTrip(d: Date)
    requires InPythonRange(d)
    ensures ParseIsoDate(IsoFormat(d)) == Some(d)
  {
    assert Pow10(2) == 100 && Pow10(4) == 10000;
    PaddedDigits(d.year, 4);
    PaddedDigits(d.month, 2);
    PaddedDigits(d.day, 2);
    ParseIsoDateOfParts(IsoFormat(d), PadStart(NatToString(d.year), 4, '0'), Pad2(d.month), Pad2(d.day));
  }

  /** date-fns `format(d, 'MMM')`. */
  function MonthAbbrev(m: int): string
    requires 1 <= m <= 12
  {
    ["Jan", "Feb", "Mar", "Apr", "May", "Jun", "Jul", "Aug", "Sep", "Oct", "Nov", "Dec"][m - 1]
  }
}
