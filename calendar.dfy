/**
 * The dashboard's notion of "today": before 08:00 the on-call day is still
 * the previous calendar day. The day is keyed and looked up as `DD/MM/YYYY`.
 * Dates are proleptic Gregorian, as JavaScript's `Date` counts them.
 */
module Calendar {
  import opened Optional
  import opened Text

  datatype Date = Date(year: int, month: int, day: int)

  /** The local wall-clock reading `new Date()` gives at page load. */
  datatype LocalTime = LocalTime(date: Date, hour: int)

  /** The hour at which a new on-call day begins. */
  const RolloverHour := 8

  predicate IsLeapYear(y: int) {
    y % 4 == 0 && (y % 100 != 0 || y % 400 == 0)
  }

  function DaysInMonth(y: int, m: int): (n: int)
    requires 1 <= m <= 12
    ensures 28 <= n <= 31
  {
    if m == 2 then (if IsLeapYear(y) then 29 else 28)
    else if m == 4 || m == 6 || m == 9 || m == 11 then 30
    else 31
  }

  /** The days of year `y` before the first of month `m`. */
  function DaysBeforeMonth(y: int, m: int): nat
    requires 1 <= m <= 13
  {
    if m == 1 then 0 else DaysBeforeMonth(y, m - 1) + DaysInMonth(y, m - 1)
  }

  /** The twelve months add up to 366 days in a leap year and 365 otherwise. */
  lemma YearLength(y: int)
    ensures DaysBeforeMonth(y, 13) == if IsLeapYear(y) then 366 else 365
  {
    var feb := if IsLeapYear(y) then 29 else 28;
    assert DaysBeforeMonth(y, 2) == 31;
    assert DaysBeforeMonth(y, 3) == 31 + feb;
    assert DaysBeforeMonth(y, 4) == 62 + feb;
    assert DaysBeforeMonth(y, 5) == 92 + feb;
    assert DaysBeforeMonth(y, 6) == 123 + feb;
    assert DaysBeforeMonth(y, 7) == 153 + feb;
    assert DaysBeforeMonth(y, 8) == 184 + feb;
    assert DaysBeforeMonth(y, 9) == 215 + feb;
    assert DaysBeforeMonth(y, 10) == 245 + feb;
    assert DaysBeforeMonth(y, 11) == 276 + feb;
    assert DaysBeforeMonth(y, 12) == 306 + feb;
    assert DaysBeforeMonth(y, 13) == 337 + feb;
  }

  /** The position of `d` in its year, 1 for the first of January. */
  function DayOfYear(d: Date): nat
    requires 1 <= d.month <= 12 && d.day >= 1
  {
    DaysBeforeMonth(d.year, d.month) + d.day as nat
  }

  predicate ValidDate(d: Date) {
    1 <= d.month <= 12 && 1 <= d.day <= DaysInMonth(d.year, d.month)
  }

  predicate ValidTime(t: LocalTime) {
    ValidDate(t.date) && 0 <= t.hour < 24
  }

  /** The calendar day after `d`. */
  function NextDay(d: Date): (r: Date)
    requires ValidDate(d)
    ensures ValidDate(r)
  {
    if d.day < DaysInMonth(d.year, d.month) then Date(d.year, d.month, d.day + 1)
    else if d.month < 12 then Date(d.year, d.month + 1, 1)
    else Date(d.year + 1, 1, 1)
  }

  /**
   * `NextDay` counts through the year one day at a time: it adds one to the
   * day of the year, except on the year's last day (day 365 or 366), which is
   * followed by the first of January of the next year.
   */
  lemma NextDayCounts(d: Date)
    requires ValidDate(d)
    ensures DayOfYear(d) <= DaysBeforeMonth(d.year, 13)
    ensures DayOfYear(d) < DaysBeforeMonth(d.year, 13) ==>
              NextDay(d).year == d.year && DayOfYear(NextDay(d)) == DayOfYear(d) + 1
    ensures DayOfYear(d) == DaysBeforeMonth(d.year, 13) ==> NextDay(d) == Date(d.year + 1, 1, 1)
  {
    MonthsAfter(d.year, d.month + 1);
  }

  /** The first of every month after January lies within the year, and strictly inside it before the year's end. */
  lemma {:induction false} MonthsAfter(y: int, m: int)
    requires 1 < m <= 13
    ensures DaysBeforeMonth(y, m) <= DaysBeforeMonth(y, 13)
    ensures m < 13 ==> DaysBeforeMonth(y, m) < DaysBeforeMonth(y, 13)
    decreases 13 - m
  {
    if m < 13 {
      MonthsAfter(y, m + 1);
    }
  }

  /** `setDate(getDate() - 1)`: the calendar day before `d`, rolling back over month and year ends. */
  function PreviousDay(d: Date): (r: Date)
    requires ValidDate(d)
    ensures ValidDate(r) && NextDay(r) == d
  {
    if d.day > 1 then Date(d.year, d.month, d.day - 1)
    else if d.month > 1 then Date(d.year, d.month - 1, DaysInMonth(d.year, d.month - 1))
    else Date(d.year - 1, 12, 31)
  }

  lemma PreviousDayOfNextDay(d: Date)
    requires ValidDate(d)
    ensures PreviousDay(NextDay(d)) == d
  {
  }

  /** The day the roster is shown for: the previous day before the rollover hour, else today. */
  function OnCallDay(t: LocalTime): (d: Date)
    requires ValidTime(t)
    ensures ValidDate(d)
    ensures t.hour < RolloverHour ==> NextDay(d) == t.date
    ensures t.hour >= RolloverHour ==> d == t.date
  {
    if t.hour < RolloverHour then PreviousDay(t.date) else t.date
  }

  /** `String(n).padStart(2, '0')`. */
  function Pad2(n: nat): (s: string)
    ensures |s| >= 2 && forall k | 0 <= k < |s| :: IsDigit(s[k])
    ensures n < 100 ==> |s| == 2
  {
    var digits := NatToString(n);
    if |digits| < 2 then "0" + digits else digits
  }

  lemma {:induction false} Pad2RoundTrip(n: nat)
    requires n < 100
    ensures DigitsValue(Pad2(n)) == n
  {
    var digits := NatToString(n);
    DigitsRoundTrip(n);
    if |digits| < 2 {
      var s := Pad2(n);
      assert s[..1] == "0" && s[1] == digits[0];
      assert DigitsValue(s[..0]) == 0;
    }
  }

  /** `formatTodayAsDDMMYYYY`: zero-padded day and month, then the full year, separated by '/'. */
  function FormatDDMMYYYY(d: Date): (s: string)
    requires ValidDate(d)
    ensures |s| >= 7 && s[2] == '/' && s[5] == '/'
    ensures IsDigit(s[0]) && IsDigit(s[1]) && IsDigit(s[3]) && IsDigit(s[4])
  {
    Pad2(d.day) + "/" + Pad2(d.month) + "/" + IntToString(d.year)
  }

  /** Reads a `DD/MM/YYYY` key back into a date; `None` for text of any other shape. */
  function ParseDDMMYYYY(s: string): Option<Date> {
    if |s| >= 7 && s[2] == '/' && s[5] == '/'
       && IsDigit(s[0]) && IsDigit(s[1]) && IsDigit(s[3]) && IsDigit(s[4])
    then
      match ParseInt(s[6..])
      case Some(y) => Some(Date(y, DigitsValue(s[3..5]), DigitsValue(s[..2])))
      case None => None
    else None
  }

  lemma FormatParseRoundTrip(d: Date)
    requires ValidDate(d)
    ensures ParseDDMMYYYY(FormatDDMMYYYY(d)) == Some(d)
  {
    var s := FormatDDMMYYYY(d);
    assert s[..2] == Pad2(d.day);
    assert s[3..5] == Pad2(d.month);
    assert s[6..] == IntToString(d.year);
    Pad2RoundTrip(d.day);
    Pad2RoundTrip(d.month);
    IntRoundTrip(d.year);
  }

  /** Two days get the same key only when they are the same day, so a cached day never serves another. */
  lemma FormatInjective(d: Date, e: Date)
    requires ValidDate(d) && ValidDate(e)
    ensures FormatDDMMYYYY(d) == FormatDDMMYYYY(e) <==> d == e
  {
    if FormatDDMMYYYY(d) == FormatDDMMYYYY(e) {
      FormatParseRoundTrip(d);
      FormatParseRoundTrip(e);
    }
  }
}
