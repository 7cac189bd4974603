/** Calendar days and months: the part of JavaScript's `Date` the routes use.
    A stored timestamp is reduced to its calendar day (see README). */
module Dates {
  import opened Text
  import opened Options

  datatype Date = Date(year: int, month: int, day: int)

  datatype YearMonth = YearMonth(year: int, month: int)

  predicate IsLeapYear(y: int) {
    (y % 4 == 0 && y % 100 != 0) || y % 400 == 0
  }

  function DaysInMonth(year: int, month: int): (n: int)
    requires 1 <= month <= 12
    ensures 28 <= n <= 31
    ensures n == 31 <==> month in {1, 3, 5, 7, 8, 10, 12}
    ensures n < 30 <==> month == 2
  {
    if month == 2 then (if IsLeapYear(year) then 29 else 28)
    else if month == 4 || month == 6 || month == 9 || month == 11 then 30
    else 31
  }

  predicate IsCalendarDate(d: Date) {
    1 <= d.month <= 12 && 1 <= d.day <= DaysInMonth(d.year, d.month)
  }

  /** Chronological order on days. */
  predicate DateLe(a: Date, b: Date) {
    a.year < b.year || (a.year == b.year && (a.month < b.month || (a.month == b.month && a.day <= b.day)))
  }

  // ---------------------------------------------------------------------
  // Month arithmetic: `new Date(year, monthIndex, day)`
  // ---------------------------------------------------------------------

  /** The month that `new Date(year, monthIndex, 1)` falls in: an out-of-range
      zero-based month index is carried into the year. */
  function MonthOf(year: int, monthIndex: int): (ym: YearMonth)
    ensures 1 <= ym.month <= 12
    ensures ym.year * 12 + (ym.month - 1) == year * 12 + monthIndex
  {
    YearMonth(year + monthIndex / 12, monthIndex % 12 + 1)
  }

  /** A month is determined by its running month count. */
  lemma MonthOfUnique(year: int, monthIndex: int, ym: YearMonth)
    requires 1 <= ym.month <= 12
    requires ym.year * 12 + (ym.month - 1) == year * 12 + monthIndex
    ensures ym == MonthOf(year, monthIndex)
  {
    var m := MonthOf(year, monthIndex);
    assert (ym.year - m.year) * 12 == m.month - ym.month;
  }

  function FirstDay(ym: YearMonth): Date {
    Date(ym.year, ym.month, 1)
  }

  function LastDay(ym: YearMonth): Date
    requires 1 <= ym.month <= 12
  {
    Date(ym.year, ym.month, DaysInMonth(ym.year, ym.month))
  }

  /** The year `new Date(year, monthIndex, day)` uses: the years 0 to 99 stand for 1900 to 1999. */
  function FullYear(year: int): (y: int)
    ensures 0 <= year <= 99 ==> y == 1900 + year
    ensures !(0 <= year <= 99) ==> y == year
  {
    if 0 <= year <= 99 then 1900 + year else year
  }

  /** `new Date(year, monthIndex, 1)`. */
  function MonthStart(year: int, monthIndex: int): Date {
    FirstDay(MonthOf(FullYear(year), monthIndex))
  }

  /** `new Date(year, monthIndex, 0)`: day 0 is the day before the first of
      the month, that is the last day of the month before it. */
  function DayZero(year: int, monthIndex: int): (d: Date)
    ensures IsCalendarDate(d)
  {
    var first := MonthOf(FullYear(year), monthIndex);
    var before := if first.month == 1 then YearMonth(first.year - 1, 12) else YearMonth(first.year, first.month - 1);
    LastDay(before)
  }

  datatype Range = Range(start: Date, end: Date)

  predicate InRange(d: Date, r: Range) {
    DateLe(r.start, d) && DateLe(d, r.end)
  }

  /** `[new Date(year, month - 1, 1), new Date(year, month, 0)]`: the range the
      analysis routes query for the month written `year-month`. */
  function MonthRange(year: int, month: int): Range {
    Range(MonthStart(year, month - 1), DayZero(year, month))
  }

  /** The month-range bounds are the first and the last day of one month. */
  lemma MonthRangeBounds(year: int, month: int)
    ensures MonthRange(year, month).start == FirstDay(MonthOf(FullYear(year), month - 1))
    ensures MonthRange(year, month).end == LastDay(MonthOf(FullYear(year), month - 1))
  {
    var y := FullYear(year);
    var first := MonthOf(y, month);
    var before := if first.month == 1 then YearMonth(first.year - 1, 12) else YearMonth(first.year, first.month - 1);
    assert before.year * 12 + (before.month - 1) == y * 12 + (month - 1);
    MonthOfUnique(y, month - 1, before);
  }

  /** A calendar day lies in the queried range exactly when it is in that month. */
  lemma InMonthRange(year: int, month: int, d: Date)
    requires IsCalendarDate(d)
    ensures InRange(d, MonthRange(year, month)) <==> YearMonth(d.year, d.month) == MonthOf(FullYear(year), month - 1)
  {
    MonthRangeBounds(year, month);
  }

  /** The previous-month query (`month - 2` and `month - 1` in place of
      `month - 1` and `month`) is the month before, January wrapping to
      December of the year before. */
  lemma PreviousMonthWraps(year: int, month: int)
    requires 1 <= month <= 12 && !(0 <= year <= 99)
    ensures var ym := if month == 1 then YearMonth(year - 1, 12) else YearMonth(year, month - 1);
      MonthRange(year, month - 1) == Range(FirstDay(ym), LastDay(ym))
  {
    var ym := if month == 1 then YearMonth(year - 1, 12) else YearMonth(year, month - 1);
    MonthRangeBounds(year, month - 1);
    MonthOfUnique(year, month - 2, ym);
  }

  /** The previous-year query is the same month one year earlier. */
  lemma PreviousYearSameMonth(year: int, month: int)
    requires 1 <= month <= 12 && !(0 <= year - 1 <= 99)
    ensures MonthRange(year - 1, month) == Range(FirstDay(YearMonth(year - 1, month)), LastDay(YearMonth(year - 1, month)))
  {
    MonthRangeBounds(year - 1, month);
    MonthOfUnique(year - 1, month - 1, YearMonth(year - 1, month));
  }

  // ---------------------------------------------------------------------
  // Valid dates: a `Date` whose time value lies more than 8.64e15 ms, that
  // is 100 000 000 days, from 1970-01-01 is an Invalid Date (TimeClip,
  // section 21.4.1.31 of ECMA-262)
  // ---------------------------------------------------------------------

  const MAX_EPOCH_DAYS: int := 100000000

  /** `DayFromYear` of ECMA-262: the days from 1970-01-01 to the first of January of `y`. */
  function DayFromYear(y: int): int {
    365 * (y - 1970) + (y - 1969) / 4 - (y - 1901) / 100 + (y - 1601) / 400
  }

  /** The days of year `y` before the first of `month`. */
  function DaysBeforeMonth(y: int, month: int): (n: int)
    requires 1 <= month <= 12
    ensures 28 * (month - 1) <= n <= 31 * (month - 1)
  {
    if month == 1 then 0 else DaysBeforeMonth(y, month - 1) + DaysInMonth(y, month - 1)
  }

  /** The number of day `d`, 1970-01-01 being day 0 (`Day(t)` of ECMA-262). */
  function EpochDay(d: Date): int
    requires 1 <= d.month <= 12
  {
    DayFromYear(d.year) + DaysBeforeMonth(d.year, d.month) + d.day - 1
  }

  /** `d` is a day a JavaScript `Date` can hold. */
  predicate Representable(d: Date) {
    1 <= d.month <= 12 && -MAX_EPOCH_DAYS <= EpochDay(d) <= MAX_EPOCH_DAYS
  }

  predicate RangeRepresentable(r: Range) {
    Representable(r.start) && Representable(r.end)
  }

  /** The first and the last day a `Date` can hold. */
  const FIRST_VALID_DAY: Date := Date(-271821, 4, 20)
  const LAST_VALID_DAY: Date := Date(275760, 9, 13)

  /** A year has 366 days when it is a leap year and 365 otherwise. */
  lemma YearLength(y: int)
    ensures DayFromYear(y + 1) - DayFromYear(y) == if IsLeapYear(y) then 366 else 365
  {
    YearStep(y);
    Divisibility(y);
  }

  /** A year adds 365 days, plus its leap day every four years, less the
      centuries, plus every fourth century. */
  lemma YearStep(y: int)
    ensures DayFromYear(y + 1) - DayFromYear(y)
      == 365 + (if y % 4 == 0 then 1 else 0) - (if y % 100 == 0 then 1 else 0) + (if y % 400 == 0 then 1 else 0)
  {
    QuadYears(y);
    Centuries(y);
    QuadCenturies(y);
  }

  lemma Divisibility(y: int)
    ensures y % 400 == 0 ==> y % 100 == 0
    ensures y % 100 == 0 ==> y % 4 == 0
  {
    if y % 400 == 0 {
      HundredsOfQuads(y / 400);
    }
    if y % 100 == 0 {
      QuadsOfHundreds(y / 100);
    }
  }

  lemma HundredsOfQuads(q: int)
    ensures (400 * q) % 100 == 0
  {
    assert 400 * q == 100 * (4 * q);
  }

  lemma QuadsOfHundreds(q: int)
    ensures (100 * q) % 4 == 0
  {
    assert 100 * q == 4 * (25 * q);
  }


  /** Going from `y` to `y + 1`, the count of leap days every four years
      grows by one exactly when `y` is a multiple of 4. */
  lemma QuadYears(y: int)
    ensures (y + 1 - 1969) / 4 - (y - 1969) / 4 == if y % 4 == 0 then 1 else 0
  {
    var q, r := (y - 1969) / 4, (y - 1969) % 4;
    assert y == 4 * (q + 492) + r + 1;
    if r == 3 {
      assert (y + 1 - 1969) / 4 == q + 1 && y % 4 == 0;
    } else {
      assert (y + 1 - 1969) / 4 == q && y % 4 == r + 1;
    }
  }

  /** The same for the centuries, which drop their leap day. */
  lemma Centuries(y: int)
    ensures (y + 1 - 1901) / 100 - (y - 1901) / 100 == if y % 100 == 0 then 1 else 0
  {
    var q, r := (y - 1901) / 100, (y - 1901) % 100;
    assert y == 100 * (q + 19) + r + 1;
    if r == 99 {
      assert (y + 1 - 1901) / 100 == q + 1 && y % 100 == 0;
    } else {
      assert (y + 1 - 1901) / 100 == q && y % 100 == r + 1;
    }
  }

  /** The same for every fourth century, which keeps its leap day. */
  lemma QuadCenturies(y: int)
    ensures (y + 1 - 1601) / 400 - (y - 1601) / 400 == if y % 400 == 0 then 1 else 0
  {
    var q, r := (y - 1601) / 400, (y - 1601) % 400;
    assert y == 400 * (q + 4) + r + 1;
    if r == 399 {
      assert (y + 1 - 1601) / 400 == q + 1 && y % 400 == 0;
    } else {
      assert (y + 1 - 1601) / 400 == q && y % 400 == r + 1;
    }
  }

  /** Later years start later. */
  lemma YearsAscend(a: int, b: int)
    requires a < b
    ensures DayFromYear(a) < DayFromYear(b)
  {
  }

  /** The cumulative month lengths of a common year, a leap day added after February. */
  lemma {:induction false} DaysBeforeMonthTable(y: int, month: int)
    requires 1 <= month <= 12
    ensures DaysBeforeMonth(y, month) == [0, 31, 59, 90, 120, 151, 181, 212, 243, 273, 304, 334][month - 1]
      + (if month > 2 && IsLeapYear(y) then 1 else 0)
  {
    if month > 1 {
      DaysBeforeMonthTable(y, month - 1);
    }
  }

  /** A month ends no later than the next one begins. */
  lemma {:induction false} MonthsAscend(y: int, m: int, later: int)
    requires 1 <= m < later <= 12
    ensures DaysBeforeMonth(y, m) + DaysInMonth(y, m) <= DaysBeforeMonth(y, later)
  {
    if later > m + 1 {
      MonthsAscend(y, m, later - 1);
    }
  }

  /** Every day of year `y` lies before the first of January after it. */
  lemma DayWithinYear(d: Date)
    requires IsCalendarDate(d)
    ensures DayFromYear(d.year) <= EpochDay(d) < DayFromYear(d.year + 1)
  {
    YearLength(d.year);
    DaysBeforeMonthTable(d.year, 12);
    if d.month < 12 {
      MonthsAscend(d.year, d.month, 12);
    }
  }

  /** Of two different calendar days the earlier has the smaller number. */
  lemma EpochDayAscends(a: Date, b: Date)
    requires IsCalendarDate(a) && IsCalendarDate(b)
    requires DateLe(a, b) && a != b
    ensures EpochDay(a) < EpochDay(b)
  {
    if a.year < b.year {
      DayWithinYear(a);
      DayWithinYear(b);
      if a.year + 1 < b.year {
        YearsAscend(a.year + 1, b.year);
      }
    } else if a.month < b.month {
      MonthsAscend(a.year, a.month, b.month);
    }
  }

  /** The day number is faithful to the calendar order. */
  lemma EpochDayOrder(a: Date, b: Date)
    requires IsCalendarDate(a) && IsCalendarDate(b)
    ensures DateLe(a, b) <==> EpochDay(a) <= EpochDay(b)
  {
    if DateLe(a, b) && a != b {
      EpochDayAscends(a, b);
    } else if !DateLe(a, b) {
      EpochDayAscends(b, a);
    }
  }

  /** The valid days are exactly those from -271821-04-20 to 275760-09-13. */
  lemma RepresentableDays(d: Date)
    requires IsCalendarDate(d)
    ensures Representable(d) <==> DateLe(FIRST_VALID_DAY, d) && DateLe(d, LAST_VALID_DAY)
  {
    DaysBeforeMonthTable(FIRST_VALID_DAY.year, FIRST_VALID_DAY.month);
    DaysBeforeMonthTable(LAST_VALID_DAY.year, LAST_VALID_DAY.month);
    assert EpochDay(FIRST_VALID_DAY) == -MAX_EPOCH_DAYS;
    assert EpochDay(LAST_VALID_DAY) == MAX_EPOCH_DAYS;
    EpochDayOrder(FIRST_VALID_DAY, d);
    EpochDayOrder(d, LAST_VALID_DAY);
  }

  /** Every day of the years -271820 to 275759 is valid; no day after the year
      275760 or before the year -271821 is. */
  lemma RepresentableYears(d: Date)
    requires IsCalendarDate(d)
    ensures -271820 <= d.year <= 275759 ==> Representable(d)
    ensures d.year < -271821 || 275760 < d.year ==> !Representable(d)
  {
    RepresentableDays(d);
  }

  /** `d` lies between the first and the last day a `Date` can hold: for a
      calendar day this is `Representable` (see `RepresentableDays`), stated
      as comparisons of days. */
  predicate WithinDateLimits(d: Date) {
    DateLe(FIRST_VALID_DAY, d) && DateLe(d, LAST_VALID_DAY)
  }

  predicate RangeWithinLimits(r: Range) {
    WithinDateLimits(r.start) && WithinDateLimits(r.end)
  }

  /** A range of calendar days is within the limits exactly when `new Date`
      can hold both its bounds. */
  lemma RangeLimits(r: Range)
    requires IsCalendarDate(r.start) && IsCalendarDate(r.end)
    ensures RangeWithinLimits(r) <==> RangeRepresentable(r)
  {
    RepresentableDays(r.start);
    RepresentableDays(r.end);
  }

  /** The bounds of a queried month are calendar days, so the limits decide
      whether `new Date` can hold them. */
  lemma MonthRangeLimits(year: int, month: int)
    ensures RangeWithinLimits(MonthRange(year, month)) <==> RangeRepresentable(MonthRange(year, month))
  {
    RangeLimits(MonthRange(year, month));
  }

  /** The range queried for a month of the years -271819 to 275759 (or the
      month index 0, December of the year before) holds valid dates. */
  lemma MonthRangeWithinLimits(year: int, month: int)
    requires -271819 <= year <= 275759 && 0 <= month <= 12
    ensures RangeWithinLimits(MonthRange(year, month))
  {
    MonthRangeBounds(year, month);
  }

  /** No month of a year after 275760 can be queried. */
  lemma MonthRangeBeyond(year: int, month: int)
    requires 275760 < year && 1 <= month <= 12
    ensures !RangeWithinLimits(MonthRange(year, month))
  {
    MonthRangeBounds(year, month);
  }


  // ---------------------------------------------------------------------
  // Text forms: `toISOString()` and `YYYY-MM-DD`
  // ---------------------------------------------------------------------

  function Pad2(n: nat): (s: string)
    ensures |s| >= 2 && AllDigits(s) && 'T' !in s && '-' !in s
  {
    PadStart(NatToString(n), 2, '0')
  }

  /** The year as `toISOString` writes it: four digits for 0..9999, otherwise
      a sign and six digits. */
  function IsoYear(y: int): (s: string)
    ensures 'T' !in s
  {
    if 0 <= y <= 9999 then PadStart(NatToString(y), 4, '0')
    else if y < 0 then "-" + PadStart(NatToString(-y), 6, '0')
    else "+" + PadStart(NatToString(y), 6, '0')
  }

  /** `toISOString().split('T')[0]`: the day part of a timestamp. */
  function DateString(d: Date): (s: string)
    requires IsCalendarDate(d)
    ensures 'T' !in s
  {
    IsoYear(d.year) + "-" + Pad2(d.month) + "-" + Pad2(d.day)
  }

  /** `toISOString()` of a day's stored timestamp (midnight UTC). */
  function IsoTimestamp(d: Date): string
    requires IsCalendarDate(d)
  {
    IsoString(Midnight(d))
  }

  /** Splitting an ISO timestamp at 'T' gives back its day. */
  lemma {:induction false} IsoDayPart(d: Date)
    requires IsCalendarDate(d)
    ensures Before(IsoTimestamp(d), 'T') == DateString(d)
  {
    var day := DateString(d);
    var ts := IsoTimestamp(d);
    var b := Before(ts, 'T');
    assert ts[|day|] == 'T';
    assert ts[..|day|] == day;
  }

  /** The shape check `/^\d{4}-\d{2}-\d{2}$/`. */
  predicate HasDateShape(s: string) {
    |s| == 10 && s[4] == '-' && s[7] == '-'
    && AllDigits(s[..4]) && AllDigits(s[5..7]) && AllDigits(s[8..])
  }

  /** `new Date(s)` for a `YYYY-MM-DD` string, as the V8 engine that runs the
      route handlers reads it: a month outside 1..12 or a day outside 1..31 is
      an invalid date, and a day past the end of its month rolls into the next
      month (`2024-02-30` is the first of March). */
  function ParseDay(s: string): (r: Option<Date>)
    ensures r.Some? ==> HasDateShape(s) && IsCalendarDate(r.value) && 0 <= r.value.year <= 9999
    ensures r.Some? <==> HasDateShape(s) && 1 <= DigitsValue(s[5..7]) <= 12 && 1 <= DigitsValue(s[8..]) <= 31
  {
    if !HasDateShape(s) then None
    else
      var y, m, d := DigitsValue(s[..4]), DigitsValue(s[5..7]), DigitsValue(s[8..]);
      assert y <= 9999 by { FourDigitsBound(s[..4]); }
      if 1 <= m <= 12 && 1 <= d <= 31 then Some(Rollover(y, m, d)) else None
  }

  /** The day `d` of month `m`, carried into the next month when the month is shorter. */
  function Rollover(y: int, m: int, d: int): (r: Date)
    requires 1 <= m <= 12 && 1 <= d <= 31
    ensures IsCalendarDate(r)
    ensures IsCalendarDate(Date(y, m, d)) ==> r == Date(y, m, d)
    ensures !IsCalendarDate(Date(y, m, d)) ==> r == FirstDay(MonthOf(y, m)).(day := d - DaysInMonth(y, m))
  {
    if d <= DaysInMonth(y, m) then Date(y, m, d)
    else
      var next := MonthOf(y, m);
      Date(next.year, next.month, d - DaysInMonth(y, m))
  }

  lemma FourDigitsBound(s: string)
    requires |s| == 4 && AllDigits(s)
    ensures DigitsValue(s) <= 9999
  {
    DigitsBound(s);
  }

  function Pow10(k: nat): nat {
    if k == 0 then 1 else 10 * Pow10(k - 1)
  }

  lemma {:induction false} DigitsBound(s: string)
    requires AllDigits(s)
    ensures DigitsValue(s) < Pow10(|s|)
  {
    if s != [] {
      DigitsBound(s[..|s| - 1]);
    }
  }

  /** Leading zeros do not change the value of a digit string. */
  lemma PadValue(s: string, width: nat)
    requires AllDigits(s)
    ensures AllDigits(PadStart(s, width, '0'))
    ensures DigitsValue(PadStart(s, width, '0')) == DigitsValue(s)
  {
    if |s| < width {
      ZerosValue(width - |s|, s);
    } else {
      assert PadStart(s, width, '0') == s;
    }
  }

  lemma {:induction false} ZerosValue(n: nat, s: string)
    requires AllDigits(s)
    ensures AllDigits(Repeat('0', n) + s) && DigitsValue(Repeat('0', n) + s) == DigitsValue(s)
    decreases n
  {
    if n > 0 {
      ZerosValue(n - 1, s);
      assert Repeat('0', n) + s == ['0'] + (Repeat('0', n - 1) + s);
      LeadingZero(Repeat('0', n - 1) + s);
    } else {
      assert Repeat('0', n) + s == s;
    }
  }

  lemma {:induction false} LeadingZero(s: string)
    requires AllDigits(s)
    ensures AllDigits(['0'] + s) && DigitsValue(['0'] + s) == DigitsValue(s)
    decreases |s|
  {
    if s != [] {
      var t := ['0'] + s;
      assert t[..|t| - 1] == ['0'] + s[..|s| - 1];
      LeadingZero(s[..|s| - 1]);
    }
  }

  lemma PaddedNumber(n: nat, width: nat)
    requires |NatToString(n)| <= width
    ensures |PadStart(NatToString(n), width, '0')| == width
    ensures AllDigits(PadStart(NatToString(n), width, '0'))
    ensures DigitsValue(PadStart(NatToString(n), width, '0')) == n
  {
    NatToStringValue(n);
    PadValue(NatToString(n), width);
  }

  /** `ParseDay` reads back what `DateString` writes, for the four-digit years. */
  lemma DateStringRoundTrip(d: Date)
    requires IsCalendarDate(d) && 0 <= d.year <= 9999
    ensures ParseDay(DateString(d)) == Some(d)
  {
    var y, m, dd := IsoYear(d.year), Pad2(d.month), Pad2(d.day);
    NumberLength(d.year, 4);
    NumberLength(d.month, 2);
    NumberLength(d.day, 2);
    PaddedNumber(d.year, 4);
    PaddedNumber(d.month, 2);
    PaddedNumber(d.day, 2);
    assert DateString(d) == y + "-" + m + "-" + dd;
    SliceParts(y, m, dd);
    ReadDay(y + "-" + m + "-" + dd, d);
  }

  lemma ReadDay(s: string, d: Date)
    requires HasDateShape(s) && IsCalendarDate(d)
    requires DigitsValue(s[..4]) == d.year && DigitsValue(s[5..7]) == d.month && DigitsValue(s[8..]) == d.day
    ensures ParseDay(s) == Some(d)
  {
    assert Rollover(d.year, d.month, d.day) == d;
  }

  lemma SliceParts(y: string, m: string, dd: string)
    requires |y| == 4 && |m| == 2 && |dd| == 2
    ensures var s := y + "-" + m + "-" + dd;
      |s| == 10 && s[..4] == y && s[4] == '-' && s[5..7] == m && s[7] == '-' && s[8..] == dd
    ensures AllDigits(y) && AllDigits(m) && AllDigits(dd) ==> HasDateShape(y + "-" + m + "-" + dd)
  {
  }

  /** A number below `10^k` has at most `k` digits (for k = 2 and k = 4). */
  lemma {:induction false} NumberLength(n: nat, k: nat)
    requires (k == 2 && n < 100) || (k == 4 && n < 10000)
    ensures |NatToString(n)| <= k
  {
    if n >= 10 {
      assert |NatToString(n)| == |NatToString(n / 10)| + 1;
      if k == 2 {
        assert n / 10 < 10;
      } else {
        DigitCount3(n / 10);
      }
    }
  }

  lemma {:induction false} DigitCount3(n: nat)
    requires n < 1000
    ensures |NatToString(n)| <= 3
  {
    if n >= 10 {
      assert n / 10 < 100;
      NumberLength(n / 10, 2);
    }
  }

  // ---------------------------------------------------------------------
  // Moments: `new Date(text)` for an ISO timestamp, and `toISOString()`
  // ---------------------------------------------------------------------

  const MILLIS_PER_DAY: int := 86400000

  /** A moment: a day and the milliseconds elapsed since its UTC midnight. */
  datatype Instant = Instant(day: Date, millis: int)

  predicate IsInstant(i: Instant) {
    IsCalendarDate(i.day) && 0 <= i.millis < MILLIS_PER_DAY
  }

  /** The moment a stored day stands for: its UTC midnight. */
  function Midnight(d: Date): Instant {
    Instant(d, 0)
  }

  /** Chronological order on moments: an earlier day, or the same day no later in it. */
  predicate InstantLe(a: Instant, b: Instant) {
    (DateLe(a.day, b.day) && a.day != b.day) || (a.day == b.day && a.millis <= b.millis)
  }

  /** The calendar day after `d`. */
  function NextDay(d: Date): (r: Date)
    requires IsCalendarDate(d)
    ensures IsCalendarDate(r) && DateLe(d, r) && r != d
  {
    if d.day < DaysInMonth(d.year, d.month) then Date(d.year, d.month, d.day + 1)
    else FirstDay(MonthOf(d.year, d.month))
  }

  /** The time part of a UTC timestamp: `THH:mm:ss.sssZ`. */
  predicate HasTimeShape(t: string) {
    |t| == 14 && t[0] == 'T' && t[3] == ':' && t[6] == ':' && t[9] == '.' && t[13] == 'Z'
    && AllDigits(t[1..3]) && AllDigits(t[4..6]) && AllDigits(t[7..9]) && AllDigits(t[10..13])
  }

  /** `new Date(s)` for the two ISO forms: a day `YYYY-MM-DD`, read as its UTC
      midnight, and a UTC timestamp `YYYY-MM-DDTHH:mm:ss.sssZ`, whose day part
      is read as `ParseDay` reads a day. Hours run to 23, minutes and seconds to
      59; `24:00:00.000` is the next midnight. Any other text is an invalid date. */
  function ParseInstant(s: string): (r: Option<Instant>)
    ensures r.Some? ==> IsInstant(r.value)
    ensures |s| == 10 ==> r == (if ParseDay(s).Some? then Some(Midnight(ParseDay(s).value)) else None)
    ensures r.Some? ==> (|s| == 10 || (|s| == 24 && HasTimeShape(s[10..]))) && ParseDay(s[..10]).Some?
  {
    if |s| == 10 then
      var d := ParseDay(s);
      assert s[..10] == s;
      if d.Some? then Some(Midnight(d.value)) else None
    else if |s| == 24 && HasTimeShape(s[10..]) then
      var d := ParseDay(s[..10]);
      var t := s[10..];
      var h, m, sec, ms := DigitsValue(t[1..3]), DigitsValue(t[4..6]), DigitsValue(t[7..9]), DigitsValue(t[10..13]);
      if d.None? then None
      else if h == 24 && m == 0 && sec == 0 && ms == 0 then Some(Midnight(NextDay(d.value)))
      else if h < 24 && m < 60 && sec < 60 then
        assert ms < 1000 by { DigitsBound(t[10..13]); }
        Some(Instant(d.value, TimeOfDay(h, m, sec, ms)))
      else None
    else None
  }

  /** The milliseconds since midnight of a clock time. */
  function TimeOfDay(h: nat, m: nat, sec: nat, ms: nat): (r: int)
    requires h < 24 && m < 60 && sec < 60 && ms < 1000
    ensures 0 <= r < MILLIS_PER_DAY
  {
    ((h * 60 + m) * 60 + sec) * 1000 + ms
  }

  function Pad3(n: nat): (s: string)
    ensures |s| >= 3 && AllDigits(s)
  {
    PadStart(NatToString(n), 3, '0')
  }

  /** The clock time of a moment, as hours, minutes, seconds and milliseconds. */
  datatype Clock = Clock(h: nat, m: nat, sec: nat, ms: nat)

  function ClockOf(millis: int): (c: Clock)
    requires 0 <= millis < MILLIS_PER_DAY
    ensures c.h < 24 && c.m < 60 && c.sec < 60 && c.ms < 1000
    ensures TimeOfDay(c.h, c.m, c.sec, c.ms) == millis
  {
    var seconds := millis / 1000;
    var minutes := seconds / 60;
    Clock(minutes / 60, minutes % 60, seconds % 60, millis % 1000)
  }

  /** The time part `toISOString()` writes. */
  function TimeText(c: Clock): string {
    "T" + Pad2(c.h) + ":" + Pad2(c.m) + ":" + Pad2(c.sec) + "." + Pad3(c.ms) + "Z"
  }

  /** `toISOString()`: the day, then the UTC clock time to the millisecond. */
  function IsoString(i: Instant): (s: string)
    requires IsInstant(i)
  {
    DateString(i.day) + TimeText(ClockOf(i.millis))
  }

  /** `new Date(text)` reads back every moment `toISOString` writes with a four-digit year. */
  lemma IsoStringRoundTrip(i: Instant)
    requires IsInstant(i) && 0 <= i.day.year <= 9999
    ensures ParseInstant(IsoString(i)) == Some(i)
  {
    var c := ClockOf(i.millis);
    var day, t := DateString(i.day), TimeText(c);
    ReadTime(c);
    DayTextLength(i.day);
    var s := day + t;
    assert s[..10] == day && s[10..] == t;
    DateStringRoundTrip(i.day);
    ReadStamp(s, i.day, c);
  }

  /** A 24-character timestamp whose parts read as a day and a clock time in
      range is read as that moment. */
  lemma ReadStamp(s: string, d: Date, c: Clock)
    requires c.h < 24 && c.m < 60 && c.sec < 60 && c.ms < 1000
    requires |s| == 24 && ParseDay(s[..10]) == Some(d) && HasTimeShape(s[10..])
    requires DigitsValue(s[10..][1..3]) == c.h && DigitsValue(s[10..][4..6]) == c.m
    requires DigitsValue(s[10..][7..9]) == c.sec && DigitsValue(s[10..][10..13]) == c.ms
    ensures ParseInstant(s) == Some(Instant(d, TimeOfDay(c.h, c.m, c.sec, c.ms)))
  {
  }

  /** The time part reads back as its clock time. */
  lemma ReadTime(c: Clock)
    requires c.h < 24 && c.m < 60 && c.sec < 60 && c.ms < 1000
    ensures var t := TimeText(c);
      && HasTimeShape(t)
      && DigitsValue(t[1..3]) == c.h && DigitsValue(t[4..6]) == c.m
      && DigitsValue(t[7..9]) == c.sec && DigitsValue(t[10..13]) == c.ms
  {
    NumberLength(c.h, 2);
    NumberLength(c.m, 2);
    NumberLength(c.sec, 2);
    NumberLength3(c.ms);
    PaddedNumber(c.h, 2);
    PaddedNumber(c.m, 2);
    PaddedNumber(c.sec, 2);
    PaddedNumber(c.ms, 3);
    TimeSlices(Pad2(c.h), Pad2(c.m), Pad2(c.sec), Pad3(c.ms));
  }

  lemma TimeSlices(hs: string, ns: string, ss: string, fs: string)
    requires |hs| == 2 && |ns| == 2 && |ss| == 2 && |fs| == 3
    ensures var t := "T" + hs + ":" + ns + ":" + ss + "." + fs + "Z";
      && |t| == 14 && t[0] == 'T' && t[3] == ':' && t[6] == ':' && t[9] == '.' && t[13] == 'Z'
      && t[1..3] == hs && t[4..6] == ns && t[7..9] == ss && t[10..13] == fs
  {
    var t := "T" + hs + ":" + ns + ":" + ss + "." + fs + "Z";
    assert t == ['T', hs[0], hs[1], ':', ns[0], ns[1], ':', ss[0], ss[1], '.', fs[0], fs[1], fs[2], 'Z'];
  }

  lemma DayTextLength(d: Date)
    requires IsCalendarDate(d) && 0 <= d.year <= 9999
    ensures |DateString(d)| == 10
  {
    NumberLength(d.year, 4);
    NumberLength(d.month, 2);
    NumberLength(d.day, 2);
    PaddedNumber(d.year, 4);
    PaddedNumber(d.month, 2);
    PaddedNumber(d.day, 2);
  }

  lemma NumberLength3(n: nat)
    requires n < 1000
    ensures |NatToString(n)| <= 3
  {
    DigitCount3(n);
  }
}
