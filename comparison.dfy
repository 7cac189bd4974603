/** The `YYYY-MM` query parameter shared by the analysis routes, and the
    month comparison (app/src/app/api/analysis/comparison/route.ts): income,
    expense and balance of the selected month, of the month before and of the
    same month a year earlier. */
module Comparison {
  import opened Options
  import opened Text
  import opened Dates
  import opened Ledger

  /** How a route reads `?date=`: missing or empty (400), a part that
      `Number` turns into NaN, which makes the store reject the query (500),
      or the year and the one-based month. A month read here can still name
      dates outside the range of `Date` (see `WithinDateLimits`); each route
      answers those as it answers NaN. */
  datatype MonthParam = NoDate | NotADate | Month(year: int, month: int)

  /** `const [year, month] = dateParam.split('-').map(Number)`; a missing
      month part is `undefined`, hence NaN. */
  function ReadMonth(param: Option<string>): (r: MonthParam)
    ensures r.NoDate? <==> param.None? || param.value == ""
    ensures r.Month? ==>
      && |Split(param.value, '-')| >= 2
      && ParseNumber(Split(param.value, '-')[0]) == Some(r.year)
      && ParseNumber(Split(param.value, '-')[1]) == Some(r.month)
  {
    if param.None? || param.value == "" then NoDate
    else
      var parts := Split(param.value, '-');
      var year := ParseNumber(parts[0]);
      var month := if |parts| >= 2 then ParseNumber(parts[1]) else None;
      if year.None? || month.None? then NotADate else Month(year.value, month.value)
  }

  /** Every `year-month` text written with digits reads back as that year and month. */
  lemma ReadMonthDigits(y: string, m: string)
    requires y != [] && m != [] && AllDigits(y) && AllDigits(m)
    ensures ReadMonth(Some(y + "-" + m)) == Month(DigitsValue(y), DigitsValue(m))
  {
    DigitsAvoid(y, '-');
    DigitsAvoid(m, '-');
    SplitJoin([y, m], '-');
    assert Join([y, m], '-') == y + "-" + m;
    DigitsOnly(y);
    DigitsOnly(m);
  }

  /** A digit string is its own trim and reads as its digit value. */
  lemma DigitsOnly(s: string)
    requires s != [] && AllDigits(s)
    ensures ParseNumber(s) == Some(DigitsValue(s))
  {
    NotWhitespace(s[0]);
    NotWhitespace(s[|s| - 1]);
    TrimUnchanged(s);
  }

  /** `getMonthlyData(startDate, endDate)`, one record at a time: a record
      whose day is in the range adds its amount to its type's total. */
  function MonthlyData(ts: seq<Transaction>, r: Range): (f: Figures)
    ensures f.balance == f.income - f.expense
  {
    if ts == [] then Figures(0, 0, 0)
    else
      var f := MonthlyData(ts[..|ts| - 1], r);
      var t := ts[|ts| - 1];
      var delta := if InRange(t.date, r) then t.amount else 0;
      var income := f.income + (if t.kind == INCOME then delta else 0);
      var expense := f.expense + (if t.kind == EXPENSE then delta else 0);
      Figures(income, expense, income - expense)
  }

  lemma {:induction false} InDateRangeAppend(a: seq<Transaction>, b: seq<Transaction>, r: Range)
    ensures InDateRange(a + b, r) == InDateRange(a, r) + InDateRange(b, r)
    decreases |a|
  {
    if a != [] {
      assert (a + b)[0] == a[0] && (a + b)[1..] == a[1..] + b;
      InDateRangeAppend(a[1..], b, r);
    } else {
      assert a + b == b;
    }
  }

  /** The figures are those of the route's own formulation: the records in
      the range, filtered by type and summed. */
  lemma {:induction false} MonthlyDataFilters(ts: seq<Transaction>, r: Range)
    ensures MonthlyData(ts, r) == FiguresOf(InDateRange(ts, r))
    decreases |ts|
  {
    if ts != [] {
      var prefix, t := ts[..|ts| - 1], ts[|ts| - 1];
      var f := MonthlyData(prefix, r);
      MonthlyDataFilters(prefix, r);
      var picked := InDateRange(prefix, r);
      assert ts == prefix + [t];
      InDateRangeSnoc(prefix, t, r);
      if InRange(t.date, r) {
        assert InDateRange(ts, r) == picked + [t];
        FiguresSnoc(picked, t);
      } else {
        assert InDateRange(ts, r) == picked;
        assert MonthlyData(ts, r) == f;
      }
    }
  }

  lemma InDateRangeSnoc(ts: seq<Transaction>, t: Transaction, r: Range)
    ensures InDateRange(ts + [t], r) == InDateRange(ts, r) + (if InRange(t.date, r) then [t] else [])
  {
    InDateRangeAppend(ts, [t], r);
    assert InDateRange([t], r) == (if InRange(t.date, r) then [t] else []);
  }

  lemma FiguresSnoc(ts: seq<Transaction>, t: Transaction)
    ensures var f := FiguresOf(ts);
      var income := f.income + (if t.kind == INCOME then t.amount else 0);
      var expense := f.expense + (if t.kind == EXPENSE then t.amount else 0);
      FiguresOf(ts + [t]) == Figures(income, expense, income - expense)
  {
    TypeTotalAppend(ts, t, INCOME);
    TypeTotalAppend(ts, t, EXPENSE);
  }

  /** Where every record is income or expense, a period's income and expense
      add up to the sum of the amounts in the period. */
  lemma MonthlyDataPartition(ts: seq<Transaction>, r: Range)
    requires forall t :: t in ts ==> IsTransactionType(t.kind)
    ensures MonthlyData(ts, r).income + MonthlyData(ts, r).expense == Sum(InDateRange(ts, r))
  {
    MonthlyDataFilters(ts, r);
    InDateRangeMembers(ts, r);
    TypeTotalsPartition(InDateRange(ts, r));
  }

  datatype ComparisonData = ComparisonData(current: Figures, previousMonth: Figures, previousYear: Figures)

  datatype Reply<T> = MissingDate | InvalidDate | Data(value: T)

  /** The three ranges the comparison queries for `year-month` hold valid
      dates (`MonthRangeLimits`); otherwise `new Date` gives an Invalid Date, the store rejects
      the query and the route answers 500. */
  predicate Comparable(year: int, month: int) {
    && RangeWithinLimits(MonthRange(year, month))
    && RangeWithinLimits(MonthRange(year, month - 1))
    && RangeWithinLimits(MonthRange(year - 1, month))
  }

  /** `GET ?date=YYYY-MM`. */
  function Compare(ts: seq<Transaction>, param: Option<string>): (r: Reply<ComparisonData>)
    ensures r.MissingDate? <==> param.None? || param.value == ""
    ensures r.InvalidDate? <==>
      (ReadMonth(param).NotADate? || (ReadMonth(param).Month? && !Comparable(ReadMonth(param).year, ReadMonth(param).month)))
  {
    match ReadMonth(param)
    case NoDate => MissingDate
    case NotADate => InvalidDate
    case Month(year, month) =>
      if !Comparable(year, month) then InvalidDate
      else Data(ComparisonData(
        MonthlyData(ts, MonthRange(year, month)),
        MonthlyData(ts, MonthRange(year, month - 1)),
        MonthlyData(ts, MonthRange(year - 1, month))))
  }

  /** For a month 1 to 12 of a year from 101 on, the three periods are the
      selected calendar month, the calendar month before it (December of the
      year before, for January) and the same calendar month a year earlier. */
  lemma ComparedMonths(ts: seq<Transaction>, year: int, month: int)
    requires 1 <= month <= 12 && year >= 101
    ensures var prev := if month == 1 then YearMonth(year - 1, 12) else YearMonth(year, month - 1);
      var ago := YearMonth(year - 1, month);
      var here := YearMonth(year, month);
      && MonthlyData(ts, MonthRange(year, month)) == MonthlyData(ts, Range(FirstDay(here), LastDay(here)))
      && MonthlyData(ts, MonthRange(year, month - 1)) == MonthlyData(ts, Range(FirstDay(prev), LastDay(prev)))
      && MonthlyData(ts, MonthRange(year - 1, month)) == MonthlyData(ts, Range(FirstDay(ago), LastDay(ago)))
  {
    MonthRangeBounds(year, month);
    MonthOfUnique(year, month - 1, YearMonth(year, month));
    PreviousMonthWraps(year, month);
    PreviousYearSameMonth(year, month);
  }

  /** Every month 1 to 12 of the years -271818 to 275759 can be compared. */
  lemma ComparableMonths(year: int, month: int)
    requires -271818 <= year <= 275759 && 1 <= month <= 12
    ensures Comparable(year, month)
  {
    MonthRangeWithinLimits(year, month);
    MonthRangeWithinLimits(year, month - 1);
    MonthRangeWithinLimits(year - 1, month);
  }



  /** A month of a year after 275760 is answered as an invalid date. */
  lemma FarMonthRejected(ts: seq<Transaction>, param: Option<string>)
    requires ReadMonth(param).Month? && ReadMonth(param).year > 275760
    requires 1 <= ReadMonth(param).month <= 12
    ensures Compare(ts, param) == InvalidDate
  {
    MonthRangeBeyond(ReadMonth(param).year, ReadMonth(param).month);
  }
}
