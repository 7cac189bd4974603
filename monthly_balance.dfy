/** Monthly balance (app/src/app/api/analysis/monthly-balance/route.ts): the
    figures of the selected month and of the five months before it, oldest
    first, each labelled `YYYY-MM`, and the figures of the selected month. */
module MonthlyBalance {
  import opened Options
  import opened Text
  import opened Dates
  import opened Ledger
  import opened Comparison

  const MONTHS: nat := 6

  datatype MonthEntry = MonthEntry(month: string, income: int, expense: int, balance: int)

  datatype BalanceData = BalanceData(currentMonth: Figures, monthlyData: seq<MonthEntry>)

  /** `targetMonth = new Date(year, month - 1 - i, 1)`: `i` months before the selected one. */
  function TargetMonth(year: int, month: int, i: nat): (ym: YearMonth)
    ensures 1 <= ym.month <= 12
  {
    MonthOf(FullYear(year), month - 1 - i)
  }

  /** From `targetMonth` to `new Date(targetMonth.getFullYear(), targetMonth.getMonth() + 1, 0)`. */
  function TargetRange(ym: YearMonth): Range
    requires 1 <= ym.month <= 12
  {
    Range(FirstDay(ym), DayZero(ym.year, ym.month))
  }

  /** `${getFullYear()}-${String(getMonth() + 1).padStart(2, '0')}`. */
  function Label(ym: YearMonth): string
    requires 1 <= ym.month <= 12
  {
    IntToString(ym.year) + "-" + Pad2(ym.month)
  }

  /** The entry the loop pushes in its `i`-th turn. */
  function Entry(ts: seq<Transaction>, year: int, month: int, i: nat): (e: MonthEntry)
    ensures e.balance == e.income - e.expense
  {
    var ym := TargetMonth(year, month, i);
    var f := MonthlyData(ts, TargetRange(ym));
    MonthEntry(Label(ym), f.income, f.expense, f.balance)
  }

  /** The six month ranges and the selected month's range hold valid dates
      (`MonthRangeLimits`, `TargetRangeLimits`);
      otherwise one of the queries gets an Invalid Date, the store rejects
      it and the route answers 500. */
  predicate BalancesQueryable(year: int, month: int) {
    && RangeWithinLimits(MonthRange(year, month))
    && forall i: nat :: i < MONTHS ==> RangeWithinLimits(TargetRange(TargetMonth(year, month, i)))
  }

  /** `GET ?date=YYYY-MM`. */
  method MonthlyBalances(ts: seq<Transaction>, param: Option<string>) returns (reply: Reply<BalanceData>)
    ensures reply.MissingDate? <==> ReadMonth(param).NoDate?
    ensures reply.InvalidDate? <==>
      (ReadMonth(param).NotADate? || (ReadMonth(param).Month? && !BalancesQueryable(ReadMonth(param).year, ReadMonth(param).month)))
    ensures reply.Data? ==> ReadMonth(param).Month? && Correct(ts, ReadMonth(param).year, ReadMonth(param).month, reply.value)
  {
    var query := ReadMonth(param);
    if query.NoDate? {
      return MissingDate;
    }
    if query.NotADate? || !BalancesQueryable(query.year, query.month) {
      return InvalidDate;
    }
    var data := Balances(ts, query.year, query.month);
    reply := Data(data);
  }

  /** What the route answers for a readable month: six entries, oldest first,
      and the selected month's figures. */
  ghost predicate Correct(ts: seq<Transaction>, year: int, month: int, data: BalanceData) {
    && |data.monthlyData| == MONTHS
    && (forall k :: 0 <= k < MONTHS ==> data.monthlyData[k] == Entry(ts, year, month, MONTHS - 1 - k))
    && data.currentMonth == MonthlyData(ts, MonthRange(year, month))
  }

  /** The route: the loop, `monthlyData.reverse()` and the selected month's figures. */
  method Balances(ts: seq<Transaction>, year: int, month: int) returns (data: BalanceData)
    ensures Correct(ts, year, month, data)
  {
    var newestFirst := NewestFirst(ts, year, month);
    var current := MonthlyData(ts, MonthRange(year, month));
    data := BalanceData(current, Reverse(newestFirst));
  }

  /** The loop over `i = 0 .. 5`, each turn pushing the month `i` months back. */
  method NewestFirst(ts: seq<Transaction>, year: int, month: int) returns (newestFirst: seq<MonthEntry>)
    ensures |newestFirst| == MONTHS
    ensures forall j :: 0 <= j < MONTHS ==> newestFirst[j] == Entry(ts, year, month, j)
  {
    newestFirst := [];
    var i := 0;
    while i < MONTHS
      invariant 0 <= i <= MONTHS
      invariant |newestFirst| == i
      invariant forall j :: 0 <= j < i ==> newestFirst[j] == Entry(ts, year, month, j)
    {
      var entry := MonthFigures(ts, year, month, i);
      newestFirst := newestFirst + [entry];
      i := i + 1;
    }
  }

  /** One turn of the loop: the month `i` months back, its range and figures. */
  method MonthFigures(ts: seq<Transaction>, year: int, month: int, i: nat) returns (entry: MonthEntry)
    ensures entry == Entry(ts, year, month, i)
  {
    var ym := MonthOf(FullYear(year), month - 1 - i);
    var figures := MonthlyData(ts, Range(FirstDay(ym), DayZero(ym.year, ym.month)));
    entry := MonthEntry(Label(ym), figures.income, figures.expense, figures.income - figures.expense);
  }

  /** `Array.prototype.reverse`. */
  function Reverse<T>(s: seq<T>): (r: seq<T>)
    ensures |r| == |s|
    ensures forall k :: 0 <= k < |s| ==> r[k] == s[|s| - 1 - k]
  {
    if s == [] then [] else Reverse(s[1..]) + [s[0]]
  }

  /** The running month count: consecutive months differ by one. */
  function MonthCount(ym: YearMonth): int {
    ym.year * 12 + ym.month - 1
  }

  /** The entries are in chronological order, one month apart. */
  lemma Chronological(year: int, month: int, i: nat)
    ensures MonthCount(TargetMonth(year, month, i + 1)) + 1 == MonthCount(TargetMonth(year, month, i))
  {
  }

  /** For a month 1 to 12, the last entry is the selected month and carries
      the same figures as `currentMonth`: both use the same range. */
  lemma LastIsSelected(ts: seq<Transaction>, year: int, month: int)
    requires 1 <= month <= 12
    ensures TargetMonth(year, month, 0) == YearMonth(FullYear(year), month)
    ensures TargetRange(TargetMonth(year, month, 0)) == MonthRange(year, month)
    ensures var f := MonthlyData(ts, MonthRange(year, month));
      var e := Entry(ts, year, month, 0);
      e.income == f.income && e.expense == f.expense && e.balance == f.balance
  {
    MonthOfUnique(FullYear(year), month - 1, YearMonth(FullYear(year), month));
    MonthRangeBounds(year, month);
    MonthOfUnique(FullYear(year), month, MonthOf(FullYear(FullYear(year)), month));
  }

  /** A label of a month of a year from 0 on reads back, as the route's own
      `date` parameter, as that month. */
  lemma LabelRoundTrip(ym: YearMonth)
    requires 1 <= ym.month <= 12 && ym.year >= 0
    ensures ReadMonth(Some(Label(ym))) == Month(ym.year, ym.month)
  {
    NatToStringValue(ym.year);
    PaddedNumber(ym.month, 2);
    ReadMonthDigits(IntToString(ym.year), Pad2(ym.month));
  }

  /** The bounds of a month's range are calendar days, so the limits decide
      whether `new Date` can hold them. */
  lemma TargetRangeLimits(ym: YearMonth)
    requires 1 <= ym.month <= 12
    ensures RangeWithinLimits(TargetRange(ym)) <==> RangeRepresentable(TargetRange(ym))
  {
    RangeLimits(TargetRange(ym));
  }

  /** The range of the month `i` months back holds valid dates when the
      selected year is one of -271818 to 275759. */
  lemma TargetRangeWithinLimits(year: int, month: int, i: nat)
    requires -271818 <= year <= 275759 && 1 <= month <= 12 && i < MONTHS
    ensures RangeWithinLimits(TargetRange(TargetMonth(year, month, i)))
  {
    var ym := TargetMonth(year, month, i);
    assert FullYear(year) - 1 <= ym.year <= FullYear(year);
    var end := DayZero(ym.year, ym.month);
    assert FullYear(ym.year) - 1 <= end.year <= FullYear(ym.year);
  }

  /** Every month 1 to 12 of the years -271818 to 275759 gets its balances. */
  lemma BalancesQueryableMonths(year: int, month: int)
    requires -271818 <= year <= 275759 && 1 <= month <= 12
    ensures BalancesQueryable(year, month)
  {
    MonthRangeWithinLimits(year, month);
    forall i: nat | i < MONTHS
      ensures RangeWithinLimits(TargetRange(TargetMonth(year, month, i)))
    {
      TargetRangeWithinLimits(year, month, i);
    }
  }

  /** A month of a year after 275760 is answered as an invalid date. */
  lemma FarBalancesRejected(year: int, month: int)
    requires 275760 < year && 1 <= month <= 12
    ensures !BalancesQueryable(year, month)
  {
    MonthRangeBeyond(year, month);
  }
}
