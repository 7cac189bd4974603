/** The month comparison view (app/src/components/analysis/ComparisonReport.tsx):
    the chart rows built from the comparison reply, the change in percent
    from an earlier month, and how that change is shown. */
module ComparisonReport {
  import opened Options
  import opened Text
  import opened Ledger
  import opened Comparison

  /** One bar group of the chart: a figure for the selected month, the month
      before and the same month a year earlier. */
  datatype ChartRow = ChartRow(name: string, current: int, previousMonth: int, previousYear: int)

  /** The figure a chart row shows: 0 income, 1 expense, 2 balance. */
  function Figure(f: Figures, row: nat): int
    requires row < 3
  {
    if row == 0 then f.income else if row == 1 then f.expense else f.balance
  }

  /** The three chart rows, income (収入), expense (支出) and balance (収支), each
      with the three periods' figures. */
  function ChartData(d: ComparisonData): (rows: seq<ChartRow>)
    ensures |rows| == 3
    ensures rows[0].name == "収入" && rows[1].name == "支出" && rows[2].name == "収支"
    ensures forall k :: 0 <= k < 3 ==>
      && rows[k].current == Figure(d.current, k)
      && rows[k].previousMonth == Figure(d.previousMonth, k)
      && rows[k].previousYear == Figure(d.previousYear, k)
  {
    [ ChartRow("収入", d.current.income, d.previousMonth.income, d.previousYear.income),
      ChartRow("支出", d.current.expense, d.previousMonth.expense, d.previousYear.expense),
      ChartRow("収支", d.current.balance, d.previousMonth.balance, d.previousYear.balance) ]
  }

  /** For every reply of the comparison endpoint, the balance row of the chart
      is the income row minus the expense row, in each of the three periods. */
  lemma ChartBalances(ts: seq<Transaction>, param: Option<string>)
    requires Compare(ts, param).Data?
    ensures var rows := ChartData(Compare(ts, param).value);
      && rows[2].current == rows[0].current - rows[1].current
      && rows[2].previousMonth == rows[0].previousMonth - rows[1].previousMonth
      && rows[2].previousYear == rows[0].previousYear - rows[1].previousYear
  {
  }

  /** `calculatePercentage`: the change from `previous` to `current` in whole
      percent. From a zero figure the change is 0 when the figure stays 0,
      and 100 otherwise. */
  function ChangePercentage(current: int, previous: int): (p: int)
    ensures previous == 0 && current == 0 ==> p == 0
    ensures previous == 0 && current != 0 ==> p == 100
    ensures previous != 0 ==>
      var exact := (current as real / previous as real - 1.0) * 100.0;
      p as real - 0.5 <= exact < p as real + 0.5
  {
    if previous == 0 then (if current == 0 then 0 else 100)
    else Round((current as real / previous as real - 1.0) * 100.0)
  }

  /** An unchanged figure shows 0%. Against a positive earlier figure a
      positive percentage means the figure grew and a negative one that it
      shrank; against a negative earlier figure (a balance in deficit) the
      directions are reversed. */
  lemma ChangeDirection(current: int, previous: int)
    ensures current == previous ==> ChangePercentage(current, previous) == 0
    ensures previous > 0 && ChangePercentage(current, previous) > 0 ==> current > previous
    ensures previous > 0 && ChangePercentage(current, previous) < 0 ==> current < previous
    ensures previous < 0 && ChangePercentage(current, previous) > 0 ==> current < previous
    ensures previous < 0 && ChangePercentage(current, previous) < 0 ==> current > previous
  {
    if previous != 0 {
      var c, q := current as real, previous as real;
      RatioSide(c, q);
    }
  }

  /** Where a quotient lies against 1 tells whether the dividend lies above
      or below the divisor, the direction turning with the divisor's sign. */
  lemma RatioSide(c: real, q: real)
    requires q != 0.0
    ensures c == q ==> c / q == 1.0
    ensures c / q > 1.0 ==> (q > 0.0 ==> c > q) && (q < 0.0 ==> c < q)
    ensures c / q < 1.0 ==> (q > 0.0 ==> c < q) && (q < 0.0 ==> c > q)
  {
    var r := c / q;
    assert r * q == c;
    assert c - q == (r - 1.0) * q;
    if r > 1.0 {
      if q > 0.0 { assert (r - 1.0) * q > 0.0; } else { assert (r - 1.0) * q < 0.0; }
    } else if r < 1.0 {
      if q > 0.0 { assert (r - 1.0) * q < 0.0; } else { assert (r - 1.0) * q > 0.0; }
    }
  }

  /** The tone of the percentage: grey for no change, red for a rise, green for a fall. */
  datatype Tone = Gray | Red | Green

  datatype Rendered = Rendered(tone: Tone, text: string)

  /** `renderPercentage`: the percentage with a `+` before a rise and `%` after it. */
  function RenderPercentage(current: int, previous: int): (r: Rendered)
  {
    var p := ChangePercentage(current, previous);
    Rendered(if p == 0 then Gray else if p > 0 then Red else Green,
             (if p > 0 then "+" else "") + IntToString(p) + "%")
  }

  /** The rendered text carries the sign of the percentage (a `+` for a rise,
      a `-` for a fall, neither for no change), ends in `%`, and its tone
      agrees with the sign; dropping the `+` and the `%` reads the
      percentage back. */
  lemma RenderedSign(current: int, previous: int)
    ensures var p := ChangePercentage(current, previous);
      var r := RenderPercentage(current, previous);
      && |r.text| >= 2
      && (r.text[0] == '+' <==> p > 0)
      && (r.text[0] == '-' <==> p < 0)
      && r.text[|r.text| - 1] == '%'
      && (r.tone == Red <==> p > 0)
      && (r.tone == Green <==> p < 0)
      && ParseNumber(r.text[(if p > 0 then 1 else 0)..|r.text| - 1]) == Some(p)
  {
    var p := ChangePercentage(current, previous);
    var r := RenderPercentage(current, previous);
    var digits := IntToString(p);
    if p > 0 {
      assert r.text == ['+'] + digits + "%";
      assert r.text[1..|r.text| - 1] == digits;
      assert r.text[0] == '+';
    } else {
      assert r.text == digits + "%";
      assert r.text[0..|r.text| - 1] == digits;
      assert r.text[0] == digits[0];
    }
    NumberRoundTrip(p);
  }

  /** From a zero figure any change shows as a rise of 100%, in red, even a
      fall into deficit: a balance going from 0 to -5000 reads `+100%`. */
  lemma FromZeroReadsAsRise(current: int)
    requires current < 0
    ensures RenderPercentage(current, 0).tone == Red
    ensures RenderPercentage(current, 0).text == "+100%"
  {
    assert IntToString(100) == "100" by {
      assert NatToString(100) == NatToString(10) + "0";
      assert NatToString(10) == NatToString(1) + "0";
    }
  }
}
