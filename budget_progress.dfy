/** The budget bars of the dashboard (app/src/components/dashboard/BudgetProgress.tsx):
    the percentage of a budget spent, capped at 100, the bar colour it
    selects, the colour of the percentage text and the amount left. */
module BudgetProgress {
  import opened Text
  import opened Dashboard

  /** A number `Math.min(Math.round(..), 100)` can produce: a whole number,
      `-Infinity` (a negative amount spent against a zero budget) or `NaN`
      (nothing spent against a zero budget). */
  datatype Percent = Whole(n: int) | MinusInfinity | NotANumber

  /** `Math.min(Math.round((spent / budget) * 100), 100)`. Division by a zero
      budget gives `Infinity` (capped to 100), `-Infinity` or `NaN`. */
  function CalculatePercentage(spent: int, budget: int): (p: Percent)
    ensures p.Whole? ==> p.n <= 100
    ensures p.Whole? <==> budget != 0 || spent > 0
    ensures p.NotANumber? <==> budget == 0 && spent == 0
  {
    if budget == 0 then
      if spent > 0 then Whole(100) else if spent == 0 then NotANumber else MinusInfinity
    else
      var r := Round(Ratio(spent, budget));
      Whole(if r < 100 then r else 100)
  }

  /** `(spent / budget) * 100`. */
  function Ratio(spent: int, budget: int): real
    requires budget != 0
  {
    (spent as real / budget as real) * 100.0
  }

  datatype BarColor = Red | Yellow | Green

  /** `getProgressColor`: red from 100, yellow from 75; comparisons with `NaN`
      and `-Infinity` fall through to green. */
  function ProgressColor(p: Percent): (c: BarColor)
    ensures c == Red <==> p.Whole? && p.n >= 100
    ensures c == Yellow <==> p.Whole? && 75 <= p.n < 100
  {
    match p
    case Whole(n) => if n >= 100 then Red else if n >= 75 then Yellow else Green
    case _ => Green
  }

  datatype TextTone = RedText | GrayText

  /** The percentage text is red when `percentage >= 100`, grey otherwise. */
  function PercentTone(p: Percent): (t: TextTone)
    ensures t == RedText <==> ProgressColor(p) == Red
  {
    if p.Whole? && p.n >= 100 then RedText else GrayText
  }

  /** `Math.max(budget - spent, 0)`: what is left of the budget, never negative. */
  function Remaining(b: Budget): (r: int)
    ensures r >= 0
    ensures r == 0 <==> b.spent >= b.budget
    ensures r > 0 ==> b.spent + r == b.budget
  {
    if b.budget - b.spent > 0 then b.budget - b.spent else 0
  }

  /** The bar of one budget. */
  function BarOf(b: Budget): BarColor {
    ProgressColor(CalculatePercentage(b.spent, b.budget))
  }

  /** Against a positive budget, the uncapped percentage is the nearest whole
      number to the exact one, and the cap only applies from 99.5% on. */
  lemma PercentageNearRatio(spent: int, budget: int)
    requires budget > 0
    ensures var p := CalculatePercentage(spent, budget);
      var exact := 100.0 * spent as real / budget as real;
      && p.Whole?
      && (p.n < 100 ==> p.n as real - 0.5 <= exact < p.n as real + 0.5)
      && (p.n == 100 ==> exact >= 99.5)
  {
    AtLeastHalves(spent, budget, 199);
  }

  /** The exact percentage of `spent` in a positive `budget` reaches a
      threshold `t/2` exactly when `200 * spent >= t * budget`. */
  lemma AtLeastHalves(spent: int, budget: int, t: int)
    requires budget > 0
    ensures Ratio(spent, budget) * 2.0 >= t as real <==> 200 * spent >= t * budget
    ensures Ratio(spent, budget) == 100.0 * spent as real / budget as real
  {
    var b := budget as real;
    var x := Ratio(spent, budget);
    assert x * b == 100.0 * spent as real;
    if x * 2.0 >= t as real {
      assert x * 2.0 * b >= t as real * b;
    } else {
      assert x * 2.0 * b < t as real * b;
    }
  }

  /** Against a positive budget the bar is red once 99.5% of it is spent,
      yellow from 74.5%, and green below: `Math.round` moves both thresholds
      half a percent down. */
  lemma {:induction false} ColorBands(b: Budget)
    requires b.budget > 0
    ensures BarOf(b) == Red <==> 200 * b.spent >= 199 * b.budget
    ensures BarOf(b) == Yellow <==> 149 * b.budget <= 200 * b.spent < 199 * b.budget
    ensures BarOf(b) == Green <==> 200 * b.spent < 149 * b.budget
  {
    var x := Ratio(b.spent, b.budget);
    AtLeastHalves(b.spent, b.budget, 199);
    AtLeastHalves(b.spent, b.budget, 149);
    assert Round(x) >= 100 <==> x * 2.0 >= 199.0;
    assert Round(x) >= 75 <==> x * 2.0 >= 149.0;
  }

  /** Against a zero budget the bar is red as soon as anything is spent, and
      green otherwise (`NaN` and `-Infinity` fail both comparisons). */
  lemma ZeroBudgetBar(b: Budget)
    requires b.budget == 0
    ensures BarOf(b) == Red <==> b.spent > 0
    ensures BarOf(b) != Yellow
  {
  }

  /** A positive budget with nothing left always shows a red bar (see
      `RedWithMoneyLeft` for the converse). A zero budget with nothing spent
      has nothing left and a green bar. */
  lemma ExhaustedIsRed(b: Budget)
    requires b.budget > 0
    ensures Remaining(b) == 0 ==> BarOf(b) == Red
  {
    ColorBands(b);
  }

  /** The converse of `ExhaustedIsRed` fails: 995 spent of 1000 shows a full
      red bar with 5 left. */
  lemma RedWithMoneyLeft(b: Budget)
    requires b.budget == 1000 && b.spent == 995
    ensures BarOf(b) == Red && Remaining(b) == 5
  {
    ColorBands(b);
  }

  /** A budget the dashboard raises an alert for (more than 90% spent) never
      shows a green bar. */
  lemma AlertedIsNotGreen(b: Budget)
    requires b.budget >= 0
    requires AlertFor(b).Some?
    ensures BarOf(b) != Green
  {
    if b.budget > 0 {
      ColorBands(b);
    }
  }
}
