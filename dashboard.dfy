/** The dashboard (app/src/app/api/dashboard/route.ts): this month's income,
    expense and balance, the month's expenses per category, three fixed
    budgets with what was spent on them, the alerts, and the five newest
    records. The current day is a parameter. */
module Dashboard {
  import opened Options
  import opened Dates
  import opened Ledger
  import opened Grouping
  import opened Comparison

  /** `startOfMonth(today)` to `endOfMonth(today)`, as calendar days. */
  function ThisMonth(today: Date): (r: Range)
    requires 1 <= today.month <= 12
    ensures r.start == Date(today.year, today.month, 1)
    ensures r.end == Date(today.year, today.month, DaysInMonth(today.year, today.month))
  {
    var ym := YearMonth(today.year, today.month);
    Range(FirstDay(ym), LastDay(ym))
  }

  // ---------------------------------------------------------------------
  // Spending per category
  // ---------------------------------------------------------------------

  /** One value of the `categoryExpenses` object: the category's id, name and colour, and the amount. */
  datatype CategorySpend = CategorySpend(id: Id, name: string, color: string, amount: int)

  /** The expense records as (category id, amount), in record order. */
  function IdItems(es: seq<Transaction>): (items: seq<(Id, int)>)
    ensures |items| == |es|
    ensures forall i :: 0 <= i < |es| ==> items[i] == (es[i].categoryId, es[i].amount)
  {
    if es == [] then [] else IdItems(es[..|es| - 1]) + [(es[|es| - 1].categoryId, es[|es| - 1].amount)]
  }

  /** The category each group's id refers to, as the query's `include` joins it. */
  function Joined(cats: seq<Category>, gs: seq<Group<Id>>): (r: seq<CategorySpend>)
    requires forall i :: 0 <= i < |gs| ==> FindById(cats, gs[i].key).Some?
    ensures |r| == |gs|
    ensures forall i :: 0 <= i < |gs| ==> r[i].id == gs[i].key && r[i].amount == gs[i].amount
    ensures forall i :: 0 <= i < |gs| ==>
      r[i].name == FindById(cats, gs[i].key).value.name && r[i].color == FindById(cats, gs[i].key).value.color
  {
    if gs == [] then []
    else
      var c := FindById(cats, gs[0].key).value;
      [CategorySpend(gs[0].key, c.name, c.color, gs[0].amount)] + Joined(cats, gs[1..])
  }

  lemma GroupKeysResolve(cats: seq<Category>, es: seq<Transaction>)
    requires ReferencesResolve(cats, es)
    ensures forall j :: 0 <= j < |GroupAll<Id>(IdItems(es))| ==> FindById(cats, GroupAll<Id>(IdItems(es))[j].key).Some?
  {
    var items := IdItems(es);
    var gs := GroupAll<Id>(items);
    GroupAllFacts(items);
    forall j | 0 <= j < |gs|
      ensures FindById(cats, gs[j].key).Some?
    {
      assert Keys(gs)[j] == gs[j].key;
      assert gs[j].key in ItemKeys(items);
      var i :| 0 <= i < |items| && ItemKeys(items)[i] == gs[j].key;
      assert es[i] in es;
      FoundById(cats, gs[j].key);
    }
  }

  /** The month's expenses per category, in the order the categories first occur. */
  function Spending(cats: seq<Category>, es: seq<Transaction>): seq<CategorySpend>
    requires ReferencesResolve(cats, es)
  {
    GroupKeysResolve(cats, es);
    Joined(cats, GroupAll<Id>(IdItems(es)))
  }

  function SpendTotal(ss: seq<CategorySpend>): int {
    if ss == [] then 0 else SpendTotal(ss[..|ss| - 1]) + ss[|ss| - 1].amount
  }

  lemma {:induction false} JoinedTotal(cats: seq<Category>, gs: seq<Group<Id>>)
    requires forall i :: 0 <= i < |gs| ==> FindById(cats, gs[i].key).Some?
    ensures SpendTotal(Joined(cats, gs)) == GroupsTotal(gs)
    decreases |gs|
  {
    if gs != [] {
      var prefix := gs[..|gs| - 1];
      JoinedTotal(cats, prefix);
      assert Joined(cats, gs)[..|gs| - 1] == Joined(cats, prefix);
    }
  }

  lemma {:induction false} IdItemsTotal(es: seq<Transaction>)
    ensures ItemsTotal(IdItems(es)) == Sum(es)
    decreases |es|
  {
    if es != [] {
      var prefix, last := es[..|es| - 1], es[|es| - 1];
      IdItemsTotal(prefix);
      var items := IdItems(es);
      assert items == IdItems(prefix) + [(last.categoryId, last.amount)];
      assert items[..|items| - 1] == IdItems(prefix);
      assert ItemsTotal(items) == ItemsTotal(IdItems(prefix)) + last.amount;
      assert es == prefix + [last];
      SumAppend(prefix, [last]);
    }
  }

  /** One entry per category among the expenses, no two with the same id,
      each holding the sum of that category's amounts and its category's name
      and colour; the entries add up to the sum of the expenses. */
  lemma SpendingFacts(cats: seq<Category>, es: seq<Transaction>)
    requires ReferencesResolve(cats, es)
    ensures var ss := Spending(cats, es);
      && (forall i, j :: 0 <= i < j < |ss| ==> ss[i].id != ss[j].id)
      && (forall t :: t in es ==> exists s :: s in ss && s.id == t.categoryId)
      && (forall s :: s in ss ==> exists t :: t in es && t.categoryId == s.id)
      && (forall s :: s in ss ==>
            && s.amount == KeyTotal(IdItems(es), s.id)
            && exists c :: c in cats && c.id == s.id && c.name == s.name && c.color == s.color)
      && SpendTotal(ss) == Sum(es)
  {
    var items := IdItems(es);
    var gs := GroupAll<Id>(items);
    GroupAllFacts(items);
    GroupKeysResolve(cats, es);
    JoinedTotal(cats, gs);
    IdItemsTotal(es);
    SpendingIds(cats, es);
    JoinedAmounts(cats, gs, items);
  }

  lemma SpendingIds(cats: seq<Category>, es: seq<Transaction>)
    requires ReferencesResolve(cats, es)
    ensures var ss := Spending(cats, es);
      && (forall t :: t in es ==> exists s :: s in ss && s.id == t.categoryId)
      && (forall s :: s in ss ==> exists t :: t in es && t.categoryId == s.id)
  {
    var items := IdItems(es);
    GroupAllFacts(items);
    SpendingCovers(cats, es);
    SpendingFromRecords(cats, es);
  }

  /** Every expense's category has an entry. */
  lemma SpendingCovers(cats: seq<Category>, es: seq<Transaction>)
    requires ReferencesResolve(cats, es)
    requires forall k :: k in Keys(GroupAll<Id>(IdItems(es))) <==> k in ItemKeys(IdItems(es))
    ensures forall t :: t in es ==> exists s :: s in Spending(cats, es) && s.id == t.categoryId
  {
    var items := IdItems(es);
    var gs := GroupAll<Id>(items);
    var ss := Spending(cats, es);
    forall t | t in es
      ensures exists s :: s in ss && s.id == t.categoryId
    {
      var i :| 0 <= i < |es| && es[i] == t;
      assert ItemKeys(items)[i] == t.categoryId;
      assert t.categoryId in Keys(gs);
      var j :| 0 <= j < |gs| && Keys(gs)[j] == t.categoryId;
      assert ss[j] in ss;
    }
  }

  /** Every entry is the category of an expense. */
  lemma SpendingFromRecords(cats: seq<Category>, es: seq<Transaction>)
    requires ReferencesResolve(cats, es)
    requires forall k :: k in Keys(GroupAll<Id>(IdItems(es))) <==> k in ItemKeys(IdItems(es))
    ensures forall s :: s in Spending(cats, es) ==> exists t :: t in es && t.categoryId == s.id
  {
    var items := IdItems(es);
    var gs := GroupAll<Id>(items);
    var ss := Spending(cats, es);
    forall s | s in ss
      ensures exists t :: t in es && t.categoryId == s.id
    {
      var j :| 0 <= j < |ss| && ss[j] == s;
      assert Keys(gs)[j] == s.id;
      assert s.id in ItemKeys(items);
      var i :| 0 <= i < |items| && ItemKeys(items)[i] == s.id;
      assert es[i] in es;
    }
  }

  lemma JoinedAmounts(cats: seq<Category>, gs: seq<Group<Id>>, items: seq<(Id, int)>)
    requires forall i :: 0 <= i < |gs| ==> FindById(cats, gs[i].key).Some?
    requires forall j :: 0 <= j < |gs| ==> gs[j].amount == KeyTotal(items, gs[j].key)
    ensures var ss := Joined(cats, gs);
      forall s :: s in ss ==>
        && s.amount == KeyTotal(items, s.id)
        && exists c :: c in cats && c.id == s.id && c.name == s.name && c.color == s.color
  {
    var ss := Joined(cats, gs);
    forall s | s in ss
      ensures s.amount == KeyTotal(items, s.id)
      ensures exists c :: c in cats && c.id == s.id && c.name == s.name && c.color == s.color
    {
      var j :| 0 <= j < |ss| && ss[j] == s;
      var c := FindById(cats, gs[j].key).value;
      assert c in cats;
    }
  }

  // ---------------------------------------------------------------------
  // Budgets and alerts
  // ---------------------------------------------------------------------

  datatype Budget = Budget(category: string, budget: int, spent: int)

  /** The fixed budgets: food 50000, daily goods 20000, transport 30000. */
  const BUDGET_PLAN: seq<(string, int)> := [("食費", 50000), ("日用品", 20000), ("交通費", 30000)]

  /** `Object.values(categoryExpenses).find(c => c.name === name)?.amount || 0`. */
  function SpentOn(ss: seq<CategorySpend>, name: string): (spent: int)
    ensures (forall s :: s in ss ==> s.name != name) ==> spent == 0
    ensures forall i :: 0 <= i < |ss| && ss[i].name == name && (forall j :: 0 <= j < i ==> ss[j].name != name) ==>
      spent == ss[i].amount
  {
    if ss == [] then 0
    else if ss[0].name == name then ss[0].amount
    else SpentOn(ss[1..], name)
  }

  /** The budgets in plan order, each with what was spent on its category. */
  function Budgets(plan: seq<(string, int)>, ss: seq<CategorySpend>): (bs: seq<Budget>)
    ensures |bs| == |plan|
    ensures forall i :: 0 <= i < |plan| ==> bs[i] == Budget(plan[i].0, plan[i].1, SpentOn(ss, plan[i].0))
  {
    if plan == [] then [] else [Budget(plan[0].0, plan[0].1, SpentOn(ss, plan[0].0))] + Budgets(plan[1..], ss)
  }

  /** The alert kinds with the figures their messages are built from: the
      amount over budget, or how far the expense exceeds the income. */
  datatype Alert = Warning(category: string, over: int) | Info(category: string) | Danger(shortfall: int)

  /** The alert a budget raises: over budget, else above 90% of it (`spent >
      budget * 0.9`, exact for integral amounts as `10 * spent > 9 * budget`), else none. */
  function AlertFor(b: Budget): (a: Option<Alert>)
    ensures a.Some? && a.value.Warning? <==> b.spent > b.budget
    ensures a.Some? && a.value.Info? <==> b.spent <= b.budget && 10 * b.spent > 9 * b.budget
    ensures a.Some? ==> !a.value.Danger? && a.value.category == b.category
    ensures a.Some? && a.value.Warning? ==> a.value.over == b.spent - b.budget
  {
    if b.spent > b.budget then Some(Warning(b.category, b.spent - b.budget))
    else if 10 * b.spent > 9 * b.budget then Some(Info(b.category))
    else None
  }

  /** The alerts of the budgets, in budget order. */
  function BudgetAlerts(bs: seq<Budget>): seq<Alert> {
    if bs == [] then []
    else
      var a := AlertFor(bs[|bs| - 1]);
      BudgetAlerts(bs[..|bs| - 1]) + (if a.Some? then [a.value] else [])
  }

  /** The budget alerts, then the balance alert when the expense exceeds the income. */
  function Alerts(bs: seq<Budget>, income: int, expense: int): seq<Alert> {
    BudgetAlerts(bs) + (if expense > income then [Danger(expense - income)] else [])
  }

  /** At most one alert per budget, each about one of the budgets and never a
      balance alert. */
  lemma {:induction false} BudgetAlertsFacts(bs: seq<Budget>)
    ensures |BudgetAlerts(bs)| <= |bs|
    ensures forall a :: a in BudgetAlerts(bs) ==> !a.Danger? && exists b :: b in bs && AlertFor(b) == Some(a)
    decreases |bs|
  {
    if bs != [] {
      var prefix := bs[..|bs| - 1];
      BudgetAlertsFacts(prefix);
      forall a | a in BudgetAlerts(bs)
        ensures !a.Danger? && exists b :: b in bs && AlertFor(b) == Some(a)
      {
        if a in BudgetAlerts(prefix) {
          var b :| b in prefix && AlertFor(b) == Some(a);
          assert b in bs;
        } else {
          assert bs[|bs| - 1] in bs;
        }
      }
    }
  }

  /** Exactly when the expense exceeds the income there is a balance alert,
      and then it is the last alert and the only one. */
  lemma DangerLast(bs: seq<Budget>, income: int, expense: int)
    ensures var alerts := Alerts(bs, income, expense);
      && ((exists a :: a in alerts && a.Danger?) <==> expense > income)
      && (expense > income ==> alerts[|alerts| - 1] == Danger(expense - income))
      && (forall i :: 0 <= i < |alerts| - 1 ==> !alerts[i].Danger?)
  {
    BudgetAlertsFacts(bs);
    var alerts := Alerts(bs, income, expense);
    forall i | 0 <= i < |alerts| - 1
      ensures !alerts[i].Danger?
    {
      assert alerts[i] in BudgetAlerts(bs);
    }
    if expense <= income {
      assert alerts == BudgetAlerts(bs);
    } else {
      assert alerts[|alerts| - 1] in alerts;
    }
  }

  /** The `forEach` over the budgets that pushes the alerts. */
  method CollectAlerts(bs: seq<Budget>) returns (alerts: seq<Alert>)
    ensures alerts == BudgetAlerts(bs)
  {
    alerts := [];
    var i := 0;
    while i < |bs|
      invariant 0 <= i <= |bs|
      invariant alerts == BudgetAlerts(bs[..i])
    {
      assert bs[..i + 1][..i] == bs[..i];
      var b := bs[i];
      if b.spent > b.budget {
        alerts := alerts + [Warning(b.category, b.spent - b.budget)];
      } else if 10 * b.spent > 9 * b.budget {
        alerts := alerts + [Info(b.category)];
      }
      i := i + 1;
    }
    assert bs[..|bs|] == bs;
  }

  /** The budget alerts, then the balance check that pushes the last alert. */
  method AllAlerts(bs: seq<Budget>, income: int, expense: int) returns (alerts: seq<Alert>)
    ensures alerts == Alerts(bs, income, expense)
  {
    alerts := CollectAlerts(bs);
    if expense > income {
      alerts := alerts + [Danger(expense - income)];
    }
  }

  // ---------------------------------------------------------------------
  // Recent records
  // ---------------------------------------------------------------------

  const RECENT: nat := 5

  /** `findMany({ orderBy: { date: 'desc' }, take: 5 })`. */
  function Recent(ts: seq<Transaction>): seq<Transaction> {
    var sorted := ByDateDesc(ts);
    if |sorted| <= RECENT then sorted else sorted[..RECENT]
  }

  /** At most five records, newest first, taken from the store, and none of
      the records left out is newer than any shown. */
  lemma RecentFacts(ts: seq<Transaction>)
    ensures |Recent(ts)| == (if |ts| < RECENT then |ts| else RECENT)
    ensures multiset(Recent(ts)) <= multiset(ts)
    ensures forall i, j :: 0 <= i < j < |Recent(ts)| ==> DateLe(Recent(ts)[j].date, Recent(ts)[i].date)
    ensures forall i, j :: 0 <= i < |Recent(ts)| <= j < |ByDateDesc(ts)| ==>
      DateLe(ByDateDesc(ts)[j].date, Recent(ts)[i].date)
  {
    var sorted := ByDateDesc(ts);
    assert |sorted| == |ts| by {
      assert |multiset(sorted)| == |multiset(ts)|;
    }
    if |sorted| > RECENT {
      var r := sorted[..RECENT];
      assert Recent(ts) == r;
      assert sorted == r + sorted[RECENT..];
      assert multiset(sorted) == multiset(r) + multiset(sorted[RECENT..]);
      assert forall i :: 0 <= i < |r| ==> r[i] == sorted[i];
    } else {
      assert Recent(ts) == sorted;
    }
  }

  // ---------------------------------------------------------------------
  // The route
  // ---------------------------------------------------------------------

  datatype Summary = Summary(income: int, expense: int, balance: int, categoryExpenses: seq<CategorySpend>)

  datatype DashboardData = DashboardData(summary: Summary, budgets: seq<Budget>,
                                         recentTransactions: seq<Transaction>, alerts: seq<Alert>)

  /** The records of the month, the expense records among them. */
  function MonthExpenses(ts: seq<Transaction>, today: Date): seq<Transaction>
    requires 1 <= today.month <= 12
  {
    OfType(InDateRange(ts, ThisMonth(today)), EXPENSE)
  }

  /** `GET`: every record refers to a stored category, as the schema's relation guarantees. */
  method GetDashboard(cats: seq<Category>, ts: seq<Transaction>, today: Date) returns (d: DashboardData)
    requires ReferencesResolve(cats, ts) && IsCalendarDate(today)
    ensures var month := InDateRange(ts, ThisMonth(today));
      && d.summary.income == TypeTotal(month, INCOME)
      && d.summary.expense == TypeTotal(month, EXPENSE)
      && d.summary.balance == d.summary.income - d.summary.expense
    ensures ReferencesResolve(cats, MonthExpenses(ts, today))
      && d.summary.categoryExpenses == Spending(cats, MonthExpenses(ts, today))
    ensures d.budgets == Budgets(BUDGET_PLAN, d.summary.categoryExpenses)
    ensures d.alerts == Alerts(d.budgets, d.summary.income, d.summary.expense)
    ensures d.recentTransactions == Recent(ts)
  {
    var month := InDateRange(ts, ThisMonth(today));
    var income := TypeTotal(month, INCOME);
    var expense := TypeTotal(month, EXPENSE);
    var recent := Recent(ts);
    ExpensesResolve(cats, ts, ThisMonth(today));
    var spending := CategorySpending(cats, MonthExpenses(ts, today));
    var budgets := Budgets(BUDGET_PLAN, spending);
    var alerts := AllAlerts(budgets, income, expense);
    d := DashboardData(Summary(income, expense, income - expense, spending), budgets, recent, alerts);
  }

  /** The `reduce` that fills the per-category object, and `Object.values`. */
  method CategorySpending(cats: seq<Category>, es: seq<Transaction>) returns (ss: seq<CategorySpend>)
    requires ReferencesResolve(cats, es)
    ensures ss == Spending(cats, es)
  {
    GroupKeysResolve(cats, es);
    var groups := GroupAmounts<Id>(IdItems(es));
    ss := Joined(cats, groups);
  }

  lemma ExpensesResolve(cats: seq<Category>, ts: seq<Transaction>, r: Range)
    requires ReferencesResolve(cats, ts)
    ensures ReferencesResolve(cats, OfType(InDateRange(ts, r), EXPENSE))
  {
    InDateRangeMembers(ts, r);
    OfTypeMembers(InDateRange(ts, r), EXPENSE);
  }

  /** The category entries add up to the month's expense, and the month's
      figures are the comparison route's figures for the same month. */
  lemma SummaryAgrees(cats: seq<Category>, ts: seq<Transaction>, today: Date)
    requires ReferencesResolve(cats, ts) && IsCalendarDate(today)
    ensures ReferencesResolve(cats, MonthExpenses(ts, today))
    ensures SpendTotal(Spending(cats, MonthExpenses(ts, today))) == TypeTotal(InDateRange(ts, ThisMonth(today)), EXPENSE)
    ensures var f := MonthlyData(ts, ThisMonth(today));
      f.income == TypeTotal(InDateRange(ts, ThisMonth(today)), INCOME)
      && f.expense == TypeTotal(InDateRange(ts, ThisMonth(today)), EXPENSE)
  {
    ExpensesResolve(cats, ts, ThisMonth(today));
    SpendingFacts(cats, MonthExpenses(ts, today));
    MonthlyDataFilters(ts, ThisMonth(today));
  }
}
