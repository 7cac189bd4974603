/** Category expenses (app/src/app/api/analysis/category-expenses/route.ts):
    the selected month's expenses summed per category, each with its share of
    the month's total, largest first.

    The route keys its map by `expense.category`, a relation the query does not
    fetch, so on every record the key is `undefined` and all expenses fall into
    one entry. The page that shows the report labels each entry with a category
    name, so the evident intent is one entry per category name. Both keyings
    are modelled: `AsWrittenItems` and the lemmas about it show the single
    entry, `ByCategory` is the corrected keying the route model uses. */
module CategoryExpenses {
  import opened Options
  import opened Dates
  import opened Sorting
  import opened Ledger
  import opened Grouping
  import opened Comparison

  /** A map key: `undefined`, or a category name. */
  datatype CategoryKey = Undefined | Named(name: string)

  /** The percentage is a JavaScript number; it is modelled as a real. */
  datatype CategoryExpense = CategoryExpense(category: CategoryKey, amount: int, percentage: real)

  /** `findMany({ where: { type: 'expense', date: { gte, lte } } })`. */
  function MonthExpenses(ts: seq<Transaction>, r: Range): seq<Transaction> {
    OfType(InDateRange(ts, r), EXPENSE)
  }

  /** The keys as written: the unfetched `expense.category` of every record is `undefined`. */
  function AsWrittenItems(es: seq<Transaction>): (items: seq<(CategoryKey, int)>)
    ensures |items| == |es|
    ensures forall i :: 0 <= i < |es| ==> items[i] == (Undefined, es[i].amount)
  {
    if es == [] then [] else AsWrittenItems(es[..|es| - 1]) + [(Undefined, es[|es| - 1].amount)]
  }

  /** The key of a record under the corrected keying: the name of the category it refers to. */
  function KeyOf(cats: seq<Category>, t: Transaction): (k: CategoryKey)
    ensures HasCategory(cats, t.categoryId) ==> k.Named?
  {
    match FindById(cats, t.categoryId)
    case Some(c) => Named(c.name)
    case None => Undefined
  }

  /** The records keyed by the name of their category, in record order. */
  function ByCategory(cats: seq<Category>, es: seq<Transaction>): (items: seq<(CategoryKey, int)>)
    ensures |items| == |es|
    ensures forall i :: 0 <= i < |es| ==> items[i] == (KeyOf(cats, es[i]), es[i].amount)
  {
    if es == [] then [] else ByCategory(cats, es[..|es| - 1]) + [(KeyOf(cats, es[|es| - 1]), es[|es| - 1].amount)]
  }

  /** `totalExpense > 0 ? (amount / totalExpense) * 100 : 0`. */
  function Percentage(amount: int, total: int): (p: real)
    ensures total <= 0 ==> p == 0.0
    ensures total > 0 && amount == total ==> p == 100.0
    ensures total > 0 && 0 <= amount <= total ==> 0.0 <= p <= 100.0
  {
    if total > 0 then (amount as real / total as real) * 100.0 else 0.0
  }

  /** `Array.from(categoryMap.entries()).map(...)`. */
  function Entries(gs: seq<Group<CategoryKey>>, total: int): (es: seq<CategoryExpense>)
    ensures |es| == |gs|
    ensures forall i :: 0 <= i < |gs| ==>
      es[i] == CategoryExpense(gs[i].key, gs[i].amount, Percentage(gs[i].amount, total))
  {
    if gs == [] then []
    else [CategoryExpense(gs[0].key, gs[0].amount, Percentage(gs[0].amount, total))] + Entries(gs[1..], total)
  }

  /** `sort((a, b) => b.amount - a.amount)`: `a` may stay before `b` when its amount is not smaller. */
  function LargestFirst(): (le: (CategoryExpense, CategoryExpense) -> bool) {
    (a: CategoryExpense, b: CategoryExpense) => a.amount >= b.amount
  }

  lemma LargestFirstIsPreorder()
    ensures TotalPreorder(LargestFirst())
  {
  }

  /** The report over keyed amounts: grouped, shares of `total`, largest first. */
  function Report(items: seq<(CategoryKey, int)>, total: int): seq<CategoryExpense> {
    Sort(Entries(GroupAll(items), total), LargestFirst())
  }

  /** The route's answer for the month's expenses. */
  function CategoryReport(cats: seq<Category>, es: seq<Transaction>): seq<CategoryExpense> {
    Report(ByCategory(cats, es), Sum(es))
  }

  // ---------------------------------------------------------------------
  // The route
  // ---------------------------------------------------------------------

  /** `GET ?date=YYYY-MM`: the month's expenses, the total, the map filled
      one record at a time, the entries and the in-place sort. */
  method CategoryExpensesReport(ts: seq<Transaction>, cats: seq<Category>, param: Option<string>)
    returns (reply: Reply<seq<CategoryExpense>>)
    ensures reply.MissingDate? <==> ReadMonth(param).NoDate?
    ensures reply.InvalidDate? <==>
      (ReadMonth(param).NotADate? || (ReadMonth(param).Month? && !RangeWithinLimits(MonthRange(ReadMonth(param).year, ReadMonth(param).month))))
    ensures reply.Data? ==>
      && ReadMonth(param).Month?
      && reply.value == CategoryReport(cats, MonthExpenses(ts, MonthRange(ReadMonth(param).year, ReadMonth(param).month)))
  {
    var query := ReadMonth(param);
    if query.NoDate? {
      return MissingDate;
    }
    // NaN, or a month beyond the range of `Date`: the store rejects the query (500).
    if query.NotADate? || !RangeWithinLimits(MonthRange(query.year, query.month)) {
      return InvalidDate;
    }
    var expenses := MonthExpenses(ts, MonthRange(query.year, query.month));
    var total := Sum(expenses);
    var groups := GroupAmounts(ByCategory(cats, expenses));
    var entries := Entries(groups, total);
    reply := Data(Sort(entries, LargestFirst()));
  }

  // ---------------------------------------------------------------------
  // What the report promises
  // ---------------------------------------------------------------------

  /** The sum of the entries' amounts. */
  function EntriesTotal(es: seq<CategoryExpense>): int {
    if es == [] then 0 else es[0].amount + EntriesTotal(es[1..])
  }

  predicate DistinctCategories(es: seq<CategoryExpense>) {
    forall i, j :: 0 <= i < j < |es| ==> es[i].category != es[j].category
  }

  lemma EntriesFacts(gs: seq<Group<CategoryKey>>, total: int)
    ensures EntriesTotal(Entries(gs, total)) == GroupsTotal(gs)
    ensures DistinctKeys(gs) ==> DistinctCategories(Entries(gs, total))
  {
    EntriesSum(gs, total);
    EntriesDistinct(gs, total);
  }

  lemma {:induction false} EntriesSum(gs: seq<Group<CategoryKey>>, total: int)
    ensures EntriesTotal(Entries(gs, total)) == GroupsTotal(gs)
    decreases |gs|
  {
    if gs != [] {
      EntriesSum(gs[1..], total);
      FrontTotal(gs);
    }
  }

  lemma EntriesDistinct(gs: seq<Group<CategoryKey>>, total: int)
    ensures DistinctKeys(gs) ==> DistinctCategories(Entries(gs, total))
  {
  }

  /** `GroupsTotal` adds from the back; the same sum from the front. */
  lemma {:induction false} FrontTotal(gs: seq<Group<CategoryKey>>)
    requires gs != []
    ensures GroupsTotal(gs) == gs[0].amount + GroupsTotal(gs[1..])
    decreases |gs|
  {
    if |gs| > 1 {
      FrontTotal(gs[..|gs| - 1]);
      assert gs[..|gs| - 1][1..] == gs[1..][..|gs[1..]| - 1];
    }
  }

  /** Inserting an entry adds its amount to the total. */
  lemma {:induction false} InsertTotal(x: CategoryExpense, s: seq<CategoryExpense>, le: (CategoryExpense, CategoryExpense) -> bool)
    ensures EntriesTotal(Insert(x, s, le)) == EntriesTotal(s) + x.amount
    decreases |s|
  {
    if s != [] {
      if le(x, s[0]) {
        assert ([x] + s)[1..] == s;
      } else {
        var r := Insert(x, s[1..], le);
        InsertTotal(x, s[1..], le);
        assert ([s[0]] + r)[1..] == r;
      }
    }
  }

  /** Inserting an entry whose category is new keeps the categories distinct. */
  lemma {:induction false} InsertDistinct(x: CategoryExpense, s: seq<CategoryExpense>, le: (CategoryExpense, CategoryExpense) -> bool)
    requires DistinctCategories(s) && forall y :: y in s ==> y.category != x.category
    ensures DistinctCategories(Insert(x, s, le))
    decreases |s|
  {
    if s == [] {
    } else if le(x, s[0]) {
      InFront(x, s);
    } else {
      var r := Insert(x, s[1..], le);
      assert DistinctCategories(s[1..]);
      InsertDistinct(x, s[1..], le);
      forall y | y in r ensures y.category != s[0].category {
        assert y in multiset(r);
        if y != x {
          assert y in multiset(s[1..]);
        }
      }
      InFront(s[0], r);
    }
  }

  /** An entry put in front of distinct entries with other categories keeps them distinct. */
  lemma InFront(e: CategoryExpense, s: seq<CategoryExpense>)
    requires DistinctCategories(s) && forall y :: y in s ==> y.category != e.category
    ensures DistinctCategories([e] + s)
  {
    forall i, j | 0 <= i < j < |[e] + s| ensures ([e] + s)[i].category != ([e] + s)[j].category {
      if i == 0 {
        assert ([e] + s)[j] == s[j - 1];
        assert s[j - 1] in s;
      } else {
        assert ([e] + s)[i] == s[i - 1] && ([e] + s)[j] == s[j - 1];
      }
    }
  }

  /** Sorting keeps the total and keeps categories distinct. */
  lemma {:induction false} SortKeeps(s: seq<CategoryExpense>, le: (CategoryExpense, CategoryExpense) -> bool)
    ensures EntriesTotal(Sort(s, le)) == EntriesTotal(s)
    ensures DistinctCategories(s) ==> DistinctCategories(Sort(s, le))
    decreases |s|
  {
    if s != [] {
      var rest := Sort(s[1..], le);
      SortKeeps(s[1..], le);
      InsertTotal(s[0], rest, le);
      if DistinctCategories(s) {
        HeadApart(s, le);
        InsertDistinct(s[0], rest, le);
      }
    }
  }

  /** The entries after the first of a list with distinct categories, sorted,
      are still distinct and none shares the first one's category. */
  lemma HeadApart(s: seq<CategoryExpense>, le: (CategoryExpense, CategoryExpense) -> bool)
    requires s != [] && DistinctCategories(s)
    ensures DistinctCategories(s[1..])
    ensures forall y :: y in Sort(s[1..], le) ==> y.category != s[0].category
  {
    forall y | y in Sort(s[1..], le) ensures y.category != s[0].category {
      assert y in multiset(Sort(s[1..], le));
      assert y in s[1..];
      var j :| 0 <= j < |s[1..]| && s[1..][j] == y;
      assert s[j + 1] == y;
    }
  }

  /** `r` reports `items`: one entry per key of the records, holding that
      key's total and its share of the total, the amounts adding up to the total. */
  ghost predicate Describes(r: seq<CategoryExpense>, items: seq<(CategoryKey, int)>) {
    && DistinctCategories(r)
    && (forall k :: (exists e :: e in r && e.category == k) <==> k in ItemKeys(items))
    && (forall e :: e in r ==>
          e.amount == KeyTotal(items, e.category) && e.percentage == Percentage(e.amount, ItemsTotal(items)))
    && EntriesTotal(r) == ItemsTotal(items)
  }

  /** The entries built from the groups, before the sort. */
  lemma GroupedEntries(items: seq<(CategoryKey, int)>)
    ensures Describes(Entries(GroupAll(items), ItemsTotal(items)), items)
  {
    var gs := GroupAll(items);
    GroupAllFacts(items);
    EntriesFacts(gs, ItemsTotal(items));
    EntriesKeys(gs, ItemsTotal(items));
    EntriesAmounts(gs, ItemsTotal(items), items);
  }

  lemma EntriesKeys(gs: seq<Group<CategoryKey>>, total: int)
    ensures forall k :: (exists e :: e in Entries(gs, total) && e.category == k) <==> k in Keys(gs)
  {
    var es := Entries(gs, total);
    forall k | k in Keys(gs)
      ensures exists e :: e in es && e.category == k
    {
      var i :| 0 <= i < |gs| && Keys(gs)[i] == k;
      assert es[i] in es;
    }
  }

  lemma EntriesAmounts(gs: seq<Group<CategoryKey>>, total: int, items: seq<(CategoryKey, int)>)
    requires forall j :: 0 <= j < |gs| ==> gs[j].amount == KeyTotal(items, gs[j].key)
    ensures forall e :: e in Entries(gs, total) ==>
      e.amount == KeyTotal(items, e.category) && e.percentage == Percentage(e.amount, total)
  {
  }

  /** No entry has a larger amount than one before it. */
  predicate LargestFirstOrder(es: seq<CategoryExpense>) {
    forall i, j :: 0 <= i < j < |es| ==> es[i].amount >= es[j].amount
  }

  /** Sorting largest first keeps what the entries report. */
  lemma SortedEntries(es: seq<CategoryExpense>, items: seq<(CategoryKey, int)>)
    requires Describes(es, items)
    ensures Describes(Sort(es, LargestFirst()), items)
    ensures LargestFirstOrder(Sort(es, LargestFirst()))
  {
    var r := Sort(es, LargestFirst());
    LargestFirstIsPreorder();
    SortSorted(es, LargestFirst());
    SortKeeps(es, LargestFirst());
    forall e | e in r
      ensures e in es
    {
      assert e in multiset(r);
    }
    forall e | e in es
      ensures e in r
    {
      assert e in multiset(es);
    }
  }

  /** The report describes the records, largest amount first. */
  lemma ReportFacts(items: seq<(CategoryKey, int)>)
    ensures Describes(Report(items, ItemsTotal(items)), items)
    ensures LargestFirstOrder(Report(items, ItemsTotal(items)))
  {
    var es := Entries(GroupAll(items), ItemsTotal(items));
    assert Report(items, ItemsTotal(items)) == Sort(es, LargestFirst());
    GroupedEntries(items);
    SortedEntries(es, items);
  }

  /** The corrected report: one entry per category name among the month's
      expenses, each holding the sum of that category's amounts, all adding
      up to `totalExpense`, largest first; every percentage is 0 when the
      total is not positive. */
  lemma CategoryReportFacts(cats: seq<Category>, es: seq<Transaction>)
    requires ReferencesResolve(cats, es)
    ensures DistinctCategories(CategoryReport(cats, es))
    ensures forall e :: e in CategoryReport(cats, es) ==> e.category.Named?
    ensures forall t :: t in es ==> exists e :: e in CategoryReport(cats, es) && e.category == KeyOf(cats, t)
    ensures forall e :: e in CategoryReport(cats, es) ==> e.amount == KeyTotal(ByCategory(cats, es), e.category)
    ensures EntriesTotal(CategoryReport(cats, es)) == Sum(es)
    ensures LargestFirstOrder(CategoryReport(cats, es))
    ensures Sum(es) <= 0 ==> forall e :: e in CategoryReport(cats, es) ==> e.percentage == 0.0
  {
    var items := ByCategory(cats, es);
    ItemsTotalSum(cats, es);
    ReportFacts(items);
    assert CategoryReport(cats, es) == Report(items, ItemsTotal(items));
    KeysNamed(cats, es);
    KeysCovered(cats, es);
    if Sum(es) <= 0 {
      forall e | e in CategoryReport(cats, es) ensures e.percentage == 0.0 {
        assert e.percentage == Percentage(e.amount, ItemsTotal(items));
      }
    }
  }

  /** Every record's key is a category name, as every record refers to a stored category. */
  lemma KeysNamed(cats: seq<Category>, es: seq<Transaction>)
    requires ReferencesResolve(cats, es)
    ensures forall k: CategoryKey :: k in ItemKeys(ByCategory(cats, es)) ==> k.Named?
  {
    var items := ByCategory(cats, es);
    forall k: CategoryKey | k in ItemKeys(items)
      ensures k.Named?
    {
      var i :| 0 <= i < |items| && ItemKeys(items)[i] == k;
      assert es[i] in es;
    }
  }

  /** Every record's key is among the keyed records' keys. */
  lemma KeysCovered(cats: seq<Category>, es: seq<Transaction>)
    ensures forall t :: t in es ==> KeyOf(cats, t) in ItemKeys(ByCategory(cats, es))
  {
    var items := ByCategory(cats, es);
    forall t | t in es
      ensures KeyOf(cats, t) in ItemKeys(items)
    {
      var i :| 0 <= i < |es| && es[i] == t;
      assert ItemKeys(items)[i] == KeyOf(cats, t);
    }
  }

  lemma {:induction false} ItemsTotalSum(cats: seq<Category>, es: seq<Transaction>)
    ensures ItemsTotal(ByCategory(cats, es)) == Sum(es)
    decreases |es|
  {
    if es != [] {
      var prefix := es[..|es| - 1];
      ItemsTotalSum(cats, prefix);
      ByCategoryLast(cats, es);
      LastAmount(es);
    }
  }

  lemma ByCategoryLast(cats: seq<Category>, es: seq<Transaction>)
    requires es != []
    ensures ItemsTotal(ByCategory(cats, es)) == ItemsTotal(ByCategory(cats, es[..|es| - 1])) + es[|es| - 1].amount
  {
    var items := ByCategory(cats, es);
    assert items[..|items| - 1] == ByCategory(cats, es[..|es| - 1]);
  }

  lemma LastAmount(es: seq<Transaction>)
    requires es != []
    ensures Sum(es) == Sum(es[..|es| - 1]) + es[|es| - 1].amount
  {
    var prefix, last := es[..|es| - 1], es[|es| - 1];
    assert es == prefix + [last];
    SumAppend(prefix, [last]);
    assert [last][1..] == [];
    assert Sum([last]) == last.amount + Sum([]);
  }

  // ---------------------------------------------------------------------
  // The keying as written
  // ---------------------------------------------------------------------

  lemma {:induction false} AsWrittenGroups(es: seq<Transaction>)
    requires es != []
    ensures GroupAll(AsWrittenItems(es)) == [Group(Undefined, Sum(es))]
    decreases |es|
  {
    var prefix := es[..|es| - 1];
    var t := es[|es| - 1];
    assert es == prefix + [t];
    SumAppend(prefix, [t]);
    assert AsWrittenItems(es)[..|es| - 1] == AsWrittenItems(prefix);
    if prefix != [] {
      AsWrittenGroups(prefix);
    }
  }

  /** As written, any month with expenses reports exactly one entry, keyed
      `undefined`, holding the whole total. */
  lemma AsWrittenOneEntry(es: seq<Transaction>)
    requires es != []
    ensures Report(AsWrittenItems(es), Sum(es)) ==
      [CategoryExpense(Undefined, Sum(es), Percentage(Sum(es), Sum(es)))]
  {
    AsWrittenGroups(es);
    var g := [Group(Undefined, Sum(es))];
    assert Entries(g, Sum(es)) == [CategoryExpense(Undefined, Sum(es), Percentage(Sum(es), Sum(es)))];
  }

  /** Two expenses filed under categories of different names: the corrected
      report has two entries, the report as written one. */
  lemma AsWrittenMergesCategories(cats: seq<Category>, a: Transaction, b: Transaction)
    requires ReferencesResolve(cats, [a, b])
    requires FindById(cats, a.categoryId).value.name != FindById(cats, b.categoryId).value.name
    ensures |Report(AsWrittenItems([a, b]), Sum([a, b]))| == 1
    ensures |CategoryReport(cats, [a, b])| == 2
  {
    AsWrittenOneEntry([a, b]);
    var items := ByCategory(cats, [a, b]);
    assert items == [(KeyOf(cats, a), a.amount), (KeyOf(cats, b), b.amount)];
    assert [(KeyOf(cats, a), a.amount)] == items[..1];
    assert GroupAll(items[..1]) == [Group(KeyOf(cats, a), a.amount)];
    assert GroupAll(items) == [Group(KeyOf(cats, a), a.amount), Group(KeyOf(cats, b), b.amount)];
  }
}
