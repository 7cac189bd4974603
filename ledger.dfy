/** The records the application stores, the in-memory store that stands in for
    the database, and the sums the reporting routes compute over transactions. */
module Ledger {
  import opened Options
  import opened Dates
  import opened Sorting

  /** Record identifiers are opaque; the store hands out fresh ones. */
  type Id = nat

  const INCOME: string := "income"
  const EXPENSE: string := "expense"

  /** The name of each type's fallback category, seeded as a default
      (app/prisma/seed.ts:13 and :30). */
  const OTHER: string := "その他"

  /** The source's `type` field is called `kind` here (`type` is a Dafny
      keyword); `icon` is a display hint and is not modelled. */
  datatype Category = Category(id: Id, name: string, kind: string, color: string, isDefault: bool)

  /** `createdAt`/`updatedAt` are clock values and are not modelled. */
  datatype Transaction = Transaction(id: Id, kind: string, amount: int, date: Date, categoryId: Id, memo: string)

  predicate IsTransactionType(t: string) { t == INCOME || t == EXPENSE }

  // ---------------------------------------------------------------------
  // Lookups (findFirst / findUnique)
  // ---------------------------------------------------------------------

  predicate IsDefaultOther(c: Category, kind: string) {
    c.kind == kind && c.name == OTHER && c.isDefault
  }

  /** `findFirst({ where: { type: kind, name: 'その他', isDefault: true } })`. */
  function FindDefaultOther(cats: seq<Category>, kind: string): (r: Option<Category>)
    ensures r.Some? ==> r.value in cats && IsDefaultOther(r.value, kind)
    ensures r.None? ==> forall c :: c in cats ==> !IsDefaultOther(c, kind)
  {
    if cats == [] then None
    else if IsDefaultOther(cats[0], kind) then Some(cats[0])
    else FindDefaultOther(cats[1..], kind)
  }

  /** The first category with this type and name: `findFirst({ where: { name, type } })`,
      or `find(c => c.name === name)` over the categories of one type. */
  function FindNamed(cats: seq<Category>, kind: string, name: string): (r: Option<Category>)
    ensures r.Some? ==> r.value in cats && r.value.kind == kind && r.value.name == name
    ensures r.None? ==> forall c :: c in cats ==> !(c.kind == kind && c.name == name)
  {
    if cats == [] then None
    else if cats[0].kind == kind && cats[0].name == name then Some(cats[0])
    else FindNamed(cats[1..], kind, name)
  }

  /** `findUnique({ where: { id } })`. */
  function FindById(cats: seq<Category>, id: Id): (r: Option<Category>)
    ensures r.Some? ==> r.value in cats && r.value.id == id
    ensures r.None? ==> forall c :: c in cats ==> c.id != id
  {
    if cats == [] then None
    else if cats[0].id == id then Some(cats[0])
    else FindById(cats[1..], id)
  }

  predicate HasCategory(cats: seq<Category>, id: Id) {
    exists c :: c in cats && c.id == id
  }

  /** The lookup finds a category exactly when one with the id is stored. */
  lemma FoundById(cats: seq<Category>, id: Id)
    ensures FindById(cats, id).Some? <==> HasCategory(cats, id)
  {
    if HasCategory(cats, id) {
      var c :| c in cats && c.id == id;
    }
  }

  predicate UniqueIds(cats: seq<Category>) {
    forall i, j :: 0 <= i < j < |cats| ==> cats[i].id != cats[j].id
  }

  predicate UniqueTransactionIds(ts: seq<Transaction>) {
    forall i, j :: 0 <= i < j < |ts| ==> ts[i].id != ts[j].id
  }

  /** Stored timestamps are reduced to calendar days. */
  predicate CalendarDates(ts: seq<Transaction>) {
    forall t :: t in ts ==> IsCalendarDate(t.date)
  }

  /** Every transaction refers to a stored category: what the schema's
      relation from a transaction to its category guarantees. */
  predicate ReferencesResolve(cats: seq<Category>, ts: seq<Transaction>) {
    forall t :: t in ts ==> HasCategory(cats, t.categoryId)
  }

  // ---------------------------------------------------------------------
  // Sums: `filter(t => t.type === type).reduce((sum, t) => sum + t.amount, 0)`
  // ---------------------------------------------------------------------

  function Sum(ts: seq<Transaction>): int {
    if ts == [] then 0 else ts[0].amount + Sum(ts[1..])
  }

  function OfType(ts: seq<Transaction>, kind: string): seq<Transaction> {
    if ts == [] then []
    else (if ts[0].kind == kind then [ts[0]] else []) + OfType(ts[1..], kind)
  }

  /** `filter` keeps exactly the records of the type. */
  lemma {:induction false} OfTypeMembers(ts: seq<Transaction>, kind: string)
    ensures forall t :: t in OfType(ts, kind) <==> t in ts && t.kind == kind
    decreases |ts|
  {
    if ts != [] {
      OfTypeMembers(ts[1..], kind);
      assert ts == [ts[0]] + ts[1..];
    }
  }

  function TypeTotal(ts: seq<Transaction>, kind: string): int {
    Sum(OfType(ts, kind))
  }

  lemma {:induction false} SumAppend(a: seq<Transaction>, b: seq<Transaction>)
    ensures Sum(a + b) == Sum(a) + Sum(b)
    decreases |a|
  {
    if a != [] {
      assert (a + b)[0] == a[0] && (a + b)[1..] == a[1..] + b;
      SumAppend(a[1..], b);
    } else {
      assert a + b == b;
    }
  }

  lemma {:induction false} OfTypeAppend(a: seq<Transaction>, b: seq<Transaction>, kind: string)
    ensures OfType(a + b, kind) == OfType(a, kind) + OfType(b, kind)
    decreases |a|
  {
    if a != [] {
      assert (a + b)[0] == a[0] && (a + b)[1..] == a[1..] + b;
      OfTypeAppend(a[1..], b, kind);
    } else {
      assert a + b == b;
    }
  }

  /** The type totals change by one record's amount when a record is added. */
  lemma TypeTotalAppend(ts: seq<Transaction>, t: Transaction, kind: string)
    ensures TypeTotal(ts + [t], kind) == TypeTotal(ts, kind) + (if t.kind == kind then t.amount else 0)
  {
    OfTypeAppend(ts, [t], kind);
    SumAppend(OfType(ts, kind), OfType([t], kind));
  }

  /** Where every record is income or expense, the two totals add up to the sum of all amounts. */
  lemma {:induction false} TypeTotalsPartition(ts: seq<Transaction>)
    requires forall t :: t in ts ==> IsTransactionType(t.kind)
    ensures TypeTotal(ts, INCOME) + TypeTotal(ts, EXPENSE) == Sum(ts)
    decreases |ts|
  {
    if ts != [] {
      assert ts[0] in ts;
      var rest := ts[1..];
      TypeTotalsPartition(rest);
      var head := [ts[0]];
      assert ts == head + rest;
      OfTypeAppend(head, rest, INCOME);
      OfTypeAppend(head, rest, EXPENSE);
      SumAppend(OfType(head, INCOME), OfType(rest, INCOME));
      SumAppend(OfType(head, EXPENSE), OfType(rest, EXPENSE));
      SumAppend(head, rest);
    }
  }

  /** Income, expense and balance of one list of transactions. */
  datatype Figures = Figures(income: int, expense: int, balance: int)

  function FiguresOf(ts: seq<Transaction>): Figures {
    var income := TypeTotal(ts, INCOME);
    var expense := TypeTotal(ts, EXPENSE);
    Figures(income, expense, income - expense)
  }

  /** The transactions whose day lies in the queried range (`date: { gte, lte }`). */
  function InDateRange(ts: seq<Transaction>, r: Range): seq<Transaction> {
    if ts == [] then []
    else (if InRange(ts[0].date, r) then [ts[0]] else []) + InDateRange(ts[1..], r)
  }

  /** The query keeps exactly the records whose day is in the range. */
  lemma {:induction false} InDateRangeMembers(ts: seq<Transaction>, r: Range)
    ensures forall t :: t in InDateRange(ts, r) <==> t in ts && InRange(t.date, r)
    decreases |ts|
  {
    if ts != [] {
      InDateRangeMembers(ts[1..], r);
      assert ts == [ts[0]] + ts[1..];
    }
  }

  // ---------------------------------------------------------------------
  // Orderings
  // ---------------------------------------------------------------------

  /** `orderBy: { date: 'desc' }`. */
  function NewestFirst(): (le: (Transaction, Transaction) -> bool) {
    (a: Transaction, b: Transaction) => DateLe(b.date, a.date)
  }

  lemma NewestFirstIsPreorder()
    ensures TotalPreorder(NewestFirst())
  {
  }

  /** The store's `findMany({ orderBy: { date: 'desc' } })`: newest first, the
      same records. */
  function ByDateDesc(ts: seq<Transaction>): (r: seq<Transaction>)
    ensures multiset(r) == multiset(ts)
    ensures forall i, j :: 0 <= i < j < |r| ==> DateLe(r[j].date, r[i].date)
  {
    NewestFirstIsPreorder();
    SortSorted(ts, NewestFirst());
    Sort(ts, NewestFirst())
  }

  // ---------------------------------------------------------------------
  // The store
  // ---------------------------------------------------------------------

  /** The database: the category and transaction tables, and the source of fresh ids. */
  class Store {
    var categories: seq<Category>
    var transactions: seq<Transaction>
    var nextId: Id

    ghost predicate Valid()
      reads this
    {
      UniqueIds(categories) && UniqueTransactionIds(transactions)
      && (forall c :: c in categories ==> c.id < nextId)
      && (forall t :: t in transactions ==> t.id < nextId)
      && CalendarDates(transactions)
    }

    constructor (cats: seq<Category>, ts: seq<Transaction>, next: Id)
      requires UniqueIds(cats) && UniqueTransactionIds(ts)
      requires forall c :: c in cats ==> c.id < next
      requires forall t :: t in ts ==> t.id < next
      requires CalendarDates(ts)
      ensures Valid()
      ensures categories == cats && transactions == ts && nextId == next
    {
      categories, transactions, nextId := cats, ts, next;
    }

    method FreshId() returns (id: Id)
      requires Valid()
      modifies this`nextId
      ensures Valid()
      ensures id == old(nextId) && nextId == id + 1
    {
      id := nextId;
      nextId := nextId + 1;
    }

    /** `category.create`: a new record with a fresh id, appended. */
    method CreateCategory(name: string, kind: string, color: string, isDefault: bool) returns (c: Category)
      requires Valid()
      modifies this
      ensures Valid()
      ensures c == Category(old(nextId), name, kind, color, isDefault)
      ensures categories == old(categories) + [c]
      ensures transactions == old(transactions) && nextId == old(nextId) + 1
    {
      var id := FreshId();
      c := Category(id, name, kind, color, isDefault);
      categories := categories + [c];
    }

    /** `category.update` of the record at index `i`; its id stays. */
    method UpdateCategory(i: nat, name: string, kind: string, color: string, isDefault: bool)
      requires Valid() && i < |categories|
      modifies this`categories
      ensures Valid()
      ensures categories == old(categories)[i := Category(old(categories)[i].id, name, kind, color, isDefault)]
    {
      categories := categories[i := Category(categories[i].id, name, kind, color, isDefault)];
      assert forall j :: 0 <= j < |categories| ==> categories[j].id == old(categories)[j].id;
      assert forall c :: c in categories ==> c in old(categories) || c == categories[i];
    }

    /** `transaction.create`: fails, changing nothing, when `categoryId` names
        no stored category (the relation's foreign key). */
    method CreateTransaction(kind: string, amount: int, date: Date, categoryId: Id, memo: string)
      returns (r: Option<Transaction>)
      requires Valid() && IsCalendarDate(date)
      modifies this
      ensures Valid()
      ensures r.Some? <==> HasCategory(old(categories), categoryId)
      ensures r.Some? ==>
        && r.value == Transaction(old(nextId), kind, amount, date, categoryId, memo)
        && transactions == old(transactions) + [r.value] && nextId == old(nextId) + 1
      ensures r.None? ==> transactions == old(transactions) && nextId == old(nextId)
      ensures categories == old(categories)
    {
      var found := FindById(categories, categoryId);
      if found.None? {
        return None;
      }
      var id := FreshId();
      var t := Transaction(id, kind, amount, date, categoryId, memo);
      transactions := transactions + [t];
      r := Some(t);
    }

    /** `transaction.deleteMany({})`. */
    method DeleteAllTransactions()
      requires Valid()
      modifies this`transactions
      ensures Valid() && transactions == []
    {
      transactions := [];
    }

    /** `category.deleteMany({ where: { isDefault: false } })`: the defaults
        stay, in order. The relation from a transaction to its category
        restricts deletion: while a stored transaction is filed under a
        non-default category the call fails and deletes nothing. */
    method DeleteNonDefaultCategories() returns (ok: bool)
      requires Valid()
      modifies this`categories
      ensures Valid()
      ensures ok <==> !InUseNonDefault(old(categories), transactions)
      ensures ok ==> categories == Defaults(old(categories))
      ensures !ok ==> categories == old(categories)
    {
      if exists t, c :: t in transactions && c in categories && !c.isDefault && c.id == t.categoryId {
        return false;
      }
      DefaultsKeepIds(categories);
      categories := Defaults(categories);
      ok := true;
    }
  }

  /** Some transaction is filed under a category that is not a default. */
  predicate InUseNonDefault(cats: seq<Category>, ts: seq<Transaction>) {
    exists t, c :: t in ts && c in cats && !c.isDefault && c.id == t.categoryId
  }

  function Defaults(cats: seq<Category>): (r: seq<Category>)
    ensures forall c :: c in r <==> c in cats && c.isDefault
  {
    if cats == [] then []
    else (if cats[0].isDefault then [cats[0]] else []) + Defaults(cats[1..])
  }

  lemma {:induction false} DefaultsKeepIds(cats: seq<Category>)
    requires UniqueIds(cats)
    ensures UniqueIds(Defaults(cats))
    decreases |cats|
  {
    if cats != [] {
      DefaultsKeepIds(cats[1..]);
      var rest := Defaults(cats[1..]);
      assert forall c :: c in rest ==> c in cats[1..];
    }
  }
}
