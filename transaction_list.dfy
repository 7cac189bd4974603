/** The list of records (app/src/components/money/TransactionList.tsx): the
    search and the two filters over the records `GET /api/transactions`
    returns, and the values the edit form is filled with. */
module TransactionList {
  import opened Options
  import opened Text
  import opened Dates
  import opened Ledger

  /** A record as the list receives it: the stored fields with the category
      joined by the query's `include`. The view reads both the category and
      the memo through optional chaining, so either may be missing. */
  datatype ListItem = ListItem(
    id: Id, kind: string, amount: int, date: Date, categoryId: Id,
    memo: Option<string>, category: Option<Category>)

  /** The record as the endpoint returns it from the store. */
  function Listed(cats: seq<Category>, t: Transaction): (x: ListItem)
    ensures x.category.Some? <==> HasCategory(cats, t.categoryId)
    ensures x.category.Some? ==> x.category.value in cats && x.category.value.id == t.categoryId
  {
    ListItem(t.id, t.kind, t.amount, t.date, t.categoryId, Some(t.memo), FindById(cats, t.categoryId))
  }

  function ListedAll(cats: seq<Category>, ts: seq<Transaction>): (xs: seq<ListItem>)
    ensures |xs| == |ts|
    ensures forall i :: 0 <= i < |ts| ==> xs[i] == Listed(cats, ts[i])
  {
    if ts == [] then [] else [Listed(cats, ts[0])] + ListedAll(cats, ts[1..])
  }

  /** The type selector: every record, or only those of one type. */
  datatype TypeFilter = AllTypes | OnlyType(kind: string)

  /** The category selector: every record, or only those of one category. */
  datatype CategoryFilter = AllCategories | OnlyCategory(id: Id)

  /** The lower-cased memo or category name contains the lower-cased search
      text; a record with neither a memo nor a category never matches. */
  predicate MatchesSearch(x: ListItem, term: string) {
    || (x.memo.Some? && Contains(ToLower(x.memo.value), ToLower(term)))
    || (x.category.Some? && Contains(ToLower(x.category.value.name), ToLower(term)))
  }

  predicate MatchesType(x: ListItem, f: TypeFilter) {
    f.AllTypes? || x.kind == f.kind
  }

  predicate MatchesCategory(x: ListItem, f: CategoryFilter) {
    f.AllCategories? || (x.category.Some? && x.category.value.id == f.id)
  }

  predicate Shown(x: ListItem, term: string, ft: TypeFilter, fc: CategoryFilter) {
    MatchesSearch(x, term) && MatchesType(x, ft) && MatchesCategory(x, fc)
  }

  /** `filteredTransactions`: the shown records, in list order. */
  function Filtered(xs: seq<ListItem>, term: string, ft: TypeFilter, fc: CategoryFilter): (r: seq<ListItem>)
    ensures |r| <= |xs|
  {
    if xs == [] then []
    else (if Shown(xs[0], term, ft, fc) then [xs[0]] else []) + Filtered(xs[1..], term, ft, fc)
  }

  /** A record is in the filtered list exactly when it is in the list and shown. */
  lemma {:induction false} FilteredMembers(xs: seq<ListItem>, term: string, ft: TypeFilter, fc: CategoryFilter)
    ensures forall x :: x in Filtered(xs, term, ft, fc) <==> x in xs && Shown(x, term, ft, fc)
  {
    if xs != [] {
      FilteredMembers(xs[1..], term, ft, fc);
      assert xs == [xs[0]] + xs[1..];
    }
  }

  /** Filtering keeps the list order: it distributes over concatenation. */
  lemma {:induction false} FilteredAppend(a: seq<ListItem>, b: seq<ListItem>, term: string, ft: TypeFilter, fc: CategoryFilter)
    ensures Filtered(a + b, term, ft, fc) == Filtered(a, term, ft, fc) + Filtered(b, term, ft, fc)
  {
    if a != [] {
      var head := if Shown(a[0], term, ft, fc) then [a[0]] else [];
      assert (a + b)[0] == a[0];
      assert (a + b)[1..] == a[1..] + b;
      assert Filtered(a + b, term, ft, fc) == head + Filtered(a[1..] + b, term, ft, fc);
      assert Filtered(a, term, ft, fc) == head + Filtered(a[1..], term, ft, fc);
      FilteredAppend(a[1..], b, term, ft, fc);
    } else {
      assert a + b == b;
    }
  }

  /** A list whose every record is shown is kept whole. */
  lemma {:induction false} FilteredKeepsShown(xs: seq<ListItem>, term: string, ft: TypeFilter, fc: CategoryFilter)
    requires forall i :: 0 <= i < |xs| ==> Shown(xs[i], term, ft, fc)
    ensures Filtered(xs, term, ft, fc) == xs
  {
    if xs != [] {
      FilteredKeepsShown(xs[1..], term, ft, fc);
    }
  }

  /** The empty search text matches every record that has a memo or a category. */
  lemma EmptySearch(x: ListItem)
    ensures MatchesSearch(x, "") <==> x.memo.Some? || x.category.Some?
  {
    if x.memo.Some? {
      assert IsPrefix("", ToLower(x.memo.value));
    }
    if x.category.Some? {
      assert IsPrefix("", ToLower(x.category.value.name));
    }
  }

  /** With no search text and both selectors on "all", the list shows every
      stored record, in the order the endpoint returns them. */
  lemma UnfilteredShowsAll(cats: seq<Category>, ts: seq<Transaction>)
    ensures Filtered(ListedAll(cats, ts), "", AllTypes, AllCategories) == ListedAll(cats, ts)
  {
    var xs := ListedAll(cats, ts);
    forall i | 0 <= i < |xs|
      ensures Shown(xs[i], "", AllTypes, AllCategories)
    {
      EmptySearch(xs[i]);
    }
    FilteredKeepsShown(xs, "", AllTypes, AllCategories);
  }

  /** Selecting a category shows only that category's records, and all of
      them whose search and type match, when the categories resolve. */
  lemma CategorySelection(cats: seq<Category>, ts: seq<Transaction>, term: string, ft: TypeFilter, id: Id)
    requires ReferencesResolve(cats, ts)
    ensures forall t :: t in ts ==>
      (Listed(cats, t) in Filtered(ListedAll(cats, ts), term, ft, OnlyCategory(id)) <==>
       t.categoryId == id && MatchesSearch(Listed(cats, t), term) && MatchesType(Listed(cats, t), ft))
  {
    var xs := ListedAll(cats, ts);
    FilteredMembers(xs, term, ft, OnlyCategory(id));
    forall t | t in ts
      ensures Listed(cats, t) in xs
    {
      var i :| 0 <= i < |ts| && ts[i] == t;
      assert xs[i] == Listed(cats, t);
    }
  }

  /** The values the edit form starts from. */
  datatype EditData = EditData(id: Id, kind: string, amount: int, date: string, category: Id, memo: string)

  /** `getEditData`: the day part of the record's ISO timestamp
      (`toISOString().split('T')[0]`), its category id, and its memo with a
      missing one as the empty text. */
  function GetEditData(x: ListItem): (e: EditData)
    requires IsCalendarDate(x.date)
    ensures e.id == x.id && e.kind == x.kind && e.amount == x.amount && e.category == x.categoryId
    ensures e.memo == (if x.memo.Some? then x.memo.value else "")
    ensures e.date == DateString(x.date)
    ensures 0 <= x.date.year <= 9999 ==> ParseDay(e.date) == Some(x.date)
  {
    IsoDayPart(x.date);
    DayReadsBack(x.date);
    EditData(x.id, x.kind, x.amount, Before(IsoTimestamp(x.date), 'T'), x.categoryId,
             if x.memo.Some? then x.memo.value else "")
  }

  lemma DayReadsBack(d: Date)
    requires IsCalendarDate(d)
    ensures 0 <= d.year <= 9999 ==> ParseDay(DateString(d)) == Some(d)
  {
    if 0 <= d.year <= 9999 {
      DateStringRoundTrip(d);
    }
  }
}
