/** Category settings (app/src/app/api/settings/categories/route.ts): listing
    the categories of one type, defaults first, and creating a user category
    after a chain of checks that keeps (name, type) unique. */
module CategorySettings {
  import opened Options
  import opened Text
  import opened Sorting
  import opened Ledger

  // ---------------------------------------------------------------------
  // GET
  // ---------------------------------------------------------------------

  /** `orderBy: [{ isDefault: 'desc' }, { name: 'asc' }]`, names compared code
      point by code point. */
  function DefaultsThenName(): (le: (Category, Category) -> bool) {
    (a: Category, b: Category) =>
      (a.isDefault && !b.isDefault) || (a.isDefault == b.isDefault && LexLe(a.name, b.name))
  }

  lemma DefaultsThenNameIsPreorder()
    ensures TotalPreorder(DefaultsThenName())
  {
    var le := DefaultsThenName();
    forall a: Category, b: Category ensures le(a, b) || le(b, a) {
      LexLeTotal(a.name, b.name);
    }
    forall a: Category, b: Category, c: Category | le(a, b) && le(b, c) ensures le(a, c) {
      if a.isDefault == b.isDefault == c.isDefault {
        LexLeTransitive(a.name, b.name, c.name);
      }
    }
  }

  /** `where: { type }`. */
  function OfKind(cats: seq<Category>, kind: string): (r: seq<Category>)
    ensures forall c :: c in r <==> c in cats && c.kind == kind
    ensures multiset(r) <= multiset(cats)
    ensures forall c :: multiset(r)[c] == if c.kind == kind then multiset(cats)[c] else 0
  {
    if cats == [] then []
    else
      assert cats == [cats[0]] + cats[1..];
      (if cats[0].kind == kind then [cats[0]] else []) + OfKind(cats[1..], kind)
  }

  /** `GET ?type=`: `None` is the 400 answer for a type other than income or
      expense; otherwise the categories of that type, defaults first and each
      group by name. */
  function ListCategories(cats: seq<Category>, kind: Option<string>): (r: Option<seq<Category>>)
    ensures r.Some? <==> kind.Some? && IsTransactionType(kind.value)
    ensures r.Some? ==> multiset(r.value) == multiset(OfKind(cats, kind.value))
    ensures r.Some? ==> forall c :: c in r.value <==> c in cats && c.kind == kind.value
    ensures r.Some? ==> SortedBy(r.value, DefaultsThenName())
  {
    if kind.None? || !IsTransactionType(kind.value) then None
    else
      var picked := OfKind(cats, kind.value);
      DefaultsThenNameIsPreorder();
      SortSorted(picked, DefaultsThenName());
      var sorted := Sort(picked, DefaultsThenName());
      assert forall c :: c in sorted <==> c in multiset(picked);
      Some(sorted)
  }

  /** In a listing, no user category comes before a default one, and within
      each group names ascend. */
  lemma ListingOrder(cats: seq<Category>, kind: string, i: nat, j: nat)
    requires IsTransactionType(kind)
    requires i < j < |ListCategories(cats, Some(kind)).value|
    ensures var r := ListCategories(cats, Some(kind)).value;
      && (r[j].isDefault ==> r[i].isDefault)
      && (r[i].isDefault == r[j].isDefault ==> LexLe(r[i].name, r[j].name))
  {
    var r := ListCategories(cats, Some(kind)).value;
    assert DefaultsThenName()(r[i], r[j]);
  }

  // ---------------------------------------------------------------------
  // POST
  // ---------------------------------------------------------------------

  /** The 400 answers, in the order they are checked. */
  datatype CategoryError = NameRequired | BadType | ColorRequired | DuplicateName

  /** The validation chain; `None` fields are missing from the body, and an
      empty string is as falsy as a missing one. */
  function Rejection(cats: seq<Category>, name: Option<string>, kind: Option<string>, color: Option<string>)
    : (r: Option<CategoryError>)
    ensures r.None? <==>
      && name.Some? && Trim(name.value) != ""
      && kind.Some? && IsTransactionType(kind.value)
      && color.Some? && color.value != ""
      && !NameTaken(cats, Trim(name.value), kind.value)
    ensures r == Some(NameRequired) <==> name.None? || Trim(name.value) == ""
    ensures r == Some(DuplicateName) ==> name.Some? && kind.Some? && NameTaken(cats, Trim(name.value), kind.value)
  {
    if name.None? || Trim(name.value) == "" then Some(NameRequired)
    else if kind.None? || !IsTransactionType(kind.value) then Some(BadType)
    else if color.None? || color.value == "" then Some(ColorRequired)
    else if FindNamed(cats, kind.value, Trim(name.value)).Some? then Some(DuplicateName)
    else None
  }

  predicate NameTaken(cats: seq<Category>, name: string, kind: string) {
    exists c :: c in cats && c.name == name && c.kind == kind
  }

  /** No two categories share a name within a type. */
  predicate NamesUnique(cats: seq<Category>) {
    forall i, j :: 0 <= i < j < |cats| ==> !(cats[i].name == cats[j].name && cats[i].kind == cats[j].kind)
  }

  /** The record a successful POST adds: the trimmed name, never a default. */
  function NewCategory(id: Id, name: string, kind: string, color: string): (c: Category)
    ensures !c.isDefault && c.id == id
  {
    Category(id, Trim(name), kind, color, false)
  }

  /** An accepted POST keeps names unique within a type. */
  lemma AcceptedKeepsNamesUnique(cats: seq<Category>, id: Id, name: string, kind: string, color: string)
    requires NamesUnique(cats)
    requires Rejection(cats, Some(name), Some(kind), Some(color)).None?
    ensures NamesUnique(cats + [NewCategory(id, name, kind, color)])
  {
    var r := cats + [NewCategory(id, name, kind, color)];
    forall i, j | 0 <= i < j < |r| ensures !(r[i].name == r[j].name && r[i].kind == r[j].kind) {
      if j == |cats| {
        assert r[i] in cats;
      }
    }
  }

  datatype PostResult = Rejected(error: CategoryError) | Created(category: Category)

  /** `POST`: rejects without touching the store, or appends exactly one category. */
  method PostCategory(store: Store, name: Option<string>, kind: Option<string>, color: Option<string>)
    returns (result: PostResult)
    requires store.Valid()
    modifies store
    ensures store.Valid()
    ensures result.Rejected? <==> Rejection(old(store.categories), name, kind, color).Some?
    ensures result.Rejected? ==>
      result.error == Rejection(old(store.categories), name, kind, color).value && unchanged(store)
    ensures result.Created? ==>
      && result.category == NewCategory(old(store.nextId), name.value, kind.value, color.value)
      && store.categories == old(store.categories) + [result.category]
      && store.transactions == old(store.transactions)
    ensures NamesUnique(old(store.categories)) ==> NamesUnique(store.categories)
  {
    var rejection := Rejection(store.categories, name, kind, color);
    if rejection.Some? {
      return Rejected(rejection.value);
    }
    if NamesUnique(store.categories) {
      AcceptedKeepsNamesUnique(store.categories, store.nextId, name.value, kind.value, color.value);
    }
    var c := store.CreateCategory(Trim(name.value), kind.value, color.value, false);
    result := Created(c);
  }
}
