/** Backup restore (app/src/app/api/data-management/restore/route.ts): the
    checks on the uploaded backup, then, inside one database transaction, the
    reconciliation of the backup's categories with the stored ones (building a
    map from backup ids to store ids), the removal of every transaction, and
    the re-creation of each backed-up transaction under a resolved category. */
module Restore {
  import opened Options
  import opened Dates
  import opened Ledger

  // ---------------------------------------------------------------------
  // The backup, as `JSON.parse` leaves it
  // ---------------------------------------------------------------------

  /** A day the engine has read (`new Date(text)`). */
  type CalendarDate = d: Date | IsCalendarDate(d) witness Date(2000, 1, 1)

  /** A top-level list field: missing or falsy, present but not an array, or an array. */
  datatype Field<T> = Absent | NotAList | List(items: seq<T>)

  /** A backed-up category. `None` stands for a field the record lacks. */
  datatype BackupCategory = BackupCategory(
    id: Option<Id>, name: Option<string>, kind: Option<string>,
    color: Option<string>, isDefault: Option<bool>)

  /** How a backed-up transaction names its category: not at all, by a name
      (the old format), or by an embedded object that may carry an id. */
  datatype CategoryRef = NoRef | Named(name: string) | Embedded(id: Option<Id>)

  /** A backed-up transaction. `kind` is `None` when the record has no
      `type`, `amount` when it has no numeric amount, and `date` when the
      engine cannot read it as a date; a missing memo is the empty memo. */
  datatype BackupTransaction = BackupTransaction(
    kind: Option<string>, amount: Option<int>, date: Option<CalendarDate>,
    categoryId: Option<Id>, category: CategoryRef, memo: string)

  /** The parsed file; `version` is empty when it is missing, as it is for
      a JSON number, string or boolean. `Null` is the JSON `null`, whose
      `version` cannot be read. */
  datatype Json =
    | NotJson
    | Null
    | Backup(version: string, transactions: Field<BackupTransaction>, categories: Field<BackupCategory>)

  datatype RestoreResult =
    | NoFile
    | InvalidJson
    | InvalidFormat
    | NoTransactions
    | RestoreFailed
    | Restored(count: nat)

  /** The checks made before the store is touched: the rejection, if any. */
  function PreCheck(file: Option<Json>): (r: Option<RestoreResult>)
    ensures r.None? <==>
      file.Some? && file.value.Backup? && file.value.version != ""
      && file.value.transactions.List? && file.value.transactions.items != []
    ensures r.Some? ==> !r.value.Restored?
    ensures r == Some(RestoreFailed) <==> file == Some(Null)
  {
    if file.None? then Some(NoFile)
    else if file.value.NotJson? then Some(InvalidJson)
    // `backupData.version` throws on `null`; the catch answers 500.
    else if file.value.Null? then Some(RestoreFailed)
    else
      var b := file.value;
      if b.version == "" || b.transactions.Absent? then Some(InvalidFormat)
      else if b.transactions.NotAList? || b.transactions.items == [] then Some(NoTransactions)
      else None
  }

  // ---------------------------------------------------------------------
  // Categories: the old-id -> new-id map
  // ---------------------------------------------------------------------

  /** `findFirst({ where: { name, type, isDefault: true } })`; a missing name
      or type filters nothing. */
  predicate MatchesDefault(c: Category, name: Option<string>, kind: Option<string>) {
    c.isDefault && (name.None? || c.name == name.value) && (kind.None? || c.kind == kind.value)
  }

  function FindDefault(cats: seq<Category>, name: Option<string>, kind: Option<string>): (r: Option<Category>)
    ensures r.Some? ==> r.value in cats && MatchesDefault(r.value, name, kind)
    ensures r.None? ==> forall c :: c in cats ==> !MatchesDefault(c, name, kind)
  {
    if cats == [] then None
    else if MatchesDefault(cats[0], name, kind) then Some(cats[0])
    else FindDefault(cats[1..], name, kind)
  }

  /** The position of the stored category with the given id. */
  function IndexOf(cats: seq<Category>, id: Id): (r: Option<nat>)
    ensures r.Some? ==> r.value < |cats| && cats[r.value].id == id
    ensures r.None? <==> !HasCategory(cats, id)
  {
    if cats == [] then None
    else if cats[0].id == id then Some(0)
    else
      var r := IndexOf(cats[1..], id);
      if r.Some? then Some(r.value + 1) else None
  }

  function Or<T>(v: Option<T>, otherwise: T): T {
    if v.Some? then v.value else otherwise
  }

  /** The `update` half of the upsert: the fields the backup carries replace
      the stored ones; the id stays. */
  function Overwrite(stored: Category, c: BackupCategory): (r: Category)
    ensures r.id == stored.id
  {
    Category(stored.id, Or(c.name, stored.name), Or(c.kind, stored.kind), Or(c.color, stored.color),
             Or(c.isDefault, stored.isDefault))
  }

  const FALLBACK_COLOR: string := "#3B82F6"

  /** `category.color || '#3B82F6'`. */
  function NewColor(color: Option<string>): (r: string)
    ensures r != ""
    ensures color.Some? && color.value != "" ==> r == color.value
  {
    if color.Some? && color.value != "" then color.value else FALLBACK_COLOR
  }

  /** What the upsert by the backup's id does to the store. */
  datatype Upserted = UpsertFailed | Upserted(cats: seq<Category>, next: Id, id: Id)

  /** `category.upsert({ where: { id }, update, create })`. It fails when the
      backup record has no id, or when it must create a category without a
      name or a type. The create does not pass the backup's id: the new
      category gets a fresh one. */
  function UpsertSpec(cats: seq<Category>, next: Id, c: BackupCategory): (r: Upserted)
    ensures r.Upserted? ==> c.id.Some?
  {
    if c.id.None? then UpsertFailed
    else
      var i := IndexOf(cats, c.id.value);
      if i.Some? then Upserted(cats[i.value := Overwrite(cats[i.value], c)], next, c.id.value)
      else if c.name.None? || c.kind.None? then UpsertFailed
      else Upserted(cats + [Category(next, c.name.value, c.kind.value, NewColor(c.color), Or(c.isDefault, false))], next + 1, next)
  }

  /** The categories, the next fresh id and the map after some backup categories. */
  datatype Reconciled = Reconciled(cats: seq<Category>, next: Id, links: map<Id, Id>)

  /** One turn of the category loop. */
  function ReconcileOne(s: Reconciled, c: BackupCategory): Reconciled {
    var existing := if c.isDefault == Some(true) then FindDefault(s.cats, c.name, c.kind) else None;
    if existing.Some? then
      if c.id.Some? then s.(links := s.links[c.id.value := existing.value.id]) else s
    else
      var u := UpsertSpec(s.cats, s.next, c);
      if u.UpsertFailed? then s else Reconciled(u.cats, u.next, s.links[c.id.value := u.id])
  }

  /** The category loop over the first |cs| backup categories. */
  function ReconcileAll(s: Reconciled, cs: seq<BackupCategory>): Reconciled {
    if cs == [] then s else ReconcileOne(ReconcileAll(s, cs[..|cs| - 1]), cs[|cs| - 1])
  }

  /** The whole category phase: it runs only for a non-empty category list,
      after the non-default categories are deleted. */
  function CategoryPhase(cats: seq<Category>, next: Id, field: Field<BackupCategory>): Reconciled {
    if field.List? && field.items != [] then ReconcileAll(Reconciled(Defaults(cats), next, map[]), field.items)
    else Reconciled(cats, next, map[])
  }

  // ---------------------------------------------------------------------
  // Properties of the category phase
  // ---------------------------------------------------------------------

  /** A store id that is present stays present: categories are only updated in place or added. */
  lemma ReconcileOneKeepsIds(s: Reconciled, c: BackupCategory, id: Id)
    requires HasCategory(s.cats, id)
    ensures HasCategory(ReconcileOne(s, c).cats, id)
  {
    var existing := if c.isDefault == Some(true) then FindDefault(s.cats, c.name, c.kind) else None;
    if existing.None? {
      var u := UpsertSpec(s.cats, s.next, c);
      if u.Upserted? {
        var k :| 0 <= k < |s.cats| && s.cats[k].id == id;
        var i := IndexOf(s.cats, c.id.value);
        if i.Some? {
          assert u.cats[k].id == id;
        } else {
          assert u.cats[k] == s.cats[k];
        }
      }
    }
  }

  lemma {:induction false} ReconcileAllKeepsIds(s: Reconciled, cs: seq<BackupCategory>, id: Id)
    requires HasCategory(s.cats, id)
    ensures HasCategory(ReconcileAll(s, cs).cats, id)
    decreases |cs|
  {
    if cs != [] {
      ReconcileAllKeepsIds(s, cs[..|cs| - 1], id);
      ReconcileOneKeepsIds(ReconcileAll(s, cs[..|cs| - 1]), cs[|cs| - 1], id);
    }
  }

  /** Every map entry leads to a stored category. */
  ghost predicate LinksStored(s: Reconciled) {
    forall k :: k in s.links ==> HasCategory(s.cats, s.links[k])
  }

  lemma ReconcileOneLinks(s: Reconciled, c: BackupCategory)
    requires LinksStored(s)
    ensures LinksStored(ReconcileOne(s, c))
  {
    var r := ReconcileOne(s, c);
    forall k | k in r.links ensures HasCategory(r.cats, r.links[k]) {
      if k in s.links && (c.id.None? || k != c.id.value) {
        ReconcileOneKeepsIds(s, c, s.links[k]);
      } else {
        var existing := if c.isDefault == Some(true) then FindDefault(s.cats, c.name, c.kind) else None;
        if existing.None? {
          var u := UpsertSpec(s.cats, s.next, c);
          if u.Upserted? {
            var i := IndexOf(s.cats, c.id.value);
            if i.Some? {
              assert r.cats[i.value].id == c.id.value;
            } else {
              assert r.cats[|r.cats| - 1].id == s.next;
            }
          }
        }
      }
    }
  }

  lemma {:induction false} ReconcileAllLinks(s: Reconciled, cs: seq<BackupCategory>)
    requires LinksStored(s)
    ensures LinksStored(ReconcileAll(s, cs))
    decreases |cs|
  {
    if cs != [] {
      ReconcileAllLinks(s, cs[..|cs| - 1]);
      ReconcileOneLinks(ReconcileAll(s, cs[..|cs| - 1]), cs[|cs| - 1]);
    }
  }

  /** After the category phase every map entry leads to a stored category. */
  lemma CategoryPhaseLinks(cats: seq<Category>, next: Id, field: Field<BackupCategory>)
    ensures LinksStored(CategoryPhase(cats, next, field))
  {
    if field.List? && field.items != [] {
      ReconcileAllLinks(Reconciled(Defaults(cats), next, map[]), field.items);
    }
  }

  /** Default categories are never deleted: the non-default ones may be, and
      the loop only updates or adds. */
  lemma DefaultsSurvive(cats: seq<Category>, next: Id, field: Field<BackupCategory>, d: Category)
    requires d in cats && d.isDefault
    ensures HasCategory(CategoryPhase(cats, next, field).cats, d.id)
  {
    if field.List? && field.items != [] {
      assert d in Defaults(cats);
      ReconcileAllKeepsIds(Reconciled(Defaults(cats), next, map[]), field.items, d.id);
    }
  }

  /** Without a non-empty category list, no category is deleted or changed and the map stays empty. */
  lemma NoCategoryList(cats: seq<Category>, next: Id, field: Field<BackupCategory>)
    requires !(field.List? && field.items != [])
    ensures CategoryPhase(cats, next, field) == Reconciled(cats, next, map[])
  {
  }

  /** An incoming default that matches a stored default by name and type maps
      onto it and changes no category. */
  lemma DefaultMatched(s: Reconciled, c: BackupCategory, existing: Category)
    requires c.isDefault == Some(true) && c.id.Some?
    requires FindDefault(s.cats, c.name, c.kind) == Some(existing)
    ensures ReconcileOne(s, c).cats == s.cats && ReconcileOne(s, c).next == s.next
    ensures ReconcileOne(s, c).links == s.links[c.id.value := existing.id]
    ensures existing in s.cats && existing.isDefault
  {
  }

  /** Any other incoming category whose id is not stored is created with a
      fresh id (not its own), its colour or the fallback colour, and mapped
      to the fresh id. */
  lemma CreatedFromBackup(s: Reconciled, c: BackupCategory)
    requires !(c.isDefault == Some(true) && FindDefault(s.cats, c.name, c.kind).Some?)
    requires c.id.Some? && !HasCategory(s.cats, c.id.value) && c.name.Some? && c.kind.Some?
    ensures var r := ReconcileOne(s, c);
      && r.cats == s.cats + [Category(s.next, c.name.value, c.kind.value, NewColor(c.color), Or(c.isDefault, false))]
      && r.next == s.next + 1
      && r.links == s.links[c.id.value := s.next]
  {
  }

  /** Any other incoming category whose id is stored overwrites that category in place. */
  lemma UpdatedFromBackup(s: Reconciled, c: BackupCategory, i: nat)
    requires !(c.isDefault == Some(true) && FindDefault(s.cats, c.name, c.kind).Some?)
    requires c.id.Some? && i < |s.cats| && s.cats[i].id == c.id.value && UniqueIds(s.cats)
    ensures var r := ReconcileOne(s, c);
      && r.cats == s.cats[i := Overwrite(s.cats[i], c)]
      && r.next == s.next
      && r.links == s.links[c.id.value := c.id.value]
  {
    var j := IndexOf(s.cats, c.id.value);
    assert j.Some? && s.cats[j.value].id == s.cats[i].id;
  }

  /** A failed upsert leaves the categories and the map as they were. */
  lemma UpsertFailureSkipped(s: Reconciled, c: BackupCategory)
    requires !(c.isDefault == Some(true) && FindDefault(s.cats, c.name, c.kind).Some?)
    requires c.id.None? || (!HasCategory(s.cats, c.id.value) && (c.name.None? || c.kind.None?))
    ensures ReconcileOne(s, c) == s
  {
  }

  // ---------------------------------------------------------------------
  // Transactions: which category each is restored under
  // ---------------------------------------------------------------------

  /** `categoryMap.get(id) || id`. */
  function Lookup(links: map<Id, Id>, id: Id): (r: Id)
    ensures id in links ==> r == links[id]
    ensures id !in links ==> r == id
  {
    if id in links then links[id] else id
  }

  /** The id of the first stored default `その他` of the type, if there is
      one; a record without a type leaves the type unfiltered. */
  function DefaultOtherId(cats: seq<Category>, kind: Option<string>): (r: Option<Id>)
    ensures r.Some? ==> exists c :: c in cats && MatchesDefault(c, Some(OTHER), kind) && c.id == r.value
    ensures r.None? ==> forall c :: c in cats ==> !MatchesDefault(c, Some(OTHER), kind)
    ensures kind.Some? ==> r.Some? == FindDefaultOther(cats, kind.value).Some?
  {
    var d := FindDefault(cats, Some(OTHER), kind);
    if d.Some? then Some(d.value.id) else None
  }

  /** The backup's own category id: `categoryId`, else the id of an embedded category object. */
  function IncomingId(t: BackupTransaction): Option<Id> {
    if t.categoryId.Some? then t.categoryId
    else if t.category.Embedded? then t.category.id
    else None
  }

  /** The `if` chain on `categoryId`, then the fallback to the type's default
      `その他`. An old-format category name selects that default too. */
  function RestoreCategoryId(links: map<Id, Id>, cats: seq<Category>, t: BackupTransaction): (r: Option<Id>)
    ensures IncomingId(t).Some? ==> r == Some(Lookup(links, IncomingId(t).value))
    ensures IncomingId(t).None? ==> r == DefaultOtherId(cats, t.kind)
    ensures r.None? <==> IncomingId(t).None? && DefaultOtherId(cats, t.kind).None?
  {
    var preferred :=
      if t.categoryId.Some? then Some(Lookup(links, t.categoryId.value))
      else match t.category
        case NoRef => None
        case Named(name) => if name != "" then DefaultOtherId(cats, t.kind) else None
        case Embedded(id) => if id.Some? then Some(Lookup(links, id.value)) else None;
    if preferred.Some? then preferred else DefaultOtherId(cats, t.kind)
  }

  /** Whether `transaction.create` succeeds: the record has a type, a
      numeric amount and a date that was read, and the resolved category
      exists (the foreign key). */
  predicate Restorable(links: map<Id, Id>, cats: seq<Category>, t: BackupTransaction) {
    var id := RestoreCategoryId(links, cats, t);
    t.kind.Some? && t.amount.Some? && t.date.Some? && id.Some? && HasCategory(cats, id.value)
  }

  /** The transactions the loop creates, with ids counted up from `next`. */
  function RestoredAll(links: map<Id, Id>, cats: seq<Category>, items: seq<BackupTransaction>, next: Id): (ts: seq<Transaction>)
    ensures |ts| <= |items|
  {
    if items == [] then []
    else
      var before := RestoredAll(links, cats, items[..|items| - 1], next);
      var t := items[|items| - 1];
      if Restorable(links, cats, t) then
        before + [Transaction(next + |before|, t.kind.value, t.amount.value, t.date.value, RestoreCategoryId(links, cats, t).value, t.memo)]
      else before
  }

  /** Every restored transaction refers to a stored category, has a calendar
      day and a fresh id, and the count is the number of restorable records. */
  lemma {:induction false} RestoredFacts(links: map<Id, Id>, cats: seq<Category>, items: seq<BackupTransaction>, next: Id)
    ensures var ts := RestoredAll(links, cats, items, next);
      && ReferencesResolve(cats, ts) && CalendarDates(ts)
      && (forall k :: 0 <= k < |ts| ==> ts[k].id == next + k)
      && |ts| == Count(links, cats, items)
    decreases |items|
  {
    if items != [] {
      RestoredFacts(links, cats, items[..|items| - 1], next);
    }
  }

  /** A record without a type or a numeric amount makes `transaction.create`
      throw; the per-record `catch` skips it and the loop goes on. */
  lemma IncompleteSkipped(links: map<Id, Id>, cats: seq<Category>, items: seq<BackupTransaction>, t: BackupTransaction, next: Id)
    requires t.kind.None? || t.amount.None?
    ensures RestoredAll(links, cats, items + [t], next) == RestoredAll(links, cats, items, next)
    ensures Count(links, cats, items + [t]) == Count(links, cats, items)
  {
    assert (items + [t])[..|items|] == items;
  }

  /** The number of records `transaction.create` accepts. */
  function Count(links: map<Id, Id>, cats: seq<Category>, items: seq<BackupTransaction>): nat {
    if items == [] then 0
    else Count(links, cats, items[..|items| - 1]) + (if Restorable(links, cats, items[|items| - 1]) then 1 else 0)
  }

  /** With both defaults stored, every record whose date was read and whose
      category is not a dangling backup id is restored. */
  lemma {:induction false} DefaultsRestoreAll(links: map<Id, Id>, cats: seq<Category>, items: seq<BackupTransaction>)
    requires forall t :: t in items ==>
      t.kind.Some? && t.amount.Some? && t.date.Some? && IncomingId(t).None? && FindDefaultOther(cats, t.kind.value).Some?
    ensures Count(links, cats, items) == |items|
    decreases |items|
  {
    if items != [] {
      var t := items[|items| - 1];
      assert t in items;
      assert forall u :: u in items[..|items| - 1] ==> u in items;
      DefaultsRestoreAll(links, cats, items[..|items| - 1]);
      var d := FindDefault(cats, Some(OTHER), t.kind).value;
      assert HasCategory(cats, d.id);
    }
  }

  // ---------------------------------------------------------------------
  // The handler
  // ---------------------------------------------------------------------

  /** The category phase cannot start: the backup has categories, so the
      non-default ones must go, but a stored transaction still uses one. */
  predicate Blocked(cats: seq<Category>, ts: seq<Transaction>, field: Field<BackupCategory>) {
    field.List? && field.items != [] && InUseNonDefault(cats, ts)
  }

  /** `POST`. The refused deletion is the first change the database
      transaction attempts, so its rollback leaves the store as it was. */
  method RestoreBackup(store: Store, file: Option<Json>) returns (result: RestoreResult)
    requires store.Valid()
    modifies store
    ensures store.Valid()
    ensures PreCheck(file).Some? ==> result == PreCheck(file).value && unchanged(store)
    ensures PreCheck(file).None? && Blocked(old(store.categories), old(store.transactions), file.value.categories) ==>
      result == RestoreFailed && unchanged(store)
    ensures PreCheck(file).None? && !Blocked(old(store.categories), old(store.transactions), file.value.categories) ==>
      var phase := CategoryPhase(old(store.categories), old(store.nextId), file.value.categories);
      var restored := RestoredAll(phase.links, phase.cats, file.value.transactions.items, phase.next);
      && store.categories == phase.cats
      && store.transactions == restored
      && store.nextId == phase.next + |restored|
      && result == Restored(|restored|)
  {
    var check := PreCheck(file);
    if check.Some? {
      return check.value;
    }
    var backup := file.value;
    var links: map<Id, Id> := map[];
    if backup.categories.List? && |backup.categories.items| > 0 {
      var deleted := store.DeleteNonDefaultCategories();
      if !deleted {
        return RestoreFailed;
      }
      links := ReconcileCategories(store, backup.categories.items);
    }
    store.DeleteAllTransactions();
    var count := RestoreTransactions(store, links, backup.transactions.items);
    result := Restored(count);
  }

  /** The `for (const category of backupData.categories)` loop. */
  method ReconcileCategories(store: Store, items: seq<BackupCategory>) returns (links: map<Id, Id>)
    requires store.Valid()
    modifies store
    ensures store.Valid() && store.transactions == old(store.transactions)
    ensures Reconciled(store.categories, store.nextId, links)
      == ReconcileAll(Reconciled(old(store.categories), old(store.nextId), map[]), items)
  {
    ghost var start := Reconciled(store.categories, store.nextId, map[]);
    links := map[];
    var i := 0;
    while i < |items|
      invariant 0 <= i <= |items|
      invariant store.Valid() && store.transactions == old(store.transactions)
      invariant Reconciled(store.categories, store.nextId, links) == ReconcileAll(start, items[..i])
    {
      assert items[..i + 1][..i] == items[..i];
      links := ReconcileCategory(store, links, items[i]);
      i := i + 1;
    }
    assert items[..|items|] == items;
  }

  /** One turn of the category loop. */
  method ReconcileCategory(store: Store, links: map<Id, Id>, c: BackupCategory) returns (links': map<Id, Id>)
    requires store.Valid()
    modifies store
    ensures store.Valid() && store.transactions == old(store.transactions)
    ensures Reconciled(store.categories, store.nextId, links')
      == ReconcileOne(Reconciled(old(store.categories), old(store.nextId), links), c)
  {
    if c.isDefault == Some(true) {
      var existing := FindDefault(store.categories, c.name, c.kind);
      if existing.Some? {
        links' := if c.id.Some? then links[c.id.value := existing.value.id] else links;
        return;
      }
    }
    var id := Upsert(store, c);
    links' := if id.Some? then links[c.id.value := id.value] else links;
  }

  /** `category.upsert` inside its `try`: the id the store returns, or `None` when it throws. */
  method Upsert(store: Store, c: BackupCategory) returns (id: Option<Id>)
    requires store.Valid()
    modifies store
    ensures store.Valid() && store.transactions == old(store.transactions)
    ensures var u := UpsertSpec(old(store.categories), old(store.nextId), c);
      && (u.UpsertFailed? ==> id.None? && store.categories == old(store.categories) && store.nextId == old(store.nextId))
      && (u.Upserted? ==> id == Some(u.id) && store.categories == u.cats && store.nextId == u.next)
  {
    if c.id.None? {
      return None;
    }
    var i := IndexOf(store.categories, c.id.value);
    if i.Some? {
      var updated := Overwrite(store.categories[i.value], c);
      store.UpdateCategory(i.value, updated.name, updated.kind, updated.color, updated.isDefault);
      return Some(c.id.value);
    }
    if c.name.None? || c.kind.None? {
      return None;
    }
    var created := store.CreateCategory(c.name.value, c.kind.value, NewColor(c.color), Or(c.isDefault, false));
    id := Some(created.id);
  }

  /** The state of the transaction loop after the first `k` records. */
  ghost predicate Progress(store: Store, links: map<Id, Id>, cats: seq<Category>, items: seq<BackupTransaction>,
                           k: nat, first: Id, count: nat)
    reads store
    requires k <= |items|
  {
    && store.Valid() && store.categories == cats
    && store.transactions == RestoredAll(links, cats, items[..k], first)
    && count == |store.transactions|
    && store.nextId == first + count
  }

  /** The `for (const transaction of backupData.transactions)` loop, run on an
      empty transaction table. */
  method RestoreTransactions(store: Store, links: map<Id, Id>, items: seq<BackupTransaction>) returns (count: nat)
    requires store.Valid() && store.transactions == []
    modifies store
    ensures store.Valid() && store.categories == old(store.categories)
    ensures store.transactions == RestoredAll(links, old(store.categories), items, old(store.nextId))
    ensures count == |store.transactions| && store.nextId == old(store.nextId) + count
  {
    var cats := store.categories;
    ghost var first := store.nextId;
    count := 0;
    var k := 0;
    while k < |items|
      invariant 0 <= k <= |items|
      invariant Progress(store, links, cats, items, k, first, count)
    {
      count := RestoreNext(store, links, cats, items, k, first, count);
      k := k + 1;
    }
    assert items[..|items|] == items;
  }

  /** One turn of the transaction loop. */
  method RestoreNext(store: Store, links: map<Id, Id>, cats: seq<Category>, items: seq<BackupTransaction>,
                     k: nat, ghost first: Id, count: nat) returns (count': nat)
    requires k < |items|
    requires Progress(store, links, cats, items, k, first, count)
    modifies store
    ensures Progress(store, links, cats, items, k + 1, first, count')
  {
    assert items[..k + 1][..k] == items[..k];
    var created := RestoreTransaction(store, links, items[k]);
    count' := if created then count + 1 else count;
  }

  /** The `try` block for one record: resolve the category, then create. */
  method RestoreTransaction(store: Store, links: map<Id, Id>, t: BackupTransaction) returns (created: bool)
    requires store.Valid()
    modifies store
    ensures store.Valid() && store.categories == old(store.categories)
    ensures created <==> Restorable(links, old(store.categories), t)
    ensures created ==>
      && store.transactions == old(store.transactions)
        + [Transaction(old(store.nextId), t.kind.value, t.amount.value, t.date.value, RestoreCategoryId(links, old(store.categories), t).value, t.memo)]
      && store.nextId == old(store.nextId) + 1
    ensures !created ==> store.transactions == old(store.transactions) && store.nextId == old(store.nextId)
  {
    var categoryId: Option<Id> := None;
    if t.categoryId.Some? {
      categoryId := Some(Lookup(links, t.categoryId.value));
    } else if t.category.Named? && t.category.name != "" {
      categoryId := DefaultOtherId(store.categories, t.kind);
    } else if t.category.Embedded? && t.category.id.Some? {
      categoryId := Some(Lookup(links, t.category.id.value));
    }
    if categoryId.None? {
      var fallback := FindDefault(store.categories, Some(OTHER), t.kind);
      if fallback.None? {
        return false;
      }
      categoryId := Some(fallback.value.id);
    }
    assert categoryId == RestoreCategoryId(links, store.categories, t);
    if t.kind.None? || t.amount.None? || t.date.None? {
      return false;
    }
    var r := store.CreateTransaction(t.kind.value, t.amount.value, t.date.value, categoryId.value, t.memo);
    created := r.Some?;
  }
}
