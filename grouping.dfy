/** Summing amounts per key in first-seen order: the `Map` (or plain object)
    that the dashboard and the category-expense report fill one record at a
    time, with `acc[key] = (acc[key] || 0) + amount`. The keys the routes use
    are record ids, which are not integer-like strings, so a plain object
    enumerates them in insertion order just as a `Map` does. */
module Grouping {
  import opened Options

  datatype Group<K> = Group(key: K, amount: int)

  function Keys<K>(gs: seq<Group<K>>): (ks: seq<K>)
    ensures |ks| == |gs|
    ensures forall i :: 0 <= i < |gs| ==> ks[i] == gs[i].key
  {
    if gs == [] then [] else [gs[0].key] + Keys(gs[1..])
  }

  /** The keys of the records, in record order. */
  function ItemKeys<K>(items: seq<(K, int)>): (ks: seq<K>)
    ensures |ks| == |items|
    ensures forall i :: 0 <= i < |items| ==> ks[i] == items[i].0
  {
    if items == [] then [] else [items[0].0] + ItemKeys(items[1..])
  }

  predicate DistinctKeys<K(==)>(gs: seq<Group<K>>) {
    forall i, j :: 0 <= i < j < |gs| ==> gs[i].key != gs[j].key
  }

  function IndexOfKey<K(==)>(gs: seq<Group<K>>, k: K): (r: Option<nat>)
    ensures r.Some? ==> r.value < |gs| && gs[r.value].key == k
    ensures r.None? ==> forall i :: 0 <= i < |gs| ==> gs[i].key != k
  {
    if gs == [] then None
    else if gs[0].key == k then Some(0)
    else
      var r := IndexOfKey(gs[1..], k);
      if r.Some? then Some(r.value + 1) else None
  }

  /** One record: an existing key keeps its place and grows, a new key is appended. */
  function Add<K(==)>(gs: seq<Group<K>>, k: K, amount: int): seq<Group<K>> {
    var i := IndexOfKey(gs, k);
    if i.Some? then gs[i.value := Group(k, gs[i.value].amount + amount)] else gs + [Group(k, amount)]
  }

  /** The groups after every record, in the order their keys were first seen. */
  function GroupAll<K(==)>(items: seq<(K, int)>): seq<Group<K>> {
    if items == [] then [] else Add(GroupAll(items[..|items| - 1]), items[|items| - 1].0, items[|items| - 1].1)
  }

  /** The reference definition: the sum of the amounts recorded under `k`. */
  function KeyTotal<K(==)>(items: seq<(K, int)>, k: K): int {
    if items == [] then 0
    else KeyTotal(items[..|items| - 1], k) + (if items[|items| - 1].0 == k then items[|items| - 1].1 else 0)
  }

  function ItemsTotal<K>(items: seq<(K, int)>): int {
    if items == [] then 0 else ItemsTotal(items[..|items| - 1]) + items[|items| - 1].1
  }

  function GroupsTotal<K>(gs: seq<Group<K>>): int {
    if gs == [] then 0 else GroupsTotal(gs[..|gs| - 1]) + gs[|gs| - 1].amount
  }

  lemma {:induction false} GroupsTotalUpdate<K>(gs: seq<Group<K>>, i: nat, g: Group<K>)
    requires i < |gs|
    ensures GroupsTotal(gs[i := g]) == GroupsTotal(gs) - gs[i].amount + g.amount
    decreases |gs|
  {
    if i < |gs| - 1 {
      assert gs[i := g][..|gs| - 1] == gs[..|gs| - 1][i := g];
      GroupsTotalUpdate(gs[..|gs| - 1], i, g);
    } else {
      assert gs[i := g][..|gs| - 1] == gs[..|gs| - 1];
    }
  }

  /** `gs` is what grouping `items` must give: one group per distinct key of
      the records, each holding its key's total, all adding up to the total. */
  ghost predicate Summarises<K(!new)>(gs: seq<Group<K>>, items: seq<(K, int)>) {
    && DistinctKeys(gs)
    && (forall k :: k in Keys(gs) <==> k in ItemKeys(items))
    && (forall j :: 0 <= j < |gs| ==> gs[j].amount == KeyTotal(items, gs[j].key))
    && GroupsTotal(gs) == ItemsTotal(items)
  }

  /** The groups partition the records, with keys in first-seen order. */
  lemma {:induction false} GroupAllFacts<K(!new)>(items: seq<(K, int)>)
    ensures Summarises(GroupAll(items), items)
    decreases |items|
  {
    if items != [] {
      var prefix, last := items[..|items| - 1], items[|items| - 1];
      GroupAllFacts(prefix);
      assert GroupAll(items) == Add(GroupAll(prefix), last.0, last.1);
      assert items == prefix + [(last.0, last.1)];
      AddStep(GroupAll(prefix), prefix, last.0, last.1);
    }
  }

  lemma AddStep<K(!new)>(gs: seq<Group<K>>, items: seq<(K, int)>, k: K, a: int)
    requires Summarises(gs, items)
    ensures Summarises(Add(gs, k, a), items + [(k, a)])
  {
    var next := items + [(k, a)];
    assert next[..|items|] == items;
    assert ItemKeys(next) == ItemKeys(items) + [k];
    if IndexOfKey(gs, k).Some? {
      AddExisting(gs, items, k, a);
    } else {
      AddNew(gs, items, k, a);
    }
  }

  lemma AddExisting<K(!new)>(gs: seq<Group<K>>, items: seq<(K, int)>, k: K, a: int)
    requires Summarises(gs, items) && IndexOfKey(gs, k).Some?
    requires (items + [(k, a)])[..|items|] == items
    requires ItemKeys(items + [(k, a)]) == ItemKeys(items) + [k]
    ensures Summarises(Add(gs, k, a), items + [(k, a)])
  {
    var i := IndexOfKey(gs, k).value;
    var g := Group(k, gs[i].amount + a);
    var next := items + [(k, a)];
    assert Add(gs, k, a) == gs[i := g];
    UpdateKeys(gs, i, g);
    assert Keys(gs)[i] == k;
    assert forall x :: x in ItemKeys(next) <==> x in ItemKeys(items) || x == k;
    UpdateAmounts(gs, items, i, a);
    GroupsTotalUpdate(gs, i, g);
    assert ItemsTotal(next) == ItemsTotal(items) + a;
  }

  /** Replacing a group by one with the same key keeps the keys. */
  lemma UpdateKeys<K>(gs: seq<Group<K>>, i: nat, g: Group<K>)
    requires i < |gs| && g.key == gs[i].key
    ensures Keys(gs[i := g]) == Keys(gs)
    ensures DistinctKeys(gs) ==> DistinctKeys(gs[i := g])
  {
    assert forall j :: 0 <= j < |gs| ==> gs[i := g][j].key == gs[j].key;
  }

  /** Growing the group of an existing key by the new record's amount keeps
      every group's amount its key's total. */
  lemma UpdateAmounts<K(!new)>(gs: seq<Group<K>>, items: seq<(K, int)>, i: nat, a: int)
    requires i < |gs| && DistinctKeys(gs)
    requires forall j :: 0 <= j < |gs| ==> gs[j].amount == KeyTotal(items, gs[j].key)
    ensures var r := gs[i := Group(gs[i].key, gs[i].amount + a)];
      forall j :: 0 <= j < |r| ==> r[j].amount == KeyTotal(items + [(gs[i].key, a)], r[j].key)
  {
    var k := gs[i].key;
    var r := gs[i := Group(k, gs[i].amount + a)];
    forall j | 0 <= j < |r| ensures r[j].amount == KeyTotal(items + [(k, a)], r[j].key) {
      KeyTotalSnoc(items, k, a, r[j].key);
      if j != i {
        assert r[j] == gs[j] && gs[j].key != k;
      }
    }
  }

  lemma KeyTotalSnoc<K>(items: seq<(K, int)>, k: K, a: int, x: K)
    ensures KeyTotal(items + [(k, a)], x) == KeyTotal(items, x) + (if x == k then a else 0)
  {
    assert (items + [(k, a)])[..|items|] == items;
  }

  lemma AddNew<K(!new)>(gs: seq<Group<K>>, items: seq<(K, int)>, k: K, a: int)
    requires Summarises(gs, items) && IndexOfKey(gs, k).None?
    requires (items + [(k, a)])[..|items|] == items
    requires ItemKeys(items + [(k, a)]) == ItemKeys(items) + [k]
    ensures Summarises(Add(gs, k, a), items + [(k, a)])
  {
    var r := Add(gs, k, a);
    assert r[..|r| - 1] == gs;
    assert Keys(r) == Keys(gs) + [k];
    assert k !in Keys(gs);
    KeyTotalAbsent(items, k);
    forall j | 0 <= j < |r| ensures r[j].amount == KeyTotal(items + [(k, a)], r[j].key) {
      KeyTotalSnoc(items, k, a, r[j].key);
    }
  }

  lemma {:induction false} KeyTotalAbsent<K>(items: seq<(K, int)>, k: K)
    requires k !in ItemKeys(items)
    ensures KeyTotal(items, k) == 0
    decreases |items|
  {
    if items != [] {
      var prefix := items[..|items| - 1];
      assert ItemKeys(items) == ItemKeys(prefix) + [items[|items| - 1].0];
      KeyTotalAbsent(prefix, k);
    }
  }

  /** The `forEach` / `reduce` loop that fills the map. */
  method GroupAmounts<K(==)>(items: seq<(K, int)>) returns (gs: seq<Group<K>>)
    ensures gs == GroupAll(items)
  {
    gs := [];
    var n := 0;
    while n < |items|
      invariant 0 <= n <= |items|
      invariant gs == GroupAll(items[..n])
    {
      assert items[..n + 1][..n] == items[..n];
      var (k, a) := items[n];
      var i := IndexOfKey(gs, k);
      if i.Some? {
        gs := gs[i.value := Group(k, gs[i.value].amount + a)];
      } else {
        gs := gs + [Group(k, a)];
      }
      n := n + 1;
    }
    assert items[..|items|] == items;
  }
}
