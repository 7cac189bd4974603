/** Ordering of query results. The store's `orderBy` and JavaScript's stable
    `Array.prototype.sort` are both modelled by one stable insertion sort
    under a caller-given "may come before" relation. */
module Sorting {

  /** `le` is a total preorder: every pair is comparable and it is transitive. */
  ghost predicate TotalPreorder<T(!new)>(le: (T, T) -> bool) {
    (forall a, b :: le(a, b) || le(b, a))
    && (forall a, b, c :: le(a, b) && le(b, c) ==> le(a, c))
  }

  ghost predicate SortedBy<T>(s: seq<T>, le: (T, T) -> bool) {
    forall i, j :: 0 <= i < j < |s| ==> le(s[i], s[j])
  }

  /** Puts `x` before the first element it may precede. */
  function Insert<T>(x: T, s: seq<T>, le: (T, T) -> bool): (r: seq<T>)
    ensures multiset(r) == multiset(s) + multiset{x}
    ensures |r| == |s| + 1
  {
    if s == [] then [x]
    else if le(x, s[0]) then [x] + s
    else assert s == [s[0]] + s[1..]; [s[0]] + Insert(x, s[1..], le)
  }

  /** A stable sort: equal elements keep their input order. */
  function Sort<T>(s: seq<T>, le: (T, T) -> bool): (r: seq<T>)
    ensures multiset(r) == multiset(s)
    ensures |r| == |s|
  {
    if s == [] then [] else assert s == [s[0]] + s[1..]; Insert(s[0], Sort(s[1..], le), le)
  }

  lemma {:induction false} InsertSorted<T(!new)>(x: T, s: seq<T>, le: (T, T) -> bool)
    requires TotalPreorder(le)
    requires SortedBy(s, le)
    ensures SortedBy(Insert(x, s, le), le)
    decreases |s|
  {
    if s != [] && !le(x, s[0]) {
      var t := s[1..];
      assert SortedBy(t, le);
      InsertSorted(x, t, le);
      var r := Insert(x, t, le);
      assert le(s[0], x);
      forall k | 0 <= k < |r|
        ensures le(s[0], r[k])
      {
        assert r[k] in multiset(r);
        assert r[k] in multiset(t) + multiset{x};
        if r[k] != x {
          assert r[k] in multiset(t);
          var j :| 0 <= j < |t| && t[j] == r[k];
          assert le(s[0], s[j + 1]);
        }
      }
    }
  }

  /** The result of `Sort` is ordered by `le` and holds the same elements. */
  lemma {:induction false} SortSorted<T(!new)>(s: seq<T>, le: (T, T) -> bool)
    requires TotalPreorder(le)
    ensures SortedBy(Sort(s, le), le)
    ensures multiset(Sort(s, le)) == multiset(s)
    decreases |s|
  {
    if s != [] {
      SortSorted(s[1..], le);
      InsertSorted(s[0], Sort(s[1..], le), le);
    }
  }

  /** The elements of `s` tied with `y` under `le`, in their order in `s`. */
  function Ties<T>(s: seq<T>, le: (T, T) -> bool, y: T): seq<T> {
    if s == [] then []
    else (if le(s[0], y) && le(y, s[0]) then [s[0]] else []) + Ties(s[1..], le, y)
  }

  /** Inserting `x` places it ahead of every element it is tied with. */
  lemma {:induction false} InsertTies<T(!new)>(x: T, s: seq<T>, le: (T, T) -> bool, y: T)
    requires TotalPreorder(le)
    ensures Ties(Insert(x, s, le), le, y) == Ties([x], le, y) + Ties(s, le, y)
    decreases |s|
  {
    if s == [] {
      assert Insert(x, s, le) == [x] + s;
    } else if le(x, s[0]) {
      TiesCons(x, s, le, y);
    } else {
      InsertTies(x, s[1..], le, y);
      TiesBefore(s[0], x, le, y);
      InsertTiesStep(x, s, le, y);
    }
  }

  /** The step of `InsertTies` past an element `x` may not precede. */
  lemma InsertTiesStep<T>(x: T, s: seq<T>, le: (T, T) -> bool, y: T)
    requires s != [] && !le(x, s[0])
    requires Ties([s[0]], le, y) == [] || Ties([x], le, y) == []
    requires Ties(Insert(x, s[1..], le), le, y) == Ties([x], le, y) + Ties(s[1..], le, y)
    ensures Ties(Insert(x, s, le), le, y) == Ties([x], le, y) + Ties(s, le, y)
  {
    var r := Insert(x, s[1..], le);
    assert Insert(x, s, le) == [s[0]] + r;
    TiesCons(s[0], r, le, y);
    assert s == [s[0]] + s[1..];
    TiesCons(s[0], s[1..], le, y);
    var a, b, rest := Ties([s[0]], le, y), Ties([x], le, y), Ties(s[1..], le, y);
    SwapAroundEmpty(a, b, rest);
  }

  /** Two pieces one of which is empty can trade places. */
  lemma SwapAroundEmpty<T>(a: seq<T>, b: seq<T>, rest: seq<T>)
    requires a == [] || b == []
    ensures a + (b + rest) == b + (a + rest)
  {
    if a == [] {
      assert a + (b + rest) == b + rest;
      assert a + rest == rest;
    } else {
      assert b + (a + rest) == a + rest;
      assert b + rest == rest;
    }
  }

  lemma TiesCons<T>(a: T, t: seq<T>, le: (T, T) -> bool, y: T)
    ensures Ties([a] + t, le, y) == Ties([a], le, y) + Ties(t, le, y)
  {
    assert ([a] + t)[0] == a && ([a] + t)[1..] == t;
  }

  /** An element that strictly precedes `x` is not tied with what `x` is tied with. */
  lemma TiesBefore<T(!new)>(a: T, x: T, le: (T, T) -> bool, y: T)
    requires TotalPreorder(le) && !le(x, a)
    ensures Ties([a], le, y) == [] || Ties([x], le, y) == []
  {
  }

  /** `Sort` is stable: the elements tied with any `y` keep their input order. */
  lemma {:induction false} SortStable<T(!new)>(s: seq<T>, le: (T, T) -> bool, y: T)
    requires TotalPreorder(le)
    ensures Ties(Sort(s, le), le, y) == Ties(s, le, y)
    decreases |s|
  {
    if s != [] {
      SortStable(s[1..], le, y);
      InsertTies(s[0], Sort(s[1..], le), le, y);
    }
  }
}
