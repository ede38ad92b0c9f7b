/** The two orderings createSchedule applies to its result: a stable sort of
    each day's events by a key, and the dates in ascending order. */
module Ordering {
  /** The elements in ascending order of `key`. */
  predicate SortedBy<T>(es: seq<T>, key: T -> int)
  {
    forall i, j :: 0 <= i < j < |es| ==> key(es[i]) <= key(es[j])
  }

  /** Insert `e` after every element whose key is not greater than its own. */
  function Insert<T>(s: seq<T>, e: T, key: T -> int): seq<T>
  {
    if s == [] then [e]
    else if key(s[|s| - 1]) <= key(e) then s + [e]
    else Insert(s[..|s| - 1], e, key) + [s[|s| - 1]]
  }

  /** A stable sort by `key`: insertion of each element in turn. */
  function SortBy<T>(es: seq<T>, key: T -> int): seq<T>
  {
    if es == [] then [] else Insert(SortBy(es[..|es| - 1], key), es[|es| - 1], key)
  }

  /** The elements whose key is `v`, in order. */
  function WithKey<T>(es: seq<T>, key: T -> int, v: int): seq<T>
  {
    if es == [] then []
    else WithKey(es[..|es| - 1], key, v) + (if key(es[|es| - 1]) == v then [es[|es| - 1]] else [])
  }

  lemma WithKeyAppend<T>(s: seq<T>, e: T, key: T -> int, v: int)
    ensures WithKey(s + [e], key, v) == WithKey(s, key, v) + (if key(e) == v then [e] else [])
  {
    assert (s + [e])[..|s|] == s;
  }

  lemma SortedAppend<T>(r: seq<T>, x: T, key: T -> int)
    requires SortedBy(r, key)
    requires forall i :: 0 <= i < |r| ==> key(r[i]) <= key(x)
    ensures SortedBy(r + [x], key)
  {
    var r' := r + [x];
    forall i, j | 0 <= i < j < |r'|
      ensures key(r'[i]) <= key(r'[j])
    {
      if j < |r| {
        assert r'[i] == r[i] && r'[j] == r[j];
      }
    }
  }

  /** Inserting adds exactly the one element. */
  lemma {:induction false} InsertPerm<T>(s: seq<T>, e: T, key: T -> int)
    ensures multiset(Insert(s, e, key)) == multiset(s) + multiset{e}
  {
    if s != [] && key(s[|s| - 1]) > key(e) {
      var init := s[..|s| - 1];
      InsertPerm(init, e, key);
      assert s == init + [s[|s| - 1]];
    }
  }

  lemma {:induction false} InsertSorted<T>(s: seq<T>, e: T, key: T -> int)
    requires SortedBy(s, key)
    ensures SortedBy(Insert(s, e, key), key)
  {
    if s == [] {
    } else if key(s[|s| - 1]) <= key(e) {
      SortedAppend(s, e, key);
    } else {
      var init := s[..|s| - 1];
      var last := s[|s| - 1];
      assert s == init + [last];
      InsertSorted(init, e, key);
      InsertPerm(init, e, key);
      var r := Insert(init, e, key);
      forall i | 0 <= i < |r|
        ensures key(r[i]) <= key(last)
      {
        assert r[i] in multiset(r);
        if r[i] != e {
          assert r[i] in multiset(init);
          var j :| 0 <= j < |init| && init[j] == r[i];
          assert key(s[j]) <= key(s[|s| - 1]);
        }
      }
      SortedAppend(r, last, key);
    }
  }

  /** Inserting keeps the order among elements with equal keys. */
  lemma {:induction false} InsertStable<T>(s: seq<T>, e: T, key: T -> int, v: int)
    ensures WithKey(Insert(s, e, key), key, v) == WithKey(s, key, v) + (if key(e) == v then [e] else [])
  {
    if s == [] {
      WithKeyAppend([], e, key, v);
    } else if key(s[|s| - 1]) <= key(e) {
      WithKeyAppend(s, e, key, v);
    } else {
      var init := s[..|s| - 1];
      var last := s[|s| - 1];
      InsertStable(init, e, key, v);
      assert Insert(s, e, key) == Insert(init, e, key) + [last];
      WithKeyAppend(Insert(init, e, key), last, key, v);
      WithKeyAppend(init, last, key, v);
      assert s == init + [last];
    }
  }

  /** The sorted elements are in key order. */
  lemma {:induction false} SortBySorted<T>(es: seq<T>, key: T -> int)
    ensures SortedBy(SortBy(es, key), key)
  {
    if es != [] {
      var init := es[..|es| - 1];
      SortBySorted(init, key);
      InsertSorted(SortBy(init, key), es[|es| - 1], key);
    }
  }

  /** The sorted elements are the same elements. */
  lemma {:induction false} SortByPerm<T>(es: seq<T>, key: T -> int)
    ensures multiset(SortBy(es, key)) == multiset(es)
  {
    if es != [] {
      var init := es[..|es| - 1];
      var last := es[|es| - 1];
      SortByPerm(init, key);
      InsertPerm(SortBy(init, key), last, key);
      assert SortBy(es, key) == Insert(SortBy(init, key), last, key);
      assert es == init + [last];
      assert multiset(es) == multiset(init) + multiset{last};
    }
  }

  /** The sort is stable: the elements sharing a key keep their order. */
  lemma {:induction false} SortByStable<T>(es: seq<T>, key: T -> int, v: int)
    ensures WithKey(SortBy(es, key), key, v) == WithKey(es, key, v)
  {
    if es != [] {
      var init := es[..|es| - 1];
      SortByStable(init, key, v);
      InsertStable(SortBy(init, key), es[|es| - 1], key, v);
    }
  }

  // ---------------------------------------------------------------- dates

  predicate StrictlyAscending(ds: seq<int>)
  {
    forall i, j :: 0 <= i < j < |ds| ==> ds[i] < ds[j]
  }

  /** Some date of a non-empty set of dates. */
  lemma Pick(keys: set<int>) returns (y: int)
    requires keys != {}
    ensures y in keys
  {
    if forall x :: x !in keys {
      assert false;
    }
    y :| y in keys;
  }

  lemma MinExists(keys: set<int>)
    requires keys != {}
    ensures exists m :: m in keys && forall x :: x in keys ==> m <= x
  {
    var y := Pick(keys);
    var rest := keys - {y};
    if rest == {} {
      forall x | x in keys
        ensures y <= x
      {
        assert x !in rest;
      }
      assert y in keys;
    } else {
      MinExists(rest);
      var m :| m in rest && forall x :: x in rest ==> m <= x;
      var least := if y < m then y else m;
      forall x | x in keys
        ensures least <= x
      {
        if x != y {
          assert x in rest;
        }
      }
      assert least in keys;
    }
  }

  /** `Array.from(schedule.keys()).sort()`: the dates with events, ascending,
      each once. (Date strings "YYYY-MM-DD" sort as text in calendar order.) */
  ghost function SortedDates(keys: set<int>): seq<int>
    decreases |keys|
  {
    if keys == {} then []
    else
      MinExists(keys);
      var m :| m in keys && forall x :: x in keys ==> m <= x;
      [m] + SortedDates(keys - {m})
  }

  /** The sorted dates are ascending and are exactly the given dates. */
  lemma {:induction false} SortedDatesFacts(keys: set<int>)
    ensures var r := SortedDates(keys);
            StrictlyAscending(r) && |r| == |keys| && forall x :: x in r <==> x in keys
    decreases |keys|
  {
    if keys != {} {
      MinExists(keys);
      var m :| m in keys && forall x :: x in keys ==> m <= x;
      SortedDatesHead(keys, m);
      SortedDatesFacts(keys - {m});
      var rest := SortedDates(keys - {m});
      var r := [m] + rest;
      forall i, j | 0 <= i < j < |r|
        ensures r[i] < r[j]
      {
        if i == 0 {
          assert r[j] == rest[j - 1] && rest[j - 1] in keys - {m};
        } else {
          assert r[i] == rest[i - 1] && r[j] == rest[j - 1];
        }
      }
    }
  }

  /** The sorted dates start with the smallest date. */
  lemma SortedDatesHead(keys: set<int>, m: int)
    requires m in keys && forall x :: x in keys ==> m <= x
    ensures SortedDates(keys) == [m] + SortedDates(keys - {m})
  {
    var m' :| m' in keys && forall x :: x in keys ==> m' <= x;
    assert m <= m' && m' <= m;
  }

  /** The sort of the dates, by repeatedly taking the smallest date left. */
  method SortDates(keys: set<int>) returns (r: seq<int>)
    ensures r == SortedDates(keys)
  {
    r := [];
    var rest := keys;
    while rest != {}
      invariant r + SortedDates(rest) == SortedDates(keys)
      decreases |rest|
    {
      MinExists(rest);
      var m :| m in rest && forall x :: x in rest ==> m <= x;
      SortedDatesHead(rest, m);
      ghost var tail := SortedDates(rest - {m});
      assert (r + [m]) + tail == r + ([m] + tail);
      r := r + [m];
      rest := rest - {m};
    }
  }
}
