// sort.Slice on the short lists device.conf holds: insertion sort, equal keys in
// the order they came.
module Sorting {

  // Put x before the trailing run of larger keys.
  function Insert<T>(key: T -> nat, s: seq<T>, x: T): seq<T> {
    if s == [] || key(s[|s| - 1]) <= key(x) then s + [x]
    else Insert(key, s[..|s| - 1], x) + [s[|s| - 1]]
  }

  function Sort<T>(key: T -> nat, s: seq<T>): seq<T> {
    if s == [] then [] else Insert(key, Sort(key, s[..|s| - 1]), s[|s| - 1])
  }

  predicate Ascending<T>(key: T -> nat, s: seq<T>) {
    forall i, j :: 0 <= i < j < |s| ==> key(s[i]) <= key(s[j])
  }

  function Filter<T>(p: T -> bool, s: seq<T>): seq<T> {
    if s == [] then []
    else if p(s[|s| - 1]) then Filter(p, s[..|s| - 1]) + [s[|s| - 1]]
    else Filter(p, s[..|s| - 1])
  }

  lemma {:induction false} FilterIn<T>(p: T -> bool, s: seq<T>, x: T)
    ensures x in Filter(p, s) <==> x in s && p(x)
  {
    if s != [] {
      assert s == s[..|s| - 1] + [s[|s| - 1]];
      FilterIn(p, s[..|s| - 1], x);
    }
  }

  lemma FilterSnoc<T>(p: T -> bool, s: seq<T>, x: T)
    ensures Filter(p, s + [x]) == if p(x) then Filter(p, s) + [x] else Filter(p, s)
  {
    assert (s + [x])[..|s|] == s;
  }

  lemma {:induction false} InsertKeeps<T>(key: T -> nat, s: seq<T>, x: T)
    ensures multiset(Insert(key, s, x)) == multiset(s) + multiset{x}
    ensures forall y :: y in Insert(key, s, x) <==> y in s || y == x
  {
    if s != [] {
      assert s == s[..|s| - 1] + [s[|s| - 1]];
      InsertKeeps(key, s[..|s| - 1], x);
    }
  }

  lemma InsertIn<T>(key: T -> nat, s: seq<T>, x: T, y: T)
    ensures y in Insert(key, s, x) <==> y in s || y == x
  {
    InsertKeeps(key, s, x);
  }

  lemma {:induction false} InsertAscends<T>(key: T -> nat, s: seq<T>, x: T)
    requires Ascending(key, s)
    ensures Ascending(key, Insert(key, s, x))
  {
    if s != [] && key(s[|s| - 1]) > key(x) {
      var init, last := s[..|s| - 1], s[|s| - 1];
      InsertAscends(key, init, x);
      InsertKeeps(key, init, x);
      var r := Insert(key, init, x);
      forall i | 0 <= i < |r| ensures key(r[i]) <= key(last) {
        assert r[i] in r;
        if r[i] != x {
          InsertIn(key, init, x, r[i]);
          var j :| 0 <= j < |init| && init[j] == r[i];
          assert key(s[j]) <= key(s[|s| - 1]);
        }
      }
    }
  }

  // The result is the input, rearranged in ascending order.
  lemma {:induction false} SortSorts<T>(key: T -> nat, s: seq<T>)
    ensures multiset(Sort(key, s)) == multiset(s) && Ascending(key, Sort(key, s))
    ensures forall y :: y in Sort(key, s) <==> y in s
  {
    if s != [] {
      assert s == s[..|s| - 1] + [s[|s| - 1]];
      SortSorts(key, s[..|s| - 1]);
      InsertKeeps(key, Sort(key, s[..|s| - 1]), s[|s| - 1]);
      InsertAscends(key, Sort(key, s[..|s| - 1]), s[|s| - 1]);
    }
  }

  lemma InsertLast<T>(key: T -> nat, s: seq<T>, x: T)
    requires forall y :: y in s ==> key(y) <= key(x)
    ensures Insert(key, s, x) == s + [x]
  {
  }

  lemma {:induction false} SortedStays<T>(key: T -> nat, s: seq<T>)
    requires Ascending(key, s)
    ensures Sort(key, s) == s
  {
    if s != [] {
      var init := s[..|s| - 1];
      assert s == init + [s[|s| - 1]];
      SortedStays(key, init);
      InsertLast(key, init, s[|s| - 1]);
    }
  }

  // Elements left out, and how often the others occur.
  lemma {:induction false} FilterCount<T>(p: T -> bool, s: seq<T>, x: T)
    ensures multiset(Filter(p, s))[x] == if p(x) then multiset(s)[x] else 0
  {
    if s != [] {
      assert s == s[..|s| - 1] + [s[|s| - 1]];
      FilterCount(p, s[..|s| - 1], x);
    }
  }

  // Elements of one key keep their order.
  lemma {:induction false} InsertStable<T>(key: T -> nat, p: T -> bool, v: nat, s: seq<T>, x: T)
    requires forall y :: p(y) <==> key(y) == v
    ensures Filter(p, Insert(key, s, x)) == Filter(p, s + [x])
  {
    hide Filter;
    if s != [] && key(s[|s| - 1]) > key(x) {
      var init, last := s[..|s| - 1], s[|s| - 1];
      assert s == init + [last];
      InsertStable(key, p, v, init, x);
      FilterSnoc(p, Insert(key, init, x), last);
      FilterSnoc(p, init, x);
      FilterSnoc(p, init, last);
      FilterSnoc(p, s, x);
    }
  }

  lemma {:induction false} SortStable<T>(key: T -> nat, p: T -> bool, v: nat, s: seq<T>)
    requires forall y :: p(y) <==> key(y) == v
    ensures Filter(p, Sort(key, s)) == Filter(p, s)
  {
    hide Filter, Insert;
    if s != [] {
      var init, last := s[..|s| - 1], s[|s| - 1];
      assert s == init + [last];
      SortStable(key, p, v, init);
      InsertStable(key, p, v, Sort(key, init), last);
      FilterSnoc(p, Sort(key, init), last);
      FilterSnoc(p, init, last);
    }
  }

  // x goes in front of `last` before and after the filter.
  lemma InsertBefore<T>(key: T -> nat, s: seq<T>, last: T, x: T)
    ensures key(last) > key(x) ==> Insert(key, s + [last], x) == Insert(key, s, x) + [last]
    ensures key(last) <= key(x) ==> Insert(key, s + [last], x) == s + [last, x]
  {
    assert (s + [last])[..|s|] == s;
  }

  lemma {:induction false} FilterInsert<T>(key: T -> nat, p: T -> bool, s: seq<T>, x: T)
    requires Ascending(key, s)
    ensures Filter(p, Insert(key, s, x)) == if p(x) then Insert(key, Filter(p, s), x) else Filter(p, s)
  {
    hide Insert, Filter;
    if s == [] || key(s[|s| - 1]) <= key(x) {
      FilterLast(key, p, s, x);
    } else {
      var init, last := s[..|s| - 1], s[|s| - 1];
      assert s == init + [last];
      FilterInsert(key, p, init, x);
      FilterSnoc(p, init, last);
      FilterSnoc(p, Insert(key, init, x), last);
      InsertBefore(key, init, last, x);
      InsertBefore(key, Filter(p, init), last, x);
    }
  }

  lemma FilterLast<T>(key: T -> nat, p: T -> bool, s: seq<T>, x: T)
    requires Ascending(key, s) && (s == [] || key(s[|s| - 1]) <= key(x))
    ensures Filter(p, Insert(key, s, x)) == if p(x) then Insert(key, Filter(p, s), x) else Filter(p, s)
  {
    hide Filter;
    FilterSnoc(p, s, x);
    forall y | y in Filter(p, s) ensures key(y) <= key(x) {
      FilterIn(p, s, y);
      var i :| 0 <= i < |s| && s[i] == y;
    }
    InsertLast(key, Filter(p, s), x);
    InsertLast(key, s, x) by {
      forall y | y in s ensures key(y) <= key(x) { var i :| 0 <= i < |s| && s[i] == y; }
    }
  }

  // Leaving elements out before or after sorting comes to the same.
  lemma {:induction false} FilterSort<T>(key: T -> nat, p: T -> bool, s: seq<T>)
    ensures Filter(p, Sort(key, s)) == Sort(key, Filter(p, s))
  {
    hide Insert, Filter, Ascending;
    if s == [] {
      FilterEmpty(p);
    } else {
      var init, last := s[..|s| - 1], s[|s| - 1];
      assert s == init + [last];
      FilterSort(key, p, init);
      SortSorts(key, init);
      FilterInsert(key, p, Sort(key, init), last);
      FilterSnoc(p, init, last);
      SortSnoc(key, Filter(p, init), last);
    }
  }

  lemma FilterEmpty<T>(p: T -> bool)
    ensures Filter(p, []) == []
  {
  }

  lemma SortSnoc<T>(key: T -> nat, s: seq<T>, x: T)
    ensures Sort(key, s + [x]) == Insert(key, Sort(key, s), x)
  {
    assert (s + [x])[..|s|] == s;
  }
}
