/** Stable insertion by an order: what Python's `sorted` and `list.sort` compute. */
module Sorting {

  ghost predicate IsOrder<T(!new)>(atMost: (T, T) -> bool) {
    && (forall x, y :: atMost(x, y) || atMost(y, x))
    && (forall x, y, z | atMost(x, y) && atMost(y, z) :: atMost(x, z))
  }

  ghost predicate IsSorted<T>(atMost: (T, T) -> bool, s: seq<T>) {
    forall i, j | 0 <= i < j < |s| :: atMost(s[i], s[j])
  }

  /** Inserts after every element that is at most `x`. */
  function Insert<T>(atMost: (T, T) -> bool, s: seq<T>, x: T): seq<T> {
    if s == [] || atMost(s[|s| - 1], x) then s + [x]
    else Insert(atMost, s[..|s| - 1], x) + [s[|s| - 1]]
  }

  function Sorted<T>(atMost: (T, T) -> bool, s: seq<T>): seq<T> {
    if s == [] then [] else Insert(atMost, Sorted(atMost, s[..|s| - 1]), s[|s| - 1])
  }

  lemma {:induction false} InsertAdds<T>(atMost: (T, T) -> bool, s: seq<T>, x: T)
    ensures multiset(Insert(atMost, s, x)) == multiset(s) + multiset{x}
  {
    if s != [] && !atMost(s[|s| - 1], x) {
      InsertAdds(atMost, s[..|s| - 1], x);
      assert s == s[..|s| - 1] + [s[|s| - 1]];
    }
  }

  lemma {:induction false} InsertMembers<T>(atMost: (T, T) -> bool, s: seq<T>, x: T, y: T)
    ensures y in Insert(atMost, s, x) <==> y in s || y == x
  {
    if s != [] && !atMost(s[|s| - 1], x) {
      InsertMembers(atMost, s[..|s| - 1], x, y);
      assert s == s[..|s| - 1] + [s[|s| - 1]];
    }
  }

  lemma SortedMore<T>(atMost: (T, T) -> bool, s: seq<T>, x: T)
    requires IsSorted(atMost, s) && forall i | 0 <= i < |s| :: atMost(s[i], x)
    ensures IsSorted(atMost, s + [x])
  {
  }

  lemma {:induction false} InsertKeepsOrder<T(!new)>(atMost: (T, T) -> bool, s: seq<T>, x: T)
    requires IsOrder(atMost) && IsSorted(atMost, s)
    ensures IsSorted(atMost, Insert(atMost, s, x))
  {
    if s == [] {
    } else if atMost(s[|s| - 1], x) {
      forall i | 0 <= i < |s| ensures atMost(s[i], x) {
        assert atMost(s[i], s[|s| - 1]) || i == |s| - 1;
      }
      SortedMore(atMost, s, x);
    } else {
      var before := s[..|s| - 1];
      var last := s[|s| - 1];
      InsertKeepsOrder(atMost, before, x);
      var inserted := Insert(atMost, before, x);
      forall i | 0 <= i < |inserted| ensures atMost(inserted[i], last) {
        InsertMembers(atMost, before, x, inserted[i]);
        assert inserted[i] in inserted;
        assert atMost(x, last);
      }
      SortedMore(atMost, inserted, last);
    }
  }

  /** Sorting puts the same elements in order. */
  lemma {:induction false} SortedIsOrdered<T(!new)>(atMost: (T, T) -> bool, s: seq<T>)
    requires IsOrder(atMost)
    ensures IsSorted(atMost, Sorted(atMost, s))
  {
    if s != [] {
      SortedIsOrdered(atMost, s[..|s| - 1]);
      InsertKeepsOrder(atMost, Sorted(atMost, s[..|s| - 1]), s[|s| - 1]);
    }
  }

  lemma {:induction false} SortedIsPermutation<T>(atMost: (T, T) -> bool, s: seq<T>)
    ensures multiset(Sorted(atMost, s)) == multiset(s)
  {
    if s != [] {
      SortedIsPermutation(atMost, s[..|s| - 1]);
      InsertAdds(atMost, Sorted(atMost, s[..|s| - 1]), s[|s| - 1]);
      assert s == s[..|s| - 1] + [s[|s| - 1]];
    }
  }

  lemma SortedKeepsMembers<T>(atMost: (T, T) -> bool, s: seq<T>, x: T)
    ensures x in Sorted(atMost, s) <==> x in s
  {
    SortedIsPermutation(atMost, s);
    assert x in Sorted(atMost, s) <==> x in multiset(Sorted(atMost, s));
    assert x in s <==> x in multiset(s);
  }
}
