/** Lists without duplicates, subsequences, and dictionaries that keep the order
    in which their keys were first set. */
module Sequences {
  import opened Common

  predicate NoDup<T(==)>(s: seq<T>) {
    forall i, j | 0 <= i < j < |s| :: s[i] != s[j]
  }

  lemma NoDupAppend<T>(s: seq<T>, x: T)
    requires NoDup(s) && x !in s
    ensures NoDup(s + [x])
  {
  }

  lemma NoDupCons<T>(x: T, s: seq<T>)
    ensures NoDup([x] + s) <==> x !in s && NoDup(s)
  {
    var all := [x] + s;
    if NoDup(all) {
      forall i, j | 0 <= i < j < |s| ensures s[i] != s[j] {
        assert all[i + 1] != all[j + 1];
      }
      forall j | 0 <= j < |s| ensures s[j] != x {
        assert all[0] != all[j + 1];
      }
    }
  }

  /** `a` is `b` with some elements left out. */
  predicate IsSubsequence<T(==)>(a: seq<T>, b: seq<T>) {
    if a == [] then true
    else if b == [] then false
    else if a[|a| - 1] == b[|b| - 1] then IsSubsequence(a[..|a| - 1], b[..|b| - 1])
    else IsSubsequence(a, b[..|b| - 1])
  }

  lemma {:induction false} SubsequenceSkip<T>(a: seq<T>, b: seq<T>, x: T)
    requires IsSubsequence(a, b)
    ensures IsSubsequence(a, b + [x])
    decreases |b|, 1
  {
    assert (b + [x])[..|b|] == b;
    if a != [] && a[|a| - 1] == x {
      SubsequenceInit(a, b);
    }
  }

  lemma {:induction false} SubsequenceInit<T>(a: seq<T>, b: seq<T>)
    requires IsSubsequence(a, b) && a != []
    ensures IsSubsequence(a[..|a| - 1], b)
    decreases |b|, 0
  {
    var last := |b| - 1;
    if a[|a| - 1] == b[last] {
      SubsequenceSkip(a[..|a| - 1], b[..last], b[last]);
      assert b[..last] + [b[last]] == b;
    } else {
      SubsequenceInit(a, b[..last]);
      SubsequenceSkip(a[..|a| - 1], b[..last], b[last]);
      assert b[..last] + [b[last]] == b;
    }
  }

  lemma SubsequenceTake<T>(a: seq<T>, b: seq<T>, x: T)
    requires IsSubsequence(a, b)
    ensures IsSubsequence(a + [x], b + [x])
  {
    assert (a + [x])[..|a|] == a && (b + [x])[..|b|] == b;
  }

  lemma {:induction false} SubsequenceMembers<T>(a: seq<T>, b: seq<T>, x: T)
    requires IsSubsequence(a, b) && x in a
    ensures x in b
    decreases |b|
  {
    if a[|a| - 1] == b[|b| - 1] {
      if x != a[|a| - 1] {
        SubsequenceMembers(a[..|a| - 1], b[..|b| - 1], x);
      }
    } else {
      SubsequenceMembers(a, b[..|b| - 1], x);
    }
  }

  /** A dictionary of lists in insertion order: one entry a key. */
  type Groups<K, V> = seq<(K, seq<V>)>

  /** `d.setdefault(key, []).extend(values)` */
  function AppendTo<K(==), V>(groups: Groups<K, V>, key: K, values: seq<V>): Groups<K, V> {
    if groups == [] then [(key, values)]
    else if groups[0].0 == key then [(key, groups[0].1 + values)] + groups[1..]
    else [groups[0]] + AppendTo(groups[1..], key, values)
  }

  function Lookup<K(==), V>(groups: Groups<K, V>, key: K): seq<V> {
    if groups == [] then []
    else if groups[0].0 == key then groups[0].1
    else Lookup(groups[1..], key)
  }

  function Keys<K, V>(groups: Groups<K, V>): seq<K> {
    if groups == [] then [] else [groups[0].0] + Keys(groups[1..])
  }

  function Flatten<K, V>(groups: Groups<K, V>): seq<V> {
    if groups == [] then [] else groups[0].1 + Flatten(groups[1..])
  }

  lemma {:induction false} AppendToLookup<K, V>(groups: Groups<K, V>, key: K, values: seq<V>, k: K)
    ensures Lookup(AppendTo(groups, key, values), k) == if k == key then Lookup(groups, key) + values else Lookup(groups, k)
  {
    if groups != [] && groups[0].0 != key {
      AppendToLookup(groups[1..], key, values, k);
    } else if groups == [] {
      assert [] + values == values;
    }
  }

  lemma {:induction false} AppendToKeys<K, V>(groups: Groups<K, V>, key: K, values: seq<V>)
    requires NoDup(Keys(groups))
    ensures NoDup(Keys(AppendTo(groups, key, values)))
    ensures forall k :: k in Keys(AppendTo(groups, key, values)) <==> k == key || k in Keys(groups)
  {
    if groups != [] {
      var grown := AppendTo(groups, key, values);
      NoDupCons(groups[0].0, Keys(groups[1..]));
      if groups[0].0 != key {
        AppendToKeys(groups[1..], key, values);
        assert grown[1..] == AppendTo(groups[1..], key, values);
        NoDupCons(groups[0].0, Keys(grown[1..]));
      } else {
        assert grown[1..] == groups[1..];
      }
    }
  }

  lemma {:induction false} AppendToFlatten<K, V>(groups: Groups<K, V>, key: K, values: seq<V>)
    ensures multiset(Flatten(AppendTo(groups, key, values))) == multiset(Flatten(groups)) + multiset(values)
  {
    if groups == [] {
      assert Flatten([(key, values)]) == values + Flatten(([(key, values)])[1..]);
    } else {
      var grown := AppendTo(groups, key, values);
      assert grown[1..] == if groups[0].0 == key then groups[1..] else AppendTo(groups[1..], key, values);
      if groups[0].0 != key {
        AppendToFlatten(groups[1..], key, values);
      }
    }
  }

  lemma {:induction false} FlattenTake<K, V>(groups: Groups<K, V>, i: nat)
    requires i < |groups|
    ensures Flatten(groups[..i + 1]) == Flatten(groups[..i]) + groups[i].1
  {
    if i == 0 {
      assert groups[..1] == [groups[0]] && groups[..0] == [];
      assert Flatten(groups[..1]) == groups[0].1 + Flatten(groups[..1][1..]);
    } else {
      FlattenTake(groups[1..], i - 1);
      assert groups[..i + 1][1..] == groups[1..][..i] && groups[..i][1..] == groups[1..][..i - 1];
    }
  }

  lemma {:induction false} NoDupCounts<T>(s: seq<T>, x: T)
    requires NoDup(s)
    ensures multiset(s)[x] <= 1
  {
    if s != [] {
      assert s == [s[0]] + s[1..];
      NoDupCons(s[0], s[1..]);
      NoDupCounts(s[1..], x);
      assert multiset(s) == multiset{s[0]} + multiset(s[1..]);
      assert s[0] !in multiset(s[1..]);
    }
  }

  lemma RepeatCountsTwice<T>(s: seq<T>, i: nat, j: nat)
    requires i < j < |s| && s[i] == s[j]
    ensures multiset(s)[s[i]] >= 2
  {
    assert s == s[..i] + [s[i]] + s[i + 1..j] + [s[j]] + s[j + 1..];
  }

  lemma {:induction false} FlattenSplit<K, V>(groups: Groups<K, V>, i: nat)
    requires i <= |groups|
    ensures Flatten(groups) == Flatten(groups[..i]) + Flatten(groups[i..])
  {
    if i == 0 {
      assert groups[..0] == [] && groups[0..] == groups;
    } else {
      FlattenSplit(groups[1..], i - 1);
      assert groups[..i][1..] == groups[1..][..i - 1] && groups[i..] == groups[1..][i - 1..];
    }
  }
}
