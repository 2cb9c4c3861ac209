/**
 * Sorting by a string key, as done by `sort.Sort` over a `Less` on string fields and by
 * `sort.Strings`. The library algorithm is not the point: any sort gives the same result
 * once the keys are distinct, so the model uses insertion sort and proves that its result
 * is ordered and a permutation of its input.
 */
module Sorting {
  import Text

  /** a comes no later than b in the string order. */
  predicate Le(a: string, b: string) {
    !Text.Less(b, a)
  }

  predicate SortedBy<T>(s: seq<T>, key: T -> string) {
    forall i, j :: 0 <= i < j < |s| ==> Le(key(s[i]), key(s[j]))
  }

  /** No two elements share a key. */
  predicate DistinctKeys<T>(s: seq<T>, key: T -> string) {
    forall i, j :: 0 <= i < j < |s| ==> key(s[i]) != key(s[j])
  }

  function Insert<T>(x: T, s: seq<T>, key: T -> string): seq<T>
  {
    if s == [] then [x]
    else if Text.Less(key(s[0]), key(x)) then [s[0]] + Insert(x, s[1..], key)
    else [x] + s
  }

  /** Insertion sort: the model of `sort.Sort` / `sort.Strings`. */
  function SortBy<T>(s: seq<T>, key: T -> string): seq<T>
  {
    if s == [] then [] else Insert(s[0], SortBy(s[1..], key), key)
  }

  lemma LeTransitive(a: string, b: string, c: string)
    requires Le(a, b) && Le(b, c)
    ensures Le(a, c)
  {
    if Text.Less(c, a) {
      if a == b {
      } else {
        Text.LessTotal(a, b);
        Text.LessTransitive(c, a, b);
      }
    }
  }

  lemma {:induction false} InsertCorrect<T>(x: T, s: seq<T>, key: T -> string)
    requires SortedBy(s, key)
    ensures SortedBy(Insert(x, s, key), key)
    ensures multiset(Insert(x, s, key)) == multiset(s) + multiset{x}
  {
    if s == [] {
    } else if Text.Less(key(s[0]), key(x)) {
      var rest := Insert(x, s[1..], key);
      assert SortedBy(s[1..], key);
      InsertCorrect(x, s[1..], key);
      assert s == [s[0]] + s[1..];
      Text.LessAsymmetric(key(s[0]), key(x));
      forall j | 0 <= j < |rest| ensures Le(key(s[0]), key(rest[j])) {
        assert rest[j] in multiset(rest);
        if rest[j] != x {
          assert rest[j] in multiset(s[1..]);
          var k :| 0 <= k < |s[1..]| && s[1..][k] == rest[j];
          assert s[k + 1] == rest[j];
        }
      }
    } else {
      assert Le(key(x), key(s[0]));
      forall j | 0 <= j < |s| ensures Le(key(x), key(s[j])) {
        if j > 0 {
          LeTransitive(key(x), key(s[0]), key(s[j]));
        }
      }
    }
  }

  lemma {:induction false} SortByCorrect<T>(s: seq<T>, key: T -> string)
    ensures SortedBy(SortBy(s, key), key)
    ensures multiset(SortBy(s, key)) == multiset(s)
  {
    if s != [] {
      SortByCorrect(s[1..], key);
      InsertCorrect(s[0], SortBy(s[1..], key), key);
      assert s == [s[0]] + s[1..];
    }
  }

  /** A sorted sequence with distinct keys is strictly ascending. */
  lemma SortedDistinctStrict<T>(s: seq<T>, key: T -> string)
    requires SortedBy(s, key) && DistinctKeys(s, key)
    ensures forall i, j :: 0 <= i < j < |s| ==> Text.Less(key(s[i]), key(s[j]))
  {
    forall i, j | 0 <= i < j < |s| ensures Text.Less(key(s[i]), key(s[j])) {
      Text.LessTotal(key(s[i]), key(s[j]));
    }
  }

  /** Strictly ascending keys. */
  predicate StrictlySortedBy<T>(s: seq<T>, key: T -> string) {
    forall i, j :: 0 <= i < j < |s| ==> Text.Less(key(s[i]), key(s[j]))
  }

  /** Inserting a new key into a strictly ascending sequence keeps it strictly ascending. */
  lemma {:induction false} InsertStrict<T(!new)>(x: T, s: seq<T>, key: T -> string)
    requires StrictlySortedBy(s, key)
    requires forall y :: y in s ==> key(y) != key(x)
    ensures StrictlySortedBy(Insert(x, s, key), key)
    ensures forall y :: y in Insert(x, s, key) <==> y == x || y in s
  {
    if s == [] {
    } else if Text.Less(key(s[0]), key(x)) {
      var tail := s[1..];
      var rest := Insert(x, tail, key);
      InsertStrict(x, tail, key);
      assert s == [s[0]] + tail;
      forall j | 0 <= j < |rest| ensures Text.Less(key(s[0]), key(rest[j])) {
        var z := rest[j];
        assert z in rest;
        assert z == x || z in tail;
        if z in tail {
          var k :| 0 <= k < |tail| && tail[k] == z;
          assert s[k + 1] == z;
        }
      }
    } else {
      Text.LessTotal(key(x), key(s[0]));
      forall j | 0 <= j < |s| ensures Text.Less(key(x), key(s[j])) {
        if j > 0 {
          Text.LessTransitive(key(x), key(s[0]), key(s[j]));
        }
      }
    }
  }

  /** Sorting a sequence with distinct keys gives its elements in strictly ascending order. */
  lemma {:induction false} SortByStrict<T(!new)>(s: seq<T>, key: T -> string)
    requires DistinctKeys(s, key)
    ensures StrictlySortedBy(SortBy(s, key), key)
    ensures forall y :: y in SortBy(s, key) <==> y in s
  {
    if s != [] {
      assert s == [s[0]] + s[1..];
      assert DistinctKeys(s[1..], key);
      SortByStrict(s[1..], key);
      forall y | y in SortBy(s[1..], key) ensures key(y) != key(s[0]) {
        assert y in s[1..];
        var k :| 0 <= k < |s[1..]| && s[1..][k] == y;
        assert s[k + 1] == y;
      }
      InsertStrict(s[0], SortBy(s[1..], key), key);
    }
  }

  /** The identity key, for sorting strings themselves (`sort.Strings`). */
  function Id(s: string): string { s }

  /** Some enumeration of a finite set of strings, each element once. */
  ghost function Enumerate(keys: set<string>): (r: seq<string>)
    ensures forall k :: k in r <==> k in keys
    ensures DistinctKeys(r, Id)
    decreases keys
  {
    if keys == {} then []
    else
      var k :| k in keys;
      [k] + Enumerate(keys - {k})
  }

  /** The elements of a finite set of strings in ascending order. */
  ghost function SortedSet(keys: set<string>): (r: seq<string>)
    ensures StrictlySortedBy(r, Id)
    ensures forall k :: k in r <==> k in keys
  {
    SortByStrict(Enumerate(keys), Id);
    SortBy(Enumerate(keys), Id)
  }

  /** Two strictly ascending sequences with the same elements are equal. */
  lemma {:induction false} StrictlySortedUnique(a: seq<string>, b: seq<string>)
    requires StrictlySortedBy(a, Id) && StrictlySortedBy(b, Id)
    requires forall k :: k in a <==> k in b
    ensures a == b
  {
    assert |a| > 0 ==> a[0] in b;
    assert |b| > 0 ==> b[0] in a;
    if a != [] {
      var i :| 0 <= i < |b| && b[i] == a[0];
      var j :| 0 <= j < |a| && a[j] == b[0];
      if i > 0 && j > 0 {
        Text.LessAsymmetric(b[0], b[i]);
      }
      assert a[0] == b[0];
      assert a == [a[0]] + a[1..] && b == [b[0]] + b[1..];
      forall k ensures k in a[1..] <==> k in b[1..] {
        if k in a[1..] {
          var x :| 0 <= x < |a[1..]| && a[1..][x] == k;
          assert a[x + 1] == k;
          Text.LessIrreflexive(a[0]);
          assert k != a[0] && k in b;
        }
        if k in b[1..] {
          var y :| 0 <= y < |b[1..]| && b[1..][y] == k;
          assert b[y + 1] == k;
          Text.LessIrreflexive(b[0]);
          assert k != b[0] && k in a;
        }
      }
      StrictlySortedUnique(a[1..], b[1..]);
    }
  }

  /** Sorting any enumeration of a set of strings gives the set in ascending order. */
  lemma SortEnumeration(names: seq<string>, keys: set<string>)
    requires DistinctKeys(names, Id)
    requires forall k :: k in names <==> k in keys
    ensures SortBy(names, Id) == SortedSet(keys)
  {
    SortByStrict(names, Id);
    StrictlySortedUnique(SortBy(names, Id), SortedSet(keys));
  }
}
