/** Python's `sorted(..., key=...)`: a stable sort. */
module Sorting {

  predicate SortedBy<T>(s: seq<T>, key: T -> real) {
    forall i, j :: 0 <= i < j < |s| ==> key(s[i]) <= key(s[j])
  }

  function Insert<T>(x: T, s: seq<T>, key: T -> real): (r: seq<T>)
    ensures multiset(r) == multiset{x} + multiset(s)
  {
    if |s| == 0 || key(x) <= key(s[0]) then [x] + s
    else
      assert s == [s[0]] + s[1..];
      [s[0]] + Insert(x, s[1..], key)
  }

  function Sort<T>(s: seq<T>, key: T -> real): (r: seq<T>)
    ensures multiset(r) == multiset(s)
  {
    if |s| == 0 then []
    else
      assert s == [s[0]] + s[1..];
      Insert(s[0], Sort(s[1..], key), key)
  }

  /** The elements with a given key, in their order. */
  function WithKey<T>(s: seq<T>, key: T -> real, k: real): seq<T> {
    if |s| == 0 then [] else (if key(s[0]) == k then [s[0]] else []) + WithKey(s[1..], key, k)
  }

  lemma {:induction false} InsertSorts<T>(x: T, s: seq<T>, key: T -> real)
    requires SortedBy(s, key)
    ensures SortedBy(Insert(x, s, key), key)
  {
    if |s| > 0 && key(x) > key(s[0]) {
      InsertSorts(x, s[1..], key);
      var r := Insert(x, s[1..], key);
      forall i | 0 <= i < |r|
        ensures key(s[0]) <= key(r[i])
      {
        assert r[i] in multiset(r);
        assert r[i] == x || r[i] in s[1..];
      }
    }
  }

  lemma WithKeyCons<T>(x: T, s: seq<T>, key: T -> real, k: real)
    ensures WithKey([x] + s, key, k) == (if key(x) == k then [x] else []) + WithKey(s, key, k)
  {
    assert ([x] + s)[1..] == s;
  }

  lemma {:induction false} InsertKeepsOrder<T>(x: T, s: seq<T>, key: T -> real, k: real)
    ensures WithKey(Insert(x, s, key), key, k) == WithKey([x] + s, key, k)
  {
    assert ([x] + s)[1..] == s;
    if |s| > 0 && key(x) > key(s[0]) {
      InsertKeepsOrder(x, s[1..], key, k);
      WithKeyCons(x, s[1..], key, k);
      WithKeyCons(s[0], Insert(x, s[1..], key), key, k);
    }
  }

  /** The result is ordered by key, and elements with equal keys keep their order. */
  lemma {:induction false} SortIsStable<T>(s: seq<T>, key: T -> real)
    ensures SortedBy(Sort(s, key), key)
    ensures forall k :: WithKey(Sort(s, key), key, k) == WithKey(s, key, k)
  {
    if |s| == 0 {
    } else {
      var rest := Sort(s[1..], key);
      SortIsStable(s[1..], key);
      InsertSorts(s[0], rest, key);
      forall k
        ensures WithKey(Sort(s, key), key, k) == WithKey(s, key, k)
      {
        InsertKeepsOrder(s[0], rest, key, k);
        assert ([s[0]] + rest)[1..] == rest;
      }
    }
  }
}
