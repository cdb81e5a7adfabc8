/** A stable sort by an integer key, as the standard library's `sort_by_key`. */
module Sorting {
  /** Inserts `x` after every element whose key is not larger. */
  function Insert<T>(x: T, s: seq<T>, key: T -> int): seq<T> {
    if s == [] || key(s[|s| - 1]) <= key(x) then s + [x]
    else Insert(x, s[..|s| - 1], key) + [s[|s| - 1]]
  }

  function Sort<T>(s: seq<T>, key: T -> int): seq<T> {
    if s == [] then [] else Insert(s[|s| - 1], Sort(s[..|s| - 1], key), key)
  }

  ghost predicate Sorted<T>(s: seq<T>, key: T -> int) {
    forall i, j :: 0 <= i < j < |s| ==> key(s[i]) <= key(s[j])
  }

  ghost predicate Increasing<T>(s: seq<T>, key: T -> int) {
    forall i, j :: 0 <= i < j < |s| ==> key(s[i]) < key(s[j])
  }

  lemma {:induction false} InsertKeeps<T>(x: T, s: seq<T>, key: T -> int)
    ensures multiset(Insert(x, s, key)) == multiset(s) + multiset{x}
  {
    if s != [] && key(s[|s| - 1]) > key(x) {
      var rest := s[..|s| - 1];
      InsertKeeps(x, rest, key);
      assert s == rest + [s[|s| - 1]];
    }
  }

  lemma {:induction false} InsertSorted<T>(x: T, s: seq<T>, key: T -> int)
    requires Sorted(s, key)
    ensures Sorted(Insert(x, s, key), key)
  {
    if s != [] && key(s[|s| - 1]) > key(x) {
      var rest := s[..|s| - 1];
      InsertSorted(x, rest, key);
      InsertKeeps(x, rest, key);
      var r := Insert(x, rest, key);
      forall i | 0 <= i < |r|
        ensures key(r[i]) <= key(s[|s| - 1])
      {
        assert r[i] in multiset(r);
        assert r[i] in rest || r[i] == x;
      }
    }
  }

  /** Sorting keeps the elements and puts them in order. */
  lemma {:induction false} SortOrders<T>(s: seq<T>, key: T -> int)
    ensures multiset(Sort(s, key)) == multiset(s) && |Sort(s, key)| == |s|
    ensures Sorted(Sort(s, key), key)
  {
    if s != [] {
      var rest := s[..|s| - 1];
      SortOrders(rest, key);
      InsertKeeps(s[|s| - 1], Sort(rest, key), key);
      InsertSorted(s[|s| - 1], Sort(rest, key), key);
      assert s == rest + [s[|s| - 1]];
    }
    assert |multiset(Sort(s, key))| == |multiset(s)|;
  }

  /** A sequence already in order is left as it is. */
  lemma {:induction false} SortOfSorted<T>(s: seq<T>, key: T -> int)
    requires Sorted(s, key)
    ensures Sort(s, key) == s
  {
    if s != [] {
      SortOfSorted(s[..|s| - 1], key);
    }
  }

  lemma SameLast<T>(a: seq<T>, b: seq<T>, key: T -> int)
    requires a != [] && |a| == |b| && Increasing(a, key) && Sorted(b, key) && multiset(a) == multiset(b)
    ensures a[|a| - 1] == b[|b| - 1]
  {
    var n := |a| - 1;
    assert a[n] in multiset(b) && b[n] in multiset(a);
    var i :| 0 <= i < |b| && b[i] == a[n];
    var j :| 0 <= j < |a| && a[j] == b[n];
    assert key(b[i]) <= key(b[n]);
  }

  lemma WithoutLast<T>(s: seq<T>)
    requires s != []
    ensures multiset(s[..|s| - 1]) == multiset(s) - multiset{s[|s| - 1]} && s == s[..|s| - 1] + [s[|s| - 1]]
  {
    assert s == s[..|s| - 1] + [s[|s| - 1]];
  }

  lemma PrefixOrdered<T>(a: seq<T>, b: seq<T>, n: nat, key: T -> int)
    requires Increasing(a, key) && Sorted(b, key) && n <= |a| && n <= |b|
    ensures Increasing(a[..n], key) && Sorted(b[..n], key)
  {
  }

  lemma SameSize<T>(a: seq<T>, b: seq<T>)
    requires multiset(a) == multiset(b)
    ensures |a| == |b|
  {
    assert |multiset(a)| == |multiset(b)|;
  }

  /** Elements with distinct keys have one order only. */
  lemma {:induction false} OneOrder<T>(a: seq<T>, b: seq<T>, key: T -> int)
    requires Increasing(a, key) && Sorted(b, key) && multiset(a) == multiset(b)
    ensures a == b
  {
    hide Increasing, Sorted;
    SameSize(a, b);
    if a != [] {
      var n := |a| - 1;
      SameLast(a, b, key);
      WithoutLast(a);
      WithoutLast(b);
      PrefixOrdered(a, b, n, key);
      OneOrder(a[..n], b[..n], key);
    }
  }

  /** The elements with the given key, in order. */
  function WithKey<T>(s: seq<T>, key: T -> int, k: int): seq<T> {
    if s == [] then []
    else
      var before, last := WithKey(s[..|s| - 1], key, k), s[|s| - 1];
      if key(last) == k then before + [last] else before
  }

  lemma WithKeySnoc<T>(s: seq<T>, x: T, key: T -> int, k: int)
    ensures WithKey(s + [x], key, k) == if key(x) == k then WithKey(s, key, k) + [x] else WithKey(s, key, k)
  {
    assert (s + [x])[..|s|] == s;
  }

  lemma {:induction false} InsertStable<T>(x: T, s: seq<T>, key: T -> int, k: int)
    ensures WithKey(Insert(x, s, key), key, k) == if key(x) == k then WithKey(s, key, k) + [x] else WithKey(s, key, k)
  {
    if s == [] || key(s[|s| - 1]) <= key(x) {
      WithKeySnoc(s, x, key, k);
    } else {
      var rest := s[..|s| - 1];
      InsertStable(x, rest, key, k);
      WithKeySnoc(Insert(x, rest, key), s[|s| - 1], key, k);
    }
  }

  /** Elements with the same key stay in the order they had. */
  lemma {:induction false} SortStable<T>(s: seq<T>, key: T -> int, k: int)
    ensures WithKey(Sort(s, key), key, k) == WithKey(s, key, k)
  {
    if s != [] {
      SortStable(s[..|s| - 1], key, k);
      InsertStable(s[|s| - 1], Sort(s[..|s| - 1], key), key, k);
    }
  }
}
