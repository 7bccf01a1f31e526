/** The stable sort both runtimes provide (Python's sorted(), JavaScript's
    Array.prototype.sort since ES2019), over an integer sort key. A
    descending sort is the ascending sort of the negated key: Python keeps
    equal elements in their original order under reverse=True too. */
module Sorting {

  predicate SortedBy<T>(s: seq<T>, key: T -> int) {
    forall i, j :: 0 <= i < j < |s| ==> key(s[i]) <= key(s[j])
  }

  /** The elements of s whose key is k, in their order in s. */
  function WithKey<T>(s: seq<T>, key: T -> int, k: int): seq<T>
    decreases |s|
  {
    if s == [] then []
    else (if key(s[0]) == k then [s[0]] else []) + WithKey(s[1..], key, k)
  }

  /** x placed in front of the first element whose key is not smaller. */
  function Insert<T>(x: T, s: seq<T>, key: T -> int): (r: seq<T>)
    ensures multiset(r) == multiset(s) + multiset{x}
    ensures SortedBy(s, key) ==> SortedBy(r, key)
    decreases |s|
  {
    if s == [] || key(x) <= key(s[0]) then [x] + s
    else
      var t := Insert(x, s[1..], key);
      assert s == [s[0]] + s[1..];
      InsertLowerBound(x, s, key, t);
      [s[0]] + t
  }

  lemma InsertLowerBound<T>(x: T, s: seq<T>, key: T -> int, t: seq<T>)
    requires s != [] && key(s[0]) < key(x)
    requires multiset(t) == multiset(s[1..]) + multiset{x}
    requires SortedBy(s[1..], key) ==> SortedBy(t, key)
    ensures SortedBy(s, key) ==> SortedBy([s[0]] + t, key)
  {
    if SortedBy(s, key) {
      var y := s[0];
      forall j | 0 <= j < |t| ensures key(y) <= key(t[j]) {
        assert t[j] in multiset(t);
        if t[j] != x {
          assert t[j] in multiset(s[1..]);
          var m :| 0 <= m < |s[1..]| && s[1..][m] == t[j];
          assert s[m + 1] == t[j];
        }
      }
      var r := [y] + t;
      forall i, j | 0 <= i < j < |r| ensures key(r[i]) <= key(r[j]) {
        if i > 0 { assert r[i] == t[i - 1] && r[j] == t[j - 1]; }
        else { assert r[j] == t[j - 1]; }
      }
    }
  }

  function SortBy<T>(s: seq<T>, key: T -> int): (r: seq<T>)
    ensures multiset(r) == multiset(s)
    ensures SortedBy(r, key)
    decreases |s|
  {
    if s == [] then []
    else
      assert s == [s[0]] + s[1..];
      Insert(s[0], SortBy(s[1..], key), key)
  }

  lemma {:induction false} InsertKeepsEqualKeyOrder<T>(x: T, s: seq<T>, key: T -> int, k: int)
    ensures WithKey(Insert(x, s, key), key, k)
         == (if key(x) == k then [x] else []) + WithKey(s, key, k)
    decreases |s|
  {
    if s == [] || key(x) <= key(s[0]) {
      assert ([x] + s)[1..] == s;
    } else {
      InsertKeepsEqualKeyOrder(x, s[1..], key, k);
      var t := Insert(x, s[1..], key);
      assert ([s[0]] + t)[1..] == t;
      if key(x) == k {
        WithKeyOfSorted(s, key, k, x);
      }
    }
  }

  /** Elements of a sorted sequence that come before the first element with a
      key at least key(x) all have a smaller key; so when the first element
      already has a smaller key, none has key k == key(x) before x lands. */
  lemma WithKeyOfSorted<T>(s: seq<T>, key: T -> int, k: int, x: T)
    requires s != [] && key(x) > key(s[0]) && key(x) == k
    ensures WithKey(s, key, k) == WithKey(s[1..], key, k)
  {
  }

  /** The sort is stable: the elements sharing a key keep their original order. */
  lemma {:induction false} SortByStable<T>(s: seq<T>, key: T -> int, k: int)
    ensures WithKey(SortBy(s, key), key, k) == WithKey(s, key, k)
    decreases |s|
  {
    if s != [] {
      SortByStable(s[1..], key, k);
      InsertKeepsEqualKeyOrder(s[0], SortBy(s[1..], key), key, k);
    }
  }
}
