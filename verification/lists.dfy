/** `Array.prototype.filter` and the counts the pages take of it. */
module Lists {

  /** `r` is `s` with some of its elements left out and the others kept in
      their order. */
  ghost predicate Subsequence<T>(r: seq<T>, s: seq<T>)
    decreases |s|
  {
    if s == [] then r == []
    else (r != [] && r[|r| - 1] == s[|s| - 1] && Subsequence(r[..|r| - 1], s[..|s| - 1]))
         || Subsequence(r, s[..|s| - 1])
  }

  /** The elements satisfying `p`, in their order. */
  function Keep<T(!new)>(s: seq<T>, p: T -> bool): (r: seq<T>)
    ensures |r| <= |s|
    ensures forall x :: x in r <==> x in s && p(x)
    decreases |s|
  {
    if s == [] then []
    else
      assert forall x :: x in s <==> x in s[..|s| - 1] || x == s[|s| - 1];
      Keep(s[..|s| - 1], p) + (if p(s[|s| - 1]) then [s[|s| - 1]] else [])
  }

  /** The filter keeps each passing element as often as `s` holds it, and
      in the order of `s`. */
  lemma {:induction false} KeepSpec<T(!new)>(s: seq<T>, p: T -> bool)
    ensures forall x :: multiset(Keep(s, p))[x] == if p(x) then multiset(s)[x] else 0
    ensures Subsequence(Keep(s, p), s)
    decreases |s|
  {
    if s != [] {
      var init, last := s[..|s| - 1], s[|s| - 1];
      KeepSpec(init, p);
      assert s == init + [last];
      assert multiset(s) == multiset(init) + multiset{last};
      var kept := Keep(init, p);
      if p(last) {
        assert Keep(s, p) == kept + [last];
        assert (kept + [last])[..|kept|] == kept;
        assert multiset(kept + [last]) == multiset(kept) + multiset{last};
      } else {
        assert Keep(s, p) == kept;
      }
    }
  }

  lemma {:induction false} SubsequenceOfSelf<T>(s: seq<T>)
    ensures Subsequence(s, s)
    decreases |s|
  {
    if s != [] {
      SubsequenceOfSelf(s[..|s| - 1]);
    }
  }

  /** In a sequence without repeats each element occurs once. */
  lemma {:induction false} DistinctCount<T>(s: seq<T>, x: T)
    requires forall i, j :: 0 <= i < j < |s| ==> s[i] != s[j]
    ensures multiset(s)[x] == if x in s then 1 else 0
    decreases |s|
  {
    if s != [] {
      var init, last := s[..|s| - 1], s[|s| - 1];
      assert s == init + [last];
      assert forall k :: 0 <= k < |init| ==> init[k] == s[k];
      DistinctCount(init, x);
    }
  }

  lemma DistinctCounts<T>(s: seq<T>)
    requires forall i, j :: 0 <= i < j < |s| ==> s[i] != s[j]
    ensures forall x :: multiset(s)[x] == if x in s then 1 else 0
  {
    forall x ensures multiset(s)[x] == if x in s then 1 else 0 {
      DistinctCount(s, x);
    }
  }

  /** A sequence is what comes before an index, the element there, and
      what comes after. */
  lemma SplitAt<T>(s: seq<T>, i: nat)
    requires i < |s|
    ensures s == s[..i] + [s[i]] + s[i + 1..]
    ensures (s[..i] + [s[i]])[..i] == s[..i]
  {
    assert s[..i + 1] == s[..i] + [s[i]];
    assert s == s[..i + 1] + s[i + 1..];
  }

  /** A filter that everything passes is a copy. */
  lemma {:induction false} KeepAll<T(!new)>(s: seq<T>, p: T -> bool)
    requires forall x :: x in s ==> p(x)
    ensures Keep(s, p) == s
    decreases |s|
  {
    if s != [] {
      assert s[..|s| - 1] + [s[|s| - 1]] == s;
      KeepAll(s[..|s| - 1], p);
    }
  }

  /** A filter nothing passes leaves nothing. */
  lemma {:induction false} KeepNone<T(!new)>(s: seq<T>, p: T -> bool)
    requires forall x :: x in s ==> !p(x)
    ensures Keep(s, p) == []
    decreases |s|
  {
    if s != [] {
      KeepNone(s[..|s| - 1], p);
    }
  }

  /** Two tests that agree on every element keep the same elements. */
  lemma {:induction false} KeepAgreeing<T(!new)>(s: seq<T>, p: T -> bool, q: T -> bool)
    requires forall x :: x in s ==> p(x) == q(x)
    ensures Keep(s, p) == Keep(s, q)
    decreases |s|
  {
    if s != [] {
      KeepAgreeing(s[..|s| - 1], p, q);
    }
  }

  /** Filtering twice is filtering once with both tests. */
  lemma {:induction false} KeepOfKeep<T(!new)>(s: seq<T>, p: T -> bool, q: T -> bool)
    ensures Keep(Keep(s, p), q) == Keep(s, x => p(x) && q(x))
    decreases |s|
  {
    if s != [] {
      var init, last := s[..|s| - 1], s[|s| - 1];
      KeepOfKeep(init, p, q);
      var kept := Keep(init, p) + (if p(last) then [last] else []);
      if p(last) {
        assert kept[..|kept| - 1] == Keep(init, p);
      } else {
        assert kept == Keep(init, p);
      }
    }
  }

  /** An element passes `p` or fails it: the two counts add up to the
      length. */
  lemma {:induction false} KeepSplits<T(!new)>(s: seq<T>, p: T -> bool)
    ensures |Keep(s, p)| + |Keep(s, x => !p(x))| == |s|
    decreases |s|
  {
    if s != [] {
      KeepSplits(s[..|s| - 1], p);
    }
  }

  /** `counts[name] = (counts[name] || 0) + 1` over the names in order. */
  function Tally<T>(names: seq<T>): map<T, int>
    decreases |names|
  {
    if names == [] then map[]
    else
      var t := Tally(names[..|names| - 1]);
      var n := names[|names| - 1];
      t[n := (if n in t then t[n] else 0) + 1]
  }

  function Occurrences<T(==)>(names: seq<T>, n: T): nat
    decreases |names|
  {
    if names == [] then 0
    else Occurrences(names[..|names| - 1], n) + (if names[|names| - 1] == n then 1 else 0)
  }

  /** Each name is counted once per occurrence, and no other name is
      counted. */
  lemma {:induction false} TallyCounts<T>(names: seq<T>)
    ensures forall n :: n in Tally(names) <==> n in names
    ensures forall n :: n in Tally(names) ==> Tally(names)[n] == Occurrences(names, n)
    decreases |names|
  {
    if names != [] {
      var init := names[..|names| - 1];
      TallyCounts(init);
      assert forall n :: n in names <==> n in init || n == names[|names| - 1];
      forall n | n in Tally(names) ensures Tally(names)[n] == Occurrences(names, n) {
        if n !in init {
          assert Occurrences(init, n) == 0 by { OccurrencesOfAbsent(init, n); }
        }
      }
    }
  }

  lemma {:induction false} OccurrencesOfAbsent<T>(names: seq<T>, n: T)
    requires n !in names
    ensures Occurrences(names, n) == 0
    decreases |names|
  {
    if names != [] {
      assert names[..|names| - 1] <= names;
      OccurrencesOfAbsent(names[..|names| - 1], n);
    }
  }

  lemma TallySnoc<T>(names: seq<T>, n: T)
    ensures Tally(names + [n]) == Tally(names)[n := (if n in Tally(names) then Tally(names)[n] else 0) + 1]
  {
    assert (names + [n])[..|names|] == names;
  }

  /** More names added to a tally, in order. */
  method TallyNames<T>(counts: map<T, int>, names: seq<T>, ghost done: seq<T>)
    returns (counts': map<T, int>)
    requires counts == Tally(done)
    ensures counts' == Tally(done + names)
  {
    counts' := counts;
    var k := 0;
    assert done + names[..k] == done;
    while k < |names|
      invariant 0 <= k <= |names|
      invariant counts' == Tally(done + names[..k])
    {
      var name := names[k];
      assert done + names[..k + 1] == (done + names[..k]) + [name];
      TallySnoc(done + names[..k], name);
      counts' := counts'[name := (if name in counts' then counts'[name] else 0) + 1];
      k := k + 1;
    }
    assert names[..k] == names;
  }

}
