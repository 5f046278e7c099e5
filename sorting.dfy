/** Stable insertion sort by an integer key: the model of Python's `list.sort(key=...)`
  * and of Django's `order_by` on one integer column. */
module Sorting {

  ghost predicate SortedBy<T>(xs: seq<T>, key: T -> int)
  {
    forall i, j :: 0 <= i < j < |xs| ==> key(xs[i]) <= key(xs[j])
  }

  ghost predicate StrictlySortedBy<T>(xs: seq<T>, key: T -> int)
  {
    forall i, j :: 0 <= i < j < |xs| ==> key(xs[i]) < key(xs[j])
  }

  /** No two positions of xs share a key. */
  ghost predicate DistinctKeys<T>(xs: seq<T>, key: T -> int)
  {
    forall i, j :: 0 <= i < j < |xs| ==> key(xs[i]) != key(xs[j])
  }

  /** Inserts x after every element whose key is at most x's key (so equal keys keep
    * their arrival order). */
  function InsertBy<T(!new)>(x: T, xs: seq<T>, key: T -> int): (r: seq<T>)
    requires SortedBy(xs, key)
    ensures SortedBy(r, key)
    ensures multiset(r) == multiset(xs) + multiset{x}
    ensures forall y :: y in r <==> y == x || y in xs
  {
    if xs == [] then [x]
    else
      var head, tail := xs[0], xs[1..];
      assert xs == [head] + tail;
      HeadIsLeast(xs, key);
      if key(x) < key(head) then
        ConsSorted(x, xs, key);
        [x] + xs
      else
        var rest := InsertBy(x, tail, key);
        ConsSorted(head, rest, key);
        assert multiset([head] + rest) == multiset{head} + multiset(rest);
        [head] + rest
  }

  /** The first element of a sorted sequence has the least key. */
  lemma HeadIsLeast<T>(xs: seq<T>, key: T -> int)
    requires xs != [] && SortedBy(xs, key)
    ensures SortedBy(xs[1..], key)
    ensures forall y :: y in xs ==> key(xs[0]) <= key(y)
  {
    forall y | y in xs
      ensures key(xs[0]) <= key(y)
    {
      var j :| 0 <= j < |xs| && xs[j] == y;
      if j > 0 {
        assert key(xs[0]) <= key(xs[j]);
      }
    }
  }

  /** An element no greater than a sorted sequence can go in front of it. */
  lemma ConsSorted<T>(h: T, rest: seq<T>, key: T -> int)
    requires SortedBy(rest, key) && forall y :: y in rest ==> key(h) <= key(y)
    ensures SortedBy([h] + rest, key)
  {
    var r := [h] + rest;
    forall i, j | 0 <= i < j < |r|
      ensures key(r[i]) <= key(r[j])
    {
      assert r[j] == rest[j - 1];
      assert rest[j - 1] in rest;
      if i > 0 {
        assert r[i] == rest[i - 1];
      }
    }
  }

  /** The elements of xs ordered by key, equal keys in their original order. */
  function SortBy<T(!new)>(xs: seq<T>, key: T -> int): (r: seq<T>)
    ensures SortedBy(r, key)
    ensures multiset(r) == multiset(xs)
    ensures forall y :: y in r <==> y in xs
  {
    if xs == [] then []
    else
      assert xs == xs[..|xs| - 1] + [xs[|xs| - 1]];
      InsertBy(xs[|xs| - 1], SortBy(xs[..|xs| - 1], key), key)
  }

  /** The elements of xs whose key is k, in their order in xs. */
  function WithKey<T(!new)>(xs: seq<T>, key: T -> int, k: int): (r: seq<T>)
    ensures |r| <= |xs|
  {
    if xs == [] then []
    else
      (if key(xs[0]) == k then [xs[0]] else []) + WithKey(xs[1..], key, k)
  }

  lemma {:induction false} WithKeyAppend<T(!new)>(a: seq<T>, b: seq<T>, key: T -> int, k: int)
    ensures WithKey(a + b, key, k) == WithKey(a, key, k) + WithKey(b, key, k)
  {
    if a == [] {
      assert a + b == b;
    } else {
      var h, t := a[0], a[1..];
      assert a == [h] + t;
      assert a + b == [h] + (t + b);
      WithKeyCons(h, t + b, key, k);
      WithKeyCons(h, t, key, k);
      WithKeyAppend(t, b, key, k);
    }
  }

  lemma WithKeyCons<T(!new)>(h: T, t: seq<T>, key: T -> int, k: int)
    ensures WithKey([h] + t, key, k) == (if key(h) == k then [h] else []) + WithKey(t, key, k)
  {
    assert ([h] + t)[1..] == t;
  }

  /** No element of xs has key k. */
  lemma {:induction false} NoneWithKey<T(!new)>(xs: seq<T>, key: T -> int, k: int)
    requires forall y :: y in xs ==> key(y) != k
    ensures WithKey(xs, key, k) == []
  {
    if xs != [] {
      assert xs[0] in xs;
      assert forall y :: y in xs[1..] ==> y in xs;
      NoneWithKey(xs[1..], key, k);
    }
  }

  /** Inserting x keeps the elements of every key in their order, and puts x after the
    * elements that share its key. */
  lemma {:induction false} InsertByStable<T(!new)>(x: T, xs: seq<T>, key: T -> int, k: int)
    requires SortedBy(xs, key)
    ensures WithKey(InsertBy(x, xs, key), key, k) == WithKey(xs, key, k) + (if key(x) == k then [x] else [])
  {
    if xs == [] || key(x) < key(xs[0]) {
      InsertInFront(x, xs, key, k);
    } else {
      var rest := InsertBy(x, xs[1..], key);
      assert InsertBy(x, xs, key) == [xs[0]] + rest;
      assert SortedBy(xs[1..], key) by {
        HeadIsLeast(xs, key);
      }
      InsertByStable(x, xs[1..], key, k);
      WithKeyCons(xs[0], rest, key, k);
      assert WithKey(xs, key, k) == (if key(xs[0]) == k then [xs[0]] else []) + WithKey(xs[1..], key, k);
    }
  }

  /** An element whose key is below the first goes in front, after no element of its
    * own key. */
  lemma InsertInFront<T(!new)>(x: T, xs: seq<T>, key: T -> int, k: int)
    requires SortedBy(xs, key) && (xs == [] || key(x) < key(xs[0]))
    ensures WithKey(InsertBy(x, xs, key), key, k) == WithKey(xs, key, k) + (if key(x) == k then [x] else [])
  {
    assert InsertBy(x, xs, key) == [x] + xs;
    WithKeyCons(x, xs, key, k);
    if xs != [] && key(x) == k {
      assert forall y :: y in xs ==> key(y) != k by {
        HeadIsLeast(xs, key);
      }
      NoneWithKey(xs, key, k);
    }
  }

  lemma InitLast<T>(xs: seq<T>)
    requires xs != []
    ensures xs == xs[..|xs| - 1] + [xs[|xs| - 1]]
  {
  }

  /** SortBy is stable: the elements of every key keep their original order. */
  lemma {:induction false} SortByStable<T(!new)>(xs: seq<T>, key: T -> int, k: int)
    ensures WithKey(SortBy(xs, key), key, k) == WithKey(xs, key, k)
  {
    if xs != [] {
      var init, last := xs[..|xs| - 1], xs[|xs| - 1];
      var sorted := SortBy(init, key);
      assert SortBy(xs, key) == InsertBy(last, sorted, key);
      assert WithKey(InsertBy(last, sorted, key), key, k) == WithKey(sorted, key, k) + (if key(last) == k then [last] else []) by {
        InsertByStable(last, sorted, key, k);
      }
      SortByStable(init, key, k);
      assert WithKey(xs, key, k) == WithKey(init, key, k) + WithKey([last], key, k) by {
        InitLast(xs);
        WithKeyAppend(init, [last], key, k);
      }
      assert WithKey([last], key, k) == (if key(last) == k then [last] else []) by {
        WithKeyCons(last, [], key, k);
        assert [last] + [] == [last];
      }
    }
  }

  lemma {:induction false} InsertByStrict<T(!new)>(x: T, xs: seq<T>, key: T -> int)
    requires StrictlySortedBy(xs, key)
    requires forall y :: y in xs ==> key(y) != key(x)
    ensures StrictlySortedBy(InsertBy(x, xs, key), key)
  {
    if xs != [] && key(x) >= key(xs[0]) {
      InsertByStrict(x, xs[1..], key);
      var rest := InsertBy(x, xs[1..], key);
      assert forall y :: y in rest ==> key(xs[0]) < key(y) by {
        forall y | y in rest ensures key(xs[0]) < key(y) {
          if y != x {
            var k :| 0 <= k < |xs[1..]| && xs[1..][k] == y;
            assert xs[k + 1] == y;
          }
        }
      }
    }
  }

  /** Sorting a sequence whose keys are pairwise distinct yields strictly increasing keys. */
  lemma {:induction false} SortByStrict<T(!new)>(xs: seq<T>, key: T -> int)
    requires DistinctKeys(xs, key)
    ensures StrictlySortedBy(SortBy(xs, key), key)
  {
    if xs != [] {
      var init, last := xs[..|xs| - 1], xs[|xs| - 1];
      SortByStrict(init, key);
      forall y | y in SortBy(init, key) ensures key(y) != key(last) {
        var k :| 0 <= k < |init| && init[k] == y;
        assert xs[k] == y;
      }
      InsertByStrict(last, SortBy(init, key), key);
    }
  }

  /** Takes some element of a non-empty set: the model of iterating a dictionary or a
    * set in an order the program does not control. */
  method Pick<T>(s: set<T>) returns (x: T)
    requires s != {}
    ensures x in s
  {
    x :| x in s;
  }
}
