/**
 Python's `sorted(xs, key=key, reverse=reverse)`: a stable insertion sort.
 With `reverse`, keys go from largest to smallest and items with equal keys
 keep their original order, as in Python.
 */
module Sorting {

  predicate InOrder(a: int, b: int, reverse: bool) {
    if reverse then a >= b else a <= b
  }

  predicate Ordered<T>(s: seq<T>, key: T -> int, reverse: bool) {
    forall i, j | 0 <= i < j < |s| :: InOrder(key(s[i]), key(s[j]), reverse)
  }

  /** The items with key k, in their order of appearance. */
  function WithKey<T>(s: seq<T>, key: T -> int, k: int): seq<T> {
    if s == [] then []
    else (if key(s[0]) == k then [s[0]] else []) + WithKey(s[1..], key, k)
  }

  /** Puts e in front of the first element it may precede. */
  function Insert<T>(e: T, s: seq<T>, key: T -> int, reverse: bool): (r: seq<T>)
    ensures multiset(r) == multiset(s) + multiset{e}
    ensures |r| == |s| + 1
  {
    if s == [] || InOrder(key(e), key(s[0]), reverse) then [e] + s
    else
      assert s == [s[0]] + s[1..];
      [s[0]] + Insert(e, s[1..], key, reverse)
  }

  function Sort<T>(s: seq<T>, key: T -> int, reverse: bool): (r: seq<T>)
    ensures multiset(r) == multiset(s)
    ensures |r| == |s|
  {
    if s == [] then []
    else
      assert s == [s[0]] + s[1..];
      Insert(s[0], Sort(s[1..], key, reverse), key, reverse)
  }

  lemma {:induction false} InsertOrdered<T>(e: T, s: seq<T>, key: T -> int, reverse: bool)
    requires Ordered(s, key, reverse)
    ensures Ordered(Insert(e, s, key, reverse), key, reverse)
  {
    if s == [] || InOrder(key(e), key(s[0]), reverse) {
      var r := [e] + s;
      forall i, j | 0 <= i < j < |r| ensures InOrder(key(r[i]), key(r[j]), reverse) {
        if i > 0 {
          assert r[i] == s[i - 1] && r[j] == s[j - 1];
        } else {
          assert r[j] == s[j - 1];
        }
      }
    } else {
      var rest := Insert(e, s[1..], key, reverse);
      InsertOrdered(e, s[1..], key, reverse);
      var r := [s[0]] + rest;
      forall i, j | 0 <= i < j < |r| ensures InOrder(key(r[i]), key(r[j]), reverse) {
        if i > 0 {
          assert r[i] == rest[i - 1] && r[j] == rest[j - 1];
        } else {
          var x := rest[j - 1];
          assert x in multiset(rest);
          assert x in multiset(s[1..]) || x == e;
          if x != e {
            var m :| 0 <= m < |s[1..]| && s[1..][m] == x;
            assert s[m + 1] == x;
          }
        }
      }
    }
  }

  /** The sorted list is in key order. */
  lemma {:induction false} SortOrdered<T>(s: seq<T>, key: T -> int, reverse: bool)
    ensures Ordered(Sort(s, key, reverse), key, reverse)
  {
    if s != [] {
      SortOrdered(s[1..], key, reverse);
      InsertOrdered(s[0], Sort(s[1..], key, reverse), key, reverse);
    }
  }

  lemma WithKeyCons<T>(x: T, s: seq<T>, key: T -> int, k: int)
    ensures WithKey([x] + s, key, k) == (if key(x) == k then [x] else []) + WithKey(s, key, k)
  {
    assert ([x] + s)[1..] == s;
  }

  lemma {:induction false} InsertStable<T>(e: T, s: seq<T>, key: T -> int, reverse: bool, k: int)
    ensures WithKey(Insert(e, s, key, reverse), key, k) == (if key(e) == k then [e] else []) + WithKey(s, key, k)
  {
    if s == [] || InOrder(key(e), key(s[0]), reverse) {
      WithKeyCons(e, s, key, k);
    } else {
      InsertStable(e, s[1..], key, reverse, k);
      InsertPastHead(e, s, key, reverse, k);
    }
  }

  /** The step of InsertStable where e goes past s[0]: the two keys differ. */
  lemma InsertPastHead<T>(e: T, s: seq<T>, key: T -> int, reverse: bool, k: int)
    requires s != [] && !InOrder(key(e), key(s[0]), reverse)
    requires WithKey(Insert(e, s[1..], key, reverse), key, k) == (if key(e) == k then [e] else []) + WithKey(s[1..], key, k)
    ensures WithKey(Insert(e, s, key, reverse), key, k) == (if key(e) == k then [e] else []) + WithKey(s, key, k)
  {
    var rest := Insert(e, s[1..], key, reverse);
    assert Insert(e, s, key, reverse) == [s[0]] + rest;
    WithKeyCons(s[0], rest, key, k);
    WithKeyCons(s[0], s[1..], key, k);
    assert [s[0]] + s[1..] == s;
    assert key(e) != key(s[0]);
  }

  /** Sorting is stable: the items with any one key come out in their original order. */
  lemma {:induction false} SortStable<T>(s: seq<T>, key: T -> int, reverse: bool, k: int)
    ensures WithKey(Sort(s, key, reverse), key, k) == WithKey(s, key, k)
  {
    if s != [] {
      SortStable(s[1..], key, reverse, k);
      InsertStable(s[0], Sort(s[1..], key, reverse), key, reverse, k);
      WithKeyCons(s[0], s[1..], key, k);
      assert [s[0]] + s[1..] == s;
    }
  }

  /** A list already in order comes back unchanged. */
  lemma {:induction false} SortOrderedIdentity<T>(s: seq<T>, key: T -> int, reverse: bool)
    requires Ordered(s, key, reverse)
    ensures Sort(s, key, reverse) == s
  {
    if s != [] {
      assert Ordered(s[1..], key, reverse) by {
        forall i, j | 0 <= i < j < |s[1..]| ensures InOrder(key(s[1..][i]), key(s[1..][j]), reverse) {
          assert s[1..][i] == s[i + 1] && s[1..][j] == s[j + 1];
        }
      }
      SortOrderedIdentity(s[1..], key, reverse);
      if |s| > 1 {
        assert s[1..][0] == s[1];
        assert InOrder(key(s[0]), key(s[1]), reverse);
      }
      assert [s[0]] + s[1..] == s;
    }
  }
}
