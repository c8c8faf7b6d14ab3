/**
 What `update_tiles` makes of the list it is given: a dictionary with
 distinct keys, each entry filed under its tile's cell. Two listed tiles
 that name the same cell are filed under one key, and the later one wins.
 */
module RebuildFacts {
  import opened Tiles
  import opened OrderedDict
  import opened Sums
  import opened Engine

  /** No two listed tiles name the same cell. */
  predicate CellsApart<Id>(heap: Heap<Id>, live: seq<Id>)
    requires InHeap(heap, live)
  {
    forall i, j | 0 <= i < j < |live| :: CellOf(heap[live[i]]) != CellOf(heap[live[j]])
  }

  lemma PrefixInHeap<Id>(heap: Heap<Id>, live: seq<Id>)
    requires InHeap(heap, live) && live != []
    ensures InHeap(heap, live[..|live| - 1])
  {
    forall id | id in live[..|live| - 1] ensures id in heap {
      assert id in live;
    }
  }

  /**
   The rebuilt dictionary has distinct keys, each entry files a listed tile
   under its own cell, and it has no more entries than the list.
   */
  lemma {:induction false} RebuildEntries<Id>(heap: Heap<Id>, live: seq<Id>)
    requires InHeap(heap, live)
    ensures var r := Rebuild(heap, live);
      && DistinctKeys(r)
      && (forall e | e in r :: e.1 in live && e.0 == CellOf(heap[e.1]))
      && |r| <= |live|
  {
    if live != [] {
      var n := |live| - 1;
      var prefix := live[..n];
      PrefixInHeap(heap, live);
      RebuildEntries(heap, prefix);
      var p := Rebuild(heap, prefix);
      var c := CellOf(heap[live[n]]);
      PutLookup(p, c, live[n]);
      PutKeys(p, c, live[n]);
      forall e | e in Rebuild(heap, live) ensures e.1 in live && e.0 == CellOf(heap[e.1]) {
        if e in p {
          assert e.1 in prefix;
        }
      }
    }
  }

  /** The keys of the rebuilt dictionary are exactly the cells of the listed tiles. */
  lemma {:induction false} RebuildKeys<Id>(heap: Heap<Id>, live: seq<Id>, k: Key)
    requires InHeap(heap, live)
    ensures HasKey(Rebuild(heap, live), k) <==> exists j | 0 <= j < |live| :: CellOf(heap[live[j]]) == k
  {
    if live != [] {
      var n := |live| - 1;
      var prefix := live[..n];
      PrefixInHeap(heap, live);
      RebuildKeys(heap, prefix, k);
      RebuildEntries(heap, prefix);
      var p := Rebuild(heap, prefix);
      var c := CellOf(heap[live[n]]);
      PutKeys(p, c, live[n]);
      if exists j | 0 <= j < |live| :: CellOf(heap[live[j]]) == k {
        var j :| 0 <= j < |live| && CellOf(heap[live[j]]) == k;
        if j < n {
          assert prefix[j] == live[j];
        }
      }
      if HasKey(p, k) {
        var j :| 0 <= j < |prefix| && CellOf(heap[prefix[j]]) == k;
        assert live[j] == prefix[j];
      }
    }
  }

  /** With distinct tiles listed, the rebuilt dictionary holds each at most once. */
  lemma {:induction false} RebuildValues<Id>(heap: Heap<Id>, live: seq<Id>)
    requires InHeap(heap, live) && Distinct(live)
    ensures Distinct(Values(Rebuild(heap, live)))
  {
    if live != [] {
      var n := |live| - 1;
      var prefix := live[..n];
      PrefixInHeap(heap, live);
      assert Distinct(prefix);
      RebuildValues(heap, prefix);
      RebuildEntries(heap, prefix);
      var p := Rebuild(heap, prefix);
      var c := CellOf(heap[live[n]]);
      var r := Put(p, c, live[n]);
      assert live[n] !in Values(p) by {
        forall x | x in Values(p) ensures x != live[n] {
          var i :| 0 <= i < |p| && Values(p)[i] == x;
          assert p[i] in p;
          var j :| 0 <= j < n && prefix[j] == x;
        }
      }
      if HasKey(p, c) {
        forall a, b | 0 <= a < b < |r| ensures Values(r)[a] != Values(r)[b] {
          if p[a].0 == c {
            assert Values(p)[b] in Values(p);
          } else if p[b].0 == c {
            assert Values(p)[a] in Values(p);
          } else {
            assert Values(r)[a] == Values(p)[a] && Values(r)[b] == Values(p)[b];
          }
        }
      } else {
        forall a, b | 0 <= a < b < |r| ensures Values(r)[a] != Values(r)[b] {
          if b < |p| {
            assert Values(r)[a] == Values(p)[a] && Values(r)[b] == Values(p)[b];
          } else {
            assert Values(p)[a] in Values(p);
          }
        }
      }
    }
  }

  /** When no two listed tiles share a cell, every tile is filed, in list order. */
  lemma {:induction false} RebuildExact<Id>(heap: Heap<Id>, live: seq<Id>)
    requires InHeap(heap, live) && CellsApart(heap, live)
    ensures var r := Rebuild(heap, live);
      |r| == |live| && forall j | 0 <= j < |live| :: r[j] == (CellOf(heap[live[j]]), live[j])
  {
    if live != [] {
      var n := |live| - 1;
      var prefix := live[..n];
      PrefixInHeap(heap, live);
      RebuildExact(heap, prefix);
      var c := CellOf(heap[live[n]]);
      RebuildKeys(heap, prefix, c);
      assert !HasKey(Rebuild(heap, prefix), c) by {
        forall j | 0 <= j < |prefix| ensures CellOf(heap[prefix[j]]) != c {
          assert prefix[j] == live[j];
        }
      }
    }
  }

  /** When two listed tiles share a cell, the rebuilt dictionary is shorter than the list. */
  lemma {:induction false} RebuildLoses<Id>(heap: Heap<Id>, live: seq<Id>)
    requires InHeap(heap, live) && !CellsApart(heap, live)
    ensures |Rebuild(heap, live)| < |live|
  {
    var n := |live| - 1;
    var prefix := live[..n];
    PrefixInHeap(heap, live);
    RebuildEntries(heap, prefix);
    var p := Rebuild(heap, prefix);
    var c := CellOf(heap[live[n]]);
    PutKeys(p, c, live[n]);
    var i, j :| 0 <= i < j < |live| && CellOf(heap[live[i]]) == CellOf(heap[live[j]]);
    if j == n {
      RebuildKeys(heap, prefix, c);
      assert prefix[i] == live[i];
    } else {
      assert prefix[i] == live[i] && prefix[j] == live[j];
      RebuildLoses(heap, prefix);
    }
  }

  /**
   `update_tiles` files every listed tile exactly when no two of them name
   the same cell; otherwise it drops one.
   */
  lemma RebuildKeepsAll<Id>(heap: Heap<Id>, live: seq<Id>)
    requires InHeap(heap, live)
    ensures |Rebuild(heap, live)| == |live| <==> CellsApart(heap, live)
  {
    if CellsApart(heap, live) {
      RebuildExact(heap, live);
    } else {
      RebuildLoses(heap, live);
    }
  }

  /**
   The rebuilt dictionary holds distinct listed tiles, so a sum of
   non-negative scores over it is at most the sum over the list; when it
   drops no tile it holds the list itself, in order.
   */
  lemma RebuildSum<Id>(m: Tally, heap: Heap<Id>, live: seq<Id>)
    requires InHeap(heap, live) && Distinct(live) && AllWell(heap)
    ensures var r := Rebuild(heap, live);
      && InHeap(heap, Values(r))
      && Sum(m, heap, Values(r)) <= Sum(m, heap, live)
      && (|r| == |live| ==> Values(r) == live)
  {
    var r := Rebuild(heap, live);
    RebuildEntries(heap, live);
    RebuildValues(heap, live);
    forall id | id in live ensures Score(m, heap[id]) >= 0 {
      ScorePositive(m, heap[id]);
    }
    SumSubset(m, heap, Values(r), live);
    if |r| == |live| {
      RebuildKeepsAll(heap, live);
      RebuildExact(heap, live);
    }
  }
}
