/**
 Tile identities and the fields they name. A Python Tile object is an
 identity; the fields of all tiles form a heap from identity to TileState.
 This module sums a quantity over a list of tiles and proves how such sums
 behave when the list or the heap changes.
 */
module Sums {
  import opened Tiles
  import opened Policy

  type Heap<Id> = map<Id, TileState>

  predicate Distinct<Id(==)>(ids: seq<Id>) {
    forall i, j | 0 <= i < j < |ids| :: ids[i] != ids[j]
  }

  predicate InHeap<Id(==)>(heap: Heap<Id>, ids: seq<Id>) {
    forall id | id in ids :: id in heap
  }

  /** What is summed over the tiles: their values, or their distance to the edge plus one. */
  datatype Tally = Points | Travel(d: Direction)

  function Score(m: Tally, t: TileState): int {
    match m
    case Points => t.value
    case Travel(d) => Distance(d, t) + 1
  }

  function Sum<Id(==)>(m: Tally, heap: Heap<Id>, ids: seq<Id>): int
    requires InHeap(heap, ids)
  {
    if ids == [] then 0 else Score(m, heap[ids[0]]) + Sum(m, heap, ids[1..])
  }

  /** Every quantity summed is positive on a well-formed tile. */
  lemma ScorePositive(m: Tally, t: TileState)
    requires WellFormed(t)
    ensures Score(m, t) >= 1
  {
    if m.Travel? {
      PlacedDistance(m.d, t);
    }
  }

  lemma {:induction false} SumAppend<Id>(m: Tally, heap: Heap<Id>, xs: seq<Id>, ys: seq<Id>)
    requires InHeap(heap, xs) && InHeap(heap, ys)
    ensures InHeap(heap, xs + ys)
    ensures Sum(m, heap, xs + ys) == Sum(m, heap, xs) + Sum(m, heap, ys)
  {
    if xs != [] {
      assert (xs + ys)[1..] == xs[1..] + ys;
      SumAppend(m, heap, xs[1..], ys);
    } else {
      assert xs + ys == ys;
    }
  }

  /** Taking the i-th tile out of the list takes its score out of the sum. */
  lemma SumRemoveAt<Id>(m: Tally, heap: Heap<Id>, ids: seq<Id>, i: nat)
    requires InHeap(heap, ids) && i < |ids|
    ensures InHeap(heap, ids[..i] + ids[i + 1..])
    ensures Sum(m, heap, ids) == Score(m, heap[ids[i]]) + Sum(m, heap, ids[..i] + ids[i + 1..])
  {
    assert ids == ids[..i] + ([ids[i]] + ids[i + 1..]);
    SumAppend(m, heap, [ids[i]], ids[i + 1..]);
    SumAppend(m, heap, ids[..i], [ids[i]] + ids[i + 1..]);
    SumAppend(m, heap, ids[..i], ids[i + 1..]);
  }

  /** Changing one listed tile's fields changes the sum by the change in its score. */
  lemma {:induction false} SumUpdate<Id>(m: Tally, heap: Heap<Id>, ids: seq<Id>, k: Id, t: TileState)
    requires InHeap(heap, ids) && Distinct(ids) && k in heap
    ensures InHeap(heap[k := t], ids)
    ensures Sum(m, heap[k := t], ids)
      == Sum(m, heap, ids) + (if k in ids then Score(m, t) - Score(m, heap[k]) else 0)
  {
    if ids != [] {
      SumUpdate(m, heap, ids[1..], k, t);
      assert k in ids <==> k == ids[0] || k in ids[1..];
      if k == ids[0] {
        forall j | 0 <= j < |ids[1..]| ensures ids[1..][j] != k {
          assert ids[1..][j] == ids[j + 1];
        }
      }
    }
  }

  /** Changing a tile whose score does not move leaves the sum as it was. */
  lemma {:induction false} SumFrame<Id>(m: Tally, heap: Heap<Id>, heap': Heap<Id>, ids: seq<Id>)
    requires InHeap(heap, ids) && InHeap(heap', ids)
    requires forall id | id in ids :: Score(m, heap'[id]) == Score(m, heap[id])
    ensures Sum(m, heap', ids) == Sum(m, heap, ids)
  {
    if ids != [] {
      SumFrame(m, heap, heap', ids[1..]);
    }
  }

  /**
   A list of distinct tiles drawn from another list of distinct tiles is no
   longer than it and, when every score is non-negative, sums to no more.
   */
  lemma {:induction false} SumSubset<Id>(m: Tally, heap: Heap<Id>, xs: seq<Id>, ys: seq<Id>)
    requires InHeap(heap, ys) && Distinct(xs) && Distinct(ys)
    requires forall x | x in xs :: x in ys
    requires forall y | y in ys :: Score(m, heap[y]) >= 0
    ensures InHeap(heap, xs)
    ensures |xs| <= |ys| && Sum(m, heap, xs) <= Sum(m, heap, ys)
  {
    if xs != [] {
      assert xs[0] in ys;
      var j :| 0 <= j < |ys| && ys[j] == xs[0];
      var ys' := ys[..j] + ys[j + 1..];
      SumRemoveAt(m, heap, ys, j);
      forall x | x in xs[1..] ensures x in ys' {
        assert x in xs && x in ys;
        var b :| 0 <= b < |ys| && ys[b] == x;
        assert b != j;
        if b < j {
          assert ys'[b] == x;
        } else {
          assert ys'[b - 1] == x;
        }
      }
      assert Distinct(ys') by {
        forall a, b | 0 <= a < b < |ys'| ensures ys'[a] != ys'[b] {
          var a' := if a < j then a else a + 1;
          var b' := if b < j then b else b + 1;
          assert ys'[a] == ys[a'] && ys'[b] == ys[b'];
        }
      }
      assert forall y | y in ys' :: y in ys;
      assert Distinct(xs[1..]) by {
        forall a, b | 0 <= a < b < |xs[1..]| ensures xs[1..][a] != xs[1..][b] {
          assert xs[1..][a] == xs[a + 1] && xs[1..][b] == xs[b + 1];
        }
      }
      SumSubset(m, heap, xs[1..], ys');
      assert Sum(m, heap, xs[1..]) <= Sum(m, heap, ys');
      assert Sum(m, heap, ys) == Score(m, heap[xs[0]]) + Sum(m, heap, ys');
      assert Sum(m, heap, xs) == Score(m, heap[xs[0]]) + Sum(m, heap, xs[1..]);
    } else {
      SumNonnegative(m, heap, ys);
    }
  }

  lemma {:induction false} SumNonnegative<Id>(m: Tally, heap: Heap<Id>, ids: seq<Id>)
    requires InHeap(heap, ids)
    requires forall id | id in ids :: Score(m, heap[id]) >= 0
    ensures Sum(m, heap, ids) >= 0
  {
    if ids != [] {
      SumNonnegative(m, heap, ids[1..]);
    }
  }

  /** Reordering a list does not change its sum. */
  lemma {:induction false} SumPermutation<Id>(m: Tally, heap: Heap<Id>, xs: seq<Id>, ys: seq<Id>)
    requires InHeap(heap, ys) && multiset(xs) == multiset(ys)
    ensures InHeap(heap, xs)
    ensures Sum(m, heap, xs) == Sum(m, heap, ys)
  {
    assert forall x | x in xs :: x in ys by {
      forall x | x in xs ensures x in ys {
        assert x in multiset(xs);
      }
    }
    if xs != [] {
      assert xs[0] in multiset(ys);
      var j :| 0 <= j < |ys| && ys[j] == xs[0];
      var ys' := ys[..j] + ys[j + 1..];
      SumRemoveAt(m, heap, ys, j);
      MultisetRemove(xs, ys, j);
      SumPermutation(m, heap, xs[1..], ys');
    }
  }

  /** Taking the same element out of two permutations of each other leaves permutations. */
  lemma MultisetRemove<T>(xs: seq<T>, ys: seq<T>, j: nat)
    requires xs != [] && j < |ys| && ys[j] == xs[0] && multiset(xs) == multiset(ys)
    ensures multiset(xs[1..]) == multiset(ys[..j] + ys[j + 1..])
  {
    assert xs == [xs[0]] + xs[1..];
    assert ys == ys[..j] + [ys[j]] + ys[j + 1..];
    assert multiset(xs[1..]) == multiset(xs) - multiset{xs[0]};
    assert multiset(ys[..j] + ys[j + 1..]) == multiset(ys) - multiset{ys[j]};
  }

  /** A permutation of a list of distinct tiles has distinct tiles. */
  lemma {:induction false} DistinctPermutation<Id>(xs: seq<Id>, ys: seq<Id>)
    requires Distinct(ys) && multiset(xs) == multiset(ys)
    ensures Distinct(xs)
  {
    if xs != [] {
      assert xs[0] in multiset(ys);
      var j :| 0 <= j < |ys| && ys[j] == xs[0];
      var ys' := ys[..j] + ys[j + 1..];
      MultisetRemove(xs, ys, j);
      assert Distinct(ys') by {
        forall a, b | 0 <= a < b < |ys'| ensures ys'[a] != ys'[b] {
          var a' := if a < j then a else a + 1;
          var b' := if b < j then b else b + 1;
          assert ys'[a] == ys[a'] && ys'[b] == ys[b'];
        }
      }
      DistinctPermutation(xs[1..], ys');
      forall b | 0 <= b < |ys'| ensures ys'[b] != xs[0] {
        var b' := if b < j then b else b + 1;
        assert ys'[b] == ys[b'];
      }
      assert xs[0] !in multiset(xs[1..]);
      forall a, b | 0 <= a < b < |xs| ensures xs[a] != xs[b] {
        if a > 0 {
          assert xs[a] == xs[1..][a - 1] && xs[b] == xs[1..][b - 1];
        } else {
          assert xs[b] in xs[1..];
        }
      }
    }
  }
}
