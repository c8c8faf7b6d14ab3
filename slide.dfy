/**
 The slide a 2048 swipe is meant to perform on one line of the board, as a
 discrete reference: the line is read from the edge the swipe points to,
 the tiles close up towards that edge, each pair of equal neighbours merges
 once (the pair nearer the edge first, and a merged tile does not merge
 again), and the rest of the line is empty. A cell holds 0 when it is empty.
 */
module Slide {

  /** The value sum of a line. */
  function RowSum(row: seq<int>): int {
    if row == [] then 0 else row[0] + RowSum(row[1..])
  }

  /** How many cells of a line hold a tile. */
  function Occupied(row: seq<int>): nat {
    if row == [] then 0 else (if row[0] != 0 then 1 else 0) + Occupied(row[1..])
  }

  /** The tiles of a line in order, closed up towards the edge. */
  function Compact(row: seq<int>): (r: seq<int>)
    ensures |r| == Occupied(row) <= |row|
    ensures forall i | 0 <= i < |r| :: r[i] != 0
  {
    if row == [] then []
    else if row[0] == 0 then Compact(row[1..])
    else [row[0]] + Compact(row[1..])
  }

  /** Equal neighbours merge, nearest the edge first, each tile at most once. */
  function MergePairs(xs: seq<int>): (r: seq<int>)
    ensures |r| <= |xs|
  {
    if |xs| < 2 then xs
    else if xs[0] == xs[1] then [2 * xs[0]] + MergePairs(xs[2..])
    else [xs[0]] + MergePairs(xs[1..])
  }

  /** How many merges `MergePairs` performs. */
  function Merges(xs: seq<int>): nat {
    if |xs| < 2 then 0
    else if xs[0] == xs[1] then 1 + Merges(xs[2..])
    else Merges(xs[1..])
  }

  function Empty(n: nat): (r: seq<int>)
    ensures |r| == n && forall i | 0 <= i < n :: r[i] == 0
  {
    seq(n, i => 0)
  }

  /** The line after the swipe. */
  function SlideRow(row: seq<int>): (r: seq<int>)
    ensures |r| == |row|
  {
    var m := MergePairs(Compact(row));
    m + Empty(|row| - |m|)
  }

  lemma {:induction false} RowSumAppend(a: seq<int>, b: seq<int>)
    ensures RowSum(a + b) == RowSum(a) + RowSum(b)
    decreases |a|
  {
    if a != [] {
      assert (a + b)[1..] == a[1..] + b && (a + b)[0] == a[0];
      RowSumAppend(a[1..], b);
    } else {
      assert a + b == b;
    }
  }

  lemma {:induction false} EmptySum(n: nat)
    ensures RowSum(Empty(n)) == 0
  {
    if n > 0 {
      assert Empty(n)[1..] == Empty(n - 1);
      EmptySum(n - 1);
    }
  }

  lemma {:induction false} CompactSum(row: seq<int>)
    ensures RowSum(Compact(row)) == RowSum(row)
  {
    if row != [] {
      CompactSum(row[1..]);
      if row[0] != 0 {
        assert ([row[0]] + Compact(row[1..]))[1..] == Compact(row[1..]);
      }
    }
  }

  lemma {:induction false} MergePairsSum(xs: seq<int>)
    ensures RowSum(MergePairs(xs)) == RowSum(xs)
    ensures |MergePairs(xs)| + Merges(xs) == |xs|
  {
    if |xs| >= 2 {
      if xs[0] == xs[1] {
        MergePairsSum(xs[2..]);
        assert ([2 * xs[0]] + MergePairs(xs[2..]))[1..] == MergePairs(xs[2..]);
        assert xs[1..][1..] == xs[2..];
      } else {
        MergePairsSum(xs[1..]);
        assert ([xs[0]] + MergePairs(xs[1..]))[1..] == MergePairs(xs[1..]);
      }
    }
  }

  /**
   The swipe keeps the line's value sum, and every tile that leaves the line
   went into a merge: the tiles after it plus the merges performed equal the
   tiles before it.
   */
  lemma SlideRowKeepsSum(row: seq<int>)
    ensures RowSum(SlideRow(row)) == RowSum(row)
    ensures |MergePairs(Compact(row))| + Merges(Compact(row)) == Occupied(row)
  {
    var c := Compact(row);
    var m := MergePairs(c);
    CompactSum(row);
    MergePairsSum(c);
    RowSumAppend(m, Empty(|row| - |m|));
    EmptySum(|row| - |m|);
  }

  /** The line [_, 4, 2, 2] swiped towards its first cell becomes [4, 4, _, _]. */
  lemma SlideExample()
    ensures SlideRow([0, 4, 2, 2]) == [4, 4, 0, 0]
  {
    assert Compact([0, 4, 2, 2]) == [4, 2, 2] by {
      assert [0, 4, 2, 2][1..] == [4, 2, 2] && [4, 2, 2][1..] == [2, 2] && [2, 2][1..] == [2] && [2][1..] == [];
    }
    assert MergePairs([4, 2, 2]) == [4, 4] by {
      assert [4, 2, 2][1..] == [2, 2] && [2, 2][2..] == [];
    }
  }
}
