/**
 A left swipe on the row [_, 4, 2, 2] loses a tile. The 2 in column 2 is
 blocked for one pass (a whole cell of clearance does not yet remain before
 the 4), while the 2 in column 3 advances; from then on the three tiles move
 in lockstep with the two 2s only 180 pixels apart. At the tenth pass the
 4 reaches column 0, the leading 2 sits at x = 220 and the trailing 2 at
 x = 400: both name column 2 (ceil(220 / 200) = ceil(400 / 200) = 2) and
 `update_tiles` files the trailing one over the leading one. No merge
 happened, yet the board's value sum fell from 8 to 6.

 Tiles are numbered 1 (the 4), 2 (the leading 2) and 3 (the trailing 2).
 */
module Collision {
  import opened Tiles
  import opened Policy
  import opened OrderedDict
  import opened Sums
  import opened Engine
  import opened MoveLoop
  import Sorting
  import Slide

  /** The dictionary of every board up to pass 9: the cells 1, 2, 3 of row 0, in that order. */
  const Row: Dict<int> := [((0, 1), 1), ((0, 2), 2), ((0, 3), 3)]

  /** The row as dealt: 4 in column 1, 2 in column 2, 2 in column 3. */
  function Start(): Board<int> {
    Board(Dealt(), Row, {})
  }

  function Dealt(): Heap<int> {
    map[1 := TileState(4, 0, 1, 200, 0), 2 := TileState(2, 0, 2, 400, 0), 3 := TileState(2, 0, 3, 600, 0)]
  }

  /** The fields after pass k of the lockstep, 1 <= k <= 9, and after the collision at pass 10. */
  function Fields(k: int): Heap<int> {
    map[1 := TileState(4, 0, if k < 10 then 1 else 0, 200 - 20 * k, 0),
        2 := TileState(2, 0, 2, 420 - 20 * k, 0),
        3 := TileState(2, 0, if k < 10 then 3 else 2, 600 - 20 * k, 0)]
  }

  /** The board after pass k, 1 <= k <= 9: still three tiles in columns 1, 2, 3. */
  function Lockstep(k: int): Board<int> {
    Board(Fields(k), Row, {})
  }

  /** The board after pass 10: the leading 2 has been filed over. */
  function Collided(): Board<int> {
    Board(Fields(10), [((0, 0), 1), ((0, 2), 3)], {})
  }

  lemma StartSane()
    ensures Sane(Start())
  {
    assert IsPowerOfTwo(2) by {
      assert IsPowerOfTwo(1);
    }
    assert IsPowerOfTwo(4) by {
      assert IsPowerOfTwo(2);
    }
  }

  lemma ColumnKeys(heap: Heap<int>)
    requires 1 in heap && 2 in heap && 3 in heap
    requires heap[1].col == 1 && heap[2].col == 2 && heap[3].col == 3
    ensures var key := KeyFrom(SortKeys(Left, heap, [1, 2, 3])); key(1) == 1 && key(2) == 2 && key(3) == 3
  {
    var keys := SortKeys(Left, heap, [1, 2, 3]);
    assert 1 in [1, 2, 3] && 2 in [1, 2, 3] && 3 in [1, 2, 3];
    assert keys[1] == 1 && keys[2] == 2 && keys[3] == 3;
  }

  /** In every board of the run the tiles sit in columns 1, 2, 3, so the scan order is 1, 2, 3. */
  lemma SortedInColumns(heap: Heap<int>)
    requires 1 in heap && 2 in heap && 3 in heap
    requires heap[1].col == 1 && heap[2].col == 2 && heap[3].col == 3
    ensures SortedTiles(Left, heap, [1, 2, 3]) == [1, 2, 3]
  {
    var key := KeyFrom(SortKeys(Left, heap, [1, 2, 3]));
    ColumnKeys(heap);
    AscendingThree(key);
    SortedAsIs(Left, heap, [1, 2, 3]);
  }

  /** Tiles already listed in scan order are scanned in that order. */
  lemma SortedAsIs<Id>(d: Direction, heap: Heap<Id>, ids: seq<Id>)
    requires InHeap(heap, ids)
    requires Sorting.Ordered(ids, KeyFrom(SortKeys(d, heap, ids)), Reverse(d))
    ensures SortedTiles(d, heap, ids) == ids
  {
    Sorting.SortOrderedIdentity(ids, KeyFrom(SortKeys(d, heap, ids)), Reverse(d));
  }

  lemma AscendingThree(key: int -> int)
    requires key(1) == 1 && key(2) == 2 && key(3) == 3
    ensures Sorting.Ordered([1, 2, 3], key, false)
  {
  }

  lemma RowValues()
    ensures Values(Row) == [1, 2, 3]
  {
  }

  /** The fields during pass k + 1 once the 4 has ticked. */
  function FourMoved(k: int): Heap<int> {
    Fields(k)[1 := TileState(4, 0, if k < 9 then 1 else 0, 180 - 20 * k, 0)]
  }

  /** The fields during pass k + 1 once the 4 and the leading 2 have ticked. */
  function TwoMoved(k: int): Heap<int> {
    FourMoved(k)[2 := TileState(2, 0, 2, 400 - 20 * k, 0)]
  }

  /** A visit whose neighbour cell is empty ticks the tile. */
  lemma VisitFree(d: Direction, dict: Dict<int>, s: Scanned<int>, i: nat)
    requires i < |s.live| && InHeap(s.heap, s.live) && InHeap(s.heap, Values(dict))
    requires !AtEdge(d, s.heap[s.live[i]]) && Lookup(dict, NeighbourKey(d, s.heap[s.live[i]])) == None
    ensures Visit(d, dict, s, i) == Tick(d, s, s.live[i])
  {
  }

  /** A visit that may merge but is still more than a tick from its neighbour ticks the tile. */
  lemma VisitCatchUp(d: Direction, dict: Dict<int>, s: Scanned<int>, i: nat, nid: int)
    requires i < |s.live| && InHeap(s.heap, s.live) && InHeap(s.heap, Values(dict)) && nid in s.heap
    requires !AtEdge(d, s.heap[s.live[i]]) && Lookup(dict, NeighbourKey(d, s.heap[s.live[i]])) == Some(nid)
    requires Mergeable(s.heap[s.live[i]], s.heap[nid], s.live[i], nid, s.blocks)
    requires MergeGapOpen(d, s.heap[s.live[i]], s.heap[nid])
    ensures Visit(d, dict, s, i) == Tick(d, s, s.live[i])
  {
  }

  /** A visit that cannot merge but has a whole cell of room before its neighbour ticks the tile. */
  lemma VisitRoom(d: Direction, dict: Dict<int>, s: Scanned<int>, i: nat, nid: int)
    requires i < |s.live| && InHeap(s.heap, s.live) && InHeap(s.heap, Values(dict)) && nid in s.heap
    requires !AtEdge(d, s.heap[s.live[i]]) && Lookup(dict, NeighbourKey(d, s.heap[s.live[i]])) == Some(nid)
    requires !Mergeable(s.heap[s.live[i]], s.heap[nid], s.live[i], nid, s.blocks)
    requires MoveGapOpen(d, s.heap[s.live[i]], s.heap[nid])
    ensures Visit(d, dict, s, i) == Tick(d, s, s.live[i])
  {
  }

  /** A visit that can neither merge nor move leaves everything as it is. */
  lemma VisitBlocked(d: Direction, dict: Dict<int>, s: Scanned<int>, i: nat, nid: int)
    requires i < |s.live| && InHeap(s.heap, s.live) && InHeap(s.heap, Values(dict)) && nid in s.heap
    requires var t := s.heap[s.live[i]];
      && !AtEdge(d, t) && Lookup(dict, NeighbourKey(d, t)) == Some(nid)
      && !Mergeable(t, s.heap[nid], s.live[i], nid, s.blocks) && !MoveGapOpen(d, t, s.heap[nid])
    ensures Visit(d, dict, s, i) == s
  {
  }

  /** A left tick on row 0: twenty pixels left, and the column rounded up from the new x. */
  lemma TickLeft(t: TileState, col: int)
    requires t.row == 0 && t.y == 0
    requires (col - 1) * 200 < t.x - 20 <= col * 200
    ensures Advance(Left, t) == t.(x := t.x - 20, col := col)
  {
    assert CeilDiv(0, RECT_HEIGHT) == 0;
    var c := CeilDiv(t.x - 20, RECT_WIDTH);
    assert c * 200 - 200 < t.x - 20 <= c * 200;
  }

  /** The first visit of pass k + 1: the 4 has an empty cell to its left and ticks. */
  lemma VisitFour(k: int)
    requires 1 <= k <= 9
    ensures var s := Scanned(Fields(k), [1, 2, 3], {}, false);
      Visit(Left, Row, s, 0) == s.(heap := FourMoved(k), updated := true)
  {
    FourTicks(Fields(k), 200 - 20 * k, if k < 9 then 1 else 0);
  }

  /** The 4 in column 1 at x has an empty cell to its left and ticks. */
  lemma FourTicks(h: Heap<int>, x: int, c: int)
    requires 1 in h && 2 in h && 3 in h
    requires h[1] == TileState(4, 0, 1, x, 0)
    requires (c - 1) * 200 < x - 20 <= c * 200
    ensures var s := Scanned(h, [1, 2, 3], {}, false);
      Visit(Left, Row, s, 0) == s.(heap := h[1 := TileState(4, 0, c, x - 20, 0)], updated := true)
  {
    var s := Scanned(h, [1, 2, 3], {}, false);
    RowValues();
    assert Lookup(Row, (0, 0)) == None by {
      assert !HasKey(Row, (0, 0));
    }
    VisitFree(Left, Row, s, 0);
    TickLeft(h[1], c);
  }

  /** All three tiles ticked: the fields after pass k + 1. */
  lemma PassFields(k: int)
    requires 1 <= k <= 9
    ensures TwoMoved(k)[3 := TileState(2, 0, if k < 9 then 3 else 2, 580 - 20 * k, 0)] == Fields(k + 1)
  {
  }

  /**
   The leading 2 at x, with the 4 (already moved this pass) at least a
   whole cell plus a tick to its left: they cannot merge, so the 2 ticks.
   */
  lemma LeadingTwoTicks(h: Heap<int>, x: int)
    requires 1 in h && 2 in h && 3 in h
    requires h[2] == TileState(2, 0, 2, x, 0) && 220 < x <= 420
    requires h[1].value == 4 && h[1].x + 220 < x
    ensures var s := Scanned(h, [1, 2, 3], {}, true);
      Visit(Left, Row, s, 1) == s.(heap := h[2 := TileState(2, 0, 2, x - 20, 0)])
  {
    var s := Scanned(h, [1, 2, 3], {}, true);
    RowValues();
    assert Lookup(Row, (0, 1)) == Some(1) by {
      assert Row[0].0 == (0, 1);
    }
    VisitRoom(Left, Row, s, 1, 1);
    TickLeft(h[2], 2);
  }

  /**
   The trailing 2 at x, with the leading 2 (already moved this pass) more
   than a tick to its left: they may merge but are not yet adjacent, so the
   trailing 2 ticks.
   */
  lemma TrailingTwoTicks(h: Heap<int>, x: int, c: int)
    requires 1 in h && 2 in h && 3 in h
    requires h[3] == TileState(2, 0, 3, x, 0) && h[2].value == 2 && h[2].x + 20 < x
    requires (c - 1) * 200 < x - 20 <= c * 200
    ensures var s := Scanned(h, [1, 2, 3], {}, true);
      Visit(Left, Row, s, 2) == s.(heap := h[3 := TileState(2, 0, c, x - 20, 0)])
  {
    var s := Scanned(h, [1, 2, 3], {}, true);
    RowValues();
    assert Lookup(Row, (0, 2)) == Some(2) by {
      assert Row[1].0 == (0, 2);
      assert Row[0].0 != (0, 2);
    }
    VisitCatchUp(Left, Row, s, 2, 2);
    TickLeft(h[3], c);
  }

  /** The second visit of pass k + 1: the leading 2 finds the 4 in column 1 and ticks. */
  lemma VisitLeadingTwo(k: int)
    requires 1 <= k <= 9
    ensures var s := Scanned(FourMoved(k), [1, 2, 3], {}, true);
      Visit(Left, Row, s, 1) == s.(heap := TwoMoved(k))
  {
    LeadingTwoTicks(FourMoved(k), 420 - 20 * k);
  }

  /** The third visit of pass k + 1: the trailing 2 finds the leading 2 in column 2 and ticks. */
  lemma VisitTrailingTwo(k: int)
    requires 1 <= k <= 9
    ensures var s := Scanned(TwoMoved(k), [1, 2, 3], {}, true);
      Visit(Left, Row, s, 2) == s.(heap := Fields(k + 1))
  {
    TrailingTwoTicks(TwoMoved(k), 600 - 20 * k, if k < 9 then 3 else 2);
    PassFields(k);
  }

  /** Pass k + 1 as a whole: every tile ticks once and none is absorbed. */
  lemma ScanPass(k: int)
    requires 1 <= k <= 9
    ensures Scan(Left, Row, Scanned(Fields(k), [1, 2, 3], {}, false), 0) == Scanned(Fields(k + 1), [1, 2, 3], {}, true)
  {
    RowValues();
    var s0 := Scanned(Fields(k), [1, 2, 3], {}, false);
    VisitFour(k);
    var s1 := Scanned(FourMoved(k), [1, 2, 3], {}, true);
    VisitLeadingTwo(k);
    var s2 := Scanned(TwoMoved(k), [1, 2, 3], {}, true);
    VisitTrailingTwo(k);
    var s3 := Scanned(Fields(k + 1), [1, 2, 3], {}, true);
    assert Scan(Left, Row, s3, 3) == s3;
    assert Scan(Left, Row, s2, 2) == s3;
    assert Scan(Left, Row, s1, 1) == s3;
  }

  /** Filing the three tiles of the lockstep boards gives back the same dictionary. */
  lemma RebuildRow(k: int)
    requires 1 <= k <= 9
    ensures Rebuild(Fields(k), [1, 2, 3]) == Row
  {
    assert [1, 2, 3][..2] == [1, 2] && [1, 2][..1] == [1] && [1][..0] == [];
    assert Rebuild(Fields(k), [1]) == [((0, 1), 1)];
    assert Rebuild(Fields(k), [1, 2]) == [((0, 1), 1), ((0, 2), 2)];
  }

  /** Filing the three tiles after pass 10: the trailing 2 replaces the leading one under (0, 2). */
  lemma RebuildCollided()
    ensures Rebuild(Fields(10), [1, 2, 3]) == Collided().tiles
  {
    assert [1, 2, 3][..2] == [1, 2] && [1, 2][..1] == [1] && [1][..0] == [];
    assert Rebuild(Fields(10), [1]) == [((0, 0), 1)];
    var d := [((0, 0), 1), ((0, 2), 2)];
    assert Rebuild(Fields(10), [1, 2]) == d;
    assert d[1].0 == (0, 2);
    assert Put(d, (0, 2), 3) == [((0, 0), 1), ((0, 2), 3)];
  }

  /** Pass 1, first visit: the 4 has an empty cell to its left and ticks. */
  lemma FirstVisitFour()
    ensures Visit(Left, Row, Scanned(Dealt(), [1, 2, 3], {}, false), 0) == Scanned(DealtFourMoved(), [1, 2, 3], {}, true)
  {
    FourTicks(Dealt(), 200, 1);
  }

  function DealtFourMoved(): Heap<int> {
    Dealt()[1 := TileState(4, 0, 1, 180, 0)]
  }

  /**
   The leading 2 at x, with the 4 (already moved this pass) less than a
   whole cell plus a tick to its left: they cannot merge, so the 2 waits.
   */
  lemma LeadingTwoWaits(h: Heap<int>, x: int)
    requires 1 in h && 2 in h && 3 in h
    requires h[2] == TileState(2, 0, 2, x, 0)
    requires h[1].value == 4 && h[1].x + 220 >= x
    ensures var s := Scanned(h, [1, 2, 3], {}, true);
      Visit(Left, Row, s, 1) == s
  {
    var s := Scanned(h, [1, 2, 3], {}, true);
    RowValues();
    assert Lookup(Row, (0, 1)) == Some(1) by {
      assert Row[0].0 == (0, 1);
    }
    VisitBlocked(Left, Row, s, 1, 1);
  }

  /**
   Pass 1, second visit: the leading 2 cannot merge with the 4 and is not a
   whole cell plus a tick away from it (400 > 180 + 220 fails), so it stays.
   */
  lemma FirstVisitLeadingTwo()
    ensures var s := Scanned(DealtFourMoved(), [1, 2, 3], {}, true);
      Visit(Left, Row, s, 1) == s
  {
    LeadingTwoWaits(DealtFourMoved(), 400);
  }

  /** Pass 1, third visit: the trailing 2 may merge with the leading one but is still far from it, so it ticks. */
  lemma FirstVisitTrailingTwo()
    ensures var s := Scanned(DealtFourMoved(), [1, 2, 3], {}, true);
      Visit(Left, Row, s, 2) == s.(heap := Fields(1))
  {
    TrailingTwoTicks(DealtFourMoved(), 600, 3);
    FirstPassFields();
  }

  lemma FirstPassFields()
    ensures DealtFourMoved()[3 := TileState(2, 0, 3, 580, 0)] == Fields(1)
  {
  }

  lemma ScanFirstPass()
    ensures Scan(Left, Row, Scanned(Dealt(), [1, 2, 3], {}, false), 0) == Scanned(Fields(1), [1, 2, 3], {}, true)
  {
    RowValues();
    var s1 := Scanned(DealtFourMoved(), [1, 2, 3], {}, true);
    FirstVisitFour();
    FirstVisitLeadingTwo();
    FirstVisitTrailingTwo();
    var s3 := Scanned(Fields(1), [1, 2, 3], {}, true);
    assert Scan(Left, Row, s3, 3) == s3;
    assert Scan(Left, Row, s1, 2) == s3;
    assert Scan(Left, Row, s1, 1) == s3;
  }

  lemma StepFirst()
    ensures Step(Left, Start()) == (Lockstep(1), true)
  {
    RowValues();
    SortedInColumns(Dealt());
    ScanFirstPass();
    RebuildRow(1);
  }

  /** The board after pass k + 1. */
  function After(k: int): Board<int> {
    if k < 9 then Lockstep(k + 1) else Collided()
  }

  lemma StepLockstep(k: int)
    requires 1 <= k <= 9
    ensures Step(Left, Lockstep(k)) == (After(k), true)
  {
    RowValues();
    SortedInColumns(Fields(k));
    ScanPass(k);
    if k < 9 {
      RebuildRow(k + 1);
    } else {
      RebuildCollided();
    }
  }

  /** A pass that changed something hands on to the next one. */
  lemma SettleVia(d: Direction, b: Board<int>, b': Board<int>)
    requires Sane(b) && Step(d, b) == (b', true)
    ensures Sane(b') && Settle(d, b) == Settle(d, b')
  {
    StepSane(d, b);
  }

  lemma LockstepLink(k: int)
    requires 1 <= k <= 9 && Sane(Lockstep(k))
    ensures Sane(After(k)) && Settle(Left, Lockstep(k)) == Settle(Left, After(k))
  {
    StepLockstep(k);
    SettleVia(Left, Lockstep(k), After(k));
  }

  /** A run of boards, each one pass after the previous, all settle alike. */
  lemma {:induction false} SettleChain(d: Direction, run: int -> Board<int>, k: int, n: int)
    requires k <= n && Sane(run(k))
    requires forall j | k <= j < n :: Sane(run(j)) ==> Sane(run(j + 1)) && Settle(d, run(j)) == Settle(d, run(j + 1))
    ensures Sane(run(n)) && Settle(d, run(k)) == Settle(d, run(n))
    decreases n - k
  {
    if k < n {
      SettleChain(d, run, k + 1, n);
    }
  }

  /** The boards after passes 1 to 10. */
  function Run(k: int): Board<int> {
    if k < 10 then Lockstep(k) else Collided()
  }

  /** Settling from the board after pass 1 goes through the collided one. */
  lemma SettleThroughCollision()
    requires Sane(Lockstep(1))
    ensures Sane(Collided()) && Settle(Left, Lockstep(1)) == Settle(Left, Collided())
  {
    forall j | 1 <= j < 10 ensures Sane(Run(j)) ==> Sane(Run(j + 1)) && Settle(Left, Run(j)) == Settle(Left, Run(j + 1)) {
      if Sane(Run(j)) {
        LockstepLink(j);
        assert Run(j) == Lockstep(j) && Run(j + 1) == After(j);
      }
    }
    SettleChain(Left, Run, 1, 10);
    assert Run(1) == Lockstep(1) && Run(10) == Collided();
  }

  /**
   The left swipe of [_, 4, 2, 2] as `move_tiles` performs it ends with a
   smaller value sum than it started with, and with fewer tiles on the board
   plus tiles merged into than it started with: a tile vanished without a
   merge. The intended outcome, the discrete slide's [4, 4, _, _], keeps
   the sum 8.
   */
  lemma SwipeLosesTile()
    ensures Sane(Start())
    ensures var r := Settle(Left, Start());
      && Total(Start()) == 8 && Total(r) <= 6
      && |r.tiles| + |r.blocks| < |Start().tiles| + |Start().blocks|
      && Total(r) < Slide.RowSum(Slide.SlideRow([0, 4, 2, 2]))
  {
    Slide.SlideExample();
    assert Slide.RowSum([4, 4, 0, 0]) == 8 by {
      assert [4, 4, 0, 0][1..] == [4, 0, 0] && [4, 0, 0][1..] == [0, 0] && [0, 0][1..] == [0] && [0][1..] == [];
    }
    StartSane();
    StepFirst();
    SettleVia(Left, Start(), Lockstep(1));
    SettleThroughCollision();
    Totals();
    MoveLoop.SettlePoints(Left, Collided());
  }

  lemma Totals()
    ensures Total(Start()) == 8 && |Start().tiles| == 3
    ensures InHeap(Collided().heap, Values(Collided().tiles)) && Total(Collided()) == 6 && |Collided().tiles| == 2
  {
    RowValues();
    assert Values(Collided().tiles) == [1, 3];
    assert [1, 2, 3][1..] == [2, 3] && [2, 3][1..] == [3] && [3][1..] == [] && [1, 3][1..] == [3];
  }
}
