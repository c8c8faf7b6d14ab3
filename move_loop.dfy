/**
 The `while updated` loop of `move_tiles`: one pass (Engine.Step) at a time
 until a pass changes nothing. This module proves what a pass keeps and
 changes, and defines the whole loop as Settle.
 */
module MoveLoop {
  import opened Tiles
  import opened Policy
  import opened OrderedDict
  import opened Sums
  import opened Engine
  import opened ScanFacts
  import opened RebuildFacts

  /**
   The board as the game keeps it between passes: every tile well formed,
   keys distinct, each tile held once and filed under its own cell.
   */
  predicate Sane<Id>(b: Board<Id>) {
    && AllWell(b.heap)
    && InHeap(b.heap, Values(b.tiles))
    && DistinctKeys(b.tiles)
    && Distinct(Values(b.tiles))
    && (forall e | e in b.tiles :: e.1 in b.heap && e.0 == CellOf(b.heap[e.1]))
  }

  /** No tile on the board acts: a pass would change nothing. */
  predicate Settled<Id>(d: Direction, b: Board<Id>)
    requires InHeap(b.heap, Values(b.tiles))
  {
    forall id | id in Values(b.tiles) :: !Acts(d, b.tiles, b.heap, b.blocks, id)
  }

  /** The list a pass starts from holds the board's tiles, distinct, in some order. */
  lemma StartReady<Id>(d: Direction, b: Board<Id>)
    requires Sane(b)
    ensures var s := StartScan(d, b);
      && Ready(b.tiles, s)
      && multiset(s.live) == multiset(Values(b.tiles))
      && (forall id :: id in s.live <==> id in Values(b.tiles))
  {
    var s := StartScan(d, b);
    DistinctPermutation(s.live, Values(b.tiles));
    forall id ensures id in s.live <==> id in Values(b.tiles) {
      assert id in s.live <==> id in multiset(s.live);
    }
  }

  /** A pass keeps the board sane and the set of tile objects unchanged. */
  lemma StepSane<Id>(d: Direction, b: Board<Id>)
    requires Sane(b)
    ensures Sane(Step(d, b).0) && Step(d, b).0.heap.Keys == b.heap.Keys
  {
    var s := StartScan(d, b);
    StartReady(d, b);
    var r := Scan(d, b.tiles, s, 0);
    ScanWell(d, b.tiles, s, 0);
    RebuiltSane(r.heap, r.live, r.blocks);
  }

  /** `update_tiles` over distinct well-formed tiles gives a sane board. */
  lemma RebuiltSane<Id>(heap: Heap<Id>, live: seq<Id>, blocks: set<Id>)
    requires InHeap(heap, live) && Distinct(live) && AllWell(heap)
    ensures Sane(Board(heap, Rebuild(heap, live), blocks))
  {
    RebuildEntries(heap, live);
    RebuildValues(heap, live);
  }

  /**
   A pass only adds to `blocks`, and every tile it adds there costs the
   board a tile: the board never gains tiles.
   */
  lemma StepCount<Id>(d: Direction, b: Board<Id>)
    requires Sane(b)
    ensures var b' := Step(d, b).0;
      b.blocks <= b'.blocks && |b'.tiles| + |b'.blocks| <= |b.tiles| + |b.blocks|
  {
    var s := StartScan(d, b);
    StartReady(d, b);
    var r := Scan(d, b.tiles, s, 0);
    ScanShape(d, b.tiles, s, 0);
    RebuildEntries(r.heap, r.live);
  }

  /** A pass doubles each value it adds to `blocks`, once, and leaves every other value alone. */
  lemma StepValues<Id>(d: Direction, b: Board<Id>)
    requires Sane(b)
    ensures var b' := Step(d, b).0;
      forall id | id in b.heap ::
        b'.heap[id].value == (if id in b'.blocks - b.blocks then 2 * b.heap[id].value else b.heap[id].value)
  {
    ScanValues(d, b.tiles, StartScan(d, b), 0);
  }

  /**
   A pass that sets `updated` brings the tiles strictly closer to the edge
   in total; this is why the loop ends.
   */
  lemma StepTravel<Id>(d: Direction, b: Board<Id>)
    requires Sane(b)
    ensures var (b', u) := Step(d, b);
      Sane(b') && Sum(Travel(d), b'.heap, Values(b'.tiles)) + (if u then 1 else 0)
        <= Sum(Travel(d), b.heap, Values(b.tiles))
  {
    var s := StartScan(d, b);
    StartReady(d, b);
    StepSane(d, b);
    var r := Scan(d, b.tiles, s, 0);
    ScanTravel(d, b.tiles, s, 0);
    ScanWell(d, b.tiles, s, 0);
    RebuildSum(Travel(d), r.heap, r.live);
    SumPermutation(Travel(d), b.heap, s.live, Values(b.tiles));
  }

  /** The board's value sum, the quantity a player would expect a move to keep. */
  function Total<Id>(b: Board<Id>): int
    requires InHeap(b.heap, Values(b.tiles))
  {
    Sum(Points, b.heap, Values(b.tiles))
  }

  /**
   A pass never raises the value sum, and keeps it when it drops no tile
   (each tile leaving the board went into `blocks`) and every tile merged
   into is still on the board.
   */
  lemma StepPoints<Id>(d: Direction, b: Board<Id>)
    requires Sane(b)
    ensures var b' := Step(d, b).0;
      && Sane(b')
      && Total(b') <= Total(b)
      && ((|b'.tiles| + |b'.blocks| == |b.tiles| + |b.blocks|
           && forall x | x in b'.blocks - b.blocks :: x in Values(b'.tiles)) ==> Total(b') == Total(b))
  {
    var s := StartScan(d, b);
    StartReady(d, b);
    StepSane(d, b);
    var r := Scan(d, b.tiles, s, 0);
    ScanPoints(d, b.tiles, s, 0);
    ScanShape(d, b.tiles, s, 0);
    ScanWell(d, b.tiles, s, 0);
    RebuildSum(Points, r.heap, r.live);
    SumPermutation(Points, b.heap, s.live, Values(b.tiles));
  }

  /** `Acts` reads the dictionary only through lookups. */
  lemma ActsSameDict<Id>(d: Direction, dict: Dict<Id>, dict': Dict<Id>, heap: Heap<Id>, blocks: set<Id>, id: Id)
    requires id in heap && InHeap(heap, Values(dict)) && InHeap(heap, Values(dict'))
    requires Lookup(dict, NeighbourKey(d, heap[id])) == Lookup(dict', NeighbourKey(d, heap[id]))
    ensures Acts(d, dict, heap, blocks, id) == Acts(d, dict', heap, blocks, id)
  {
  }

  /** Distinct tiles of a sane board name distinct cells. */
  lemma SaneCellsApart<Id>(b: Board<Id>, ids: seq<Id>)
    requires Sane(b) && Distinct(ids) && forall id | id in ids :: id in Values(b.tiles)
    ensures InHeap(b.heap, ids) && CellsApart(b.heap, ids)
  {
    forall i, j | 0 <= i < j < |ids| ensures CellOf(b.heap[ids[i]]) != CellOf(b.heap[ids[j]]) {
      assert ids[i] in Values(b.tiles) && ids[j] in Values(b.tiles);
      var a :| 0 <= a < |b.tiles| && Values(b.tiles)[a] == ids[i];
      var c :| 0 <= c < |b.tiles| && Values(b.tiles)[c] == ids[j];
      assert b.tiles[a] in b.tiles && b.tiles[c] in b.tiles;
    }
  }

  /** Rebuilding from the board's own tiles, when none moved, gives back the same entries. */
  lemma RebuildSame<Id>(b: Board<Id>, ids: seq<Id>)
    requires Sane(b) && Distinct(ids) && forall id :: id in ids <==> id in Values(b.tiles)
    ensures InHeap(b.heap, ids)
    ensures forall x :: x in Rebuild(b.heap, ids) <==> x in b.tiles
  {
    SaneCellsApart(b, ids);
    RebuildExact(b.heap, ids);
    var r := Rebuild(b.heap, ids);
    forall x | x in r ensures x in b.tiles {
      var j :| 0 <= j < |r| && r[j] == x;
      assert ids[j] in Values(b.tiles);
      var a :| 0 <= a < |b.tiles| && Values(b.tiles)[a] == ids[j];
      assert b.tiles[a] in b.tiles;
    }
    forall x | x in b.tiles ensures x in r {
      var a :| 0 <= a < |b.tiles| && b.tiles[a] == x;
      assert Values(b.tiles)[a] in ids;
      var j :| 0 <= j < |ids| && ids[j] == x.1;
      assert r[j] == x;
    }
  }

  /**
   A pass leaves `updated` false exactly when the board is settled, and then
   it changes no tile, no value, no entry of the dictionary and `blocks`.
   */
  lemma StepIdle<Id>(d: Direction, b: Board<Id>)
    requires Sane(b)
    ensures var (b', u) := Step(d, b);
      && (!u <==> Settled(d, b))
      && (!u ==> b'.heap == b.heap && b'.blocks == b.blocks && forall x :: x in b'.tiles <==> x in b.tiles)
  {
    StepBusy(d, b);
    if Settled(d, b) {
      StepQuiet(d, b);
    }
  }

  /** A pass sets `updated` exactly when some tile on the board acts. */
  lemma StepBusy<Id>(d: Direction, b: Board<Id>)
    requires Sane(b)
    ensures Step(d, b).1 <==> !Settled(d, b)
  {
    var s := StartScan(d, b);
    StartReady(d, b);
    ScanIdle(d, b.tiles, s, 0);
    if Step(d, b).1 {
      var k :| 0 <= k < |s.live| && Acts(d, b.tiles, s.heap, s.blocks, s.live[k]);
      SomeActs(d, b, s.live, k);
    } else {
      NoneActs(d, b, s.live);
    }
  }

  /** A listing of the board's tiles in which some tile acts shows the board is not settled. */
  lemma SomeActs<Id>(d: Direction, b: Board<Id>, live: seq<Id>, k: nat)
    requires InHeap(b.heap, Values(b.tiles)) && forall id :: id in live <==> id in Values(b.tiles)
    requires k < |live| && Acts(d, b.tiles, b.heap, b.blocks, live[k])
    ensures !Settled(d, b)
  {
    assert live[k] in Values(b.tiles);
  }

  /** On a settled board no tile of any listing of its tiles acts. */
  lemma QuietListing<Id>(d: Direction, b: Board<Id>, live: seq<Id>)
    requires InHeap(b.heap, Values(b.tiles)) && forall id :: id in live <==> id in Values(b.tiles)
    requires Settled(d, b)
    ensures forall k | 0 <= k < |live| :: !Acts(d, b.tiles, b.heap, b.blocks, live[k])
  {
    forall k | 0 <= k < |live| ensures !Acts(d, b.tiles, b.heap, b.blocks, live[k]) {
      assert live[k] in Values(b.tiles);
    }
  }

  /** A listing of the board's tiles in which no tile acts shows the board is settled. */
  lemma NoneActs<Id>(d: Direction, b: Board<Id>, live: seq<Id>)
    requires InHeap(b.heap, Values(b.tiles)) && forall id :: id in live <==> id in Values(b.tiles)
    requires forall k | 0 <= k < |live| :: !Acts(d, b.tiles, b.heap, b.blocks, live[k])
    ensures Settled(d, b)
  {
    forall id | id in Values(b.tiles) ensures !Acts(d, b.tiles, b.heap, b.blocks, id) {
      var k :| 0 <= k < |live| && live[k] == id;
    }
  }

  /** A pass over a settled board changes no tile, no value, no entry of the dictionary and `blocks`. */
  lemma StepQuiet<Id>(d: Direction, b: Board<Id>)
    requires Sane(b) && Settled(d, b)
    ensures var b' := Step(d, b).0;
      b'.heap == b.heap && b'.blocks == b.blocks && forall x :: x in b'.tiles <==> x in b.tiles
  {
    var s := StartScan(d, b);
    StartReady(d, b);
    ScanIdle(d, b.tiles, s, 0);
    QuietListing(d, b, s.live);
    RebuildSame(b, s.live);
  }

  /** A pass only drops tiles from the board; it never brings one back. */
  lemma StepShrinks<Id>(d: Direction, b: Board<Id>)
    requires Sane(b)
    ensures forall id | id in Values(Step(d, b).0.tiles) :: id in Values(b.tiles)
  {
    var s := StartScan(d, b);
    StartReady(d, b);
    var r := Scan(d, b.tiles, s, 0);
    ScanShape(d, b.tiles, s, 0);
    RebuildEntries(r.heap, r.live);
    forall id | id in Values(Step(d, b).0.tiles) ensures id in Values(b.tiles) {
      var dict := Step(d, b).0.tiles;
      var i :| 0 <= i < |dict| && Values(dict)[i] == id;
      assert dict[i] in dict;
    }
  }

  lemma TravelNonnegative<Id>(d: Direction, b: Board<Id>)
    requires Sane(b)
    ensures Sum(Travel(d), b.heap, Values(b.tiles)) >= 0
  {
    forall id | id in Values(b.tiles) ensures Score(Travel(d), b.heap[id]) >= 0 {
      ScorePositive(Travel(d), b.heap[id]);
    }
    SumNonnegative(Travel(d), b.heap, Values(b.tiles));
  }

  /** A board with the same tiles, entries and `blocks` as a settled one is settled. */
  lemma SettledSame<Id>(d: Direction, b: Board<Id>, b': Board<Id>)
    requires Sane(b) && Sane(b') && Settled(d, b)
    requires b'.heap == b.heap && b'.blocks == b.blocks && forall x :: x in b'.tiles <==> x in b.tiles
    ensures Settled(d, b')
  {
    forall id | id in Values(b'.tiles) ensures !Acts(d, b'.tiles, b'.heap, b'.blocks, id) {
      var i :| 0 <= i < |b'.tiles| && Values(b'.tiles)[i] == id;
      assert b'.tiles[i] in b.tiles;
      var j :| 0 <= j < |b.tiles| && b.tiles[j] == b'.tiles[i];
      assert Values(b.tiles)[j] == id;
      LookupSame(b.tiles, b'.tiles, NeighbourKey(d, b.heap[id]));
      ActsSameDict(d, b.tiles, b'.tiles, b.heap, b.blocks, id);
    }
  }

  /**
   The `while updated` loop: passes until one changes nothing. It keeps the
   board sane and never gains tiles: each tile that leaves the board goes
   into `blocks` or is lost. What else the loop ends on is SettleOutcome.
   */
  function Settle<Id>(d: Direction, b: Board<Id>): (r: Board<Id>)
    requires Sane(b)
    ensures Sane(r) && r.heap.Keys == b.heap.Keys
    ensures |r.tiles| + |r.blocks| <= |b.tiles| + |b.blocks|
    decreases Sum(Travel(d), b.heap, Values(b.tiles))
  {
    var (b', u) := Step(d, b);
    StepSane(d, b);
    StepTravel(d, b);
    StepCount(d, b);
    TravelNonnegative(d, b');
    if u then Settle(d, b') else b'
  }

  /** The loop ends on a settled board: one more pass would change nothing. */
  lemma {:induction false} SettleSettled<Id>(d: Direction, b: Board<Id>)
    requires Sane(b)
    ensures Settled(d, Settle(d, b))
    decreases Sum(Travel(d), b.heap, Values(b.tiles))
  {
    var (b', u) := Step(d, b);
    StepSane(d, b);
    StepTravel(d, b);
    TravelNonnegative(d, b');
    if u {
      SettleSettled(d, b');
    } else {
      StepIdle(d, b);
      SettledSame(d, b, b');
    }
  }

  /** The loop never takes a tile out of `blocks`, and ends holding only tiles from the start. */
  lemma {:induction false} SettleOrigin<Id>(d: Direction, b: Board<Id>)
    requires Sane(b)
    ensures var r := Settle(d, b);
      b.blocks <= r.blocks && forall id | id in Values(r.tiles) :: id in Values(b.tiles)
    decreases Sum(Travel(d), b.heap, Values(b.tiles))
  {
    var (b', u) := Step(d, b);
    StepSane(d, b);
    StepTravel(d, b);
    StepCount(d, b);
    StepShrinks(d, b);
    TravelNonnegative(d, b');
    if u {
      SettleOrigin(d, b');
    }
  }

  /** The loop doubles each value it adds to `blocks` exactly once, and no other. */
  lemma {:induction false} SettleValues<Id>(d: Direction, b: Board<Id>)
    requires Sane(b)
    ensures var r := Settle(d, b);
      forall id | id in b.heap ::
        r.heap[id].value == (if id in r.blocks - b.blocks then 2 * b.heap[id].value else b.heap[id].value)
    decreases Sum(Travel(d), b.heap, Values(b.tiles))
  {
    var (b', u) := Step(d, b);
    StepSane(d, b);
    StepTravel(d, b);
    StepCount(d, b);
    StepValues(d, b);
    TravelNonnegative(d, b');
    if u {
      SettleValues(d, b');
      SettleOrigin(d, b');
      var r := Settle(d, b');
      forall id | id in b.heap
        ensures r.heap[id].value == (if id in r.blocks - b.blocks then 2 * b.heap[id].value else b.heap[id].value)
      {
        assert id in b'.heap;
      }
    }
  }

  /**
   The loop never raises the value sum, and keeps it when no tile was lost
   and every merge target is still on the board.
   */
  lemma {:induction false} SettlePoints<Id>(d: Direction, b: Board<Id>)
    requires Sane(b)
    ensures var r := Settle(d, b);
      && Total(r) <= Total(b)
      && ((|r.tiles| + |r.blocks| == |b.tiles| + |b.blocks|
           && forall x | x in r.blocks - b.blocks :: x in Values(r.tiles)) ==> Total(r) == Total(b))
    decreases Sum(Travel(d), b.heap, Values(b.tiles))
  {
    var (b', u) := Step(d, b);
    StepSane(d, b);
    StepTravel(d, b);
    StepCount(d, b);
    StepPoints(d, b);
    TravelNonnegative(d, b');
    if u {
      SettlePoints(d, b');
      SettleOrigin(d, b');
    }
  }

  /** Every key of a sane board is a cell of the grid. */
  lemma SaneKeysInGrid<Id>(b: Board<Id>)
    requires Sane(b)
    ensures forall i | 0 <= i < |b.tiles| :: InGrid(b.tiles[i].0)
  {
    forall i | 0 <= i < |b.tiles| ensures InGrid(b.tiles[i].0) {
      assert b.tiles[i] in b.tiles;
      PlacedInGrid(b.heap[b.tiles[i].1]);
    }
  }

  /** Sanity depends only on the fields of the tiles on the board. */
  lemma SaneRestrict<Id>(b: Board<Id>, heap: Heap<Id>, blocks: set<Id>)
    requires Sane(b)
    requires forall id | id in heap :: id in Values(b.tiles)
    requires forall id | id in Values(b.tiles) :: id in heap && heap[id] == b.heap[id]
    ensures Sane(Board(heap, b.tiles, blocks))
  {
  }

  /** Filing a new well-formed tile under its own free cell keeps the board sane. */
  lemma SaneAdd<Id>(b: Board<Id>, id: Id, t: TileState)
    requires Sane(b) && id !in b.heap && WellFormed(t) && !HasKey(b.tiles, CellOf(t))
    ensures Sane(Board(b.heap[id := t], Put(b.tiles, CellOf(t), id), b.blocks))
  {
    var tiles := Put(b.tiles, CellOf(t), id);
    var heap := b.heap[id := t];
    assert tiles == b.tiles + [(CellOf(t), id)];
    assert Values(tiles) == Values(b.tiles) + [id];
    assert AllWell(heap);
    assert InHeap(heap, Values(tiles));
    assert DistinctKeys(tiles) by {
      PutLookup(b.tiles, CellOf(t), id);
    }
    assert Distinct(Values(tiles)) by {
      forall i | 0 <= i < |b.tiles| ensures Values(tiles)[i] != id {
        assert Values(b.tiles)[i] in b.heap;
      }
    }
    forall e | e in tiles ensures e.1 in heap && e.0 == CellOf(heap[e.1]) {
      if e != (CellOf(t), id) {
        assert e in b.tiles;
        assert e.1 != id;
      }
    }
  }
}
