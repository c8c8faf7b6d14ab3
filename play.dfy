/**
 The game's mutable state: the `tiles` dictionary of Tile objects, and the
 operations that change it in place — `generate_tiles`, `move_tiles` with its
 `update_tiles`, and `end_move` with `get_random_pos`. Each is proved to do
 what the functional model (Engine, MoveLoop) says, on the objects' fields.
 */
module Play {
  import opened Tiles
  import opened Policy
  import opened OrderedDict
  import opened Sums
  import opened Engine
  import opened ScanFacts
  import opened MoveLoop
  import opened Terminal
  import Sorting

  lemma ScanUnfold<Id>(d: Direction, dict: Dict<Id>, s: Scanned<Id>, i: nat)
    requires i < |s.live| && InHeap(s.heap, s.live) && InHeap(s.heap, Values(dict))
    ensures Scan(d, dict, s, i) == Scan(d, dict, Visit(d, dict, s, i), i + 1)
  {
  }

  lemma StepUnfold<Id>(d: Direction, b: Board<Id>)
    requires InHeap(b.heap, Values(b.tiles))
    ensures var r := Scan(d, b.tiles, StartScan(d, b), 0);
      Step(d, b) == (Board(r.heap, Rebuild(r.heap, r.live), r.blocks), r.updated)
  {
  }

  /** The fields of a set of tile objects, as a heap. */
  function HeapOf(ts: set<Tile>): Heap<Tile>
    reads ts
  {
    map t | t in ts :: t.State()
  }

  /** The heap mirrors the fields of the tile objects. */
  ghost predicate Mirrors(heap: Heap<Tile>, objs: set<Tile>)
    reads objs
  {
    heap.Keys == objs && forall t | t in objs :: heap[t] == t.State()
  }

  lemma HeapOfAdd(ts: set<Tile>, t: Tile)
    ensures HeapOf(ts + {t}) == HeapOf(ts)[t := t.State()]
  {
  }

  /** `list(map(lambda tile: tile.value, tiles.values()))` */
  function TileValues(tiles: Dict<Tile>): (r: seq<int>)
    reads set t | t in Values(tiles)
    ensures |r| == |tiles| && forall i | 0 <= i < |tiles| :: r[i] == tiles[i].1.value
  {
    seq(|tiles|, i requires 0 <= i < |tiles| reads set t | t in Values(tiles) => tiles[i].1.value)
  }

  /** `check_victory(tiles)`, applied to the values of the board's tiles. */
  predicate Victory(tiles: Dict<Tile>)
    requires |tiles| > 0
    reads set t | t in Values(tiles)
  {
    CheckVictory(TileValues(tiles))
  }

  /** The board is won exactly when some tile holds 2048 and no tile holds more. */
  lemma VictoryOnTiles(tiles: Dict<Tile>)
    requires |tiles| > 0
    ensures Victory(tiles) <==>
      (exists t | t in Values(tiles) :: t.value == 2048) && forall t | t in Values(tiles) :: t.value <= 2048
  {
    var vs := TileValues(tiles);
    VictoryMeans(vs);
    if 2048 in vs {
      var i :| 0 <= i < |vs| && vs[i] == 2048;
      assert Values(tiles)[i] == tiles[i].1;
    }
    if exists t | t in Values(tiles) :: t.value == 2048 {
      var t :| t in Values(tiles) && t.value == 2048;
      var i :| 0 <= i < |tiles| && Values(tiles)[i] == t;
      assert vs[i] == 2048;
    }
    forall t | t in Values(tiles) ensures t.value in vs {
      var i :| 0 <= i < |tiles| && Values(tiles)[i] == t;
      assert vs[i] == t.value;
    }
    forall v | v in vs ensures exists t | t in Values(tiles) :: t.value == v {
      var i :| 0 <= i < |vs| && vs[i] == v;
      assert Values(tiles)[i] == tiles[i].1;
    }
  }

  /**
   `get_random_pos`: a free cell of the grid. The source draws cells at
   random until one is free; the model picks any free cell.
   */
  method GetRandomPos<V>(tiles: Dict<V>) returns (row: int, col: int)
    requires DistinctKeys(tiles) && KeysInGrid(tiles) && !GameOver(tiles)
    ensures InGrid((row, col)) && !HasKey(tiles, (row, col))
  {
    FreeCellExists(tiles);
    row, col :| 0 <= row < ROWS && 0 <= col < COLS && !HasKey(tiles, (row, col));
  }

  /** `tile.move(delta)` then `tile.set_pos(ceil)`: one tick of the slide. */
  method TickTile(d: Direction, tile: Tile, ghost heap: Heap<Tile>, ghost objs: set<Tile>)
    returns (ghost heap': Heap<Tile>)
    requires tile in objs && Mirrors(heap, objs)
    modifies tile
    ensures Mirrors(heap', objs) && heap' == heap[tile := Advance(d, heap[tile])]
  {
    tile.Move(Delta(d));
    tile.SetPos(RoundsUp(d));
    heap' := heap[tile := tile.State()];
  }

  /** `next_tile.value *= 2`, then the fall-through `tile.set_pos(ceil)`. */
  method MergeTile(d: Direction, tile: Tile, next: Tile, ghost heap: Heap<Tile>, ghost objs: set<Tile>)
    returns (ghost heap': Heap<Tile>)
    requires tile in objs && next in objs && Mirrors(heap, objs)
    modifies tile, next
    ensures Mirrors(heap', objs)
    ensures var h := heap[next := heap[next].(value := 2 * heap[next].value)];
      heap' == h[tile := Repositioned(h[tile], RoundsUp(d))]
  {
    next.value := next.value * 2;
    ghost var h := heap[next := next.State()];
    tile.SetPos(RoundsUp(d));
    heap' := h[tile := tile.State()];
  }

  /**
   The body of the `for i, tile in enumerate(sorted_tiles)` loop for one
   tile: skip it at the edge; move it when its neighbour cell is empty or
   it may merge but is still more than a tick away; merge it into its
   neighbour (double the neighbour, pop the tile, block the neighbour);
   move it when a whole cell of clearance remains; otherwise leave it.
   `dict` is the `tiles` dictionary as the pass found it.
   */
  method VisitTile(d: Direction, dict: Dict<Tile>, sorted: seq<Tile>, i: nat, blocks: set<Tile>, updated: bool,
                   ghost heap: Heap<Tile>, ghost objs: set<Tile>)
    returns (sorted': seq<Tile>, blocks': set<Tile>, updated': bool, ghost heap': Heap<Tile>)
    requires i < |sorted| && InHeap(heap, sorted) && InHeap(heap, Values(dict)) && Mirrors(heap, objs)
    modifies objs
    ensures Mirrors(heap', objs)
    ensures Scanned(heap', sorted', blocks', updated') == Visit(d, dict, Scanned(heap, sorted, blocks, updated), i)
    ensures |sorted'| <= |sorted|
  {
    sorted', blocks', updated', heap' := sorted, blocks, updated, heap;
    var tile := sorted[i];
    assert tile.State() == heap[tile];
    if !AtEdge(d, tile.State()) {
      match Lookup(dict, NeighbourKey(d, tile.State()))
      case None =>
        heap' := TickTile(d, tile, heap, objs);
        updated' := true;
      case Some(next) =>
        assert next.State() == heap[next];
        if tile.value == next.value && tile !in blocks && next !in blocks {
          if MergeGapOpen(d, tile.State(), next.State()) {
            heap' := TickTile(d, tile, heap, objs);
          } else {
            heap' := MergeTile(d, tile, next, heap, objs);
            sorted' := sorted[..i] + sorted[i + 1..];
            blocks' := blocks + {next};
          }
          updated' := true;
        } else if MoveGapOpen(d, tile.State(), next.State()) {
          heap' := TickTile(d, tile, heap, objs);
          updated' := true;
        }
    }
  }

  /**
   The `for i, tile in enumerate(sorted_tiles)` loop: each tile in turn,
   the index advancing past a pop. The result is one pass of Scan.
   */
  method ScanTiles(d: Direction, dict: Dict<Tile>, sorted: seq<Tile>, blocks: set<Tile>, ghost heap: Heap<Tile>, ghost objs: set<Tile>)
    returns (sorted': seq<Tile>, blocks': set<Tile>, updated: bool, ghost heap': Heap<Tile>)
    requires InHeap(heap, sorted) && InHeap(heap, Values(dict)) && Mirrors(heap, objs)
    modifies objs
    ensures Mirrors(heap', objs)
    ensures Scanned(heap', sorted', blocks', updated) == Scan(d, dict, Scanned(heap, sorted, blocks, false), 0)
  {
    sorted', blocks', updated, heap' := sorted, blocks, false, heap;
    ghost var start := Scanned(heap, sorted, blocks, false);
    var i := 0;
    while i < |sorted'|
      invariant InHeap(heap', sorted') && InHeap(heap', Values(dict)) && Mirrors(heap', objs)
      invariant Scan(d, dict, Scanned(heap', sorted', blocks', updated), i) == Scan(d, dict, start, 0)
      decreases |sorted'| - i
    {
      ghost var cur := Scanned(heap', sorted', blocks', updated);
      ScanUnfold(d, dict, cur, i);
      sorted', blocks', updated, heap' := VisitTile(d, dict, sorted', i, blocks', updated, heap', objs);
      i := i + 1;
    }
  }

  class Game {
    /** `tiles`: cell key to Tile object, in insertion order. */
    var tiles: Dict<Tile>

    ghost function Objects(): set<Tile>
      reads this
    {
      set t | t in Values(tiles)
    }

    /** The board is sane: well-formed tiles, each held once under its own cell. */
    ghost predicate Valid()
      reads this, Objects()
    {
      Sane(Board(HeapOf(Objects()), tiles, {}))
    }

    /** `generate_tiles`: two tiles of value 2 on two free cells. */
    constructor Generate()
      ensures Valid() && |tiles| == 2
      ensures forall t | t in Values(tiles) :: fresh(t) && t.value == 2
      ensures forall i | 0 <= i < |tiles| :: tiles[i].1.State() == Created(2, tiles[i].0.0, tiles[i].0.1)
    {
      tiles := [];
      new;
      assert IsPowerOfTwo(2) by {
        assert IsPowerOfTwo(1);
      }
      for n := 0 to 2
        invariant Valid() && |tiles| == n
        invariant forall i | 0 <= i < n :: fresh(tiles[i].1) && tiles[i].1.State() == Created(2, tiles[i].0.0, tiles[i].0.1)
      {
        Spawn(2);
      }
      forall t | t in Values(tiles) ensures fresh(t) && t.value == 2 {
        var i :| 0 <= i < |tiles| && Values(tiles)[i] == t;
      }
    }

    /** `tiles[f"{row}{col}"] = tile` for a new tile on a free cell. */
    method AddTile(t: Tile)
      requires Valid() && t !in Objects()
      requires WellFormed(t.State()) && !HasKey(tiles, CellOf(t.State()))
      modifies this`tiles
      ensures tiles == old(tiles) + [(CellOf(t.State()), t)]
      ensures Valid()
    {
      ghost var objs := Objects();
      ghost var heap := HeapOf(objs);
      SaneAdd(Board(heap, tiles, {}), t, t.State());
      tiles := Put(tiles, (t.row, t.col), t);
      assert tiles == old(tiles) + [(CellOf(t.State()), t)];
      assert Objects() == objs + {t} by {
        assert Values(tiles) == Values(old(tiles)) + [t];
      }
      HeapOfAdd(objs, t);
    }

    /**
     A new tile of the given value on a free cell from `get_random_pos`,
     filed under that cell: the tail of `generate_tiles` and `end_move`.
     */
    method Spawn(value: int)
      requires Valid() && !GameOver(tiles) && value >= 2 && IsPowerOfTwo(value)
      modifies this`tiles
      ensures Valid() && |tiles| == |old(tiles)| + 1 && tiles == old(tiles) + [tiles[|old(tiles)|]]
      ensures var (k, t) := tiles[|old(tiles)|];
        fresh(t) && !HasKey(old(tiles), k) && t.State() == Created(value, k.0, k.1)
    {
      SaneKeysInGrid(Board(HeapOf(Objects()), tiles, {}));
      var row, col := GetRandomPos(tiles);
      var t := new Tile(value, row, col);
      CreatedIsPlaced(value, row, col);
      AddTile(t);
    }

    /** `end_move`: a new tile of value 2 or 4 on a free cell. */
    method EndMove()
      requires Valid() && !GameOver(tiles)
      modifies this`tiles
      ensures Valid() && |tiles| == |old(tiles)| + 1 && tiles[..|old(tiles)|] == old(tiles)
      ensures var (k, t) := tiles[|old(tiles)|];
        && fresh(t) && !HasKey(old(tiles), k)
        && (t.value == 2 || t.value == 4) && t.State() == Created(t.value, k.0, k.1)
    {
      var value :| value in {2, 4};
      assert IsPowerOfTwo(value) by {
        assert IsPowerOfTwo(1);
        assert IsPowerOfTwo(2);
      }
      Spawn(value);
      assert tiles[..|old(tiles)|] == old(tiles);
    }

    /**
     `update_tiles`: clear the dictionary, then file each listed tile under
     the cell its fields name, in list order.
     */
    method UpdateTiles(sorted: seq<Tile>, ghost heap: Heap<Tile>)
      requires InHeap(heap, sorted) && forall t | t in sorted :: heap[t] == t.State()
      modifies this`tiles
      ensures tiles == Rebuild(heap, sorted)
    {
      tiles := [];
      for k := 0 to |sorted|
        invariant InHeap(heap, sorted[..k]) && tiles == Rebuild(heap, sorted[..k])
      {
        var t := sorted[k];
        assert sorted[..k + 1][..k] == sorted[..k];
        tiles := Put(tiles, (t.row, t.col), t);
      }
      assert sorted[..|sorted|] == sorted;
    }

    /** `sorted(tiles.values(), key=sort_func, reverse=reverse)` on the tile objects. */
    method SortTiles(d: Direction, ghost heap: Heap<Tile>, ghost objs: set<Tile>) returns (sorted: seq<Tile>)
      requires Mirrors(heap, objs) && InHeap(heap, Values(tiles))
      ensures sorted == SortedTiles(d, heap, Values(tiles))
    {
      var keys := map t | t in Values(tiles) :: SortKey(d, t.State());
      assert keys == SortKeys(d, heap, Values(tiles));
      sorted := Sorting.Sort(Values(tiles), KeyFrom(keys), Reverse(d));
    }

    /**
     One pass of the `while updated` loop: `updated = False`, sort the
     tiles, scan them, `update_tiles`. The result is Step.
     */
    method Pass(d: Direction, blocks: set<Tile>, ghost heap: Heap<Tile>, ghost objs: set<Tile>)
      returns (blocks': set<Tile>, updated: bool, ghost heap': Heap<Tile>)
      requires Mirrors(heap, objs) && InHeap(heap, Values(tiles))
      modifies this`tiles, objs
      ensures Mirrors(heap', objs)
      ensures (Board(heap', tiles, blocks'), updated) == Step(d, Board(heap, old(tiles), blocks))
    {
      ghost var b := Board(heap, tiles, blocks);
      var sorted := SortTiles(d, heap, objs);
      ghost var s0 := StartScan(d, b);
      assert s0 == Scanned(heap, sorted, blocks, false);
      sorted, blocks', updated, heap' := ScanTiles(d, tiles, sorted, blocks, heap, objs);
      ghost var r := Scan(d, b.tiles, s0, 0);
      assert r == Scanned(heap', sorted, blocks', updated);
      StepUnfold(d, b);
      assert Mirrors(heap', objs);
      UpdateTiles(sorted, heap');
      assert Mirrors(heap', objs);
    }

    /**
     The `while updated` loop of `move_tiles`: passes of sort, scan and
     `update_tiles` while a pass updates anything. The tiles end where Settle
     puts them, with the fields Settle gives them.
     */
    method SlideTiles(d: Direction) returns (ghost r: Board<Tile>)
      requires Valid()
      modifies this`tiles, Objects()
      ensures Valid()
      ensures r == Settle(d, Board(old(HeapOf(Objects())), old(tiles), {}))
      ensures tiles == r.tiles && Mirrors(r.heap, old(Objects()))
    {
      ghost var objs := Objects();
      ghost var heap := HeapOf(objs);
      ghost var start := Board(heap, tiles, {});
      var updated := true;
      var blocks: set<Tile> := {};
      while updated
        invariant Mirrors(heap, objs) && Sane(Board(heap, tiles, blocks))
        invariant updated ==> Settle(d, Board(heap, tiles, blocks)) == Settle(d, start)
        invariant !updated ==> Board(heap, tiles, blocks) == Settle(d, start)
        decreases if updated then Sum(Travel(d), heap, Values(tiles)) + 1 else 0
      {
        ghost var b := Board(heap, tiles, blocks);
        TravelNonnegative(d, b);
        blocks, updated, heap := Pass(d, blocks, heap, objs);
        StepSane(d, b);
        StepTravel(d, b);
      }
      SaneRestrict(Board(heap, tiles, blocks), HeapOf(Objects()), {});
      r := Settle(d, start);
    }

    /**
     `move_tiles`: the slide loop, then `end_move`. The tiles end where
     Settle puts them, with the fields Settle gives them, and one new tile
     follows on a free cell.
     */
    method MoveTiles(d: Direction)
      requires Valid() && !GameOver(tiles)
      modifies this`tiles, Objects()
      ensures Valid()
      ensures var r := Settle(d, Board(old(HeapOf(Objects())), old(tiles), {}));
        && |tiles| == |r.tiles| + 1 && tiles[..|r.tiles|] == r.tiles
        && Mirrors(r.heap, old(Objects()))
        && var (k, t) := tiles[|r.tiles|];
           fresh(t) && !HasKey(r.tiles, k) && (t.value == 2 || t.value == 4) && t.State() == Created(t.value, k.0, k.1)
    {
      ghost var objs := Objects();
      ghost var start := Board(HeapOf(objs), tiles, {});
      SaneKeysInGrid(start);
      GameOverMeansFull(start.tiles);
      ghost var r := SlideTiles(d);
      assert |r.tiles| <= |start.tiles|;
      EndMove();
      assert Mirrors(r.heap, objs);
    }
  }
}
