/**
 The slide/merge engine of `move_tiles`, as functions over the tiles'
 fields. Tile objects are identities of type Id; their fields live in a heap
 (module Sums). Keeping identities explicit lets the model say what the
 source does with aliasing: the neighbour found in the dictionary is the
 same object as an entry of the sorted list, `blocks` holds identities, and
 the dictionary read during a step is the one built at the end of the
 previous step, while positions and values are read as they are now.
 */
module Engine {
  import opened Tiles
  import opened Policy
  import opened OrderedDict
  import opened Sums
  import Sorting

  /** The cell a tile's fields name: the key `update_tiles` files it under. */
  function CellOf(t: TileState): Key {
    (t.row, t.col)
  }

  /** Every tile the game holds is well formed. */
  predicate AllWell<Id>(heap: Heap<Id>) {
    forall id | id in heap :: WellFormed(heap[id])
  }

  // ---------------------------------------------------------------------
  // One pass of the `while updated` loop

  /** The state of the `for i, tile in enumerate(sorted_tiles)` loop. */
  datatype Scanned<Id> = Scanned(heap: Heap<Id>, live: seq<Id>, blocks: set<Id>, updated: bool)

  /** A key function from a table of precomputed keys. */
  function KeyFrom<Id(==)>(keys: map<Id, int>): Id -> int {
    id => if id in keys then keys[id] else 0
  }

  /** The `sort_func` key of every listed tile. */
  function SortKeys<Id(==)>(d: Direction, heap: Heap<Id>, ids: seq<Id>): map<Id, int>
    requires InHeap(heap, ids)
  {
    map id | id in ids :: SortKey(d, heap[id])
  }

  /** `sorted(tiles.values(), key=sort_func, reverse=reverse)` */
  function SortedTiles<Id(==)>(d: Direction, heap: Heap<Id>, ids: seq<Id>): (r: seq<Id>)
    requires InHeap(heap, ids)
    ensures multiset(r) == multiset(ids)
    ensures InHeap(heap, r)
  {
    var r := Sorting.Sort(ids, KeyFrom(SortKeys(d, heap, ids)), Reverse(d));
    assert InHeap(heap, r) by {
      forall id | id in r ensures id in heap {
        assert id in multiset(r);
      }
    }
    r
  }

  /** `tile.move(delta)` then `tile.set_pos(ceil)`, and `updated = True`. */
  function Tick<Id(==)>(d: Direction, s: Scanned<Id>, id: Id): Scanned<Id>
    requires id in s.heap
  {
    s.(heap := s.heap[id := Advance(d, s.heap[id])], updated := true)
  }

  /**
   The merge branch: `next_tile.value *= 2`, `sorted_tiles.pop(i)`,
   `blocks.add(next_tile)`, then the fall-through `tile.set_pos(ceil)` and
   `updated = True`.
   */
  function Absorb<Id(==)>(d: Direction, s: Scanned<Id>, i: nat, nid: Id): Scanned<Id>
    requires i < |s.live| && s.live[i] in s.heap && nid in s.heap
  {
    var id := s.live[i];
    var h := s.heap[nid := s.heap[nid].(value := 2 * s.heap[nid].value)];
    Scanned(h[id := Repositioned(h[id], RoundsUp(d))], s.live[..i] + s.live[i + 1..], s.blocks + {nid}, true)
  }

  /** Whether the merge branch is open to tile t and its neighbour n. */
  predicate Mergeable<Id(==)>(t: TileState, n: TileState, id: Id, nid: Id, blocks: set<Id>) {
    t.value == n.value && id !in blocks && nid !in blocks
  }

  /**
   Whether visiting tile `id` changes anything: it is off the edge and its
   neighbour cell is empty, or it may merge with the neighbour, or a whole
   cell of clearance remains before the neighbour.
   */
  predicate Acts<Id(==)>(d: Direction, dict: Dict<Id>, heap: Heap<Id>, blocks: set<Id>, id: Id)
    requires id in heap && InHeap(heap, Values(dict))
  {
    var t := heap[id];
    && !AtEdge(d, t)
    && match Lookup(dict, NeighbourKey(d, t))
       case None => true
       case Some(nid) => Mergeable(t, heap[nid], id, nid, blocks) || MoveGapOpen(d, t, heap[nid])
  }

  /**
   The body of the `for` loop for the tile at index i. `dict` is the
   dictionary as it stood when the pass began.
   */
  function Visit<Id(==)>(d: Direction, dict: Dict<Id>, s: Scanned<Id>, i: nat): (r: Scanned<Id>)
    requires i < |s.live| && InHeap(s.heap, s.live) && InHeap(s.heap, Values(dict))
    ensures r.heap.Keys == s.heap.Keys && InHeap(r.heap, r.live) && InHeap(r.heap, Values(dict))
    ensures r.live == s.live || r.live == s.live[..i] + s.live[i + 1..]
    ensures s.blocks <= r.blocks && |r.live| + |r.blocks| == |s.live| + |s.blocks|
    ensures r.updated == (s.updated || Acts(d, dict, s.heap, s.blocks, s.live[i]))
    ensures !Acts(d, dict, s.heap, s.blocks, s.live[i]) ==> r == s
  {
    var id := s.live[i];
    var t := s.heap[id];
    if AtEdge(d, t) then s
    else
      match Lookup(dict, NeighbourKey(d, t))
      case None => Tick(d, s, id)
      case Some(nid) =>
        var n := s.heap[nid];
        if Mergeable(t, n, id, nid, s.blocks) then
          if MergeGapOpen(d, t, n) then Tick(d, s, id)
          else
            assert |s.blocks + {nid}| == |s.blocks| + 1;
            Absorb(d, s, i, nid)
        else if MoveGapOpen(d, t, n) then Tick(d, s, id)
        else s
  }

  /**
   The `for` loop from index i on. After a pop the index still advances, so
   the tile that followed the absorbed one is not visited in this pass.
   */
  function Scan<Id(==)>(d: Direction, dict: Dict<Id>, s: Scanned<Id>, i: nat): (r: Scanned<Id>)
    requires InHeap(s.heap, s.live) && InHeap(s.heap, Values(dict))
    ensures r.heap.Keys == s.heap.Keys && InHeap(r.heap, r.live)
    decreases |s.live| - i
  {
    if i >= |s.live| then s
    else
      Scan(d, dict, Visit(d, dict, s, i), i + 1)
  }

  /** `update_tiles`: clear the dictionary and file every listed tile under its cell, in order. */
  function Rebuild<Id(==)>(heap: Heap<Id>, live: seq<Id>): Dict<Id>
    requires InHeap(heap, live)
  {
    if live == [] then []
    else
      var last := live[|live| - 1];
      Put(Rebuild(heap, live[..|live| - 1]), CellOf(heap[last]), last)
  }

  /** The board between two passes: the tiles' fields, the dictionary and `blocks`. */
  datatype Board<Id> = Board(heap: Heap<Id>, tiles: Dict<Id>, blocks: set<Id>)

  function StartScan<Id(==)>(d: Direction, b: Board<Id>): (s: Scanned<Id>)
    requires InHeap(b.heap, Values(b.tiles))
    ensures InHeap(s.heap, s.live)
  {
    Scanned(b.heap, SortedTiles(d, b.heap, Values(b.tiles)), b.blocks, false)
  }

  /** One pass of the `while updated` loop: the new board and the new `updated`. */
  function Step<Id(==)>(d: Direction, b: Board<Id>): (Board<Id>, bool)
    requires InHeap(b.heap, Values(b.tiles))
  {
    var s := Scan(d, b.tiles, StartScan(d, b), 0);
    (Board(s.heap, Rebuild(s.heap, s.live), s.blocks), s.updated)
  }
}
