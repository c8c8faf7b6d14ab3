/**
 The four direction policies of `move_tiles`: for each swipe direction, the
 scan order, the per-tick displacement, the edge test, the neighbour cell,
 the merge-gap test, the move-gap test and the rounding used by `set_pos`.
 */
module Policy {
  import opened Tiles

  datatype Direction = Left | Right | Up | Down

  /** The sort key: the column for horizontal swipes, the row for vertical ones. */
  function SortKey(d: Direction, t: TileState): int {
    if d.Left? || d.Right? then t.col else t.row
  }

  /** Whether the scan sorts in descending order (`reverse=True`). */
  predicate Reverse(d: Direction) {
    d.Right? || d.Down?
  }

  /** Whether `set_pos` rounds up (`ceil=True`). */
  predicate RoundsUp(d: Direction) {
    d.Left? || d.Up?
  }

  function Delta(d: Direction): (int, int) {
    match d
    case Left => (-MOVE_VEL, 0)
    case Right => (MOVE_VEL, 0)
    case Up => (0, -MOVE_VEL)
    case Down => (0, MOVE_VEL)
  }

  /** `boundary_check`: the tile's cell is on the edge the swipe points to. */
  predicate AtEdge(d: Direction, t: TileState) {
    match d
    case Left => t.col == 0
    case Right => t.col == COLS - 1
    case Up => t.row == 0
    case Down => t.row == ROWS - 1
  }

  /** The cell `get_next_tile` looks up: one cell towards the edge. */
  function NeighbourKey(d: Direction, t: TileState): (k: Key)
    ensures k.0 == t.row + Delta(d).1 / MOVE_VEL && k.1 == t.col + Delta(d).0 / MOVE_VEL
    ensures InGrid((t.row, t.col)) ==> (InGrid(k) <==> !AtEdge(d, t))
  {
    match d
    case Left => (t.row, t.col - 1)
    case Right => (t.row, t.col + 1)
    case Up => (t.row - 1, t.col)
    case Down => (t.row + 1, t.col)
  }

  /** `merge_check`: the tile is still more than one tick away from its neighbour. */
  predicate MergeGapOpen(d: Direction, t: TileState, n: TileState) {
    match d
    case Left => t.x > n.x + MOVE_VEL
    case Right => t.x < n.x - MOVE_VEL
    case Up => t.y > n.y + MOVE_VEL
    case Down => t.y < n.y - MOVE_VEL
  }

  /** `move_check`: a whole cell plus one tick of clearance remains before the neighbour. */
  predicate MoveGapOpen(d: Direction, t: TileState, n: TileState)
    ensures MoveGapOpen(d, t, n) ==> MergeGapOpen(d, t, n)
  {
    match d
    case Left => t.x > n.x + RECT_WIDTH + MOVE_VEL
    case Right => t.x + RECT_WIDTH + MOVE_VEL < n.x
    case Up => t.y > n.y + RECT_HEIGHT + MOVE_VEL
    case Down => t.y + RECT_HEIGHT + MOVE_VEL < n.y
  }

  /** One tick of the slide: `tile.move(delta)` followed by `tile.set_pos(ceil)`. */
  function Advance(d: Direction, t: TileState): TileState {
    Repositioned(Moved(t, Delta(d)), RoundsUp(d))
  }

  /** Pixels between a tile and the edge the swipe points to. */
  function Distance(d: Direction, t: TileState): int {
    match d
    case Left => t.x
    case Right => MAX_X - t.x
    case Up => t.y
    case Down => MAX_Y - t.y
  }

  /**
   A placed tile that is not on the edge has room for one more tick: the tick
   keeps it placed, keeps its value and brings it exactly MOVE_VEL closer to
   the edge.
   */
  lemma AdvanceKeepsPlaced(d: Direction, t: TileState)
    requires Placed(t) && !AtEdge(d, t)
    ensures Placed(Advance(d, t))
    ensures Advance(d, t).value == t.value
    ensures Distance(d, Advance(d, t)) == Distance(d, t) - MOVE_VEL
    ensures Distance(d, Advance(d, t)) >= 0
  {
    match d
    case Left => AdvanceLeft(t);
    case Right => AdvanceRight(t);
    case Up => AdvanceUp(t);
    case Down => AdvanceDown(t);
  }

  lemma AdvanceLeft(t: TileState)
    requires Placed(t) && !AtEdge(Left, t)
    ensures Placed(Advance(Left, t)) && Distance(Left, Advance(Left, t)) == Distance(Left, t) - MOVE_VEL
  {
    StepLower(t.x, t.col);
  }

  lemma AdvanceRight(t: TileState)
    requires Placed(t) && !AtEdge(Right, t)
    ensures Placed(Advance(Right, t)) && Distance(Right, Advance(Right, t)) == Distance(Right, t) - MOVE_VEL
  {
    StepHigher(t.x, t.col);
  }

  lemma AdvanceUp(t: TileState)
    requires Placed(t) && !AtEdge(Up, t)
    ensures Placed(Advance(Up, t)) && Distance(Up, Advance(Up, t)) == Distance(Up, t) - MOVE_VEL
  {
    StepLower(t.y, t.row);
  }

  lemma AdvanceDown(t: TileState)
    requires Placed(t) && !AtEdge(Down, t)
    ensures Placed(Advance(Down, t)) && Distance(Down, Advance(Down, t)) == Distance(Down, t) - MOVE_VEL
  {
    StepHigher(t.y, t.row);
  }

  /** A coordinate off the low edge can step MOVE_VEL towards it and stay on the board's lattice. */
  lemma StepLower(p: int, c: int)
    requires 0 <= p <= MAX_X && p % MOVE_VEL == 0 && c != 0
    requires c == FloorDiv(p, RECT_WIDTH) || c == CeilDiv(p, RECT_WIDTH)
    ensures 0 <= p - MOVE_VEL <= MAX_X && (p - MOVE_VEL) % MOVE_VEL == 0
  {
    assert p > 0;
  }

  /** A coordinate off the high edge can step MOVE_VEL towards it and stay on the board's lattice. */
  lemma StepHigher(p: int, c: int)
    requires 0 <= p <= MAX_X && p % MOVE_VEL == 0 && c != COLS - 1
    requires c == FloorDiv(p, RECT_WIDTH) || c == CeilDiv(p, RECT_WIDTH)
    ensures 0 <= p + MOVE_VEL <= MAX_X && (p + MOVE_VEL) % MOVE_VEL == 0
  {
    assert p < MAX_X;
  }

  lemma PlacedDistance(d: Direction, t: TileState)
    requires Placed(t)
    ensures 0 <= Distance(d, t) <= MAX_X
  {
  }
}
