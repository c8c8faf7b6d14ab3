/**
 Board geometry and the Tile entity of the 2048 game.

 A tile has a discrete cell (row, col) and a pixel position (x, y) that the
 slide animation moves in steps of MOVE_VEL. `TileState` is the value of a
 tile's fields; `Tile` is the mutable object the game keeps in its board.
 */
module Tiles {

  const ROWS: int := 4
  const COLS: int := 4
  /** The cell size: the 800-pixel window split into ROWS rows and COLS columns. */
  const RECT_HEIGHT: int := 200
  const RECT_WIDTH: int := 200
  const MOVE_VEL: int := 20

  /** Largest pixel coordinate a tile of the 4x4 grid can have. */
  const MAX_X: int := 600
  const MAX_Y: int := 600

  type Key = (int, int)

  predicate InGrid(k: Key) {
    0 <= k.0 < ROWS && 0 <= k.1 < COLS
  }

  /** Python's math.floor(a / b) for a positive divisor. */
  function FloorDiv(a: int, b: int): (q: int)
    requires b > 0
    ensures q * b <= a < q * b + b
  {
    a / b
  }

  /** Python's math.ceil(a / b) for a positive divisor. */
  function CeilDiv(a: int, b: int): (q: int)
    requires b > 0
    ensures q * b - b < a <= q * b
  {
    -((-a) / b)
  }

  datatype TileState = TileState(value: int, row: int, col: int, x: int, y: int)

  /** The fields a freshly constructed tile has: its pixel position is its cell's corner. */
  function Created(value: int, row: int, col: int): TileState {
    TileState(value, row, col, col * RECT_WIDTH, row * RECT_HEIGHT)
  }

  /** What `move` does to a tile: shift the pixel position, nothing else. */
  function Moved(t: TileState, delta: (int, int)): TileState {
    t.(x := t.x + delta.0, y := t.y + delta.1)
  }

  /** What `set_pos` does to a tile: recompute the cell from the pixel position. */
  function Repositioned(t: TileState, ceil: bool): TileState {
    if ceil then t.(row := CeilDiv(t.y, RECT_HEIGHT), col := CeilDiv(t.x, RECT_WIDTH))
    else t.(row := FloorDiv(t.y, RECT_HEIGHT), col := FloorDiv(t.x, RECT_WIDTH))
  }

  predicate IsPowerOfTwo(n: int)
    decreases n
  {
    n == 1 || (n >= 2 && n % 2 == 0 && IsPowerOfTwo(n / 2))
  }

  /**
   The shape every tile keeps during play: its pixel position lies on the
   MOVE_VEL lattice inside the board, and its cell is the floor or the ceiling
   of that position over the cell size (whichever rounding the last
   `set_pos` used).
   */
  predicate Placed(t: TileState) {
    && 0 <= t.x <= MAX_X && t.x % MOVE_VEL == 0
    && 0 <= t.y <= MAX_Y && t.y % MOVE_VEL == 0
    && (t.col == FloorDiv(t.x, RECT_WIDTH) || t.col == CeilDiv(t.x, RECT_WIDTH))
    && (t.row == FloorDiv(t.y, RECT_HEIGHT) || t.row == CeilDiv(t.y, RECT_HEIGHT))
  }

  /** A tile as the game keeps it: placed, and worth a power of two of at least 2. */
  predicate WellFormed(t: TileState) {
    Placed(t) && t.value >= 2 && IsPowerOfTwo(t.value)
  }

  lemma PlacedInGrid(t: TileState)
    requires Placed(t)
    ensures InGrid((t.row, t.col))
  {
    assert 0 <= FloorDiv(t.x, RECT_WIDTH) && CeilDiv(t.x, RECT_WIDTH) < COLS;
    assert 0 <= FloorDiv(t.y, RECT_HEIGHT) && CeilDiv(t.y, RECT_HEIGHT) < ROWS;
  }

  lemma CreatedIsPlaced(value: int, row: int, col: int)
    requires InGrid((row, col))
    ensures Placed(Created(value, row, col))
  {
  }

  lemma RepositionedIsPlaced(t: TileState, ceil: bool)
    requires Placed(t)
    ensures Placed(Repositioned(t, ceil))
  {
  }

  lemma DoubledIsPowerOfTwo(n: int)
    requires n >= 2 && IsPowerOfTwo(n)
    ensures 2 * n >= 2 && IsPowerOfTwo(2 * n)
  {
    assert (2 * n) / 2 == n;
  }

  class Tile {
    var value: int
    var row: int
    var col: int
    var x: int
    var y: int

    function State(): TileState
      reads this
    {
      TileState(value, row, col, x, y)
    }

    constructor (value: int, row: int, col: int)
      ensures State() == Created(value, row, col)
    {
      this.value := value;
      this.row := row;
      this.col := col;
      this.x := col * RECT_WIDTH;
      this.y := row * RECT_HEIGHT;
    }

    method Move(delta: (int, int))
      modifies this`x, this`y
      ensures State() == Moved(old(State()), delta)
    {
      x := x + delta.0;
      y := y + delta.1;
    }

    method SetPos(ceil: bool)
      modifies this`row, this`col
      ensures State() == Repositioned(old(State()), ceil)
    {
      if ceil {
        row := CeilDiv(y, RECT_HEIGHT);
        col := CeilDiv(x, RECT_WIDTH);
      } else {
        row := FloorDiv(y, RECT_HEIGHT);
        col := FloorDiv(x, RECT_WIDTH);
      }
    }
  }
}
