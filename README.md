# 2048 board engine, modelled in Dafny

This project models the board engine of a pygame 2048 game (`main.py`). It
covers the `Tile` objects and their pixel and cell positions, the four swipe
policies, and the animation loop of `move_tiles`. That loop sorts the tiles,
scans them, moves or merges each one, and rebuilds the `tiles` dictionary
with `update_tiles`, repeating until a pass changes nothing. It also covers
the spawn of a new tile (`end_move`, `get_random_pos`), the opening board
(`generate_tiles`) and the two terminal tests (`game_over`, `check_victory`).

The model is layered:

- `Tiles` holds the geometry constants and the `Tile` class with
  `constructor`, `Move` and `SetPos`.
- `Policy` holds the per-direction sort key, delta, edge test, neighbour
  cell, merge and move gap tests, and rounding.
- `Sorting` is Python's stable `sorted` with a key and `reverse`.
- `OrderedDict` is an insertion-ordered dictionary keyed by `(row, col)`.
- `Engine` is the slide and merge loop as functions over tile identities.
  A heap maps each identity to its fields, so aliasing is explicit. The
  neighbour lookup reads the dictionary built at the end of the previous
  pass, while positions and values are read live.
- `ScanFacts`, `RebuildFacts` and `MoveLoop` hold what one pass and the
  whole loop (`Settle`) preserve.
- `Terminal` holds the terminal tests.
- `Play` holds the `Game` class. Its methods change the `Tile` objects and
  the dictionary in place. `VisitTile`, `ScanTiles`, `SortTiles`, `Pass`,
  `UpdateTiles`, `SlideTiles` and `MoveTiles` are proved equal to the
  functional model; `Generate`, `AddTile`, `Spawn`, `EndMove` and
  `GetRandomPos` have no functional counterpart and carry direct contracts.
- `Collision` and `Slide` record the finding below.

The string keys `f"{row}{col}"` are modelled as pairs. On the 4x4 grid the
string key is a one-to-one function of the pair. Randomness is modelled as
nondeterministic choice: any free cell, and value 2 or 4.

## Model

| member | source | states |
|---|---|---|
| Tiles.Tile.constructor | main.py:65-70 | a new tile has the given value and cell, and its pixel position is the cell's top-left corner (`col * RECT_WIDTH`, `row * RECT_HEIGHT`) |
| Tiles.Tile.Move | main.py:102-105 | only `x` and `y` change, each by its component of the delta |
| Tiles.Tile.SetPos | main.py:93-100 | only `row` and `col` change: to the ceiling of the position over the cell size when `ceil`, else to the floor |
| Tiles.RepositionedIsPlaced | main.py:93-100 | `set_pos` keeps a tile placed: its position stays on the MOVE_VEL lattice inside the board, and its cell is the floor or ceiling of the position over the cell size |
| Policy.NeighbourKey | main.py:162-205 | the looked-up cell is one step in the swipe direction, and it lies on the grid exactly when the tile is not on the edge `boundary_check` tests |
| Policy.MoveGapOpen | main.py:162-205 | whenever `move_check` passes, `merge_check` passes too |
| Policy.AdvanceKeepsPlaced | main.py:215-234 | one `move(delta)` plus `set_pos(ceil)` off the edge keeps the tile on the board with its value, and brings it exactly MOVE_VEL closer to the edge |
| Sorting.Sort | main.py:210 | the sorted list is a permutation of the input |
| Sorting.SortOrdered | main.py:210 | the sorted list is ascending by key, or descending when `reverse` |
| Sorting.SortStable | main.py:210 | the sort is stable: for every key, the tiles with that key keep their dictionary order |
| Sorting.SortOrderedIdentity | main.py:210 | sorting a list that is already in key order returns it unchanged |
| OrderedDict.Lookup | main.py:167-200 | `tiles.get(k)` is None exactly when the key is absent; otherwise it is the value stored under k |
| OrderedDict.PutLookup | main.py:307 | after `tiles[k] = v` the keys stay distinct, k maps to v, and no other entry appears |
| OrderedDict.PutKeys | main.py:307 | after `tiles[k] = v` the keys are the old keys plus k, and the length grows by one exactly when k was new |
| OrderedDict.PutLookupOther | main.py:307 | `tiles[k] = v` leaves every other key's lookup unchanged |
| OrderedDict.PutOrder | main.py:307 | `tiles[k] = v` keeps the dictionary's key order: an existing key keeps its place, and a new key is appended at the end |
| Engine.SortedTiles | main.py:210 | the scan list holds the board's tiles, with their multiplicity |
| Engine.Visit | main.py:212-235 | visiting a tile keeps the tile set, removes at most that tile from the list (and then blocks one more tile), sets `updated` exactly when the tile acts, and changes nothing when it does not act |
| ScanFacts.ScanShape | main.py:212-235 | every tile still listed after a pass was listed before, and none twice; tiles leaving the list match tiles added to `blocks`; `updated` never goes back to False |
| ScanFacts.ScanDistinct | main.py:212-235 | a pass over a list without repeats leaves only tiles that were listed before, and none twice |
| ScanFacts.ScanCount | main.py:212-235 | each pop (of the moving tile) is matched by one new tile in `blocks` (the tile merged into), `blocks` only grows, and `updated` never goes back to False |
| ScanFacts.BlockedStays | main.py:221 | a tile already in `blocks` is never the mover of a merge, so its visit pops nothing |
| ScanFacts.ScanBlockedStay | main.py:212-235 | a tile merged into stays listed for the rest of the pass: it is never the mover of a later merge |
| ScanFacts.VisitKeepsEdge | main.py:213-214 | a tile at the edge keeps its position and cell through any visit of the pass, its own (`continue`) or another tile's |
| ScanFacts.ScanKeepsEdge | main.py:212-235 | a tile at the edge keeps its position and cell through the whole pass |
| ScanFacts.ScanWell | main.py:212-235 | a pass keeps every tile on the board as a power of two of at least 2 |
| ScanFacts.ScanValues | main.py:226-230 | a pass doubles the value of exactly the tiles it adds to `blocks` and leaves all other values alone |
| ScanFacts.ScanTravel | main.py:212-235 | the listed tiles' summed distance to the edge never grows, and drops when the pass sets `updated`, so the `while updated` loop terminates |
| ScanFacts.ScanPoints | main.py:212-235 | a pass never raises the listed tiles' value sum, and keeps it when every tile merged into is still listed |
| ScanFacts.ScanIdle | main.py:207-235 | a pass starting with `updated = False` ends with `updated` exactly when some tile acts, and changes nothing when none does |
| RebuildFacts.RebuildEntries | main.py:303-307 | `update_tiles` files every tile under the cell its fields name, with distinct keys and no tile that was not listed |
| RebuildFacts.RebuildKeys | main.py:303-307 | a cell is a key of the rebuilt dictionary exactly when some listed tile names it |
| RebuildFacts.RebuildValues | main.py:303-307 | a list of distinct tiles rebuilds into a dictionary holding each tile at most once |
| RebuildFacts.RebuildExact | main.py:303-307 | when the listed tiles name distinct cells, the rebuilt dictionary holds them all, in list order |
| RebuildFacts.RebuildLoses | main.py:303-307 | when two listed tiles name the same cell, the rebuilt dictionary is shorter than the list |
| RebuildFacts.RebuildKeepsAll | main.py:303-307 | `update_tiles` keeps every listed tile exactly when no two of them name the same cell |
| RebuildFacts.RebuildSum | main.py:303-307 | rebuilding never raises the value sum, and keeps the list itself when it drops nothing |
| MoveLoop.StepSane | main.py:207-239 | a pass keeps the board sane: well-formed tiles, distinct keys, each tile once, each filed under its own cell |
| MoveLoop.StepIdle | main.py:207-239 | a pass reports no update exactly when no tile on the board acts; then board, fields and `blocks` are unchanged |
| MoveLoop.StepPoints | main.py:207-239 | a pass never raises the board's value sum, and keeps it when no tile is lost and every merge target is still on the board |
| MoveLoop.Settle | main.py:207-239 | the `while updated` loop ends on a sane board with the same tile identities in its heap, and never raises tiles plus merges |
| MoveLoop.SettleSettled | main.py:207-239 | when the loop ends, no tile on the board can still move or merge in the swipe direction |
| MoveLoop.SettleOrigin | main.py:207-239 | the loop only adds to `blocks`, and every tile left on the board was there at the start |
| MoveLoop.SettleValues | main.py:226-230 | over the whole swipe a tile's value is doubled exactly when it was merged into, and kept otherwise |
| MoveLoop.SettlePoints | main.py:207-239 | the swipe never raises the board's value sum, and keeps it when no tile is lost and every merge target is still on the board |
| MoveLoop.StepBusy | main.py:207-239 | a pass sets `updated` exactly when the board is not yet settled |
| MoveLoop.StepQuiet | main.py:207-239 | a pass over a settled board keeps every field, `blocks` and the dictionary's entries |
| MoveLoop.RebuiltSane | main.py:303-307 | rebuilding from distinct, well-formed tiles gives a sane board |
| Terminal.GameOverMeansFull | main.py:250-253 | on a sane board `len(tiles) == 16` holds exactly when every cell of the grid is taken |
| Terminal.FreeCellExists | main.py:147-154 | when the game is not over a free cell exists, so the retry loop of `get_random_pos` has something to find |
| Terminal.MaxValue | main.py:276-280 | `max` of a non-empty list is one of its elements and bounds all of them |
| Terminal.VictoryMeans | main.py:276-280 | `check_victory` holds exactly when some tile is 2048 and none is larger |
| Play.VictoryOnTiles | main.py:276-280 | `check_victory(tiles)` on the board's tile values holds exactly when some tile holds 2048 and no tile holds more |
| Play.GetRandomPos | main.py:147-154 | the chosen cell is on the grid and not a key of the dictionary |
| Play.Game.Generate | main.py:312-319 | the opening board holds two fresh tiles of value 2 on distinct cells, each placed at its cell's top-left corner, and is sane |
| Play.Game.AddTile | main.py:317 | filing a new tile under its own free cell appends it and keeps the board sane |
| Play.Game.Spawn | main.py:244-247 | one fresh tile of the given value is appended under a cell that was free, placed at its corner, and the board stays sane |
| Play.Game.EndMove | main.py:244-247 | one fresh tile of value 2 or 4 is appended at a cell that was free, placed at that cell's corner; the old entries are untouched and the board stays sane |
| Play.Game.UpdateTiles | main.py:303-307 | the dictionary becomes Rebuild of the sorted list over the tiles' current fields |
| Play.VisitTile | main.py:212-235 | the loop body on the objects does what Visit says to the list, `blocks`, `updated` and every tile's fields |
| Play.ScanTiles | main.py:212-235 | the `for` loop over `enumerate(sorted_tiles)`, with the skip after a pop, is one Scan |
| Play.Game.SortTiles | main.py:210 | the objects are sorted as SortedTiles sorts their fields |
| Play.Game.Pass | main.py:207-237 | one iteration of `while updated` is one Step on the objects and the dictionary |
| Play.Game.SlideTiles | main.py:207-239 | the `while updated` loop on the objects ends with the dictionary and every tile object's fields exactly as Settle computes them from the start |
| Play.Game.MoveTiles | main.py:157-241 | the dictionary becomes Settle's dictionary followed by one fresh tile of value 2 or 4 on a cell that was free, every old tile object's fields are where Settle puts them, and the board stays sane |
| Collision.SwipeLosesTile | main.py:207-239 | the left swipe of the row [_, 4, 2, 2] ends with value sum at most 6 instead of 8, and with fewer tiles plus merges than it started with |
| Slide.SlideRowKeepsSum | main.py:157-241 | the intended discrete slide keeps the line's value sum, and tiles after plus merges performed equal tiles before |
| Slide.SlideExample | main.py:157-241 | the intended slide turns [_, 4, 2, 2] into [4, 4, _, _] |

## Left out

- Drawing is not modelled: `draw`, `draw_grid`, `Tile.draw`, `get_color`, `try_again`, `you_win`, the fonts and colours. None of it changes the board.
- Sound (`MUSIC_SCORE.play()` in the merge branch) and the window and surface are not modelled.
- `clock.tick(FPS)` only paces the animation, so each pass runs without it.
- The `main` event loop is not modelled. Its gate (main.py:338-340: no swipe once `game_over` or `check_victory` holds) appears only in part, as the `!GameOver` precondition of `Play.Game.MoveTiles` and `Play.Game.EndMove`. The `not check_victory(tiles)` half is dropped, so those methods also accept a won board.
- Play.GetRandomPos: picks any free cell. The uniform distribution of `random.randrange` and the number of retries are not modelled.
- Play.Game.EndMove: the value is any of 2 and 4. The 50/50 choice of `random.choice` is not modelled.
- Play.Game.MoveTiles: requires the board not to be full. On a full board `end_move` would retry forever, and the game never calls it there.
- Terminal.MaxValue: requires a non-empty list, because `max([])` raises. A board in play always holds at least the two opening tiles.
- `game_over` and `check_victory` return `True` or `None` in Python; the model uses booleans.
- MoveLoop.SettlePoints: states only that the value sum never grows, and that it is kept when no tile is lost, because as written a tile can be lost (see Findings).
- MoveLoop.StepPoints: the same weaker sum statement, for the same reason.
- `CHECK_ENDGAME` (read at main.py:134 and main.py:140) only gates the end-of-game sounds, so it is not modelled.
- Python integers are unbounded, as Dafny's are, so there is no width to model.

## Findings

| source | as written | input that shows it | evidently intended | confidence | as-written member | corrected member |
|---|---|---|---|---|---|---|
| main.py:207-239 | a tile held back for one pass by the gap test lets the tile behind it catch up. Both later name the same cell (ceiling of 220/200 and of 400/200 is 2), and `update_tiles` files the second over the first, so a tile vanishes without a merge | swipe left on the row [_, 4, 2, 2] (4 at x=200, 2 at x=400, 2 at x=600) | the row becomes [4, 4, _, _] and the value sum stays 8 | high; derived by proof, not executed | Collision.SwipeLosesTile | Slide.SlideRowKeepsSum |

The game model (`Engine`, `MoveLoop`, `Play`) keeps the engine as written,
since it models `main.py`. `Slide.SlideRow` is the discrete reference for the
intended swipe of one line. `Collision.SwipeLosesTile` proves that the
as-written result falls short of `Slide.SlideRow`'s value sum on the input
above.
