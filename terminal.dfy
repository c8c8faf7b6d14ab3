/**
 The end-of-game tests: `game_over` (the board holds 16 tiles) and
 `check_victory` (the largest value on the board is 2048), and the free
 cell `get_random_pos` keeps drawing until it finds one.
 */
module Terminal {
  import opened Tiles
  import opened OrderedDict

  /** The 4 cells of one row of the board. */
  function GridRow(row: int): (r: set<Key>)
    ensures forall k :: k in r <==> k.0 == row && 0 <= k.1 < COLS
    ensures |r| == COLS
  {
    {(row, 0), (row, 1), (row, 2), (row, 3)}
  }

  /** The 16 cells of the board. */
  function Grid(): (r: set<Key>)
    ensures forall k :: k in r <==> InGrid(k)
    ensures |r| == ROWS * COLS
  {
    var top := GridRow(0) + GridRow(1);
    var bottom := GridRow(2) + GridRow(3);
    assert GridRow(0) * GridRow(1) == {} && |top| == 2 * COLS;
    assert GridRow(2) * GridRow(3) == {} && |bottom| == 2 * COLS;
    assert top * bottom == {};
    top + bottom
  }

  lemma {:induction false} SubsetSize<T>(a: set<T>, b: set<T>)
    requires a <= b
    ensures |a| <= |b|
    decreases |a|
  {
    if a != {} {
      var x :| x in a;
      SubsetSize(a - {x}, b - {x});
    }
  }

  function KeySet<V>(tiles: Dict<V>): set<Key> {
    set i | 0 <= i < |tiles| :: tiles[i].0
  }

  /** A dictionary has as many distinct keys as entries. */
  lemma {:induction false} KeySetSize<V>(tiles: Dict<V>)
    requires DistinctKeys(tiles)
    ensures |KeySet(tiles)| == |tiles|
  {
    if tiles != [] {
      var rest := tiles[1..];
      KeySetSize(rest);
      assert KeySet(tiles) == KeySet(rest) + {tiles[0].0} by {
        forall k | k in KeySet(tiles) ensures k in KeySet(rest) + {tiles[0].0} {
          var i :| 0 <= i < |tiles| && tiles[i].0 == k;
          if i > 0 {
            assert rest[i - 1] == tiles[i];
          }
        }
        forall k | k in KeySet(rest) ensures k in KeySet(tiles) {
          var i :| 0 <= i < |rest| && rest[i].0 == k;
          assert tiles[i + 1] == rest[i];
        }
      }
      assert tiles[0].0 !in KeySet(rest) by {
        forall i | 0 <= i < |rest| ensures rest[i].0 != tiles[0].0 {
          assert tiles[i + 1] == rest[i];
        }
      }
    }
  }

  predicate KeysInGrid<V>(tiles: Dict<V>) {
    forall i | 0 <= i < |tiles| :: InGrid(tiles[i].0)
  }

  /** `game_over`: the board holds 16 tiles. */
  predicate GameOver<V>(tiles: Dict<V>) {
    |tiles| == 16
  }

  /**
   On a board whose keys are distinct cells of the grid, `game_over` holds
   exactly when every cell is taken, and the board never holds more than 16
   tiles.
   */
  lemma GameOverMeansFull<V>(tiles: Dict<V>)
    requires DistinctKeys(tiles) && KeysInGrid(tiles)
    ensures |tiles| <= 16
    ensures GameOver(tiles) <==> forall k | InGrid(k) :: HasKey(tiles, k)
  {
    var keys := KeySet(tiles);
    var grid := Grid();
    KeySetSize(tiles);
    assert keys <= grid;
    SubsetSize(keys, grid);
    if forall k | InGrid(k) :: HasKey(tiles, k) {
      forall k | k in grid ensures k in keys {
        KeySetHas(tiles, k);
      }
      SubsetSize(grid, keys);
      assert GameOver(tiles);
    } else {
      var k :| InGrid(k) && !HasKey(tiles, k);
      KeySetHas(tiles, k);
      SubsetSize(keys, grid - {k});
      assert |grid - {k}| == |grid| - 1;
      assert !GameOver(tiles);
    }
  }

  lemma KeySetHas<V>(tiles: Dict<V>, k: Key)
    ensures k in KeySet(tiles) <==> HasKey(tiles, k)
  {
    if HasKey(tiles, k) {
      var i :| 0 <= i < |tiles| && tiles[i].0 == k;
    }
  }

  /** A board that is not over has a free cell for `get_random_pos` to find. */
  lemma FreeCellExists<V>(tiles: Dict<V>)
    requires DistinctKeys(tiles) && KeysInGrid(tiles) && !GameOver(tiles)
    ensures exists k :: InGrid(k) && !HasKey(tiles, k)
  {
    GameOverMeansFull(tiles);
  }

  /** `max(tiles_values)` */
  function MaxValue(values: seq<int>): (m: int)
    requires |values| > 0
    ensures m in values && forall v | v in values :: v <= m
  {
    if |values| == 1 then values[0]
    else
      var m := MaxValue(values[1..]);
      assert values == [values[0]] + values[1..];
      if values[0] >= m then values[0] else m
  }

  /** `check_victory`: the largest value on the board is 2048. */
  predicate CheckVictory(values: seq<int>)
    requires |values| > 0
  {
    MaxValue(values) == 2048
  }

  /** `check_victory` holds exactly when a 2048 tile is on the board and no tile is larger. */
  lemma VictoryMeans(values: seq<int>)
    requires |values| > 0
    ensures CheckVictory(values) <==> 2048 in values && forall v | v in values :: v <= 2048
  {
  }
}
