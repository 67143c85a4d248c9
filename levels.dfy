/**
  The level catalogue: three fixed 6 x 10 maps, 1 where a brick starts active.
*/
module Levels {
  import opened Types

  const CATALOGUE: seq<seq<seq<int>>> := [
    [ [0,0,0,0,0,0,0,0,0,0], [0,0,1,1,1,1,1,1,0,0], [0,0,1,1,1,1,1,1,0,0],
      [0,0,0,0,0,0,0,0,0,0], [0,0,0,0,0,0,0,0,0,0], [0,0,0,0,0,0,0,0,0,0] ],
    [ [1,0,1,0,1,1,0,1,0,1], [1,0,1,0,1,1,0,1,0,1], [1,1,1,1,1,1,1,1,1,1],
      [1,1,1,1,1,1,1,1,1,1], [0,0,0,0,0,0,0,0,0,0], [0,0,0,0,0,0,0,0,0,0] ],
    [ [1,1,1,1,1,1,1,1,1,1], [1,1,1,1,1,1,1,1,1,1], [1,1,1,1,1,1,1,1,1,1],
      [1,1,1,1,1,1,1,1,1,1], [1,1,1,1,1,1,1,1,1,1], [1,1,1,1,1,1,1,1,1,1] ]
  ]

  /** A level index the catalogue has an entry for. */
  predicate ValidLevel(level: int) {
    0 <= level < MAX_LEVELS
  }

  /** Whether brick (i, j) of `level` starts active. */
  predicate StartsActive(level: int, i: int, j: int)
    requires ValidLevel(level) && 0 <= i < BRICK_ROWS && 0 <= j < BRICK_COLS
  {
    CATALOGUE[level][i][j] == 1
  }

  /** Number of entries equal to 1 among the first `n` of a row. */
  function RowOnes(row: seq<int>, n: nat): nat
    requires n <= |row|
  {
    if n == 0 then 0 else RowOnes(row, n - 1) + (if row[n - 1] == 1 then 1 else 0)
  }

  /** Number of entries equal to 1 in the first `n` rows of a map. */
  function MapOnes(rows: seq<seq<int>>, n: nat): nat
    requires n <= |rows|
  {
    if n == 0 then 0 else MapOnes(rows, n - 1) + RowOnes(rows[n - 1], |rows[n - 1]|)
  }

  /** `MapOnes` of a six-row map is the sum of its six row counts. */
  lemma MapOnesUnrolled(rows: seq<seq<int>>)
    requires |rows| == BRICK_ROWS
    ensures MapOnes(rows, BRICK_ROWS)
         == RowOnes(rows[0], |rows[0]|) + RowOnes(rows[1], |rows[1]|) + RowOnes(rows[2], |rows[2]|)
          + RowOnes(rows[3], |rows[3]|) + RowOnes(rows[4], |rows[4]|) + RowOnes(rows[5], |rows[5]|)
  {
    assert MapOnes(rows, 1) == RowOnes(rows[0], |rows[0]|);
    assert MapOnes(rows, 2) == MapOnes(rows, 1) + RowOnes(rows[1], |rows[1]|);
    assert MapOnes(rows, 3) == MapOnes(rows, 2) + RowOnes(rows[2], |rows[2]|);
    assert MapOnes(rows, 4) == MapOnes(rows, 3) + RowOnes(rows[3], |rows[3]|);
    assert MapOnes(rows, 5) == MapOnes(rows, 4) + RowOnes(rows[4], |rows[4]|);
  }

  /** The four kinds of row the catalogue is built from, and how many bricks each holds. */
  const EMPTY_ROW: seq<int> := [0,0,0,0,0,0,0,0,0,0]
  const FULL_ROW: seq<int> := [1,1,1,1,1,1,1,1,1,1]
  const MIDDLE_ROW: seq<int> := [0,0,1,1,1,1,1,1,0,0]
  const GAPPED_ROW: seq<int> := [1,0,1,0,1,1,0,1,0,1]

  lemma RowKinds()
    ensures RowOnes(EMPTY_ROW, |EMPTY_ROW|) == 0 && RowOnes(FULL_ROW, |FULL_ROW|) == 10
    ensures RowOnes(MIDDLE_ROW, |MIDDLE_ROW|) == 6 && RowOnes(GAPPED_ROW, |GAPPED_ROW|) == 6
  {
  }

  lemma LevelZeroOnes()
    ensures MapOnes(CATALOGUE[0], BRICK_ROWS) == 12
  {
    RowKinds();
    assert CATALOGUE[0] == [EMPTY_ROW, MIDDLE_ROW, MIDDLE_ROW, EMPTY_ROW, EMPTY_ROW, EMPTY_ROW];
    MapOnesUnrolled(CATALOGUE[0]);
  }

  lemma LevelOneOnes()
    ensures MapOnes(CATALOGUE[1], BRICK_ROWS) == 32
  {
    RowKinds();
    assert CATALOGUE[1] == [GAPPED_ROW, GAPPED_ROW, FULL_ROW, FULL_ROW, EMPTY_ROW, EMPTY_ROW];
    MapOnesUnrolled(CATALOGUE[1]);
  }

  lemma LevelTwoOnes()
    ensures MapOnes(CATALOGUE[2], BRICK_ROWS) == 60
  {
    RowKinds();
    assert CATALOGUE[2] == [FULL_ROW, FULL_ROW, FULL_ROW, FULL_ROW, FULL_ROW, FULL_ROW];
    MapOnesUnrolled(CATALOGUE[2]);
  }

  /** The number of bricks each level starts with. */
  lemma CatalogueCounts()
    ensures MapOnes(CATALOGUE[0], BRICK_ROWS) == 12
    ensures MapOnes(CATALOGUE[1], BRICK_ROWS) == 32
    ensures MapOnes(CATALOGUE[2], BRICK_ROWS) == 60
  {
    LevelZeroOnes();
    LevelOneOnes();
    LevelTwoOnes();
  }
}
