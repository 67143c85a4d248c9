/**
  Level setup: the state InitLevel builds from the catalogue, and the new-game
  entry point StartGameAtLevel, as functions on the World snapshot.
*/
module Setup {
  import opened Types
  import opened Levels
  import opened BrickGrid

  /** Brick (i, j) as InitLevel places it for `level`. */
  function InitialBrick(level: int, i: int, j: int): Brick
    requires ValidLevel(level) && 0 <= i < BRICK_ROWS && 0 <= j < BRICK_COLS
  {
    var y := (i * (BRICK_HEIGHT + 5) + 50) as real;
    Brick(Rectangle((j * (BRICK_WIDTH + 5) + 35) as real, y, BRICK_WIDTH as real, BRICK_HEIGHT as real),
          StartsActive(level, i, j), y)
  }

  /** The whole grid InitLevel builds for `level`. */
  function InitialGrid(level: int): (g: Grid)
    requires ValidLevel(level)
    ensures WellFormed(g)
    ensures forall i, j :: 0 <= i < BRICK_ROWS && 0 <= j < BRICK_COLS ==> g[i][j] == InitialBrick(level, i, j)
  {
    seq(BRICK_ROWS, i requires 0 <= i < BRICK_ROWS =>
      seq(BRICK_COLS, j requires 0 <= j < BRICK_COLS => InitialBrick(level, i, j)))
  }

  /** Both components of the starting ball speed grow by 1.5 per level. */
  function StartSpeed(level: int): real {
    6.0 + level as real * 1.5
  }

  /** The paddle InitLevel places: centred, 50 pixels above the bottom, 120 x 20. */
  const START_PADDLE: Rectangle :=
    Rectangle(((SCREEN_WIDTH - 120) / 2) as real, (SCREEN_HEIGHT - 50) as real, 120.0, 20.0)

  function StartBall(level: int): Ball {
    Ball(Vector2((SCREEN_WIDTH / 2) as real, (SCREEN_HEIGHT / 2) as real),
         Vector2(StartSpeed(level), -StartSpeed(level)),
         START_BALL_RADIUS, false, 0.0)
  }

  /** The state after InitLevel(level): grid, paddle, ball, power-up flags and immunity are reset. */
  function InitLevel(w: World, level: int): World
    requires ValidLevel(level)
  {
    w.(grid := InitialGrid(level),
       paddle := START_PADDLE,
       ball := StartBall(level),
       powerUp := w.powerUp.(active := false, spawned := level == 0),
       immunityTimer := if level >= 1 then 5.0 else 0.0)
  }

  /** The state after StartGameAtLevel(level): a fresh game at `level`, in mode Playing. */
  function StartGameAtLevel(w: World, level: int): World
    requires ValidLevel(level)
  {
    InitLevel(w.(score := 0, level := level, waveTimer := 0.0), level).(mode := Playing)
  }

  /** Where InitLevel puts each brick, and which bricks it activates. */
  lemma InitLevelBricks(w: World, level: int)
    requires ValidLevel(level)
    ensures var g := InitLevel(w, level).grid;
      WellFormed(g) &&
      forall i, j :: 0 <= i < BRICK_ROWS && 0 <= j < BRICK_COLS ==>
        && (g[i][j].active <==> CATALOGUE[level][i][j] == 1)
        && g[i][j].rect == Rectangle((75 * j + 35) as real, (30 * i + 50) as real, 70.0, 25.0)
        && g[i][j].originalY == g[i][j].rect.y
  {
  }

  lemma {:induction false} RowCountMatchesMap(row: seq<Brick>, m: seq<int>, n: nat)
    requires n <= |row| == |m|
    requires forall j :: 0 <= j < |row| ==> (row[j].active <==> m[j] == 1)
    ensures RowActive(row, n) == RowOnes(m, n)
  {
    if n > 0 {
      RowCountMatchesMap(row, m, n - 1);
    }
  }

  lemma {:induction false} RowsCountMatchesMap(g: Grid, m: seq<seq<int>>, n: nat)
    requires WellFormed(g) && |m| == BRICK_ROWS && n <= BRICK_ROWS
    requires forall i :: 0 <= i < BRICK_ROWS ==> |m[i]| == BRICK_COLS
    requires forall i, j :: 0 <= i < BRICK_ROWS && 0 <= j < BRICK_COLS ==> (g[i][j].active <==> m[i][j] == 1)
    ensures RowsActive(g, n) == MapOnes(m, n)
  {
    if n > 0 {
      RowsCountMatchesMap(g, m, n - 1);
      RowCountMatchesMap(g[n - 1], m[n - 1], |m[n - 1]|);
    }
  }

  /** InitLevel activates exactly the catalogue's bricks: 12, 32 and 60 of them. */
  lemma InitLevelActiveCount(w: World, level: int)
    requires ValidLevel(level)
    ensures ActiveCount(InitLevel(w, level).grid) == MapOnes(CATALOGUE[level], BRICK_ROWS)
    ensures ActiveCount(InitLevel(w, level).grid) == [12, 32, 60][level]
  {
    InitLevelBricks(w, level);
    RowsCountMatchesMap(InitLevel(w, level).grid, CATALOGUE[level], BRICK_ROWS);
    CatalogueCounts();
  }

  /** What InitLevel resets, and that it leaves score, level, wave timer and mode alone. */
  lemma InitLevelResets(w: World, level: int)
    requires ValidLevel(level)
    ensures var r := InitLevel(w, level);
      && r.ball.radius == START_BALL_RADIUS && !r.ball.isSuper && r.ball.superTimer == 0.0
      && r.ball.speed == Vector2(6.0 + 1.5 * level as real, -(6.0 + 1.5 * level as real))
      && r.ball.position == Vector2(400.0, 300.0)
      && r.paddle == Rectangle(340.0, 550.0, 120.0, 20.0)
      && !r.powerUp.active && (r.powerUp.spawned <==> level == 0) && r.powerUp.rect == w.powerUp.rect
      && r.immunityTimer == (if level >= 1 then 5.0 else 0.0)
      && r.score == w.score && r.level == w.level && r.waveTimer == w.waveTimer && r.mode == w.mode
  {
  }

  /** StartGameAtLevel resets the score and wave timer, selects the level and enters Playing. */
  lemma StartGameAtLevelSets(w: World, level: int)
    requires ValidLevel(level)
    ensures var r := StartGameAtLevel(w, level);
      && r.score == 0 && r.level == level && r.waveTimer == 0.0 && r.mode == Playing
      && r.(mode := w.mode, score := w.score, level := w.level, waveTimer := w.waveTimer) == InitLevel(w, level)
  {
  }

  /** A second StartGameAtLevel in the same frame wipes out every trace of the first. */
  lemma StartGameLastWins(w: World, first: int, second: int)
    requires ValidLevel(first) && ValidLevel(second)
    ensures StartGameAtLevel(StartGameAtLevel(w, first), second) == StartGameAtLevel(w, second)
  {
  }
}
