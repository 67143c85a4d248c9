/**
  The game's global state as one object: the 6 x 10 brick array, paddle, ball,
  power-up, mode, score, level and timers, updated in place. Each method is
  proved to leave the state the matching function on the World snapshot
  describes, so every property proved about those functions holds of the object.
*/
module Breakout {
  import opened Types
  import opened Levels
  import opened BrickGrid
  import Setup
  import BrickCollisions
  import Update

  class Game {
    const bricks: array2<Brick>
    var paddle: Rectangle
    var ball: Ball
    var powerUp: PowerUp
    var currentState: Mode
    var score: int
    var currentLevel: int
    var waveTimer: real
    var immunityTimer: real

    /** The contents of `bricks`, row by row. */
    ghost var grid: Grid

    ghost predicate Valid()
      reads this, bricks
    {
      && bricks.Length0 == BRICK_ROWS && bricks.Length1 == BRICK_COLS
      && WellFormed(grid)
      && forall i, j :: 0 <= i < BRICK_ROWS && 0 <= j < BRICK_COLS ==> bricks[i, j] == grid[i][j]
    }

    /** The whole state as a value. */
    ghost function Snapshot(): World
      reads this
    {
      World(currentState, score, currentLevel, waveTimer, immunityTimer, paddle, ball, powerUp, grid)
    }

    /** The globals as the program starts: zeroed, in the Menu. */
    constructor ()
      ensures Valid() && Snapshot() == StartupWorld()
    {
      var noRect := Rectangle(0.0, 0.0, 0.0, 0.0);
      var noBrick := Brick(noRect, false, 0.0);
      bricks := new Brick[BRICK_ROWS, BRICK_COLS]((i, j) => noBrick);
      grid := StartupWorld().grid;
      paddle := noRect;
      ball := Ball(Vector2(0.0, 0.0), Vector2(0.0, 0.0), 0.0, false, 0.0);
      powerUp := PowerUp(noRect, false, false);
      currentState := Menu;
      score := 0;
      currentLevel := 0;
      waveTimer := 0.0;
      immunityTimer := 0.0;
    }

    /** Writes brick (i, j), keeping `grid` in step with the array. */
    method SetBrick(i: nat, j: nat, b: Brick)
      requires Valid() && i < BRICK_ROWS && j < BRICK_COLS
      modifies bricks, this`grid
      ensures Valid() && grid == old(grid)[i := old(grid)[i][j := b]]
    {
      bricks[i, j] := b;
      grid := grid[i := grid[i][j := b]];
    }

    method InitLevel(levelIndex: int)
      requires Valid() && ValidLevel(levelIndex)
      modifies this, bricks
      ensures Valid() && Snapshot() == Setup.InitLevel(old(Snapshot()), levelIndex)
    {
      for i := 0 to BRICK_ROWS
        invariant Valid()
        invariant Snapshot() == old(Snapshot()).(grid := grid)
        invariant forall r, c :: 0 <= r < BRICK_ROWS && 0 <= c < BRICK_COLS ==>
          grid[r][c] == if r < i then Setup.InitialBrick(levelIndex, r, c) else old(grid)[r][c]
      {
        for j := 0 to BRICK_COLS
          invariant Valid()
          invariant Snapshot() == old(Snapshot()).(grid := grid)
          invariant forall r, c :: 0 <= r < BRICK_ROWS && 0 <= c < BRICK_COLS ==>
            grid[r][c] == if r < i || (r == i && c < j) then Setup.InitialBrick(levelIndex, r, c) else old(grid)[r][c]
        {
          var y := (i * (BRICK_HEIGHT + 5) + 50) as real;
          var x := (j * (BRICK_WIDTH + 5) + 35) as real;
          SetBrick(i, j, Brick(Rectangle(x, y, BRICK_WIDTH as real, BRICK_HEIGHT as real),
                               CATALOGUE[levelIndex][i][j] == 1, y));
        }
      }
      GridExt(grid, Setup.InitialGrid(levelIndex));
      paddle := Rectangle(((SCREEN_WIDTH - 120) / 2) as real, (SCREEN_HEIGHT - 50) as real, 120.0, 20.0);
      var baseSpeed := 6.0 + levelIndex as real * 1.5;
      ball := Ball(Vector2((SCREEN_WIDTH / 2) as real, (SCREEN_HEIGHT / 2) as real),
                   Vector2(baseSpeed, -baseSpeed), START_BALL_RADIUS, false, 0.0);
      powerUp := powerUp.(active := false, spawned := levelIndex == 0);
      immunityTimer := if levelIndex >= 1 then 5.0 else 0.0;
    }

    method StartGameAtLevel(level: int)
      requires Valid() && ValidLevel(level)
      modifies this, bricks
      ensures Valid() && Snapshot() == Setup.StartGameAtLevel(old(Snapshot()), level)
    {
      score := 0;
      currentLevel := level;
      waveTimer := 0.0;
      InitLevel(currentLevel);
      currentState := Playing;
    }

    /** Reports whether no brick is active; changes nothing. */
    method AllBricksCleared() returns (cleared: bool)
      requires Valid()
      ensures cleared <==> forall i, j :: 0 <= i < BRICK_ROWS && 0 <= j < BRICK_COLS ==> !bricks[i, j].active
      ensures cleared <==> Cleared(grid)
    {
      for i := 0 to BRICK_ROWS
        invariant forall r, c :: 0 <= r < i && 0 <= c < BRICK_COLS ==> !bricks[r, c].active
      {
        for j := 0 to BRICK_COLS
          invariant forall r, c :: 0 <= r <= i && 0 <= c < BRICK_COLS && (r < i || c < j) ==> !bricks[r, c].active
        {
          if bricks[i, j].active {
            return false;
          }
        }
      }
      return true;
    }

    method SpawnPowerUp(position: Vector2, draw: Draw)
      modifies this`powerUp
      ensures powerUp == BrickCollisions.SpawnPowerUp(old(powerUp), position, draw)
    {
      if !powerUp.spawned && !powerUp.active {
        if draw < 20 {
          powerUp := PowerUp(Rectangle(position.x + 25.0, position.y, 20.0, 20.0), true, true);
        }
      }
    }

    method CountDownTimers(dt: real)
      modifies this
      ensures Snapshot() == Update.CountDownTimers(old(Snapshot()), dt)
    {
      if immunityTimer > 0.0 {
        immunityTimer := immunityTimer - dt;
      }
      if ball.isSuper {
        ball := ball.(superTimer := ball.superTimer - dt);
        if ball.superTimer <= 0.0 {
          ball := ball.(isSuper := false);
        }
      }
    }

    method MovePaddle(input: Input)
      modifies this
      ensures Snapshot() == Update.MovePaddle(old(Snapshot()), input)
    {
      if input.keyLeft || input.keyA {
        paddle := paddle.(x := paddle.x - PADDLE_SPEED);
      }
      if input.keyRight || input.keyD {
        paddle := paddle.(x := paddle.x + PADDLE_SPEED);
      }
      if paddle.x < 0.0 {
        paddle := paddle.(x := 0.0);
      }
      if paddle.x > SCREEN_WIDTH as real - paddle.width {
        paddle := paddle.(x := SCREEN_WIDTH as real - paddle.width);
      }
    }

    method FallPowerUp(phys: Physics)
      modifies this
      ensures Snapshot() == Update.FallPowerUp(old(Snapshot()), phys)
    {
      if powerUp.active {
        powerUp := powerUp.(rect := powerUp.rect.(y := powerUp.rect.y + 4.0));
        if phys.recsOverlap(powerUp.rect, paddle) {
          powerUp := powerUp.(active := false);
          ball := ball.(isSuper := true, superTimer := 5.0);
        }
        if powerUp.rect.y > SCREEN_HEIGHT as real {
          powerUp := powerUp.(active := false);
        }
      }
    }

    /** Redraws brick (i, j) at its wave height if it is active. */
    method SwayBrick(i: nat, j: nat, phys: Physics)
      requires Valid() && i < BRICK_ROWS && j < BRICK_COLS
      modifies bricks, this`grid
      ensures Valid()
      ensures grid == old(grid)[i := old(grid)[i][j := Update.WaveBrick(old(grid)[i][j], waveTimer + j as real,
                                                                         Update.WaveHeight(currentLevel), phys.sine)]]
    {
      if bricks[i, j].active {
        var waveHeight := if currentLevel == 1 then 5.0 else 15.0;
        var b := bricks[i, j];
        SetBrick(i, j, b.(rect := b.rect.(y := b.originalY + phys.sine(waveTimer + j as real) * waveHeight)));
      } else {
        assert old(grid)[i][j := old(grid)[i][j]] == old(grid)[i];
        assert old(grid)[i := old(grid)[i]] == old(grid);
      }
    }

    /** Redraws row i of the wave. */
    method SwayRow(i: nat, phys: Physics)
      requires Valid() && i < BRICK_ROWS
      modifies bricks, this`grid
      ensures Valid()
      ensures grid == old(grid)[i := Update.WaveGrid(old(grid), waveTimer, Update.WaveHeight(currentLevel), phys.sine)[i]]
    {
      ghost var height := Update.WaveHeight(currentLevel);
      ghost var row := Update.WaveGrid(grid, waveTimer, height, phys.sine)[i];
      for j := 0 to BRICK_COLS
        invariant Valid()
        invariant forall r :: 0 <= r < BRICK_ROWS && r != i ==> grid[r] == old(grid)[r]
        invariant forall c :: 0 <= c < BRICK_COLS ==> grid[i][c] == if c < j then row[c] else old(grid)[i][c]
      {
        SwayBrick(i, j, phys);
      }
      assert grid[i] == row;
      assert grid == old(grid)[i := row];
    }

    method WaveBricks(phys: Physics)
      requires Valid()
      modifies this, bricks
      ensures Valid() && Snapshot() == Update.WaveBricks(old(Snapshot()), phys)
    {
      ghost var w0 := Snapshot();
      if currentLevel >= 1 {
        waveTimer := waveTimer + 0.08;
        ghost var waved := Update.WaveGrid(w0.grid, waveTimer, Update.WaveHeight(currentLevel), phys.sine);
        for i := 0 to BRICK_ROWS
          invariant Valid()
          invariant Snapshot() == w0.(waveTimer := w0.waveTimer + 0.08, grid := grid)
          invariant forall r :: 0 <= r < BRICK_ROWS ==> grid[r] == if r < i then waved[r] else w0.grid[r]
        {
          SwayRow(i, phys);
        }
        assert grid == waved;
      }
    }

    method MoveBall()
      modifies this
      ensures Snapshot() == Update.MoveBall(old(Snapshot()))
    {
      ball := ball.(position := Vector2(ball.position.x + ball.speed.x, ball.position.y + ball.speed.y));
      if ball.position.x >= SCREEN_WIDTH as real - ball.radius || ball.position.x <= ball.radius {
        ball := ball.(speed := ball.speed.(x := ball.speed.x * -1.0));
      }
      if ball.position.y <= ball.radius {
        ball := ball.(speed := ball.speed.(y := ball.speed.y * -1.0));
      }
    }

    method BottomEdge()
      modifies this
      ensures Snapshot() == Update.BottomEdge(old(Snapshot()))
    {
      if ball.position.y >= SCREEN_HEIGHT as real {
        if immunityTimer > 0.0 {
          ball := ball.(speed := ball.speed.(y := ball.speed.y * -1.0));
          ball := ball.(position := ball.position.(y := SCREEN_HEIGHT as real - ball.radius - 1.0));
        } else {
          currentState := GameOver;
        }
      }
    }

    method PaddleBounce(phys: Physics)
      modifies this
      ensures Snapshot() == Update.PaddleBounce(old(Snapshot()), phys)
    {
      if phys.circleOverlapsRec(ball.position, ball.radius, paddle) {
        ball := ball.(speed := ball.speed.(y := ball.speed.y * -1.0));
        ball := ball.(position := ball.position.(y := paddle.y - ball.radius - 1.0));
      }
    }

    /** The brick pass's work on brick (i, j). */
    method HitBrick(i: nat, j: nat, phys: Physics, roll: (int, int) -> Draw)
      requires Valid() && i < BRICK_ROWS && j < BRICK_COLS
      modifies this, bricks
      ensures Valid() && Snapshot() == BrickCollisions.HitBrick(old(Snapshot()), i, j, phys, roll)
    {
      if bricks[i, j].active {
        if phys.circleOverlapsRec(ball.position, ball.radius, bricks[i, j].rect) {
          SetBrick(i, j, bricks[i, j].(active := false));
          score := score + 100;
          if !ball.isSuper {
            ball := ball.(speed := ball.speed.(y := ball.speed.y * -1.0));
          }
          SpawnPowerUp(Vector2(bricks[i, j].rect.x, bricks[i, j].rect.y), roll(i, j));
          var shrinkAmount := 0.0;
          if currentLevel == 0 { shrinkAmount := 0.2; }
          if currentLevel == 1 { shrinkAmount := 1.0; }
          if currentLevel == 2 { shrinkAmount := 1.2; }
          if ball.radius > MIN_BALL_RADIUS {
            ball := ball.(radius := ball.radius - shrinkAmount);
          }
        }
      }
    }

    /** The pass over row i, which continues the pass begun in state `w0`. */
    method PassRow(ghost w0: World, i: nat, phys: Physics, roll: (int, int) -> Draw)
      requires Valid() && WellFormed(w0.grid) && i < BRICK_ROWS
      requires Snapshot() == BrickCollisions.PassUpTo(w0, i * BRICK_COLS, phys, roll)
      modifies this, bricks
      ensures Valid() && Snapshot() == BrickCollisions.PassUpTo(w0, i * BRICK_COLS + BRICK_COLS, phys, roll)
    {
      for j := 0 to BRICK_COLS
        invariant Valid()
        invariant Snapshot() == BrickCollisions.PassUpTo(w0, i * BRICK_COLS + j, phys, roll)
      {
        BrickCollisions.PassUpToCell(w0, i, j, phys, roll);
        HitBrick(i, j, phys, roll);
      }
    }

    /** One row-major sweep over the grid. */
    method BrickPass(phys: Physics, roll: (int, int) -> Draw)
      requires Valid()
      modifies this, bricks
      ensures Valid() && Snapshot() == BrickCollisions.Pass(old(Snapshot()), phys, roll)
    {
      ghost var w0 := Snapshot();
      for i := 0 to BRICK_ROWS
        invariant Valid()
        invariant Snapshot() == BrickCollisions.PassUpTo(w0, i * BRICK_COLS, phys, roll)
      {
        PassRow(w0, i, phys, roll);
      }
    }

    /** The phases of a Playing frame that come before the brick pass. */
    method BeforePass(input: Input, phys: Physics)
      requires Valid()
      modifies this, bricks
      ensures Valid() && Snapshot() == Update.BeforePass(old(Snapshot()), input, phys)
    {
      CountDownTimers(input.dt);
      MovePaddle(input);
      FallPowerUp(phys);
      WaveBricks(phys);
      MoveBall();
      BottomEdge();
      PaddleBounce(phys);
    }

    /** One Playing frame, phase by phase. */
    method PlayingStep(input: Input, phys: Physics)
      requires Valid()
      modifies this, bricks
      ensures Valid() && Snapshot() == Update.PlayingStep(old(Snapshot()), input, phys)
    {
      BeforePass(input, phys);
      BrickPass(phys, input.roll);
      var cleared := AllBricksCleared();
      if cleared {
        currentLevel := currentLevel + 1;
        if currentLevel >= MAX_LEVELS {
          currentState := AllComplete;
        } else {
          currentState := Victory;
        }
      }
    }

    /** The Menu frame: each of keys 1, 2, 3 and Enter, in that order, starts a game. */
    method MenuStep(input: Input)
      requires Valid()
      modifies this, bricks
      ensures Valid() && Snapshot() == Update.MenuStep(old(Snapshot()), input)
    {
      if input.keyOne { StartGameAtLevel(0); }
      if input.keyTwo { StartGameAtLevel(1); }
      if input.keyThree { StartGameAtLevel(2); }
      if input.keyEnter { StartGameAtLevel(0); }
    }

    /** One iteration of the state switch of the frame loop. */
    method Step(input: Input, phys: Physics)
      requires Valid() && Update.Inv(Snapshot())
      modifies this, bricks
      ensures Valid() && Update.Inv(Snapshot())
      ensures Snapshot() == Update.Step(old(Snapshot()), input, phys)
    {
      ghost var w0 := Snapshot();
      match currentState {
        case Menu =>
          MenuStep(input);
        case Playing =>
          PlayingStep(input, phys);
        case Victory =>
          if input.keyEnter {
            InitLevel(currentLevel);
            currentState := Playing;
          }
        case GameOver =>
          if input.keyEnter { currentState := Menu; }
        case AllComplete =>
          if input.keyEnter { currentState := Menu; }
      }
      Update.StepPreservesInv(w0, input, phys);
    }
  }
}
