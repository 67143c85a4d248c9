/**
  The brick pass of a Playing frame: one row-major sweep over the grid in which
  every active brick the ball overlaps is switched off, scores 100, bounces a
  non-super ball, offers the level's power-up and shrinks the ball.
*/
module BrickCollisions {
  import opened Types
  import opened BrickGrid

  /** How much one brick hit shrinks the ball on each level. */
  function ShrinkAmount(level: int): real {
    if level == 0 then 0.2 else if level == 1 then 1.0 else if level == 2 then 1.2 else 0.0
  }

  /** The radius after one hit: reduced only while still above MIN_BALL_RADIUS. */
  function Shrink(radius: real, level: int): real {
    if radius > MIN_BALL_RADIUS then radius - ShrinkAmount(level) else radius
  }

  /** The radius after `hits` hits on `level`. */
  function ShrinkTimes(radius: real, level: int, hits: nat): real {
    if hits == 0 then radius else Shrink(ShrinkTimes(radius, level, hits - 1), level)
  }

  /**
    SpawnPowerUp: if no power-up was offered on this level and none is falling,
    a draw below 20 drops one 25 pixels right of `position`.
  */
  function SpawnPowerUp(p: PowerUp, position: Vector2, draw: Draw): PowerUp {
    if !p.spawned && !p.active && draw < 20 then
      PowerUp(Rectangle(position.x + 25.0, position.y, 20.0, 20.0), true, true)
    else
      p
  }

  /** Row and column of the k-th cell in row-major order. */
  function CellRow(k: nat): nat { k / BRICK_COLS }
  function CellCol(k: nat): nat { k % BRICK_COLS }

  /** What hitting brick (i, j) does: switch it off, score, bounce, offer a power-up, shrink. */
  function Hit(w: World, i: nat, j: nat, roll: (int, int) -> Draw): World
    requires WellFormed(w.grid) && i < BRICK_ROWS && j < BRICK_COLS
  {
    var b := w.grid[i][j];
    var speed := if w.ball.isSuper then w.ball.speed else w.ball.speed.(y := -w.ball.speed.y);
    w.(grid := w.grid[i := w.grid[i][j := b.(active := false)]],
       score := w.score + 100,
       ball := w.ball.(speed := speed, radius := Shrink(w.ball.radius, w.level)),
       powerUp := SpawnPowerUp(w.powerUp, Vector2(b.rect.x, b.rect.y), roll(i, j)))
  }

  /** The pass's work on brick (i, j): a hit if it is active and the ball overlaps it. */
  function HitBrick(w: World, i: nat, j: nat, phys: Physics, roll: (int, int) -> Draw): World
    requires WellFormed(w.grid) && i < BRICK_ROWS && j < BRICK_COLS
  {
    var b := w.grid[i][j];
    if b.active && phys.circleOverlapsRec(w.ball.position, w.ball.radius, b.rect) then Hit(w, i, j, roll) else w
  }

  /** The state after the pass has visited the first `k` cells. */
  function PassUpTo(w: World, k: nat, phys: Physics, roll: (int, int) -> Draw): (r: World)
    requires WellFormed(w.grid) && k <= CELLS
    ensures WellFormed(r.grid)
  {
    if k == 0 then w
    else HitBrick(PassUpTo(w, k - 1, phys, roll), CellRow(k - 1), CellCol(k - 1), phys, roll)
  }

  /** Cell (i, j) is the (i * BRICK_COLS + j)-th cell in row-major order. */
  lemma CellOf(i: nat, j: nat)
    requires i < BRICK_ROWS && j < BRICK_COLS
    ensures i * BRICK_COLS + j < CELLS
    ensures CellRow(i * BRICK_COLS + j) == i && CellCol(i * BRICK_COLS + j) == j
  {
  }

  /** Visiting cell (i, j) is the step from i * BRICK_COLS + j cells to one more. */
  lemma PassUpToCell(w: World, i: nat, j: nat, phys: Physics, roll: (int, int) -> Draw)
    requires WellFormed(w.grid) && i < BRICK_ROWS && j < BRICK_COLS
    ensures i * BRICK_COLS + j < CELLS
    ensures PassUpTo(w, i * BRICK_COLS + j + 1, phys, roll)
         == HitBrick(PassUpTo(w, i * BRICK_COLS + j, phys, roll), i, j, phys, roll)
  {
    CellOf(i, j);
  }

  /** The state after the whole pass. */
  function Pass(w: World, phys: Physics, roll: (int, int) -> Draw): World
    requires WellFormed(w.grid)
  {
    PassUpTo(w, CELLS, phys, roll)
  }

  // ---------------------------------------------------------------------------
  // Facts about one hit and about the radius.

  /** The offer is a no-op once spawned or while falling; otherwise it fires iff the draw is below 20. */
  lemma SpawnLatch(p: PowerUp, position: Vector2, draw: Draw)
    ensures p.spawned || p.active ==> SpawnPowerUp(p, position, draw) == p
    ensures !p.spawned && !p.active ==>
      (SpawnPowerUp(p, position, draw).spawned <==> draw < 20) &&
      (SpawnPowerUp(p, position, draw).active <==> draw < 20)
    ensures !p.spawned && !p.active && draw < 20 ==>
      SpawnPowerUp(p, position, draw).rect == Rectangle(position.x + 25.0, position.y, 20.0, 20.0)
  {
  }

  /** Hits never grow the ball; at or below MIN_BALL_RADIUS it no longer shrinks. */
  lemma {:induction false} ShrinkTimesBounds(radius: real, level: int, hits: nat)
    ensures ShrinkTimes(radius, level, hits) <= radius
    ensures radius <= MIN_BALL_RADIUS ==> ShrinkTimes(radius, level, hits) == radius
    ensures radius > MIN_BALL_RADIUS - ShrinkAmount(level) ==>
      ShrinkTimes(radius, level, hits) > MIN_BALL_RADIUS - ShrinkAmount(level)
  {
    if hits > 0 {
      ShrinkTimesBounds(radius, level, hits - 1);
    }
  }

  /** While the ball stays above MIN_BALL_RADIUS, each hit takes off exactly one shrink amount. */
  lemma {:induction false} ShrinkTimesLinear(radius: real, level: int, hits: nat)
    requires hits == 0 || radius - (hits - 1) as real * ShrinkAmount(level) > MIN_BALL_RADIUS
    ensures ShrinkTimes(radius, level, hits) == radius - hits as real * ShrinkAmount(level)
  {
    if hits > 0 {
      ShrinkTimesLinear(radius, level, hits - 1);
    }
  }

  /** On level 2 the ball goes 25.0, 23.8, ..., 5.8 and then stops at 4.6, below MIN_BALL_RADIUS. */
  lemma {:induction false} LevelTwoRadiusSettles(hits: nat)
    requires hits >= 17
    ensures ShrinkTimes(START_BALL_RADIUS, 2, hits) == 4.6
  {
    if hits == 17 {
      ShrinkTimesLinear(START_BALL_RADIUS, 2, 17);
    } else {
      LevelTwoRadiusSettles(hits - 1);
    }
  }

  // ---------------------------------------------------------------------------
  // Facts about the pass, by induction on the number of cells visited.

  /** One cell's work: either nothing, or exactly the effects of one hit on brick (i, j). */
  lemma HitBrickEffect(w: World, i: nat, j: nat, phys: Physics, roll: (int, int) -> Draw)
    requires WellFormed(w.grid) && i < BRICK_ROWS && j < BRICK_COLS
    ensures var r := HitBrick(w, i, j, phys, roll);
      var b := w.grid[i][j];
      var hit := b.active && phys.circleOverlapsRec(w.ball.position, w.ball.radius, b.rect);
      && (!hit ==> r == w)
      && (hit ==>
        && r.grid == w.grid[i := w.grid[i][j := b.(active := false)]]
        && ActiveCount(r.grid) + 1 == ActiveCount(w.grid)
        && r.score == w.score + 100
        && r.ball.speed == (if w.ball.isSuper then w.ball.speed else w.ball.speed.(y := -w.ball.speed.y))
        && r.ball.radius == Shrink(w.ball.radius, w.level)
        && r.ball.position == w.ball.position && r.ball.isSuper == w.ball.isSuper
        && r.powerUp == SpawnPowerUp(w.powerUp, Vector2(b.rect.x, b.rect.y), roll(i, j))
        && r == w.(grid := r.grid, score := r.score, ball := r.ball, powerUp := r.powerUp))
  {
    CountUpdate(w.grid, i, j, w.grid[i][j].(active := false));
  }

  /** The pass touches only grid, score, ball speed and radius, and the power-up. */
  lemma {:induction false} PassFrame(w: World, k: nat, phys: Physics, roll: (int, int) -> Draw)
    requires WellFormed(w.grid) && k <= CELLS
    ensures var r := PassUpTo(w, k, phys, roll);
      && r.mode == w.mode && r.level == w.level && r.waveTimer == w.waveTimer
      && r.immunityTimer == w.immunityTimer && r.paddle == w.paddle
      && r.ball.position == w.ball.position && r.ball.speed.x == w.ball.speed.x
      && r.ball.isSuper == w.ball.isSuper && r.ball.superTimer == w.ball.superTimer
      && OnlyDeactivated(w.grid, r.grid)
  {
    if k > 0 {
      PassFrame(w, k - 1, phys, roll);
    }
  }

  /** Each brick switched off is worth exactly 100 points. */
  lemma {:induction false} PassScore(w: World, k: nat, phys: Physics, roll: (int, int) -> Draw)
    requires WellFormed(w.grid) && k <= CELLS
    ensures var r := PassUpTo(w, k, phys, roll);
      && ActiveCount(r.grid) <= ActiveCount(w.grid)
      && r.score == w.score + 100 * (ActiveCount(w.grid) - ActiveCount(r.grid))
  {
    if k > 0 {
      PassScore(w, k - 1, phys, roll);
      var p := PassUpTo(w, k - 1, phys, roll);
      var i, j := CellRow(k - 1), CellCol(k - 1);
      CountUpdate(p.grid, i, j, p.grid[i][j].(active := false));
    }
  }

  /** One cell's effect on the speed: none, or one hit with one flip unless the ball is super. */
  lemma HitBrickSpeed(w: World, i: nat, j: nat, phys: Physics, roll: (int, int) -> Draw)
    requires WellFormed(w.grid) && i < BRICK_ROWS && j < BRICK_COLS
    ensures var r := HitBrick(w, i, j, phys, roll);
      && r.ball.isSuper == w.ball.isSuper
      && ((ActiveCount(r.grid) == ActiveCount(w.grid) && r.ball.speed == w.ball.speed) ||
          (ActiveCount(r.grid) + 1 == ActiveCount(w.grid) &&
           r.ball.speed == (if w.ball.isSuper then w.ball.speed else w.ball.speed.(y := -w.ball.speed.y))))
  {
    HitBrickEffect(w, i, j, phys, roll);
  }

  /** Flipping once more after one more hit keeps "flipped iff odd", and a super ball keeps its speed. */
  lemma SpeedStep(w: World, p: World, r: World)
    requires p.ball.isSuper == w.ball.isSuper
    requires w.ball.isSuper ==> p.ball.speed == w.ball.speed
    requires !w.ball.isSuper ==>
      p.ball.speed.y == if (ActiveCount(w.grid) - ActiveCount(p.grid)) % 2 == 0 then w.ball.speed.y else -w.ball.speed.y
    requires r.ball.isSuper == p.ball.isSuper
    requires (ActiveCount(r.grid) == ActiveCount(p.grid) && r.ball.speed == p.ball.speed) ||
             (ActiveCount(r.grid) + 1 == ActiveCount(p.grid) &&
              r.ball.speed == (if p.ball.isSuper then p.ball.speed else p.ball.speed.(y := -p.ball.speed.y)))
    ensures r.ball.isSuper == w.ball.isSuper
    ensures w.ball.isSuper ==> r.ball.speed == w.ball.speed
    ensures !w.ball.isSuper ==>
      r.ball.speed.y == if (ActiveCount(w.grid) - ActiveCount(r.grid)) % 2 == 0 then w.ball.speed.y else -w.ball.speed.y
  {
  }

  /** A non-super ball flips its vertical speed once per hit; a super ball keeps its speed. */
  lemma {:induction false} PassSpeed(w: World, k: nat, phys: Physics, roll: (int, int) -> Draw)
    requires WellFormed(w.grid) && k <= CELLS
    ensures var r := PassUpTo(w, k, phys, roll);
      var hits := ActiveCount(w.grid) - ActiveCount(r.grid);
      && r.ball.isSuper == w.ball.isSuper
      && (w.ball.isSuper ==> r.ball.speed == w.ball.speed)
      && (!w.ball.isSuper ==> r.ball.speed.y == if hits % 2 == 0 then w.ball.speed.y else -w.ball.speed.y)
  {
    if k > 0 {
      PassSpeed(w, k - 1, phys, roll);
      var p := PassUpTo(w, k - 1, phys, roll);
      var r := PassUpTo(w, k, phys, roll);
      HitBrickSpeed(p, CellRow(k - 1), CellCol(k - 1), phys, roll);
      SpeedStep(w, p, r);
    }
  }

  /** One cell's effect on the radius: none, or one hit and one shrink. */
  lemma HitBrickRadius(w: World, i: nat, j: nat, phys: Physics, roll: (int, int) -> Draw)
    requires WellFormed(w.grid) && i < BRICK_ROWS && j < BRICK_COLS
    ensures var r := HitBrick(w, i, j, phys, roll);
      && r.level == w.level
      && ((ActiveCount(r.grid) == ActiveCount(w.grid) && r.ball.radius == w.ball.radius) ||
          (ActiveCount(r.grid) + 1 == ActiveCount(w.grid) && r.ball.radius == Shrink(w.ball.radius, w.level)))
  {
    HitBrickEffect(w, i, j, phys, roll);
  }

  /** The radius after the pass is the start radius shrunk once per hit. */
  lemma {:induction false} PassRadius(w: World, k: nat, phys: Physics, roll: (int, int) -> Draw)
    requires WellFormed(w.grid) && k <= CELLS
    ensures var r := PassUpTo(w, k, phys, roll);
      && r.level == w.level
      && ActiveCount(r.grid) <= ActiveCount(w.grid)
      && r.ball.radius == ShrinkTimes(w.ball.radius, w.level, ActiveCount(w.grid) - ActiveCount(r.grid))
  {
    if k > 0 {
      PassRadius(w, k - 1, phys, roll);
      var p := PassUpTo(w, k - 1, phys, roll);
      var r := PassUpTo(w, k, phys, roll);
      HitBrickRadius(p, CellRow(k - 1), CellCol(k - 1), phys, roll);
      var before: nat := ActiveCount(w.grid) - ActiveCount(p.grid);
      if ActiveCount(r.grid) != ActiveCount(p.grid) {
        assert ShrinkTimes(w.ball.radius, w.level, before + 1) == Shrink(p.ball.radius, w.level);
      }
    }
  }

  lemma CellBounds(c: nat)
    requires c < CELLS
    ensures CellRow(c) < BRICK_ROWS && CellCol(c) < BRICK_COLS
  {
  }

  /** Distinct cell numbers name distinct bricks. */
  lemma CellsDistinct(c: nat, d: nat)
    requires c < CELLS && d < CELLS && c != d
    ensures CellRow(c) != CellRow(d) || CellCol(c) != CellCol(d)
  {
  }

  /** The brick a visit is about ends switched off exactly when it was on and the ball overlapped it. */
  lemma HitBrickCell(w: World, i: nat, j: nat, phys: Physics, roll: (int, int) -> Draw)
    requires WellFormed(w.grid) && i < BRICK_ROWS && j < BRICK_COLS
    ensures var b := w.grid[i][j];
      HitBrick(w, i, j, phys, roll).grid[i][j] ==
        if b.active && phys.circleOverlapsRec(w.ball.position, w.ball.radius, b.rect) then b.(active := false) else b
  {
  }

  /** The pass never moves the ball. */
  lemma {:induction false} PassKeepsPosition(w: World, k: nat, phys: Physics, roll: (int, int) -> Draw)
    requires WellFormed(w.grid) && k <= CELLS
    ensures PassUpTo(w, k, phys, roll).ball.position == w.ball.position
  {
    if k > 0 {
      PassKeepsPosition(w, k - 1, phys, roll);
    }
  }

  /** Visiting one cell leaves every other brick as it was. */
  lemma HitBrickOtherCells(w: World, i: nat, j: nat, phys: Physics, roll: (int, int) -> Draw, r: nat, c: nat)
    requires WellFormed(w.grid) && i < BRICK_ROWS && j < BRICK_COLS && r < BRICK_ROWS && c < BRICK_COLS
    requires r != i || c != j
    ensures HitBrick(w, i, j, phys, roll).grid[r][c] == w.grid[r][c]
  {
  }

  /** A cell the pass has not reached yet is untouched. */
  lemma {:induction false} PassNotYetReached(w: World, k: nat, phys: Physics, roll: (int, int) -> Draw, c: nat)
    requires WellFormed(w.grid) && k <= c < CELLS
    ensures CellRow(c) < BRICK_ROWS && CellCol(c) < BRICK_COLS
    ensures PassUpTo(w, k, phys, roll).grid[CellRow(c)][CellCol(c)] == w.grid[CellRow(c)][CellCol(c)]
  {
    CellBounds(c);
    if k > 0 {
      PassNotYetReached(w, k - 1, phys, roll, c);
      CellsDistinct(k - 1, c);
      HitBrickOtherCells(PassUpTo(w, k - 1, phys, roll), CellRow(k - 1), CellCol(k - 1), phys, roll,
                         CellRow(c), CellCol(c));
    }
  }

  /** Once visited, a cell keeps its value for the rest of the pass. */
  lemma {:induction false} PassKeepsVisited(w: World, k: nat, m: nat, phys: Physics, roll: (int, int) -> Draw, c: nat)
    requires WellFormed(w.grid) && c < k <= m <= CELLS
    ensures CellRow(c) < BRICK_ROWS && CellCol(c) < BRICK_COLS
    ensures PassUpTo(w, m, phys, roll).grid[CellRow(c)][CellCol(c)]
         == PassUpTo(w, k, phys, roll).grid[CellRow(c)][CellCol(c)]
  {
    CellBounds(c);
    if m > k {
      PassKeepsVisited(w, k, m - 1, phys, roll, c);
      CellsDistinct(m - 1, c);
      HitBrickOtherCells(PassUpTo(w, m - 1, phys, roll), CellRow(m - 1), CellCol(m - 1), phys, roll,
                         CellRow(c), CellCol(c));
    }
  }

  /** Right after the pass visits brick (i, j), the brick is settled. */
  lemma PassVisit(w: World, phys: Physics, roll: (int, int) -> Draw, i: nat, j: nat)
    requires WellFormed(w.grid) && i < BRICK_ROWS && j < BRICK_COLS
    ensures i * BRICK_COLS + j < CELLS
    ensures var b := w.grid[i][j];
      var radius := PassUpTo(w, i * BRICK_COLS + j, phys, roll).ball.radius;
      PassUpTo(w, i * BRICK_COLS + j + 1, phys, roll).grid[i][j] ==
        if b.active && phys.circleOverlapsRec(w.ball.position, radius, b.rect) then b.(active := false) else b
  {
    var c := i * BRICK_COLS + j;
    CellOf(i, j);
    var p := PassUpTo(w, c, phys, roll);
    PassNotYetReached(w, c, phys, roll, c);
    PassKeepsPosition(w, c, phys, roll);
    PassUpToCell(w, i, j, phys, roll);
    HitBrickCell(p, i, j, phys, roll);
  }

  /**
    After the pass, brick (i, j) is off exactly when it was on and the ball,
    with the radius it had when the pass reached (i, j), overlapped it; nothing
    else about any brick changes, so no brick is ever switched back on.
  */
  lemma PassOutcome(w: World, phys: Physics, roll: (int, int) -> Draw, i: nat, j: nat)
    requires WellFormed(w.grid) && i < BRICK_ROWS && j < BRICK_COLS
    ensures var b := w.grid[i][j];
      var radius := PassUpTo(w, i * BRICK_COLS + j, phys, roll).ball.radius;
      Pass(w, phys, roll).grid[i][j] ==
        if b.active && phys.circleOverlapsRec(w.ball.position, radius, b.rect) then b.(active := false) else b
  {
    CellOf(i, j);
    PassVisit(w, phys, roll, i, j);
    PassKeepsVisited(w, i * BRICK_COLS + j + 1, CELLS, phys, roll, i * BRICK_COLS + j);
  }

  /** At most one power-up per pass, none once the level's offer was made or one is falling. */
  lemma {:induction false} PassPowerUp(w: World, k: nat, phys: Physics, roll: (int, int) -> Draw)
    requires WellFormed(w.grid) && k <= CELLS
    ensures var r := PassUpTo(w, k, phys, roll);
      && (w.powerUp.spawned || w.powerUp.active ==> r.powerUp == w.powerUp)
      && (r.powerUp == w.powerUp ||
          (!w.powerUp.spawned && !w.powerUp.active && r.powerUp.spawned && r.powerUp.active))
  {
    if k > 0 {
      PassPowerUp(w, k - 1, phys, roll);
    }
  }
}
