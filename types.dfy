/**
  The data of the brick-breaker: screen and grid constants, the records the game
  keeps (brick, ball, power-up, paddle rectangle), the screen mode, and a value
  snapshot of the whole game state (World) on which the per-frame rules are stated.
  The C program keeps floats; this model keeps them as exact reals.
*/
module Types {

  const SCREEN_WIDTH: int := 800
  const SCREEN_HEIGHT: int := 600
  const BRICK_ROWS: nat := 6
  const BRICK_COLS: nat := 10
  const BRICK_WIDTH: int := 70
  const BRICK_HEIGHT: int := 25
  const MAX_LEVELS: int := 3

  const START_BALL_RADIUS: real := 25.0
  const MIN_BALL_RADIUS: real := 5.0
  const PADDLE_SPEED: real := 14.0

  /** Number of cells of the brick grid; cells are visited in row-major order. */
  const CELLS: nat := BRICK_ROWS * BRICK_COLS

  datatype Vector2 = Vector2(x: real, y: real)

  /** Magnitude of a real; every change the game makes to a speed component is a sign flip. */
  function Abs(x: real): real {
    if x < 0.0 then -x else x
  }

  datatype Rectangle = Rectangle(x: real, y: real, width: real, height: real)

  /** A brick; `originalY` is its resting height, `rect.y` the displaced one. */
  datatype Brick = Brick(rect: Rectangle, active: bool, originalY: real)

  datatype Ball = Ball(position: Vector2, speed: Vector2, radius: real, isSuper: bool, superTimer: real)

  /** `spawned` is the once-per-level latch, `active` says the item is falling. */
  datatype PowerUp = PowerUp(rect: Rectangle, active: bool, spawned: bool)

  datatype Mode = Menu | Playing | Victory | GameOver | AllComplete

  type Grid = seq<seq<Brick>>

  /** A grid has the fixed 6 x 10 shape. */
  predicate WellFormed(g: Grid) {
    |g| == BRICK_ROWS && forall i :: 0 <= i < |g| ==> |g[i]| == BRICK_COLS
  }

  /** Every global variable the frame update reads or writes, as one value. */
  datatype World = World(
    mode: Mode,
    score: int,
    level: int,
    waveTimer: real,
    immunityTimer: real,
    paddle: Rectangle,
    ball: Ball,
    powerUp: PowerUp,
    grid: Grid)

  /** A value of raylib's GetRandomValue(0, 100). */
  type Draw = x: int | 0 <= x <= 100

  /**
    What one frame reads from the keyboard and the clock. Keys 1, 2, 3 and Enter
    are "pressed this frame", the arrows and A/D are "held". `roll(i, j)` is the
    random draw made when the hit on brick (i, j) offers a power-up in this frame.
  */
  datatype Input = Input(
    keyOne: bool, keyTwo: bool, keyThree: bool, keyEnter: bool,
    keyLeft: bool, keyA: bool, keyRight: bool, keyD: bool,
    dt: real,
    roll: (int, int) -> Draw)

  /**
    The raylib routines the update calls and whose code is not part of this
    model: the rectangle-overlap test, the circle-rectangle overlap test, and sinf.
  */
  datatype Physics = Physics(
    recsOverlap: (Rectangle, Rectangle) -> bool,
    circleOverlapsRec: (Vector2, real, Rectangle) -> bool,
    sine: real -> real)

  /** The zero-initialised C globals before the first frame. */
  function StartupWorld(): (w: World)
    ensures w.mode == Menu && w.score == 0 && w.level == 0 && WellFormed(w.grid)
  {
    var noRect := Rectangle(0.0, 0.0, 0.0, 0.0);
    var noBrick := Brick(noRect, false, 0.0);
    World(Menu, 0, 0, 0.0, 0.0, noRect,
          Ball(Vector2(0.0, 0.0), Vector2(0.0, 0.0), 0.0, false, 0.0),
          PowerUp(noRect, false, false),
          seq(BRICK_ROWS, _ => seq(BRICK_COLS, _ => noBrick)))
  }
}
