/**
  One iteration of the frame loop's state switch, as functions on the World
  snapshot: the Menu key handling, the ordered Playing step, and the Enter-gated
  screens; with the invariant every reachable state keeps and the properties
  the game promises about a frame.
*/
module Update {
  import opened Types
  import opened Levels
  import opened BrickGrid
  import opened Setup
  import opened BrickCollisions

  // ---------------------------------------------------------------------------
  // The phases of a Playing frame, in the order the frame runs them.

  /** Immunity counts down while positive; the super ball counts down and ends at or below zero. */
  function CountDownTimers(w: World, dt: real): World {
    var immunity := if w.immunityTimer > 0.0 then w.immunityTimer - dt else w.immunityTimer;
    var ball :=
      if w.ball.isSuper then
        var t := w.ball.superTimer - dt;
        w.ball.(superTimer := t, isSuper := !(t <= 0.0))
      else w.ball;
    w.(immunityTimer := immunity, ball := ball)
  }

  /** The paddle moves 14 pixels per held direction, then is clamped to the screen. */
  function MovePaddle(w: World, input: Input): World {
    var x0 := w.paddle.x;
    var x1 := if input.keyLeft || input.keyA then x0 - PADDLE_SPEED else x0;
    var x2 := if input.keyRight || input.keyD then x1 + PADDLE_SPEED else x1;
    var x3 := if x2 < 0.0 then 0.0 else x2;
    var x4 := if x3 > SCREEN_WIDTH as real - w.paddle.width then SCREEN_WIDTH as real - w.paddle.width else x3;
    w.(paddle := w.paddle.(x := x4))
  }

  /** A falling power-up drops 4 pixels; the paddle catches it (super ball for 5 s) or it falls off. */
  function FallPowerUp(w: World, phys: Physics): World {
    if w.powerUp.active then
      var moved := w.powerUp.(rect := w.powerUp.rect.(y := w.powerUp.rect.y + 4.0));
      var caught := phys.recsOverlap(moved.rect, w.paddle);
      var kept := if caught then moved.(active := false) else moved;
      var ball := if caught then w.ball.(isSuper := true, superTimer := 5.0) else w.ball;
      w.(powerUp := if kept.rect.y > SCREEN_HEIGHT as real then kept.(active := false) else kept,
         ball := ball)
    else
      w
  }

  function WaveHeight(level: int): real {
    if level == 1 then 5.0 else 15.0
  }

  /** An active brick is redrawn at its resting height plus the wave; an inactive one stays. */
  function WaveBrick(b: Brick, phase: real, height: real, sine: real -> real): Brick {
    if b.active then b.(rect := b.rect.(y := b.originalY + sine(phase) * height)) else b
  }

  /** The wave applied to every brick; column j is `j` radians ahead. */
  function WaveGrid(g: Grid, t: real, height: real, sine: real -> real): Grid {
    seq(|g|, i requires 0 <= i < |g| =>
      seq(|g[i]|, j requires 0 <= j < |g[i]| => WaveBrick(g[i][j], t + j as real, height, sine)))
  }

  /** From level 1 on the wave timer advances 0.08 per frame and the bricks sway. */
  function WaveBricks(w: World, phys: Physics): World {
    if w.level >= 1 then
      var t := w.waveTimer + 0.08;
      w.(waveTimer := t, grid := WaveGrid(w.grid, t, WaveHeight(w.level), phys.sine))
    else
      w
  }

  /** The ball moves by its speed and reflects off the side walls and the top. */
  function MoveBall(w: World): World {
    var p := Vector2(w.ball.position.x + w.ball.speed.x, w.ball.position.y + w.ball.speed.y);
    var r := w.ball.radius;
    var vx := if p.x >= SCREEN_WIDTH as real - r || p.x <= r then -w.ball.speed.x else w.ball.speed.x;
    var vy := if p.y <= r then -w.ball.speed.y else w.ball.speed.y;
    w.(ball := w.ball.(position := p, speed := Vector2(vx, vy)))
  }

  /** At the bottom edge the ball bounces while immune; otherwise the game is over. */
  function BottomEdge(w: World): World {
    if w.ball.position.y >= SCREEN_HEIGHT as real then
      if w.immunityTimer > 0.0 then
        w.(ball := w.ball.(speed := w.ball.speed.(y := -w.ball.speed.y),
                           position := w.ball.position.(y := SCREEN_HEIGHT as real - w.ball.radius - 1.0)))
      else
        w.(mode := GameOver)
    else
      w
  }

  /** A ball touching the paddle reflects and is put just above it. */
  function PaddleBounce(w: World, phys: Physics): World {
    if phys.circleOverlapsRec(w.ball.position, w.ball.radius, w.paddle) then
      w.(ball := w.ball.(speed := w.ball.speed.(y := -w.ball.speed.y),
                         position := w.ball.position.(y := w.paddle.y - w.ball.radius - 1.0)))
    else
      w
  }

  /** With no brick left the level counter advances: Victory, or AllComplete after the last level. */
  function ClearCheck(w: World): World {
    if Cleared(w.grid) then
      var next := w.level + 1;
      w.(level := next, mode := if next >= MAX_LEVELS then AllComplete else Victory)
    else
      w
  }

  /** The states a Playing frame goes through before its brick pass. */
  function BeforePass(w: World, input: Input, phys: Physics): World {
    PaddleBounce(BottomEdge(MoveBall(WaveBricks(FallPowerUp(MovePaddle(CountDownTimers(w, input.dt), input), phys), phys))), phys)
  }

  /** One Playing frame. */
  function PlayingStep(w: World, input: Input, phys: Physics): World
    requires WellFormed(w.grid)
  {
    ClearCheck(Pass(BeforePass(w, input, phys), phys, input.roll))
  }

  /** The Menu frame: keys 1, 2, 3 and Enter are checked in that order, each starting a game. */
  function MenuStep(w: World, input: Input): World {
    var w1 := if input.keyOne then StartGameAtLevel(w, 0) else w;
    var w2 := if input.keyTwo then StartGameAtLevel(w1, 1) else w1;
    var w3 := if input.keyThree then StartGameAtLevel(w2, 2) else w2;
    if input.keyEnter then StartGameAtLevel(w3, 0) else w3
  }

  /** What every reachable state satisfies. */
  predicate Inv(w: World) {
    && WellFormed(w.grid)
    && 0 <= w.level <= MAX_LEVELS
    && (w.mode == Playing ==>
          && ValidLevel(w.level)
          && w.paddle.width == 120.0
          && MIN_BALL_RADIUS - ShrinkAmount(w.level) < w.ball.radius <= START_BALL_RADIUS
          && Abs(w.ball.speed.x) == StartSpeed(w.level) && Abs(w.ball.speed.y) == StartSpeed(w.level))
    && (w.ball.isSuper ==> w.ball.superTimer > 0.0)
    && (w.mode == Victory ==> 1 <= w.level < MAX_LEVELS)
    && (w.mode == AllComplete ==> w.level == MAX_LEVELS)
  }

  /** One iteration of the state switch. */
  function Step(w: World, input: Input, phys: Physics): World
    requires Inv(w)
  {
    match w.mode
    case Menu => MenuStep(w, input)
    case Playing => PlayingStep(w, input, phys)
    case Victory => if input.keyEnter then InitLevel(w, w.level).(mode := Playing) else w
    case GameOver => if input.keyEnter then w.(mode := Menu) else w
    case AllComplete => if input.keyEnter then w.(mode := Menu) else w
  }

  // ---------------------------------------------------------------------------
  // Facts about the phases.

  /**
    Immunity drops by dt only while positive; the super ball is never switched
    on here, and a ball still super afterwards has time left on its timer.
  */
  lemma CountDownTimersRule(w: World, dt: real)
    ensures var r := CountDownTimers(w, dt);
      && r.immunityTimer == (if w.immunityTimer > 0.0 then w.immunityTimer - dt else w.immunityTimer)
      && (r.ball.isSuper ==> w.ball.isSuper && r.ball.superTimer > 0.0)
      && (w.ball.isSuper ==> r.ball.superTimer == w.ball.superTimer - dt
                             && (r.ball.isSuper <==> w.ball.superTimer - dt > 0.0))
      && (!w.ball.isSuper ==> r.ball == w.ball)
      && r == w.(immunityTimer := r.immunityTimer, ball := w.ball.(isSuper := r.ball.isSuper, superTimer := r.ball.superTimer))
  {
  }

  /**
    The paddle ends inside [0, SCREEN_WIDTH - width] whenever it fits on the
    screen; only its x changes.
  */
  lemma MovePaddleClamps(w: World, input: Input)
    ensures var r := MovePaddle(w, input);
      && r.paddle.x <= SCREEN_WIDTH as real - w.paddle.width
      && (w.paddle.width <= SCREEN_WIDTH as real ==> 0.0 <= r.paddle.x)
      && r == w.(paddle := w.paddle.(x := r.paddle.x))
  {
  }

  /**
    From level 1 on the wave advances its timer by 0.08 and moves only the drawn
    height of active bricks; on level 0 it does nothing.
  */
  lemma WaveMovesOnlyActiveBricks(w: World, phys: Physics)
    requires WellFormed(w.grid)
    ensures var r := WaveBricks(w, phys);
      && WellFormed(r.grid) && SameFlags(w.grid, r.grid)
      && r == w.(grid := r.grid, waveTimer := r.waveTimer)
      && r.waveTimer == (if w.level >= 1 then w.waveTimer + 0.08 else w.waveTimer)
      && (w.level < 1 ==> r == w)
      && forall i, j :: 0 <= i < BRICK_ROWS && 0 <= j < BRICK_COLS ==>
           var b := w.grid[i][j];
           r.grid[i][j] == if b.active && w.level >= 1
                           then b.(rect := b.rect.(y := b.originalY + phys.sine(r.waveTimer + j as real) * WaveHeight(w.level)))
                           else b
  {
  }

  /**
    A falling power-up drops 4 pixels; caught by the paddle it ends its fall and
    starts a 5 second super ball; below the screen it ends its fall; the
    once-per-level latch is untouched.
  */
  lemma FallPowerUpRule(w: World, phys: Physics)
    ensures var r := FallPowerUp(w, phys);
      && (!w.powerUp.active ==> r == w)
      && (w.powerUp.active ==>
            var moved := w.powerUp.rect.(y := w.powerUp.rect.y + 4.0);
            var caught := phys.recsOverlap(moved, w.paddle);
            && r.powerUp.rect == moved && r.powerUp.spawned == w.powerUp.spawned
            && (r.powerUp.active <==> !caught && moved.y <= SCREEN_HEIGHT as real)
            && r.ball == (if caught then w.ball.(isSuper := true, superTimer := 5.0) else w.ball)
            && r == w.(powerUp := r.powerUp, ball := r.ball))
  {
  }

  /** The ball moves by its speed and reflects off the side walls and the top. */
  lemma MoveBallRule(w: World)
    ensures var r := MoveBall(w);
      var p := r.ball.position;
      && p == Vector2(w.ball.position.x + w.ball.speed.x, w.ball.position.y + w.ball.speed.y)
      && (r.ball.speed.x == -w.ball.speed.x <== (p.x >= SCREEN_WIDTH as real - w.ball.radius || p.x <= w.ball.radius))
      && (r.ball.speed.x == w.ball.speed.x <== !(p.x >= SCREEN_WIDTH as real - w.ball.radius || p.x <= w.ball.radius))
      && r.ball.speed.y == (if p.y <= w.ball.radius then -w.ball.speed.y else w.ball.speed.y)
      && r == w.(ball := w.ball.(position := p, speed := r.ball.speed))
  {
  }

  /** A ball overlapping the paddle reverses vertically and is lifted to just above the paddle. */
  lemma PaddleBounceRule(w: World, phys: Physics)
    ensures var r := PaddleBounce(w, phys);
      && (!phys.circleOverlapsRec(w.ball.position, w.ball.radius, w.paddle) ==> r == w)
      && (phys.circleOverlapsRec(w.ball.position, w.ball.radius, w.paddle) ==>
            && r.ball.speed == Vector2(w.ball.speed.x, -w.ball.speed.y)
            && r.ball.position == Vector2(w.ball.position.x, w.paddle.y - w.ball.radius - 1.0)
            && r == w.(ball := r.ball))
  {
  }

  /** Bottom edge: bounce back above the edge while immune, otherwise GameOver with the ball untouched. */
  lemma BottomEdgeRule(w: World)
    ensures var r := BottomEdge(w);
      && (w.ball.position.y < SCREEN_HEIGHT as real ==> r == w)
      && (w.ball.position.y >= SCREEN_HEIGHT as real && w.immunityTimer > 0.0 ==>
            && r.ball.speed == Vector2(w.ball.speed.x, -w.ball.speed.y)
            && r.ball.position == Vector2(w.ball.position.x, SCREEN_HEIGHT as real - w.ball.radius - 1.0)
            && r == w.(ball := r.ball))
      && (w.ball.position.y >= SCREEN_HEIGHT as real && w.immunityTimer <= 0.0 ==>
            r == w.(mode := GameOver))
  {
  }

  /** Everything before the pass keeps the grid's shape and flags, the level, score, radius and latch. */
  lemma BeforePassFrame(w: World, input: Input, phys: Physics)
    requires WellFormed(w.grid)
    ensures var r := BeforePass(w, input, phys);
      && WellFormed(r.grid) && SameFlags(w.grid, r.grid)
      && r.level == w.level && r.score == w.score && r.ball.radius == w.ball.radius
      && r.paddle == MovePaddle(CountDownTimers(w, input.dt), input).paddle
      && r.powerUp.spawned == w.powerUp.spawned
      && (r.mode == w.mode || r.mode == GameOver)
      && (r.ball.isSuper ==> r.ball.superTimer > 0.0)
  {
    var w5 := FallPowerUp(MovePaddle(CountDownTimers(w, input.dt), input), phys);
    WaveMovesOnlyActiveBricks(w5, phys);
  }

  /** The phases before the pass only flip the signs of the ball's speed components. */
  lemma BeforePassSpeed(w: World, input: Input, phys: Physics)
    ensures var r := BeforePass(w, input, phys);
      Abs(r.ball.speed.x) == Abs(w.ball.speed.x) && Abs(r.ball.speed.y) == Abs(w.ball.speed.y)
  {
    var w6 := WaveBricks(FallPowerUp(MovePaddle(CountDownTimers(w, input.dt), input), phys), phys);
    assert w6.ball.speed == w.ball.speed;
  }

  // ---------------------------------------------------------------------------
  // Facts about a Playing frame.

  /** After a Playing frame the paddle lies in [0, 680]. */
  lemma PlayingPaddleInBounds(w: World, input: Input, phys: Physics)
    requires Inv(w) && w.mode == Playing
    ensures 0.0 <= PlayingStep(w, input, phys).paddle.x <= 680.0
    ensures PlayingStep(w, input, phys).paddle.width == 120.0
  {
    BeforePassFrame(w, input, phys);
    MovePaddleClamps(CountDownTimers(w, input.dt), input);
    PassFrame(BeforePass(w, input, phys), CELLS, phys, input.roll);
  }

  /** A Playing frame scores exactly 100 per brick switched off, and switches none back on. */
  lemma PlayingScore(w: World, input: Input, phys: Physics)
    requires WellFormed(w.grid)
    ensures var r := PlayingStep(w, input, phys);
      && ActiveCount(r.grid) <= ActiveCount(w.grid)
      && r.score == w.score + 100 * (ActiveCount(w.grid) - ActiveCount(r.grid))
      && forall i, j :: 0 <= i < BRICK_ROWS && 0 <= j < BRICK_COLS && r.grid[i][j].active ==> w.grid[i][j].active
  {
    var b := BeforePass(w, input, phys);
    BeforePassFrame(w, input, phys);
    CountSameFlags(w.grid, b.grid);
    PassScore(b, CELLS, phys, input.roll);
    PassFrame(b, CELLS, phys, input.roll);
  }

  /** In a Playing frame the radius is shrunk once per hit: it never grows and is frozen at or below 5. */
  lemma PlayingRadius(w: World, input: Input, phys: Physics)
    requires WellFormed(w.grid)
    ensures var r := PlayingStep(w, input, phys);
      && ActiveCount(r.grid) <= ActiveCount(w.grid)
      && r.ball.radius == ShrinkTimes(w.ball.radius, w.level, ActiveCount(w.grid) - ActiveCount(r.grid))
      && r.ball.radius <= w.ball.radius
      && (w.ball.radius <= MIN_BALL_RADIUS ==> r.ball.radius == w.ball.radius)
      && (w.ball.radius > MIN_BALL_RADIUS - ShrinkAmount(w.level) ==>
            r.ball.radius > MIN_BALL_RADIUS - ShrinkAmount(w.level))
  {
    var b := BeforePass(w, input, phys);
    BeforePassFrame(w, input, phys);
    CountSameFlags(w.grid, b.grid);
    PassRadius(b, CELLS, phys, input.roll);
    PassFrame(b, CELLS, phys, input.roll);
    ShrinkTimesBounds(w.ball.radius, w.level, ActiveCount(w.grid) - ActiveCount(PlayingStep(w, input, phys).grid));
  }

  /**
    A Playing frame only ever flips the signs of the ball's speed components,
    so their magnitudes are those the frame started with.
  */
  lemma PlayingSpeedMagnitude(w: World, input: Input, phys: Physics)
    requires WellFormed(w.grid)
    ensures var r := PlayingStep(w, input, phys);
      Abs(r.ball.speed.x) == Abs(w.ball.speed.x) && Abs(r.ball.speed.y) == Abs(w.ball.speed.y)
  {
    var b := BeforePass(w, input, phys);
    BeforePassFrame(w, input, phys);
    BeforePassSpeed(w, input, phys);
    PassFrame(b, CELLS, phys, input.roll);
    PassSpeed(b, CELLS, phys, input.roll);
  }

  /**
    The end of a Playing frame: a cleared grid advances the level and shows
    Victory, or AllComplete once the level reaches MAX_LEVELS, even if the
    ball left the screen earlier in the same frame; otherwise the level stays
    and the mode is Playing or GameOver.
  */
  lemma PlayingOutcome(w: World, input: Input, phys: Physics)
    requires WellFormed(w.grid) && w.mode == Playing
    ensures var r := PlayingStep(w, input, phys);
      && (Cleared(r.grid) ==>
            r.level == w.level + 1 && r.mode == (if w.level + 1 >= MAX_LEVELS then AllComplete else Victory))
      && (!Cleared(r.grid) ==> r.level == w.level && (r.mode == Playing || r.mode == GameOver))
  {
    BeforePassFrame(w, input, phys);
    PassFrame(BeforePass(w, input, phys), CELLS, phys, input.roll);
  }

  /** A Playing frame never re-arms the power-up latch, and offers at most one power-up. */
  lemma PlayingPowerUpLatch(w: World, input: Input, phys: Physics)
    requires WellFormed(w.grid)
    ensures var r := PlayingStep(w, input, phys);
      var b := BeforePass(w, input, phys);
      && (w.powerUp.spawned ==> r.powerUp.spawned)
      && (r.powerUp == b.powerUp || (!b.powerUp.spawned && !b.powerUp.active && r.powerUp.spawned))
  {
    var b := BeforePass(w, input, phys);
    BeforePassFrame(w, input, phys);
    PassPowerUp(b, CELLS, phys, input.roll);
  }

  // ---------------------------------------------------------------------------
  // The mode machine.

  /**
    In the Menu, the last of 1, 2, 3, Enter pressed this frame decides the
    level started (0, 1, 2, 0); with none pressed nothing changes.
  */
  lemma MenuTransitions(w: World, input: Input, phys: Physics)
    requires Inv(w) && w.mode == Menu
    ensures var r := Step(w, input, phys);
      && (!input.keyOne && !input.keyTwo && !input.keyThree && !input.keyEnter ==> r == w)
      && (input.keyEnter ==> r == StartGameAtLevel(w, 0))
      && (!input.keyEnter && input.keyThree ==> r == StartGameAtLevel(w, 2))
      && (!input.keyEnter && !input.keyThree && input.keyTwo ==> r == StartGameAtLevel(w, 1))
      && (!input.keyEnter && !input.keyThree && !input.keyTwo && input.keyOne ==> r == StartGameAtLevel(w, 0))
  {
  }

  /** Victory + Enter re-initialises the level reached, keeping the score; end screens + Enter go to Menu. */
  lemma ScreenTransitions(w: World, input: Input, phys: Physics)
    requires Inv(w) && w.mode != Menu && w.mode != Playing
    ensures var r := Step(w, input, phys);
      && (!input.keyEnter ==> r == w)
      && (input.keyEnter && w.mode == Victory ==>
            r == InitLevel(w, w.level).(mode := Playing) && r.score == w.score && r.level == w.level)
      && (input.keyEnter && w.mode != Victory ==> r == w.(mode := Menu))
  {
  }

  /** The program starts in a state that satisfies the invariant. */
  lemma StartupInv()
    ensures Inv(StartupWorld())
  {
  }

  lemma PlayingPreservesInv(w: World, input: Input, phys: Physics)
    requires Inv(w) && w.mode == Playing
    ensures Inv(PlayingStep(w, input, phys))
  {
    var b := BeforePass(w, input, phys);
    var r := PlayingStep(w, input, phys);
    PlayingPaddleInBounds(w, input, phys);
    PlayingRadius(w, input, phys);
    PlayingOutcome(w, input, phys);
    BeforePassFrame(w, input, phys);
    PassFrame(b, CELLS, phys, input.roll);
    PlayingSpeedMagnitude(w, input, phys);
    assert r.ball.isSuper == b.ball.isSuper && r.ball.superTimer == b.ball.superTimer;
  }

  /** Every frame keeps the invariant. */
  lemma StepPreservesInv(w: World, input: Input, phys: Physics)
    requires Inv(w)
    ensures Inv(Step(w, input, phys))
  {
    match w.mode {
      case Menu =>
      case Playing =>
        PlayingPreservesInv(w, input, phys);
      case Victory =>
      case GameOver =>
      case AllComplete =>
    }
  }
}
