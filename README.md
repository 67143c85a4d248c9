# Brick breaker: a verified model of the game core

This project models the core of a single-screen brick-breaker written in C on
top of raylib (`main.c`):
- the three-level brick catalogue;
- level setup (`InitLevel`), the new-game entry point (`StartGameAtLevel`), the
  "no brick left" test (`AllBricksCleared`) and the once-per-level power-up
  offer (`SpawnPowerUp`);
- one iteration of the frame loop's state switch over the five screens Menu,
  Playing, Victory, GameOver and AllComplete.

The C program keeps its state in globals and changes it in place. The model has
two matching layers:

- `Breakout.Game` is a class with the same globals as fields. The brick grid is
  an `array2<Brick>`, mirrored by a ghost `grid`. Each method does what the C
  code does, with the same loops, branches and constants.
- Modules `Setup`, `BrickCollisions` and `Update` define the same operations as
  functions on `World`, a value snapshot of all globals. Every method that
  models a phase of the frame promises `Snapshot() == F(old(Snapshot()), ...)`
  for its function `F`. The lemmas about those functions state what the game
  promises. The exceptions are:
  - `SetBrick`, `SwayBrick` and `SwayRow` are loop bodies. They state the new
    ghost grid as an update of the old one.
  - `PassRow` states a partial pass. The state after row i is `PassUpTo` of
    the first 10(i + 1) cells.
  - `SpawnPowerUp` changes only the power-up. Its equation is about that field.
  - `AllBricksCleared` is a query that changes nothing.

The supporting modules are:
- `Types`: constants, records and the snapshot;
- `Levels`: the catalogue;
- `BrickGrid`: counting active bricks.

Floats are modelled as exact reals. Three things are parameters instead of
code:
- raylib's two collision tests and `sinf` are fields of `Physics`;
- the keyboard, the frame time and the random draws are fields of `Input`.

## Model

A method row of `Breakout.Game` also covers the function its contract names:
- `Game.InitLevel` covers `Setup.InitLevel`, and `Game.StartGameAtLevel`
  covers `Setup.StartGameAtLevel`.
- `Game.SpawnPowerUp` covers `BrickCollisions.SpawnPowerUp`.
- `Game.HitBrick` covers `BrickCollisions.HitBrick` and `BrickCollisions.Hit`.
- `Game.PassRow` and `Game.BrickPass` cover `BrickCollisions.PassUpTo` and
  `BrickCollisions.Pass`.
- `Game.CountDownTimers`, `MovePaddle`, `FallPowerUp`, `WaveBricks`,
  `MoveBall`, `BottomEdge`, `PaddleBounce`, `BeforePass`, `PlayingStep`,
  `MenuStep` and `Step` cover the `Update` functions of the same name.
- `Update.ClearCheck` (main.c:278-282) is covered by `Game.PlayingStep`, and
  `Update.PlayingOutcome` states what it does.

| member | source | states |
|---|---|---|
| Types.StartupWorld | main.c:58-67 | The globals start zeroed: Menu, score 0, level 0, a 6 x 10 grid. |
| Update.StartupInv | main.c:58-67 | The startup state satisfies the invariant every frame keeps. |
| Levels.CatalogueCounts | main.c:71-75 | Level 0's map has 12 bricks, level 1's 32, level 2's 60. |
| Setup.InitLevelBricks | main.c:124-131 | After InitLevel(L), brick (i, j) sits at x = 75j + 35, y = 30i + 50, size 70 x 25, with originalY equal to y, and is active iff map L has a 1 there. |
| Setup.InitLevelActiveCount | main.c:123-137 | After InitLevel(L), the active count equals the number of 1s in map L, which is 12, 32 or 60. |
| Setup.InitLevelResets | main.c:138-147 | InitLevel resets the paddle, the ball and the power-up flags. |
| Setup.StartGameAtLevelSets | main.c:150-156 | StartGameAtLevel is InitLevel plus score 0, the chosen level, wave timer 0 and mode Playing. |
| Setup.StartGameLastWins | main.c:150-156 | Two StartGameAtLevel calls in a row give the state of the second call alone. |
| BrickGrid.ClearedIffNoneActive | main.c:158-165 | The grid is cleared exactly when its active count is 0. |
| BrickGrid.CountUpdate | main.c:264 | Replacing one brick changes the active count by exactly the change in that brick's flag. |
| BrickGrid.CountSameFlags | main.c:232-235 | Two grids with the same active flags have the same active count. |
| BrickCollisions.SpawnLatch | main.c:167-175 | The offer does nothing once made or while an item falls. Otherwise it drops an item iff the draw is below 20. |
| BrickCollisions.ShrinkTimesBounds | main.c:268-272 | Hits never grow the radius. At or below 5 it is frozen. From above 5 − shrink it stays above 5 − shrink. |
| BrickCollisions.ShrinkTimesLinear | main.c:268-272 | While the radius stays above 5, each hit takes off exactly the level's shrink amount. |
| BrickCollisions.LevelTwoRadiusSettles | main.c:271-272 | On level 2, 17 or more hits from 25 leave the ball at 4.6, below MIN_BALL_RADIUS. |
| BrickCollisions.HitBrickEffect | main.c:262-273 | A hit does exactly this: one brick off, count −1, score +100, vertical flip unless super, one shrink, one offer. A miss changes nothing. |
| BrickCollisions.PassFrame | main.c:260-276 | The pass touches only bricks, score, ball speed.y, radius and power-up. Bricks are only switched off. |
| BrickCollisions.PassScore | main.c:260-276 | The pass adds exactly 100 per brick it switches off. |
| BrickCollisions.PassSpeed | main.c:266 | A non-super ball ends with speed.y flipped iff it hit an odd number of bricks. A super ball keeps its speed. The pass never changes isSuper. |
| BrickCollisions.PassRadius | main.c:268-272 | The radius after the pass is the start radius shrunk once per brick hit. |
| BrickCollisions.PassNotYetReached | main.c:260-276 | A cell the row-major pass has not reached yet is untouched. |
| BrickCollisions.PassVisit | main.c:262-264 | Right after the pass visits brick (i, j), it is off iff it was on and the ball overlapped it, with the radius the ball had then. |
| BrickCollisions.PassKeepsVisited | main.c:260-276 | Once visited, a brick keeps its value for the rest of the pass. |
| BrickCollisions.PassOutcome | main.c:260-276 | After the pass, brick (i, j) is off iff it was on and overlapped by the ball with the radius the ball had when the pass reached (i, j). Nothing else about any brick changes. |
| BrickCollisions.PassPowerUp | main.c:267 | The pass offers at most one power-up, and none once one was offered or one is falling. |
| Update.CountDownTimersRule | main.c:207-211 | Immunity drops by dt only while positive. A super ball's timer drops by dt and the ball stops being super when the timer reaches 0 or below. A ball that is not super is untouched. The super ball is never switched on here, and nothing else changes. |
| Update.MovePaddleClamps | main.c:213-216 | The paddle moves only in x and ends in [0, 800 − width]. Nothing else in the game state changes. |
| Update.FallPowerUpRule | main.c:218-226 | A falling item drops 4 pixels. A catch starts a 5 s super ball. Caught or off-screen, the item stops falling. |
| Update.WaveMovesOnlyActiveBricks | main.c:228-238 | From level 1 on, the wave advances the wave timer t by 0.08 and sets rect.y of active bricks to originalY + sin(t + j) × 5 or 15, with the new t. It changes nothing else. It does nothing on level 0. |
| Update.MoveBallRule | main.c:240-244 | The ball moves by its speed. It reflects in x at the side walls and in y at the top. |
| Update.BottomEdgeRule | main.c:246-253 | At the bottom edge an immune ball flips its vertical speed and sits 1 pixel plus its radius above the edge, keeping its x position. Nothing else changes, immunity included. A ball that is not immune sets the mode to GameOver. |
| Update.PaddleBounceRule | main.c:255-258 | A ball overlapping the paddle reverses vertically and sits 1 pixel above the paddle. |
| Update.BeforePassFrame | main.c:207-258 | The phases before the pass keep flags, level, score, radius and the power-up latch. A super ball left over has time on its timer. |
| Update.BeforePassSpeed | main.c:240-258 | The phases before the pass only flip the signs of the ball's speed components, never their magnitudes. |
| Update.PlayingPaddleInBounds | main.c:213-216 | After a Playing frame the paddle is within [0, 680]. |
| Update.PlayingScore | main.c:205-283 | A Playing frame adds exactly 100 per brick switched off and switches none back on. |
| Update.PlayingRadius | main.c:260-276 | In a Playing frame the radius is shrunk once per hit: never larger, frozen at or below 5, never reaching 5 − shrink. |
| Update.PlayingOutcome | main.c:278-282 | A cleared grid advances the level and shows Victory, or AllComplete if the new level is 3 or more, even over GameOver. Otherwise the level stays and the mode is Playing or GameOver. |
| Update.PlayingSpeedMagnitude | main.c:240-276 | A Playing frame only flips the signs of the ball's speed components. Their magnitudes stay as they were. |
| Update.PlayingPowerUpLatch | main.c:218-276 | A Playing frame never re-arms the latch and offers at most one power-up. |
| Update.MenuTransitions | main.c:198-203 | In the Menu, the last of keys 1, 2, 3, Enter pressed starts level 0, 1, 2 or 0. With none pressed nothing changes. |
| Update.ScreenTransitions | main.c:285-293 | Victory + Enter re-runs InitLevel on the reached level, keeping score. GameOver or AllComplete + Enter returns to the Menu. Without Enter nothing changes. |
| Update.PlayingPreservesInv | main.c:205-283 | A Playing frame keeps the invariant. |
| Update.StepPreservesInv | main.c:197-294 | Every frame keeps the invariant (see the note after this table). |
| Breakout.Game.constructor | main.c:58-67 | The object starts as the zeroed startup state. |
| Breakout.Game.InitLevel | main.c:123-148 | The nested loops fill the array with the catalogue level. The new state is Setup.InitLevel of the old one. |
| Breakout.Game.StartGameAtLevel | main.c:150-156 | The new state is Setup.StartGameAtLevel of the old one. |
| Breakout.Game.AllBricksCleared | main.c:158-165 | Returns true iff no brick of the array is active, which is the grid's Cleared. Nothing changes. |
| Breakout.Game.SpawnPowerUp | main.c:167-175 | The power-up becomes BrickCollisions.SpawnPowerUp of the old one and the draw. |
| Breakout.Game.CountDownTimers | main.c:207-211 | The new state is Update.CountDownTimers of the old one. |
| Breakout.Game.MovePaddle | main.c:213-216 | The new state is Update.MovePaddle of the old one. |
| Breakout.Game.FallPowerUp | main.c:218-226 | The new state is Update.FallPowerUp of the old one. |
| Breakout.Game.SwayBrick | main.c:232-235 | Only brick (i, j) changes, to its wave position if active. |
| Breakout.Game.SwayRow | main.c:231-236 | Only row i changes, to row i of Update.WaveGrid. |
| Breakout.Game.WaveBricks | main.c:228-238 | The loops leave Update.WaveBricks of the old state. |
| Breakout.Game.MoveBall | main.c:240-244 | The new state is Update.MoveBall of the old one. |
| Breakout.Game.BottomEdge | main.c:246-253 | The new state is Update.BottomEdge of the old one. |
| Breakout.Game.PaddleBounce | main.c:255-258 | The new state is Update.PaddleBounce of the old one. |
| Breakout.Game.HitBrick | main.c:262-273 | One cell of the pass, as BrickCollisions.HitBrick. |
| Breakout.Game.PassRow | main.c:261-275 | Continuing a pass from i rows to i + 1 rows leaves the state PassUpTo of 10(i + 1) cells. |
| Breakout.Game.BrickPass | main.c:260-276 | After the loops the state is BrickCollisions.Pass of the old one. |
| Breakout.Game.BeforePass | main.c:207-258 | The phases before the pass leave Update.BeforePass of the old state. |
| Breakout.Game.PlayingStep | main.c:205-283 | The new state is Update.PlayingStep of the old one. |
| Breakout.Game.MenuStep | main.c:198-203 | The new state is Update.MenuStep of the old one. |
| Breakout.Game.Step | main.c:197-294 | The new state is Update.Step of the old one, and the invariant is kept. |

The invariant `Update.Inv` says:
- the grid is 6 x 10;
- 0 ≤ level ≤ 3;
- in Playing, the level is 0, 1 or 2, the paddle is 120 wide and the radius
  lies in (5 − shrink, 25], and both speed components have magnitude
  6 + 1.5 × level;
- a super ball has time left on its timer;
- Victory has level 1 or 2, and AllComplete has level 3.

Behaviours of the code worth knowing:

- Level 0 starts with 12 bricks (two rows of six).
- The radius can fall below MIN_BALL_RADIUS. The guard tests `radius > 5`
  before subtracting, so the last shrink can take the ball to 5 − shrink.
  On level 2 it settles at 4.6 (`LevelTwoRadiusSettles`).
- After the last level is cleared, `currentLevel` is 3, outside 0..2, while the
  mode is AllComplete.
- A frame that clears the grid shows Victory or AllComplete, even if the ball
  crossed the bottom edge earlier in the same frame.

## Left out

- Rendering, text and the shadow-text helper: drawing only, with no state the
  game reads back.
- Animated GIF backgrounds (loading, frame stepping, drawing, unloading): file
  I/O and raw image buffers.
- The window lifecycle and the frame loop itself. One iteration is `Step`, and
  the frame time `dt` is an input.
- raylib's `CheckCollisionRecs` and `CheckCollisionCircleRec`, whose code is not
  part of this model. They are uninterpreted fields of `Physics`.
- `sinf` in the wave. It is an uninterpreted field of `Physics`, so the model
  says which field the wave writes, not the value.
- `GetRandomValue(0, 100)`. The draw for the offer made on hitting brick (i, j)
  is `input.roll(i, j)`, a number in 0..100. A brick is hit at most once per
  pass, so each offer still gets its own draw.
- IEEE single-precision rounding. Float fields are exact reals.
  `LevelTwoRadiusSettles` states the exact 4.6; the C program reaches it up to
  float rounding.
- Brick colours: cosmetic.
