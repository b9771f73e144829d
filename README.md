# Dino runner: a verified model of the game simulation

This project models the per-frame simulation of a browser endless-runner
(`game.js`) in Dafny, without its canvas drawing or DOM code. A dinosaur stands
on a ground line and jumps over obstacles that scroll in from the right. Each
obstacle that scrolls off the left edge scores a point. The first collision
ends the game.

The model keeps the program's own form:

- The dino and the ground strip are classes whose fields are updated in place
  (`Player.Dino`, `Decor.Ground`).
- The game's globals are the fields of `Simulation.Game`. Its methods are the
  program's functions: `gameLoop` is `Tick`, plus `startGame`, `endGame`,
  `updateDayNightCycle` and the input handlers.
- The pool of three clouds is an array updated in place.
- The obstacle list is a sequence. The obstacle loop removes elements from it
  while iterating, with the same `splice; score++; i--` step as the source.
- The collision test and the difficulty curve are pure functions.
- Each imperative operation is proved against a specification function:
  - `Player.Stepped` and `Player.Jumped` for the dino
  - `Decor.Scrolled` and `Decor.Drifted` for the decor
  - `Obstacles.Sweep` for the obstacle loop
  - `Difficulty.Speed`, `Difficulty.SpawnInterval` and `DayNight.DayCycle` for the
    score-driven state

  Lemmas then prove what the program promises about those functions.

Modules, one per file:

- `Geometry` (geometry.dfy): rectangles, `GROUND_Y`, and the strict
  bounding-box collision test.
- `Difficulty` (difficulty.dfy): spawn interval and scroll speed as functions
  of the score.
- `DayNight` (day_night.dfy): day or night from the score.
- `Player` (player.dfy): the dino's vertical kinematics and the reachable
  states of a jump.
- `Obstacles` (obstacles.dfy): obstacle creation and movement, the
  specification `Sweep` of one pass of the obstacle loop, and the loop itself
  (`SweepLoop`).
- `Decor` (decor.dfy): the ground strip and the clouds.
- `Simulation` (simulation.dfy): the game state and its transitions.

Four behaviours of the code that a reader might not expect, which the model
reproduces:

- The ground offset is reset to 0 once it reaches -50. It is not wrapped
  modulo 50 (`Decor.ScrollResetsRatherThanWraps`: from -45 at speed 10 it
  goes to 0, not to -5).
- The speed is not continuous at score 50: it jumps from 8 to 11, and the
  spawn interval drops from 86 to 60 (`Difficulty.RegimeChangeAtFifty`). Both
  stay monotone across the jump.
- An obstacle is spawned on the very first tick after a start, because the
  frame count is then 0: the first obstacle appears at frame 0, not at
  frame 90.
- A jumping dino never rises above y = 90.775, the vertex of the jump
  parabola (`Player.APEX_Y`), and never goes below the ground line at
  y = 190. The discrete updates never land exactly on the vertex: the
  highest point actually reached is 90.8, after 16 updates
  (`Player.JumpPeaksAtNinetyPointEight`).

Random draws (`Math.random()`) are parameters: `Obstacles.Draws` for an
obstacle, and sequences of reals for the clouds. `canvas.width` is the
constant `fieldWidth` of a `Game`. The HTML page is assumed to show the
start overlay when it loads.

## Model

| member | source | states |
|---|---|---|
| Geometry.IsColliding | game.js:211-218 | the collision test itself, as four strict comparisons; colliding rectangles have positive combined width and height |
| Geometry.CollidingIsSymmetric | game.js:211-218 | the collision test gives the same answer with its arguments swapped |
| Geometry.TouchingEdgesDoNotCollide | game.js:211-218 | rectangles that only share an edge (either axis, either side) do not collide, because all four comparisons are strict |
| Geometry.CollidingIffCommonInteriorPoint | game.js:211-218 | for rectangles of positive size, colliding is equivalent to the open interiors sharing a point (both directions) |
| Geometry.EdgeAndOverlapExamples | game.js:211-218 | two concrete boxes sharing the edge x = 10 do not collide; two boxes overlapping on a 5 by 5 square do |
| Difficulty.SpawnInterval | game.js:264-269 | the spawn interval is at least 20 (so the frame-count modulus is defined); below score 50 it lies in [86, 90]; from 50 on it is at most 60 |
| Difficulty.Speed | game.js:296-300 | the speed is at least 6; at most 8 below score 50; at least 11 from 50 on |
| Difficulty.SpawnIntervalNonIncreasing | game.js:264-269 | a higher score never gives a longer spawn interval, across the regime change too |
| Difficulty.SpeedNonDecreasing | game.js:296-300 | a higher score never gives a lower speed, across the regime change too |
| Difficulty.SpeedInHalfUnits | game.js:296-300 | every speed is a whole number of half units |
| Difficulty.RegimeChangeAtFifty | game.js:264-300 | between scores 49 and 50 the speed jumps from 8 to 11 and the spawn interval from 86 to 60 |
| Difficulty.SpawnIntervalFloor | game.js:264-269 | the spawn interval equals its floor of 20 exactly when the score is at least 250 |
| DayNight.DayCycle | game.js:180-186 | the day/night mode is 0 or 1 |
| DayNight.NightIffSecondHalfOfHundred | game.js:180-186 | it is night exactly when the score modulo 100 is at least 50 |
| DayNight.DayCycleFlipsEveryFifty | game.js:180-186 | 50 more points always switch day and night |
| Player.Jumped | game.js:45-50 | after `jump()` the dino is jumping at the same height; from the ground its velocity is -13, in the air its velocity is unchanged |
| Player.Stepped | game.js:52-64 | after `update()` the dino is never below y = 190; it is never jumping unless it was before; it is at y = 190 exactly when it is at rest |
| Player.JumpIgnoredWhileJumping | game.js:45-50 | a jump while already jumping changes nothing |
| Player.JumpIsIdempotent | game.js:45-50 | jumping twice is the same as jumping once, and afterwards the dino is jumping |
| Player.StepClampsToGround | game.js:52-64 | after an update the dino is never below y = 190; it is at 190 exactly when the clamp fired, which leaves it at rest (velocity 0, not jumping), and that happens exactly when the unclamped position reaches 190 |
| Player.RestingStaysResting | game.js:52-64 | a dino at rest on the ground stays there across updates |
| Player.JumpPreservesReachable | game.js:45-50 | a jump from a reachable state leads to a reachable state: the impulse -13 at y = 190 starts the jump parabola |
| Player.StepPreservesReachable | game.js:52-64 | an update from a reachable state leads to a reachable state: airborne, the dino stays on the jump parabola; otherwise it lands at rest |
| Player.ReachableIsBounded | game.js:52-64 | in every reachable state the dino's y lies between the apex 90.775 and the ground line 190 |
| Player.JumpInFlight | game.js:45-64 | a jump from the ground stays airborne for 31 updates: after k of them the velocity is -13 + 0.8 k and y = 190 - 13 k + 0.4 k (k + 1) |
| Player.JumpLandsAfterThirtyTwoUpdates | game.js:52-64 | the 32nd update after a jump from the ground lands the dino at rest on the ground |
| Player.JumpPeaksAtNinetyPointEight | game.js:52-64 | no update of a jump from the ground takes the dino above y = 90.8, which it reaches after 16 updates, below the parabola's vertex 90.775 |
| Player.Dino.constructor | game.js:34-43 | a new dino is at rest on the ground |
| Player.Dino.Jump | game.js:45-50 | `jump()` updates the fields exactly as `Jumped` says |
| Player.Dino.Update | game.js:52-64 | `update()` (gravity, integration, clamp) updates the fields exactly as `Stepped` says |
| Obstacles.NewObstacle | game.js:97-115 | a new obstacle starts at the right edge of the field. It flies exactly when the score is at least 30 and the draw exceeds 0.7. A ground obstacle is 15 or 25 wide, 30 or 40 tall, and sits exactly on the ground line. A flying one is 20 or 30 wide and 25 or 35 tall, with its bottom edge in [130, 170) |
| Obstacles.FlyingObstacleClearsStandingDino | game.js:99-106 | a flying obstacle never hits a dino standing on the ground, wherever it has moved to |
| Obstacles.GroundObstacleHitsStandingDino | game.js:107-112 | a ground obstacle that overlaps a standing dino horizontally hits it |
| Obstacles.Advanced | game.js:117-119 | `Obstacle.update()` moves the obstacle left by exactly the speed and changes nothing else |
| Obstacles.OffScreen | game.js:287 | the cull test: an off-screen obstacle of non-negative width has its left edge left of the field |
| Obstacles.AdvancedAll | game.js:117-119 | moving every obstacle keeps the count and moves each one left by exactly the speed |
| Obstacles.Survivors | game.js:286-291 | culling keeps only on-screen obstacles drawn from the input, and never more of them |
| Obstacles.SurvivorsKeepEveryVisible | game.js:286-291 | culling keeps every obstacle that is still on screen |
| Obstacles.Sweep | game.js:276-292 | one pass of the obstacle loop loses no obstacle: those kept plus those removed are all that went in |
| Obstacles.SweepLoop | game.js:276-292 | the in-place loop (move, stop at the first collision, `splice; score++; i--` for an off-screen obstacle) returns the list, the number removed and the collision flag that `Sweep` specifies |
| Obstacles.SweepCollidesIffSomeHit | game.js:276-292 | the pass ends in a collision exactly when some obstacle, once moved, hits the player |
| Obstacles.SweepWithoutHit | game.js:276-292 | with no collision, every obstacle is moved once by the pre-loop speed, exactly the off-screen ones are removed, the survivors keep their order, and the number removed (the score increase) is the number culled; the `i--` skips nothing |
| Obstacles.SweepStopsAtFirstHit | game.js:276-292 | at the first colliding obstacle the pass stops: the earlier ones are moved and culled as without a hit, the colliding one is moved and kept, and the later ones are left unmoved |
| Obstacles.SweepLeavesNoneOffScreen | game.js:276-292 | if no obstacle was off screen before a pass, none is after it |
| Decor.Scrolled | game.js:139-142 | the new ground offset is either the old one moved left by the speed or 0, and always above -50 |
| Decor.ScrollStaysInBand | game.js:139-142 | at a positive speed the ground offset stays in (-50, 0] and either moves left or resets to 0 |
| Decor.ScrollResetsRatherThanWraps | game.js:139-142 | the offset resets to 0 rather than wrapping modulo 50 (-45 at speed 10 gives 0) |
| Decor.Ground.constructor | game.js:135-137 | the ground strip starts at offset 0 |
| Decor.Ground.Update | game.js:139-142 | `Ground.update()` sets the offset as `Scrolled` says |
| Decor.NewCloud | game.js:158-166 | a new cloud starts at the right edge; with draws in [0, 1) its height lies in [30, 100) and its speed in [0.5, 2) |
| Decor.OnScreen | game.js:250 | a cloud counts as on screen (the negation of the respawn test) whenever its left edge is inside the field |
| Decor.Drifted | game.js:244-254 | a cloud step keeps the cloud's speed and leaves it on screen. A cloud that is still visible after moving is only moved; one that has gone off the left edge respawns at the right edge at a height in [30, 100) |
| Simulation.FirstTickKeepsItsObstacle | game.js:318-328 | on the first tick after a start, the obstacle spawned at frame 0 is moved by speed 6 and kept, neither hit nor culled, whatever the dino's height, when the field is at least 136 wide |
| Simulation.Game.constructor | game.js:198-208 | the page's initial state: dino at rest, ground at 0, three clouds spread evenly across the field with their drawn heights and speeds, game stopped with the overlay shown, no obstacles; the invariant holds |
| Simulation.Game.Incoming | game.js:264-273 | the spawn decision: the list the obstacle loop will see extends the current one by at most one new obstacle, placed at the right edge; at frame 0 one is always added |
| Simulation.Game.UpdateDayNightCycle | game.js:180-186 | the day/night mode becomes the one the score gives |
| Simulation.Game.DriftClouds | game.js:244-254 | each cloud of the pool is replaced by its `Drifted` successor, in place |
| Simulation.Game.EndGame | game.js:330-335 | the game stops and the overlay is shown |
| Simulation.Game.AdvanceObstacles | game.js:275-292 | after the obstacle loop the list is what `Sweep` keeps, the score has risen by the number removed, and a collision stops the game and shows the overlay; speed and frame count are untouched |
| Simulation.Game.MoveActors | game.js:226-260 | the day/night mode, the clouds, the ground and the dino are each updated as their specifications say, and the invariant is kept |
| Simulation.Game.Tick | game.js:221-306 | a tick does nothing unless the game is running. Otherwise it moves the decor and the dino, and spawns an obstacle when the frame count is a multiple of the spawn interval. It then runs the obstacle loop with the previous tick's speed. Only if there was no collision does it recompute the speed from the new score and advance the frame count. The invariant is kept: the dino is in a reachable state, the ground is in (-50, 0], no obstacle is off screen, all clouds are on screen, and a running game's speed matches its score |
| Simulation.Game.StartGame | game.js:318-328 | a start resets score, frame count, speed, day/night mode and obstacles, but not the dino, the ground or the clouds, and runs one tick at once. On a wide enough field that tick spawns one obstacle and keeps it, leaving the game running with frame count 1 |
| Simulation.Game.Press | game.js:337-354 | a space key or canvas click starts the game when it is stopped with the overlay showing, and otherwise makes the dino jump (leaving all else unchanged) |

## Left out

- Drawing: the `draw()` methods, the sky and stars, `getSkyColor` and `drawScore`. These have no effect on the simulation state.
- The theme toggle, and the overlay's text: the overlay is modelled only as its hidden/shown flag.
- `requestAnimationFrame` scheduling: one call of `Tick` is one frame. The button click at game.js:356 calls `startGame` even while a game is running. That starts a second frame chain, which is not modelled; the call itself is `StartGame`.
- `Math.random()`: every draw is a parameter, and lemmas that need a range require it to lie in [0, 1).
- Obstacles.NewObstacle: the four draws are independent parameters. In the source the "flying" draw is only taken when the score is at least 30 (short-circuit `&&`), so which draw of a random stream lands in which parameter is not modelled.
- IEEE-754 double rounding: all positions and speeds are exact reals. The jump-parabola invariant (`Player.Reachable`) holds exactly only in this arithmetic.
- The leg animation (`legMove`, `legDirection`), which is cosmetic.
- `cyclePoints`, which is assigned but never read.
- Obstacle and cloud objects are updated field by field in the source; here each is a value replaced whole. No two list or array slots share an object in the source, so nothing observable is lost.
- Simulation.Game.AdvanceObstacles: the loop (`Obstacles.SweepLoop`) runs on a local copy of the list and returns the number removed. The list and the score are written back after the loop, and on a collision `endGame` is called after the loop rather than from inside it. No other code runs in between, so the resulting state is the same.
