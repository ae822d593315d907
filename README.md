# Apple-collecting platformer: a verified model of its simulation core

`game.js` is a single-screen platformer. A pig walks left and right, jumps
under gravity, collects apples for 10 points each, loses a life on a
grounded obstacle hit and finishes the level by touching the house. All of
its state is one mutable `game` record. The browser calls a frame callback
again and again, and each frame runs the physics and collision passes only
while the game is running, not paused and not over. Buttons call the
lifecycle commands (start, pause, reset, next level, replay), which set the
flags and counters; reset, next level and replay also rebuild the level. A
level is built by rejection-sampling `Math.random` positions for its apples and obstacles.

The model is split into these modules:

- `Constants` (constants.dfy): the source's numbers, as exact `real`s, and
  the derived positions. The ground line is y = 450, the jump cap is y = 250,
  the house is at (690, 440) and obstacles stand at y = 460.
- `Geometry` (geometry.dfy): the strict rectangle-overlap test, with its
  symmetry, the edge-contact case and a characterisation by a shared
  interior point.
- `Physics` (physics.dfy): the player as a value. `Jump` and the per-tick
  `Step` are functions giving the key choice, gravity, the x clamp and the
  y clamp.
- `Placement` (placement.dfy): the level table with its fallback; the
  apple and obstacle acceptance tests; the generators as searches over a
  finite stream of random draws; and what every placed entity satisfies.
- `Collisions` (collisions.dfy): the apple pass as a function on the apple
  list, the obstacle hit test and the house test, with their lemmas.
- `GameState` (game.dfy): the `game` record as the class `Game`. Its
  methods update the fields step by step as the source does, and each is
  proved against the functions above. The jump, tick, collision, set-up and
  lifecycle methods keep the invariant `Valid()`. The four generator helpers
  (`GenerateApple`, `GenerateObstacle`, `GenerateApples`,
  `GenerateObstacles`) work on the entity lists only and do not promise it;
  only `Populate` calls them, with the player at x = 50, and `Populate`
  itself keeps `Valid()`. The invariant says:
  - the player is in bounds;
  - score ≥ 0 and level ≥ 1;
  - every obstacle passed the acceptance test against those before it;
  - every apple is clear of the house;
  - paused implies running;
  - game over implies not running.

Random numbers are an explicit `draws: seq<real>` parameter, with values
assumed in [0, 1). An apple attempt consumes two draws and an obstacle
attempt one. A generator method returns the draws it did not use, and its
result is the corresponding `Placement` function of the draws.

Two behaviours of the code are easy to miss, and the model keeps both:

- Apples are generated while the obstacle list is still empty, so their
  obstacle check never rejects anything. `Placement.ApplesMayOverlapObstacles`
  gives draws for which level 1's first apple lies on its first obstacle.
- Lives are not kept at or above zero. The start button clears game over but
  does not restore lives, so another grounded hit takes them to −1
  (`GameState.LivesCanGoBelowZero`). `Valid()` therefore puts no lower
  bound on lives.

## Model

| member | source | states |
|---|---|---|
| Geometry.IsColliding | game.js:333-335 | The overlap test: all four comparisons are strict, so rectangles that only touch do not collide |
| Geometry.CollidingIsSymmetric | game.js:333-335 | The overlap test gives the same answer with its two rectangles swapped |
| Geometry.EdgeContactIsNoCollision | game.js:333-335 | Two rectangles that only share an edge, on either axis, do not collide |
| Geometry.CollidingIffCommonInteriorPoint | game.js:333-335 | For positive sizes, the test holds exactly when some point lies strictly inside both rectangles |
| Physics.SPAWN | game.js:101-105 | The start and respawn state: x = 50, y = 450 on the ground line, at rest, not jumping (also game.js:372-376) |
| Physics.Jump | game.js:197-202 | A player not in a jump gets speedY = −25 and jumping = true; a player already in a jump is unchanged; position and speedX are kept |
| Physics.Step | game.js:253-292 | speedX is −5 with left held (even with right), otherwise +5 with right, otherwise 0; y moves by the old speedY + 0.5; x is clamped to [0, 750]; passing the ground gives y = 450, speedY = 0 and not jumping; passing the cap gives y = 250 and speedY ≥ 0; the result is always in bounds |
| Physics.StandingIsStable | game.js:264-292 | A player resting on the ground stays on it, at rest and not jumping, whatever keys are held |
| Physics.JumpLeavesTheGround | game.js:197-202 | On the tick after a jump from in bounds, the player is still jumping and at y = max(y − 24.5, 250) |
| Placement.LevelCounts | game.js:112-118 | Levels 1–3 take their entry of the table (3/2, 5/4, 7/6); every other level falls back to 3 apples and 2 obstacles; both counts are positive |
| Placement.AppleCandidate | game.js:133-134 | Apple candidates from draws in [0, 1) lie in [50, 720) × [50, 470) |
| Placement.ObstacleCandidate | game.js:168-169 | Obstacle candidates from a draw in [0, 1) have x in [100, 660) |
| Placement.AppleAccepted | game.js:136-149 | An apple candidate is accepted when it overlaps no obstacle and not the house |
| Placement.ObstacleAccepted | game.js:171-184 | An obstacle candidate is accepted when it overlaps no earlier obstacle and its x is at least 100 from the player's x and from the house's x |
| Placement.CollidesWithAnyObstacle | game.js:139-144 | The early-exit scan reports a hit exactly when some obstacle overlaps the rectangle |
| Placement.FindApple | game.js:128-150 | One apple search consumes draws and gives up only with fewer than two left |
| Placement.FindAppleTakesAPrefix | game.js:132-150 | The draws consumed are a prefix; the apple placed is the candidate of the last pair consumed, uncollected and accepted against the obstacles and the house |
| Placement.PairAccepted | game.js:133-149 | The candidate of the j-th pair of draws passes the apple acceptance test |
| Placement.FindAppleTakesTheFirstAcceptedPair | game.js:130-150 | The search consumes whole pairs; it places the candidate of the first accepted pair, every pair before it being rejected; when it places nothing, every pair it consumed was rejected |
| Placement.FindObstacle | game.js:163-185 | One obstacle search consumes draws and gives up only when none are left |
| Placement.FindObstacleTakesAPrefix | game.js:167-185 | The draws consumed are a prefix; the obstacle placed is the candidate of the last draw, at y = 460, clear of earlier obstacles and at least 100 from the player's and the house's x |
| Placement.DrawAccepted | game.js:168-184 | The candidate of the j-th draw passes the obstacle acceptance test |
| Placement.FindObstacleTakesTheFirstAcceptedDraw | game.js:165-185 | The search places the candidate of the first accepted draw, every draw before it being rejected; when it places nothing it consumed every draw and rejected them all |
| Placement.PlaceApples | game.js:113-115 | n generator calls add at most n apples and consume draws |
| Placement.PlaceApplesFillsWhileDrawsLast | game.js:113-115 | n generator calls add exactly n apples whenever at least two draws are left over |
| Placement.PlacedApplesAreNew | game.js:132-159 | Every apple the generator calls add is uncollected and accepted |
| Placement.PlaceObstacles | game.js:119-121 | n generator calls add at most n obstacles and consume draws |
| Placement.PlaceObstaclesFillsWhileDrawsLast | game.js:119-121 | n generator calls add exactly n obstacles whenever a draw is left over |
| Placement.AcceptedObstacleKeepsWellPlaced | game.js:173-193 | Appending an obstacle accepted against a well-placed list keeps it well placed |
| Placement.PlacedObstaclesAreWellPlaced | game.js:163-193 | Each obstacle the generator calls add is accepted against all those before it |
| Placement.LayoutFor | game.js:111-121 | For given counts: at most that many apples and obstacles; all the apples are new and accepted; the obstacles are well placed for a player at x = 50 |
| Placement.LevelLayout | game.js:111-121 | A level's layout has at most the level's counts of apples and obstacles |
| Placement.LayoutForFillsWhileDrawsLast | game.js:111-121 | With at least two draws left over, the layout has exactly the counts asked for |
| Placement.LevelLayoutFillsWhileDrawsLast | game.js:111-121 | With at least two draws left over, a level has exactly its row's apples and obstacles (3/2, 5/4, 7/6, otherwise 3/2) |
| Placement.WellPlacedObstaclesAreApart | game.js:173-179 | No two obstacles of a level overlap, and their x coordinates are at least 40 apart |
| Placement.WellPlacedObstaclesMissTheHouse | game.js:181-184 | Because every obstacle keeps 100 from the house's x, no obstacle overlaps the house |
| Placement.AcceptedObstacleLiesBetweenSpawnAndHouse | game.js:168-184 | An accepted obstacle candidate lies between x = 150 and x = 590, between the start and the house |
| Placement.OverlapDrawsPlaceApples | game.js:112-115 | With the given draws, level 1's three apples are (200, 450), (50, 50) and (50, 50) |
| Placement.OverlapDrawsPlaceObstacles | game.js:118-121 | With the rest of those draws, level 1's two obstacles are at x = 200 and x = 300 |
| Placement.ApplesMayOverlapObstacles | game.js:108-121 | With those draws, level 1's first apple overlaps its first obstacle |
| Collisions.Picks | game.js:342-345 | An apple is picked up when it is not yet collected and overlaps the player |
| Collisions.CollectApples | game.js:340-350 | The apple pass keeps the list's length and every position; an apple is collected afterwards exactly when it was before or it overlaps the player (so collected never reverts) |
| Collisions.NewlyCollected | game.js:340-350 | The number of apples a pass picks up is 0 exactly when no uncollected apple overlaps the player |
| Collisions.CollectedCount | game.js:340-350 | The collected apples number at most the list's length |
| Collisions.CollectedCountGrows | game.js:340-350 | A pass adds exactly the newly picked apples to the collected count |
| Collisions.CollectTwiceIsCollectOnce | game.js:340-350 | A second pass at the same position changes nothing and picks up nothing |
| Collisions.HitsObstacle | game.js:356-362 | A hit needs an overlap with the obstacle, a player not in a jump, and a y less than 5 from the ground line |
| Collisions.AirborneIsNeverHit | game.js:356-362 | A player who is jumping, or 5 or more from the ground line, is hit by no obstacle |
| Collisions.JumpingClearsObstacles | game.js:354-362 | A grounded player who jumps passes through every obstacle on the next tick |
| Collisions.TouchesHouse | game.js:384-387 | The level ends when the player overlaps the house |
| Collisions.SpawnIsSafe | game.js:371-377 | The respawn position touches no obstacle of a level and not the house |
| GameState.Game.constructor | game.js:13-40 | The initial record: stopped, score 0, 3 lives, level 1, player at the start, no entities |
| GameState.Game.Active | game.js:216 | A frame advances the simulation only while running, not paused and not over |
| GameState.Game.Jump | game.js:197-202 | The jump key updates the player field as Physics.Jump does |
| GameState.Game.UpdatePlayer | game.js:253-292 | The step-by-step field updates leave the player as Physics.Step gives it |
| GameState.Game.CheckApples | game.js:340-350 | The reverse loop leaves the apples as CollectApples gives them; the score rises by 10 per newly collected apple; score − 10 × collected count is unchanged |
| GameState.Game.CheckObstacles | game.js:353-381 | At most one life is lost, exactly when a grounded hit occurs; if lives ≤ 0 afterwards the game is over and stopped, otherwise the player respawns at (50, 450) at rest; no hit changes nothing |
| GameState.Game.CheckHouse | game.js:384-389 | Touching the house stops the run, whatever the jump state |
| GameState.Game.CheckCollisions | game.js:338-390 | The three passes in order: apples, then obstacles, then the house, tested at the player's position after the obstacle pass |
| GameState.Game.Tick | game.js:216-220 | A frame that is not running, paused or over changes nothing; otherwise it is one Step followed by the collision passes |
| GameState.Game.GenerateApple | game.js:128-160 | The accept/reject loop appends exactly the apple FindApple places and returns the unused draws |
| GameState.Game.GenerateObstacle | game.js:163-194 | The accept/reject loop appends exactly the obstacle FindObstacle places, judged against the current player x |
| GameState.Game.GenerateApples | game.js:113-115 | The counted loop of apple generator calls gives PlaceApples |
| GameState.Game.GenerateObstacles | game.js:119-121 | The counted loop of obstacle generator calls gives PlaceObstacles |
| GameState.Game.Populate | game.js:111-121 | Apples, then obstacles, into the emptied lists: the result is LayoutFor of the counts, and the invariant holds |
| GameState.Game.InitLevel | game.js:99-125 | The player is back at the start at rest; the entity lists are rebuilt as the level's layout |
| GameState.Game.StartGame | game.js:415-420 | Running, not paused, not over; counters and entities kept |
| GameState.Game.PauseGame | game.js:423-428 | Pausing toggles while running and is a no-op otherwise |
| GameState.Game.ResetGame | game.js:431-447 | Score 0, 3 lives, level 1, stopped, unpaused, not over, level 1 rebuilt |
| GameState.Game.NextLevel | game.js:450-463 | Level + 1 with score and lives unchanged, stopped, and the new level rebuilt |
| GameState.Game.ReplayLevel | game.js:466-478 | Level, score and lives unchanged, stopped, and the level rebuilt |
| GameState.NewGame | game.js:59-72 | Page load: the initial record, then level 1 built as its layout, with the player at the start |
| GameState.LivesCanGoBelowZero | game.js:364-368 | A game over with 0 lives, restarted and hit while grounded, ends with −1 lives |

## Left out

- Rendering (`drawBackground`, `drawPlayer`, `drawObjects`, canvas calls), `updateUI`, the popups and the status message: these are display effects. Only their state changes are kept: `isRunning = false` in `showGameOver` and `showLevelComplete`.
- `gameLoop`'s `requestAnimationFrame` scheduling: it is I/O. `Tick` models one frame's guarded update.
- `bindEvents` and the `keys` map are input wiring. The held keys are two booleans, left (any of ArrowLeft, a, A) and right (any of ArrowRight, d, D). Space is an explicit `Jump` call.
- The canvas set-up in `initGame`, and the empty `updateObjects`: they hold no logic. `initGame`'s `bindEvents` and first `gameLoop` call are input wiring and scheduling; its `initLevel` call is `GameState.NewGame`.
- `Math.random` is a finite sequence of draws, assumed in [0, 1). The source's accept/reject loops never stop trying. The model's generators stop when the draws run out, and then place nothing.
- Placement.LevelLayout: states "at most" the level's counts only for the case where the draws run out before a generator accepts a candidate; with draws left over, `Placement.LevelLayoutFillsWhileDrawsLast` gives the exact counts.
- Placement.PlaceApples and Placement.PlaceObstacles: state "at most n" only for the same case; `PlaceApplesFillsWhileDrawsLast` and `PlaceObstaclesFillsWhileDrawsLast` give exactly n otherwise.
- Floating point: all of the source's constants are exact, so numbers are `real`. IEEE double rounding is not modelled.
- The player's and the entities' `width`, `height` and `emoji` fields are not modelled. The sizes are constants that never change, and the emoji is only drawn.
- GameState.Game.CheckObstacles and GameState.Game.CheckHouse: they require an unpaused game. The only caller, the guarded frame update, guarantees this, and `Valid()` ties pausing to running.
