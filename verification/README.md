# Bricker rule engine in Dafny

A Dafny model of the rules of Bricker, a Breakout-style game in Java. A
ball bounces off a paddle and breaks a grid of bricks, and each brick
carries one collision strategy. A strategy may do nothing, release two
extra balls ("pucks"), drop a heart that restores a life, add a temporary
second paddle, switch on turbo speed, or apply two more strategies drawn
at the moment of the hit (`Double`). The model follows
`BrickerGameManager` and the game objects. It covers:

- the bookkeeping: lives kept as a row of up to five hearts, the brick
  counter, the temporary-paddle guard, the shared double-strategy counter,
  the puck list and the heart sweep list;
- the per-object counters: the ball's turbo counter, the temporary
  paddle's hits, the heart's catch rule, the life counter's text and
  colour, and the paddle's movement direction.

The state of one round is one immutable record, `World.RoundState`. The
danogl object collection is a map from fresh ids to object records, and
each rule is a pure transition of that record. The randomness of
`java.util.Random` is an input. A generator `Random.Rng` is an unbounded
stream of naturals, and `nextInt(n)` reads the next one modulo `n`. Every
value in range is reachable, and nothing else is assumed. The coins of a
ball launch, the arrow and W keys, and the answer to "Play again?" are
also inputs. Velocities are reals, so 1.4 is exact.

Modules, in dependency order:

- `Outcomes`: `Option`, `Result`, and the two exceptions the code can raise.
- `Random`: the draw oracle.
- `Geometry`: vectors and `setCenter`.
- `Decimal`: `String.valueOf(int)` and its inverse.
- `LifeCounter`: `NumericLifeCounter`.
- `World`: constants, objects, the round state and id ranges.
- `GameManager`: the manager's mutators.
- `Strategies`: the strategy datatype and `CollsionStrategyFactory`.
- `Effects`: `onCollision` of every strategy, with `Double`'s bounded recursion.
- `DoubleStrategy`: what a `Double` hit visibly does, as the plain strategies its draws select, applied in order.
- `BallObject`, `Bricks`, `Hearts`, `Paddles`, `TemporaryPaddleObject`: the game objects.
- `GameLoop`: `update`, the sweeps, the ball-fall transition and the end-of-round check.
- `BrickGrid`: `createBricks`.
- `RoundInvariant`: what a round in play keeps true, and a proof that every rule keeps it.
- `Setup`: the constructor and `initializeGame`.

Where the code departs from what one would expect, the model follows the code:

- Creating a temporary paddle raises the guard twice, to 2.
- The double-strategy counter is reset after every brick of the grid.
  Every brick can therefore be a `Double`.
- A fall of the ball does not switch turbo off. The ball is relaunched at 280 while turbo lasts.
- Turbo expiry sets the velocity to (+200, +200), whatever its direction was.
- Hearts dropped by bricks are never put on the sweep list. The life
  hearts added by `addHeart` are, although they never fall.
- A brick hit twice before it leaves the collection runs its strategy twice.
  The counter drops only once.
- A `Double` draws its two strategies when it is hit, not when it is built.
  It reads the shared counter as it is then.
- The colour of the life counter is not touched at a count of 5 or 0.
  When the fifth life comes back, the counter keeps the green of 4.

## Model

| member | source | states |
|---|---|---|
| Strategies.DrawRange | brick_strategies/CollsionStrategyFactory.java:53-61 | the draw is from 10 values exactly while the counter is below 2, and from 9 afterwards |
| Strategies.SelectMatchesDraws | brick_strategies/CollsionStrategyFactory.java:64-90 | the `if` chain picks each strategy for exactly its draws in the table (0-4 Basic, 5 MoreBalls, 6 AddLife, 7 TempPaddle, 8 Turbo, 9 Double), in both directions |
| Strategies.SelectDefinedExactlyOnRange | brick_strategies/CollsionStrategyFactory.java:62-92 | the `null` initial strategy is overwritten exactly for the draws 0 to 9 |
| Strategies.Build | brick_strategies/CollsionStrategyFactory.java:51-93 | the counter rises by 2 from below 2 and by 1 otherwise, and ends at 2 or more; `Double` is built only from a counter below 2; one draw is consumed, and the strategy is the one its draw selects |
| Strategies.BuildReachable | brick_strategies/CollsionStrategyFactory.java:53-90 | every strategy the range allows is produced by some draw: all six below 2, all but `Double` afterwards |
| Strategies.SecondBuildNeverDouble | brick_strategies/CollsionStrategyFactory.java:53-91 | the counter strictly increases across builds, and the second build of a factory is never a `Double` |
| Random.NextInt | brick_strategies/CollsionStrategyFactory.java:53-61 | `nextInt(bound)` lies in `[0, bound)` and consumes one element of the stream |
| Random.NextIntReachable | brick_strategies/CollsionStrategyFactory.java:53-61 | every value of `[0, bound)` can be drawn |
| Effects.BasicOnCollision | brick_strategies/BasicCollisionStrategy.java:30-33 | no object is added, and nothing else changes |
| Effects.BasicTimesIsIdentity | brick_strategies/BasicCollisionStrategy.java:30-33 | any number of applications equals none, draws included |
| Effects.MoreBallsOnCollision | brick_strategies/MoreBallsCollisionStrategy.java:37-42 | two pucks are appended to the puck list under two fresh ids; lives, bricks, turbo, ball and guard stay unchanged |
| Effects.MoreBallsSpawnsTwo | brick_strategies/MoreBallsCollisionStrategy.java:37-42 | both new pucks have their top-left corner at the other object's centre; the collection grows by exactly those two; turbo, guard and double counter are unchanged |
| Effects.MoreBallsHits | brick_strategies/MoreBallsCollisionStrategy.java:37-42 | `n` hits append exactly `2n` pucks after the old list, with no cap; lives, bricks, turbo and both counters are unchanged |
| Effects.MoreBallsTimes | brick_strategies/MoreBallsCollisionStrategy.java:37-42 | applying the strategy `n` times through the dispatcher is `MoreBallsHits`, and draws nothing |
| Effects.AddLifeOnCollision | brick_strategies/AddLifeCollisionStrategy.java:34-38 | one falling heart under a fresh id, placed at the other object's centre; pucks, turbo, ball and guard unchanged |
| Effects.AddLifeSpawnsOneHeart | main/BrickerGameManager.java:252-258 | exactly one object is added, falling at (0, 100); lives and the sweep list are unchanged, whatever the lives |
| Effects.TempPaddleOnCollision | brick_strategies/TemporaryPaddleCollisionStrategy.java:35-43 | with the guard at 0, one temporary paddle is created and the guard ends at 2; otherwise the round is unchanged |
| Effects.TempPaddleGated | brick_strategies/TemporaryPaddleCollisionStrategy.java:38-41 | the same, through the dispatcher: a nonzero guard changes nothing, not even the generator |
| Effects.TempPaddleTwiceIsOnce | main/BrickerGameManager.java:288-300 | two paddle hits with no removal between them create exactly one paddle |
| Effects.TurboOnCollision | brick_strategies/TurboCollisionStrategy.java:36-45 | off, turbo goes on and the ball's velocity is scaled by 1.4; on, nothing changes; only the flag and the ball can change |
| Effects.TurboSwitchesOnOnce | brick_strategies/TurboCollisionStrategy.java:14-43 | the scaling by 1.4 happens once per off-to-on transition; everything else is unchanged |
| Effects.TurboIdempotent | brick_strategies/TurboCollisionStrategy.java:39-43 | applying it twice equals applying it once |
| Effects.Apply | brick_strategies/CollisionStrategy.java:17 | no strategy touches lives, hearts, bricks or the display; objects are only added, under fresh ids; the guard only goes from 0 to 2; only `Double` draws and moves the counter, by 2 or more, consuming 2 or 4 draws |
| Effects.ApplyDouble | brick_strategies/DoubleBehvaviorCollisionStrategy.java:35-42 | the counter ends at least 2 higher and at 3 or more, and 2 or 4 draws are consumed; the recursion terminates on the counter (what the two applications do is stated by the `DoubleStrategy` rows) |
| DoubleStrategy.DoubleAppliesLeaves | brick_strategies/DoubleBehvaviorCollisionStrategy.java:35-42 | a `Double` hit equals the plain strategies its draws select (read off the draws independently of the factory), applied in order to the same pair; the counter rises by 2 from 2 on, by 3 below 2, and by 5 when the first build was a `Double`; 2 or 4 draws are consumed |
| DoubleStrategy.DoubleAtLimit | brick_strategies/DoubleBehvaviorCollisionStrategy.java:35-42 | from a counter of 2, exactly the two strategies of the next two draws are applied, in order |
| DoubleStrategy.TwoPlain | brick_strategies/DoubleBehvaviorCollisionStrategy.java:35-42 | when the first build is not a `Double`, its strategy and the one of the next draw are applied, in order |
| DoubleStrategy.NestedDouble | brick_strategies/DoubleBehvaviorCollisionStrategy.java:35-42 | when the first build below 2 is a `Double`, the strategies of draws two and three, then four, are applied in order |
| DoubleStrategy.DoubleVisibleEffects | brick_strategies/DoubleBehvaviorCollisionStrategy.java:35-42 | a `Double` hit adds two pucks per `MoreBalls` and one falling heart per `AddLife` it selects, turns turbo on exactly when one was `Turbo` or it was on, and adds one temporary paddle exactly when one was `TempPaddle` and the guard was 0 |
| DoubleStrategy.RunPlainCounts | brick_strategies/DoubleBehvaviorCollisionStrategy.java:35-42 | plain strategies in order append two pucks per `MoreBalls` and hand out ids for them, one per `AddLife` and one for a paddle only when the guard allowed it |
| DoubleStrategy.RunPlainHearts | brick_strategies/DoubleBehvaviorCollisionStrategy.java:35-42 | plain strategies in order leave exactly one falling heart among the new ids per `AddLife` |
| DoubleStrategy.RunPlainFrame | brick_strategies/DoubleBehvaviorCollisionStrategy.java:35-42 | plain strategies in order switch turbo on and speed the ball up once exactly when one was `Turbo` and it was off, set the guard to 2 only from 0 with a `TempPaddle`, keep every old object and leave lives, hearts, bricks and the display alone |
| Effects.DoubleDepthBounded | brick_strategies/DoubleBehvaviorCollisionStrategy.java:39-40 | `Double`s nest at most two deep, and only one deep once the counter is at 2 |
| Effects.DoubleAtLimitIsShallow | brick_strategies/DoubleBehvaviorCollisionStrategy.java:23-40 | a `Double` hit with the counter at 2 or more draws exactly twice, raises the counter by exactly 2, and nests nothing |
| GameManager.Spawn | main/BrickerGameManager.java:266-271 | `addGameObject` under the next id: the collection gains exactly that id, holding the object, keeps every other object, and the next id moves on |
| GameManager.RemoveObject | main/BrickerGameManager.java:187 | `removeGameObject` reports whether the object was present and leaves the rest unchanged |
| GameManager.RemoveBrick | main/BrickerGameManager.java:185-191 | the counter drops by one exactly when the brick was present, and the brick is gone afterwards |
| GameManager.RemoveBrickIdempotent | main/BrickerGameManager.java:185-191 | removing the same brick twice is removing it once: the counter drops at most once |
| GameManager.TurboModeReadsBack | main/BrickerGameManager.java:197-245 | `turboMode` returns what the last of `setTurbo`, `setTurboBall` and `setBallToOriginal` wrote; adding or removing objects leaves it alone |
| GameManager.SetTurbo | main/BrickerGameManager.java:197-210 | `turboMode` reads back what `setTurbo` wrote, and nothing else changes |
| GameManager.RemoveTemporaryPaddle | main/BrickerGameManager.java:216-221 | the paddle leaves, the guard is 0, and nothing else changes |
| GameManager.SetBallToOriginal | main/BrickerGameManager.java:227-232 | turbo is off and the ball moves at (+200, +200) whatever its velocity was; the position is kept |
| GameManager.SetTurboBall | main/BrickerGameManager.java:238-245 | the ball's velocity is scaled by the factor in each component, and turbo is on |
| GameManager.CreateFallenHeart | main/BrickerGameManager.java:252-258 | one falling heart at `position`, moving at (0, 100); the sweep list and lives are unchanged |
| GameManager.CreatePuck | main/BrickerGameManager.java:264-282 | one puck at `position`, under a fresh id, appended to the puck list |
| GameManager.CreateTemporaryPaddle | main/BrickerGameManager.java:288-300 | one temporary paddle centred in the window, and the guard raised by 2 |
| GameManager.RemoveFallenHeart | main/BrickerGameManager.java:306-309 | the heart leaves the collection, and nothing else changes |
| GameManager.AddHeart | main/BrickerGameManager.java:315-329 | below 5 lives, a life heart fills slot `lives` of the array and of the row, lives go up by 1, and the heart joins the sweep list; at 5 nothing changes; a negative count is an index error |
| GameManager.IncText | main/BrickerGameManager.java:338-343 | the counter's text is the decimal of the lives, and its colour is what `updateColor` gives for them |
| LifeCounter.New | gameobjects/NumericLifeCounter.java:30-37 | the text parses back to the initial count, and the colour is left as it was |
| LifeCounter.UpdateText | gameobjects/NumericLifeCounter.java:64-67 | the text parses back to the count, and the colour is kept |
| LifeCounter.UpdateColor | gameobjects/NumericLifeCounter.java:44-58 | 1 gives red, 2 yellow, 3 or 4 green; any other count leaves the display unchanged |
| Decimal.IntToString | gameobjects/NumericLifeCounter.java:66 | `String.valueOf(int)`: non-empty, and starts with `-` exactly for negatives |
| Decimal.IntToStringRoundTrip | gameobjects/NumericLifeCounter.java:66 | parsing the text gives the number back |
| Decimal.IntToStringInjective | gameobjects/NumericLifeCounter.java:66 | different counts give different texts |
| BallObject.TurboTick | gameobjects/Ball.java:77-88 | with turbo off nothing moves; with turbo on the counter rises by exactly 1, and the step that brings it to 6 or more is the one that expires, setting it back to 0 |
| BallObject.MainBallHit | gameobjects/Ball.java:52-61 | every collision adds 1 to the collision counter; with turbo on the turbo counter rises, and at 6 turbo ends with the ball at (+200, +200) and the counter at 0 |
| BallObject.PuckHit | gameobjects/Ball.java:52-88 | a puck counts its own collisions; in turbo its turbo counter rises by 1 and the round is untouched until the counter reaches 6, when it returns to 0 and the primary ball is reset through `setBallToOriginal` |
| BallObject.CollisionCounterCountsHits | gameobjects/Ball.java:52-70 | `getCollisionCounter` has risen by exactly the number of collisions, whatever turbo did in between |
| BallObject.TurboEndsOnSixthCollision | gameobjects/Ball.java:77-88 | turbo that starts at counter `c` lasts exactly `6 - c` collisions; it survives five from 0 and ends on the sixth |
| BallObject.TurboOffKeepsCounter | gameobjects/Ball.java:79 | with turbo off, any number of collisions leaves the turbo counter and the flag alone and counts every collision |
| Bricks.OnCollisionEnter | gameobjects/Brick.java:48-54 | the result is the strategy's round and generator with only the brick taken out of the collection; the counter drops exactly when the brick was still present; lives, hearts and the display are untouched |
| Bricks.SecondHitCountsOnce | gameobjects/Brick.java:52-53 | a second hit on the same brick still runs its strategy, but the counter dropped only on the first |
| Bricks.MoreBallsBrickHitTwice | gameobjects/Brick.java:52-53 | a `MoreBalls` brick hit twice releases four pucks and is counted once |
| Hearts.ShouldCollideWith | gameobjects/Heart.java:55-59 | a heart reacts exactly to the tag "main paddle" |
| Hearts.OnCollisionEnter | gameobjects/Heart.java:38-47 | another tag changes nothing; the main paddle adds a life below 5, removes the heart even at 5, and the counter shows the new lives |
| Hearts.CaughtAtFullLives | gameobjects/Heart.java:43-45 | at 5 lives only the caught heart leaves; the counter's text is rewritten and nothing else changes |
| Hearts.CaughtBelowFullLives | gameobjects/Heart.java:43-45 | below 5, the caught heart is replaced by a life heart in slot `lives`, which joins the sweep list |
| Paddles.MovementDir | gameobjects/Paddle.java:54-72 | left exactly when the left key is held, the paddle is inside the left edge, and no allowed right cancels it; symmetrically for right |
| Paddles.Velocity | gameobjects/Paddle.java:50-75 | the speed is 400 or 0, horizontal only, and points only in a direction its key allows |
| Paddles.StaysInWindow | gameobjects/Paddle.java:57-74 | at an edge the paddle is never driven further out; with no key held, or both keys held and allowed, it stands still |
| Paddles.MainPaddle | main/BrickerGameManager.java:378-391 | the user's paddle is 100 by 20, centred horizontally, with its centre 30 above the bottom |
| TemporaryPaddleObject.Hit | gameobjects/TemporaryPaddle.java:46-58 | each hit uses one of the hits left, which stay within 1 to 4; the hit that reaches 0 removes the paddle, resets the guard and restores 4; any other hit changes nothing in the round |
| TemporaryPaddleObject.RemovedOnFourthHit | gameobjects/TemporaryPaddle.java:16-57 | a fresh paddle survives three hits with the round untouched and is removed by the fourth, with the guard at 0 |
| TemporaryPaddleObject.HitsCycle | gameobjects/TemporaryPaddle.java:52-57 | after `n` hits the hits left are `(k - 1 - n) mod 4 + 1` |
| GameLoop.CleanUpFallenObjects | main/BrickerGameManager.java:521-530 | exactly the listed objects whose centre is below the window leave; every other object stays unchanged |
| GameLoop.CleanUpIdempotent | main/BrickerGameManager.java:521-530 | a second sweep of the same list removes nothing more |
| GameLoop.RelaunchSpeed | main/BrickerGameManager.java:549-558 | 280 in turbo mode, 200 otherwise |
| GameLoop.HandleBallFall | main/BrickerGameManager.java:536-568 | a ball below the window costs exactly one life and the heart in the slot the new count names; the counter shows the new count; the ball is recentred at ±200 (±280 in turbo); turbo is kept; with no life left the array index fails; a ball in the window changes nothing |
| GameLoop.EndVerdict | main/BrickerGameManager.java:573-585 | lost exactly at 0 lives, even with no bricks left; otherwise won exactly with no bricks or W held |
| GameLoop.Restart | main/BrickerGameManager.java:588-594 | turbo off, 5 lives, brick counter rows * columns, guard 0; the double counter, objects and ball are kept |
| Setup.RestartLikeConstructor | main/BrickerGameManager.java:588-594 | a restart puts lives, the brick counter, turbo and the guard back to the values the constructor gives them, and keeps the double counter |
| GameLoop.CheckForGameEnd | main/BrickerGameManager.java:573-599 | while playing nothing changes; otherwise a yes restarts and a no closes with the verdict |
| GameLoop.SweepFallen | main/BrickerGameManager.java:403-405 | the sweeps only remove objects, and only listed ones |
| GameLoop.Update | main/BrickerGameManager.java:399-410 | the sweeps, then the ball fall, then the end check, in that order; it fails exactly when the ball falls with no life left |
| GameLoop.LastLifeLost | main/BrickerGameManager.java:536-578 | a ball lost on the last life loses the round, whatever the bricks or W say |
| GameLoop.WinWithoutFall | main/BrickerGameManager.java:581-585 | with lives left and the ball in the window, the round continues exactly while bricks remain and W is not held |
| BrickGrid.JavaDivRounding | main/BrickerGameManager.java:352-353 | Java's `int` division truncates toward zero: the remainder is smaller than the divisor and has the dividend's sign |
| BrickGrid.JavaDiv | main/BrickerGameManager.java:352-353 | Java's `/` on `int`: the magnitude is the quotient of the magnitudes, and a nonzero quotient is negative exactly when the signs differ |
| BrickGrid.BrickWidth | main/BrickerGameManager.java:352-353 | no columns divides by zero; with room, it is the widest whole width at which `cols` bricks fit the row |
| BrickGrid.RowFitsWindow | main/BrickerGameManager.java:360-363 | bricks start 7 from the left, end at least 6 before the right edge, and lie 2 apart; rows are 2 apart |
| BrickGrid.PlaceBrick | main/BrickerGameManager.java:360-370 | one inner step: the new brick gets the next id, its place and the strategy its single draw selects; the counter is reset to 0; the brick counter is untouched |
| BrickGrid.PlaceRow | main/BrickerGameManager.java:358-371 | the inner loop lays `cols` more bricks in order, keeping the layout facts |
| BrickGrid.CreateBricks | main/BrickerGameManager.java:349-373 | no columns throws; otherwise `rows * cols` bricks in row-major order, each at its place with its own draw's strategy; the counter is 0 once any brick is made |
| BrickGrid.GridAddsBricks | main/BrickerGameManager.java:370 | the grid adds exactly one brick per place to the collection |
| BrickGrid.EveryBrickMayBeDouble | main/BrickerGameManager.java:365-366 | because of the reset, every brick after the first draws from 10 values and may be a `Double` |
| Setup.GridDimensions | main/BrickerGameManager.java:107-118 | two arguments give rows and columns; any other number gives the 7 by 8 grid of 56 bricks |
| Setup.NewRound | main/BrickerGameManager.java:132-139 | the brick counter starts at columns * rows, with 5 lives, turbo off, both counters 0 and nothing in the collection |
| Setup.CreateBall | main/BrickerGameManager.java:416-432 | the ball is centred in the window at ±200 on each axis, with both counters 0 |
| Setup.CreateHearts | main/BrickerGameManager.java:478-491 | a five-slot array holds five new life hearts in order under fresh ids, and nothing else changes |
| Setup.CreateNumeric | main/BrickerGameManager.java:496-513 | the counter shows the lives in green |
| Setup.CreatePaddle | main/BrickerGameManager.java:378-391 | the user's paddle is added under a fresh id, and nothing else changes |
| Setup.InitializeGame | main/BrickerGameManager.java:150-177 | no columns throws; otherwise one brick per grid place, the brick counter rows * columns, 5 lives shown in green, the ball centred, and with rows of 0 or more the round starts valid |
| RoundInvariant.DisplayShowsLives | main/BrickerGameManager.java:338-343 | in a valid round the counter reads back as the lives, red exactly at 1 and yellow exactly at 2 |
| RoundInvariant.HeartsShown | main/BrickerGameManager.java:315-329 | in a valid round the first `lives` slots hold distinct life hearts in the collection |
| RoundInvariant.ValidIgnoresCounter | main/BrickerGameManager.java:365-366 | the shared double counter plays no part in the invariant |
| RoundInvariant.SpawnKeepsValid | main/BrickerGameManager.java:252-282 | adding an object that is neither a brick nor a temporary paddle keeps the invariant |
| RoundInvariant.CreatePuckKeepsValid | main/BrickerGameManager.java:264-282 | creating a puck keeps the invariant |
| RoundInvariant.CreateFallenHeartKeepsValid | main/BrickerGameManager.java:252-258 | creating a falling heart keeps the invariant |
| RoundInvariant.CreateTemporaryPaddleKeepsValid | main/BrickerGameManager.java:288-300 | with the guard at 0, the new paddle is the only one, and the guard at 2 keeps the invariant |
| RoundInvariant.RemoveKeepsValid | main/BrickerGameManager.java:306-309 | removing a falling heart or a puck keeps the invariant |
| RoundInvariant.ApplyKeepsValid | brick_strategies/DoubleBehvaviorCollisionStrategy.java:35-42 | every strategy, `Double` at any nesting included, keeps the invariant: at most one temporary paddle ever |
| RoundInvariant.ApplyDoubleKeepsValid | brick_strategies/DoubleBehvaviorCollisionStrategy.java:35-42 | the two nested applications of a `Double` keep the invariant |
| RoundInvariant.BrickRemovalCount | main/BrickerGameManager.java:187-189 | removing a present brick lowers the number of bricks by one; a missing id lowers nothing |
| RoundInvariant.RemoveBrickKeepsValid | main/BrickerGameManager.java:185-191 | after `removeBrick` the counter still equals the bricks left, also for a brick already gone |
| RoundInvariant.BrickHitKeepsValid | gameobjects/Brick.java:48-54 | a brick hit keeps the invariant |
| RoundInvariant.MainBallHitKeepsValid | gameobjects/Ball.java:52-61 | a collision of the primary ball keeps the invariant |
| RoundInvariant.PuckHitKeepsValid | gameobjects/Ball.java:52-61 | a collision of a puck keeps the invariant |
| RoundInvariant.TempPaddleHitKeepsValid | gameobjects/TemporaryPaddle.java:46-58 | a hit on the temporary paddle keeps the invariant: the guard returns to 0 exactly as the paddle leaves |
| RoundInvariant.AddHeartKeepsObjects | main/BrickerGameManager.java:315-329 | below 5 lives, `addHeart` succeeds and fills the next slot of the heart row |
| RoundInvariant.IncTextShows | main/BrickerGameManager.java:338-343 | refreshing the counter after a life is gained shows the new count in its colour |
| RoundInvariant.CatchKeepsObjects | gameobjects/Heart.java:43-44 | `addHeart` then `removeFallenHeart` keep everything but the counter |
| RoundInvariant.HeartCatchKeepsValid | gameobjects/Heart.java:38-47 | catching a falling heart, or touching it with anything else, keeps the invariant and never fails |
| RoundInvariant.CaughtValid | gameobjects/Heart.java:43-45 | the round after the three calls of a catch is valid |
| RoundInvariant.HeartSweepIsNoOp | main/BrickerGameManager.java:405 | in a valid round the heart sweep removes nothing, because only life hearts are on its list |
| RoundInvariant.PuckSweepKeepsObjects | main/BrickerGameManager.java:404 | the puck sweep removes only pucks |
| RoundInvariant.SweepKeepsValid | main/BrickerGameManager.java:403-405 | both sweeps keep the invariant, and only the puck sweep removes anything |
| RoundInvariant.BallFallKeepsValid | main/BrickerGameManager.java:536-568 | in a valid round a fall never fails, costs exactly one life, and keeps the invariant while a life is left |
| RoundInvariant.UpdateKeepsValid | main/BrickerGameManager.java:399-410 | a frame of a valid round never fails; a round that goes on stays valid; the round is lost exactly when the ball falls on the last life |
| Setup.FinishedRoundValid | main/BrickerGameManager.java:172-174 | the hearts, the counter and the paddle add no brick and no temporary paddle, and leave a valid round |

## Left out

- The danogl engine: moving objects, detecting collisions, and reflecting
  velocities (`Vector2.flipped`). The reflected velocity and the other
  object's centre are inputs of the collision rules.
- Rendering, images, sounds, the background, the borders and layers. Only
  the text and colour of the life counter are modelled.
- The angle of a new puck (`cos`/`sin` of a random angle): not modelled. A puck's position is.
- Floating-point rounding of `float` velocities and positions: the model uses exact reals.
- Java `int` overflow in the brick counter and the grid arithmetic. No
  realistic grid comes near it.
- `Integer.parseInt` of the command-line arguments: `Setup.GridDimensions`
  takes them already parsed.
- `windowController.resetGame()`, which makes the engine run
  `initializeGame` again, and `closeWindow`. Only the field assignments
  that `checkForGameEnd` itself makes are modelled (`GameLoop.Restart`).
  The invariant therefore holds per round, from `Setup.InitializeGame`.
- The primary ball is a field of the round state, not an entry of the
  object collection. Removing it is not something the rules ever do.
- Setup.InitializeGame: with a negative number of rows or columns, the
  brick counter (rows * columns) differs from the bricks laid, so the
  invariant is only stated for rows of 0 or more.
- RoundInvariant.BrickHitKeepsValid: requires the hit brick's id to have
  been handed out. The engine only reports collisions with objects it has,
  and a brick keeps its id after leaving.
- RoundInvariant.HeartCatchKeepsValid: requires the caught heart's id to
  have been handed out, for the same reason, and a heart still in the
  collection to be a falling heart. The life hearts sit in the UI layer
  and never meet the paddle.
- RoundInvariant.TempPaddleHitKeepsValid: requires the paddle to be in the
  collection. A removed paddle receives no more collisions from the engine.
- The constructors of the strategies: they only store the manager. A
  `Double` creates its own factory, which shares the manager's counter.
  Here the counter is passed along.
