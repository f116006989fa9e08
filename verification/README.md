# Bike level simulation in Dafny

This project models the per-frame simulation of a single-level, top-down bicycle game.
The player pedals by pressing A or D in time with a rotating pedal, steers up and down,
shifts between three gears, and must cover 10000 distance units before a 60-second
countdown runs out while dodging cones, rocks, pedestrians, cars and birds.

The engine's services become explicit inputs of one pure step function over an immutable
state record:

- the frame time `delta`;
- the elapsed level time;
- the held keys and the "just pressed" arrow edges;
- the two drag factors 0.995^dt and 0.6^dt;
- the random draws;
- the ids of the obstacles the engine reports as overlapping the bike.

Modules follow the structure of the scene:

- `Constants`: the tuning values (top speed 150, road band, margins, level duration) and
  `Math.min`/`Math.max`.
- `Gears`: the gear type {1, 2, 3}, the rotation multipliers {1:3, 2:2, 3:1}, arrow-key
  shifting and digit selection.
- `Pedal`: JavaScript's `%` on numbers, the A zone [180, 360) and D zone [0, 180), the A/D
  speed rule, and the pedal rotation.
- `Bike`: the bike record, the input pass, the physics pass and the road clamp.
- `Obstacles`: obstacle kinds as a tagged union, the damage table, per-kind motion, and
  retirement as a sequence filter.
- `Spawner`: the timer schedule for cars and birds, the distance watermark for cones,
  rocks and pedestrians, and the data of a new obstacle.
- `Collisions`: the damage effects of reported overlaps.
- `Level`: the game record, `Step` (the scene update), `Frame` (update, then the overlap
  callbacks), `Run` (consecutive frames) and the invariant `Valid`.
- `LevelProofs`: the invariant and referee theorems.

Ordering and arithmetic details of the frame that the model keeps:

- Input runs before drag within a frame (game.js:586-590), so a correct press accelerates
  and then the drag applies.
- The lateral position advances by the whole lateral velocity, with no dt factor.
- The bike's road clamp happens at the very end of the frame, after the obstacles move.
- The pedal uses `delta / 16 || 1`, so a zero-length frame still turns the pedal by one
  reference frame's worth, while the physics pass uses dt = 0.

## Model

| member | source | states |
|---|---|---|
| Gears.Multiplier | game.js:35 | The gear multipliers are 3, 2 and 1 for gears 1, 2 and 3, i.e. 4 minus the gear |
| Gears.MultiplierDecreasing | game.js:35 | A higher gear has a strictly smaller pedal multiplier |
| Gears.ShiftDown | game.js:741-744 | A Left edge lowers the gear by exactly one, except that gear 1 stays 1 |
| Gears.ShiftUp | game.js:745-748 | A Right edge raises the gear by exactly one, except that gear 3 stays 3 |
| Gears.SelectDirect | game.js:750-759 | Of the digit keys held, the highest one decides the gear; with none held the gear is kept |
| Gears.NextGear | game.js:740-759 | Digits override arrows; Left alone shifts down, Right alone shifts up, both together give 2 from gear 1 and keep gears 2 and 3 |
| Gears.ShiftsUndo | game.js:741-748 | Down-then-up and up-then-down return to the start gear away from the limits; three downshifts reach 1 and three upshifts reach 3 |
| Pedal.Rem360 | game.js:788 | JavaScript `% 360`: a non-negative angle lands in [0, 360) and never grows; an angle strictly between -360 and 360 is unchanged |
| Pedal.Rem360Periodic | game.js:788 | Adding a full turn to a non-negative angle leaves its remainder unchanged |
| Pedal.ExpectedKey | game.js:720-723 | For every non-negative rotation exactly one of the A zone and the D zone contains the angle |
| Pedal.PedalInput | game.js:725-738 | A correct press gives min(speed + 0.1, 150); a wrong press with no correct one gives max(0, speed - 0.05); no press keeps the speed; speed stays in [0, 150] |
| Pedal.BothKeysAccelerate | game.js:725-738 | Holding both A and D always accelerates to min(speed + 0.1, 150) and never brakes |
| Pedal.WrongKeyBrakes | game.js:735-738 | Pressing only the key of the other zone gives max(0, speed - 0.05) |
| Pedal.PedalDt | game.js:787 | The pedal's frame factor is delta / 16 for a positive delta and 1 for a zero delta, so it is always positive |
| Pedal.Advance | game.js:780-787 | The degrees turned in one frame: never negative for a non-negative speed and frame time, and zero exactly when the bike is stopped |
| Pedal.AdvanceNonNegative | game.js:780-787 | The pedal never turns backwards, and it turns by zero exactly when the bike is stopped |
| Pedal.LowerGearTurnsFurther | game.js:780-787 | At equal speed and frame time, a lower gear advances the pedal at least as far as a higher gear |
| Pedal.Rotate | game.js:778-788 | The pedal angle advances by `Advance` and wraps into [0, 360): below a full turn it is the plain sum, between one and two turns the sum minus 360; it always lies in [0, 360), and a stopped bike leaves it unchanged |
| Bike.HandleInput | game.js:701-760 | Up subtracts 2.5 and Down adds 2.5 to the lateral velocity; speed follows the A/D rule and stays in [0, 150]; gear follows the gear keys; position and angle are untouched |
| Bike.Physics | game.js:762-776 | Speed decays by the speed drag, is never negative and never rises; distance grows by speed * dt and never shrinks for dt >= 0; the lateral velocity decays by the lateral drag and y moves by the whole decayed velocity |
| Bike.TurnPedal | game.js:778-790 | Only the pedal angle changes; it becomes `Rotate` of the old angle at the speed after drag and the gear after input, so it stays in [0, 360) and stays put when the bike is stopped |
| Bike.ClampToRoad | game.js:680-688 | The bike ends in [170, 530]; a bike inside is untouched; a bike outside is set to the bound it crossed with zero lateral velocity |
| Bike.ClampIdempotent | game.js:680-688 | Clamping an already clamped bike changes nothing |
| Obstacles.DamageOf | game.js:355-361 | Rocks and cars crash, pedestrians slow heavily, cones and birds slow |
| Obstacles.ClampY | game.js:659-667 | Non-bird obstacles end in [160, 540]; inside values are untouched; outside values go to the crossed bound |
| Obstacles.Cross | game.js:638-648 | A crossing pedestrian moves one unit per reference frame in its direction and becomes stationary exactly when it reaches the opposite edge; a stationary one does not move |
| Obstacles.Move | game.js:618-667 | Cones, rocks and pedestrians take x = bikeX + 150 + (spawnDistance - levelDistance); cars move left by (speed + 5) * dt; birds move by their velocity minus the bike's speed; a pedestrian takes the phase and y of one crossing step, clamped to the band; non-birds stay in the road band; stationary pedestrians never resume crossing |
| Obstacles.Retire | game.js:669-673 | Exactly the obstacles inside [-100, 1300] x [-100, 800] are kept, and their id order is preserved |
| Obstacles.MoveAll | game.js:618-674 | Every survivor is the moved version of an input obstacle and every moved obstacle in view survives; survivors are in view, in the road band unless birds, on the parallax formula, and settled pedestrians stay on their edge |
| Obstacles.StationaryPedestrianStays | game.js:632-649 | A stationary pedestrian keeps its kind and its y on every later frame |
| Obstacles.CrossingPedestrianStops | game.js:638-648 | A crossing pedestrian that reaches the opposite edge becomes stationary on that edge |
| Obstacles.CrossingPedestrianWalks | game.js:638-648 | A crossing pedestrian short of its far edge stays crossing and moves by one unit per reference frame in its direction |
| Obstacles.PassedCarRetired | game.js:628-673 | A car already left of x = -100 is removed on the next frame |
| Obstacles.MoveAllAsWritten | game.js:618-674 | The loop as written: when an obstacle is retired, the next obstacle is kept unmoved for that frame |
| Obstacles.SkippedObstacleFreezes | game.js:669-673 | A car leaving the screen freezes the car behind it in the loop as written, while the intended loop moves that car 15 units |
| Spawner.PickOfThree | game.js:603 | Math.floor(r * 3) of a random draw is an index in {0, 1, 2}, the one whose third of [0, 1) holds the draw |
| Spawner.MovingKind | game.js:602-604 | A timed spawn is a car exactly when the draw is below 1/3 and a bird otherwise |
| Spawner.StationaryKind | game.js:611-613 | A distance spawn is a cone exactly when the draw is below 1/3, a rock exactly when it lies in [1/3, 2/3), and a crossing pedestrian otherwise; the pedestrian heads down exactly when its side draw exceeds 0.5 |
| Spawner.Spawn | game.js:374-428 | A new obstacle sits at x = 1300 with spawnDistance = levelDistance + 950; a pedestrian starts on the edge it crosses from, others in [170, 530) |
| Spawner.SpawnObstacles | game.js:598-615 | Afterwards timer <= threshold and distance - lastStationary <= 1000; a timed spawn resets the timer to 0 with a threshold in [307, 627) and appends a car or bird; a distance spawn appends a cone, rock or pedestrian; every new obstacle starts at x = 1300 with spawnDistance = distance + 950; existing obstacles are kept and new ones get fresh increasing ids |
| Collisions.SlowFactor | game.js:816-820 | Slow multiplies the speed by 0.6, slow-heavy by 0.3, and a crash leaves it alone |
| Collisions.Survivors | game.js:822-826 | Every reported obstacle is removed whatever its damage class, and all others are kept in order |
| Collisions.SpeedAfter | game.js:811-820 | The callbacks' speed updates in list order; by Collisions.SpeedAfterScales the result equals the speed times the product of the hit obstacles' factors |
| Collisions.SpeedAfterScales | game.js:811-820 | Handling the reported hits one after another multiplies the speed by the product of their factors, for every speed |
| Collisions.SlowdownBound | game.js:816-820 | The product of the factors of the reported hits lies in (0, 1] |
| Collisions.SpeedAfterBound | game.js:811-820 | Collision effects never make a non-negative speed negative and never raise it |
| Collisions.Collide | game.js:811-827 | Survivors are exactly the unreported obstacles; the level crashes exactly when a reported obstacle is a rock or car; the new speed is the old speed times the product of the reported obstacles' factors, so it never rises and never turns negative |
| Collisions.NoSlowKeepsSpeed | game.js:811-820 | Without a slow or slow-heavy hit the speed is unchanged |
| Collisions.SlowHitBound | game.js:816-820 | A slow hit leaves at most 0.6 of the speed and a slow-heavy hit at most 0.3 |
| Collisions.SingleHitSpeed | game.js:816-820 | One reported cone or bird leaves 0.6 of any speed, one pedestrian 0.3, one rock or car the speed unchanged; an unreported obstacle changes nothing |
| Level.Remaining | game.js:577-584 | The remaining time is never negative, and it reaches zero exactly when 60000 ms have elapsed |
| Level.Step | game.js:571-699 | A finished level is left unchanged; a timeout fails the level before any input or motion; distance never decreases; otherwise the level completes exactly when the distance reaches 10000 |
| Level.ApplyCollisions | game.js:811-840 | On a running level the reported obstacles vanish and the level fails exactly when one of them crashes; the distance and the spawn bookkeeping are untouched and the speed only shrinks |
| Level.Frame | game.js:571-584 | A finished level is left unchanged by a whole frame, a timeout fails it as is, and the distance never decreases |
| Level.Run | game.js:571-574 | Over consecutive frames the distance never decreases, a finished level stays exactly as it ended, and a level running at the end was running at the start |
| LevelProofs.StartValid | game.js:10-34 | The start state satisfies the invariant |
| LevelProofs.StepPreservesValid | game.js:571-699 | The scene update keeps speed in [0, 150], the pedal angle in [0, 360), the bike in the road band, the spawn bookkeeping bounded and every obstacle well placed |
| LevelProofs.CollisionsPreserveValid | game.js:811-827 | Collision handling keeps the invariant |
| LevelProofs.FramePreservesValid | game.js:571-699 | Every well-formed frame keeps the invariant |
| LevelProofs.RunPreservesValid | game.js:571-699 | Any run of well-formed frames keeps the invariant |
| LevelProofs.RunningFrameOutcome | game.js:577-698 | From a running level a frame completes exactly when not timed out and distance >= 10000, and fails exactly on timeout or, short of the finish, on a crash hit |
| LevelProofs.CrashEndsLevel | game.js:811-840 | A reported rock or car fails a running level whatever the time left and the distance covered, and it is removed |
| LevelProofs.CollisionSpeeds | game.js:811-827 | At speed 100 a cone leaves 60, a pedestrian 30, a rock crashes, and the obstacle is removed |

## Left out

- Drawing, textures and UI text (background, bike and obstacle textures, pedal icon, speed/time/gear/distance strings, banner colours): engine graphics with nothing to verify.
- Scene restart on R (game.js:843-845): a restart is modelled as a fresh `Level.Start`.
- Collision detection itself: the engine's overlap test is an input (`hits`). The bike sprite's position copy before the clamp only affects that test.
- Keyboard polling, `JustDown` and the 100 ms `checkDown` debounce: the keys arrive as booleans.
- `Math.pow` drags: given as factors in (0, 1]. The bird heading's `cos`/`sin` values are given reals; the model does not require vx² + vy² = 9.
- `Math.random`: each draw is a `Unit` value in [0, 1). The extra draw inside `spawnObstacle` that picks from a one-element filtered list always yields that element, so it is not modelled.
- IEEE-754 rounding and NaN: numbers are exact reals, and the `|| 1` fallback is modelled for a zero delta only.
- Removing obstacles inside `forEach` skips the next obstacle's update for that frame (see Findings). The step uses the corrected loop, so every obstacle moves.
- Overlap callbacks that fire after the level has already ended in the same frame: the engine can then call `endLevel` a second time and set both flags. The model applies collisions only while the level is still running.
- Fields that are set but never read: `maxLateralSpeed`, `pedalSpeed`, `pedalAcceleration`, `isAccelerating`, `baseY`, `sidewalkSpeedX`, and the cone/rock `moveSpeed`.
- Level.ApplyCollisions: does nothing once the level has ended. In a frame that times out or reaches the finish, the source still runs the overlap callbacks, which can destroy obstacles, slow the bike and set the second terminal flag.

## Findings

| source | as written | input that shows it | evidently intended | confidence | as-written member | corrected member |
|---|---|---|---|---|---|---|
| game.js:618-673 | `obstacle.destroy()` inside `obstacles.children.entries.forEach` removes the obstacle from the array being iterated, so the next obstacle is skipped that frame | two cars, the first at x = -99 and the second at x = 500, with bike speed 10 and delta 16: the first leaves the screen and the second stays at x = 500 | every live obstacle moves every frame, so the second car ends at x = 485 | medium, not executed (it depends on the engine's group removing a destroyed child from that array at once) | Obstacles.MoveAllAsWritten, Obstacles.SkippedObstacleFreezes | Obstacles.MoveAll |
