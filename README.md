# Drive Till Dawn — a verified model of the frame-stepped simulation

Drive Till Dawn is a browser 3D endless-driving game: the player's car
switches between four lanes to dodge traffic on a road that scrolls forever
under a night sky. This project models, in Dafny, the rules the game
applies once per frame:

- `Game` (src/GameScene.js): the player controller — lane index,
  target x, exponential smoothing of the car's x, the game-over gate that
  freezes the world, and restart.
- `Road` (src/RoadSystem.js): the road tiler — a ring of 6 segments of
  length 50 that scroll by 0.3 per frame and are pushed back by 300 once
  past z = 50.
- `Traffic` (src/TrafficSystem.js): the frame-counting traffic pool —
  spawn interval `max(45 / multiplier, 20)`, an 80 % spawn roll, per-car
  motion, the filter sweep and the collision scan.
- `Obstacles` (src/ObstacleSystem.js): the wall-clock traffic pool the
  scene actually uses — a spawn at most every 2000 ms, direction and speed
  from the lane, signed motion, the backward `splice` removal loop and the
  collision scan.
- `Input` (src/InputHandler.js): the edge-triggered key latch.
- `Geometry` and `LaneModel` (shared): positions, axis-aligned boxes,
  `Intersects`, and the lane table `[-4.5, -1.5, 1.5, 4.5]`.

Positions are `real`, so 0.1, 0.01, 0.3, 0.8 and ±4.5 are exact. The
scene, the road, the two traffic pools and the key handler are Dafny
classes holding the source's state fields (scene-graph handles, loaders and tunables are left out or become module constants). The segments, cars, obstacles, the
player's car and the flag pairs inside them are values: changing one in
place becomes reassigning its slot in the enclosing field. The `for`,
`forEach` and backward `splice` loops stay loops over `seq` fields, and the
`filter` of the frame-counting pool becomes the function `Kept`. The scene and the three world systems each keep a `Valid()`
invariant: the scene's lane is valid and its target is that lane's centre;
the road segments form a ring with no gaps and no overlap; every car of the
frame-counting pool sits on its lane's centre, and that pool has its models
once loaded; every car of the wall-clock pool sits on its lane's centre
with the direction and speed its lane gives it, inside the despawn window.
The key latch has no invariant beyond its four flags. `Math.random()` and `Date.now()`
are method parameters (draws in [0, 1) and an integer time in ms);
`Math.floor(Math.random() * n)` is `LaneModel.Pick`. A car model is
represented only by its bounding box; a car's world box is that box moved
to the car's position, turned half a revolution first for a car that
faces the player.

The despawn bounds are strict comparisons (`z > 50`, `z < -120` or
`z < -150`), so a car exactly at either threshold is kept, not removed.
Restart leaves the traffic as it is.

## Model

| member | source | states |
|---|---|---|
| `LaneModel.Pick` | src/ObstacleSystem.js:82 | `floor(draw * n)` for a draw in [0, 1) is a valid index below n |
| `LaneModel.LaneX` | src/GameScene.js:17 | lane centres lie in [-4.5, 4.5]; exactly lanes 0 and 1 are left of the centre line |
| `Geometry.Translate` | src/ObstacleSystem.js:148-151 | a model's box moved to a position keeps its size, and its lower corner and its z extent are offset by the position |
| `Geometry.Turned` | src/ObstacleSystem.js:93-104 | a half turn about the vertical axis keeps the box's width, length and height |
| `Geometry.TurnedMirrors` | src/ObstacleSystem.js:93-104 | a point is in the model's box iff its half-turned image (−x, y, −z) is in the turned box; two half turns give the box back |
| `Geometry.SeparatedInZ` | src/ObstacleSystem.js:153 | boxes separated along z never intersect |
| `Input.KeyDown` | src/InputHandler.js:26-43 | KeyA/KeyD keydown sets the held flag and arms the press only if the key was not held; other keys change nothing; one key never touches the other's flags |
| `Input.KeyUp` | src/InputHandler.js:45-56 | keyup clears only its key's held flag; presses are untouched; other keys change nothing |
| `Input.Consumed` | src/InputHandler.js:63-65 | reading the input disarms both presses and keeps the held flags |
| `Input.HeldKeyIsNotRearmed` | src/InputHandler.js:28-33 | while KeyA stays held, any mix of auto-repeated keydowns and polls never arms a left press that was not armed |
| `Input.ReleaseThenPressRearms` | src/InputHandler.js:45-50 | keyup followed by keydown arms the press again; the next poll disarms it |
| `Input.LeftEventsKeepRightFlags` | src/InputHandler.js:26-69 | any sequence of key events and polls that never names KeyD keeps the right held flag and never arms a right press; without polls the right press is kept exactly |
| `Input.InputHandler.constructor` | src/InputHandler.js:2-14 | every held and pressed flag starts false |
| `Input.InputHandler.HandleKeyDown` | src/InputHandler.js:26-43 | the handler's new state is `KeyDown` of the old one |
| `Input.InputHandler.HandleKeyUp` | src/InputHandler.js:45-56 | the handler's new state is `KeyUp` of the old one |
| `Input.InputHandler.GetInput` | src/InputHandler.js:58-69 | returns the armed presses as they were and disarms them |
| `Input.GetInputTwice` | src/InputHandler.js:58-69 | a second read straight after the first reports neither press |
| `Road.Advance` | src/RoadSystem.js:91-97 | a segment moves by the speed, minus N·L exactly when the sum passes L; for 0 < speed ≤ N·L it stays in [L − N·L, L] |
| `Road.Wraps` | src/RoadSystem.js:95-97 | one frame sends a segment back by zero or one ring length |
| `Road.Layout` | src/RoadSystem.js:17-19 | the initial layout puts segment i at z = −i·L |
| `Road.LayoutIsRing` | src/RoadSystem.js:17-19 | the initial layout already satisfies the ring invariant, with every segment inside the band |
| `Road.RingHasNoOverlap` | src/RoadSystem.js:91-97 | in the ring two distinct segments are at least one segment length apart: no overlap |
| `Road.SlotGap` | src/RoadSystem.js:17-19 | in the ring two segments are a whole number of tiles apart, at most one ring length |
| `Road.RingIsContiguous` | src/RoadSystem.js:91-97 | in the ring there are no gaps: every segment but the rearmost has another exactly one tile length behind it |
| `Road.AdvanceKeepsRing` | src/RoadSystem.js:90-98 | one frame keeps the ring invariant: every segment is at the same offset modulo N·L and inside the band |
| `Road.AdvanceKeepsSpacing` | src/RoadSystem.js:91-97 | one frame changes the distance between two segments by 0 or ±N·L |
| `Road.RoadSystem.constructor` | src/RoadSystem.js:4-22 | a new road holds exactly the initial layout and satisfies the ring invariant |
| `Road.RoadSystem.CreateRoadSegments` | src/RoadSystem.js:16-23 | pushes N segments, the i-th at z = −i·L, after the existing ones |
| `Road.RoadSystem.Update` | src/RoadSystem.js:90-99 | every segment advances in place; count and order are unchanged; the ring invariant is kept |
| `Traffic.SpawnInterval` | src/TrafficSystem.js:110-113 | the interval is the larger of 45/multiplier and 20, so never below 20 |
| `Traffic.NextTimer` | src/TrafficSystem.js:115-119 | the counter resets to 0 exactly when its increment reaches the interval, and is incremented otherwise |
| `Traffic.EveryFortyFifthFrame` | src/TrafficSystem.js:115-119 | with multiplier 1 the counter is the frame number mod 45 and a spawn attempt happens exactly on every 45th frame |
| `Traffic.NewCar` | src/TrafficSystem.js:127-151 | a new car has a lane in [0, 4), x = lanes[lane], z = −100, one of the models, and speed (0.6 + j)·multiplier with j in [−0.15, 0.15) |
| `Traffic.Spawned` | src/TrafficSystem.js:126-153 | a spawn attempt adds at most one car, and one exactly when the roll is below 0.8 |
| `Traffic.Moved` | src/TrafficSystem.js:161 | a car's z grows by its own speed and nothing else about it changes |
| `Traffic.MovedAll` | src/TrafficSystem.js:159-161 | moving the cars keeps their number |
| `Traffic.KeptExactly` | src/TrafficSystem.js:173-182 | the sweep keeps exactly the cars with −120 ≤ z ≤ 50 and never grows the list |
| `Traffic.KeptDistributes` | src/TrafficSystem.js:173-182 | the sweep keeps the survivors in their original relative order |
| `Traffic.KeptIdempotent` | src/TrafficSystem.js:173-182 | a second sweep straight after the first removes nothing |
| `Traffic.DespawnBoundaries` | src/TrafficSystem.js:174-175 | cars exactly at z = 50 or z = −120 are kept; cars beyond them are removed |
| `Traffic.TrafficSystem.constructor` | src/TrafficSystem.js:4-28 | the pool starts empty, unloaded, with the counter at 0 |
| `Traffic.TrafficSystem.Init` | src/TrafficSystem.js:31-34 | after loading, the six models are in and the pool is loaded |
| `Traffic.TrafficSystem.Update` | src/TrafficSystem.js:106-123 | no-op while unloaded; otherwise the counter steps, a spawn attempt happens when it fires, every car moves and the sweep leaves only cars in view |
| `Traffic.TrafficSystem.SpawnCar` | src/TrafficSystem.js:125-156 | appends what the spawn attempt produces and nothing else |
| `Traffic.TrafficSystem.UpdateCars` | src/TrafficSystem.js:158-170 | every car's z advances in place by its own speed; the count is unchanged |
| `Traffic.TrafficSystem.CleanupCars` | src/TrafficSystem.js:172-183 | the list becomes exactly its cars in view, in order |
| `Traffic.TrafficSystem.CheckCollision` | src/TrafficSystem.js:185-192 | true iff some car's box intersects the player's box |
| `Obstacles.NewObstacle` | src/ObstacleSystem.js:82-111 | a new car has a lane in [0, 4), is oncoming iff lane < 2, has speed 0.8 if oncoming else 0.1, x = lanes[lane] and z = −100 |
| `Obstacles.Moved` | src/ObstacleSystem.js:128-134 | oncoming cars' z grows by their speed, the others' shrinks by it; nothing else changes |
| `Obstacles.SweptExactly` | src/ObstacleSystem.js:125-142 | after the loop exactly the moved cars with −150 ≤ z ≤ 50 remain, and the list never grows |
| `Obstacles.SweptDistributes` | src/ObstacleSystem.js:125-142 | the removal keeps the survivors in their original relative order |
| `Obstacles.SweptAt` | src/ObstacleSystem.js:125-142 | the survivors from index i are the fate of the car at i followed by the survivors after it |
| `Obstacles.SpliceStep` | src/ObstacleSystem.js:125-141 | one backward iteration — move, then `splice` if out of view — extends the processed suffix by exactly that car's fate and leaves the prefix untouched |
| `Obstacles.SweptValid` | src/ObstacleSystem.js:125-142 | every survivor is in view and keeps its lane, direction and speed |
| `Obstacles.MovedWellFormed` | src/ObstacleSystem.js:128-134 | moving keeps a car on its lane with its direction and speed, and a same-direction car never closer than z = −100 |
| `Obstacles.SameDirectionNeverHits` | src/ObstacleSystem.js:132-133 | a same-direction car, which only recedes, never intersects a player whose box starts behind its reach |
| `Obstacles.ObstacleSystem.constructor` | src/ObstacleSystem.js:4-24 | the pool starts empty, unloaded, with last spawn time 0 |
| `Obstacles.ObstacleSystem.Init` | src/ObstacleSystem.js:26-30 | after loading, the models are in and the pool is loaded |
| `Obstacles.ObstacleSystem.SpawnObstacle` | src/ObstacleSystem.js:75-116 | when loaded, with models, and at least 2000 ms after the last spawn: appends exactly one new car and records the time; otherwise nothing changes |
| `Obstacles.ObstacleSystem.Update` | src/ObstacleSystem.js:118-143 | no-op while unloaded; otherwise the list becomes the sweep of the old list plus the spawned car: no survivor skipped, order kept, all in view |
| `Obstacles.ObstacleSystem.CheckCollision` | src/ObstacleSystem.js:145-160 | false for a missing player; otherwise true iff some car's box intersects the player's box |
| `Game.LaneAfter` | src/GameScene.js:216-226 | the lane stays in [0, 3] and moves by at most 1; left only when above 0, right only when below 3; left and right together leave it unchanged except from lane 0, where it ends at 1 |
| `Game.LeftPressesStopAtEdge` | src/GameScene.js:217-219 | from lane 2, two left presses reach lane 0 (x = −4.5) and a third stays there |
| `Game.Smooth` | src/GameScene.js:231-238 | further than 0.01 from the target the remaining distance becomes 0.9 of itself on the same side (no overshoot); otherwise x becomes exactly the target |
| `Game.SmoothConverges` | src/GameScene.js:234-235 | after n frames the distance to the target is at most 0.9^n of the initial one |
| `Game.SmoothSnaps` | src/GameScene.js:234-238 | once that bound is within 0.01 the car is exactly on the target from the next frame on |
| `Game.SmoothedCar` | src/GameScene.js:228-240 | with no car nothing happens; otherwise only the car's x changes, by one smoothing step |
| `Game.GameScene.constructor` | src/GameScene.js:16-40 | the scene starts in lane 2 with target 1.5, not over, with no car; the road holds the initial layout (segment i at z = −i·L) and is a ring; the pool is empty, unloaded, without models and with last spawn time 0 |
| `Game.GameScene.PlaceCar` | src/GameScene.js:102 | the car appears at the target lane's centre at z = 0 |
| `Game.GameScene.Update` | src/GameScene.js:193-214 | when over, nothing changes at all; otherwise the lane and the car step as `LaneAfter` and `SmoothedCar` say, every road segment advances, and the loaded pool's cars become the sweep of the old cars plus the car a due spawn adds, with the spawn time recorded when due; the pool's models and loaded flag never change; the game is over exactly when the player's box meets a car |
| `Game.GameScene.HandleInput` | src/GameScene.js:216-226 | the lane becomes `LaneAfter` of the old lane and the target stays equal to `lanes[currentLane]` |
| `Game.GameScene.UpdateCarPosition` | src/GameScene.js:228-240 | the car becomes its smoothed self |
| `Game.GameScene.IsGameOver` | src/GameScene.js:242-244 | reports the game-over flag |
| `Game.GameScene.Restart` | src/GameScene.js:246-254 | the game runs again in lane 2 with target 1.5, the car at x = 1.5, z = 0 and its own y; road and traffic are untouched |

## Left out

- src/SkySystem.js and src/main.js: the sky decoration, renderer, camera,
  bloom and animation-frame plumbing are presentation, with no rules.
- Model loading (`loadCar`, `loadCarModels`, `createFallbackCar`), materials,
  `addCarLights`, `removeCarLights`, `setupLighting` and the road geometry
  (`createRoadSegment`, `addLaneLines`, `addDashedLine`): scene construction
  through the 3D library. A loaded model is only its bounding box; `Init`
  stands for the end of loading.
- How the 3D library computes an object's bounding box
  (`Box3.setFromObject`): a model's box is given scaled, in the model's
  own frame; the only turn any car gets, half a revolution about the
  vertical axis, is applied to that box exactly (`Geometry.Turned`). The
  measured object includes whatever the scene attaches to a car (the glow
  spheres of `addCarLights`, src/GameScene.js:138-144 and 167-173), so a
  model's box is taken to include those attachments already.
- The vertical bobbing of traffic cars (src/TrafficSystem.js:166-168): a
  cosmetic sine of the clock; cars keep y = 0.
- Keyboard listener registration (src/InputHandler.js:16-24) and
  `preventDefault` (src/InputHandler.js:33, 40, 49 and 53): browser
  plumbing.
- Object identity of segments, cars, obstacles, the player's car and the
  flag pairs: each is a value stored in its owner's field, so aliasing of
  these objects (no core behaviour depends on it) is not captured.
- Floating-point rounding: positions and speeds are exact reals.
- Traffic.SpawnInterval: requires a positive multiplier; the source would
  divide by zero or by a negative number, which its callers never pass.
- Traffic.TrafficSystem.SpawnCar: requires at least one loaded model; the
  source would index an empty model list and fail, which cannot happen
  after loading, since loading always yields six models.
- Obstacles.SameDirectionNeverHits: states only the geometric separation
  for a given player box; it is not tied to the player's actual position.
- The score and a restart that clears the traffic: this version of the
  game has neither.
