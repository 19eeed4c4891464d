/** The game scene: the player controller, the per-frame loop that drives
    the road and the traffic, and the game-over gate. The player's car
    changes lane on discrete left/right presses and glides toward the new
    lane's centre by exponential smoothing; a collision with a traffic car
    ends the game and freezes the world until a restart. Lighting, the sky,
    model loading and the car lights are not modelled. */
module Game {
  import opened Geometry
  import opened LaneModel
  import opened Input
  import opened Road
  import opened Obstacles

  const StartLane: int := 2
  /** The fraction of the remaining distance the car covers per frame. */
  const LaneChangeSpeed: real := 0.1
  /** Below this distance from the target the car snaps onto it. */
  const SnapDistance: real := 0.01

  /** The player's car: its position and its model's bounding box. */
  datatype PlayerCar = PlayerCar(position: Vec3, model: Box)

  function PlayerBox(car: Option<PlayerCar>): Option<Box> {
    match car
    case None => None
    case Some(c) => Some(Translate(c.model, c.position))
  }

  function Abs(x: real): real {
    if x < 0.0 then -x else x
  }

  /** The lane after one frame's input: a left press moves one lane left
      unless already in the leftmost lane, then a right press moves one
      lane right unless already in the rightmost lane. */
  function LaneAfter(lane: int, input: Flags): (r: int)
    requires ValidLane(lane)
    ensures ValidLane(r)
    ensures -1 <= r - lane <= 1
    ensures !input.left && !input.right ==> r == lane
    ensures input.left && !input.right ==> r == if lane > 0 then lane - 1 else lane
    ensures !input.left && input.right ==> r == if lane < LaneCount - 1 then lane + 1 else lane
    ensures input.left && input.right ==> r == if lane == 0 then 1 else lane
  {
    var afterLeft := if input.left && lane > 0 then lane - 1 else lane;
    if input.right && afterLeft < |Lanes| - 1 then afterLeft + 1 else afterLeft
  }

  /** Three left presses from the start lane end in the leftmost lane and
      go no further. */
  lemma LeftPressesStopAtEdge()
    ensures var left := Flags(true, false);
      LaneAfter(LaneAfter(StartLane, left), left) == 0 &&
      LaneAfter(LaneAfter(LaneAfter(StartLane, left), left), left) == 0 &&
      LaneX(0) == -4.5
  {
  }

  /** One frame of smoothing. Further than the snap distance from the
      target, the car covers a tenth of the way: the remaining distance
      becomes nine tenths of what it was, on the same side, so the car
      never overshoots. Within the snap distance it lands on the target. */
  function Smooth(x: real, target: real): (r: real)
    ensures Abs(target - x) > SnapDistance ==> target - r == 0.9 * (target - x)
    ensures Abs(target - x) <= SnapDistance ==> r == target
    ensures x <= target ==> x <= r <= target
    ensures target <= x ==> target <= r <= x
  {
    var diff := target - x;
    if Abs(diff) > SnapDistance then x + diff * LaneChangeSpeed else target
  }

  /** The car's x after n frames of smoothing toward a fixed target. */
  function SmoothAfter(x: real, target: real, n: nat): real {
    if n == 0 then x else Smooth(SmoothAfter(x, target, n - 1), target)
  }

  function Pow(b: real, n: nat): real {
    if n == 0 then 1.0 else b * Pow(b, n - 1)
  }

  /** After n frames the car is at most 0.9^n of its initial distance
      from the target. */
  lemma {:induction false} SmoothConverges(x: real, target: real, n: nat)
    ensures Abs(target - SmoothAfter(x, target, n)) <= Pow(0.9, n) * Abs(target - x)
  {
    if n > 0 {
      SmoothConverges(x, target, n - 1);
      var before := SmoothAfter(x, target, n - 1);
      assert Abs(target - SmoothAfter(x, target, n)) <= 0.9 * Abs(target - before);
    }
  }

  /** Once the geometric bound is within the snap distance, the next frame
      puts the car exactly on the target, and it stays there. */
  lemma {:induction false} SmoothSnaps(x: real, target: real, n: nat, m: nat)
    requires Pow(0.9, n) * Abs(target - x) <= SnapDistance
    requires m > n
    ensures SmoothAfter(x, target, m) == target
  {
    if m == n + 1 {
      SmoothConverges(x, target, n);
    } else {
      SmoothSnaps(x, target, n, m - 1);
    }
  }

  /** The car after one frame of smoothing; no car, nothing moves. */
  function SmoothedCar(car: Option<PlayerCar>, target: real): (r: Option<PlayerCar>)
    ensures r.None? <==> car.None?
    ensures car.Some? ==> r.value.model == car.value.model
    ensures car.Some? ==> r.value.position == car.value.position.(x := Smooth(car.value.position.x, target))
  {
    match car
    case None => None
    case Some(c) => Some(c.(position := c.position.(x := Smooth(c.position.x, target))))
  }

  class GameScene {
    var currentLane: int
    var targetLaneX: real
    var gameOver: bool
    var car: Option<PlayerCar>
    const road: RoadSystem
    const obstacleSystem: ObstacleSystem

    /** The controller's invariant: the lane is a valid index and the target
        is that lane's centre; the subsystems keep theirs. */
    ghost predicate Valid()
      reads this, road, obstacleSystem
    {
      ValidLane(currentLane) && targetLaneX == LaneX(currentLane) &&
      road.Valid() && obstacleSystem.Valid()
    }

    /** A new scene: start lane, not over, no car yet, a fresh road in its
        initial layout and an empty traffic pool that is still loading and
        has never spawned. */
    constructor ()
      ensures Valid()
      ensures currentLane == StartLane && targetLaneX == 1.5 && !gameOver && car == None
      ensures fresh(road) && fresh(obstacleSystem)
      ensures obstacleSystem.obstacles == [] && !obstacleSystem.isLoaded
      ensures obstacleSystem.carModels == [] && obstacleSystem.lastSpawnTime == 0
      ensures road.segments == Layout(NumSegments)
    {
      currentLane := StartLane;
      targetLaneX := Lanes[StartLane];
      gameOver := false;
      car := None;
      road := new RoadSystem();
      obstacleSystem := new ObstacleSystem();
    }

    /** The player's car appears at the target lane's centre, at z = 0, at
        the height its model sits at. */
    method PlaceCar(y: real, model: Box)
      requires Valid()
      modifies this`car
      ensures Valid()
      ensures car == Some(PlayerCar(Vec3(targetLaneX, y, 0.0), model))
    {
      car := Some(PlayerCar(Vec3(targetLaneX, y, 0.0), model));
    }

    /** One frame. A finished game changes nothing. Otherwise the input
        moves the lane, the car glides, the road scrolls, the traffic
        spawns, moves and is swept, and a collision ends the game. */
    method Update(input: Flags, now: int, laneDraw: real, modelDraw: real)
      requires Valid()
      requires 0.0 <= laneDraw < 1.0 && 0.0 <= modelDraw < 1.0
      modifies this, road, obstacleSystem
      ensures Valid()
      ensures old(gameOver) ==> unchanged(this) && unchanged(road) && unchanged(obstacleSystem)
      ensures !old(gameOver) ==> currentLane == LaneAfter(old(currentLane), input)
      ensures !old(gameOver) ==> car == SmoothedCar(old(car), targetLaneX)
      ensures !old(gameOver) ==>
        |road.segments| == |old(road.segments)| &&
        forall i :: 0 <= i < |road.segments| ==> road.segments[i] == Advance(old(road.segments)[i], Road.Speed)
      ensures obstacleSystem.carModels == old(obstacleSystem.carModels)
      ensures obstacleSystem.isLoaded == old(obstacleSystem.isLoaded)
      ensures !old(gameOver) && old(obstacleSystem.isLoaded) ==>
        var due := SpawnDue(true, |old(obstacleSystem.carModels)|, now, old(obstacleSystem.lastSpawnTime));
        && obstacleSystem.obstacles == Swept(old(obstacleSystem.obstacles) +
             (if due then [NewObstacle(old(obstacleSystem.carModels), laneDraw, modelDraw)] else []))
        && obstacleSystem.lastSpawnTime == (if due then now else old(obstacleSystem.lastSpawnTime))
      ensures !old(gameOver) && !old(obstacleSystem.isLoaded) ==>
        obstacleSystem.obstacles == old(obstacleSystem.obstacles) &&
        obstacleSystem.lastSpawnTime == old(obstacleSystem.lastSpawnTime)
      ensures !old(gameOver) ==> (gameOver <==> Collides(PlayerBox(car), obstacleSystem.obstacles))
    {
      if gameOver {
        return;
      }
      HandleInput(input);
      UpdateCarPosition();
      road.Update();
      obstacleSystem.Update(now, laneDraw, modelDraw);
      var hit := obstacleSystem.CheckCollision(PlayerBox(car));
      if hit {
        gameOver := true;
      }
    }

    /** Applies one frame's presses to the lane and retargets the car. */
    method HandleInput(input: Flags)
      requires Valid()
      modifies this`currentLane, this`targetLaneX
      ensures Valid()
      ensures currentLane == LaneAfter(old(currentLane), input)
      ensures targetLaneX == LaneX(currentLane)
    {
      if input.left && currentLane > 0 {
        currentLane := currentLane - 1;
        targetLaneX := Lanes[currentLane];
      }
      if input.right && currentLane < |Lanes| - 1 {
        currentLane := currentLane + 1;
        targetLaneX := Lanes[currentLane];
      }
    }

    /** One frame of smoothing of the car's x toward the target lane. */
    method UpdateCarPosition()
      modifies this`car
      ensures car == SmoothedCar(old(car), targetLaneX)
    {
      if car.Some? {
        var c := car.value;
        var currentX := c.position.x;
        var diff := targetLaneX - currentX;
        if Abs(diff) > SnapDistance {
          c := c.(position := c.position.(x := currentX + diff * LaneChangeSpeed));
        } else {
          c := c.(position := c.position.(x := targetLaneX));
        }
        car := Some(c);
      }
    }

    function IsGameOver(): (over: bool)
      reads this
      ensures over <==> gameOver
    {
      gameOver
    }

    /** Back to the start: the game runs again in the start lane, the car is
        put on that lane's centre at z = 0 at its own height, and the
        traffic and the road are left as they are. */
    method Restart()
      requires Valid()
      modifies this`gameOver, this`currentLane, this`targetLaneX, this`car
      ensures Valid()
      ensures !gameOver && currentLane == StartLane && targetLaneX == 1.5
      ensures old(car).None? ==> car == None
      ensures old(car).Some? ==>
        car == Some(old(car).value.(position := Vec3(1.5, old(car).value.position.y, 0.0)))
      ensures unchanged(road) && unchanged(obstacleSystem)
    {
      gameOver := false;
      currentLane := StartLane;
      targetLaneX := Lanes[currentLane];
      if car.Some? {
        var c := car.value;
        car := Some(c.(position := Vec3(targetLaneX, c.position.y, 0.0)));
      }
    }
  }
}
