/** The wall-clock traffic pool the game scene drives. A new car may appear
    once 2000 ms have passed since the previous one; cars in the two left
    lanes are oncoming and come toward the player at 0.8 per frame, cars
    in the two right lanes drive the same way as the player and recede at
    0.1 per frame. Each frame every car moves and the cars that left the
    window are removed by a backward loop that splices the list in place.
    Loading the models and giving the cars their lights are not modelled;
    a loaded model is represented by its bounding box. */
module Obstacles {
  import opened Geometry
  import opened LaneModel

  const SpawnDistance: real := -100.0
  const DespawnDistance: real := 50.0
  /** Cars further ahead than this are removed too. */
  const FarLimit: real := SpawnDistance - 50.0
  /** Minimum time between two spawns, in milliseconds. */
  const SpawnInterval: int := 2000
  const ForwardLaneSpeed: real := 0.1
  const OncomingLaneSpeed: real := 0.8

  datatype Obstacle = Obstacle(position: Vec3, speed: real, lane: int, isOncoming: bool, model: Box)

  /** The obstacle's world bounding box: an oncoming car is turned half a
      revolution to face the player, a same-direction car is not. */
  function BoundingBox(o: Obstacle): Box {
    Translate(if o.isOncoming then Turned(o.model) else o.model, o.position)
  }

  /** The car a spawn creates: a random lane and model; the lane decides
      the direction and the speed. */
  function NewObstacle(models: seq<Box>, laneDraw: real, modelDraw: real): (o: Obstacle)
    requires |models| > 0
    requires 0.0 <= laneDraw < 1.0 && 0.0 <= modelDraw < 1.0
    ensures ValidLane(o.lane) && o.model in models
    ensures o.position == Vec3(LaneX(o.lane), 0.0, SpawnDistance)
    ensures o.isOncoming <==> o.lane < 2
    ensures o.speed == if o.isOncoming then OncomingLaneSpeed else ForwardLaneSpeed
  {
    var laneIndex := Pick(laneDraw, |Lanes|);
    var model := models[Pick(modelDraw, |models|)];
    var speed := if laneIndex < 2 then OncomingLaneSpeed else ForwardLaneSpeed;
    Obstacle(Vec3(Lanes[laneIndex], 0.0, SpawnDistance), speed, laneIndex, laneIndex < 2, model)
  }

  /** Whether a spawn is due: the pool is loaded, has a model, and at least
      the spawn interval has passed since the last spawn. */
  predicate SpawnDue(isLoaded: bool, modelCount: nat, now: int, lastSpawnTime: int) {
    isLoaded && modelCount != 0 && now - lastSpawnTime >= SpawnInterval
  }

  /** One frame of motion: oncoming cars come toward the player (z grows),
      the others recede (z shrinks). */
  function Moved(o: Obstacle): (r: Obstacle)
    ensures o.isOncoming ==> r.position.z == o.position.z + o.speed
    ensures !o.isOncoming ==> r.position.z == o.position.z - o.speed
    ensures r.position.x == o.position.x && r.position.y == o.position.y
    ensures r.speed == o.speed && r.lane == o.lane && r.isOncoming == o.isOncoming && r.model == o.model
  {
    var z := if o.isOncoming then o.position.z + o.speed else o.position.z - o.speed;
    o.(position := o.position.(z := z))
  }

  /** An obstacle stays while it is neither behind the despawn distance
      nor further ahead than the far limit; both bounds are inclusive. */
  predicate InView(o: Obstacle) {
    !(o.position.z > DespawnDistance || o.position.z < FarLimit)
  }

  /** The survivors of one frame: every obstacle moved, and those out of
      view dropped, the rest in their original order. */
  function Swept(s: seq<Obstacle>): seq<Obstacle> {
    if s == [] then []
    else (if InView(Moved(s[0])) then [Moved(s[0])] else []) + Swept(s[1..])
  }

  /** Exactly the moved obstacles that are in view survive, and the list
      never grows. */
  lemma {:induction false} SweptExactly(s: seq<Obstacle>)
    ensures |Swept(s)| <= |s|
    ensures forall o :: o in Swept(s) ==> InView(o)
    ensures forall k :: 0 <= k < |s| && InView(Moved(s[k])) ==> Moved(s[k]) in Swept(s)
    ensures forall o :: o in Swept(s) ==> exists k :: 0 <= k < |s| && o == Moved(s[k])
  {
    if s != [] {
      SweptExactly(s[1..]);
      forall k | 1 <= k < |s|
        ensures s[k] == s[1..][k - 1]
      {
      }
      forall o | o in Swept(s)
        ensures exists k :: 0 <= k < |s| && o == Moved(s[k])
      {
        if o !in Swept(s[1..]) {
          assert o == Moved(s[0]);
        } else {
          var j :| 0 <= j < |s[1..]| && o == Moved(s[1..][j]);
          assert o == Moved(s[j + 1]);
        }
      }
    }
  }

  /** Sweeping a list made of two parts keeps the survivors of the first
      part ahead of those of the second: the removal keeps relative order. */
  lemma {:induction false} SweptDistributes(a: seq<Obstacle>, b: seq<Obstacle>)
    ensures Swept(a + b) == Swept(a) + Swept(b)
  {
    if a != [] {
      assert (a + b)[0] == a[0];
      assert (a + b)[1..] == a[1..] + b;
      SweptDistributes(a[1..], b);
    } else {
      assert a + b == b;
    }
  }

  /** Unfolding the sweep at position i of a list. */
  lemma SweptAt(s: seq<Obstacle>, i: int)
    requires 0 <= i < |s|
    ensures Swept(s[i..]) == (if InView(Moved(s[i])) then [Moved(s[i])] else []) + Swept(s[i + 1..])
  {
    assert s[i..][0] == s[i];
    assert s[i..][1..] == s[i + 1..];
  }

  /** A car in its lane, with the direction and speed its lane gives it. A
      same-direction car only recedes, so it is never closer than the
      spawn distance. */
  predicate WellFormed(o: Obstacle) {
    ValidLane(o.lane) && o.position.x == LaneX(o.lane) &&
    (o.isOncoming <==> o.lane < 2) &&
    o.speed == (if o.isOncoming then OncomingLaneSpeed else ForwardLaneSpeed) &&
    (!o.isOncoming ==> o.position.z <= SpawnDistance)
  }

  /** Moving keeps a car well formed. */
  lemma MovedWellFormed(o: Obstacle)
    requires WellFormed(o)
    ensures WellFormed(Moved(o))
  {
  }

  /** A same-direction car never reaches a player whose box starts behind
      the spawn distance by more than the car's own front extent. */
  lemma SameDirectionNeverHits(o: Obstacle, playerBox: Box)
    requires WellFormed(o) && !o.isOncoming
    requires SpawnDistance + o.model.max.z < playerBox.min.z
    ensures !Intersects(playerBox, BoundingBox(o))
  {
    SeparatedInZ(BoundingBox(o), playerBox);
  }

  /** One step of the backward removal loop, at index i: the list so far
      is the untouched prefix up to i followed by the survivors of what
      lies after it. Moving the car at i, and splicing it out when it left
      the window, extends the survivors by that car's fate. */
  lemma SpliceStep(pre: seq<Obstacle>, i: int, current: seq<Obstacle>, next: seq<Obstacle>)
    requires 0 <= i < |pre|
    requires current == pre[..i + 1] + Swept(pre[i + 1..])
    requires var moved := Moved(pre[i]);
      next == if InView(moved) then current[i := moved]
              else current[i := moved][..i] + current[i := moved][i + 1..]
    ensures next == pre[..i] + Swept(pre[i..])
  {
    SweptAt(pre, i);
    var moved := Moved(pre[i]);
    assert pre[..i + 1] == pre[..i] + [pre[i]];
    assert current[i := moved] == pre[..i] + [moved] + Swept(pre[i + 1..]);
    if !InView(moved) {
      assert current[i := moved][..i] == pre[..i];
      assert current[i := moved][i + 1..] == Swept(pre[i + 1..]);
    }
  }

  /** Every survivor of a sweep over well-formed cars is well formed and in
      view. */
  lemma SweptValid(s: seq<Obstacle>)
    requires forall o :: o in s ==> WellFormed(o)
    ensures forall o :: o in Swept(s) ==> WellFormed(o) && InView(o)
  {
    SweptExactly(s);
    forall o | o in Swept(s)
      ensures WellFormed(o)
    {
      var k :| 0 <= k < |s| && o == Moved(s[k]);
      assert s[k] in s;
      MovedWellFormed(s[k]);
    }
  }

  /** The player's box meets the box of some obstacle. A missing player
      meets nothing. */
  predicate Collides(playerBox: Option<Box>, obstacles: seq<Obstacle>) {
    playerBox.Some? &&
    exists i :: 0 <= i < |obstacles| && Intersects(playerBox.value, BoundingBox(obstacles[i]))
  }

  class ObstacleSystem {
    var obstacles: seq<Obstacle>
    var carModels: seq<Box>
    var lastSpawnTime: int
    var isLoaded: bool

    ghost predicate Valid()
      reads this
    {
      forall o :: o in obstacles ==> WellFormed(o) && InView(o)
    }

    constructor ()
      ensures Valid()
      ensures obstacles == [] && carModels == [] && lastSpawnTime == 0 && !isLoaded
    {
      obstacles := [];
      carModels := [];
      lastSpawnTime := 0;
      isLoaded := false;
    }

    /** The end of loading: the models (or their fallbacks) are in and the
        pool starts updating. */
    method Init(models: seq<Box>)
      requires Valid()
      modifies this
      ensures Valid()
      ensures carModels == models && isLoaded
      ensures obstacles == old(obstacles) && lastSpawnTime == old(lastSpawnTime)
    {
      carModels := models;
      isLoaded := true;
    }

    /** Appends one new car and records the time, when a spawn is due;
        otherwise does nothing. */
    method SpawnObstacle(now: int, laneDraw: real, modelDraw: real)
      requires Valid()
      requires 0.0 <= laneDraw < 1.0 && 0.0 <= modelDraw < 1.0
      modifies this`obstacles, this`lastSpawnTime
      ensures Valid()
      ensures SpawnDue(isLoaded, |carModels|, now, old(lastSpawnTime)) ==>
        obstacles == old(obstacles) + [NewObstacle(carModels, laneDraw, modelDraw)] &&
        lastSpawnTime == now
      ensures !SpawnDue(isLoaded, |carModels|, now, old(lastSpawnTime)) ==>
        obstacles == old(obstacles) && lastSpawnTime == old(lastSpawnTime)
    {
      if !isLoaded || |carModels| == 0 {
        return;
      }
      var currentTime := now;
      if currentTime - lastSpawnTime < SpawnInterval {
        return;
      }
      var obstacle := NewObstacle(carModels, laneDraw, modelDraw);
      obstacles := obstacles + [obstacle];
      lastSpawnTime := currentTime;
    }

    /** One frame. Nothing happens before loading; afterwards a spawn is
        tried, then the list is walked from its end to its start: each car
        moves, and a car out of view is spliced out where it stands. No
        survivor is skipped and the survivors keep their order. */
    method Update(now: int, laneDraw: real, modelDraw: real)
      requires Valid()
      requires 0.0 <= laneDraw < 1.0 && 0.0 <= modelDraw < 1.0
      modifies this
      ensures Valid()
      ensures !old(isLoaded) ==> unchanged(this)
      ensures carModels == old(carModels) && isLoaded == old(isLoaded)
      ensures old(isLoaded) ==>
        var due := SpawnDue(isLoaded, |carModels|, now, old(lastSpawnTime));
        && obstacles == Swept(old(obstacles) +
                              (if due then [NewObstacle(carModels, laneDraw, modelDraw)] else []))
        && lastSpawnTime == (if due then now else old(lastSpawnTime))
    {
      if !isLoaded {
        return;
      }
      ghost var due := SpawnDue(isLoaded, |carModels|, now, lastSpawnTime);
      SpawnObstacle(now, laneDraw, modelDraw);
      ghost var pre := obstacles;
      assert pre == old(obstacles) +
        (if due then [NewObstacle(carModels, laneDraw, modelDraw)] else []);
      var i := |obstacles|;
      while i > 0
        invariant 0 <= i <= |pre|
        invariant obstacles == pre[..i] + Swept(pre[i..])
        invariant carModels == old(carModels) && isLoaded == old(isLoaded)
        invariant lastSpawnTime == (if due then now else old(lastSpawnTime))
      {
        i := i - 1;
        ghost var current := obstacles;
        var obstacle := obstacles[i];
        var z := obstacle.position.z;
        if obstacle.isOncoming {
          z := z + obstacle.speed;
        } else {
          z := z - obstacle.speed;
        }
        obstacle := obstacle.(position := obstacle.position.(z := z));
        obstacles := obstacles[i := obstacle];
        if obstacle.position.z > DespawnDistance || obstacle.position.z < FarLimit {
          obstacles := obstacles[..i] + obstacles[i + 1..];
        }
        SpliceStep(pre, i, current, obstacles);
      }
      assert pre[..0] == [] && pre[0..] == pre;
      SweptValid(pre);
    }

    /** Whether the player's box meets some car's box; a missing player
        collides with nothing. The cars are scanned in order and the first
        hit ends the scan. */
    method CheckCollision(playerBox: Option<Box>) returns (hit: bool)
      ensures hit <==> (playerBox.Some? &&
        exists i :: 0 <= i < |obstacles| && Intersects(playerBox.value, BoundingBox(obstacles[i])))
    {
      if playerBox.None? {
        return false;
      }
      var box := playerBox.value;
      for i := 0 to |obstacles|
        invariant forall k :: 0 <= k < i ==> !Intersects(box, BoundingBox(obstacles[k]))
      {
        if Intersects(box, BoundingBox(obstacles[i])) {
          return true;
        }
      }
      return false;
    }
  }
}
