/** The frame-counting traffic pool: every car comes toward the player. A
    spawn attempt happens every `SpawnInterval` frames, each car moves by
    its own speed every frame, and cars that left the window between the
    spawn point and the player are dropped. Loading the car models, their
    materials and lights, and the small vertical bobbing of each car are
    not modelled; a loaded model is represented by its bounding box. */
module Traffic {
  import opened Geometry
  import opened LaneModel

  const SpawnDistance: real := -100.0
  const DespawnDistance: real := 50.0
  /** Cars further ahead than this are dropped too. */
  const FarLimit: real := SpawnDistance - 20.0
  const BaseSpawnInterval: real := 45.0
  const MinSpawnInterval: real := 20.0
  const BaseOncomingSpeed: real := 0.6
  /** The probability that a spawn attempt produces a car. */
  const SpawnChance: real := 0.8
  /** The number of car models the loader always delivers (a model that
      fails to load is replaced by a fallback box). */
  const ModelCount: nat := 6

  datatype Car = Car(position: Vec3, speed: real, lane: int, model: Box)

  /** The car's world bounding box: every traffic car is turned half a
      revolution to face the player. */
  function BoundingBox(c: Car): Box {
    Translate(Turned(c.model), c.position)
  }

  /** The four random numbers one spawn attempt draws, each in [0, 1):
      the spawn roll, the lane, the model and the speed jitter. */
  datatype Draws = Draws(chance: real, lane: real, model: real, jitter: real)

  predicate ValidDraws(d: Draws) {
    0.0 <= d.chance < 1.0 && 0.0 <= d.lane < 1.0 &&
    0.0 <= d.model < 1.0 && 0.0 <= d.jitter < 1.0
  }

  /** Frames between spawn attempts: the base interval shortened by the
      speed multiplier, but never below the floor. */
  function SpawnInterval(speedMultiplier: real): (r: real)
    requires speedMultiplier > 0.0
    ensures r >= MinSpawnInterval && r >= BaseSpawnInterval / speedMultiplier
    ensures r == MinSpawnInterval || r == BaseSpawnInterval / speedMultiplier
  {
    var scaled := BaseSpawnInterval / speedMultiplier;
    if scaled >= MinSpawnInterval then scaled else MinSpawnInterval
  }

  /** Whether a frame that starts with the counter at `timer` makes a spawn
      attempt: the counter is incremented first, then compared. */
  predicate Fires(timer: nat, interval: real) {
    (timer + 1) as real >= interval
  }

  /** The counter at the end of that frame. */
  function NextTimer(timer: nat, interval: real): (r: nat)
    ensures Fires(timer, interval) <==> r == 0
    ensures !Fires(timer, interval) ==> r == timer + 1
  {
    if Fires(timer, interval) then 0 else timer + 1
  }

  /** The counter after n loaded frames from a fresh start. */
  function TimerAfter(n: nat, interval: real): nat {
    if n == 0 then 0 else NextTimer(TimerAfter(n - 1, interval), interval)
  }

  /** With multiplier 1 the interval is 45 frames: the counter is the frame
      number modulo 45, and frame n (counting from 1) makes a spawn
      attempt exactly when n is a multiple of 45. */
  lemma {:induction false} EveryFortyFifthFrame(n: nat)
    requires n >= 1
    ensures SpawnInterval(1.0) == 45.0
    ensures TimerAfter(n, 45.0) == n % 45
    ensures Fires(TimerAfter(n - 1, 45.0), 45.0) <==> n % 45 == 0
  {
    if n > 1 {
      EveryFortyFifthFrame(n - 1);
    }
  }

  /** The car produced by a successful spawn attempt: a random lane, at the
      lane's centre and the spawn distance, with speed (0.6 + j) times the
      multiplier for a jitter j in [-0.15, 0.15). */
  function NewCar(models: seq<Box>, speedMultiplier: real, d: Draws): (c: Car)
    requires |models| > 0 && ValidDraws(d) && speedMultiplier > 0.0
    ensures ValidLane(c.lane) && c.position == Vec3(LaneX(c.lane), 0.0, SpawnDistance)
    ensures c.model in models
    ensures 0.45 * speedMultiplier <= c.speed < 0.75 * speedMultiplier
  {
    var lane := Pick(d.lane, LaneCount);
    var model := models[Pick(d.model, |models|)];
    var baseSpeed := BaseOncomingSpeed + (d.jitter * 0.3 - 0.15);
    assert 0.45 <= baseSpeed < 0.75;
    assert 0.45 * speedMultiplier <= baseSpeed * speedMultiplier < 0.75 * speedMultiplier;
    Car(Vec3(Lanes[lane], 0.0, SpawnDistance), baseSpeed * speedMultiplier, lane, model)
  }

  /** What a spawn attempt adds: one new car with probability 0.8. */
  function Spawned(models: seq<Box>, speedMultiplier: real, d: Draws): (r: seq<Car>)
    requires |models| > 0 && ValidDraws(d) && speedMultiplier > 0.0
    ensures |r| <= 1
    ensures |r| == 1 <==> d.chance < SpawnChance
  {
    if d.chance < SpawnChance then [NewCar(models, speedMultiplier, d)] else []
  }

  /** One frame of motion for one car. */
  function Moved(c: Car): (r: Car)
    ensures r.position.z == c.position.z + c.speed
    ensures r.position.x == c.position.x && r.position.y == c.position.y
    ensures r.speed == c.speed && r.lane == c.lane && r.model == c.model
  {
    c.(position := c.position.(z := c.position.z + c.speed))
  }

  function MovedAll(s: seq<Car>): (r: seq<Car>)
    ensures |r| == |s|
  {
    seq(|s|, i requires 0 <= i < |s| => Moved(s[i]))
  }

  /** A car is kept while it is neither behind the despawn distance nor
      further ahead than the far limit; both bounds are inclusive. */
  predicate InView(c: Car) {
    !(c.position.z > DespawnDistance || c.position.z < FarLimit)
  }

  /** The cars the sweep keeps, in their original order. */
  function Kept(s: seq<Car>): seq<Car> {
    if s == [] then []
    else if InView(s[0]) then [s[0]] + Kept(s[1..])
    else Kept(s[1..])
  }

  /** The sweep keeps exactly the cars in view and never grows the list. */
  lemma {:induction false} KeptExactly(s: seq<Car>)
    ensures |Kept(s)| <= |s|
    ensures forall c :: c in Kept(s) <==> c in s && InView(c)
  {
    if s != [] {
      KeptExactly(s[1..]);
      assert s == [s[0]] + s[1..];
    }
  }

  /** Sweeping a list made of two parts keeps the survivors of the first
      part ahead of those of the second: the sweep keeps relative order. */
  lemma {:induction false} KeptDistributes(a: seq<Car>, b: seq<Car>)
    ensures Kept(a + b) == Kept(a) + Kept(b)
  {
    if a != [] {
      assert (a + b)[1..] == a[1..] + b;
      KeptDistributes(a[1..], b);
    } else {
      assert a + b == b;
    }
  }

  /** A second sweep right after the first removes nothing. */
  lemma {:induction false} KeptIdempotent(s: seq<Car>)
    ensures Kept(Kept(s)) == Kept(s)
  {
    if s != [] {
      KeptIdempotent(s[1..]);
      if InView(s[0]) {
        assert Kept(s) == [s[0]] + Kept(s[1..]);
        assert ([s[0]] + Kept(s[1..]))[1..] == Kept(s[1..]);
      }
    }
  }

  /** The boundaries: a car exactly at either limit stays. */
  lemma DespawnBoundaries(c: Car)
    ensures c.position.z == DespawnDistance ==> InView(c)
    ensures c.position.z == FarLimit ==> InView(c)
    ensures c.position.z > DespawnDistance ==> !InView(c)
    ensures c.position.z < FarLimit ==> !InView(c)
  {
  }

  /** A car sits on the centre of the lane it was spawned in. */
  predicate WellFormed(c: Car) {
    ValidLane(c.lane) && c.position.x == LaneX(c.lane)
  }

  class TrafficSystem {
    var cars: seq<Car>
    var carModels: seq<Box>
    var spawnTimer: nat
    var isLoaded: bool

    ghost predicate Valid()
      reads this
    {
      (isLoaded ==> |carModels| > 0) &&
      forall c :: c in cars ==> WellFormed(c)
    }

    constructor ()
      ensures Valid()
      ensures cars == [] && carModels == [] && spawnTimer == 0 && !isLoaded
    {
      cars := [];
      carModels := [];
      spawnTimer := 0;
      isLoaded := false;
    }

    /** The end of loading: the six models (or their fallbacks) are in and
        the pool starts updating. */
    method Init(models: seq<Box>)
      requires Valid()
      requires |models| == ModelCount
      modifies this
      ensures Valid()
      ensures carModels == models && isLoaded
      ensures cars == old(cars) && spawnTimer == old(spawnTimer)
    {
      carModels := models;
      isLoaded := true;
    }

    /** One frame. Nothing happens before loading; afterwards the counter
        advances, a spawn attempt is made when it reaches the interval (and
        the counter is reset), then every car moves and the sweep runs. */
    method Update(speedMultiplier: real, d: Draws)
      requires Valid()
      requires speedMultiplier > 0.0 && ValidDraws(d)
      modifies this
      ensures Valid()
      ensures !old(isLoaded) ==> unchanged(this)
      ensures carModels == old(carModels) && isLoaded == old(isLoaded)
      ensures old(isLoaded) ==>
        var fired := Fires(old(spawnTimer), SpawnInterval(speedMultiplier));
        && spawnTimer == NextTimer(old(spawnTimer), SpawnInterval(speedMultiplier))
        && cars == Kept(MovedAll(old(cars) +
                   (if fired then Spawned(carModels, speedMultiplier, d) else [])))
      ensures old(isLoaded) ==> forall c :: c in cars ==> InView(c)
    {
      if !isLoaded {
        return;
      }
      ghost var fired := Fires(spawnTimer, SpawnInterval(speedMultiplier));
      ghost var pre := cars;
      var currentSpawnInterval := SpawnInterval(speedMultiplier);
      spawnTimer := spawnTimer + 1;
      if spawnTimer as real >= currentSpawnInterval {
        SpawnCar(speedMultiplier, d);
        spawnTimer := 0;
      } else {
        assert pre + [] == pre;
      }
      assert cars == pre + (if fired then Spawned(carModels, speedMultiplier, d) else []);
      UpdateCars();
      CleanupCars();
    }

    /** A spawn attempt: appends one new car when the roll is below 0.8,
        and nothing otherwise. */
    method SpawnCar(speedMultiplier: real, d: Draws)
      requires Valid() && |carModels| > 0
      requires speedMultiplier > 0.0 && ValidDraws(d)
      modifies this`cars
      ensures Valid()
      ensures cars == old(cars) + Spawned(carModels, speedMultiplier, d)
    {
      if d.chance < SpawnChance {
        var car := NewCar(carModels, speedMultiplier, d);
        cars := cars + [car];
      }
    }

    /** Every car moves by its own speed; the list keeps its length. */
    method UpdateCars()
      requires Valid()
      modifies this`cars
      ensures Valid()
      ensures cars == MovedAll(old(cars))
    {
      ghost var before := cars;
      for i := 0 to |cars|
        invariant |cars| == |before|
        invariant forall k :: 0 <= k < i ==> cars[k] == Moved(before[k])
        invariant forall k :: i <= k < |cars| ==> cars[k] == before[k]
      {
        var car := cars[i];
        cars := cars[i := car.(position := car.position.(z := car.position.z + car.speed))];
      }
      forall c | c in cars
        ensures WellFormed(c)
      {
        var k :| 0 <= k < |cars| && cars[k] == c;
        assert before[k] in before;
      }
    }

    /** The despawn sweep: the list is replaced by its cars in view. */
    method CleanupCars()
      requires Valid()
      modifies this`cars
      ensures Valid()
      ensures cars == Kept(old(cars))
      ensures forall c :: c in cars ==> InView(c)
    {
      KeptExactly(cars);
      cars := Kept(cars);
    }

    /** Whether the player's box meets some car's box; the cars are
        scanned in order and the first hit ends the scan. */
    method CheckCollision(playerBox: Box) returns (hit: bool)
      ensures hit <==> exists i :: 0 <= i < |cars| && Intersects(playerBox, BoundingBox(cars[i]))
    {
      for i := 0 to |cars|
        invariant forall k :: 0 <= k < i ==> !Intersects(playerBox, BoundingBox(cars[k]))
      {
        if Intersects(playerBox, BoundingBox(cars[i])) {
          return true;
        }
      }
      return false;
    }
  }
}
