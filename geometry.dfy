/** Points and axis-aligned boxes shared by the player, the traffic and the
    obstacles. A box is what the scene graph reports for an object
    (world-space bounds); how it is derived from a mesh is not modelled:
    every car model contributes its local box, already scaled, in the
    model's own frame; a car turned to face the player uses that box turned
    half a revolution (`Turned`), and the world box is the result moved to
    the object's position. */
module Geometry {

  datatype Option<T> = None | Some(value: T)

  datatype Vec3 = Vec3(x: real, y: real, z: real)

  datatype Box = Box(min: Vec3, max: Vec3)

  /** The box `local` placed at position `p`. */
  function Translate(local: Box, p: Vec3): (b: Box)
    ensures b.max.x - b.min.x == local.max.x - local.min.x
    ensures b.max.y - b.min.y == local.max.y - local.min.y
    ensures b.max.z - b.min.z == local.max.z - local.min.z
    ensures b.min.x - p.x == local.min.x && b.min.y - p.y == local.min.y
    ensures b.min.z - p.z == local.min.z && b.max.z - p.z == local.max.z
  {
    Box(Vec3(local.min.x + p.x, local.min.y + p.y, local.min.z + p.z),
        Vec3(local.max.x + p.x, local.max.y + p.y, local.max.z + p.z))
  }

  /** Closed intervals [lo1, hi1] and [lo2, hi2] share a point. */
  predicate Overlap(lo1: real, hi1: real, lo2: real, hi2: real) {
    !(hi2 < lo1 || lo2 > hi1)
  }

  /** Box intersection as the scene graph computes it: the boxes meet on
      every axis; boxes that only touch do intersect. */
  predicate Intersects(a: Box, b: Box) {
    Overlap(a.min.x, a.max.x, b.min.x, b.max.x) &&
    Overlap(a.min.y, a.max.y, b.min.y, b.max.y) &&
    Overlap(a.min.z, a.max.z, b.min.z, b.max.z)
  }

  /** Point p lies inside box b (boundaries included). */
  predicate Contains(b: Box, p: Vec3) {
    b.min.x <= p.x <= b.max.x && b.min.y <= p.y <= b.max.y && b.min.z <= p.z <= b.max.z
  }

  /** The box of a model turned half a revolution about the vertical axis
      through its origin, as a car facing the player is: every point
      (x, y, z) of the model goes to (-x, y, -z), so the box keeps its size
      and height and is mirrored in x and z. */
  function Turned(local: Box): (b: Box)
    ensures b.max.x - b.min.x == local.max.x - local.min.x
    ensures b.max.z - b.min.z == local.max.z - local.min.z
    ensures b.min.y == local.min.y && b.max.y == local.max.y
  {
    Box(Vec3(-local.max.x, local.min.y, -local.max.z), Vec3(-local.min.x, local.max.y, -local.min.z))
  }

  /** Turning maps the model's points exactly onto the turned box, and
      turning twice gives the original box back. */
  lemma TurnedMirrors(local: Box, p: Vec3)
    ensures Contains(local, p) <==> Contains(Turned(local), Vec3(-p.x, p.y, -p.z))
    ensures Turned(Turned(local)) == local
  {
  }

  /** Two boxes whose z ranges are separated never intersect, whatever
      their x and y. */
  lemma SeparatedInZ(a: Box, b: Box)
    requires a.max.z < b.min.z
    ensures !Intersects(a, b) && !Intersects(b, a)
  {
  }
}

/** The fixed lane table: four lanes, indexed 0 to 3 from left to right. */
module LaneModel {

  const Lanes: seq<real> := [-4.5, -1.5, 1.5, 4.5]

  const LaneCount: nat := 4

  predicate ValidLane(lane: int) {
    0 <= lane < LaneCount
  }

  /** The world x coordinate of a lane's centre line. */
  function LaneX(lane: int): (x: real)
    requires ValidLane(lane)
    ensures -4.5 <= x <= 4.5
    ensures lane < 2 <==> x < 0.0
  {
    Lanes[lane]
  }

  /** floor(draw * n) for a draw in [0, 1): an index into a table of n
      entries, as `Math.floor(Math.random() * n)` picks one. */
  function Pick(draw: real, n: nat): (k: nat)
    requires 0.0 <= draw < 1.0 && n > 0
    ensures k < n
  {
    var scaled := draw * n as real;
    assert 0.0 <= scaled < n as real by {
      assert draw * n as real < 1.0 * n as real;
    }
    scaled.Floor
  }
}
