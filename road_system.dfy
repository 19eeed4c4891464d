/** The road tiler: a fixed ring of road segments that scroll toward the
    player and are sent back to the far end once they pass behind, so a
    finite number of tiles looks like an endless road. A segment is
    represented by the z coordinate of its centre; its geometry (surface,
    centre line, dashed lane lines) is not modelled. */
module Road {

  const SegmentLength: real := 50.0
  const NumSegments: nat := 6
  /** Distance the road scrolls per frame. */
  const Speed: real := 0.3

  /** The length of the whole ring, N·L. */
  const Span: real := NumSegments as real * SegmentLength

  /** The band every segment stays in: from one ring length behind the
      recycling threshold up to that threshold. */
  predicate InBand(z: real) {
    SegmentLength - Span <= z <= SegmentLength
  }

  /** Where one segment goes in one frame: forward by `speed`, and back by
      the ring length if that took it past the threshold. */
  function Advance(z: real, speed: real): (r: real)
    ensures r == z + speed || r == z + speed - Span
    ensures (r == z + speed - Span) <==> z + speed > SegmentLength
    ensures InBand(z) && 0.0 < speed <= Span ==> InBand(r)
  {
    if z + speed > SegmentLength then z + speed - Span else z + speed
  }

  /** How many ring lengths a segment is sent back by in one frame. */
  function Wraps(z: real, speed: real): (w: int)
    ensures Advance(z, speed) == z + speed - w as real * Span
    ensures w == 0 || w == 1
  {
    if z + speed > SegmentLength then 1 else 0
  }

  /** The initial layout: segment i at z = -i·L. */
  function Layout(n: nat): (zs: seq<real>)
    ensures |zs| == n
    ensures forall i :: 0 <= i < n ==> zs[i] == -(i as real) * SegmentLength
  {
    seq(n, i requires 0 <= i => -(i as real) * SegmentLength)
  }

  /** The ring invariant. Segment i sits at `travelled - slot·L`, where its
      slot is i plus a whole number of ring lengths (6 slots per ring),
      and every segment is inside the band. */
  ghost predicate Ring(zs: seq<real>, travelled: real, laps: seq<int>) {
    |zs| == NumSegments && |laps| == NumSegments &&
    (forall i :: 0 <= i < |zs| ==>
      zs[i] == travelled - (i + NumSegments * laps[i]) as real * SegmentLength) &&
    (forall i :: 0 <= i < |zs| ==> InBand(zs[i]))
  }

  /** The initial layout is a ring: nothing scrolled yet, nothing sent back. */
  lemma LayoutIsRing()
    ensures Ring(Layout(NumSegments), 0.0, seq(NumSegments, i => 0))
  {
    var zs := Layout(NumSegments);
    var laps: seq<int> := seq(NumSegments, i => 0);
    forall i | 0 <= i < NumSegments
      ensures zs[i] == 0.0 - (i + NumSegments * laps[i]) as real * SegmentLength
      ensures InBand(zs[i])
    {
      assert laps[i] == 0;
      assert 0.0 <= i as real <= 5.0;
    }
  }

  /** A whole number of tile lengths is either zero or at least a tile
      length in size. */
  lemma WholeTiles(m: int)
    ensures m != 0 ==> m as real * SegmentLength >= SegmentLength || m as real * SegmentLength <= -SegmentLength
  {
    if m > 0 {
      assert m as real >= 1.0;
    } else if m < 0 {
      assert m as real <= -1.0;
    }
  }

  /** In the ring no two segments overlap: the centres of two distinct
      segments are at least one tile length apart. */
  lemma RingHasNoOverlap(zs: seq<real>, travelled: real, laps: seq<int>, i: int, j: int)
    requires Ring(zs, travelled, laps)
    requires 0 <= i < NumSegments && 0 <= j < NumSegments && i != j
    ensures zs[i] - zs[j] >= SegmentLength || zs[j] - zs[i] >= SegmentLength
  {
    var m := (j + NumSegments * laps[j]) - (i + NumSegments * laps[i]);
    assert m != 0 by {
      if laps[i] == laps[j] {
        assert m == j - i;
      } else {
        assert m == (j - i) + NumSegments * (laps[j] - laps[i]);
        assert laps[j] - laps[i] >= 1 || laps[j] - laps[i] <= -1;
      }
    }
    assert zs[i] - zs[j] == m as real * SegmentLength;
    WholeTiles(m);
  }

  /** The slot of segment i: its position counted in tile lengths back
      from the distance travelled. */
  function Slot(laps: seq<int>, i: int): int
    requires 0 <= i < |laps|
  {
    i + NumSegments * laps[i]
  }

  /** In the ring the distance between two segments is a whole number of
      tiles, at most one ring length. */
  lemma SlotGap(zs: seq<real>, travelled: real, laps: seq<int>, a: int, b: int)
    requires Ring(zs, travelled, laps)
    requires 0 <= a < NumSegments && 0 <= b < NumSegments
    ensures zs[a] - zs[b] == (Slot(laps, b) - Slot(laps, a)) as real * SegmentLength
    ensures -(NumSegments as int) <= Slot(laps, b) - Slot(laps, a) <= NumSegments
  {
    var d := Slot(laps, b) - Slot(laps, a);
    assert zs[a] - zs[b] == d as real * SegmentLength;
    assert -Span <= zs[a] - zs[b] <= Span;
  }

  /** In the ring there are no gaps: every segment except the rearmost one
      has another segment exactly one tile length behind it. */
  lemma RingIsContiguous(zs: seq<real>, travelled: real, laps: seq<int>, i: int)
    requires Ring(zs, travelled, laps)
    requires 0 <= i < NumSegments
    ensures (forall k :: 0 <= k < NumSegments ==> zs[i] <= zs[k]) ||
            exists j :: 0 <= j < NumSegments && zs[j] == zs[i] - SegmentLength
  {
    if k :| 0 <= k < NumSegments && zs[k] < zs[i] {
      var j := (i + 1) % NumSegments;
      SlotGap(zs, travelled, laps, i, j);
      SlotGap(zs, travelled, laps, i, k);
      SlotGap(zs, travelled, laps, j, k);
      var d := Slot(laps, j) - Slot(laps, i);
      assert d == 1 || d == 1 - NumSegments by {
        if i + 1 < NumSegments {
          assert d == 1 + NumSegments * (laps[j] - laps[i]);
        } else {
          assert d == 1 - NumSegments + NumSegments * (laps[j] - laps[i]);
        }
      }
      if d == 1 {
        assert zs[j] == zs[i] - SegmentLength;
      } else {
        // j would be five tiles ahead of i and k behind it, at most one
        // ring length from j: k would share j's slot modulo the ring.
        assert false;
      }
    }
  }

  /** One frame of scrolling keeps the ring invariant: every segment moves
      by the same distance up to a whole ring length. */
  lemma AdvanceKeepsRing(zs: seq<real>, travelled: real, laps: seq<int>, speed: real)
    requires Ring(zs, travelled, laps)
    requires 0.0 < speed <= Span
    ensures Ring(seq(|zs|, i requires 0 <= i < |zs| => Advance(zs[i], speed)),
                 travelled + speed,
                 seq(|laps|, i requires 0 <= i < |laps| => laps[i] + Wraps(zs[i], speed)))
  {
    var zs' := seq(|zs|, i requires 0 <= i < |zs| => Advance(zs[i], speed));
    var laps' := seq(|laps|, i requires 0 <= i < |laps| => laps[i] + Wraps(zs[i], speed));
    forall i | 0 <= i < |zs'|
      ensures zs'[i] == travelled + speed - (i + NumSegments * laps'[i]) as real * SegmentLength
    {
      var w := Wraps(zs[i], speed);
      assert zs'[i] == zs[i] + speed - w as real * Span;
      assert (i + NumSegments * laps'[i]) as real * SegmentLength
          == (i + NumSegments * laps[i]) as real * SegmentLength + w as real * Span;
    }
  }

  /** Moving two segments by one frame changes the distance between them by
      a whole number of ring lengths (-1, 0 or 1 of them): the tiling is
      the same modulo N·L. */
  lemma AdvanceKeepsSpacing(z1: real, z2: real, speed: real)
    ensures var d := (Advance(z1, speed) - Advance(z2, speed)) - (z1 - z2);
            d == 0.0 || d == Span || d == -Span
  {
  }

  class RoadSystem {
    /** The z coordinate of each segment, in creation order. */
    var segments: seq<real>
    /** Distance scrolled so far and how many times each segment was sent
        back: the witnesses of the ring invariant. */
    ghost var travelled: real
    ghost var laps: seq<int>

    ghost predicate Valid()
      reads this
    {
      Ring(segments, travelled, laps)
    }

    /** Creates the road: an empty list of segments, then the initial
        layout pushed onto it. */
    constructor ()
      ensures Valid()
      ensures segments == Layout(NumSegments)
      ensures forall i :: 0 <= i < NumSegments ==> segments[i] == -(i as real) * SegmentLength
    {
      segments := [];
      travelled := 0.0;
      laps := seq(NumSegments, i => 0);
      new;
      CreateRoadSegments();
      assert segments == Layout(NumSegments);
      LayoutIsRing();
    }

    /** Pushes N new segments, the i-th of them at z = -i·L. */
    method CreateRoadSegments()
      modifies this`segments
      ensures segments == old(segments) + Layout(NumSegments)
    {
      ghost var start := segments;
      var i := 0;
      while i < NumSegments
        invariant 0 <= i <= NumSegments
        invariant segments == start + Layout(i)
      {
        segments := segments + [-(i as real) * SegmentLength];
        i := i + 1;
      }
    }

    /** One frame: every segment scrolls by `Speed` and is recycled past the
        threshold. The number and order of the segments do not change, and
        the ring invariant is kept. */
    method Update()
      requires Valid()
      modifies this
      ensures Valid()
      ensures |segments| == |old(segments)|
      ensures forall i :: 0 <= i < |segments| ==> segments[i] == Advance(old(segments)[i], Speed)
      ensures travelled == old(travelled) + Speed
    {
      ghost var before := segments;
      AdvanceKeepsRing(segments, travelled, laps, Speed);
      var i := 0;
      while i < |segments|
        invariant 0 <= i <= |segments| == |before|
        invariant forall k :: 0 <= k < i ==> segments[k] == Advance(before[k], Speed)
        invariant forall k :: i <= k < |segments| ==> segments[k] == before[k]
        invariant laps == old(laps) && travelled == old(travelled)
      {
        var z := segments[i] + Speed;
        if z > SegmentLength {
          z := z - NumSegments as real * SegmentLength;
        }
        segments := segments[i := z];
        i := i + 1;
      }
      ghost var oldLaps := laps;
      laps := seq(|oldLaps|, k requires 0 <= k < |oldLaps| => oldLaps[k] + Wraps(before[k], Speed));
      travelled := travelled + Speed;
      assert segments == seq(|before|, k requires 0 <= k < |before| => Advance(before[k], Speed));
    }
  }
}
