/**
 The track being augmented: an ordered list of segments, each an ordered list
 of points, together with the elevation database seen as a lookup function.
 */
module Track {
  import opened Wrappers

  /** A 16-bit signed integer, the type the elevation database answers with. */
  newtype Short = x: int | -0x8000 <= x < 0x8000

  /** A recorded track point. An altitude of 0.0 means "no altitude recorded". */
  datatype Point = Point(latitude: real, longitude: real, altitude: real)

  type Segment = seq<Point>

  /** The selected track: its segments in iteration order. */
  type TrackSegments = seq<Segment>

  /** The elevation database: the elevation at a coordinate, or None when the tile is missing. */
  type Lookup = (real, real) -> Option<Short>

  /** The number of points of a track, summed over all its segments. */
  function PointCount(t: TrackSegments): nat
  {
    if |t| == 0 then 0 else PointCount(t[..|t| - 1]) + |t[|t| - 1]|
  }

  /** The points of a track in segment-then-point order. */
  function Flatten(t: TrackSegments): (pts: seq<Point>)
    ensures |pts| == PointCount(t)
  {
    if |t| == 0 then [] else Flatten(t[..|t| - 1]) + t[|t| - 1]
  }

  /** Flattening distributes over concatenation of tracks. */
  lemma {:induction false} FlattenConcat(a: TrackSegments, b: TrackSegments)
    ensures Flatten(a + b) == Flatten(a) + Flatten(b)
    decreases |b|
  {
    if |b| == 0 {
      assert a + b == a;
    } else {
      var b' := b[..|b| - 1];
      assert (a + b)[..|a + b| - 1] == a + b';
      FlattenConcat(a, b');
    }
  }

  /**
   Point j of segment i sits at position PointCount(t[..i]) + j of the
   flattened track: segments are visited in order, and points in order within
   each segment.
   */
  lemma FlattenOrder(t: TrackSegments, i: nat, j: nat)
    requires i < |t| && j < |t[i]|
    ensures PointCount(t[..i]) + j < PointCount(t)
    ensures Flatten(t)[PointCount(t[..i]) + j] == t[i][j]
  {
    assert t == t[..i] + [t[i]] + t[i + 1..];
    FlattenConcat(t[..i] + [t[i]], t[i + 1..]);
    FlattenConcat(t[..i], [t[i]]);
    assert ([t[i]])[..0] == [];
    assert Flatten([t[i]]) == t[i];
  }
}
