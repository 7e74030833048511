/**
 Properties of the altitude merge, stated over the track's segments and
 points: how many values a run produces, in which order, what each strategy
 puts there, and what is left behind when a lookup misses.
 */
module MergeProperties {
  import opened Wrappers
  import opened Track
  import opened Merge

  /** The elevation the database reports at a point, as a real number of meters. */
  function DatabaseAltitude(p: Point, lookup: Lookup): real
    requires lookup(p.latitude, p.longitude).Some?
  {
    lookup(p.latitude, p.longitude).value as int as real
  }

  /**
   A run succeeds exactly when the track has a segment and every point whose
   strategy needs the database finds an elevation there.
   */
  lemma GenerateSucceedsIff(t: TrackSegments, s: Strategy, lookup: Lookup)
    ensures Generate(t, s, lookup).ok <==> |t| > 0 && AllLookupsFound(Flatten(t), s, lookup)
  {
    if |t| > 0 {
      var pts := Flatten(t);
      MergeFromSpec(pts, s, lookup);
      assert AllLookupsFound(pts, s, lookup) <==> forall i :: 0 <= i < |pts| ==> PointAltitude(s, pts[i], lookup).Some?;
    }
  }

  /**
   Every value a run leaves behind, successful or not, is the altitude of the
   track point at the same position in segment-then-point order.
   */
  lemma GenerateValuesAligned(t: TrackSegments, s: Strategy, lookup: Lookup)
    ensures var r := Generate(t, s, lookup);
            forall i :: 0 <= i < |r.values| ==> i < PointCount(t) && PointAltitude(s, Flatten(t)[i], lookup) == Some(r.values[i])
  {
    if |t| > 0 {
      MergeFromSpec(Flatten(t), s, lookup);
    }
  }

  /**
   A successful run holds one value per point of the track, and point j of
   segment i is the value at position PointCount(t[..i]) + j: segments in
   order, points in order within each segment, empty segments contributing
   nothing.
   */
  lemma GenerateInTrackOrder(t: TrackSegments, s: Strategy, lookup: Lookup, i: nat, j: nat)
    requires Generate(t, s, lookup).ok
    requires i < |t| && j < |t[i]|
    ensures |Generate(t, s, lookup).values| == PointCount(t)
    ensures PointCount(t[..i]) + j < PointCount(t)
    ensures PointAltitude(s, t[i][j], lookup) == Some(Generate(t, s, lookup).values[PointCount(t[..i]) + j])
  {
    MergeFromSpec(Flatten(t), s, lookup);
    FlattenOrder(t, i, j);
  }

  /** Replace: every value of a successful run is the database elevation at its point. */
  lemma ReplaceTakesDatabase(t: TrackSegments, lookup: Lookup, i: nat, j: nat)
    requires Generate(t, Replace, lookup).ok
    requires i < |t| && j < |t[i]|
    ensures PointCount(t[..i]) + j < PointCount(t) == |Generate(t, Replace, lookup).values|
    ensures lookup(t[i][j].latitude, t[i][j].longitude).Some?
    ensures Generate(t, Replace, lookup).values[PointCount(t[..i]) + j] == DatabaseAltitude(t[i][j], lookup)
  {
    GenerateInTrackOrder(t, Replace, lookup, i, j);
  }

  /**
   FillMissing: a point with a recorded altitude keeps it; a point recorded
   at 0.0 gets the database elevation.
   */
  lemma FillMissingFillsZeros(t: TrackSegments, lookup: Lookup, i: nat, j: nat)
    requires Generate(t, FillMissing, lookup).ok
    requires i < |t| && j < |t[i]|
    ensures PointCount(t[..i]) + j < PointCount(t) == |Generate(t, FillMissing, lookup).values|
    ensures t[i][j].altitude != 0.0 ==>
              Generate(t, FillMissing, lookup).values[PointCount(t[..i]) + j] == t[i][j].altitude
    ensures t[i][j].altitude == 0.0 ==>
              && lookup(t[i][j].latitude, t[i][j].longitude).Some?
              && Generate(t, FillMissing, lookup).values[PointCount(t[..i]) + j] == DatabaseAltitude(t[i][j], lookup)
  {
    GenerateInTrackOrder(t, FillMissing, lookup, i, j);
  }

  /**
   FillMissing never consults the database for a recorded altitude: on a track
   where every altitude is recorded the run succeeds with the recorded
   altitudes, whatever the database holds (even with every tile missing).
   */
  // Not inductive: automatic induction is switched off so that the proof rests on MergeFromSpec alone.
  lemma {:induction false} FillMissingIgnoresDatabase(t: TrackSegments, lookup: Lookup)
    requires |t| > 0
    requires forall i :: 0 <= i < PointCount(t) ==> Flatten(t)[i].altitude != 0.0
    ensures Generate(t, FillMissing, lookup).ok
    ensures forall i :: 0 <= i < PointCount(t) ==>
              Generate(t, FillMissing, lookup).values[i] == Flatten(t)[i].altitude
  {
    var pts := Flatten(t);
    MergeFromSpec(pts, FillMissing, lookup);
    assert forall i :: 0 <= i < |pts| ==> PointAltitude(FillMissing, pts[i], lookup) == Some(pts[i].altitude);
  }

  /**
   Validate: a value of a successful run is the recorded altitude when that
   lies within 10% of the database elevation, and the database elevation
   otherwise.
   */
  lemma ValidateKeepsPlausible(t: TrackSegments, lookup: Lookup, i: nat, j: nat)
    requires Generate(t, Validate, lookup).ok
    requires i < |t| && j < |t[i]|
    ensures PointCount(t[..i]) + j < PointCount(t) == |Generate(t, Validate, lookup).values|
    ensures lookup(t[i][j].latitude, t[i][j].longitude).Some?
    ensures var d := DatabaseAltitude(t[i][j], lookup);
            Generate(t, Validate, lookup).values[PointCount(t[..i]) + j] ==
              (if WithinTenPercent(t[i][j].altitude, d) then t[i][j].altitude else d)
  {
    GenerateInTrackOrder(t, Validate, lookup, i, j);
  }

  /**
   A lookup miss: the run fails, the point right after the kept values is one
   that needed the database and found nothing there, and the kept values are
   exactly those of the points before it (every one of which succeeded).
   */
  lemma MissKeepsPrefix(t: TrackSegments, s: Strategy, lookup: Lookup)
    requires |t| > 0 && !Generate(t, s, lookup).ok
    ensures var r := Generate(t, s, lookup);
      && |r.values| < PointCount(t)
      && NeedsLookup(s, Flatten(t)[|r.values|])
      && lookup(Flatten(t)[|r.values|].latitude, Flatten(t)[|r.values|].longitude).None?
      && forall i :: 0 <= i < |r.values| ==> PointAltitude(s, Flatten(t)[i], lookup) == Some(r.values[i])
  {
    MergeFromSpec(Flatten(t), s, lookup);
  }

  /**
   A three-point example: one segment recorded at 100.0, 0.0 and 95.0 meters over
   database elevations 98, 97 and 96.
   */
  lemma ThreePointExample()
    ensures var t := [[Point(1.0, 0.0, 100.0), Point(2.0, 0.0, 0.0), Point(3.0, 0.0, 95.0)]];
            var lookup: Lookup := (lat: real, lon: real) =>
              if lat == 1.0 then Some(98 as Short) else if lat == 2.0 then Some(97 as Short) else Some(96 as Short);
            && Generate(t, Replace, lookup) == MergeOutcome(true, [98.0, 97.0, 96.0])
            && Generate(t, FillMissing, lookup) == MergeOutcome(true, [100.0, 97.0, 95.0])
            && Generate(t, Validate, lookup) == MergeOutcome(true, [100.0, 97.0, 95.0])
  {
  }
}
