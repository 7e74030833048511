/**
 The altitude merge: every point of the selected track gets one new altitude,
 computed from its recorded altitude and the database elevation under one of
 three strategies. The walk stops at the first elevation lookup that finds no
 data.
 */
module Merge {
  import opened Wrappers
  import opened Track

  /** The three merge strategies offered by the dialog's radio buttons (options 0, 1, 2). */
  datatype Strategy =
    | Replace      // always take the database elevation
    | FillMissing  // take the database elevation only where no altitude was recorded
    | Validate     // keep the recorded altitude when it is within 10% of the database elevation

  /** The outcome of one merge: the success flag and the values appended so far. */
  datatype MergeOutcome = MergeOutcome(ok: bool, values: seq<real>)

  /** Whether the strategy consults the database for this point. */
  predicate NeedsLookup(s: Strategy, p: Point)
  {
    s != FillMissing || p.altitude == 0.0
  }

  /** Division-free reading of "recorded lies within 10% of db", i.e. 0.9 <= recorded/db <= 1.1. */
  predicate WithinTenPercent(recorded: real, db: real)
  {
    || (db > 0.0 && 0.9 * db <= recorded <= 1.1 * db)
    || (db < 0.0 && 1.1 * db <= recorded <= 0.9 * db)
  }

  /** Every point of pts that needs the database under s finds an elevation there. */
  predicate AllLookupsFound(pts: seq<Point>, s: Strategy, lookup: Lookup)
  {
    forall i :: 0 <= i < |pts| && NeedsLookup(s, pts[i]) ==> lookup(pts[i].latitude, pts[i].longitude).Some?
  }

  /**
   The Validate strategy for one point: the ratio recorded/db is compared with
   [0.9, 1.1]. A zero db is guarded and yields db, which is what the unguarded
   floating-point division ends with as well (an infinite ratio falls outside
   the range; for 0/0 every comparison is false and the recorded 0.0 == db is kept).
   */
  function ValidateAltitude(recorded: real, db: real): (r: real)
    ensures r == (if WithinTenPercent(recorded, db) then recorded else db)
  {
    if db == 0.0 then db
    else
      var ratio := recorded / db;
      RatioBounds(recorded, db);
      if ratio < 0.9 || ratio > 1.1 then db else recorded
  }

  /** The ratio test and the division-free test agree whenever db is non-zero. */
  lemma RatioBounds(recorded: real, db: real)
    requires db != 0.0
    ensures (0.9 <= recorded / db <= 1.1) <==> WithinTenPercent(recorded, db)
  {
    var q := recorded / db;
    assert q * db == recorded;
    if db > 0.0 {
      assert 0.9 <= q ==> 0.9 * db <= q * db;
      assert q <= 1.1 ==> q * db <= 1.1 * db;
      assert q < 0.9 ==> q * db < 0.9 * db;
      assert 1.1 < q ==> 1.1 * db < q * db;
    } else {
      assert 0.9 <= q ==> q * db <= 0.9 * db;
      assert q <= 1.1 ==> 1.1 * db <= q * db;
      assert q < 0.9 ==> 0.9 * db < q * db;
      assert 1.1 < q ==> q * db < 1.1 * db;
    }
  }

  /** The altitude of one point under a strategy, or None when a required lookup misses. */
  function PointAltitude(s: Strategy, p: Point, lookup: Lookup): (r: Option<real>)
    ensures r.None? <==> NeedsLookup(s, p) && lookup(p.latitude, p.longitude).None?
  {
    match s
    case Replace =>
      (match lookup(p.latitude, p.longitude)
       case None => None
       case Some(d) => Some(d as int as real))
    case FillMissing =>
      if p.altitude == 0.0 then
        (match lookup(p.latitude, p.longitude)
         case None => None
         case Some(d) => Some(d as int as real))
      else Some(p.altitude)
    case Validate =>
      (match lookup(p.latitude, p.longitude)
       case None => None
       case Some(d) => Some(ValidateAltitude(p.altitude, d as int as real)))
  }

  /**
   The merge over a sequence of points: one value per point, in order, until
   the first point whose altitude cannot be computed. The values of the points
   before that one are kept.
   */
  function MergeFrom(pts: seq<Point>, s: Strategy, lookup: Lookup): (r: MergeOutcome)
    ensures r.ok ==> |r.values| == |pts|
    ensures !r.ok ==> |r.values| < |pts|
    decreases |pts|
  {
    if |pts| == 0 then MergeOutcome(true, [])
    else
      match PointAltitude(s, pts[0], lookup)
      case None => MergeOutcome(false, [])
      case Some(v) =>
        var rest := MergeFrom(pts[1..], s, lookup);
        MergeOutcome(rest.ok, [v] + rest.values)
  }

  /**
   What the merge over points computes: it succeeds exactly when every point
   has an altitude; each value it holds is the altitude of the point at the
   same position; on failure the point right after the kept values is the one
   whose lookup missed.
   */
  lemma {:induction false} MergeFromSpec(pts: seq<Point>, s: Strategy, lookup: Lookup)
    ensures var r := MergeFrom(pts, s, lookup);
      && (r.ok <==> forall i :: 0 <= i < |pts| ==> PointAltitude(s, pts[i], lookup).Some?)
      && (!r.ok ==> PointAltitude(s, pts[|r.values|], lookup).None?)
      && (forall i :: 0 <= i < |r.values| ==> PointAltitude(s, pts[i], lookup) == Some(r.values[i]))
    decreases |pts|
  {
    if |pts| > 0 {
      MergeFromSpec(pts[1..], s, lookup);
      var r := MergeFrom(pts, s, lookup);
      var rest := MergeFrom(pts[1..], s, lookup);
      match PointAltitude(s, pts[0], lookup)
      case None =>
      case Some(v) =>
        assert r.values == [v] + rest.values;
        forall i | 0 <= i < |r.values|
          ensures PointAltitude(s, pts[i], lookup) == Some(r.values[i])
        {
          if i > 0 {
            assert pts[i] == pts[1..][i - 1];
          }
        }
        if !r.ok {
          assert pts[|r.values|] == pts[1..][|rest.values|];
        }
        if forall i :: 0 <= i < |pts| ==> PointAltitude(s, pts[i], lookup).Some? {
          forall i | 0 <= i < |pts[1..]|
            ensures PointAltitude(s, pts[1..][i], lookup).Some?
          {
            assert pts[1..][i] == pts[i + 1];
          }
        }
    }
  }

  /**
   The whole routine: a track without segments fails with no values;
   otherwise its points are merged in segment-then-point order.
   */
  function Generate(t: TrackSegments, s: Strategy, lookup: Lookup): (r: MergeOutcome)
    ensures |t| == 0 ==> r == MergeOutcome(false, [])
    ensures r.ok ==> |r.values| == PointCount(t)
    ensures !r.ok ==> |r.values| < PointCount(t) || |t| == 0
  {
    if |t| == 0 then MergeOutcome(false, []) else MergeFrom(Flatten(t), s, lookup)
  }

  /** Merging a concatenation: the second part is only visited when the first succeeded. */
  lemma {:induction false} MergeConcat(a: seq<Point>, b: seq<Point>, s: Strategy, lookup: Lookup)
    ensures MergeFrom(a + b, s, lookup) ==
              var ra := MergeFrom(a, s, lookup);
              if ra.ok then
                var rb := MergeFrom(b, s, lookup);
                MergeOutcome(rb.ok, ra.values + rb.values)
              else ra
    decreases |a|
  {
    if |a| == 0 {
      assert a + b == b;
    } else {
      assert (a + b)[0] == a[0];
      assert (a + b)[1..] == a[1..] + b;
      MergeConcat(a[1..], b, s, lookup);
    }
  }

  /** A miss at the point following a successful prefix ends the whole run with that prefix's values. */
  lemma MissAborts(t: TrackSegments, seg: nat, k: nat, s: Strategy, lookup: Lookup)
    requires seg < |t| && k < |t[seg]|
    requires MergeFrom(Flatten(t[..seg]) + t[seg][..k], s, lookup).ok
    requires PointAltitude(s, t[seg][k], lookup).None?
    ensures Generate(t, s, lookup) == MergeOutcome(false, MergeFrom(Flatten(t[..seg]) + t[seg][..k], s, lookup).values)
  {
    var prefix := Flatten(t[..seg]) + t[seg][..k];
    assert t == t[..seg] + [t[seg]] + t[seg + 1..];
    FlattenConcat(t[..seg] + [t[seg]], t[seg + 1..]);
    FlattenConcat(t[..seg], [t[seg]]);
    assert ([t[seg]])[..0] == [];
    assert Flatten([t[seg]]) == t[seg];
    assert t[seg] == t[seg][..k] + [t[seg][k]] + t[seg][k + 1..];
    assert Flatten(t) == (prefix + [t[seg][k]]) + (t[seg][k + 1..] + Flatten(t[seg + 1..]));
    MergeConcat(prefix, [t[seg][k]], s, lookup);
    MergeConcat(prefix + [t[seg][k]], t[seg][k + 1..] + Flatten(t[seg + 1..]), s, lookup);
  }

  /** One successful point extends a successful prefix by its value. */
  lemma MergeStep(prefix: seq<Point>, p: Point, v: real, values: seq<real>, s: Strategy, lookup: Lookup)
    requires MergeFrom(prefix, s, lookup) == MergeOutcome(true, values)
    requires PointAltitude(s, p, lookup) == Some(v)
    ensures MergeFrom(prefix + [p], s, lookup) == MergeOutcome(true, values + [v])
  {
    MergeConcat(prefix, [p], s, lookup);
  }

  /**
   The routine as written: clear the values, walk the segments and their
   points, compute each altitude by the selected strategy and append it, and
   return false at the first lookup that misses, keeping what was appended.
   */
  method GenerateValues(t: TrackSegments, s: Strategy, lookup: Lookup) returns (ok: bool, values: seq<real>)
    ensures MergeOutcome(ok, values) == Generate(t, s, lookup)
  {
    values := [];
    if |t| == 0 {
      return false, values;
    }
    var seg := 0;
    while seg < |t|
      invariant 0 <= seg <= |t|
      invariant MergeFrom(Flatten(t[..seg]), s, lookup) == MergeOutcome(true, values)
    {
      var k := 0;
      assert Flatten(t[..seg]) + t[seg][..k] == Flatten(t[..seg]);
      while k < |t[seg]|
        invariant 0 <= k <= |t[seg]|
        invariant MergeFrom(Flatten(t[..seg]) + t[seg][..k], s, lookup) == MergeOutcome(true, values)
      {
        var p := t[seg][k];
        var altitude: real;
        match s {
          case Replace =>
            var found := lookup(p.latitude, p.longitude);
            if found.None? {
              MissAborts(t, seg, k, s, lookup);
              return false, values;
            }
            altitude := found.value as int as real;
          case FillMissing =>
            if p.altitude == 0.0 {
              var found := lookup(p.latitude, p.longitude);
              if found.None? {
                MissAborts(t, seg, k, s, lookup);
                return false, values;
              }
              altitude := found.value as int as real;
            } else {
              altitude := p.altitude;
            }
          case Validate =>
            var found := lookup(p.latitude, p.longitude);
            if found.None? {
              MissAborts(t, seg, k, s, lookup);
              return false, values;
            }
            var db := found.value as int as real;
            if db == 0.0 {
              // the unguarded division would give an infinite ratio or NaN; both end in db
              altitude := db;
            } else {
              var ratio := p.altitude / db;
              if ratio < 0.9 || ratio > 1.1 {
                altitude := db;
              } else {
                altitude := p.altitude;
              }
            }
        }
        assert PointAltitude(s, p, lookup) == Some(altitude);
        assert t[seg][..k + 1] == t[seg][..k] + [p];
        assert Flatten(t[..seg]) + t[seg][..k + 1] == (Flatten(t[..seg]) + t[seg][..k]) + [p];
        MergeStep(Flatten(t[..seg]) + t[seg][..k], p, altitude, values, s, lookup);
        values := values + [altitude];
        k := k + 1;
      }
      assert t[seg][..k] == t[seg];
      assert t[..seg + 1][..seg] == t[..seg];
      seg := seg + 1;
    }
    assert t[..seg] == t;
    ok := true;
  }
}
