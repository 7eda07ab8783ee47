/** gps_track.py: GPS points, segments and tracks, their validation, smoothing and summaries, and
    loading a track from a GPX document or from the records of a FIT file. */
module GpsTracks {
  import Seqs
  import opened Results
  import Py
  import Smoothing
  import Gpxpy

  /** A GPS fix; each field may be `None` when the source file lacks it. */
  datatype GPSPoint = GPSPoint(latitude: Option<real>, longitude: Option<real>, elevation: Option<real>)

  /** `is_valid`: all three fields are present. */
  predicate IsValid(p: GPSPoint)
  {
    p.latitude.Some? && p.longitude.Some? && p.elevation.Some?
  }

  /** `angle_and_distance_to`: the bearing (in radians, as the mesh code uses it) and the geodesic
      distance from one point to another. It is computed by a geodesy library and is supplied here. */
  type AngleAndDistance = (GPSPoint, GPSPoint) -> (real, real)

  /** The distance part of `angle_and_distance_to`. */
  function DistanceOf(angleAndDistance: AngleAndDistance): (GPSPoint, GPSPoint) -> real
  {
    (p: GPSPoint, q: GPSPoint) => angleAndDistance(p, q).1
  }

  datatype GPSTrackSegment = GPSTrackSegment(points: seq<GPSPoint>)

  /** A track is a list of segments, so that one track can be a composite path. */
  datatype GPSTrack = GPSTrack(segments: seq<GPSTrackSegment>)

  // ---------------------------------------------------------------- lengths

  /** `GPSTrack.__len__`: the sum of the segments' `__len__`, the number of points of each. */
  function TrackLen(t: GPSTrack): nat
  {
    SegmentsLen(t.segments)
  }

  function SegmentsLen(segments: seq<GPSTrackSegment>): nat
  {
    if |segments| == 0 then 0
    else SegmentsLen(segments[..|segments| - 1]) + |segments[|segments| - 1].points|
  }

  /** Every point of a track, segment after segment. */
  function AllPoints(segments: seq<GPSTrackSegment>): seq<GPSPoint>
  {
    if |segments| == 0 then []
    else AllPoints(segments[..|segments| - 1]) + segments[|segments| - 1].points
  }

  /** The length of a track counts every point of every segment once. */
  lemma {:induction false} TrackLenCountsAllPoints(segments: seq<GPSTrackSegment>)
    ensures TrackLen(GPSTrack(segments)) == |AllPoints(segments)|
    decreases |segments|
  {
    if |segments| > 0 {
      TrackLenCountsAllPoints(segments[..|segments| - 1]);
    }
  }

  /** A track has length 0 exactly when every segment is empty (the caller skips such tracks). */
  lemma {:induction false} TrackLenZeroIff(segments: seq<GPSTrackSegment>)
    ensures TrackLen(GPSTrack(segments)) == 0 <==> forall k :: 0 <= k < |segments| ==> |segments[k].points| == 0
    decreases |segments|
  {
    if |segments| > 0 {
      var front := segments[..|segments| - 1];
      TrackLenZeroIff(front);
      assert forall k :: 0 <= k < |front| ==> front[k] == segments[k];
    }
  }

  // ---------------------------------------------------------------- minimum elevation

  /** The items of `min(point.elevation for point in self.points)`. */
  function Elevations(s: GPSTrackSegment): seq<Result<Option<real>>>
  {
    seq(|s.points|, k requires 0 <= k < |s.points| => Ok(s.points[k].elevation))
  }

  /** `GPSTrackSegment.min_elevation`: Python's `min` over the points' elevations. */
  function SegmentMinElevation(s: GPSTrackSegment): Result<Option<real>>
  {
    Py.MinOf(Elevations(s))
  }

  function SegmentMinElevations(t: GPSTrack): seq<Result<Option<real>>>
  {
    seq(|t.segments|, k requires 0 <= k < |t.segments| => SegmentMinElevation(t.segments[k]))
  }

  /** `GPSTrack.min_elevation`: Python's `min` over the segments' minima, computed one by one. */
  function TrackMinElevation(t: GPSTrack): Result<Option<real>>
  {
    Py.MinOf(SegmentMinElevations(t))
  }

  /** Every segment has a point, and every point an elevation. */
  ghost predicate AllElevated(t: GPSTrack)
  {
    && |t.segments| > 0
    && (forall s :: 0 <= s < |t.segments| ==> |t.segments[s].points| > 0)
    && (forall s, k :: 0 <= s < |t.segments| && 0 <= k < |t.segments[s].points| ==>
          t.segments[s].points[k].elevation.Some?)
  }

  /** A segment's minimum elevation is a lower bound on its points' elevations that one of them attains. */
  lemma {:induction false} SegmentMinElevationBounds(s: GPSTrackSegment)
    requires |s.points| > 0
    requires forall k :: 0 <= k < |s.points| ==> s.points[k].elevation.Some?
    ensures SegmentMinElevation(s).Ok? && SegmentMinElevation(s).value.Some?
    ensures forall k :: 0 <= k < |s.points| ==> SegmentMinElevation(s).value.value <= s.points[k].elevation.value
    ensures exists k :: 0 <= k < |s.points| && s.points[k].elevation == SegmentMinElevation(s).value
  {
    var items := Elevations(s);
    assert forall k :: 0 <= k < |items| ==> items[k] == Ok(s.points[k].elevation);
    Py.MinOfAllNumbers(items);
    var k :| 0 <= k < |items| && items[k] == Py.MinOf(items);
    assert s.points[k].elevation == SegmentMinElevation(s).value;
  }

  /** A track's minimum elevation is a lower bound on every point's elevation, in every segment,
      and some point attains it. */
  lemma {:induction false} TrackMinElevationBounds(t: GPSTrack)
    requires AllElevated(t)
    ensures TrackMinElevation(t).Ok? && TrackMinElevation(t).value.Some?
    ensures forall s, k :: 0 <= s < |t.segments| && 0 <= k < |t.segments[s].points| ==>
              TrackMinElevation(t).value.value <= t.segments[s].points[k].elevation.value
    ensures exists s, k :: 0 <= s < |t.segments| && 0 <= k < |t.segments[s].points| &&
              t.segments[s].points[k].elevation == TrackMinElevation(t).value
  {
    var items := SegmentMinElevations(t);
    forall s | 0 <= s < |t.segments|
      ensures items[s].Ok? && items[s].value.Some?
      ensures forall k :: 0 <= k < |t.segments[s].points| ==> items[s].value.value <= t.segments[s].points[k].elevation.value
      ensures exists k :: 0 <= k < |t.segments[s].points| && t.segments[s].points[k].elevation == items[s].value
    {
      SegmentMinElevationBounds(t.segments[s]);
    }
    Py.MinOfAllNumbers(items);
    var m := TrackMinElevation(t).value.value;
    var s :| 0 <= s < |items| && items[s] == Py.MinOf(items);
    var k :| 0 <= k < |t.segments[s].points| && t.segments[s].points[k].elevation == items[s].value;
    assert t.segments[s].points[k].elevation == TrackMinElevation(t).value;
  }

  /** An empty segment makes `min_elevation` raise, whatever its position in the track. */
  lemma {:induction false} TrackMinElevationRejectsEmptySegment(t: GPSTrack, s: nat)
    requires s < |t.segments| && |t.segments[s].points| == 0
    ensures TrackMinElevation(t).Err?
  {
    assert SegmentMinElevations(t)[s].Err?;
    Py.MinOfPropagatesErrors(SegmentMinElevations(t), s);
  }

  // ---------------------------------------------------------------- smoothing

  /** `filter_by_smoothing_interval`: keep the first point, then each point farther than the interval
      from the last point kept. An empty segment raises IndexError (`self.points[0]`). */
  method FilterBySmoothingInterval(segment: GPSTrackSegment, smoothingInterval: real, angleAndDistance: AngleAndDistance)
    returns (r: Result<GPSTrackSegment>)
    ensures |segment.points| == 0 <==> r.Err?
    ensures r.Err? ==> r.error == IndexError
    ensures r.Ok? ==> r.value.points == Smoothing.Smoothed(segment.points, smoothingInterval, DistanceOf(angleAndDistance))
  {
    if |segment.points| == 0 {
      return Err(IndexError);
    }
    ghost var dist := DistanceOf(angleAndDistance);
    var points := [segment.points[0]];
    assert points == Smoothing.Smoothed(segment.points[..1], smoothingInterval, dist);
    for i := 1 to |segment.points|
      invariant points == Smoothing.Smoothed(segment.points[..i], smoothingInterval, dist)
    {
      Smoothing.SmoothedStep(segment.points, i, smoothingInterval, dist);
      var bearingAndDistance := angleAndDistance(points[|points| - 1], segment.points[i]);
      var distance := bearingAndDistance.1;
      assert distance == dist(points[|points| - 1], segment.points[i]);
      if distance > smoothingInterval {
        points := points + [segment.points[i]];
      }
    }
    Seqs.TakeAll(segment.points);
    r := Ok(GPSTrackSegment(points));
  }

  /** A filtered segment starts with the segment's first point and is an order-preserving selection of
      at least one and at most all of its points. */
  lemma {:induction false} SmoothedSelection(points: seq<GPSPoint>, smoothingInterval: real, angleAndDistance: AngleAndDistance)
    requires |points| > 0
    ensures var kept := Smoothing.Smoothed(points, smoothingInterval, DistanceOf(angleAndDistance));
            var ix := Smoothing.KeptIndices(points, smoothingInterval, DistanceOf(angleAndDistance));
            && 1 <= |kept| <= |points| && kept[0] == points[0]
            && |ix| == |kept| && Smoothing.Increasing(ix)
            && forall k :: 0 <= k < |kept| ==> ix[k] < |points| && kept[k] == points[ix[k]]
  {
    Smoothing.SmoothedSelects(points, smoothingInterval, DistanceOf(angleAndDistance));
  }

  // ---------------------------------------------------------------- GPX documents

  function FromGpxPoint(p: Gpxpy.GPXTrackPoint): GPSPoint
  {
    GPSPoint(p.latitude, p.longitude, p.elevation)
  }

  function FromGpxSegment(s: Gpxpy.GPXTrackSegment): GPSTrackSegment
  {
    GPSTrackSegment(seq(|s.points|, k requires 0 <= k < |s.points| => FromGpxPoint(s.points[k])))
  }

  /** The segments `from_gpx` collects: every segment of every track, in document order. */
  function GpxSegments(tracks: seq<Gpxpy.GPXTrack>): seq<GPSTrackSegment>
  {
    if |tracks| == 0 then []
    else
      var last := tracks[|tracks| - 1];
      GpxSegments(tracks[..|tracks| - 1])
        + seq(|last.segments|, k requires 0 <= k < |last.segments| => FromGpxSegment(last.segments[k]))
  }

  /** The number of segments over all tracks of a GPX document. */
  function GpxSegmentCount(tracks: seq<Gpxpy.GPXTrack>): nat
  {
    if |tracks| == 0 then 0 else GpxSegmentCount(tracks[..|tracks| - 1]) + |tracks[|tracks| - 1].segments|
  }

  /** Segment s of GPX track t sits in the collected segments after those of the earlier tracks. */
  ghost predicate SegmentPlaced(tracks: seq<Gpxpy.GPXTrack>, segments: seq<GPSTrackSegment>, t: nat, s: nat)
    requires t < |tracks| && s < |tracks[t].segments|
  {
    && GpxSegmentCount(tracks[..t]) + s < |segments|
    && segments[GpxSegmentCount(tracks[..t]) + s] == FromGpxSegment(tracks[t].segments[s])
  }

  /** The track from a GPX document has one segment per GPX segment of any track, in document
      order, each with the points of the GPX segment and their fields copied. */
  lemma {:induction false} GpxSegmentsShape(tracks: seq<Gpxpy.GPXTrack>)
    ensures |GpxSegments(tracks)| == GpxSegmentCount(tracks)
    ensures forall t, s :: 0 <= t < |tracks| && 0 <= s < |tracks[t].segments| ==>
              SegmentPlaced(tracks, GpxSegments(tracks), t, s)
    decreases |tracks|
  {
    if |tracks| > 0 {
      var n := |tracks|;
      var front := tracks[..n - 1];
      var last := tracks[n - 1];
      GpxSegmentsShape(front);
      var tail := seq(|last.segments|, k requires 0 <= k < |last.segments| => FromGpxSegment(last.segments[k]));
      assert GpxSegments(tracks) == GpxSegments(front) + tail;
      forall t, s | 0 <= t < n && 0 <= s < |tracks[t].segments|
        ensures SegmentPlaced(tracks, GpxSegments(tracks), t, s)
      {
        if t < n - 1 {
          assert tracks[..t] == front[..t];
          assert front[t] == tracks[t];
          assert SegmentPlaced(front, GpxSegments(front), t, s);
        } else {
          assert tracks[..t] == front;
          assert tail[s] == FromGpxSegment(tracks[t].segments[s]);
        }
      }
    }
  }

  /** `from_gpx` from the parsed document: loops over tracks and their segments, copying each point. */
  method FromGpx(gpx: Gpxpy.GPX) returns (track: GPSTrack)
    ensures track == GPSTrack(GpxSegments(gpx.tracks))
  {
    var segments: seq<GPSTrackSegment> := [];
    for t := 0 to |gpx.tracks|
      invariant segments == GpxSegments(gpx.tracks[..t])
    {
      var gpxTrack := gpx.tracks[t];
      Seqs.TakeTake(gpx.tracks, t, t + 1);
      for s := 0 to |gpxTrack.segments|
        invariant segments == GpxSegments(gpx.tracks[..t])
          + seq(s, k requires 0 <= k < s => FromGpxSegment(gpxTrack.segments[k]))
      {
        var points: seq<GPSPoint> := [];
        for k := 0 to |gpxTrack.segments[s].points|
          invariant points == FromGpxSegment(gpxTrack.segments[s]).points[..k]
        {
          var p := gpxTrack.segments[s].points[k];
          points := points + [GPSPoint(p.latitude, p.longitude, p.elevation)];
        }
        assert points == FromGpxSegment(gpxTrack.segments[s]).points;
        segments := segments + [GPSTrackSegment(points)];
      }
    }
    Seqs.TakeAll(gpx.tracks);
    track := GPSTrack(segments);
  }

  // ---------------------------------------------------------------- FIT records

  /** A FIT field read as a dict: its value (possibly `None`) and its units. */
  datatype FitField = FitField(value: Option<real>, units: Option<string>)

  /** The fields of a FIT `record` message that `from_fit` reads: latitude and longitude in semicircles,
      and the `enhanced_altitude` field, each missing when the record lacks it. */
  datatype FitRecord = FitRecord(positionLat: Option<int>, positionLong: Option<int>, enhancedAltitude: Option<FitField>)

  /** A record is used when it has a position and an altitude measured in metres. */
  predicate IsUsable(r: FitRecord)
  {
    r.positionLat.Some? && r.positionLong.Some? && r.enhancedAltitude.Some? &&
    r.enhancedAltitude.value.units == Some("m")
  }

  /** FIT semicircles to degrees: 2^31 semicircles make 180 degrees. */
  function SemicirclesToDegrees(semicircles: int): real
  {
    semicircles as real * (180.0 / 2147483648.0)
  }

  function RecordPoint(r: FitRecord): GPSPoint
    requires IsUsable(r)
  {
    GPSPoint(Some(SemicirclesToDegrees(r.positionLat.value)), Some(SemicirclesToDegrees(r.positionLong.value)),
             r.enhancedAltitude.value.value)
  }

  /** The points `from_fit` collects from a list of records, in order. */
  function FitPoints(records: seq<FitRecord>): seq<GPSPoint>
  {
    if |records| == 0 then []
    else
      var r := records[|records| - 1];
      FitPoints(records[..|records| - 1]) + if IsUsable(r) then [RecordPoint(r)] else []
  }

  /** `from_fit` over the file's record messages (reading the file is not modelled): one segment. */
  method FromFit(records: seq<FitRecord>) returns (track: GPSTrack)
    ensures track == GPSTrack([GPSTrackSegment(FitPoints(records))])
  {
    var points: seq<GPSPoint> := [];
    for i := 0 to |records|
      invariant points == FitPoints(records[..i])
    {
      Seqs.TakeTake(records, i, i + 1);
      var r := records[i];
      if r.positionLat.None? || r.positionLong.None? || r.enhancedAltitude.None? ||
         r.enhancedAltitude.value.units != Some("m") {
        continue;
      }
      var point := GPSPoint(Some(r.positionLat.value as real * (180.0 / 2147483648.0)),
                            Some(r.positionLong.value as real * (180.0 / 2147483648.0)),
                            r.enhancedAltitude.value.value);
      points := points + [point];
    }
    Seqs.TakeAll(records);
    track := GPSTrack([GPSTrackSegment(points)]);
  }

  /** Kept records stay in input order: the points of a concatenation are the concatenated points. */
  lemma {:induction false} FitPointsAppend(a: seq<FitRecord>, b: seq<FitRecord>)
    ensures FitPoints(a + b) == FitPoints(a) + FitPoints(b)
    decreases |b|
  {
    if |b| > 0 {
      FitPointsAppend(a, b[..|b| - 1]);
      assert (a + b)[..|a + b| - 1] == a + b[..|b| - 1];
    } else {
      assert a + b == a;
    }
  }

  /** A record contributes its point exactly when it is usable, wherever it stands. */
  lemma {:induction false} FitRecordContribution(a: seq<FitRecord>, r: FitRecord, b: seq<FitRecord>)
    ensures FitPoints(a + [r] + b) == FitPoints(a) + (if IsUsable(r) then [RecordPoint(r)] else []) + FitPoints(b)
  {
    FitPointsAppend(a + [r], b);
    FitPointsAppend(a, [r]);
    assert [r][..0] == [];
  }

  /** Every point from a FIT file has both coordinates, within 180 degrees when the semicircles are
      32-bit values; it is valid exactly when its altitude value was present. */
  lemma {:induction false} FitPointsPositioned(records: seq<FitRecord>)
    requires forall i :: 0 <= i < |records| && records[i].positionLat.Some? ==>
               -2147483648 <= records[i].positionLat.value <= 2147483647
    ensures |FitPoints(records)| <= |records|
    ensures forall k :: 0 <= k < |FitPoints(records)| ==>
              var p := FitPoints(records)[k];
              p.latitude.Some? && p.longitude.Some? && -180.0 <= p.latitude.value <= 180.0 &&
              (IsValid(p) <==> p.elevation.Some?)
    decreases |records|
  {
    if |records| > 0 {
      var front := records[..|records| - 1];
      assert forall i :: 0 <= i < |front| ==> front[i] == records[i];
      FitPointsPositioned(front);
    }
  }

  // ---------------------------------------------------------------- loading a file

  /** `from_file`: dispatch on the file name's extension. Opening and parsing the file belong to the
      GPX and FIT libraries, so the parsed GPX document and the FIT record messages of the file are
      supplied; only the branch the name selects is used. */
  method FromFile(filePath: string, gpx: Gpxpy.GPX, fitRecords: seq<FitRecord>) returns (r: Result<GPSTrack>)
    ensures Py.EndsWith(filePath, ".gpx") ==> r == Ok(GPSTrack(GpxSegments(gpx.tracks)))
    ensures !Py.EndsWith(filePath, ".gpx") && Py.EndsWith(filePath, ".fit") ==>
              r == Ok(GPSTrack([GPSTrackSegment(FitPoints(fitRecords))]))
    ensures !Py.EndsWith(filePath, ".gpx") && !Py.EndsWith(filePath, ".fit") ==>
              r == Err(ValueError("Unsupported file type: " + filePath))
  {
    if Py.EndsWith(filePath, ".gpx") {
      var track := FromGpx(gpx);
      r := Ok(track);
    } else if Py.EndsWith(filePath, ".fit") {
      var track := FromFit(fitRecords);
      r := Ok(track);
    } else {
      r := Err(ValueError("Unsupported file type: " + filePath));
    }
  }

  /** Only names ending in ".gpx" or ".fit" load; every other name is refused, the empty one included. */
  lemma {:induction false} FromFileAccepts(filePath: string)
    ensures (Py.EndsWith(filePath, ".gpx") || Py.EndsWith(filePath, ".fit")) ==> |filePath| >= 4 && filePath[|filePath| - 4] == '.'
    ensures Py.EndsWith(filePath, ".gpx") ==> !Py.EndsWith(filePath, ".fit")
  {
    if Py.EndsWith(filePath, ".gpx") {
      assert filePath[|filePath| - 1] == 'x';
    }
  }
}
