/** gpx_to_obj.py: `GPXtoOBJ`, the single-track tool. It accepts exactly one track with exactly one
    segment, filters its points, places each cross-section by walking from (0, 0) along the bearings
    and distances between consecutive points, and writes one OBJ object. */
module GpxToObj {
  import opened Results
  import Py
  import Seqs
  import ObjFiles
  import Extrusion
  import Smoothing
  import Gpxpy
  import GpsToObj

  /** `get_angle_and_distance`: bearing (radians) and geodesic distance, computed by a geodesy
      library and supplied here. */
  type AngleAndDistance = (Gpxpy.GPXTrackPoint, Gpxpy.GPXTrackPoint) -> (real, real)

  /** The distance part of `get_angle_and_distance`. This tool works on the parser's
      `GPXTrackPoint`s, not on `GpsTracks.GPSPoint`s, so the geodesic and its distance have their own
      point type here. */
  function DistanceOf(angleAndDistance: AngleAndDistance): (Gpxpy.GPXTrackPoint, Gpxpy.GPXTrackPoint) -> real
  {
    (p: Gpxpy.GPXTrackPoint, q: Gpxpy.GPXTrackPoint) => angleAndDistance(p, q).1
  }

  /** A `GPXtoOBJ` with what it relies on outside this model: its configuration, the geodesic,
      `math.sin`/`math.cos`, and the text of a float in the written file. */
  datatype Converter = Converter(config: Extrusion.Config, angleAndDistance: AngleAndDistance,
                                 trig: Extrusion.Trig, formatFloat: real -> string)

  // ---------------------------------------------------------------- track points

  /** The points `_get_track_points` returns, or the ValueError it raises. */
  function TrackPoints(c: Converter, gpx: Gpxpy.GPX): Result<seq<Gpxpy.GPXTrackPoint>>
  {
    if |gpx.tracks| != 1 then Err(ValueError("Expected exactly one track in GPX file"))
    else if |gpx.tracks[0].segments| != 1 then Err(ValueError("Expected exactly one segment in track"))
    else if |gpx.tracks[0].segments[0].points| < 2 then Err(ValueError("Expected at least two points in segment"))
    else Ok(Smoothing.Smoothed(gpx.tracks[0].segments[0].points, c.config.smoothingInterval, DistanceOf(c.angleAndDistance)))
  }

  /** The document is accepted exactly when it has one track of one segment of at least two points;
      otherwise the first failing check, in the order tracks, segments, points, names the error. */
  lemma {:induction false} TrackPointsValidation(c: Converter, gpx: Gpxpy.GPX)
    ensures TrackPoints(c, gpx).Ok? <==>
              |gpx.tracks| == 1 && |gpx.tracks[0].segments| == 1 && |gpx.tracks[0].segments[0].points| >= 2
    ensures |gpx.tracks| != 1 ==> TrackPoints(c, gpx) == Err(ValueError("Expected exactly one track in GPX file"))
    ensures |gpx.tracks| == 1 && |gpx.tracks[0].segments| != 1 ==>
              TrackPoints(c, gpx) == Err(ValueError("Expected exactly one segment in track"))
    ensures |gpx.tracks| == 1 && |gpx.tracks[0].segments| == 1 && |gpx.tracks[0].segments[0].points| < 2 ==>
              TrackPoints(c, gpx) == Err(ValueError("Expected at least two points in segment"))
  {
  }

  /** The returned points start with the segment's first point and are an order-preserving selection
      of one up to all of its points. */
  lemma {:induction false} TrackPointsSelection(c: Converter, gpx: Gpxpy.GPX)
    requires TrackPoints(c, gpx).Ok?
    ensures var points := gpx.tracks[0].segments[0].points;
            var kept := TrackPoints(c, gpx).value;
            var ix := Smoothing.KeptIndices(points, c.config.smoothingInterval, DistanceOf(c.angleAndDistance));
            && 1 <= |kept| <= |points| && kept[0] == points[0]
            && |ix| == |kept| && Smoothing.Increasing(ix)
            && forall k :: 0 <= k < |kept| ==> ix[k] < |points| && kept[k] == points[ix[k]]
  {
    Smoothing.SmoothedSelects(gpx.tracks[0].segments[0].points, c.config.smoothingInterval, DistanceOf(c.angleAndDistance));
  }

  /** A later point of the segment is kept exactly when its distance from the last point kept before
      it is strictly greater than the smoothing interval. */
  lemma {:induction false} TrackPointsKeptIff(c: Converter, gpx: Gpxpy.GPX, i: nat)
    requires TrackPoints(c, gpx).Ok?
    requires 1 <= i < |gpx.tracks[0].segments[0].points|
    ensures var points := gpx.tracks[0].segments[0].points;
            var dist := DistanceOf(c.angleAndDistance);
            var before := Smoothing.Smoothed(points[..i], c.config.smoothingInterval, dist);
            i in Smoothing.KeptIndices(points, c.config.smoothingInterval, dist) <==>
              c.angleAndDistance(before[|before| - 1], points[i]).1 > c.config.smoothingInterval
  {
    var points := gpx.tracks[0].segments[0].points;
    var dist := DistanceOf(c.angleAndDistance);
    Smoothing.KeptIff(points, i, c.config.smoothingInterval, dist);
    var ix := Smoothing.KeptIndices(points[..i], c.config.smoothingInterval, dist);
    var before := Smoothing.Smoothed(points[..i], c.config.smoothingInterval, dist);
    Smoothing.SmoothedSelects(points[..i], c.config.smoothingInterval, dist);
    assert before[|before| - 1] == points[..i][ix[|ix| - 1]];
  }

  /** `_get_track_points`: the three checks, then the filter loop. */
  method GetTrackPoints(c: Converter, gpx: Gpxpy.GPX) returns (r: Result<seq<Gpxpy.GPXTrackPoint>>)
    ensures r == TrackPoints(c, gpx)
  {
    if |gpx.tracks| != 1 {
      return Err(ValueError("Expected exactly one track in GPX file"));
    }
    var track := gpx.tracks[0];
    if |track.segments| != 1 {
      return Err(ValueError("Expected exactly one segment in track"));
    }
    var segment := track.segments[0];
    if |segment.points| < 2 {
      return Err(ValueError("Expected at least two points in segment"));
    }
    var points := SmoothPoints(segment.points, c.config.smoothingInterval, c.angleAndDistance);
    r := Ok(points);
  }

  /** The loop of `get_track_points`: keep each point farther than the interval from the last kept one. */
  method SmoothPoints(all: seq<Gpxpy.GPXTrackPoint>, smoothingInterval: real, angleAndDistance: AngleAndDistance)
    returns (points: seq<Gpxpy.GPXTrackPoint>)
    requires |all| >= 1
    ensures points == Smoothing.Smoothed(all, smoothingInterval, DistanceOf(angleAndDistance))
  {
    ghost var dist := DistanceOf(angleAndDistance);
    points := [all[0]];
    assert points == Smoothing.Smoothed(all[..1], smoothingInterval, dist);
    for i := 1 to |all|
      invariant points == Smoothing.Smoothed(all[..i], smoothingInterval, dist)
    {
      Smoothing.SmoothedStep(all, i, smoothingInterval, dist);
      var bearingAndDistance := angleAndDistance(points[|points| - 1], all[i]);
      var distance := bearingAndDistance.1;
      assert distance == dist(points[|points| - 1], all[i]);
      if distance > smoothingInterval {
        points := points + [all[i]];
      }
    }
    Seqs.TakeAll(all);
  }

  // ---------------------------------------------------------------- faces

  type Quad = (int, int, int, int)

  /** Wall `j` of the cross-section after index `i`, as a tuple. */
  function WallQuad(i: int, j: int): Quad
  {
    (i + (j + 1) % 4, i + j, i + 4 + j, i + 4 + (j + 1) % 4)
  }

  /** `_get_polygons_for_vertices` of this tool: the same caps and walls as the track tool's, as
      tuples and without an offset. */
  function PolygonsForVertices(vertexCount: int): seq<Quad>
  {
    var starts := Py.Range(0, vertexCount - 8, 4);
    [(1, 2, 3, 4)]
      + seq(4 * |starts|, k requires 0 <= k < 4 * |starts| => WallQuad(starts[k / 4], k % 4 + 1))
      + [(vertexCount - 3, vertexCount - 2, vertexCount - 1, vertexCount)]
  }

  function AsList(q: Quad): seq<int>
  {
    [q.0, q.1, q.2, q.3]
  }

  /** Both tools build the same faces: this tool's tuples are the track tool's lists at offset 0. */
  lemma {:induction false} PolygonsAgree(vertexCount: int)
    ensures var qs := PolygonsForVertices(vertexCount);
            var ps := GpsToObj.PolygonsForVertices(vertexCount, 0);
            |qs| == |ps| && forall k :: 0 <= k < |qs| ==> AsList(qs[k]) == ps[k]
  {
    var qs := PolygonsForVertices(vertexCount);
    var ps := GpsToObj.PolygonsForVertices(vertexCount, 0);
    var walls := GpsToObj.Walls(vertexCount);
    forall k | 0 <= k < |qs|
      ensures AsList(qs[k]) == ps[k]
    {
      GpsToObj.PolygonAt(vertexCount, 0, k);
      if 1 <= k < |qs| - 1 {
        GpsToObj.ShiftZero(walls[k - 1]);
        assert ps[k] == walls[k - 1];
      }
    }
  }

  /** The faces start with `(1, 2, 3, 4)` and end with `(n-3, n-2, n-1, n)`; for a vertex count that
      is a multiple of four and at least eight there are `n - 6` of them; for at least four vertices
      every index lies in [0, n]; and the fourth face uses index 0 once there are more than eight. */
  lemma {:induction false} PolygonsShape(vertexCount: int)
    ensures var qs := PolygonsForVertices(vertexCount);
      && |qs| >= 2
      && qs[0] == (1, 2, 3, 4)
      && qs[|qs| - 1] == (vertexCount - 3, vertexCount - 2, vertexCount - 1, vertexCount)
      && (vertexCount % 4 == 0 && vertexCount >= 8 ==> |qs| == vertexCount - 6)
      && (vertexCount >= 4 ==> forall k :: 0 <= k < |qs| ==>
            0 <= qs[k].0 <= vertexCount && 0 <= qs[k].1 <= vertexCount &&
            0 <= qs[k].2 <= vertexCount && 0 <= qs[k].3 <= vertexCount)
      && (vertexCount > 8 ==> qs[3] == (0, 3, 7, 4))
  {
    var qs := PolygonsForVertices(vertexCount);
    var ps := GpsToObj.PolygonsForVertices(vertexCount, 0);
    PolygonsAgree(vertexCount);
    GpsToObj.PolygonCount(vertexCount, 0);
    if vertexCount >= 4 {
      GpsToObj.PolygonBounds(vertexCount, 0);
      forall k | 0 <= k < |qs|
        ensures 0 <= qs[k].0 <= vertexCount && 0 <= qs[k].1 <= vertexCount &&
                0 <= qs[k].2 <= vertexCount && 0 <= qs[k].3 <= vertexCount
      {
        assert AsList(qs[k]) == ps[k];
        assert ps[k][0] == qs[k].0 && ps[k][1] == qs[k].1 && ps[k][2] == qs[k].2 && ps[k][3] == qs[k].3;
      }
    }
    if vertexCount > 8 {
      GpsToObj.PolygonUsesOffsetIndex(vertexCount, 0);
      assert AsList(qs[3]) == ps[3];
    }
  }

  /** `f"f {polygon[0]} {polygon[1]} {polygon[2]} {polygon[3]}\n"` */
  function FaceLine(q: Quad): string
  {
    "f " + Py.Str(q.0) + " " + Py.Str(q.1) + " " + Py.Str(q.2) + " " + Py.Str(q.3) + "\n"
  }

  /** This tool's face line is the track tool's face line of the same indices. */
  lemma {:induction false} FaceLineAgrees(q: Quad)
    ensures FaceLine(q) == ObjFiles.FaceLine(AsList(q))
  {
    Py.JoinFour(ObjFiles.IndexTexts(AsList(q)), " ");
  }

  /** A face line reads back as its four indices. */
  lemma {:induction false} FaceLineRoundTrip(q: Quad)
    ensures ObjFiles.ParseFaceLine(FaceLine(q)) == Some(AsList(q))
  {
    FaceLineAgrees(q);
    ObjFiles.FaceLineRoundTrip(AsList(q));
  }

  // ---------------------------------------------------------------- vertices

  /** `current_location` before pair k: (0, 0), moved along each earlier pair's bearing by its distance. */
  function LocationBefore(c: Converter, points: seq<Gpxpy.GPXTrackPoint>, k: nat): Extrusion.Point2
    requires k < |points|
  {
    if k == 0 then (0.0, 0.0)
    else
      var step := c.angleAndDistance(points[k - 1], points[k]);
      Extrusion.MovePoint(LocationBefore(c, points, k - 1), step.0, step.1, c.trig)
  }

  /** Consecutive cross-sections stand the geodesic distance apart when sin² + cos² = 1 at the bearing. */
  lemma {:induction false} LocationSpacing(c: Converter, points: seq<Gpxpy.GPXTrackPoint>, k: nat)
    requires k + 1 < |points|
    requires UnitCircleAtStep(c, points, k)
    ensures var here := LocationBefore(c, points, k);
            var next := LocationBefore(c, points, k + 1);
            var d := c.angleAndDistance(points[k], points[k + 1]).1;
            (next.0 - here.0) * (next.0 - here.0) + (next.1 - here.1) * (next.1 - here.1) == d * d
  {
    var step := c.angleAndDistance(points[k], points[k + 1]);
    Extrusion.MovePointDistance(LocationBefore(c, points, k), step.0, step.1, c.trig);
  }

  ghost predicate UnitCircleAtStep(c: Converter, points: seq<Gpxpy.GPXTrackPoint>, k: nat)
    requires k + 1 < |points|
  {
    Extrusion.UnitCircleAt(c.trig, c.angleAndDistance(points[k], points[k + 1]).0)
  }

  /** The vertices of the first `m` pairs, or the TypeError of a missing elevation. */
  function VerticesUpTo(c: Converter, points: seq<Gpxpy.GPXTrackPoint>, minElevation: Option<real>, m: nat)
    : Result<seq<ObjFiles.Vertex>>
    requires m <= GpsToObj.PairCount(|points|)
  {
    if m == 0 then Ok([])
    else
      match VerticesUpTo(c, points, minElevation, m - 1)
      case Err(e) => Err(e)
      case Ok(vs) =>
        match Extrusion.CrossSectionElevation(points[m - 1].elevation, minElevation, c.config)
        case Err(e) => Err(e)
        case Ok(elevation) =>
          var angle := c.angleAndDistance(points[m - 1], points[m]).0;
          Ok(vs + Extrusion.VerticesForPoint(LocationBefore(c, points, m - 1), angle, elevation, c.config.pathWidth, c.trig))
  }

  lemma {:induction false} VerticesErrorStays(c: Converter, points: seq<Gpxpy.GPXTrackPoint>, minElevation: Option<real>,
                                              m: nat, n: nat)
    requires m <= n <= GpsToObj.PairCount(|points|)
    requires VerticesUpTo(c, points, minElevation, m).Err?
    ensures VerticesUpTo(c, points, minElevation, n) == VerticesUpTo(c, points, minElevation, m)
    decreases n - m
  {
    if m < n {
      VerticesErrorStays(c, points, minElevation, m, n - 1);
    }
  }

  /** Cross-section k of a vertex list: ground, raised, raised, ground, raised to the height of the
      pair's first point and centred on `current_location` before the pair. */
  ghost predicate SectionAt(c: Converter, vs: seq<ObjFiles.Vertex>, points: seq<Gpxpy.GPXTrackPoint>,
                            minElevation: Option<real>, k: nat)
    requires k < |points|
  {
    var e := Extrusion.CrossSectionElevation(points[k].elevation, minElevation, c.config);
    var center := LocationBefore(c, points, k);
    && 4 * k + 4 <= |vs| && e.Ok?
    && vs[4 * k].z == ObjFiles.Int(0) && vs[4 * k + 3].z == ObjFiles.Int(0)
    && vs[4 * k + 1].z == ObjFiles.Float(e.value) && vs[4 * k + 2].z == ObjFiles.Float(e.value)
    && (vs[4 * k].x + vs[4 * k + 3].x) / 2.0 == center.0 && (vs[4 * k].y + vs[4 * k + 3].y) / 2.0 == center.1
  }

  /** The first `m` pairs succeed exactly when, if there is a pair, the minimum and the first `m`
      points' elevations are numbers; then there are four vertices per pair, laid out as `SectionAt`
      says, so the first cross-section is centred on (0, 0). */
  lemma {:induction false} VerticesUpToShape(c: Converter, points: seq<Gpxpy.GPXTrackPoint>, minElevation: Option<real>,
                                             m: nat)
    requires m <= GpsToObj.PairCount(|points|)
    ensures var r := VerticesUpTo(c, points, minElevation, m);
      && (r.Ok? <==> m == 0 || (minElevation.Some? && forall k :: 0 <= k < m ==> points[k].elevation.Some?))
      && (r.Err? ==> r.error == TypeError)
      && (r.Ok? ==> |r.value| == 4 * m && forall k :: 0 <= k < m ==> SectionAt(c, r.value, points, minElevation, k))
    decreases m
  {
    if m > 0 {
      VerticesUpToShape(c, points, minElevation, m - 1);
      var prev := VerticesUpTo(c, points, minElevation, m - 1);
      var e := Extrusion.CrossSectionElevation(points[m - 1].elevation, minElevation, c.config);
      if prev.Ok? && e.Ok? {
        var angle := c.angleAndDistance(points[m - 1], points[m]).0;
        var section := Extrusion.VerticesForPoint(LocationBefore(c, points, m - 1), angle, e.value, c.config.pathWidth, c.trig);
        Extrusion.CrossSectionShape(LocationBefore(c, points, m - 1), angle, e.value, c.config.pathWidth, c.trig);
        var vs := prev.value + section;
        forall k | 0 <= k < m
          ensures SectionAt(c, vs, points, minElevation, k)
        {
          if k < m - 1 {
            assert SectionAt(c, prev.value, points, minElevation, k);
            assert vs[4 * k..4 * k + 4] == prev.value[4 * k..4 * k + 4];
          } else {
            assert vs[4 * k..4 * k + 4] == section;
          }
        }
      }
    }
  }

  // ---------------------------------------------------------------- the written file

  /** The items of `min(point.elevation for point in points)`, over `GPXTrackPoint`s (the track
      tool's `GpsTracks.Elevations` is the same generator over a segment of `GPSPoint`s). */
  function Elevations(points: seq<Gpxpy.GPXTrackPoint>): seq<Result<Option<real>>>
  {
    seq(|points|, k requires 0 <= k < |points| => Ok(points[k].elevation))
  }

  /** The lines written: the object header, a line per vertex, a blank line, a line per face. The
      face lines are stated through the shared `ObjFiles.FaceLine`, which `FaceLineAgrees` shows is
      this tool's four-field line. */
  function OutputLines(vertices: seq<ObjFiles.Vertex>, polygons: seq<Quad>, formatFloat: real -> string): seq<string>
  {
    ["o obj_0\n"] + ObjFiles.VertexLines(vertices, formatFloat) + ["\n"] + ObjFiles.FaceLines(AsLists(polygons))
  }

  /** What `_convert_gpx_to_obj` writes, or the exception it raises first. */
  function ConvertSpec(c: Converter, gpx: Gpxpy.GPX): Result<seq<string>>
  {
    match TrackPoints(c, gpx)
    case Err(e) => Err(e)
    case Ok(points) =>
      match Py.MinOf(Elevations(points))
      case Err(e) => Err(e)
      case Ok(minElevation) =>
        match VerticesUpTo(c, points, minElevation, GpsToObj.PairCount(|points|))
        case Err(e) => Err(e)
        case Ok(vertices) => Ok(OutputLines(vertices, PolygonsForVertices(|vertices|), c.formatFloat))
  }

  function AsLists(polygons: seq<Quad>): (lists: seq<seq<int>>)
    ensures |lists| == |polygons|
  {
    seq(|polygons|, k requires 0 <= k < |polygons| => AsList(polygons[k]))
  }

  lemma {:induction false} AsListsSnoc(qs: seq<Quad>, q: Quad)
    ensures AsLists(qs + [q]) == AsLists(qs) + [AsList(q)]
  {
  }

  /** This tool writes the object header followed by exactly the text that the track tool's
      `ObjFile.write_to_file` writes for the same vertices and faces. */
  lemma {:induction false} OutputIsHeaderAndObjLayout(vertices: seq<ObjFiles.Vertex>, polygons: seq<Quad>, formatFloat: real -> string)
    ensures OutputLines(vertices, polygons, formatFloat)
              == ["o obj_0\n"] + ObjFiles.Layout(vertices, AsLists(polygons), formatFloat)
  {
  }

  /** A document that passes the checks and whose kept points are all elevated is written, with
      four vertices for each pair of kept points and the faces for that many vertices. */
  lemma {:induction false} ConvertSucceeds(c: Converter, gpx: Gpxpy.GPX)
    requires TrackPoints(c, gpx).Ok?
    requires forall k :: 0 <= k < |TrackPoints(c, gpx).value| ==> TrackPoints(c, gpx).value[k].elevation.Some?
    ensures var points := TrackPoints(c, gpx).value;
      && |points| >= 1
      && Py.MinOf(Elevations(points)).Ok? && Py.MinOf(Elevations(points)).value.Some?
      && VerticesUpTo(c, points, Py.MinOf(Elevations(points)).value, |points| - 1).Ok?
    ensures var points := TrackPoints(c, gpx).value;
      var vertices := VerticesUpTo(c, points, Py.MinOf(Elevations(points)).value, |points| - 1).value;
      && |vertices| == 4 * (|points| - 1)
      && ConvertSpec(c, gpx) == Ok(OutputLines(vertices, PolygonsForVertices(|vertices|), c.formatFloat))
  {
    var points := TrackPoints(c, gpx).value;
    ElevationsMinimum(points);
    var minElevation := Py.MinOf(Elevations(points)).value;
    VerticesUpToShape(c, points, minElevation, |points| - 1);
    assert GpsToObj.PairCount(|points|) == |points| - 1;
  }

  /** Points that all carry an elevation have a minimum elevation. */
  lemma {:induction false} ElevationsMinimum(points: seq<Gpxpy.GPXTrackPoint>)
    requires |points| >= 1
    requires forall k :: 0 <= k < |points| ==> points[k].elevation.Some?
    ensures Py.MinOf(Elevations(points)).Ok? && Py.MinOf(Elevations(points)).value.Some?
  {
    var items := Elevations(points);
    assert forall k :: 0 <= k < |items| ==> items[k] == Ok(points[k].elevation);
    Py.MinOfAllNumbers(items);
  }

  /** With two or more kept points, one without an elevation makes `min` raise TypeError, so nothing
      is written. */
  lemma {:induction false} ConvertRejectsMissingElevation(c: Converter, gpx: Gpxpy.GPX, k: nat)
    requires TrackPoints(c, gpx).Ok? && |TrackPoints(c, gpx).value| >= 2
    requires k < |TrackPoints(c, gpx).value| && TrackPoints(c, gpx).value[k].elevation.None?
    ensures ConvertSpec(c, gpx) == Err(TypeError)
  {
    var points := TrackPoints(c, gpx).value;
    Py.MinOfRejectsNone(Elevations(points), k);
  }

  /** `_convert_gpx_to_obj`: take the track points, their minimum elevation, walk the pairs building
      the vertices and moving `current_location`, build the faces, then write the lines. */
  method ConvertGpxToObj(c: Converter, gpx: Gpxpy.GPX) returns (r: Result<seq<string>>)
    ensures r == ConvertSpec(c, gpx)
  {
    var trackPoints := GetTrackPoints(c, gpx);
    if trackPoints.Err? {
      return Err(trackPoints.error);
    }
    var points := trackPoints.value;
    var minElevation := Py.MinOf(Elevations(points));
    if minElevation.Err? {
      return Err(minElevation.error);
    }
    var currentLocation: Extrusion.Point2 := (0.0, 0.0);
    var vertices: seq<ObjFiles.Vertex> := [];
    for k := 0 to GpsToObj.PairCount(|points|)
      invariant VerticesUpTo(c, points, minElevation.value, k) == Ok(vertices)
      invariant currentLocation == LocationBefore(c, points, k)
    {
      var step := c.angleAndDistance(points[k], points[k + 1]);
      var angle, distance := step.0, step.1;
      var elevation := Extrusion.CrossSectionElevation(points[k].elevation, minElevation.value, c.config);
      if elevation.Err? {
        VerticesErrorStays(c, points, minElevation.value, k + 1, GpsToObj.PairCount(|points|));
        return Err(elevation.error);
      }
      vertices := vertices + Extrusion.VerticesForPoint(currentLocation, angle, elevation.value, c.config.pathWidth, c.trig);
      currentLocation := Extrusion.MovePoint(currentLocation, angle, distance, c.trig);
    }
    var polygons := PolygonsForVertices(|vertices|);
    var written := WriteLines(vertices, polygons, c.formatFloat);
    r := Ok(written);
  }

  /** The writing loops of `_convert_gpx_to_obj`. */
  method WriteLines(vertices: seq<ObjFiles.Vertex>, polygons: seq<Quad>, formatFloat: real -> string)
    returns (written: seq<string>)
    ensures written == OutputLines(vertices, polygons, formatFloat)
  {
    var vertexLines: seq<string> := [];
    for k := 0 to |vertices|
      invariant vertexLines == ObjFiles.VertexLines(vertices[..k], formatFloat)
    {
      Seqs.TakeSnoc(vertices, k);
      ObjFiles.VertexLinesSnoc(vertices[..k], vertices[k], formatFloat);
      vertexLines := vertexLines + [ObjFiles.VertexLine(vertices[k], formatFloat)];
    }
    Seqs.TakeAll(vertices);
    var faceLines: seq<string> := [];
    for k := 0 to |polygons|
      invariant faceLines == ObjFiles.FaceLines(AsLists(polygons[..k]))
    {
      Seqs.TakeSnoc(polygons, k);
      AsListsSnoc(polygons[..k], polygons[k]);
      ObjFiles.FaceLinesSnoc(AsLists(polygons[..k]), AsList(polygons[k]));
      FaceLineAgrees(polygons[k]);
      faceLines := faceLines + [FaceLine(polygons[k])];
    }
    Seqs.TakeAll(polygons);
    written := ["o obj_0\n"] + vertexLines + ["\n"] + faceLines;
  }
}
