/** The geometry shared by gps_to_obj.py and gpx_to_obj.py: the configuration, `move_point`,
    the four-vertex cross-section of `_get_vertices_for_point` and the height of a cross-section.
    The two files define these identically. */
module Extrusion {
  import opened Results
  import ObjFiles

  /** `GPSTrackConfig` / `GPXConfig`: all lengths in metres of the source track. */
  datatype Config = Config(elevationMultiplier: real, smoothingInterval: real, baseHeight: real, pathWidth: real)

  /** `math.sin` and `math.cos`, supplied by the caller (floating-point trigonometry is not modelled). */
  datatype Trig = Trig(sin: real -> real, cos: real -> real)

  /** The identity sin² + cos² = 1 at one angle, which real trigonometry satisfies everywhere. */
  ghost predicate UnitCircleAt(trig: Trig, angle: real)
  {
    trig.sin(angle) * trig.sin(angle) + trig.cos(angle) * trig.cos(angle) == 1.0
  }

  type Point2 = (real, real)

  /** `move_point`: step `distance` along `angle`, measured so that x grows with its sine. */
  function MovePoint(point: Point2, angle: real, distance: real, trig: Trig): (moved: Point2)
  {
    (point.0 + trig.sin(angle) * distance, point.1 + trig.cos(angle) * distance)
  }

  /** A move covers exactly the distance asked for when sin² + cos² = 1 at its angle. */
  lemma {:induction false} MovePointDistance(point: Point2, angle: real, distance: real, trig: Trig)
    requires UnitCircleAt(trig, angle)
    ensures var moved := MovePoint(point, angle, distance, trig);
            (moved.0 - point.0) * (moved.0 - point.0) + (moved.1 - point.1) * (moved.1 - point.1)
              == distance * distance
  {
    var s, c := trig.sin(angle), trig.cos(angle);
    calc {
      (s * distance) * (s * distance) + (c * distance) * (c * distance);
      (s * s + c * c) * (distance * distance);
      distance * distance;
    }
  }

  /** `_get_vertices_for_point`: the rectangular cross-section at `location`, two ground vertices
      (`z` the int 0) around two raised ones (`z` the elevation), spread half the path width to
      each side. */
  function VerticesForPoint(location: Point2, angle: real, elevation: real, pathWidth: real, trig: Trig)
    : (vs: seq<ObjFiles.Vertex>)
  {
    var halfWidth := pathWidth / 2.0;
    var dx := trig.cos(angle) * halfWidth;
    var dy := trig.sin(angle) * halfWidth * -1.0;
    [ ObjFiles.Vertex(location.0 + dx, location.1 + dy, ObjFiles.Int(0)),
      ObjFiles.Vertex(location.0 + dx, location.1 + dy, ObjFiles.Float(elevation)),
      ObjFiles.Vertex(location.0 - dx, location.1 - dy, ObjFiles.Float(elevation)),
      ObjFiles.Vertex(location.0 - dx, location.1 - dy, ObjFiles.Int(0)) ]
  }

  /** The cross-section has four vertices: ground, raised, raised, ground. The first two stand on one
      side, the last two on the other, symmetric about `location`; the side-to-side direction is
      perpendicular to the direction `move_point` travels at the same angle, and the two sides are a
      path width apart when sin² + cos² = 1. */
  lemma {:induction false} CrossSectionShape(location: Point2, angle: real, elevation: real, pathWidth: real, trig: Trig)
    ensures var vs := VerticesForPoint(location, angle, elevation, pathWidth, trig);
      && |vs| == 4
      && vs[0].z == ObjFiles.Int(0) && vs[3].z == ObjFiles.Int(0)
      && vs[1].z == ObjFiles.Float(elevation) && vs[2].z == ObjFiles.Float(elevation)
      && vs[0].x == vs[1].x && vs[0].y == vs[1].y && vs[2].x == vs[3].x && vs[2].y == vs[3].y
      && (vs[0].x + vs[3].x) / 2.0 == location.0 && (vs[0].y + vs[3].y) / 2.0 == location.1
      && (vs[0].x - vs[3].x) * trig.sin(angle) + (vs[0].y - vs[3].y) * trig.cos(angle) == 0.0
      && (UnitCircleAt(trig, angle) ==>
            (vs[0].x - vs[3].x) * (vs[0].x - vs[3].x) + (vs[0].y - vs[3].y) * (vs[0].y - vs[3].y)
              == pathWidth * pathWidth)
  {
    var vs := VerticesForPoint(location, angle, elevation, pathWidth, trig);
    var s, c, h := trig.sin(angle), trig.cos(angle), pathWidth / 2.0;
    assert vs[0].x - vs[3].x == 2.0 * c * h;
    assert vs[0].y - vs[3].y == -2.0 * s * h;
    assert (2.0 * c * h) * s + (-2.0 * s * h) * c == 0.0;
    if UnitCircleAt(trig, angle) {
      calc {
        (2.0 * c * h) * (2.0 * c * h) + (-2.0 * s * h) * (-2.0 * s * h);
        (s * s + c * c) * (4.0 * h * h);
        4.0 * h * h;
        pathWidth * pathWidth;
      }
    }
  }

  /** The height of a cross-section: `base_height + (elevation - min_elevation) * elevation_multiplier`.
      A missing elevation (None) on either side makes the subtraction raise TypeError. */
  function CrossSectionElevation(elevation: Option<real>, minElevation: Option<real>, config: Config)
    : (r: Result<real>)
    ensures r.Err? <==> elevation.None? || minElevation.None?
    ensures r.Err? ==> r.error == TypeError
  {
    if elevation.None? || minElevation.None? then Err(TypeError)
    else Ok(config.baseHeight + (elevation.value - minElevation.value) * config.elevationMultiplier)
  }

  /** With a non-negative multiplier, a point at or above the minimum stands at least the base height
      high, the lowest point exactly at it, and higher points are never lower. */
  lemma {:induction false} CrossSectionElevationOrder(low: real, high: real, minElevation: real, config: Config)
    requires config.elevationMultiplier >= 0.0
    requires minElevation <= low <= high
    ensures CrossSectionElevation(Some(minElevation), Some(minElevation), config) == Ok(config.baseHeight)
    ensures CrossSectionElevation(Some(low), Some(minElevation), config).value >= config.baseHeight
    ensures CrossSectionElevation(Some(low), Some(minElevation), config).value
              <= CrossSectionElevation(Some(high), Some(minElevation), config).value
  {
    var m := config.elevationMultiplier;
    assert (high - minElevation) * m - (low - minElevation) * m == (high - low) * m;
  }
}
