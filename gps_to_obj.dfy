/** gps_to_obj.py: `GPSTrackToOBJ`, which extrudes every segment of a GPS track into a strip of
    box-like sections: four vertices per cross-section, and face index lists that close the two ends
    and join consecutive cross-sections with four walls. */
module GpsToObj {
  import opened Results
  import Py
  import ObjFiles
  import Extrusion
  import GpsTracks
  import Smoothing
  import Seqs

  // ---------------------------------------------------------------- faces

  /** Wall `j` (1 to 4) between the cross-section whose vertices follow index `i` and the next one,
      with the `(j + 1) % 4` of the source: for `j = 3` its first and last indices are `i` and `i + 4`,
      one below the cross-sections' own indices. */
  function Wall(i: int, j: int): seq<int>
  {
    [i + (j + 1) % 4, i + j, i + 4 + j, i + 4 + (j + 1) % 4]
  }

  /** `[i + segment_offset for i in vertex_list]` */
  function Shift(polygon: seq<int>, offset: int): seq<int>
  {
    seq(|polygon|, k requires 0 <= k < |polygon| => polygon[k] + offset)
  }

  /** Shifting by 0 changes nothing. */
  lemma {:induction false} ShiftZero(polygon: seq<int>)
    ensures Shift(polygon, 0) == polygon
  {
  }

  /** The walls, for `i in range(0, vertex_count - 8, 4)` and, inside, `j in range(1, 5)`. */
  function Walls(vertexCount: int): (walls: seq<seq<int>>)
  {
    var starts := Py.Range(0, vertexCount - 8, 4);
    seq(4 * |starts|, k requires 0 <= k < 4 * |starts| => Wall(starts[k / 4], k % 4 + 1))
  }

  /** `_get_polygons_for_vertices`: the opening cap, the walls, the closing cap, every index shifted by
      the segment's offset. */
  function PolygonsForVertices(vertexCount: int, segmentOffset: int): (polygons: seq<seq<int>>)
  {
    var lists := [[1, 2, 3, 4]] + Walls(vertexCount)
                 + [[vertexCount - 3, vertexCount - 2, vertexCount - 1, vertexCount]];
    seq(|lists|, k requires 0 <= k < |lists| => Shift(lists[k], segmentOffset))
  }

  /** The number of faces: the two caps and four walls per value of the range; for a vertex count
      that is a multiple of four and at least eight this is `vertex_count - 6`, and below twelve
      vertices only the caps are left. */
  lemma {:induction false} PolygonCount(vertexCount: int, segmentOffset: int)
    ensures |PolygonsForVertices(vertexCount, segmentOffset)| == 2 + 4 * |Py.Range(0, vertexCount - 8, 4)|
    ensures vertexCount % 4 == 0 && vertexCount >= 8 ==> |PolygonsForVertices(vertexCount, segmentOffset)| == vertexCount - 6
    ensures vertexCount < 12 && vertexCount % 4 == 0 ==> |PolygonsForVertices(vertexCount, segmentOffset)| == 2
  {
    if vertexCount % 4 == 0 && vertexCount >= 8 {
      Py.RangeLengthStep4(vertexCount - 8);
    }
  }

  /** The first face closes the opening with the segment's first four vertices, the last face closes
      the end with its last four, and every face has four indices. */
  lemma {:induction false} PolygonCaps(vertexCount: int, segmentOffset: int)
    ensures var ps := PolygonsForVertices(vertexCount, segmentOffset);
      && |ps| >= 2
      && ps[0] == [1 + segmentOffset, 2 + segmentOffset, 3 + segmentOffset, 4 + segmentOffset]
      && ps[|ps| - 1] == [vertexCount - 3 + segmentOffset, vertexCount - 2 + segmentOffset,
                          vertexCount - 1 + segmentOffset, vertexCount + segmentOffset]
      && forall k :: 0 <= k < |ps| ==> |ps[k]| == 4
  {
  }

  /** The walls sit between the caps in order: for the t-th cross-section (from 0) walls 1 to 4. */
  lemma {:induction false} PolygonWalls(vertexCount: int, segmentOffset: int, t: nat, j: int)
    requires 4 * t + 8 < vertexCount && 1 <= j <= 4
    ensures var ps := PolygonsForVertices(vertexCount, segmentOffset);
            1 + 4 * t + (j - 1) < |ps| - 1 && ps[1 + 4 * t + (j - 1)] == Shift(Wall(4 * t, j), segmentOffset)
  {
    var starts := Py.Range(0, vertexCount - 8, 4);
    assert |starts| * 4 >= vertexCount - 8 > 4 * t;
    var k := 1 + 4 * t + (j - 1);
    assert (k - 1) / 4 == t && (k - 1) % 4 + 1 == j;
    var i := WallAt(vertexCount, segmentOffset, k);
  }

  /** For at least four vertices every index lies between the offset and the offset plus the
      vertex count. */
  lemma {:induction false} PolygonBounds(vertexCount: int, segmentOffset: int)
    requires vertexCount >= 4
    ensures var ps := PolygonsForVertices(vertexCount, segmentOffset);
            forall k, m :: 0 <= k < |ps| && 0 <= m < |ps[k]| ==>
              segmentOffset <= ps[k][m] <= vertexCount + segmentOffset
  {
    var ps := PolygonsForVertices(vertexCount, segmentOffset);
    PolygonCaps(vertexCount, segmentOffset);
    forall k, m | 0 <= k < |ps| && 0 <= m < |ps[k]|
      ensures segmentOffset <= ps[k][m] <= vertexCount + segmentOffset
    {
      if 1 <= k < |ps| - 1 {
        var i := WallAt(vertexCount, segmentOffset, k);
        WallBounds(i, (k - 1) % 4 + 1, segmentOffset);
      }
    }
  }

  /** Face `k` strictly between the caps is a wall after a cross-section start `i` the range yields,
      returned here. */
  lemma {:induction false} WallAt(vertexCount: int, segmentOffset: int, k: int) returns (i: int)
    requires 1 <= k < |PolygonsForVertices(vertexCount, segmentOffset)| - 1
    ensures i == 4 * ((k - 1) / 4) && 0 <= i < vertexCount - 8
    ensures PolygonsForVertices(vertexCount, segmentOffset)[k] == Shift(Wall(i, (k - 1) % 4 + 1), segmentOffset)
  {
    var walls := Walls(vertexCount);
    PolygonAt(vertexCount, segmentOffset, k);
    Seqs.BracketedAt([1, 2, 3, 4], walls, [vertexCount - 3, vertexCount - 2, vertexCount - 1, vertexCount], k);
    i := WallsAt(vertexCount, k - 1);
  }

  /** Face `k` is list `k` of the caps and walls, shifted. */
  lemma {:induction false} PolygonAt(vertexCount: int, segmentOffset: int, k: int)
    requires 0 <= k < |PolygonsForVertices(vertexCount, segmentOffset)|
    ensures var lists := [[1, 2, 3, 4]] + Walls(vertexCount)
                         + [[vertexCount - 3, vertexCount - 2, vertexCount - 1, vertexCount]];
            && |PolygonsForVertices(vertexCount, segmentOffset)| == |lists|
            && PolygonsForVertices(vertexCount, segmentOffset)[k] == Shift(lists[k], segmentOffset)
  {
  }

  /** Wall `k` of the range's walls, with the cross-section start `i` it follows. */
  lemma {:induction false} WallsAt(vertexCount: int, k: int) returns (i: int)
    requires 0 <= k < |Walls(vertexCount)|
    ensures i == 4 * (k / 4) && 0 <= i < vertexCount - 8
    ensures Walls(vertexCount)[k] == Wall(i, k % 4 + 1)
  {
    var starts := Py.Range(0, vertexCount - 8, 4);
    var t := k / 4;
    assert 4 * t <= k < 4 * t + 4;
    i := starts[t];
  }

  /** A wall after index `i`, shifted by `offset`, has four indices, from `i + offset` to
      `i + 8 + offset`. */
  lemma {:induction false} WallBounds(i: int, j: int, offset: int)
    requires 1 <= j <= 4
    ensures var w := Shift(Wall(i, j), offset);
            |w| == 4 && forall m :: 0 <= m < |w| ==> i + offset <= w[m] <= i + 8 + offset
  {
    assert 0 <= (j + 1) % 4 <= 3;
  }

  /** The quirk of wall 3: with more than eight vertices the fourth face starts with the offset itself,
      the index just below the segment's first vertex (index 0, which the 1-based OBJ format lacks,
      for the first segment). */
  lemma {:induction false} PolygonUsesOffsetIndex(vertexCount: int, segmentOffset: int)
    requires vertexCount > 8
    ensures var ps := PolygonsForVertices(vertexCount, segmentOffset);
            |ps| > 3 && ps[3] == [segmentOffset, 3 + segmentOffset, 7 + segmentOffset, 4 + segmentOffset]
  {
    PolygonWalls(vertexCount, segmentOffset, 0, 3);
  }

  /** The quirk of the range stopping one cross-section early: with whole cross-sections, no wall
      reaches the last cross-section, whose indices appear only in the closing cap. */
  lemma {:induction false} PolygonLastSectionOnlyInCap(vertexCount: int, segmentOffset: int)
    requires vertexCount % 4 == 0 && vertexCount >= 8
    ensures var ps := PolygonsForVertices(vertexCount, segmentOffset);
            forall k, m :: 0 <= k < |ps| - 1 && 0 <= m < |ps[k]| ==> ps[k][m] <= vertexCount - 4 + segmentOffset
  {
    var ps := PolygonsForVertices(vertexCount, segmentOffset);
    forall k | 0 <= k < |ps| - 1
      ensures forall m :: 0 <= m < |ps[k]| ==> ps[k][m] <= vertexCount - 4 + segmentOffset
    {
      FaceBeforeLastSection(vertexCount, segmentOffset, k);
    }
  }

  /** The step of PolygonLastSectionOnlyInCap for face `k`. */
  lemma {:induction false} FaceBeforeLastSection(vertexCount: int, segmentOffset: int, k: int)
    requires vertexCount % 4 == 0 && vertexCount >= 8
    requires 0 <= k < |PolygonsForVertices(vertexCount, segmentOffset)| - 1
    ensures var face := PolygonsForVertices(vertexCount, segmentOffset)[k];
            forall m :: 0 <= m < |face| ==> face[m] <= vertexCount - 4 + segmentOffset
  {
    if k == 0 {
      PolygonCaps(vertexCount, segmentOffset);
    } else {
      var i := WallAt(vertexCount, segmentOffset, k);
      assert i <= vertexCount - 12;
      WallBounds(i, (k - 1) % 4 + 1, segmentOffset);
    }
  }

  /** A segment without vertices still gets the two caps; the closing one points below the offset. */
  lemma {:induction false} PolygonsForNoVertices(segmentOffset: int)
    ensures PolygonsForVertices(0, segmentOffset) ==
              [[1 + segmentOffset, 2 + segmentOffset, 3 + segmentOffset, 4 + segmentOffset],
               [-3 + segmentOffset, -2 + segmentOffset, -1 + segmentOffset, segmentOffset]]
  {
    var ps := PolygonsForVertices(0, segmentOffset);
    assert Walls(0) == [];
    assert |ps| == 2;
    PolygonCaps(0, segmentOffset);
    assert ps == [ps[0], ps[1]];
  }

  /** Shifting by an offset is the same as computing the faces for offset 0 and adding the offset
      to every index. */
  lemma {:induction false} PolygonOffset(vertexCount: int, segmentOffset: int)
    ensures var ps := PolygonsForVertices(vertexCount, segmentOffset);
            var base := PolygonsForVertices(vertexCount, 0);
            |ps| == |base| && forall k :: 0 <= k < |ps| ==> ps[k] == Shift(base[k], segmentOffset)
  {
  }

  // ---------------------------------------------------------------- vertices

  /** A `GPSTrackToOBJ` with what it relies on outside this model: its configuration, the geodesic
      `angle_and_distance_to`, `math.sin`/`math.cos`, and the text of a float in the written file. */
  datatype Converter = Converter(config: Extrusion.Config, angleAndDistance: GpsTracks.AngleAndDistance,
                                 trig: Extrusion.Trig, formatFloat: real -> string)

  /** `pairwise` yields one pair fewer than there are points, and nothing for no point. */
  function PairCount(pointCount: nat): nat
  {
    if pointCount == 0 then 0 else pointCount - 1
  }

  /** The position of a point in the mesh: moved from (0, 0) by its bearing and distance from the
      track's first point. */
  function Location(c: Converter, globalOrigin: GpsTracks.GPSPoint, point: GpsTracks.GPSPoint): Extrusion.Point2
  {
    var toPoint := c.angleAndDistance(globalOrigin, point);
    Extrusion.MovePoint((0.0, 0.0), toPoint.0, toPoint.1, c.trig)
  }

  /** One iteration of `_get_vertices_for_segment`: the cross-section at the pair's first point,
      across the bearing to the second, at the first point's height. */
  function PairVertices(c: Converter, from: GpsTracks.GPSPoint, to: GpsTracks.GPSPoint,
                        globalOrigin: GpsTracks.GPSPoint, minElevation: Option<real>)
    : Result<seq<ObjFiles.Vertex>>
  {
    var angle := c.angleAndDistance(from, to).0;
    match Extrusion.CrossSectionElevation(from.elevation, minElevation, c.config)
    case Err(e) => Err(e)
    case Ok(elevation) =>
      Ok(Extrusion.VerticesForPoint(Location(c, globalOrigin, from), angle, elevation, c.config.pathWidth, c.trig))
  }

  /** The vertices of the first `m` pairs, or the first error one of them raises. */
  function SegmentVerticesUpTo(c: Converter, points: seq<GpsTracks.GPSPoint>, m: nat,
                               globalOrigin: GpsTracks.GPSPoint, minElevation: Option<real>)
    : Result<seq<ObjFiles.Vertex>>
    requires m <= PairCount(|points|)
  {
    if m == 0 then Ok([])
    else
      match SegmentVerticesUpTo(c, points, m - 1, globalOrigin, minElevation)
      case Err(e) => Err(e)
      case Ok(vs) =>
        match PairVertices(c, points[m - 1], points[m], globalOrigin, minElevation)
        case Err(e) => Err(e)
        case Ok(section) => Ok(vs + section)
  }

  /** What `_get_vertices_for_segment` returns for the points of a (filtered) segment. */
  function SegmentVertices(c: Converter, points: seq<GpsTracks.GPSPoint>,
                           globalOrigin: GpsTracks.GPSPoint, minElevation: Option<real>)
    : Result<seq<ObjFiles.Vertex>>
  {
    SegmentVerticesUpTo(c, points, PairCount(|points|), globalOrigin, minElevation)
  }

  /** Once a pair has raised, the later pairs do not change the outcome. */
  lemma {:induction false} SegmentVerticesErrorStays(c: Converter, points: seq<GpsTracks.GPSPoint>, m: nat, n: nat,
                                                     globalOrigin: GpsTracks.GPSPoint, minElevation: Option<real>)
    requires m <= n <= PairCount(|points|)
    requires SegmentVerticesUpTo(c, points, m, globalOrigin, minElevation).Err?
    ensures SegmentVerticesUpTo(c, points, n, globalOrigin, minElevation)
              == SegmentVerticesUpTo(c, points, m, globalOrigin, minElevation)
    decreases n - m
  {
    if m < n {
      SegmentVerticesErrorStays(c, points, m, n - 1, globalOrigin, minElevation);
    }
  }

  /** The first `m` pairs succeed exactly when none of their first points lacks an elevation and,
      if there is a pair at all, the minimum elevation is a number; then they give four vertices
      each: ground, raised, raised, ground, the raised ones at the height of the pair's first point,
      each cross-section centred on that point's position relative to the track's first point. */
  lemma {:induction false} SegmentVerticesUpToShape(c: Converter, points: seq<GpsTracks.GPSPoint>, m: nat,
                                                    globalOrigin: GpsTracks.GPSPoint, minElevation: Option<real>)
    requires m <= PairCount(|points|)
    ensures var r := SegmentVerticesUpTo(c, points, m, globalOrigin, minElevation);
      && (r.Ok? <==> m == 0 || (minElevation.Some? && forall k :: 0 <= k < m ==> points[k].elevation.Some?))
      && (r.Err? ==> r.error == TypeError)
      && (r.Ok? ==> |r.value| == 4 * m)
      && (r.Ok? ==> forall k :: 0 <= k < m ==> SectionAt(c, r.value, k, points[k], globalOrigin, minElevation))
    decreases m
  {
    if m > 0 {
      SegmentVerticesUpToShape(c, points, m - 1, globalOrigin, minElevation);
      var prev := SegmentVerticesUpTo(c, points, m - 1, globalOrigin, minElevation);
      var pair := PairVertices(c, points[m - 1], points[m], globalOrigin, minElevation);
      var from := points[m - 1];
      var angle := c.angleAndDistance(from, points[m]).0;
      if prev.Ok? && pair.Ok? {
        SectionsExtend(c, points, m, globalOrigin, minElevation, prev.value, pair.value);
      }
    }
  }

  /** The step of SegmentVerticesUpToShape: the cross-section of pair m - 1 extends the sections of
      the earlier pairs. */
  lemma {:induction false} SectionsExtend(c: Converter, points: seq<GpsTracks.GPSPoint>, m: nat,
                                          globalOrigin: GpsTracks.GPSPoint, minElevation: Option<real>,
                                          prev: seq<ObjFiles.Vertex>, pair: seq<ObjFiles.Vertex>)
    requires 1 <= m < |points|
    requires |prev| == 4 * (m - 1)
    requires forall k :: 0 <= k < m - 1 ==> SectionAt(c, prev, k, points[k], globalOrigin, minElevation)
    requires PairVertices(c, points[m - 1], points[m], globalOrigin, minElevation) == Ok(pair)
    ensures |prev + pair| == 4 * m
    ensures forall k :: 0 <= k < m ==> SectionAt(c, prev + pair, k, points[k], globalOrigin, minElevation)
  {
    var vs := prev + pair;
    var from := points[m - 1];
    var angle := c.angleAndDistance(from, points[m]).0;
    var e := Extrusion.CrossSectionElevation(from.elevation, minElevation, c.config).value;
    Extrusion.CrossSectionShape(Location(c, globalOrigin, from), angle, e, c.config.pathWidth, c.trig);
    forall k | 0 <= k < m
      ensures SectionAt(c, vs, k, points[k], globalOrigin, minElevation)
    {
      if k < m - 1 {
        assert SectionAt(c, prev, k, points[k], globalOrigin, minElevation);
        assert vs[4 * k..4 * k + 4] == prev[4 * k..4 * k + 4];
      } else {
        assert vs[4 * k..4 * k + 4] == pair;
      }
    }
  }

  /** Cross-section `k` of a vertex list: vertices 4k to 4k + 3 are ground, raised, raised, ground,
      raised to the height of `from`, and centred on the position of `from`. */
  ghost predicate SectionAt(c: Converter, vs: seq<ObjFiles.Vertex>, k: nat, from: GpsTracks.GPSPoint,
                            globalOrigin: GpsTracks.GPSPoint, minElevation: Option<real>)
  {
    var e := Extrusion.CrossSectionElevation(from.elevation, minElevation, c.config);
    var center := Location(c, globalOrigin, from);
    && 4 * k + 4 <= |vs| && e.Ok?
    && vs[4 * k].z == ObjFiles.Int(0) && vs[4 * k + 3].z == ObjFiles.Int(0)
    && vs[4 * k + 1].z == ObjFiles.Float(e.value) && vs[4 * k + 2].z == ObjFiles.Float(e.value)
    && (vs[4 * k].x + vs[4 * k + 3].x) / 2.0 == center.0 && (vs[4 * k].y + vs[4 * k + 3].y) / 2.0 == center.1
  }

  /** `_get_vertices_for_segment`: extend the vertex list pair by pair. */
  method VerticesForSegment(c: Converter, segment: GpsTracks.GPSTrackSegment, globalOrigin: GpsTracks.GPSPoint,
                            minElevation: Option<real>)
    returns (r: Result<seq<ObjFiles.Vertex>>)
    ensures r == SegmentVertices(c, segment.points, globalOrigin, minElevation)
  {
    var points := segment.points;
    var vertices: seq<ObjFiles.Vertex> := [];
    for k := 0 to PairCount(|points|)
      invariant SegmentVerticesUpTo(c, points, k, globalOrigin, minElevation) == Ok(vertices)
    {
      var from, to := points[k], points[k + 1];
      var angle := c.angleAndDistance(from, to).0;
      var elevation := Extrusion.CrossSectionElevation(from.elevation, minElevation, c.config);
      if elevation.Err? {
        SegmentVerticesErrorStays(c, points, k + 1, PairCount(|points|), globalOrigin, minElevation);
        return Err(elevation.error);
      }
      var toOrigin := c.angleAndDistance(globalOrigin, from);
      var location := Extrusion.MovePoint((0.0, 0.0), toOrigin.0, toOrigin.1, c.trig);
      vertices := vertices + Extrusion.VerticesForPoint(location, angle, elevation.value, c.config.pathWidth, c.trig);
    }
    r := Ok(vertices);
  }

  // ---------------------------------------------------------------- the whole track

  /** One iteration of `run` for one segment: filter it, then build its vertices. */
  function SegmentBlock(c: Converter, segment: GpsTracks.GPSTrackSegment, globalOrigin: GpsTracks.GPSPoint,
                        minElevation: Option<real>)
    : Result<seq<ObjFiles.Vertex>>
  {
    if |segment.points| == 0 then Err(IndexError)
    else SegmentVertices(c, SmoothedPoints(c, segment), globalOrigin, minElevation)
  }

  /** The vertex blocks of the segments in order, or the first error one of them raises. */
  function Blocks(c: Converter, segments: seq<GpsTracks.GPSTrackSegment>, globalOrigin: GpsTracks.GPSPoint,
                  minElevation: Option<real>)
    : Result<seq<seq<ObjFiles.Vertex>>>
  {
    if |segments| == 0 then Ok([])
    else
      match Blocks(c, segments[..|segments| - 1], globalOrigin, minElevation)
      case Err(e) => Err(e)
      case Ok(blocks) =>
        match SegmentBlock(c, segments[|segments| - 1], globalOrigin, minElevation)
        case Err(e) => Err(e)
        case Ok(block) => Ok(blocks + [block])
  }

  /** The mesh's vertex list: the blocks one after another. */
  function Flatten(blocks: seq<seq<ObjFiles.Vertex>>): seq<ObjFiles.Vertex>
  {
    if |blocks| == 0 then [] else Flatten(blocks[..|blocks| - 1]) + blocks[|blocks| - 1]
  }

  /** The mesh's faces: each block's faces shifted by the number of vertices before the block. */
  function AssembledPolygons(blocks: seq<seq<ObjFiles.Vertex>>): seq<seq<int>>
  {
    if |blocks| == 0 then []
    else
      var front := blocks[..|blocks| - 1];
      AssembledPolygons(front) + PolygonsForVertices(|blocks[|blocks| - 1]|, |Flatten(front)|)
  }

  /** What `run` writes for a track: the lines of the OBJ file, or the exception it raises first. */
  function RunSpec(c: Converter, track: GpsTracks.GPSTrack): Result<seq<string>>
  {
    if |track.segments| == 0 || |track.segments[0].points| == 0 then Err(IndexError)
    else
      match GpsTracks.TrackMinElevation(track)
      case Err(e) => Err(e)
      case Ok(minElevation) =>
        match Blocks(c, track.segments, track.segments[0].points[0], minElevation)
        case Err(e) => Err(e)
        case Ok(blocks) => Ok(ObjFiles.Layout(Flatten(blocks), AssembledPolygons(blocks), c.formatFloat))
  }

  /** Once a segment has raised, the later segments do not change the outcome. */
  lemma {:induction false} BlocksErrorStays(c: Converter, segments: seq<GpsTracks.GPSTrackSegment>, t: nat,
                                            globalOrigin: GpsTracks.GPSPoint, minElevation: Option<real>)
    requires t <= |segments|
    requires Blocks(c, segments[..t], globalOrigin, minElevation).Err?
    ensures Blocks(c, segments, globalOrigin, minElevation) == Blocks(c, segments[..t], globalOrigin, minElevation)
    decreases |segments| - t
  {
    if t < |segments| {
      var front := segments[..|segments| - 1];
      assert front[..t] == segments[..t];
      BlocksErrorStays(c, front, t, globalOrigin, minElevation);
    } else {
      assert segments[..t] == segments;
    }
  }

  /** A segment that raises ends the scan with its error. */
  lemma {:induction false} BlocksStop(c: Converter, segments: seq<GpsTracks.GPSTrackSegment>, t: nat,
                   globalOrigin: GpsTracks.GPSPoint, minElevation: Option<real>, blocks: seq<seq<ObjFiles.Vertex>>)
    requires t < |segments|
    requires Blocks(c, segments[..t], globalOrigin, minElevation) == Ok(blocks)
    requires SegmentBlock(c, segments[t], globalOrigin, minElevation).Err?
    ensures Blocks(c, segments, globalOrigin, minElevation) == Err(SegmentBlock(c, segments[t], globalOrigin, minElevation).error)
  {
    Seqs.TakeTake(segments, t, t + 1);
    BlocksErrorStays(c, segments, t + 1, globalOrigin, minElevation);
  }

  /** A segment that succeeds adds its block. */
  lemma {:induction false} BlocksContinue(c: Converter, segments: seq<GpsTracks.GPSTrackSegment>, t: nat,
                       globalOrigin: GpsTracks.GPSPoint, minElevation: Option<real>, blocks: seq<seq<ObjFiles.Vertex>>)
    requires t < |segments|
    requires Blocks(c, segments[..t], globalOrigin, minElevation) == Ok(blocks)
    requires SegmentBlock(c, segments[t], globalOrigin, minElevation).Ok?
    ensures var block := SegmentBlock(c, segments[t], globalOrigin, minElevation).value;
            && Blocks(c, segments[..t + 1], globalOrigin, minElevation) == Ok(blocks + [block])
            && Flatten(blocks + [block]) == Flatten(blocks) + block
            && AssembledPolygons(blocks + [block]) ==
                 AssembledPolygons(blocks) + PolygonsForVertices(|block|, |Flatten(blocks)|)
  {
    Seqs.TakeTake(segments, t, t + 1);
    var block := SegmentBlock(c, segments[t], globalOrigin, minElevation).value;
    assert (blocks + [block])[..|blocks|] == blocks;
  }

  /** Block k of the vertex list starts right after the vertices of the blocks before it. */
  lemma {:induction false} FlattenPlacement(blocks: seq<seq<ObjFiles.Vertex>>, k: nat, i: nat)
    requires k < |blocks| && i < |blocks[k]|
    ensures |Flatten(blocks[..k])| + i < |Flatten(blocks)|
    ensures Flatten(blocks)[|Flatten(blocks[..k])| + i] == blocks[k][i]
    decreases |blocks|
  {
    var front := blocks[..|blocks| - 1];
    if k < |blocks| - 1 {
      assert front[..k] == blocks[..k];
      FlattenPlacement(front, k, i);
    } else {
      assert blocks[..k] == front;
    }
  }

  /** Every index of every face lies between `low` and `high`. */
  ghost predicate IndicesWithin(polygons: seq<seq<int>>, low: int, high: int)
  {
    forall k, m :: 0 <= k < |polygons| && 0 <= m < |polygons[k]| ==> low <= polygons[k][m] <= high
  }

  /** When every block has at least one cross-section, every face index of the assembled mesh lies
      between 0 and the number of vertices. */
  lemma {:induction false} AssembledPolygonsBounds(blocks: seq<seq<ObjFiles.Vertex>>)
    requires forall k :: 0 <= k < |blocks| ==> |blocks[k]| >= 4
    ensures IndicesWithin(AssembledPolygons(blocks), 0, |Flatten(blocks)|)
    decreases |blocks|
  {
    if |blocks| > 0 {
      var front := blocks[..|blocks| - 1];
      var last := blocks[|blocks| - 1];
      assert forall k :: 0 <= k < |front| ==> front[k] == blocks[k];
      AssembledPolygonsBounds(front);
      PolygonBounds(|last|, |Flatten(front)|);
      var n := |Flatten(blocks)|;
      assert n == |Flatten(front)| + |last|;
      var before := AssembledPolygons(front);
      var added := PolygonsForVertices(|last|, |Flatten(front)|);
      assert IndicesWithin(before, 0, n);
      assert IndicesWithin(added, 0, n);
      IndicesWithinAppend(before, added, 0, n);
    }
  }

  lemma {:induction false} IndicesWithinAppend(a: seq<seq<int>>, b: seq<seq<int>>, low: int, high: int)
    requires IndicesWithin(a, low, high) && IndicesWithin(b, low, high)
    ensures IndicesWithin(a + b, low, high)
  {
    forall k, m | 0 <= k < |a + b| && 0 <= m < |(a + b)[k]|
      ensures low <= (a + b)[k][m] <= high
    {
      if k < |a| {
        assert (a + b)[k] == a[k];
      } else {
        assert (a + b)[k] == b[k - |a|];
      }
    }
  }

  /** `run`: the first point of the first segment is the origin of the mesh; each segment is filtered,
      turned into vertices and faces, and added to the OBJ file, with `segment_offset` counting the
      vertices already added; then the file is written. */
  method Run(c: Converter, track: GpsTracks.GPSTrack) returns (r: Result<seq<string>>)
    ensures r == RunSpec(c, track)
  {
    if |track.segments| == 0 || |track.segments[0].points| == 0 {
      return Err(IndexError);
    }
    var globalOrigin := track.segments[0].points[0];
    var segmentOffset := 0;
    var minElevation := GpsTracks.TrackMinElevation(track);
    if minElevation.Err? {
      return Err(minElevation.error);
    }
    var objFile := new ObjFiles.ObjFile([], []);
    ghost var blocks: seq<seq<ObjFiles.Vertex>> := [];
    for t := 0 to |track.segments|
      invariant Blocks(c, track.segments[..t], globalOrigin, minElevation.value) == Ok(blocks)
      invariant objFile.vertices == Flatten(blocks)
      invariant objFile.polygons == AssembledPolygons(blocks)
      invariant segmentOffset == |objFile.vertices|
    {
      var segment := track.segments[t];
      var filtered := GpsTracks.FilterBySmoothingInterval(segment, c.config.smoothingInterval, c.angleAndDistance);
      if filtered.Err? {
        BlocksStop(c, track.segments, t, globalOrigin, minElevation.value, blocks);
        return Err(filtered.error);
      }
      var vertices := VerticesForSegment(c, filtered.value, globalOrigin, minElevation.value);
      assert SegmentBlock(c, segment, globalOrigin, minElevation.value) == vertices;
      if vertices.Err? {
        BlocksStop(c, track.segments, t, globalOrigin, minElevation.value, blocks);
        return Err(vertices.error);
      }
      BlocksContinue(c, track.segments, t, globalOrigin, minElevation.value, blocks);
      objFile.AddVertices(vertices.value);
      var polygons := PolygonsForVertices(|vertices.value|, segmentOffset);
      objFile.AddPolygons(polygons);
      segmentOffset := segmentOffset + |vertices.value|;
      blocks := blocks + [vertices.value];
    }
    Seqs.TakeAll(track.segments);
    var written := objFile.WriteToFile(c.formatFloat);
    r := Ok(written);
  }

  /** With a numeric minimum, a non-empty segment whose points are all elevated yields its block:
      four vertices for each pair of its filtered points. */
  lemma {:induction false} SegmentBlockSucceeds(c: Converter, segment: GpsTracks.GPSTrackSegment,
                             globalOrigin: GpsTracks.GPSPoint, minElevation: real)
    requires |segment.points| > 0
    requires forall k :: 0 <= k < |segment.points| ==> segment.points[k].elevation.Some?
    ensures var r := SegmentBlock(c, segment, globalOrigin, Some(minElevation));
            r.Ok? && |r.value| == 4 * (|SmoothedPoints(c, segment)| - 1)
  {
    var filtered := SmoothedPoints(c, segment);
    GpsTracks.SmoothedSelection(segment.points, c.config.smoothingInterval, c.angleAndDistance);
    assert forall k :: 0 <= k < |filtered| ==> filtered[k].elevation.Some?;
    SegmentVerticesUpToShape(c, filtered, PairCount(|filtered|), globalOrigin, Some(minElevation));
  }

  /** The points of a non-empty segment that survive the smoothing filter. */
  function SmoothedPoints(c: Converter, segment: GpsTracks.GPSTrackSegment): seq<GpsTracks.GPSPoint>
    requires |segment.points| > 0
  {
    Smoothing.Smoothed(segment.points, c.config.smoothingInterval, GpsTracks.DistanceOf(c.angleAndDistance))
  }

  /** Every segment of such a track yields its block. */
  lemma {:induction false} BlocksSucceed(c: Converter, segments: seq<GpsTracks.GPSTrackSegment>,
                                         globalOrigin: GpsTracks.GPSPoint, minElevation: real)
    requires forall s :: 0 <= s < |segments| ==> |segments[s].points| > 0
    requires forall s, k :: 0 <= s < |segments| && 0 <= k < |segments[s].points| ==>
               segments[s].points[k].elevation.Some?
    ensures var r := Blocks(c, segments, globalOrigin, Some(minElevation));
      && r.Ok? && |r.value| == |segments|
      && forall s :: 0 <= s < |segments| ==> |r.value[s]| == 4 * (|SmoothedPoints(c, segments[s])| - 1)
    decreases |segments|
  {
    if |segments| > 0 {
      var front := segments[..|segments| - 1];
      var last := segments[|segments| - 1];
      assert forall s :: 0 <= s < |front| ==> front[s] == segments[s];
      BlocksSucceed(c, front, globalOrigin, minElevation);
      SegmentBlockSucceeds(c, last, globalOrigin, minElevation);
      var blocks := Blocks(c, front, globalOrigin, Some(minElevation)).value;
      var block := SegmentBlock(c, last, globalOrigin, Some(minElevation)).value;
      assert Blocks(c, segments, globalOrigin, Some(minElevation)) == Ok(blocks + [block]);
    }
  }

  /** A track whose segments all have points, all of them elevated, is converted: the file holds one
      block of vertices per segment, four per pair of filtered points, and the faces of each block. */
  lemma {:induction false} RunSucceeds(c: Converter, track: GpsTracks.GPSTrack)
    requires GpsTracks.AllElevated(track)
    ensures GpsTracks.TrackMinElevation(track).Ok?
    ensures var origin := track.segments[0].points[0];
      var blocks := Blocks(c, track.segments, origin, GpsTracks.TrackMinElevation(track).value);
      && blocks.Ok?
      && RunSpec(c, track) == Ok(ObjFiles.Layout(Flatten(blocks.value), AssembledPolygons(blocks.value), c.formatFloat))
      && |blocks.value| == |track.segments|
      && forall s :: 0 <= s < |track.segments| ==> |blocks.value[s]| == 4 * (|SmoothedPoints(c, track.segments[s])| - 1)
  {
    GpsTracks.TrackMinElevationBounds(track);
    BlocksSucceed(c, track.segments, track.segments[0].points[0], GpsTracks.TrackMinElevation(track).value.value);
  }

  /** A track without segments, or with an empty segment anywhere, raises instead of being written;
      an empty first segment raises IndexError before the minimum is computed. */
  lemma {:induction false} RunRejectsEmpty(c: Converter, track: GpsTracks.GPSTrack, s: nat)
    requires |track.segments| == 0 || (s < |track.segments| && |track.segments[s].points| == 0)
    ensures RunSpec(c, track).Err?
    ensures |track.segments| == 0 || |track.segments[0].points| == 0 ==> RunSpec(c, track) == Err(IndexError)
  {
    if |track.segments| > 0 && |track.segments[0].points| > 0 {
      GpsTracks.TrackMinElevationRejectsEmptySegment(track, s);
    }
  }
}
