# GPS track to OBJ mesh, modelled in Dafny

This project models two small Python tools that turn a recorded GPS track into a 3-D printable
OBJ mesh by extruding the path into a strip of boxes:

- `python/gps-to-obj` reads a GPX or FIT file into a `GPSTrack` of segments. For every segment it:
  - filters the points by a smoothing interval;
  - builds four vertices per pair of consecutive points (a cross-section at the pair's first point, at
    its height above the track's lowest point);
  - builds the quadrilateral faces of the extrusion, shifted by the running `segment_offset`;
  - collects everything in an `ObjFile`, which it then writes.
- `python/gpx-to-obj` does the same for a GPX document with exactly one track of one segment. It
  writes the file itself, with an `o obj_0` header, and tracks the cross-section positions by moving
  a `current_location` step by step.

`gps_track.py` and `write_obj_file.py` are byte-for-byte the same in both directories. Each is
modelled once, by the modules `GpsTracks` and `ObjFiles`, and the table below cites whichever copy a
row was read from. Both tools define `move_point`, the configuration and `_get_vertices_for_point`
identically; they live in `Extrusion`.

Modules:

- `Results` holds `Option`, `Result` and the Python exceptions the code can raise: `ValueError`,
  `TypeError` and `IndexError`.
- `Py` models the Python built-ins the code relies on: `range` with a positive step, `min` over a
  lazily evaluated generator (see below), `str` of an int, `str.join` and `str.endswith`.
- `Seqs` holds generic sequence facts used by the proofs.
- `ObjFiles` holds the `ObjFile` class. Its two lists are fields that `add_vertices` and
  `add_polygons` extend in place. `write_to_file` loops over them and returns the lines it writes.
  The module also reads a face line back into its indices.
- `Smoothing` holds the point filter shared by `filter_by_smoothing_interval` and `_get_track_points`.
  It is written the way the loop builds its list and is proved to be the one selection that:
  - keeps the first point;
  - keeps each later point that is farther than the interval from the last kept point;
  - drops every other point.
- `Gpxpy` holds the GPX document as the parser hands it over.
- `GpsTracks` holds the track model of `gps_track.py`. This covers length, minimum elevation,
  filtering, reading a parsed GPX document, keeping the FIT records, and dispatch on the file
  extension.
- `Extrusion` holds the cross-section geometry and the configuration.
- `GpsToObj` holds the `gps-to-obj` converter. This covers the face indices, the vertices of a segment
  and `run` with its `segment_offset`.
- `GpxToObj` holds the `gpx-to-obj` converter. This covers the track checks, the tuple faces and
  `_convert_gpx_to_obj` with its output lines.

The loops of the source are methods with loop invariants, proved against specification functions:
`FilterBySmoothingInterval`, `FromGpx`, `FromFit`, `VerticesForSegment`, `Run`, `ObjFile.WriteToFile`,
`SmoothPoints`, `ConvertGpxToObj` and `WriteLines`. `GetTrackPoints` has no loop of its own: it
wraps the loop of `SmoothPoints`. The properties are lemmas
about those functions.

Python semantics are written out where they matter:

- `min(g)` over a generator:
  - raises `ValueError` on no items;
  - returns a single item without comparing it;
  - raises `TypeError` as soon as `None` is compared;
  - passes on an exception raised while producing an item.

  This is why `GPSTrack.min_elevation` raises on an empty segment anywhere in the track.
- Ground vertices carry the Python int `0` and raised vertices a float, hence `Number = Int | Float`.
- `self.points[0]` on an empty segment raises `IndexError`.

The face-index quirks are reproduced exactly as written, and are stated as lemmas:

- the wall with `j = 3` uses index `i + 0`, which is 0 for the first wall and points below a segment's
  own vertices;
- `range(0, vertex_count - 8, 4)` stops one cross-section early, so no wall reaches the last
  cross-section;
- zero vertices give the closing cap `[-3, -2, -1, 0]`.

## Model

| member | source | states |
|---|---|---|
| Py.Range | python/gps-to-obj/gps_to_obj.py:144 | `range(start, stop, step)` with a positive step: value t is start + t·step, every value is below stop, and one more step would reach stop. |
| Py.RangeLengthStep4 | python/gpx-to-obj/gpx_to_obj.py:139 | `range(0, n, 4)` for a non-negative multiple n of 4 yields exactly n/4 values. |
| Py.MinOf | python/gps-to-obj/gps_track.py:45 | Definition of `min` over a generator; properties stated by MinOfAllNumbers, MinOfPropagatesErrors and MinOfRejectsNone. |
| Py.MinOfAllNumbers | python/gps-to-obj/gps_track.py:45 | `min` over one or more numbers succeeds, with a value that is at most every item and equal to one of them. |
| Py.MinOfPropagatesErrors | python/gps-to-obj/gps_track.py:64 | An item whose production raises makes `min` raise, whatever its position. |
| Py.MinOfRejectsNone | python/gpx-to-obj/gps_track.py:45 | With two or more items, a single `None` makes `min` raise TypeError. |
| Py.Str | python/gps-to-obj/write_obj_file.py:24 | `str` of an int is non-empty and all digits, except for a minus sign, which can only stand first and only for a negative number. |
| Py.StrSign | python/gps-to-obj/write_obj_file.py:24 | `str` of an int starts with a minus sign if and only if the int is negative. |
| Py.JoinFour | python/gpx-to-obj/gpx_to_obj.py:178-179 | Joining four parts with a separator puts the separator between each neighbouring pair and nowhere else. |
| ObjFiles.VertexLine | python/gps-to-obj/write_obj_file.py:21 | A vertex line starts with `v` and ends with a newline. |
| ObjFiles.FaceLine | python/gps-to-obj/write_obj_file.py:24 | A face line starts with `f` and ends with a newline. |
| ObjFiles.VertexLinesNotBlank | python/gps-to-obj/write_obj_file.py:20-21 | No vertex line is the blank separator line. |
| ObjFiles.FaceLinesNotBlank | python/gps-to-obj/write_obj_file.py:23-24 | No face line is the blank separator line. |
| ObjFiles.Layout | python/gps-to-obj/write_obj_file.py:20-24 | Definition of the lines `write_to_file` writes; properties stated by WriteToFile, AddThenWrite and LayoutShape with its Layout* parts. |
| ObjFiles.ObjFile.constructor | python/gps-to-obj/write_obj_file.py:6-9 | A new `ObjFile` holds exactly the vertex and polygon lists it is given. |
| ObjFiles.ObjFile.AddVertices | python/gps-to-obj/write_obj_file.py:11-12 | `add_vertices(vs)` makes the vertex list the old list followed by vs and leaves the polygons unchanged. |
| ObjFiles.ObjFile.AddPolygons | python/gps-to-obj/write_obj_file.py:14-15 | `add_polygons(ps)` makes the polygon list the old list followed by ps and leaves the vertices unchanged. |
| ObjFiles.ObjFile.WriteToFile | python/gps-to-obj/write_obj_file.py:17-24 | The lines written are the layout of the current lists: a vertex line per vertex, a blank line, a face line per polygon. |
| ObjFiles.AddThenWrite | python/gpx-to-obj/write_obj_file.py:11-24 | Successive adds concatenate in call order, and the file then written is the layout of the concatenated lists. |
| ObjFiles.ParseNatStr | python/gpx-to-obj/write_obj_file.py:24 | The decimal digits of a natural number read back as that number. |
| ObjFiles.ParseIntStr | python/gps-to-obj/write_obj_file.py:24 | `str` of any int, negative ones included, reads back as that int. |
| ObjFiles.SplitJoin | python/gps-to-obj/write_obj_file.py:24 | Splitting `' '.join(parts)` at spaces gives the parts back when no part contains a space. |
| ObjFiles.ParseIndexTexts | python/gpx-to-obj/write_obj_file.py:24 | `map(str, polygon)` reads back, text by text, as the polygon. |
| ObjFiles.FaceLineRoundTrip | python/gps-to-obj/write_obj_file.py:24 | The face line of a non-empty polygon, `"f "` and the indices in decimal separated by single spaces, reads back as exactly that polygon. |
| ObjFiles.LayoutVertexLines | python/gps-to-obj/write_obj_file.py:20-21 | The written file has one line per vertex, one blank line and one line per polygon; line k is the line of vertex k. |
| ObjFiles.LayoutBlankLine | python/gps-to-obj/write_obj_file.py:22 | The blank line is the only one and sits right after the vertex lines. |
| ObjFiles.LayoutFaceLines | python/gpx-to-obj/write_obj_file.py:23-24 | The line after the blank line and j further lines down is the face line of polygon j. |
| ObjFiles.LayoutFacesReadBack | python/gpx-to-obj/write_obj_file.py:23-24 | Each face line of a non-empty polygon reads back as that polygon. |
| ObjFiles.LayoutShape | python/gpx-to-obj/write_obj_file.py:20-24 | The written file consists of the vertex lines in order, then the only blank line, then one face line per polygon in order, each reading back as its polygon. |
| Smoothing.KeptIndices | python/gps-to-obj/gps_track.py:50-54 | The filter keeps at least one and at most all points, the first always, and the last kept position is a position of a point. |
| Smoothing.Smoothed | python/gpx-to-obj/gps_track.py:50-55 | The filter returns at least one point. |
| Smoothing.KeptIndicesOrdered | python/gps-to-obj/gps_track.py:50-54 | The kept positions are strictly increasing positions of the points, starting at 0. |
| Smoothing.SmoothedSelects | python/gpx-to-obj/gps_track.py:50-55 | The returned points are the points at the kept positions, in order. |
| Smoothing.SmoothingExtendKept | python/gps-to-obj/gps_track.py:52-54 | A new point farther than the interval from the last selected point extends a valid selection by that point. |
| Smoothing.SmoothingExtendDropped | python/gpx-to-obj/gps_track.py:52-53 | A new point within the interval of the last selected point leaves a valid selection as it is. |
| Smoothing.KeptIndicesIsSmoothing | python/gps-to-obj/gps_track.py:50-55 | The kept positions are a valid selection: ordered from the first point, each kept point farther than the interval from the kept point before it, and each dropped point within the interval of the last kept point before it. |
| Smoothing.SmoothingPrefix | python/gpx-to-obj/gps_track.py:51-54 | The part of a valid selection that lies in a prefix of the points is a valid selection of that prefix. |
| Smoothing.SmoothingIsKeptIndices | python/gpx-to-obj/gps_track.py:50-55 | Any valid selection is the one the filter makes, so there is only one. |
| Smoothing.LastSelectedStep | python/gps-to-obj/gps_track.py:53-54 | In a valid selection, the last point is selected exactly when it is farther than the interval from the selected point before it. |
| Smoothing.KeptIndicesCharacterized | python/gps-to-obj/gps_track.py:47-55 | A selection is valid if and only if it is the filter's result. |
| Smoothing.KeptPrefix | python/gpx-to-obj/gps_track.py:51-54 | Filtering a prefix of the points keeps exactly the kept positions inside that prefix. |
| Smoothing.KeptInPrefix | python/gpx-to-obj/gps_track.py:51 | Later iterations never remove a kept point: point i is kept overall exactly when it is kept from the first i + 1 points. |
| Smoothing.KeptAtStep | python/gps-to-obj/gps_track.py:52-54 | The iteration that reaches point i keeps it exactly when it is farther than the interval from the last point kept before it. |
| Smoothing.KeptIff | python/gps-to-obj/gps_track.py:51-54 | A point after the first is kept, if and only if, its distance from the last point kept before it is strictly greater than the interval. |
| GpsTracks.IsValid | python/gps-to-obj/gps_track.py:17-22 | Definition: latitude, longitude and elevation are all present; properties stated by FitPointsPositioned. |
| GpsTracks.TrackLen | python/gps-to-obj/gps_track.py:66-67 | Definition of `GPSTrack.__len__`; properties stated by TrackLenCountsAllPoints and TrackLenZeroIff. |
| GpsTracks.SegmentMinElevation | python/gps-to-obj/gps_track.py:44-45 | Definition of `GPSTrackSegment.min_elevation`; properties stated by SegmentMinElevationBounds. |
| GpsTracks.TrackMinElevation | python/gps-to-obj/gps_track.py:63-64 | Definition of `GPSTrack.min_elevation`; properties stated by TrackMinElevationBounds and TrackMinElevationRejectsEmptySegment. |
| GpsTracks.TrackLenCountsAllPoints | python/gps-to-obj/gps_track.py:66-67 | A track's length is the sum of its segments' lengths: it counts every point of every segment once. |
| GpsTracks.TrackLenZeroIff | python/gpx-to-obj/gps_track.py:66-67 | A track has length 0 if and only if every segment is empty. |
| GpsTracks.SegmentMinElevationBounds | python/gps-to-obj/gps_track.py:44-45 | When every point of a non-empty segment has an elevation, the segment's minimum is at most every point's elevation and equals one of them. |
| GpsTracks.TrackMinElevationBounds | python/gps-to-obj/gps_track.py:63-64 | When every segment is non-empty and every point elevated, the track's minimum is at most every point's elevation in every segment and equals one of them. |
| GpsTracks.TrackMinElevationRejectsEmptySegment | python/gpx-to-obj/gps_track.py:63-64 | An empty segment anywhere in the track makes `min_elevation` raise. |
| GpsTracks.FilterBySmoothingInterval | python/gps-to-obj/gps_track.py:47-55 | The loop returns the filter's points, and it raises IndexError exactly when the segment is empty. |
| GpsTracks.SmoothedSelection | python/gpx-to-obj/gps_track.py:47-55 | A filtered non-empty segment starts with the input's first point and is an order-preserving selection of between one and all of its points. |
| GpsTracks.GpxSegments | python/gps-to-obj/gps_track.py:80-96 | Definition of the segments `from_gpx` collects; properties stated by GpxSegmentsShape and FromGpx. |
| GpsTracks.GpxSegmentsShape | python/gps-to-obj/gps_track.py:83-95 | The track has one segment per GPX segment of any track, in document order, each with that segment's points and their latitude, longitude and elevation copied. |
| GpsTracks.FromGpx | python/gpx-to-obj/gps_track.py:78-96 | The nested loops over tracks and segments build exactly the collected segments. |
| GpsTracks.IsUsable | python/gps-to-obj/gps_track.py:104-109 | Definition of the records `from_fit` keeps; properties stated by FitRecordContribution. |
| GpsTracks.SemicirclesToDegrees | python/gps-to-obj/gps_track.py:111-112 | Definition of the scale semicircles · 180 / 2^31; properties stated by FitPointsPositioned. |
| GpsTracks.FitPoints | python/gps-to-obj/gps_track.py:100-116 | Definition of the points `from_fit` collects; properties stated by FromFit, FitPointsAppend, FitRecordContribution and FitPointsPositioned. |
| GpsTracks.FromFit | python/gps-to-obj/gps_track.py:98-116 | The record loop builds a track of one segment holding the points of the usable records. |
| GpsTracks.FitPointsAppend | python/gpx-to-obj/gps_track.py:102-115 | The points of concatenated record lists are the concatenated points, so kept records stay in input order. |
| GpsTracks.FitRecordContribution | python/gps-to-obj/gps_track.py:104-115 | A record contributes its point exactly when latitude, longitude and altitude are present and the altitude unit is `"m"`, wherever the record stands. |
| GpsTracks.FitPointsPositioned | python/gpx-to-obj/gps_track.py:107-115 | Every point from a FIT file has both coordinates, its latitude within 180 degrees for 32-bit semicircles (degrees = semicircles · 180 / 2^31). It is valid (`is_valid`) exactly when its altitude value is present. |
| GpsTracks.FromFile | python/gps-to-obj/gps_track.py:69-76 | A name ending in `.gpx` loads the GPX document; otherwise one ending in `.fit` loads the FIT records; anything else raises `ValueError("Unsupported file type: <name>")`. |
| GpsTracks.FromFileAccepts | python/gpx-to-obj/gps_track.py:70-76 | Only names of at least four characters with a dot before the extension load, and no name selects both branches. |
| Extrusion.MovePoint | python/gps-to-obj/gps_to_obj.py:14-18 | Definition of `move_point`; properties stated by MovePointDistance and GpxToObj.LocationSpacing. |
| Extrusion.MovePointDistance | python/gpx-to-obj/gpx_to_obj.py:14-18 | `move_point` covers exactly the requested distance whenever sin² + cos² = 1 at the angle. |
| Extrusion.VerticesForPoint | python/gps-to-obj/gps_to_obj.py:95-113 | Definition of `_get_vertices_for_point`; properties stated by CrossSectionShape. |
| Extrusion.CrossSectionShape | python/gps-to-obj/gps_to_obj.py:95-113 | A cross-section is four vertices: ground, raised, raised, ground. The ground vertices have z = int 0 and the raised ones z = elevation, each raised vertex over its ground vertex. The pairs are centred on the location and offset across the direction of travel, a path width apart. |
| Extrusion.CrossSectionElevation | python/gps-to-obj/gps_to_obj.py:83-87 | The height raises TypeError exactly when the point's elevation or the minimum is None. |
| Extrusion.CrossSectionElevationOrder | python/gpx-to-obj/gpx_to_obj.py:160-164 | With a non-negative multiplier, the lowest point stands exactly at the base height, no point above the minimum stands lower, and higher points never stand lower. |
| GpsToObj.PolygonsForVertices | python/gps-to-obj/gps_to_obj.py:115-152 | Definition of `_get_polygons_for_vertices`; properties stated by PolygonCount, PolygonCaps, PolygonWalls, WallAt, PolygonBounds, PolygonUsesOffsetIndex, PolygonLastSectionOnlyInCap, PolygonsForNoVertices and PolygonOffset. |
| GpsToObj.PolygonCount | python/gps-to-obj/gps_to_obj.py:137-149 | There are 2 caps plus 4 walls per value of `range(0, n - 8, 4)`: n − 6 faces for a multiple n of 4 with n ≥ 8, and only the two caps for a multiple of 4 below 12. |
| GpsToObj.PolygonCaps | python/gps-to-obj/gps_to_obj.py:136-148 | The first face is `[1+o, 2+o, 3+o, 4+o]` and the last `[n-3+o, n-2+o, n-1+o, n+o]`; every face has exactly four indices. |
| GpsToObj.PolygonWalls | python/gps-to-obj/gps_to_obj.py:137-146 | The walls sit between the caps ordered by cross-section, then by j = 1..4: face 1 + 4t + (j − 1) is wall j after index 4t. |
| GpsToObj.WallsAt | python/gps-to-obj/gps_to_obj.py:137-146 | Wall k of the comprehension is wall k mod 4 + 1 after index 4·(k div 4), an index the range yields. |
| GpsToObj.WallAt | python/gps-to-obj/gps_to_obj.py:137-146 | Each face strictly between the caps is a shifted wall after a cross-section start that the range yields. |
| GpsToObj.WallBounds | python/gps-to-obj/gps_to_obj.py:138-143 | A wall after index i, shifted by the offset o, has four indices, all from i + o to i + 8 + o. |
| GpsToObj.PolygonBounds | python/gps-to-obj/gps_to_obj.py:133-151 | For at least four vertices, every index lies between o and n + o. |
| GpsToObj.PolygonUsesOffsetIndex | python/gps-to-obj/gps_to_obj.py:139 | For more than eight vertices, the fourth face is `[o, 3+o, 7+o, 4+o]`: the wall with j = 3 uses index 0 + o, which the segment's 1-based vertices do not own. |
| GpsToObj.PolygonLastSectionOnlyInCap | python/gps-to-obj/gps_to_obj.py:144-148 | For whole cross-sections, no face but the closing cap uses an index above n − 4 + o: the range stops before the last cross-section. |
| GpsToObj.PolygonsForNoVertices | python/gps-to-obj/gps_to_obj.py:136-148 | Zero vertices still give two caps, `[1+o, 2+o, 3+o, 4+o]` and `[-3+o, -2+o, -1+o, o]`. |
| GpsToObj.PolygonOffset | python/gps-to-obj/gps_to_obj.py:134 | The faces at offset o are the faces at offset 0 with o added to every index. |
| GpsToObj.SegmentVertices | python/gps-to-obj/gps_to_obj.py:80-93 | Definition of what `_get_vertices_for_segment` returns; properties stated by SegmentVerticesUpToShape, SegmentVerticesErrorStays and VerticesForSegment. |
| GpsToObj.SegmentVerticesErrorStays | python/gps-to-obj/gps_to_obj.py:81-92 | Once a pair has raised, later pairs do not change the outcome. |
| GpsToObj.SegmentVerticesUpToShape | python/gps-to-obj/gps_to_obj.py:80-93 | The first m pairs give 4·m vertices, the cross-section of pair k at the height and position of its first point, unless a missing elevation raises TypeError. That happens exactly when there is at least one pair and the minimum or one of the first m points lacks an elevation. |
| GpsToObj.VerticesForSegment | python/gps-to-obj/gps_to_obj.py:77-93 | The pair loop returns the vertices of all pairs of the segment's points, or their first error. |
| GpsToObj.RunSpec | python/gps-to-obj/gps_to_obj.py:57-75 | Definition of what `run` writes or raises; properties stated by Run, RunSucceeds and RunRejectsEmpty. |
| GpsToObj.Blocks | python/gps-to-obj/gps_to_obj.py:61-73 | Definition of the per-segment vertex blocks or the first error; properties stated by BlocksErrorStays, BlocksStop, BlocksContinue and BlocksSucceed. |
| GpsToObj.AssembledPolygons | python/gps-to-obj/gps_to_obj.py:69-73 | Definition of the faces added, each block's shifted by the vertices before it; properties stated by BlocksContinue and AssembledPolygonsBounds. |
| GpsToObj.BlocksErrorStays | python/gps-to-obj/gps_to_obj.py:61-73 | Once a segment has raised, later segments do not change the outcome. |
| GpsToObj.BlocksStop | python/gps-to-obj/gps_to_obj.py:62-67 | A segment whose filtering or vertices raise ends `run` with that error. |
| GpsToObj.BlocksContinue | python/gps-to-obj/gps_to_obj.py:68-73 | A segment that succeeds appends its vertices, and its faces shifted by the number of vertices added before it (`segment_offset`). |
| GpsToObj.FlattenPlacement | python/gps-to-obj/gps_to_obj.py:68 | Vertex i of segment block k sits in the mesh right after the vertices of the earlier blocks. |
| GpsToObj.AssembledPolygonsBounds | python/gps-to-obj/gps_to_obj.py:69-73 | When every segment has at least one cross-section, every face index of the mesh lies between 0 and the number of vertices. |
| GpsToObj.Run | python/gps-to-obj/gps_to_obj.py:46-75 | `run` writes the layout of the concatenated vertex blocks and of each block's faces shifted by `segment_offset`. Its loop invariant makes `segment_offset` the number of vertices in the `ObjFile`. Otherwise it raises the first error. |
| GpsToObj.SegmentBlockSucceeds | python/gps-to-obj/gps_to_obj.py:62-67 | With a numeric minimum, a non-empty, fully elevated segment yields 4·(k − 1) vertices for its k filtered points. |
| GpsToObj.BlocksSucceed | python/gps-to-obj/gps_to_obj.py:61-73 | For such segments every segment yields its block, in order. |
| GpsToObj.RunSucceeds | python/gps-to-obj/gps_to_obj.py:57-75 | A track whose segments are all non-empty and fully elevated is written, with one block per segment of 4·(k − 1) vertices for its k filtered points. |
| GpsToObj.RunRejectsEmpty | python/gps-to-obj/gps_to_obj.py:57-59 | A track without segments, or with an empty segment anywhere, is not written. An empty first segment raises IndexError. |
| GpxToObj.TrackPoints | python/gpx-to-obj/gpx_to_obj.py:76-96 | Definition of what `_get_track_points` returns or raises; properties stated by TrackPointsValidation, TrackPointsSelection, TrackPointsKeptIff and GetTrackPoints. |
| GpxToObj.TrackPointsValidation | python/gpx-to-obj/gpx_to_obj.py:78-87 | The document is accepted exactly when it has one track of one segment of at least two points. Otherwise the first failed check, in the order tracks, segments, points, gives its `ValueError` message. |
| GpxToObj.TrackPointsSelection | python/gpx-to-obj/gpx_to_obj.py:89-96 | The returned points start with the segment's first point and are an order-preserving selection of between one and all of its points. |
| GpxToObj.TrackPointsKeptIff | python/gpx-to-obj/gpx_to_obj.py:91-94 | A later point is kept exactly when its distance from the last point kept before it is strictly greater than the smoothing interval. |
| GpxToObj.GetTrackPoints | python/gpx-to-obj/gpx_to_obj.py:76-96 | `_get_track_points` raises or returns exactly the checked and filtered points. |
| GpxToObj.SmoothPoints | python/gpx-to-obj/gpx_to_obj.py:89-96 | The filter loop returns the filter's points. |
| GpxToObj.PolygonsForVertices | python/gpx-to-obj/gpx_to_obj.py:118-146 | Definition of this tool's `_get_polygons_for_vertices`; properties stated by PolygonsAgree and PolygonsShape. |
| GpxToObj.PolygonsAgree | python/gpx-to-obj/gpx_to_obj.py:135-146 | This tool's face tuples are, one by one, the other tool's face lists at offset 0. |
| GpxToObj.PolygonsShape | python/gpx-to-obj/gpx_to_obj.py:135-146 | The faces start with `(1, 2, 3, 4)` and end with `(n-3, n-2, n-1, n)`. There are n − 6 of them for a multiple n of 4 with n ≥ 8. Every index lies in [0, n] for n ≥ 4, and the fourth face is `(0, 3, 7, 4)` for n > 8. |
| GpxToObj.FaceLine | python/gpx-to-obj/gpx_to_obj.py:177-179 | Definition of the four-field face line; properties stated by FaceLineAgrees and FaceLineRoundTrip. |
| GpxToObj.FaceLineAgrees | python/gpx-to-obj/gpx_to_obj.py:177-179 | The four-field face line is the `ObjFile` face line of the same indices. |
| GpxToObj.FaceLineRoundTrip | python/gpx-to-obj/gpx_to_obj.py:178-179 | A face line reads back as its four indices. |
| GpxToObj.LocationSpacing | python/gpx-to-obj/gpx_to_obj.py:159-168 | Consecutive cross-sections stand the geodesic distance of their pair apart when sin² + cos² = 1 at the bearing. |
| GpxToObj.VerticesUpTo | python/gpx-to-obj/gpx_to_obj.py:158-167 | Definition of the vertices of the first pairs or the first error; properties stated by VerticesUpToShape and VerticesErrorStays. |
| GpxToObj.VerticesErrorStays | python/gpx-to-obj/gpx_to_obj.py:158-167 | Once a pair has raised, later pairs do not change the outcome. |
| GpxToObj.VerticesUpToShape | python/gpx-to-obj/gpx_to_obj.py:155-168 | The first m pairs give 4·m vertices, the cross-section of pair k at the height of its first point and centred on `current_location` before the pair, unless a missing elevation raises TypeError. |
| GpxToObj.OutputLines | python/gpx-to-obj/gpx_to_obj.py:172-180 | Definition of the lines written; properties stated by OutputIsHeaderAndObjLayout and WriteLines. |
| GpxToObj.ConvertSpec | python/gpx-to-obj/gpx_to_obj.py:148-180 | Definition of what `_convert_gpx_to_obj` writes or raises; properties stated by ConvertSucceeds, ConvertRejectsMissingElevation and ConvertGpxToObj. |
| GpxToObj.OutputIsHeaderAndObjLayout | python/gpx-to-obj/gpx_to_obj.py:172-180 | This tool writes `o obj_0` followed by exactly the layout `ObjFile.write_to_file` writes: vertex lines, one blank line, face lines. |
| GpxToObj.ElevationsMinimum | python/gpx-to-obj/gpx_to_obj.py:154 | Points that all carry an elevation have a numeric minimum. |
| GpxToObj.ConvertSucceeds | python/gpx-to-obj/gpx_to_obj.py:153-180 | An accepted document whose kept points are all elevated is written with 4·(len(points) − 1) vertices and the faces for that many vertices. |
| GpxToObj.ConvertRejectsMissingElevation | python/gpx-to-obj/gpx_to_obj.py:154 | With two or more kept points, one without an elevation makes `min` raise TypeError, and nothing is written. |
| GpxToObj.ConvertGpxToObj | python/gpx-to-obj/gpx_to_obj.py:148-180 | `_convert_gpx_to_obj` writes exactly the specified lines, or raises the first error. |
| GpxToObj.WriteLines | python/gpx-to-obj/gpx_to_obj.py:172-180 | The writing loops emit the header, the vertex lines, a blank line and the face lines, in that order; each face is printed as the four-field f-string line, which the proof matches to the shared face line. |

## Left out

- The geodesic (`pyproj.Geod.inv` in `angle_and_distance_to` and `get_angle_and_distance`) is a parameter: a function from two points to a bearing and a distance. The `radians(-90 - bearing)` conversion is part of that parameter.
- `math.sin` and `math.cos` are a parameter (`Extrusion.Trig`). The geometric facts are stated under sin² + cos² = 1 at the angle used.
- Floating-point arithmetic is modelled in exact `real` arithmetic, so rounding is not modelled.
- Python's float-to-text formatting in `v` lines is a parameter, `formatFloat`. Ints are printed exactly.
- File I/O is not modelled. This covers `open`, `os.makedirs`, the writes, `gpxpy.parse` and `fitparse.FitFile`. The written lines are returned in order. The GPX document and the FIT record messages are inputs, and a FIT record is only the fields the code reads.
- `GPXtoOBJ.run` only opens and parses the file before calling `_convert_gpx_to_obj`, so it is not modelled separately.
- The converters' `__init__` (`config or GPSTrackConfig()`, `config or GPXConfig()`) and the dataclass defaults are not modelled: each converter is given its configuration directly.
- JSON configuration parsing (`parse_gps_track_config`, `parse_gpx_config`) is left out, as are values of the wrong type that it could let in: every configuration field is a real.
- Both `main.py` files are command-line and directory-walking plumbing, and are not part of this model.
- `pyproj` raising on `None` coordinates is not modelled: the geodesic parameter is total.
- ObjFiles.ObjFile.constructor: the model copies the lists, so aliasing of the lists passed to `ObjFile(...)` is not modelled. The source only ever passes fresh empty lists.
- Extrusion.CrossSectionShape: states the vertex layout, not concrete coordinates, because these depend on the trigonometry parameter.
