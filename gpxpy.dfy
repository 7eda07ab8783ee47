/** The parsed GPX document as the gpxpy library hands it to the modelled code. Parsing the XML
    is not modelled: a document is an input value. Every coordinate gpxpy yields may be `None`. */
module Gpxpy {
  import opened Results

  datatype GPXTrackPoint = GPXTrackPoint(latitude: Option<real>, longitude: Option<real>, elevation: Option<real>)

  datatype GPXTrackSegment = GPXTrackSegment(points: seq<GPXTrackPoint>)

  datatype GPXTrack = GPXTrack(segments: seq<GPXTrackSegment>)

  datatype GPX = GPX(tracks: seq<GPXTrack>)
}
