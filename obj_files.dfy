/** write_obj_file.py: the OBJ mesh container and the text it writes. */
module ObjFiles {
  import opened Results
  import Py
  import Seqs

  /** A coordinate as the Python code holds it: the literal `0` of a ground vertex is an int,
      computed coordinates are floats. The two print differently ("0" against "0.0"). */
  datatype Number = Int(i: int) | Float(r: real)

  /** A mesh vertex `(x, y, z)`; x and y are always computed floats. */
  datatype Vertex = Vertex(x: real, y: real, z: Number)

  /** `f"{n}"`; the text of a float is supplied by the caller, since float formatting is not modelled. */
  function FormatNumber(n: Number, formatFloat: real -> string): string
  {
    match n
    case Int(i) => Py.Str(i)
    case Float(r) => formatFloat(r)
  }

  /** The line written for a vertex: `v <x> <y> <z>`. */
  function VertexLine(v: Vertex, formatFloat: real -> string): (line: string)
    ensures |line| >= 3 && line[0] == 'v' && line[|line| - 1] == '\n'
  {
    "v " + formatFloat(v.x) + " " + formatFloat(v.y) + " " + FormatNumber(v.z, formatFloat) + "\n"
  }

  /** The decimal text of each index of a polygon. */
  function IndexTexts(polygon: seq<int>): (texts: seq<string>)
    ensures |texts| == |polygon|
  {
    seq(|polygon|, k requires 0 <= k < |polygon| => Py.Str(polygon[k]))
  }

  /** The line written for a polygon: `f` followed by its indices. */
  function FaceLine(polygon: seq<int>): (line: string)
    ensures |line| >= 3 && line[0] == 'f' && line[|line| - 1] == '\n'
  {
    "f " + Py.Join(IndexTexts(polygon), " ") + "\n"
  }

  function VertexLines(vertices: seq<Vertex>, formatFloat: real -> string): (lines: seq<string>)
    ensures |lines| == |vertices|
  {
    seq(|vertices|, k requires 0 <= k < |vertices| => VertexLine(vertices[k], formatFloat))
  }

  function FaceLines(polygons: seq<seq<int>>): (lines: seq<string>)
    ensures |lines| == |polygons|
  {
    seq(|polygons|, k requires 0 <= k < |polygons| => FaceLine(polygons[k]))
  }

  /** No vertex line is the blank line. */
  lemma {:induction false} VertexLinesNotBlank(vs: seq<Vertex>, formatFloat: real -> string)
    ensures forall k :: 0 <= k < |vs| ==> VertexLines(vs, formatFloat)[k] != "\n"
  {
    forall k | 0 <= k < |vs| ensures VertexLines(vs, formatFloat)[k] != "\n" {
      assert VertexLines(vs, formatFloat)[k][0] == 'v';
    }
  }

  /** No face line is the blank line. */
  lemma {:induction false} FaceLinesNotBlank(ps: seq<seq<int>>)
    ensures forall j :: 0 <= j < |ps| ==> FaceLines(ps)[j] != "\n"
  {
    forall j | 0 <= j < |ps| ensures FaceLines(ps)[j] != "\n" {
      assert FaceLines(ps)[j][0] == 'f';
    }
  }

  lemma {:induction false} VertexLinesSnoc(vs: seq<Vertex>, v: Vertex, formatFloat: real -> string)
    ensures VertexLines(vs + [v], formatFloat) == VertexLines(vs, formatFloat) + [VertexLine(v, formatFloat)]
  {
  }

  lemma {:induction false} FaceLinesSnoc(ps: seq<seq<int>>, p: seq<int>)
    ensures FaceLines(ps + [p]) == FaceLines(ps) + [FaceLine(p)]
  {
  }

  /** The writes of `write_to_file`, in order: a vertex line per vertex, a blank line, a face line per polygon. */
  function Layout(vertices: seq<Vertex>, polygons: seq<seq<int>>, formatFloat: real -> string): seq<string>
  {
    VertexLines(vertices, formatFloat) + ["\n"] + FaceLines(polygons)
  }

  /** The mesh under construction: two lists that only ever grow. */
  class ObjFile {
    var vertices: seq<Vertex>
    var polygons: seq<seq<int>>

    constructor (vertices: seq<Vertex>, polygons: seq<seq<int>>)
      ensures this.vertices == vertices && this.polygons == polygons
    {
      this.vertices := vertices;
      this.polygons := polygons;
    }

    /** `add_vertices`: extend the vertex list in place. */
    method AddVertices(vs: seq<Vertex>)
      modifies this
      ensures vertices == old(vertices) + vs
      ensures polygons == old(polygons)
    {
      vertices := vertices + vs;
    }

    /** `add_polygons`: extend the polygon list in place. */
    method AddPolygons(ps: seq<seq<int>>)
      modifies this
      ensures polygons == old(polygons) + ps
      ensures vertices == old(vertices)
    {
      polygons := polygons + ps;
    }

    /** `write_to_file`: the strings written to the file, in order (creating the directory and the
        file itself is not modelled). */
    method WriteToFile(formatFloat: real -> string) returns (written: seq<string>)
      ensures written == Layout(vertices, polygons, formatFloat)
    {
      var vs, ps := vertices, polygons;
      written := [];
      for k := 0 to |vs|
        invariant written == VertexLines(vs[..k], formatFloat)
      {
        VertexLinesSnoc(vs[..k], vs[k], formatFloat);
        Seqs.TakeSnoc(vs, k);
        written := written + [VertexLine(vs[k], formatFloat)];
      }
      Seqs.TakeAll(vs);
      written := written + ["\n"];
      ghost var header := written;
      for k := 0 to |ps|
        invariant written == header + FaceLines(ps[..k])
      {
        FaceLinesSnoc(ps[..k], ps[k]);
        Seqs.TakeSnoc(ps, k);
        written := written + [FaceLine(ps[k])];
      }
      Seqs.TakeAll(ps);
    }
  }

  /** Successive adds concatenate in call order, and write out in that order. */
  method AddThenWrite(vs1: seq<Vertex>, vs2: seq<Vertex>, ps1: seq<seq<int>>, ps2: seq<seq<int>>,
                      formatFloat: real -> string)
    returns (written: seq<string>)
    ensures written == Layout(vs1 + vs2, ps1 + ps2, formatFloat)
  {
    var obj := new ObjFile([], []);
    obj.AddVertices(vs1);
    obj.AddPolygons(ps1);
    assert obj.vertices == vs1 && obj.polygons == ps1;
    obj.AddVertices(vs2);
    obj.AddPolygons(ps2);
    assert obj.vertices == vs1 + vs2 && obj.polygons == ps1 + ps2;
    written := obj.WriteToFile(formatFloat);
  }

  // ---------------------------------------------------------------- reading the text back

  /** The pieces of s between occurrences of c (like Python's `s.split(c)`). */
  function SplitOn(s: string, c: char): (parts: seq<string>)
    ensures |parts| >= 1
  {
    if |s| == 0 then [""]
    else
      var rest := SplitOn(s[1..], c);
      if s[0] == c then [""] + rest else [[s[0]] + rest[0]] + rest[1..]
  }

  predicate AllDigits(s: string)
  {
    forall k :: 0 <= k < |s| ==> Py.IsDigit(s[k])
  }

  /** The value of a string of decimal digits. */
  function ParseNat(s: string): nat
    requires AllDigits(s)
  {
    if |s| == 0 then 0 else ParseNat(s[..|s| - 1]) * 10 + (s[|s| - 1] as int - '0' as int)
  }

  /** The integer a decimal numeral with an optional minus sign denotes. */
  function ParseInt(s: string): Option<int>
  {
    if |s| > 0 && AllDigits(s) then Some(ParseNat(s) as int)
    else if |s| > 1 && s[0] == '-' && AllDigits(s[1..]) then Some(-(ParseNat(s[1..]) as int))
    else None
  }

  function ParseInts(texts: seq<string>): Option<seq<int>>
  {
    if |texts| == 0 then Some([])
    else match (ParseInt(texts[0]), ParseInts(texts[1..]))
      case (Some(i), Some(rest)) => Some([i] + rest)
      case _ => None
  }

  /** The polygon a face line lists, if it is one. */
  function ParseFaceLine(line: string): Option<seq<int>>
  {
    if |line| >= 3 && line[..2] == "f " && line[|line| - 1] == '\n'
    then ParseInts(SplitOn(line[2..|line| - 1], ' '))
    else None
  }

  lemma {:induction false} ParseNatStr(n: nat)
    ensures AllDigits(Py.NatStr(n)) && ParseNat(Py.NatStr(n)) == n
  {
    if n >= 10 {
      ParseNatStr(n / 10);
      var s := Py.NatStr(n);
      assert s[..|s| - 1] == Py.NatStr(n / 10);
    }
  }

  /** `str` of an int reads back as that int. */
  lemma {:induction false} ParseIntStr(i: int)
    ensures ParseInt(Py.Str(i)) == Some(i)
  {
    if i < 0 {
      ParseNatStr(-i);
      Seqs.DropHead("-", Py.NatStr(-i));
      assert !Py.IsDigit(Py.Str(i)[0]);
    } else {
      ParseNatStr(i);
    }
  }

  lemma {:induction false} SplitWithout(a: string, c: char)
    requires forall k :: 0 <= k < |a| ==> a[k] != c
    ensures SplitOn(a, c) == [a]
  {
    if |a| > 0 {
      SplitWithout(a[1..], c);
      assert [a[0]] + a[1..] == a;
    }
  }

  lemma {:induction false} SplitAfterFirst(a: string, c: char, b: string)
    requires forall k :: 0 <= k < |a| ==> a[k] != c
    ensures SplitOn(a + [c] + b, c) == [a] + SplitOn(b, c)
  {
    if |a| == 0 {
      assert a + [c] + b == [c] + b;
      assert ([c] + b)[1..] == b;
    } else {
      SplitAfterFirst(a[1..], c, b);
      assert (a + [c] + b)[1..] == a[1..] + [c] + b;
      assert [a[0]] + a[1..] == a;
    }
  }

  /** Splitting a join at its separator gives the parts back, when no part holds the separator. */
  lemma {:induction false} SplitJoin(parts: seq<string>, c: char)
    requires |parts| >= 1
    requires forall i, k :: 0 <= i < |parts| && 0 <= k < |parts[i]| ==> parts[i][k] != c
    ensures SplitOn(Py.Join(parts, [c]), c) == parts
  {
    if |parts| == 1 {
      SplitWithout(parts[0], c);
    } else {
      SplitJoin(parts[1..], c);
      SplitAfterFirst(parts[0], c, Py.Join(parts[1..], [c]));
      assert [parts[0]] + parts[1..] == parts;
    }
  }

  lemma {:induction false} ParseIndexTexts(polygon: seq<int>)
    ensures ParseInts(IndexTexts(polygon)) == Some(polygon)
  {
    if |polygon| > 0 {
      ParseIntStr(polygon[0]);
      ParseIndexTexts(polygon[1..]);
      assert IndexTexts(polygon)[1..] == IndexTexts(polygon[1..]);
      assert [polygon[0]] + polygon[1..] == polygon;
    }
  }

  /** A face line reads back as the polygon it was written from. */
  lemma {:induction false} FaceLineRoundTrip(polygon: seq<int>)
    requires |polygon| >= 1
    ensures ParseFaceLine(FaceLine(polygon)) == Some(polygon)
  {
    var texts := IndexTexts(polygon);
    var line := FaceLine(polygon);
    assert line[..2] == "f ";
    assert line[2..|line| - 1] == Py.Join(texts, " ");
    forall i, k | 0 <= i < |texts| && 0 <= k < |texts[i]| ensures texts[i][k] != ' ' {
      assert texts[i] == Py.Str(polygon[i]);
    }
    SplitJoin(texts, ' ');
    ParseIndexTexts(polygon);
  }

  /** The layout of the written file: vertex lines in order, then the only blank line, then
      one face line per polygon in order, each reading back as its polygon. */
  lemma {:induction false} LayoutShape(vertices: seq<Vertex>, polygons: seq<seq<int>>, formatFloat: real -> string)
    ensures var lines := Layout(vertices, polygons, formatFloat);
      && |lines| == |vertices| + 1 + |polygons|
      && (forall k :: 0 <= k < |vertices| ==> lines[k] == VertexLine(vertices[k], formatFloat))
      && (forall k :: 0 <= k < |lines| ==> (lines[k] == "\n" <==> k == |vertices|))
      && (forall j :: 0 <= j < |polygons| && |polygons[j]| >= 1 ==>
            ParseFaceLine(lines[|vertices| + 1 + j]) == Some(polygons[j]))
  {
    LayoutVertexLines(vertices, polygons, formatFloat);
    LayoutBlankLine(vertices, polygons, formatFloat);
    LayoutFacesReadBack(vertices, polygons, formatFloat);
  }

  lemma {:induction false} LayoutVertexLines(vertices: seq<Vertex>, polygons: seq<seq<int>>, formatFloat: real -> string)
    ensures var lines := Layout(vertices, polygons, formatFloat);
      && |lines| == |vertices| + 1 + |polygons|
      && (forall k :: 0 <= k < |vertices| ==> lines[k] == VertexLine(vertices[k], formatFloat))
  {
    var lines := Layout(vertices, polygons, formatFloat);
    var vertexLines, faceLines := VertexLines(vertices, formatFloat), FaceLines(polygons);
    forall k | 0 <= k < |vertices| ensures lines[k] == VertexLine(vertices[k], formatFloat) {
      Seqs.PlacementAt(vertexLines, "\n", faceLines, k);
    }
  }

  lemma {:induction false} LayoutBlankLine(vertices: seq<Vertex>, polygons: seq<seq<int>>, formatFloat: real -> string)
    ensures var lines := Layout(vertices, polygons, formatFloat);
      forall k :: 0 <= k < |lines| ==> (lines[k] == "\n" <==> k == |vertices|)
  {
    var vertexLines, faceLines := VertexLines(vertices, formatFloat), FaceLines(polygons);
    VertexLinesNotBlank(vertices, formatFloat);
    FaceLinesNotBlank(polygons);
    Seqs.OnlyBetween(vertexLines, "\n", faceLines);
  }

  lemma {:induction false} LayoutFaceLines(vertices: seq<Vertex>, polygons: seq<seq<int>>, formatFloat: real -> string)
    ensures var lines := Layout(vertices, polygons, formatFloat);
      && |lines| == |vertices| + 1 + |polygons|
      && forall j :: 0 <= j < |polygons| ==> lines[|vertices| + 1 + j] == FaceLine(polygons[j])
  {
    var lines := Layout(vertices, polygons, formatFloat);
    var vertexLines, faceLines := VertexLines(vertices, formatFloat), FaceLines(polygons);
    forall j | 0 <= j < |polygons|
      ensures lines[|vertices| + 1 + j] == FaceLine(polygons[j])
    {
      Seqs.PlacementAt(vertexLines, "\n", faceLines, |vertices| + 1 + j);
    }
  }

  lemma {:induction false} LayoutFacesReadBack(vertices: seq<Vertex>, polygons: seq<seq<int>>, formatFloat: real -> string)
    ensures var lines := Layout(vertices, polygons, formatFloat);
      && |lines| == |vertices| + 1 + |polygons|
      && forall j :: 0 <= j < |polygons| && |polygons[j]| >= 1 ==>
           ParseFaceLine(lines[|vertices| + 1 + j]) == Some(polygons[j])
  {
    var lines := Layout(vertices, polygons, formatFloat);
    LayoutFaceLines(vertices, polygons, formatFloat);
    forall j | 0 <= j < |polygons| && |polygons[j]| >= 1
      ensures ParseFaceLine(lines[|vertices| + 1 + j]) == Some(polygons[j])
    {
      FaceLineRoundTrip(polygons[j]);
    }
  }
}
