/**
 * The point-list helpers of the In3D.ca helper module: vectors, moving and
 * closing a polygon, selecting the edges a box encloses, and the line segments
 * and constraints a polygon becomes in a sketch. Coordinates are exact reals.
 */
module PointHelpers {
  import opened Wrappers

  /** A `Base.Vector`. */
  datatype Vec = Vec(x: real, y: real, z: real)

  /** `xyz(x=0.0, y=0.0, z=0.0)`: the vector with the given coordinates; with
      every coordinate left at its default it is the zero of addition. */
  function Xyz(x: real := 0.0, y: real := 0.0, z: real := 0.0): (r: Vec)
    ensures r.x == x && r.y == y && r.z == z
    ensures x == 0.0 && y == 0.0 && z == 0.0 ==> forall p :: Add(p, r) == p
  {
    Vec(x, y, z)
  }

  /** `Vector.add`: coordinate-wise sum; taking either summand away again
      gives the other. */
  function Add(p: Vec, v: Vec): (r: Vec)
    ensures Vec(r.x - v.x, r.y - v.y, r.z - v.z) == p
    ensures Vec(r.x - p.x, r.y - p.y, r.z - p.z) == v
  {
    Vec(p.x + v.x, p.y + v.y, p.z + v.z)
  }

  function Neg(v: Vec): Vec
  {
    Vec(-v.x, -v.y, -v.z)
  }

  /** The vector `xyz()` makes is the zero of addition, and moving by `v` is undone by moving by `-v`. */
  lemma XyzIsNeutral(p: Vec, v: Vec)
    ensures Add(p, Xyz()) == p && Add(Xyz(), p) == p
    ensures Add(Add(p, v), Neg(v)) == p
    ensures Xyz(p.x, p.y, p.z) == p
  {
  }

  /** Every point of `points` moved by `v`, in order. */
  function Translate(points: seq<Vec>, v: Vec): (r: seq<Vec>)
    ensures |r| == |points|
    ensures forall i :: 0 <= i < |points| ==> r[i] == Add(points[i], v)
  {
    if points == [] then []
    else Translate(points[..|points| - 1], v) + [Add(points[|points| - 1], v)]
  }

  /** Moving a prefix one point further extends the moved prefix by that point. */
  lemma TranslatePrefix(points: seq<Vec>, v: Vec, i: nat)
    requires i < |points|
    ensures Translate(points[..i + 1], v) == Translate(points[..i], v) + [Add(points[i], v)]
  {
    assert points[..i + 1][..i] == points[..i];
  }

  /** Moving by `v` and then by `-v` gives back the points; moving by zero changes nothing. */
  lemma {:induction false} TranslateInverse(points: seq<Vec>, v: Vec)
    ensures Translate(Translate(points, v), Neg(v)) == points
    ensures Translate(points, Xyz()) == points
  {
    if points != [] {
      var n := |points| - 1;
      TranslateInverse(points[..n], v);
      assert Translate(points, v)[..n] == Translate(points[..n], v);
      XyzIsNeutral(points[n], v);
    }
  }

  /** Moving by `u` and then by `v` is moving by `u + v`. */
  lemma {:induction false} TranslateCompose(points: seq<Vec>, u: Vec, v: Vec)
    ensures Translate(Translate(points, u), v) == Translate(points, Add(u, v))
  {
    if points != [] {
      var n := |points| - 1;
      TranslateCompose(points[..n], u, v);
      assert Translate(points, u)[..n] == Translate(points[..n], u);
    }
  }

  /** The `to_origin` argument: `0` (the default) or a vector. */
  function Offset(toOrigin: Option<Vec>): Vec
  {
    match toOrigin
    case None => Xyz()
    case Some(v) => v
  }

  /** The coordinate-by-coordinate comparison `poly_close` makes. */
  predicate SameCoords(a: Vec, b: Vec)
  {
    a.x == b.x && a.y == b.y && a.z == b.z
  }

  /** `poly_close(vec, to_origin)`: the points moved by the offset, with a copy of
      the first appended when the first and last differ. Comparing the three
      coordinates is comparing the vectors, so the contract speaks of equality. */
  function ClosePoly(vec: seq<Vec>, toOrigin: Option<Vec>): (r: seq<Vec>)
    requires |vec| > 0
    ensures |vec| <= |r| && r[..|vec|] == Translate(vec, Offset(toOrigin))
    ensures |r| == |vec| + 1 <==> Add(vec[0], Offset(toOrigin)) != Add(vec[|vec| - 1], Offset(toOrigin))
    ensures |r| == |vec| <==> Add(vec[0], Offset(toOrigin)) == Add(vec[|vec| - 1], Offset(toOrigin))
    ensures r[0] == r[|r| - 1]
  {
    var moved := Translate(vec, Offset(toOrigin));
    var last := |moved| - 1;
    if !SameCoords(moved[0], moved[last]) then moved + [moved[0]] else moved
  }

  /** A polygon that `poly_close` returns is closed already: closing it again
      without an offset returns it unchanged; and the default offset is the zero vector. */
  lemma ClosePolyIdempotent(vec: seq<Vec>, toOrigin: Option<Vec>)
    requires |vec| > 0
    ensures ClosePoly(ClosePoly(vec, toOrigin), None) == ClosePoly(vec, toOrigin)
    ensures ClosePoly(vec, None) == ClosePoly(vec, Some(Xyz()))
  {
    var r := ClosePoly(vec, toOrigin);
    TranslateInverse(r, Xyz());
  }

  /** `poly_close` as written: the moved list is built point by point, then closed. */
  method PolyClose(vec: seq<Vec>, toOrigin: Option<Vec> := None) returns (moved: seq<Vec>)
    requires |vec| > 0
    ensures moved == ClosePoly(vec, toOrigin)
  {
    var offset := if toOrigin.None? then Xyz() else toOrigin.value;
    moved := [];
    for i := 0 to |vec|
      invariant moved == Translate(vec[..i], offset)
    {
      TranslatePrefix(vec, offset, i);
      moved := moved + [Xyz(vec[i].x + offset.x, vec[i].y + offset.y, vec[i].z + offset.z)];
    }
    assert vec[..|vec|] == vec;
    var last := |moved| - 1;
    if moved[0].x != moved[last].x || moved[0].y != moved[last].y || moved[0].z != moved[last].z {
      moved := moved + [moved[0]];
    }
  }

  /** `poly_translate(list, vector)`: every entry is moved in place, and the same list is returned. */
  method PolyTranslate(list: array<Vec>, vector: Vec) returns (r: array<Vec>)
    modifies list
    ensures r == list
    ensures list[..] == Translate(old(list[..]), vector)
  {
    for i := 0 to list.Length
      invariant list[..i] == Translate(old(list[..i]), vector)
      invariant list[i..] == old(list[i..])
    {
      assert list[i] == old(list[i..])[0];
      TranslatePrefix(old(list[..]), vector, i);
      assert old(list[..])[..i] == old(list[..i]) && old(list[..])[..i + 1] == old(list[..i + 1]);
      list[i] := Add(list[i], vector);
      assert list[..i + 1] == list[..i] + [list[i]];
      assert list[i + 1..] == old(list[i..])[1..];
    }
    assert list[..] == list[..list.Length];
    r := list;
  }

  /** Calling `poly_translate` with `vector` and then with its negation leaves the list as it was. */
  method PolyTranslateRoundTrip(list: array<Vec>, vector: Vec)
    modifies list
    ensures list[..] == old(list[..])
  {
    var moved := PolyTranslate(list, vector);
    var back := PolyTranslate(list, Neg(vector));
    TranslateInverse(old(list[..]), vector);
  }

  // ---------------------------------------------------------------------------
  // Edges enclosed by a box

  /** A `FreeCAD.BoundBox`: its low and high corners. */
  datatype BoundBox = BoundBox(lo: Vec, hi: Vec)

  function Min(a: real, b: real): real { if a <= b then a else b }
  function Max(a: real, b: real): real { if a <= b then b else a }

  /** The low corner is below the high corner on every axis. */
  predicate Ordered(box: BoundBox)
  {
    box.lo.x <= box.hi.x && box.lo.y <= box.hi.y && box.lo.z <= box.hi.z
  }

  /** `FreeCAD.BoundBox(a, b)`: the box spanned by two corners, in either
      order; it holds both and lies inside every box that holds both. */
  function MakeBoundBox(a: Vec, b: Vec): (r: BoundBox)
    ensures Ordered(r) && ContainsPoint(r, a) && ContainsPoint(r, b)
    ensures forall box :: ContainsPoint(box, a) && ContainsPoint(box, b) ==> ContainsBox(box, r)
  {
    BoundBox(Vec(Min(a.x, b.x), Min(a.y, b.y), Min(a.z, b.z)),
             Vec(Max(a.x, b.x), Max(a.y, b.y), Max(a.z, b.z)))
  }

  /** `BoundBox.isInside(point)`: bounds included, so only an ordered box
      contains anything and an ordered box contains its own corners. */
  predicate ContainsPoint(box: BoundBox, p: Vec): (r: bool)
    ensures r ==> Ordered(box)
    ensures Ordered(box) && (p == box.lo || p == box.hi) ==> r
  {
    box.lo.x <= p.x <= box.hi.x && box.lo.y <= p.y <= box.hi.y && box.lo.z <= p.z <= box.hi.z
  }

  /** `BoundBox.isInside(box)`: both corners of `b` lie in `box`; for an
      ordered `b` that is every point of `b` lying in `box`. */
  predicate ContainsBox(box: BoundBox, b: BoundBox): (r: bool)
    ensures Ordered(b) ==> (r <==> forall p :: ContainsPoint(b, p) ==> ContainsPoint(box, p))
  {
    ContainsPoint(box, b.lo) && ContainsPoint(box, b.hi)
  }

  /** An edge of a shape: its bounding box and its vertexes. */
  datatype Edge = Edge(boundBox: BoundBox, vertexes: seq<Vec>)

  /** Whether an edge is selected; None when the test indexes a vertex the edge does not have. */
  function EdgeTest(enclosure: BoundBox, e: Edge, fullyEnclosed: bool): (r: Option<bool>)
    ensures fullyEnclosed ==> r == Some(ContainsBox(enclosure, e.boundBox))
    ensures !fullyEnclosed ==>
              (r == Some(true) <==> exists k :: 0 <= k < |e.vertexes| && k < 2 && ContainsPoint(enclosure, e.vertexes[k]))
    ensures !fullyEnclosed ==> (r.None? <==> |e.vertexes| < 2 && !(|e.vertexes| == 1 && ContainsPoint(enclosure, e.vertexes[0])))
  {
    if fullyEnclosed then Some(ContainsBox(enclosure, e.boundBox))
    else if |e.vertexes| == 0 then None
    else if ContainsPoint(enclosure, e.vertexes[0]) then Some(true)
    else if |e.vertexes| == 1 then None
    else Some(ContainsPoint(enclosure, e.vertexes[1]))
  }

  /** An edge whose box is enclosed and holds its first vertex is also selected when one vertex suffices. */
  lemma FullySelectedIsPartlySelected(enclosure: BoundBox, e: Edge)
    requires EdgeTest(enclosure, e, true) == Some(true)
    requires |e.vertexes| > 0 && ContainsPoint(e.boundBox, e.vertexes[0])
    ensures EdgeTest(enclosure, e, false) == Some(true)
  {
  }

  predicate StrictlyIncreasing(s: seq<nat>)
  {
    forall i, j :: 0 <= i < j < |s| ==> s[i] < s[j]
  }

  lemma AppendKeepsIncreasing(s: seq<nat>, x: nat)
    requires StrictlyIncreasing(s) && forall j :: 0 <= j < |s| ==> s[j] < x
    ensures StrictlyIncreasing(s + [x])
  {
  }

  /** `get_edges_enclosed_by_box(shape, origin, size, fully_enclosed)`. The result
      lists, in increasing order, exactly the edges the test selects; when the
      test of some edge indexes a missing vertex, the error carries the first such edge. */
  method GetEdgesEnclosedByBox(edges: seq<Edge>, origin: Vec, size: Vec, fullyEnclosed: bool := true)
    returns (r: Result<seq<nat>, nat>)
    ensures var enclosure := MakeBoundBox(origin, Add(origin, size));
            r.Ok? <==> forall i :: 0 <= i < |edges| ==> EdgeTest(enclosure, edges[i], fullyEnclosed).Some?
    ensures var enclosure := MakeBoundBox(origin, Add(origin, size));
            r.Ok? ==> StrictlyIncreasing(r.value)
                      && (forall i :: i in r.value ==> i < |edges|)
                      && forall i :: 0 <= i < |edges| ==>
                           (i in r.value <==> EdgeTest(enclosure, edges[i], fullyEnclosed) == Some(true))
    ensures var enclosure := MakeBoundBox(origin, Add(origin, size));
            r.Err? ==> r.error < |edges| && EdgeTest(enclosure, edges[r.error], fullyEnclosed).None?
                       && forall i :: 0 <= i < r.error ==> EdgeTest(enclosure, edges[i], fullyEnclosed).Some?
  {
    var enclosure := MakeBoundBox(origin, Add(origin, size));
    var edgeList: seq<nat> := [];
    for i := 0 to |edges|
      invariant forall j :: 0 <= j < i ==> EdgeTest(enclosure, edges[j], fullyEnclosed).Some?
      invariant StrictlyIncreasing(edgeList) && forall j :: 0 <= j < |edgeList| ==> edgeList[j] < i
      invariant forall j :: 0 <= j < i ==> (j in edgeList <==> EdgeTest(enclosure, edges[j], fullyEnclosed) == Some(true))
    {
      var edge := edges[i];
      AppendKeepsIncreasing(edgeList, i);
      if fullyEnclosed {
        if ContainsBox(enclosure, edge.boundBox) {
          edgeList := edgeList + [i];
        }
      } else {
        if |edge.vertexes| == 0 {
          return Err(i);
        }
        if ContainsPoint(enclosure, edge.vertexes[0]) {
          edgeList := edgeList + [i];
        } else {
          if |edge.vertexes| == 1 {
            return Err(i);
          }
          if ContainsPoint(enclosure, edge.vertexes[1]) {
            edgeList := edgeList + [i];
          }
        }
      }
    }
    return Ok(edgeList);
  }

  // ---------------------------------------------------------------------------
  // Faces and sketches

  /** The points `poly_to_face` and `poly_to_sketch` use: closed by `poly_close` iff `close != 0`. */
  function PolygonPoints(points: seq<Vec>, close: int): (r: seq<Vec>)
    requires close != 0 ==> |points| > 0
    ensures close == 0 ==> r == points
    ensures close != 0 ==> r == ClosePoly(points, None) && |r| >= |points| && r[0] == r[|r| - 1]
  {
    if close != 0 then ClosePoly(points, None) else points
  }

  /** A planar face bounded by a polygon. */
  datatype Face = Face(outline: seq<Vec>)

  /** `poly_to_face(points, close)`. */
  function PolyToFace(points: seq<Vec>, close: int := 0): (f: Face)
    requires close != 0 ==> |points| > 0
    ensures close == 0 ==> f.outline == points
    ensures close != 0 ==> f.outline == ClosePoly(points, None)
    ensures close != 0 ==> |points| <= |f.outline| && f.outline[..|points|] == points && f.outline[0] == f.outline[|f.outline| - 1]
  {
    TranslateInverse(points, Xyz());
    Face(PolygonPoints(points, close))
  }

  /** A `Part.LineSegment`; point 1 is its start and point 2 its end. */
  datatype Segment = LineSegment(start: Vec, end: Vec)

  /** A `Sketcher.Constraint` over geometry indices and point positions. */
  datatype Constraint =
    | Coincident(geo1: int, pos1: int, geo2: int, pos2: int)
    | DistanceX(geo: int, pos: int, value: real)
    | DistanceY(geo: int, pos: int, value: real)

  /** The sketch object `poly_to_sketch` fills. */
  class SketchObject {
    const name: string
    var geometry: seq<Segment>
    var constraints: seq<Constraint>
    var mapMode: string

    /** `doc.addObject('Sketcher::SketchObject', name)`: an empty, unattached sketch. */
    constructor (name: string)
      ensures this.name == name && geometry == [] && constraints == [] && mapMode == "Deactivated"
    {
      this.name := name;
      geometry := [];
      constraints := [];
      mapMode := "Deactivated";
    }

    method AddGeometry(s: Segment)
      modifies this`geometry
      ensures geometry == old(geometry) + [s]
    {
      geometry := geometry + [s];
    }

    method AddConstraint(c: Constraint)
      modifies this`constraints
      ensures constraints == old(constraints) + [c]
    {
      constraints := constraints + [c];
    }
  }

  /** The first `n` segments: segment `i` runs from point `i` to point `i + 1`. */
  function Segments(points: seq<Vec>, n: nat): (r: seq<Segment>)
    requires n < |points| || n == 0
    ensures |r| == n
    ensures forall i :: 0 <= i < n ==> r[i] == LineSegment(points[i], points[i + 1])
  {
    if n == 0 then [] else Segments(points, n - 1) + [LineSegment(points[n - 1], points[n])]
  }

  /** The constraints of loop step `i`: joined to the previous segment (from the
      second step on), then the start point pinned in x and in y. */
  function StepConstraints(points: seq<Vec>, i: nat): seq<Constraint>
    requires i < |points|
  {
    (if i > 0 then [Coincident(i - 1, 2, i, 1)] else [])
    + [DistanceX(i, 1, points[i].x), DistanceY(i, 1, points[i].y)]
  }

  /** The constraints of the first `n` loop steps. */
  function Constraints(points: seq<Vec>, n: nat): seq<Constraint>
    requires n <= |points|
  {
    if n == 0 then [] else Constraints(points, n - 1) + StepConstraints(points, n - 1)
  }

  /** The number of loop steps, `len(range(len(points) - 1))`. */
  function Steps(points: seq<Vec>): nat
  {
    if |points| >= 1 then |points| - 1 else 0
  }

  /** The closing constraint joins the end of the last segment to the start of the first. */
  function ClosingConstraint(points: seq<Vec>): Constraint
  {
    Coincident(|points| - 2, 2, 0, 1)
  }

  /** `poly_to_sketch` as written: one segment and its constraints per step, then the closing constraint. */
  method PolyToSketch(name: string, points: seq<Vec>, close: int := 0) returns (sketch: SketchObject)
    requires close != 0 ==> |points| > 0
    ensures fresh(sketch) && sketch.name == name && sketch.mapMode == "FlatFace"
    ensures var pts := PolygonPoints(points, close);
            sketch.geometry == Segments(pts, Steps(pts))
            && sketch.constraints == Constraints(pts, Steps(pts)) + [ClosingConstraint(pts)]
  {
    var pts := points;
    if close != 0 {
      pts := PolyClose(points);
    }
    assert pts == PolygonPoints(points, close);
    sketch := new SketchObject(name);
    var lastIndex := |pts| - 1;
    var i := 0;
    while i < lastIndex
      invariant 0 <= i && (i <= lastIndex || i == 0)
      invariant sketch.geometry == Segments(pts, i) && sketch.constraints == Constraints(pts, i)
    {
      sketch.AddGeometry(LineSegment(pts[i], pts[i + 1]));
      if i != 0 {
        sketch.AddConstraint(Coincident(i - 1, 2, i, 1));
      }
      sketch.AddConstraint(DistanceX(i, 1, pts[i].x));
      sketch.AddConstraint(DistanceY(i, 1, pts[i].y));
      assert sketch.constraints == Constraints(pts, i + 1);
      i := i + 1;
    }
    sketch.AddConstraint(Coincident(lastIndex - 1, 2, 0, 1));
    sketch.mapMode := "FlatFace";
  }

  /** Where each constraint of the first `n` steps sits: three per step, the
      join of step `i` just before its two distances. */
  lemma {:induction false} ConstraintsLayout(points: seq<Vec>, n: nat)
    requires n <= |points|
    ensures |Constraints(points, n)| == if n == 0 then 0 else 3 * n - 1
    ensures forall i :: 0 <= i < n ==>
              Constraints(points, n)[3 * i] == DistanceX(i, 1, points[i].x)
              && Constraints(points, n)[3 * i + 1] == DistanceY(i, 1, points[i].y)
    ensures forall i :: 1 <= i < n ==> Constraints(points, n)[3 * i - 1] == Coincident(i - 1, 2, i, 1)
  {
    if n > 0 {
      ConstraintsLayout(points, n - 1);
      var c := Constraints(points, n);
      var prev := Constraints(points, n - 1);
      assert c == prev + StepConstraints(points, n - 1);
      forall i | 0 <= i < n - 1
        ensures c[3 * i] == prev[3 * i] && c[3 * i + 1] == prev[3 * i + 1]
      {
      }
      forall i | 1 <= i < n - 1
        ensures c[3 * i - 1] == prev[3 * i - 1]
      {
      }
    }
  }

  /** For a polygon of `k + 1 >= 2` points the sketch has `k` segments and `3k`
      constraints: the step pattern and, last, the closing join `(k-1, 2, 0, 1)`. */
  lemma SketchLayout(points: seq<Vec>)
    requires |points| >= 2
    ensures var k := Steps(points);
            var cs := Constraints(points, k) + [ClosingConstraint(points)];
            |Segments(points, k)| == k && |cs| == 3 * k
            && (forall i :: 0 <= i < k ==>
                  cs[3 * i] == DistanceX(i, 1, points[i].x) && cs[3 * i + 1] == DistanceY(i, 1, points[i].y))
            && (forall i :: 1 <= i < k ==> cs[3 * i - 1] == Coincident(i - 1, 2, i, 1))
            && cs[3 * k - 1] == Coincident(k - 1, 2, 0, 1)
  {
    var k := Steps(points);
    ConstraintsLayout(points, k);
    var cs := Constraints(points, k) + [ClosingConstraint(points)];
    forall i | 0 <= i < k
      ensures cs[3 * i] == DistanceX(i, 1, points[i].x) && cs[3 * i + 1] == DistanceY(i, 1, points[i].y)
    {
      assert cs[3 * i] == Constraints(points, k)[3 * i];
      assert cs[3 * i + 1] == Constraints(points, k)[3 * i + 1];
    }
    forall i | 1 <= i < k
      ensures cs[3 * i - 1] == Coincident(i - 1, 2, i, 1)
    {
      assert cs[3 * i - 1] == Constraints(points, k)[3 * i - 1];
    }
  }

  /** The point at position `pos` (1: start, 2: end) of a segment. */
  function PointOf(s: Segment, pos: int): Vec
  {
    if pos == 1 then s.start else s.end
  }

  /** The constraint names existing segments and point positions. */
  predicate Refers(geometry: seq<Segment>, c: Constraint)
  {
    match c
    case Coincident(g1, p1, g2, p2) => 0 <= g1 < |geometry| && 0 <= g2 < |geometry| && 1 <= p1 <= 2 && 1 <= p2 <= 2
    case DistanceX(g, p, _) => 0 <= g < |geometry| && 1 <= p <= 2
    case DistanceY(g, p, _) => 0 <= g < |geometry| && 1 <= p <= 2
  }

  /** The constraint refers to existing geometry and the geometry meets it. */
  predicate Satisfied(geometry: seq<Segment>, c: Constraint)
  {
    Refers(geometry, c)
    && match c
       case Coincident(g1, p1, g2, p2) => PointOf(geometry[g1], p1) == PointOf(geometry[g2], p2)
       case DistanceX(g, p, v) => PointOf(geometry[g], p).x == v
       case DistanceY(g, p, v) => PointOf(geometry[g], p).y == v
  }

  /** Every constraint refers to existing geometry. */
  predicate AllRefer(geometry: seq<Segment>, cs: seq<Constraint>)
  {
    forall j :: 0 <= j < |cs| ==> Refers(geometry, cs[j])
  }

  /** The geometry meets every constraint. */
  predicate AllSatisfied(geometry: seq<Segment>, cs: seq<Constraint>)
  {
    forall j :: 0 <= j < |cs| ==> Satisfied(geometry, cs[j])
  }

  /** The constraints of the loop steps hold on the sketch's segments, whatever the points. */
  lemma {:induction false} StepsHold(points: seq<Vec>, n: nat)
    requires n <= Steps(points)
    ensures AllSatisfied(Segments(points, Steps(points)), Constraints(points, n))
  {
    if n > 0 {
      StepsHold(points, n - 1);
      var geo := Segments(points, Steps(points));
      var step := StepConstraints(points, n - 1);
      assert geo[n - 1] == LineSegment(points[n - 1], points[n]);
      assert n > 1 ==> geo[n - 2] == LineSegment(points[n - 2], points[n - 1]);
      assert AllSatisfied(geo, step);
      var prev := Constraints(points, n - 1);
      assert Constraints(points, n) == prev + step;
      forall j | 0 <= j < |prev| + |step|
        ensures Satisfied(geo, (prev + step)[j])
      {
        if j < |prev| {
          assert (prev + step)[j] == prev[j];
        } else {
          assert (prev + step)[j] == step[j - |prev|];
        }
      }
    }
  }

  /** Every constraint of the sketch refers to one of its segments exactly when there are at least two points. */
  lemma SketchReferencesValid(points: seq<Vec>)
    ensures var k := Steps(points);
            AllRefer(Segments(points, k), Constraints(points, k) + [ClosingConstraint(points)]) <==> |points| >= 2
  {
    var k := Steps(points);
    var cs := Constraints(points, k) + [ClosingConstraint(points)];
    assert cs[|cs| - 1] == ClosingConstraint(points);
    if |points| >= 2 {
      StepsHold(points, k);
      assert AllRefer(Segments(points, k), Constraints(points, k));
      assert Refers(Segments(points, k), ClosingConstraint(points));
    }
  }

  /** For a polygon of at least two points, every constraint of the sketch holds
      on the segments as built exactly when the polygon is closed: the step
      constraints hold by construction, and the closing join holds iff the first
      and last points coincide. */
  lemma SketchConstraintsHoldIffClosed(points: seq<Vec>)
    requires |points| >= 2
    ensures var k := Steps(points);
            AllSatisfied(Segments(points, k), Constraints(points, k) + [ClosingConstraint(points)])
            <==> points[0] == points[|points| - 1]
  {
    var k := Steps(points);
    var cs := Constraints(points, k) + [ClosingConstraint(points)];
    var geo := Segments(points, k);
    assert cs[|cs| - 1] == ClosingConstraint(points);
    StepsHold(points, k);
    assert geo[k - 1] == LineSegment(points[k - 1], points[k]) && geo[0] == LineSegment(points[0], points[1]);
    assert Satisfied(geo, ClosingConstraint(points)) <==> points[0] == points[|points| - 1];
    assert AllSatisfied(geo, cs) <==> AllSatisfied(geo, Constraints(points, k)) && Satisfied(geo, ClosingConstraint(points)) by {
      forall j | 0 <= j < |cs| - 1
        ensures cs[j] == Constraints(points, k)[j]
      {
      }
    }
  }

  /** Asked to close a polygon of at least two points, `poly_to_sketch` builds
      segments on which every one of its constraints holds. */
  lemma ClosedSketchConstraintsHold(points: seq<Vec>, close: int)
    requires close != 0 && |points| >= 2
    ensures var pts := PolygonPoints(points, close);
            var k := Steps(pts);
            AllSatisfied(Segments(pts, k), Constraints(pts, k) + [ClosingConstraint(pts)])
  {
    var pts := PolygonPoints(points, close);
    SketchConstraintsHoldIffClosed(pts);
  }
}
