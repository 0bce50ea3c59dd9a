/** Points, the fixed rectangle mesh, the per-axis quadrant logic of the corner
    arcs, and what an indexed triangle draw reads from a packed vertex buffer. */
module Geometry {

  datatype Option<T> = None | Some(value: T)

  /** A vertex position; floats are modelled as reals. */
  datatype Point = Point(x: real, y: real, z: real)

  /** The four corners of the rectangle, all at depth 0.5. */
  const LeftBottom: Point := Point(-1.0, -1.0, 0.5)
  const RightBottom: Point := Point(1.0, -1.0, 0.5)
  const RightTop: Point := Point(1.0, 1.0, 0.5)
  const LeftTop: Point := Point(-1.0, 1.0, 0.5)

  /** The corners in the order they are packed into the rectangle's vertex
      buffer, which is also the order in which the cutout fans are built. */
  const Corners: seq<Point> := [LeftBottom, RightBottom, RightTop, LeftTop]

  /** The rectangle's index buffer: two triangles sharing the diagonal 0-2. */
  const RectIndices: seq<int> := [0, 1, 2, 0, 2, 3]

  /** Packs points into a float buffer, three floats per vertex, tightly packed. */
  function Flatten(ps: seq<Point>): (r: seq<real>)
    ensures |r| == 3 * |ps|
  {
    if |ps| == 0 then [] else Flatten(ps[..|ps| - 1]) + [ps[|ps| - 1].x, ps[|ps| - 1].y, ps[|ps| - 1].z]
  }

  /** The rectangle's vertex buffer: the four corners, packed. */
  const RectVertexData: seq<real> := Flatten(Corners)

  /** Vertex number `i` of a packed float buffer. */
  function VertexAt(data: seq<real>, i: int): Point
    requires 0 <= i && 3 * i + 2 < |data|
  {
    Point(data[3 * i], data[3 * i + 1], data[3 * i + 2])
  }

  /** Reading back a packed vertex gives the point that was packed. */
  lemma {:induction false} FlattenVertexAt(ps: seq<Point>, v: nat)
    requires v < |ps|
    ensures 3 * v + 2 < |Flatten(ps)| && VertexAt(Flatten(ps), v) == ps[v]
  {
    var front := ps[..|ps| - 1];
    if v < |ps| - 1 {
      FlattenVertexAt(front, v);
      assert front[v] == ps[v];
    }
  }

  /** The vertices an indexed triangle draw of `count` indices fetches, in
      order, or None when the draw would read past the index buffer or fetch a
      vertex outside the vertex buffer. */
  function DrawnVertices(data: seq<real>, indices: seq<int>, count: nat): Option<seq<Point>>
  {
    if count <= |indices| && forall k :: 0 <= k < count ==> 0 <= indices[k] && 3 * indices[k] + 2 < |data| then
      Some(seq(count, k requires 0 <= k < count => VertexAt(data, indices[k])))
    else
      None
  }

  /** Drawing the rectangle's six indices fetches its two triangles
      (left-bottom, right-bottom, right-top) and (left-bottom, right-top, left-top). */
  lemma RectDraw()
    ensures DrawnVertices(RectVertexData, RectIndices, |RectIndices|)
         == Some([LeftBottom, RightBottom, RightTop, LeftBottom, RightTop, LeftTop])
  {
    assert |RectVertexData| == 12;
    FlattenVertexAt(Corners, 0);
    FlattenVertexAt(Corners, 1);
    FlattenVertexAt(Corners, 2);
    FlattenVertexAt(Corners, 3);
    var r := DrawnVertices(RectVertexData, RectIndices, |RectIndices|);
    assert forall k :: 0 <= k < 6 ==> 0 <= RectIndices[k] < 4;
    assert r.Some?;
    var expected := [LeftBottom, RightBottom, RightTop, LeftBottom, RightTop, LeftTop];
    forall k | 0 <= k < 6 ensures r.value[k] == expected[k] {
      assert r.value[k] == VertexAt(RectVertexData, RectIndices[k]);
    }
    assert r.value == expected;
  }

  // ---------------------------------------------------------------------------
  // The two rectangle triangles

  /** Twice the signed area of triangle (a, b, q): positive when the three
      points turn counter-clockwise. */
  function Cross(a: Point, b: Point, q: Point): real
  {
    (b.x - a.x) * (q.y - a.y) - (b.y - a.y) * (q.x - a.x)
  }

  /** q lies in the (closed) counter-clockwise triangle (a, b, c), in the xy-plane. */
  predicate InTriangle(a: Point, b: Point, c: Point, q: Point)
  {
    Cross(a, b, q) >= 0.0 && Cross(b, c, q) >= 0.0 && Cross(c, a, q) >= 0.0
  }

  /** Corner of triangle t (0 or 1), vertex m (0..2), of the rectangle mesh. */
  function RectTriangleCorner(t: nat, m: nat): Point
    requires t < 2 && m < 3
  {
    Corners[RectIndices[3 * t + m]]
  }

  predicate InRectangle(q: Point)
  {
    -1.0 <= q.x <= 1.0 && -1.0 <= q.y <= 1.0
  }

  /** Both rectangle triangles are non-degenerate and wound counter-clockwise. */
  lemma RectTrianglesCounterClockwise(t: nat)
    requires t < 2
    ensures Cross(RectTriangleCorner(t, 0), RectTriangleCorner(t, 1), RectTriangleCorner(t, 2)) > 0.0
  {
  }

  /** The two triangles cover exactly the rectangle [-1,1] x [-1,1]: every point
      of it lies in one of them, and every point of either lies in it. */
  lemma RectMeshCoversRectangle(q: Point)
    ensures InRectangle(q) <==>
      InTriangle(RectTriangleCorner(0, 0), RectTriangleCorner(0, 1), RectTriangleCorner(0, 2), q) ||
      InTriangle(RectTriangleCorner(1, 0), RectTriangleCorner(1, 1), RectTriangleCorner(1, 2), q)
  {
    assert RectTriangleCorner(0, 0) == LeftBottom && RectTriangleCorner(0, 1) == RightBottom;
    assert RectTriangleCorner(0, 2) == RightTop && RectTriangleCorner(1, 0) == LeftBottom;
    assert RectTriangleCorner(1, 1) == RightTop && RectTriangleCorner(1, 2) == LeftTop;
  }

  // ---------------------------------------------------------------------------
  // Quadrant logic of one corner arc, one axis at a time

  /** Arc centre along one axis: one radius from the anchor coordinate `c`
      towards the inside of the rectangle. */
  function ArcOrigin(c: real, radius: real): real
  {
    c + radius * (if c > 0.0 then -1.0 else 1.0)
  }

  /** Arc point coordinate along one axis, where `t` is the cosine (x axis) or
      sine (y axis) of the step's angle. */
  function ArcCoord(c: real, radius: real, t: real): real
  {
    ArcOrigin(c, radius) + t * radius * (if c > 0.0 then 1.0 else -1.0)
  }

  /** Arc point for one step: x from the cosine, y from the sine, z = 0. */
  function ArcPoint(anchor: Point, radius: real, cosine: real, sine: real): Point
  {
    Point(ArcCoord(anchor.x, radius, cosine), ArcCoord(anchor.y, radius, sine), 0.0)
  }

  /** The arc centre is one radius inside the anchor, and the arc point is the
      centre moved by fraction t of the way back towards the anchor: the arc
      bulges into the anchor's own quadrant. */
  lemma ArcFacesAnchor(c: real, radius: real, t: real)
    ensures c - ArcOrigin(c, radius) == (if c > 0.0 then radius else -radius)
    ensures ArcCoord(c, radius, t) == ArcOrigin(c, radius) + t * (c - ArcOrigin(c, radius))
  {
  }

  /** For a trig term in [0, 1] and a non-negative radius, the arc coordinate
      lies between the arc centre and the anchor. */
  lemma ArcCoordBetween(c: real, radius: real, t: real)
    requires 0.0 <= t <= 1.0 && radius >= 0.0
    ensures c > 0.0 ==> ArcOrigin(c, radius) <= ArcCoord(c, radius, t) <= c
    ensures c <= 0.0 ==> c <= ArcCoord(c, radius, t) <= ArcOrigin(c, radius)
  {
    ArcFacesAnchor(c, radius, t);
    if c > 0.0 {
      assert ArcCoord(c, radius, t) - ArcOrigin(c, radius) == t * radius;
      assert t * radius <= radius by { assert (1.0 - t) * radius >= 0.0; }
    } else {
      assert ArcOrigin(c, radius) - ArcCoord(c, radius, t) == t * radius;
      assert t * radius <= radius by { assert (1.0 - t) * radius >= 0.0; }
    }
  }

  /** Step 0 has angle 0; when its cosine is 1 and its sine 0 the first arc
      point has the anchor's x and the arc centre's y: it lies on the
      rectangle's vertical edge through the anchor. */
  lemma ArcStartsOnVerticalEdge(anchor: Point, radius: real)
    ensures ArcPoint(anchor, radius, 1.0, 0.0) == Point(anchor.x, ArcOrigin(anchor.y, radius), 0.0)
  {
  }

  function MirrorX(p: Point): Point { Point(-p.x, p.y, p.z) }

  function MirrorY(p: Point): Point { Point(p.x, -p.y, p.z) }

  /** Mirroring a corner with non-zero coordinates across an axis mirrors its arc points. */
  lemma ArcPointMirror(anchor: Point, radius: real, cosine: real, sine: real)
    requires anchor.x != 0.0 && anchor.y != 0.0
    ensures ArcPoint(MirrorX(anchor), radius, cosine, sine) == MirrorX(ArcPoint(anchor, radius, cosine, sine))
    ensures ArcPoint(MirrorY(anchor), radius, cosine, sine) == MirrorY(ArcPoint(anchor, radius, cosine, sine))
  {
    if anchor.x > 0.0 {
      assert ArcCoord(-anchor.x, radius, cosine) == -ArcCoord(anchor.x, radius, cosine);
    } else {
      assert ArcCoord(-anchor.x, radius, cosine) == -ArcCoord(anchor.x, radius, cosine);
    }
    if anchor.y > 0.0 {
      assert ArcCoord(-anchor.y, radius, sine) == -ArcCoord(anchor.y, radius, sine);
    } else {
      assert ArcCoord(-anchor.y, radius, sine) == -ArcCoord(anchor.y, radius, sine);
    }
  }
}
