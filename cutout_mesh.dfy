/** What the cutout mesh builder leaves in its two buffers, as functions of the
    construction parameters, and the properties of that content: where each
    corner's fan starts, which vertices its triangles use, how much of the index
    buffer stays zero, and that a draw of the whole index buffer stays inside
    the vertex buffer. `n` is the arc precision throughout. */
module CutoutMesh {
  import opened Geometry

  /** Floats in the cutout vertex buffer: four corners of n + 1 vertices each. */
  function VertexCapacity(n: nat): nat { 4 * ((n + 1) * 3) }

  /** Ints in the cutout index buffer: four corners of n * 3 entries each. */
  function IndexCapacity(n: nat): nat { 4 * (n * 3) }

  /** Triangles one corner's fan writes: one per step except step 0. */
  function FanTriangleCount(n: nat): nat { if n == 0 then 0 else n - 1 }

  /** One corner's vertices: the anchor, then one arc point per step. */
  function CornerMesh(anchor: Point, radius: real, cosines: seq<real>, sines: seq<real>): (r: seq<Point>)
    requires |cosines| == |sines|
    ensures |r| == |cosines| + 1
  {
    [anchor] + seq(|cosines|, i requires 0 <= i < |cosines| => ArcPoint(anchor, radius, cosines[i], sines[i]))
  }

  /** The packed first i + 1 vertices of a corner's mesh: the anchor and the
      arc points of steps 0 .. i - 1. */
  function CornerFloats(anchor: Point, radius: real, cosines: seq<real>, sines: seq<real>, i: nat): (r: seq<real>)
    requires |cosines| == |sines| && i <= |cosines|
    ensures |r| == 3 * (i + 1)
  {
    Flatten(CornerMesh(anchor, radius, cosines[..i], sines[..i]))
  }

  /** Packing step i's arc point after the first i + 1 vertices gives the
      first i + 2. */
  lemma CornerFloatsStep(anchor: Point, radius: real, cosines: seq<real>, sines: seq<real>, i: nat)
    requires |cosines| == |sines| && i < |cosines|
    ensures var q := ArcPoint(anchor, radius, cosines[i], sines[i]);
      CornerFloats(anchor, radius, cosines, sines, i + 1) == CornerFloats(anchor, radius, cosines, sines, i) + [q.x, q.y, q.z]
  {
    var mesh := CornerMesh(anchor, radius, cosines[..i + 1], sines[..i + 1]);
    assert mesh[..i + 1] == CornerMesh(anchor, radius, cosines[..i], sines[..i]);
  }

  /** After every step, the packed vertices are the corner's whole mesh. */
  lemma CornerFloatsAll(anchor: Point, radius: real, cosines: seq<real>, sines: seq<real>)
    requires |cosines| == |sines|
    ensures CornerFloats(anchor, radius, cosines, sines, |cosines|) == Flatten(CornerMesh(anchor, radius, cosines, sines))
  {
    assert cosines[..|cosines|] == cosines && sines[..|sines|] == sines;
  }

  /** The first t triangles of a fan rooted at vertex p: triangle i - 1 is
      (p, p + i - 1, p + i), written at step i. */
  function Fan(p: nat, t: nat): (r: seq<int>)
    ensures |r| == 3 * t
  {
    if t == 0 then [] else Fan(p, t - 1) + [p, p + t - 1, p + t]
  }

  /** One corner's index entries for a fan rooted at vertex p. */
  function FanIndices(p: nat, n: nat): (r: seq<int>)
    ensures |r| == 3 * FanTriangleCount(n)
  {
    Fan(p, FanTriangleCount(n))
  }

  /** Triangle j of a fan is (p, p + j, p + j + 1). */
  lemma {:induction false} FanAt(p: nat, t: nat, j: nat)
    requires j < t
    ensures 3 * j + 2 < |Fan(p, t)|
    ensures Fan(p, t)[3 * j] == p && Fan(p, t)[3 * j + 1] == p + j && Fan(p, t)[3 * j + 2] == p + j + 1
  {
    if j < t - 1 {
      FanAt(p, t - 1, j);
    }
  }

  /** The blocks of a sequence of sequences, one after the other. */
  function Concat<T>(blocks: seq<seq<T>>): seq<T>
  {
    if |blocks| == 0 then [] else Concat(blocks[..|blocks| - 1]) + blocks[|blocks| - 1]
  }

  /** Four blocks concatenate to the first, then the second, the third and the fourth. */
  lemma ConcatFour<T>(blocks: seq<seq<T>>)
    requires |blocks| == 4
    ensures Concat(blocks) == blocks[0] + blocks[1] + blocks[2] + blocks[3]
  {
    var b3, b2, b1 := blocks[..3], blocks[..2], blocks[..1];
    assert b3[..2] == b2 && b2[..1] == b1 && b1[..0] == [];
    assert Concat(b1) == blocks[0];
    assert Concat(b2) == blocks[0] + blocks[1];
    assert Concat(b3) == blocks[0] + blocks[1] + blocks[2];
  }

  /** Concatenating equal-size blocks: the result has size * |blocks| entries,
      and entry j of block b sits at size * b + j. */
  lemma {:induction false} ConcatAt<T>(blocks: seq<seq<T>>, size: nat, b: nat, j: nat)
    requires forall i :: 0 <= i < |blocks| ==> |blocks[i]| == size
    requires b < |blocks| && j < size
    ensures |Concat(blocks)| == size * |blocks|
    ensures size * b + j < |Concat(blocks)| && Concat(blocks)[size * b + j] == blocks[b][j]
  {
    var front := blocks[..|blocks| - 1];
    ConcatLength(front, size);
    if b < |blocks| - 1 {
      ConcatAt(front, size, b, j);
      assert size * b + j < size * (b + 1) <= size * |front| by {
        MulMonotone(size, b + 1, |front|);
      }
    } else {
      assert size * b == size * |front|;
    }
  }

  lemma {:induction false} ConcatLength<T>(blocks: seq<seq<T>>, size: nat)
    requires forall i :: 0 <= i < |blocks| ==> |blocks[i]| == size
    ensures |Concat(blocks)| == size * |blocks|
  {
    if |blocks| > 0 {
      ConcatLength(blocks[..|blocks| - 1], size);
    }
  }

  /** Every entry of a concatenation comes from one of its blocks. */
  lemma {:induction false} ConcatMember<T>(blocks: seq<seq<T>>, x: T) returns (b: nat)
    requires x in Concat(blocks)
    ensures b < |blocks| && x in blocks[b]
  {
    var front := blocks[..|blocks| - 1];
    if x in Concat(front) {
      b := ConcatMember(front, x);
    } else {
      b := |blocks| - 1;
    }
  }

  lemma MulMonotone(a: nat, b: nat, c: nat)
    requires b <= c
    ensures a * b <= a * c
  {
  }

  /** Corner c's floats in the vertex buffer. */
  function CornerBlocks(radius: real, cosines: seq<real>, sines: seq<real>): (r: seq<seq<real>>)
    requires |cosines| == |sines|
    ensures |r| == 4
  {
    seq(4, c requires 0 <= c < 4 => Flatten(CornerMesh(Corners[c], radius, cosines, sines)))
  }

  /** The whole cutout vertex buffer after construction: the four corner meshes
      packed in the order left-bottom, right-bottom, right-top, left-top. */
  function CutoutVertexData(radius: real, cosines: seq<real>, sines: seq<real>): (r: seq<real>)
    requires |cosines| == |sines|
    ensures |r| == VertexCapacity(|cosines|)
  {
    ConcatLength(CornerBlocks(radius, cosines, sines), 3 * (|cosines| + 1));
    Concat(CornerBlocks(radius, cosines, sines))
  }

  /** Corner c's index entries; its fan is rooted at vertex c * (n + 1). */
  function FanBlocks(n: nat): (r: seq<seq<int>>)
    ensures |r| == 4
  {
    seq(4, c requires 0 <= c < 4 => FanIndices(c * (n + 1), n))
  }

  /** The four corners' index entries, in corner order. */
  function WrittenIndices(n: nat): (r: seq<int>)
    ensures |r| == 12 * FanTriangleCount(n)
  {
    ConcatLength(FanBlocks(n), 3 * FanTriangleCount(n));
    Concat(FanBlocks(n))
  }

  /** The whole cutout index buffer after construction: the written entries,
      then the zeros the buffer was allocated with. */
  function CutoutIndexData(n: nat): (r: seq<int>)
    ensures |r| == IndexCapacity(n)
  {
    WrittenIndices(n) + seq(IndexCapacity(n) - 12 * FanTriangleCount(n), _ => 0)
  }

  // ---------------------------------------------------------------------------
  // Vertex buffer layout

  /** Vertex v (0 <= v <= n) of corner c is vertex c * (n + 1) + v of the
      buffer: each corner owns a block of n + 1 vertices. */
  lemma CutoutVertexAt(radius: real, cosines: seq<real>, sines: seq<real>, c: nat, v: nat)
    requires |cosines| == |sines| && c < 4 && v <= |cosines|
    ensures var data := CutoutVertexData(radius, cosines, sines);
      3 * (c * (|cosines| + 1) + v) + 2 < |data| &&
      VertexAt(data, c * (|cosines| + 1) + v) == CornerMesh(Corners[c], radius, cosines, sines)[v]
  {
    var n := |cosines|;
    var blocks := CornerBlocks(radius, cosines, sines);
    var mesh := CornerMesh(Corners[c], radius, cosines, sines);
    var size := 3 * (n + 1);
    var i := c * (n + 1) + v;
    assert 3 * i == size * c + 3 * v;
    ConcatAt(blocks, size, c, 3 * v);
    ConcatAt(blocks, size, c, 3 * v + 1);
    ConcatAt(blocks, size, c, 3 * v + 2);
    FlattenVertexAt(mesh, v);
  }

  /** The root of corner c's fan, vertex c * (n + 1), is that corner's anchor:
      left-bottom, right-bottom, right-top, left-top for c = 0, 1, 2, 3. */
  lemma FanRootIsAnchor(radius: real, cosines: seq<real>, sines: seq<real>, c: nat)
    requires |cosines| == |sines| && c < 4
    ensures var data := CutoutVertexData(radius, cosines, sines);
      3 * (c * (|cosines| + 1)) + 2 < |data| &&
      VertexAt(data, c * (|cosines| + 1)) == Corners[c]
  {
    CutoutVertexAt(radius, cosines, sines, c, 0);
  }

  /** Vertex c * (n + 1) + 1 + i is corner c's arc point for step i. */
  lemma ArcVertexAt(radius: real, cosines: seq<real>, sines: seq<real>, c: nat, i: nat)
    requires |cosines| == |sines| && c < 4 && i < |cosines|
    ensures var data := CutoutVertexData(radius, cosines, sines);
      3 * (c * (|cosines| + 1) + 1 + i) + 2 < |data| &&
      VertexAt(data, c * (|cosines| + 1) + 1 + i) == ArcPoint(Corners[c], radius, cosines[i], sines[i])
  {
    CutoutVertexAt(radius, cosines, sines, c, 1 + i);
  }

  /** The four corner meshes are mirror images: right-bottom mirrors
      left-bottom across the y axis, right-top mirrors right-bottom across the
      x axis, and left-top mirrors right-top across the y axis. */
  lemma CornerMeshesMirror(radius: real, cosines: seq<real>, sines: seq<real>, v: nat)
    requires |cosines| == |sines| && v <= |cosines|
    ensures CornerMesh(RightBottom, radius, cosines, sines)[v] == MirrorX(CornerMesh(LeftBottom, radius, cosines, sines)[v])
    ensures CornerMesh(RightTop, radius, cosines, sines)[v] == MirrorY(CornerMesh(RightBottom, radius, cosines, sines)[v])
    ensures CornerMesh(LeftTop, radius, cosines, sines)[v] == MirrorX(CornerMesh(RightTop, radius, cosines, sines)[v])
  {
    if v > 0 {
      var cs, sn := cosines[v - 1], sines[v - 1];
      assert CornerMesh(LeftBottom, radius, cosines, sines)[v] == ArcPoint(LeftBottom, radius, cs, sn);
      assert CornerMesh(RightBottom, radius, cosines, sines)[v] == ArcPoint(RightBottom, radius, cs, sn);
      assert CornerMesh(RightTop, radius, cosines, sines)[v] == ArcPoint(RightTop, radius, cs, sn);
      assert CornerMesh(LeftTop, radius, cosines, sines)[v] == ArcPoint(LeftTop, radius, cs, sn);
      ArcPointMirror(LeftBottom, radius, cs, sn);
      ArcPointMirror(RightBottom, radius, cs, sn);
      ArcPointMirror(RightTop, radius, cs, sn);
    }
  }

  // ---------------------------------------------------------------------------
  // Index buffer layout

  /** Entry j of corner c's fan is entry 3 * T * c + j of the index buffer,
      where T is the number of triangles per fan. */
  lemma CutoutIndexAt(n: nat, c: nat, j: nat)
    requires c < 4 && j < 3 * FanTriangleCount(n)
    ensures var data := CutoutIndexData(n);
      3 * FanTriangleCount(n) * c + j < |data| &&
      data[3 * FanTriangleCount(n) * c + j] == FanIndices(c * (n + 1), n)[j]
  {
    ConcatAt(FanBlocks(n), 3 * FanTriangleCount(n), c, j);
  }

  /** Triangle t of corner c is (p, p + t, p + t + 1) with p = c * (n + 1): it
      is rooted at the fan root and its other two vertices are consecutive. */
  lemma FanTriangle(n: nat, c: nat, t: nat)
    requires c < 4 && t < FanTriangleCount(n)
    ensures var data := CutoutIndexData(n); var p := c * (n + 1);
      var k := 3 * FanTriangleCount(n) * c + 3 * t;
      k + 2 < |data| && data[k..k + 3] == [p, p + t, p + t + 1]
  {
    var T := FanTriangleCount(n);
    var data := CutoutIndexData(n);
    var k := 3 * T * c + 3 * t;
    CutoutIndexAt(n, c, 3 * t);
    CutoutIndexAt(n, c, 3 * t + 1);
    CutoutIndexAt(n, c, 3 * t + 2);
    var p: nat := c * (n + 1);
    FanAt(p, T, t);
    SliceOfThree(data, k);
  }

  /** Three consecutive entries, sliced out, are those entries in order. */
  lemma SliceOfThree(s: seq<int>, k: nat)
    requires k + 2 < |s|
    ensures s[k..k + 3] == [s[k], s[k + 1], s[k + 2]]
  {
  }

  /** The first triangle of every fan is (p, p, p + 1): two of its corners are
      the same vertex, so it covers no area. */
  lemma FirstFanTriangleDegenerate(n: nat, c: nat)
    requires c < 4 && n >= 2
    ensures var data := CutoutIndexData(n); var k := 3 * FanTriangleCount(n) * c;
      k + 2 < |data| && data[k] == data[k + 1] == c * (n + 1)
  {
    FanTriangle(n, c, 0);
    var k := 3 * FanTriangleCount(n) * c;
    assert 3 * FanTriangleCount(n) * c + 3 * 0 == k;
  }

  /** The entries of the first t triangles of a fan rooted at p lie in [p, p + t]. */
  lemma {:induction false} FanRange(p: nat, t: nat, x: int)
    requires x in Fan(p, t)
    ensures p <= x <= p + t
  {
    if x in Fan(p, t - 1) {
      FanRange(p, t - 1, x);
    }
  }

  /** The entries of one corner's fan rooted at p all lie in [p, p + n - 1]. */
  lemma FanIndicesRange(p: nat, n: nat, x: int)
    requires x in FanIndices(p, n)
    ensures p <= x <= p + n - 1
  {
    FanRange(p, FanTriangleCount(n), x);
  }

  /** Every entry corner c writes lies in its own vertex block, in
      [c * (n + 1), c * (n + 1) + n - 1]. */
  lemma CornerIndicesInOwnBlock(n: nat, c: nat, j: nat)
    requires c < 4 && j < 3 * FanTriangleCount(n)
    ensures var data := CutoutIndexData(n); var k := 3 * FanTriangleCount(n) * c + j;
      k < |data| && c * (n + 1) <= data[k] <= c * (n + 1) + n - 1
  {
    CutoutIndexAt(n, c, j);
    FanIndicesRange(c * (n + 1), n, FanIndices(c * (n + 1), n)[j]);
  }

  /** Every written entry belongs to one corner's block. */
  lemma WrittenIndexRange(n: nat, x: int) returns (c: nat)
    requires x in WrittenIndices(n)
    ensures c < 4 && c * (n + 1) <= x <= c * (n + 1) + n - 1
  {
    c := ConcatMember(FanBlocks(n), x);
    FanIndicesRange(c * (n + 1), n, x);
  }

  /** Of the 12 * n entries of the index buffer, exactly the first 12 * T are
      written (T = n - 1 triangles per fan, 0 when n = 0), so the last 12 stay
      0 whenever n >= 1. */
  lemma UnwrittenIndicesZero(n: nat)
    ensures IndexCapacity(n) - 12 * FanTriangleCount(n) == if n == 0 then 0 else 12
    ensures forall k :: 12 * FanTriangleCount(n) <= k < IndexCapacity(n) ==> CutoutIndexData(n)[k] == 0
  {
    var data := CutoutIndexData(n);
    forall k | 12 * FanTriangleCount(n) <= k < IndexCapacity(n) ensures data[k] == 0 {
      assert data[k] == seq(IndexCapacity(n) - 12 * FanTriangleCount(n), _ => 0)[k - 12 * FanTriangleCount(n)];
    }
  }

  /** Every one of the IndexCapacity(n) entries, the trailing zeros included,
      names a vertex of the cutout vertex buffer, which holds 4 * (n + 1). */
  lemma CutoutIndicesInBounds(n: nat)
    ensures forall k :: 0 <= k < |CutoutIndexData(n)| ==> 0 <= CutoutIndexData(n)[k] < 4 * (n + 1)
  {
    var data := CutoutIndexData(n);
    var written := WrittenIndices(n);
    forall k | 0 <= k < |data| ensures 0 <= data[k] < 4 * (n + 1) {
      if k < |written| {
        assert data[k] == written[k];
        var c := WrittenIndexRange(n, written[k]);
        assert c * (n + 1) <= 3 * (n + 1) by { MulMonotone(n + 1, c, 3); }
      } else {
        UnwrittenIndicesZero(n);
      }
    }
  }

  /** The last arc point of corner c, vertex c * (n + 1) + n, is never used by
      any entry of the index buffer. */
  lemma LastArcVertexNeverDrawn(n: nat, c: nat)
    requires c < 4
    ensures c * (n + 1) + n !in CutoutIndexData(n)
  {
    var data := CutoutIndexData(n);
    var written := WrittenIndices(n);
    UnwrittenIndicesZero(n);
    forall k | 0 <= k < |data| ensures data[k] != c * (n + 1) + n {
      if k < |written| {
        assert data[k] == written[k];
        var b := WrittenIndexRange(n, written[k]);
        LastArcOutsideBlock(n, b, c);
      }
    }
  }

  /** Vertex c * (n + 1) + n lies outside the range [b * (n + 1), b * (n + 1) + n - 1]
      of every corner's entries. */
  lemma LastArcOutsideBlock(n: nat, b: nat, c: nat)
    ensures !(b * (n + 1) <= c * (n + 1) + n <= b * (n + 1) + n - 1)
  {
    if b < c {
      MulMonotone(n + 1, b + 1, c);
    } else if b > c {
      MulMonotone(n + 1, c + 1, b);
    }
  }

  // ---------------------------------------------------------------------------
  // The cutout draw

  /** Drawing all IndexCapacity(n) entries of the index buffer fetches only
      vertices of the vertex buffer, and the trailing zero entries all fetch
      the left-bottom anchor, so the triangles they form cover no area. */
  lemma CutoutDrawInBounds(radius: real, cosines: seq<real>, sines: seq<real>)
    requires |cosines| == |sines|
    ensures var n := |cosines|;
      var drawn := DrawnVertices(CutoutVertexData(radius, cosines, sines), CutoutIndexData(n), IndexCapacity(n));
      drawn.Some? &&
      forall k :: 12 * FanTriangleCount(n) <= k < IndexCapacity(n) ==> drawn.value[k] == LeftBottom
  {
    var n := |cosines|;
    var vdata := CutoutVertexData(radius, cosines, sines);
    var idata := CutoutIndexData(n);
    CutoutIndicesInBounds(n);
    assert |vdata| == 3 * (4 * (n + 1));
    var drawn := DrawnVertices(vdata, idata, IndexCapacity(n));
    assert drawn.Some?;
    UnwrittenIndicesZero(n);
    FanRootIsAnchor(radius, cosines, sines, 0);
    forall k | 12 * FanTriangleCount(n) <= k < IndexCapacity(n) ensures drawn.value[k] == LeftBottom {
      assert drawn.value[k] == VertexAt(vdata, idata[k]);
    }
  }

  /** In the cutout draw, triangle t of corner c starts at that corner's anchor. */
  lemma CutoutDrawFanRoot(radius: real, cosines: seq<real>, sines: seq<real>, c: nat, t: nat)
    requires |cosines| == |sines| && c < 4 && t < FanTriangleCount(|cosines|)
    ensures var n := |cosines|;
      var drawn := DrawnVertices(CutoutVertexData(radius, cosines, sines), CutoutIndexData(n), IndexCapacity(n));
      var k := 3 * FanTriangleCount(n) * c + 3 * t;
      drawn.Some? && k < |drawn.value| && drawn.value[k] == Corners[c]
  {
    var n := |cosines|;
    var vdata := CutoutVertexData(radius, cosines, sines);
    var idata := CutoutIndexData(n);
    CutoutDrawInBounds(radius, cosines, sines);
    var drawn := DrawnVertices(vdata, idata, IndexCapacity(n));
    FanTriangle(n, c, t);
    var k := 3 * FanTriangleCount(n) * c + 3 * t;
    assert idata[k] == c * (n + 1) by { assert idata[k..k + 3][0] == idata[k]; }
    FanRootIsAnchor(radius, cosines, sines, c);
    assert drawn.value[k] == VertexAt(vdata, idata[k]);
  }
}
