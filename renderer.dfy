/** The renderer's cutout mesh builder: two zero-filled, fixed-capacity buffers
    with write cursors, filled one corner at a time. */
module Renderer {
  import opened Geometry
  import opened CutoutMesh

  class RoundedCornerRender {
    /** Arc radius, as a fraction of the rectangle's half-extent. */
    const radius: real
    /** Number of arc points per corner. */
    const precision: nat
    /** cos and sin of step i's angle, (pi / 2 / precision) * i, as the platform's
        float arithmetic returns them; their values are not modelled. */
    const cosines: seq<real>
    const sines: seq<real>
    /** The cutout vertex buffer, three floats per vertex, and its write cursor. */
    const vbuf: array<real>
    var vpos: nat
    /** The cutout index buffer, three ints per triangle, and its write cursor. */
    const ibuf: array<int>
    var ipos: nat

    ghost predicate Valid()
      reads this
    {
      |cosines| == precision && |sines| == precision &&
      vbuf.Length == VertexCapacity(precision) && ibuf.Length == IndexCapacity(precision) &&
      vpos <= vbuf.Length && ipos <= ibuf.Length
    }

    /** Allocates the two zero-filled buffers, appends the four corner meshes
        in the order left-bottom, right-bottom, right-top, left-top, and
        rewinds both cursors. */
    constructor(radius: real, precision: nat, cosines: seq<real>, sines: seq<real>)
      requires |cosines| == precision && |sines| == precision
      ensures Valid() && fresh(vbuf) && fresh(ibuf)
      ensures this.radius == radius && this.precision == precision
      ensures this.cosines == cosines && this.sines == sines
      ensures vpos == 0 && ipos == 0
      ensures vbuf[..] == CutoutVertexData(radius, cosines, sines)
      ensures ibuf[..] == CutoutIndexData(precision)
    {
      this.radius, this.precision := radius, precision;
      this.cosines, this.sines := cosines, sines;
      vbuf := new real[VertexCapacity(precision)](_ => 0.0);
      ibuf := new int[IndexCapacity(precision)](_ => 0);
      vpos, ipos := 0, 0;
      new;
      ghost var v0, i0, p0, q0 := vbuf[..], ibuf[..], vpos, ipos;
      GenerateCutout(LeftBottom);
      ghost var v1, i1, p1, q1 := vbuf[..], ibuf[..], vpos, ipos;
      GenerateCutout(RightBottom);
      ghost var v2, i2, p2, q2 := vbuf[..], ibuf[..], vpos, ipos;
      GenerateCutout(RightTop);
      ghost var v3, i3, p3, q3 := vbuf[..], ibuf[..], vpos, ipos;
      GenerateCutout(LeftTop);
      VerticesAssembled(radius, cosines, sines, v0, v1, v2, v3, vbuf[..], p0, p1, p2, p3, vpos);
      IndicesAssembled(precision, i0, i1, i2, i3, ibuf[..], p0, p1, p2, p3, q0, q1, q2, q3, ipos);
      vpos, ipos := 0, 0;
    }

    /** Appends one corner's mesh at the cursors: the anchor and one arc point
        per step to the vertex buffer, and for every step but the first the
        triangle (p, p + i - 1, p + i) to the index buffer, where p is the
        vertex number the vertex cursor stood at. */
    method GenerateCutout(anchor: Point)
      requires Valid()
      requires vpos + 3 * (precision + 1) <= vbuf.Length
      requires ipos + 3 * FanTriangleCount(precision) <= ibuf.Length
      modifies vbuf, ibuf, this`vpos, this`ipos
      ensures Valid()
      ensures vpos == old(vpos) + 3 * (precision + 1)
      ensures ipos == old(ipos) + 3 * FanTriangleCount(precision)
      ensures vbuf[..] == old(vbuf[..])[..old(vpos)] + Flatten(CornerMesh(anchor, radius, cosines, sines)) + old(vbuf[..])[vpos..]
      ensures ibuf[..] == old(ibuf[..])[..old(ipos)] + FanIndices(old(vpos) / 3, precision) + old(ibuf[..])[ipos..]
    {
      assert vbuf as object != ibuf;
      ghost var v0, i0 := vbuf[..], ibuf[..];
      var vp, ip := vpos, ipos;
      var p := vp / 3;
      PutThree(vbuf, vp, vp, v0, [], anchor.x, anchor.y, anchor.z);
      vp := vp + 3;
      assert CornerMesh(anchor, radius, cosines[..0], sines[..0]) == [anchor];
      for i := 0 to precision
        modifies vbuf, ibuf
        invariant vp == vpos + 3 * (i + 1) && ip == ipos + 3 * FanTriangleCount(i)
        invariant Holds(vbuf, vpos, vp, v0, CornerFloats(anchor, radius, cosines, sines, i))
        invariant Holds(ibuf, ipos, ip, i0, Fan(p, FanTriangleCount(i)))
      {
        vp, ip := PutArcStep(anchor, p, i, vp, ip, v0, i0);
      }
      CornerFloatsAll(anchor, radius, cosines, sines);
      HoldsSplice(vbuf, vpos, vp, v0, Flatten(CornerMesh(anchor, radius, cosines, sines)));
      HoldsSplice(ibuf, ipos, ip, i0, Fan(p, FanTriangleCount(precision)));
      vpos, ipos := vp, ip;
    }

    /** Step i of the loop: puts step i's arc point and, for every step but
        the first, the triangle (p, p + i - 1, p + i), at the cursors vp and
        ip, which it returns advanced past them. */
    method PutArcStep(anchor: Point, p: nat, i: nat, vp: nat, ip: nat, ghost v0: seq<real>, ghost i0: seq<int>)
      returns (vp': nat, ip': nat)
      requires Valid() && i < precision
      requires vp == vpos + 3 * (i + 1) && ip == ipos + 3 * FanTriangleCount(i)
      requires vp + 3 <= vbuf.Length && ipos + 3 * FanTriangleCount(i + 1) <= ibuf.Length
      requires Holds(vbuf, vpos, vp, v0, CornerFloats(anchor, radius, cosines, sines, i))
      requires Holds(ibuf, ipos, ip, i0, Fan(p, FanTriangleCount(i)))
      modifies vbuf, ibuf
      ensures vp' == vp + 3 && ip' == ipos + 3 * FanTriangleCount(i + 1)
      ensures Holds(vbuf, vpos, vp', v0, CornerFloats(anchor, radius, cosines, sines, i + 1))
      ensures Holds(ibuf, ipos, ip', i0, Fan(p, FanTriangleCount(i + 1)))
    {
      var q := ArcPoint(anchor, radius, cosines[i], sines[i]);
      PutThree(vbuf, vpos, vp, v0, CornerFloats(anchor, radius, cosines, sines, i), q.x, q.y, q.z);
      vp' := vp + 3;
      CornerFloatsStep(anchor, radius, cosines, sines, i);
      ip' := ip;
      if i != 0 {
        PutThree(ibuf, ipos, ip, i0, Fan(p, FanTriangleCount(i)), p, p + i - 1, p + i);
        ip' := ip + 3;
      }
    }
  }

  /** Since its cursor stood at start, buffer a has received `written` over
      its initial contents `base`, and the cursor now stands at pos. */
  ghost predicate Holds<T>(a: array<T>, start: nat, pos: nat, base: seq<T>, written: seq<T>)
    reads a
  {
    |base| == a.Length && pos == start + |written| && pos <= a.Length &&
    forall k :: 0 <= k < a.Length ==> a[k] == if start <= k < pos then written[k - start] else base[k]
  }

  /** A buffer that has received `written` at start over its initial
      contents `base` holds base up to start, then `written`, then the rest of base. */
  lemma HoldsSplice<T>(a: array<T>, start: nat, pos: nat, base: seq<T>, written: seq<T>)
    requires Holds(a, start, pos, base, written)
    ensures a[..] == base[..start] + written + base[pos..]
  {
  }

  /** One append onto a buffer that holds w over the rest of z: it then
      holds w and `written` over the rest of z. */
  lemma AppendOnto<T>(w: seq<T>, z: seq<T>, before: seq<T>, after: seq<T>, start: nat, pos: nat, written: seq<T>)
    requires |w| == start && pos == start + |written| <= |z| && before == w + z[start..]
    requires after == before[..start] + written + before[pos..]
    ensures after == (w + written) + z[pos..]
  {
    assert before[..start] == w;
    assert before[pos..] == z[pos..];
  }

  /** The four corner meshes appended in corner order from the start of a
      buffer of the vertex capacity, snapshot c taken before corner c and
      snapshot 4 after the last, fill it to capacity with exactly the cutout
      vertex data, whatever it held before. */
  lemma VerticesAssembled(radius: real, cosines: seq<real>, sines: seq<real>,
                          v0: seq<real>, v1: seq<real>, v2: seq<real>, v3: seq<real>, v4: seq<real>,
                          p0: nat, p1: nat, p2: nat, p3: nat, p4: nat)
    requires |cosines| == |sines|
    requires |v0| == VertexCapacity(|cosines|) && p0 == 0
    requires p1 == p0 + 3 * (|cosines| + 1) && p2 == p1 + 3 * (|cosines| + 1)
    requires p3 == p2 + 3 * (|cosines| + 1) && p4 == p3 + 3 * (|cosines| + 1)
    requires v1 == v0[..p0] + CornerBlocks(radius, cosines, sines)[0] + v0[p1..]
    requires v2 == v1[..p1] + CornerBlocks(radius, cosines, sines)[1] + v1[p2..]
    requires v3 == v2[..p2] + CornerBlocks(radius, cosines, sines)[2] + v2[p3..]
    requires v4 == v3[..p3] + CornerBlocks(radius, cosines, sines)[3] + v3[p4..]
    ensures p4 == VertexCapacity(|cosines|) && v4 == CutoutVertexData(radius, cosines, sines)
  {
    var b := CornerBlocks(radius, cosines, sines);
    assert v0 == [] + v0[0..];
    AppendOnto([], v0, v0, v1, p0, p1, b[0]);
    assert [] + b[0] == b[0];
    AppendOnto(b[0], v0, v1, v2, p1, p2, b[1]);
    AppendOnto(b[0] + b[1], v0, v2, v3, p2, p3, b[2]);
    AppendOnto(b[0] + b[1] + b[2], v0, v3, v4, p3, p4, b[3]);
    ConcatFour(b);
    assert v0[p4..] == [];
  }

  /** The four fans appended in corner order to the zero-filled index
      buffer, each rooted at the vertex the vertex cursor p_c stood at, write
      its first 12 * T entries and leave exactly the cutout index data. */
  lemma IndicesAssembled(n: nat, i0: seq<int>, i1: seq<int>, i2: seq<int>, i3: seq<int>, i4: seq<int>,
                         p0: nat, p1: nat, p2: nat, p3: nat,
                         q0: nat, q1: nat, q2: nat, q3: nat, q4: nat)
    requires i0 == seq(IndexCapacity(n), _ => 0) && p0 == 0 && q0 == 0
    requires p1 == p0 + 3 * (n + 1) && p2 == p1 + 3 * (n + 1) && p3 == p2 + 3 * (n + 1)
    requires q1 == q0 + 3 * FanTriangleCount(n) && q2 == q1 + 3 * FanTriangleCount(n)
    requires q3 == q2 + 3 * FanTriangleCount(n) && q4 == q3 + 3 * FanTriangleCount(n)
    requires i1 == i0[..q0] + FanIndices(p0 / 3, n) + i0[q1..]
    requires i2 == i1[..q1] + FanIndices(p1 / 3, n) + i1[q2..]
    requires i3 == i2[..q2] + FanIndices(p2 / 3, n) + i2[q3..]
    requires i4 == i3[..q3] + FanIndices(p3 / 3, n) + i3[q4..]
    ensures q4 == 12 * FanTriangleCount(n) && i4 == CutoutIndexData(n)
  {
    var f := FanBlocks(n);
    assert p0 / 3 == 0 && p1 / 3 == n + 1 && p2 / 3 == 2 * (n + 1) && p3 / 3 == 3 * (n + 1);
    assert f[0] == FanIndices(p0 / 3, n) && f[1] == FanIndices(p1 / 3, n);
    assert f[2] == FanIndices(p2 / 3, n) && f[3] == FanIndices(p3 / 3, n);
    assert i0 == [] + i0[0..];
    AppendOnto([], i0, i0, i1, q0, q1, f[0]);
    assert [] + f[0] == f[0];
    AppendOnto(f[0], i0, i1, i2, q1, q2, f[1]);
    AppendOnto(f[0] + f[1], i0, i2, i3, q2, q3, f[2]);
    AppendOnto(f[0] + f[1] + f[2], i0, i3, i4, q3, q4, f[3]);
    ConcatFour(f);
    ZerosSuffix(IndexCapacity(n), q4);
  }

  /** What is left of a run of zeros past k is a shorter run of zeros. */
  lemma ZerosSuffix(n: nat, k: nat)
    requires k <= n
    ensures seq(n, _ => 0)[k..] == seq(n - k, _ => 0)
  {
  }

  /** Three consecutive puts at the cursor pos of a buffer: it has then
      received the three values as well. */
  method PutThree<T>(a: array<T>, start: nat, pos: nat, ghost base: seq<T>, ghost written: seq<T>, x: T, y: T, z: T)
    requires Holds(a, start, pos, base, written) && pos + 3 <= a.Length
    modifies a
    ensures Holds(a, start, pos + 3, base, written + [x, y, z])
  {
    a[pos], a[pos + 1], a[pos + 2] := x, y, z;
  }
}
