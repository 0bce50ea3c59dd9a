# Rounded-corner cutout mesh, modelled in Dafny

`RoundedCornerRender` draws a rectangle whose four corners are rounded off
with the stencil buffer. The rectangle is drawn from a fixed mesh of two
triangles. The corners are cut away by drawing, first, one triangle fan per
corner. Each fan has its root at the corner (the anchor). The builder
computes `precision` points on a quarter-circle arc, but the fan's rim runs
over only the first `precision - 1` of them: its first triangle repeats the
root and covers no area, and the last arc point is never used by any
triangle. The fans are built once, when the
renderer is constructed. They are written into two fixed-capacity buffers,
each with its own write cursor:

- the cutout vertex buffer holds 3 floats per vertex, `4 * (precision + 1) * 3` floats in all;
- the cutout index buffer holds 3 ints per triangle, `4 * precision * 3` ints in all.

`generateCutoutAreaVertex` first takes the fan root `p` as the vertex cursor
divided by 3. It then appends the anchor and one arc point per step `i`. For
every step but the first it also appends the triangle `(p, p + i - 1, p + i)`.
The `init` block runs it for the anchors left-bottom, right-bottom, right-top
and left-top, in that order, and then rewinds both cursors. Each frame draws
`capacity()` indices from the index buffer.

The project has four modules:

- `Geometry` (geometry.dfy) holds:
  - points and the four corners;
  - the rectangle's vertex and index buffers and what drawing them fetches;
  - the per-axis quadrant logic that places a corner's arc.
- `CutoutMesh` (cutout_mesh.dfy) holds:
  - the buffer capacities;
  - the contents of both cutout buffers after construction, as functions of the parameters;
  - everything proved about that layout: block positions, fan roots, index ranges, the untouched tail, and the draw staying in bounds.
- `Renderer` (renderer.dfy) holds the class `RoundedCornerRender`:
  - `vbuf` and `ibuf` are arrays, with the cursors `vpos` and `ipos`;
  - `GenerateCutout` is a loop that writes into the arrays in place;
  - the constructor runs the four calls and rewinds the cursors.

  `GenerateCutout` is proved to splice exactly the corner's mesh and fan in
  at the cursors. The constructor is proved to leave exactly the data that
  `CutoutMesh` describes.
- `Surface` (viewport.dfy) computes the viewport chosen in `onSurfaceChanged`,
  using the platform's truncating `Int` division.

Floats are modelled as reals. The sines and cosines of the step angles are
parameters of the constructor: two sequences of `precision` arbitrary reals.
Nothing is assumed about their values.

## Model

| member | source | states |
|---|---|---|
| Geometry.Flatten | app/src/main/java/com/example/gldemo/RoundedCornerRender.kt:26-29 | packing points into a float buffer takes exactly three floats per point |
| Geometry.FlattenVertexAt | app/src/main/java/com/example/gldemo/RoundedCornerRender.kt:26-29 | reading vertex v back from a packed buffer gives point v |
| Geometry.RectDraw | app/src/main/java/com/example/gldemo/RoundedCornerRender.kt:20-29 | drawing the rectangle's 6 indices over its 4 packed corners fetches (LB, RB, RT) and (LB, RT, LT), all indices being below 4 |
| Geometry.RectTrianglesCounterClockwise | app/src/main/java/com/example/gldemo/RoundedCornerRender.kt:20-25 | both rectangle triangles have positive signed area, so both are wound counter-clockwise |
| Geometry.RectMeshCoversRectangle | app/src/main/java/com/example/gldemo/RoundedCornerRender.kt:20-25 | a point lies in [-1,1] x [-1,1] if and only if it lies in one of the two triangles |
| Geometry.ArcFacesAnchor | app/src/main/java/com/example/gldemo/RoundedCornerRender.kt:65-69 | on each axis the arc centre is one radius inside the anchor (x - radius when x > 0, otherwise x + radius), and the offset is signed towards the anchor (+t * radius when x > 0, otherwise -t * radius) |
| Geometry.ArcCoordBetween | app/src/main/java/com/example/gldemo/RoundedCornerRender.kt:61-69 | for a trig value in [0, 1] and a non-negative radius, each arc coordinate lies between the arc centre and the anchor |
| Geometry.ArcStartsOnVerticalEdge | app/src/main/java/com/example/gldemo/RoundedCornerRender.kt:59-70 | with cosine 1 and sine 0 (step 0), the arc point is (anchor x, centre y, 0) |
| Geometry.ArcPointMirror | app/src/main/java/com/example/gldemo/RoundedCornerRender.kt:65-70 | mirroring the anchor across an axis mirrors every arc point, with z = 0 kept |
| CutoutMesh.CornerMesh | app/src/main/java/com/example/gldemo/RoundedCornerRender.kt:58-70 | a corner's mesh has precision + 1 vertices: the anchor and then one arc point per step |
| CutoutMesh.CornerFloatsStep | app/src/main/java/com/example/gldemo/RoundedCornerRender.kt:59-70 | each loop step extends the packed prefix of the corner's mesh by that step's arc point |
| CutoutMesh.Fan | app/src/main/java/com/example/gldemo/RoundedCornerRender.kt:71-75 | t triangles of a fan take 3 * t entries |
| CutoutMesh.FanIndices | app/src/main/java/com/example/gldemo/RoundedCornerRender.kt:59-75 | one call writes 3 * (precision - 1) indices, or none when precision is 0 |
| CutoutMesh.FanAt | app/src/main/java/com/example/gldemo/RoundedCornerRender.kt:71-75 | triangle j of a fan rooted at p is (p, p + j, p + j + 1) |
| CutoutMesh.ConcatFour | app/src/main/java/com/example/gldemo/RoundedCornerRender.kt:45-49 | the four corner blocks follow one another in call order |
| CutoutMesh.CutoutVertexData | app/src/main/java/com/example/gldemo/RoundedCornerRender.kt:36-49 | the four corner meshes fill the vertex buffer to its capacity of 4 * (precision + 1) * 3 floats |
| CutoutMesh.WrittenIndices | app/src/main/java/com/example/gldemo/RoundedCornerRender.kt:71-75 | the four fans together take 12 * (precision - 1) entries |
| CutoutMesh.CutoutIndexData | app/src/main/java/com/example/gldemo/RoundedCornerRender.kt:37-43 | the index buffer holds its capacity of 4 * precision * 3 entries |
| CutoutMesh.CutoutVertexAt | app/src/main/java/com/example/gldemo/RoundedCornerRender.kt:45-58 | vertex v of corner c is vertex c * (precision + 1) + v of the buffer |
| CutoutMesh.FanRootIsAnchor | app/src/main/java/com/example/gldemo/RoundedCornerRender.kt:45-58 | vertex c * (precision + 1) is corner c's anchor, for the order LB, RB, RT, LT |
| CutoutMesh.ArcVertexAt | app/src/main/java/com/example/gldemo/RoundedCornerRender.kt:59-70 | vertex c * (precision + 1) + 1 + i is corner c's arc point for step i |
| CutoutMesh.CornerMeshesMirror | app/src/main/java/com/example/gldemo/RoundedCornerRender.kt:65-70 | RB's mesh mirrors LB's across the y axis, RT's mirrors RB's across the x axis, and LT's mirrors RT's across the y axis |
| CutoutMesh.CutoutIndexAt | app/src/main/java/com/example/gldemo/RoundedCornerRender.kt:71-75 | corner c's fan begins at entry 3 * (precision - 1) * c of the index buffer |
| CutoutMesh.FanTriangle | app/src/main/java/com/example/gldemo/RoundedCornerRender.kt:57-75 | every written triangle of corner c is (p, p + t, p + t + 1) with p = c * (precision + 1): rooted at the fan root, other two indices consecutive |
| CutoutMesh.FirstFanTriangleDegenerate | app/src/main/java/com/example/gldemo/RoundedCornerRender.kt:71-74 | each fan's first triangle repeats its root, (p, p, p + 1) |
| CutoutMesh.FanRange | app/src/main/java/com/example/gldemo/RoundedCornerRender.kt:72-74 | the first t triangles of a fan use only vertices p .. p + t |
| CutoutMesh.FanIndicesRange | app/src/main/java/com/example/gldemo/RoundedCornerRender.kt:59-74 | a call's indices all lie in [p, p + precision - 1] |
| CutoutMesh.CornerIndicesInOwnBlock | app/src/main/java/com/example/gldemo/RoundedCornerRender.kt:57-74 | every entry corner c writes lies inside that corner's own vertex block |
| CutoutMesh.WrittenIndexRange | app/src/main/java/com/example/gldemo/RoundedCornerRender.kt:72-74 | every written entry lies in the block of some corner c < 4 |
| CutoutMesh.UnwrittenIndicesZero | app/src/main/java/com/example/gldemo/RoundedCornerRender.kt:71-75 | the capacity exceeds the written entries by exactly 12 (0 when precision is 0), and those trailing entries are 0 |
| CutoutMesh.CutoutIndicesInBounds | app/src/main/java/com/example/gldemo/RoundedCornerRender.kt:148 | every entry of the index buffer, trailing zeros included, is in [0, 4 * (precision + 1)) |
| CutoutMesh.LastArcVertexNeverDrawn | app/src/main/java/com/example/gldemo/RoundedCornerRender.kt:59-74 | no entry of the index buffer names corner c's last arc point c * (precision + 1) + precision |
| CutoutMesh.LastArcOutsideBlock | app/src/main/java/com/example/gldemo/RoundedCornerRender.kt:72-74 | a corner's last arc point lies outside the index range of every corner's fan |
| CutoutMesh.CutoutDrawInBounds | app/src/main/java/com/example/gldemo/RoundedCornerRender.kt:148 | drawing capacity() indices fetches only vertices of the vertex buffer, and every trailing zero fetches the left-bottom anchor |
| CutoutMesh.CutoutDrawFanRoot | app/src/main/java/com/example/gldemo/RoundedCornerRender.kt:148 | in that draw, the first vertex of every triangle of corner c is corner c's anchor |
| Renderer.RoundedCornerRender.constructor | app/src/main/java/com/example/gldemo/RoundedCornerRender.kt:36-52 | the buffers are allocated at their capacities and filled by four calls in the order LB, RB, RT, LT; both cursors end at 0; the buffers hold exactly the cutout vertex and index data |
| Renderer.RoundedCornerRender.GenerateCutout | app/src/main/java/com/example/gldemo/RoundedCornerRender.kt:55-77 | the vertex cursor advances by 3 * (precision + 1) and the index cursor by 3 * (precision - 1); the corner's packed mesh and the fan rooted at old vertex cursor / 3 are written at the old cursors; every other entry is unchanged |
| Renderer.RoundedCornerRender.PutArcStep | app/src/main/java/com/example/gldemo/RoundedCornerRender.kt:59-75 | one loop step extends the packed corner prefix by step i's arc point, and extends the fan by (p, p + i - 1, p + i) unless i is 0; the vertex cursor moves by 3 and the index cursor by 3 or 0 |
| Renderer.PutThree | app/src/main/java/com/example/gldemo/RoundedCornerRender.kt:68-74 | three puts at the cursor extend what the buffer has received by those three values and change nothing else |
| Renderer.HoldsSplice | app/src/main/java/com/example/gldemo/RoundedCornerRender.kt:58-75 | a buffer that has received `written` at a cursor holds the old contents with `written` spliced in at the cursor |
| Renderer.AppendOnto | app/src/main/java/com/example/gldemo/RoundedCornerRender.kt:45-49 | appending after w over the rest of a buffer yields w and the new block over the rest |
| Renderer.VerticesAssembled | app/src/main/java/com/example/gldemo/RoundedCornerRender.kt:45-49 | four successive corner appends from the start of the vertex buffer leave the cursor at capacity and the buffer equal to the cutout vertex data |
| Renderer.IndicesAssembled | app/src/main/java/com/example/gldemo/RoundedCornerRender.kt:45-49 | four successive fan appends, each rooted at the vertex cursor / 3, leave 12 * (precision - 1) entries written and the buffer equal to the cutout index data |
| Renderer.ZerosSuffix | app/src/main/java/com/example/gldemo/RoundedCornerRender.kt:41-43 | the unwritten rest of a zero-filled buffer is zeros |
| Surface.TruncDiv | app/src/main/java/com/example/gldemo/RoundedCornerRender.kt:136 | the quotient is truncated toward zero: the remainder has the dividend's sign and is smaller than the divisor |
| Surface.CenteredViewport | app/src/main/java/com/example/gldemo/RoundedCornerRender.kt:136 | for non-negative sizes, the viewport lies inside the surface, is half its size rounded down, and is centred to within 2 pixels |
| Surface.CenteredViewportExample | app/src/main/java/com/example/gldemo/RoundedCornerRender.kt:136 | an 800 x 600 surface gets the viewport (200, 150, 400, 300) |
| Surface.TruncDivNegative | app/src/main/java/com/example/gldemo/RoundedCornerRender.kt:136 | a negative size divides toward zero, as `Int` division does: -5 / 4 is -1 |

## Left out

- All GLES calls are left out: buffer, array and shader creation in `onSurfaceCreated`, the stencil set-up, and the two draws in `onDrawFrame`. They act on GPU driver state. Only what an indexed draw fetches from the two buffers is modelled, by `DrawnVertices`.
- The float values of the arc points are not modelled. `sin`, `cos` and `Math.PI.toFloat()` are replaced by the constructor's `cosines` and `sines` parameters, and float rounding by exact real arithmetic. Nothing is claimed about distances or angles.
- The `ByteBuffer` allocation, native byte order and byte sizes are not modelled. The buffers are arrays of reals and ints with the same element counts.
- `MainActivity.kt` is not part of this model.
- Renderer.RoundedCornerRender.constructor: the source's default arguments (`radius = 0.5f`, `precision = 256`) are dropped. The sines and cosines the model takes in place of `sin`/`cos` have no default, and the contract holds for every radius and precision anyway.
- Renderer.RoundedCornerRender.constructor: `precision` is a `nat`. A negative `precision` would make the buffer allocation throw, and that path is not modelled. 32-bit `Int` overflow of the capacities and indices, for a very large `precision`, is not modelled either.
- Renderer.RoundedCornerRender.GenerateCutout: it requires room for one corner in both buffers. The `BufferOverflowException` a put would raise otherwise is not modelled. The constructor's four calls always have room.
- Renderer.RoundedCornerRender.GenerateCutout: the loop advances local copies of the cursors three entries at a time and stores them in the fields when it returns. It does not advance them after each single `put`. Nothing else reads the cursors in between.
