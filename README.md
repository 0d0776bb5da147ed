# webgpu-bspline, modelled in Dafny

This project models the CPU-side and compute-shader arithmetic of the
webgpu-bspline demos, with the GPU and browser plumbing stripped away:

- **The tensor-product B-spline pipeline.**
  - The clamped knot vector (`calcKnotVector`).
  - The UV stage: an affine map from the undisplaced control lattice onto
    `[0, K]`, where `K` is the last knot.
  - The blend stage: the WGSL `calcBlend`, a bottom-up Cox–de Boor table.
  - The sum stage: a 4×4 weighted window over the control points.
  - Their composition in `computeCurrentCirclePos`.
- **Buffer packing.** `listToArray`, `arrayToList`, the 12-float square
  sprites and the `vec4f` packing loop.
- **The drawing classes whose buffers are updated in place.** `CtrlPoints`,
  both `CirclePoints` classes, the `ctrlPoint` lattice and the drag state
  machine of `interaction.ts`.
- **The image-triangulation demo.**
  - The barycentric inside test, average colour, vertex error and low-error
    pixel search of `triangulation.ts`.
  - The scan-line rasteriser, the error run and the random-walk optimiser of
    `main.js` and `delaunay.ts`.
  - Delaunator's half-edge helpers.
- **The 3D viewer.**
  - The point lattice and its wireframe edges.
  - The interleaved vertex layout, flat normals and index format of a mesh.
  - The 4×4 matrix helpers.
  - The ray/box and ray/plane tests.
- **`svg.py`**: it collects path tags, extracts their `d` attributes and
  splits them into coordinate pairs.

Numbers are modelled as follows:

- JavaScript and WGSL floats are Dafny `real`s, so f32/f64 rounding is not
  modelled.
- Integer arithmetic is exact.
- JavaScript's truncating `%` is written out (`Common.JsRem`).
- The `Infinity`/`NaN` behaviour of the ray/box test is modelled by an
  extended-real datatype (`Mouse.Ext`).
- `Math.random()` draws, the triangulation returned by Delaunator, `Math.sqrt`
  and Python's `float()` are parameters of the members that use them.

Each source file becomes one module:

| source file | module |
|---|---|
| `compute.js`, `arrayCalculation.ts` | `KnotVector` |
| the `computeUv` files | `Uv` |
| `computeBlend.js` | `Blend` |
| `computeSum.ts` | `Sum` |
| `compute.ts` | `Pipeline` |
| the packing helpers | `Packing` |
| `src/js/circlePointDraw.js` | `CircleDraw` |
| `js/circlePointDraw.js` | `CircleDrawLegacy` |
| `ctrlPoint.ts`, `interaction.ts` | `CtrlGrid` |
| `ctrlPointDraw.js` | `CtrlDraw` |
| `main.ts` half-edges | `Halfedge` |
| `points.ts` | `LatticePoints` |
| `lines.ts` | `LatticeLines` |
| 3D `main.ts` meshes | `GlbLoader` |
| 3D `main.ts` matrices | `Matrix4` |
| `triangulation.ts` | `Triangulation` |
| `main.js` raster | `Raster` |
| `main.js` / `delaunay.ts` optimiser | `MeshOptimise` |
| `mouse.ts` | `Mouse` |
| `svg.py` | `Svg` |

Shared vectors and helpers are in `Common`, and the configured constants are
in `Config`.

The model follows the code where the code and the design notes differ. For 9
control points and degree 3, the knot-vector rule of `calcKnotVector` gives
`[0,0,0,1,2,3,4,5,6,7,8,8,8]`. It is not the textbook clamped vector that
ends `7,7,7,7`, and the model proves the former (`KnotVector.KnotsNineThree`).

The blend loop stops at tier `degree`, so the value it returns is the
Cox–de Boor basis of order `degree` (polynomial degree `degree - 1`). The model
proves the table equal to that recursion.

The knot vector has `len + degree + 1` knots, so it carries `len + 1` basis
functions, but the blend stage evaluates one per control point. The `len`
weights of a point add up to one only on `[0, len - degree + 1)`; past that
they fall short by the last function's value (`Blend.ControlSumShortfall`).

The whole project verifies from this directory with

    dafny verify --resource-limit 2000000 --verification-time-limit 0 --warn-contradictory-assumptions *.dfy

## Model

| member | source | states |
|---|---|---|
| KnotVector.CalcKnotVector | js/compute.js:4-18 | returns `len + degree + 1` knots: 0 below `degree`, `i - degree + 1` up to `len`, `len - degree + 2` after; equal to the closed form `Knots`; the copy in `src/3D-bspline/webgpu/arrayCalculation.ts` follows the same three-branch rule and length |
| KnotVector.KnotsSortedIff | js/compute.js:8-14 | the knot vector is non-decreasing exactly when `degree <= len + 2` |
| KnotVector.LastKnot | js/compute.js:12-14 | the last knot is `len - degree + 2` (`len + 1` when the degree is 0) |
| KnotVector.KnotsNineThree | js/compute.js:4-18 | for 9 control points and degree 3 the vector is `[0,0,0,1,2,3,4,5,6,7,8,8,8]` |
| KnotVector.AsReals | js/computeBlend.js:18-20 | the `f32` knot array has the same length and values as the integer knots |
| KnotVector.AsRealsSorted | js/computeBlend.js:18-20 | converting to floats keeps the knots non-decreasing |
| Uv.CoordRoundTrip | js/compute.js:51-54 | `K*(p - start)/(end - start)` is inverted by `start + u*(end - start)/K`, both ways |
| Uv.UvRoundTrip | src/2D-bspline/webgpu/computeUv.ts:37-40 | the per-axis UV map of a point is a bijection between the plane and parameter space |
| Uv.UvCorners | src/2D-bspline/webgpu/computeUv.ts:37-40 | `gridStart` maps to `(0, 0)` and `gridEnd` to `(K, K)` |
| Uv.CoordWithin | js/compute.js:51-54 | a coordinate between start and end maps into `[0, K]` |
| Uv.UvWithinDomain | src/Image-bspline/webgpu/computeUv.ts:60-63 | a point inside the lattice box gets a UV pair inside `[0, K]²` |
| Uv.UvList | src/2D-bspline/webgpu/computeUv.ts:34-41 | one UV pair per input point |
| Uv.UvShader | js/compute.js:44-56 | invocation `idx` writes the UV of the `x`, `y` of the `vec4f` at `4*idx`, with `K` the last knot |
| Uv.ComputeUv | src/2D-bspline/webgpu/computeUv.ts:6-65 | from `circlePoint.init` and the configured lattice alone it produces the UV of every point, in order, with `K = 8` |
| Uv.PackVec4 | js/compute.js:75-81 | point `i` is packed as `(x, y, 0, 1)` at floats `4i .. 4i+3` |
| Uv.TriangleVectors | src/Image-bspline/webgpu/computeUv.ts:16-36 | the flat input is read two at a time into one vector per pair, in order, and the scaled copies are discarded |
| Uv.DispatchCovers | src/Image-bspline/webgpu/computeUv.ts:118-120 | `ceil((n/2)/256)` workgroups of 256 cover every point, and one fewer would not |
| Packing.Packed | src/3D-bspline/webgpu/arrayCalculation.ts:14-15 | the packed array has 2 floats per point, or 4 in `vec4f` mode |
| Packing.PackedLayout | src/3D-bspline/webgpu/arrayCalculation.ts:16-24 | point `i` lands at `pad*i`, `pad*i+1`, followed by `0, 1` in `vec4f` mode |
| Packing.PairsLayout | src/3D-bspline/webgpu/arrayCalculation.ts:34-41 | `arrayToList` yields element `k` = `(s[2k], s[2k+1])`, `n/2` of them |
| Packing.PairsOfPacked | src/3D-bspline/webgpu/arrayCalculation.ts:13-41 | `arrayToList(listToArray(pts)) == pts` in the 2-float layout |
| Packing.PackedOfPairs | src/3D-bspline/webgpu/arrayCalculation.ts:13-41 | `listToArray(arrayToList(s)) == s` for an even-length array |
| Packing.ListToArray | src/3D-bspline/webgpu/arrayCalculation.ts:13-27 | the running-index loop fills exactly the packed layout; in the 2-float variant of `src/ts/webgpu/arrayCalculation.ts` point `i` sits at `2i`, `2i+1` |
| Packing.WriteSlot | src/3D-bspline/webgpu/arrayCalculation.ts:18-23 | one loop turn writes the point's 2 or 4 floats at the running index and keeps the floats before it |
| Packing.ArrayToList | src/3D-bspline/webgpu/arrayCalculation.ts:34-41 | the pairing loop returns one vector per consecutive pair, in order |
| Packing.WritePairs | js/ctrlPointDraw.js:82-92 | the `createPointsValue` loop leaves point `i` at floats `2i`, `2i+1`, for every point |
| Packing.SquareBlockLayout | src/3D-bspline/webgpu/arrayCalculation.ts:54-75 | a sprite is 12 floats: six corners `(−o,−o),(+o,−o),(−o,+o),(−o,+o),(+o,−o),(+o,+o)` mapped to clip space; corners 1 and 4, and 2 and 3, coincide |
| Packing.SquareVerticesLayout | src/3D-bspline/webgpu/arrayCalculation.ts:67-75 | block `i` of the vertex buffer occupies `[12i, 12i+12)` and is the sprite of point `i` |
| Packing.FlipNegatesY | src/3D-bspline/webgpu/arrayCalculation.ts:55-56 | the TypeScript generators' `y` is the negation of the one in `js/utils.js`, and `x` is the same |
| Packing.AddVertex | src/ts/webgpu/arrayCalculation.ts:23-26 | writes `((px/w)-0.5)*2` and `-((py/h)-0.5)*2` at the running index, advances it by 2, and changes nothing else |
| Packing.AddSquare | src/ts/webgpu/arrayCalculation.ts:36-44 | the six `addVertex` calls write one sprite block and leave the rest of the buffer alone |
| Packing.ListToSquareVertex | src/3D-bspline/webgpu/arrayCalculation.ts:49-78 | the buffer holds the flipped sprite of every point, with half-size `floor(size/2)` chosen by square type; the older copy in `src/ts/webgpu/arrayCalculation.ts` does the same |
| Packing.CreateSquareVertex | js/utils.js:3-28 | returns the 12 floats of one unflipped sprite, using the offset as given rather than halved |
| Packing.SetAt | js/ctrlPointDraw.js:55 | `TypedArray.set(src, offset)` replaces exactly `[offset, offset + |src|)` |
| Packing.SquareVertexBuffer | js/ctrlPointDraw.js:58-73 | the `createPointsVertexValue` loop: `12*n` floats, block `i` being the sprite of point `i` |
| Blend.TierStartClosed | js/computeBlend.js:62-66 | the offset of tier `deg` is `(deg-1)(2*degree+2-deg)/2` |
| Blend.TiersFitIff | js/computeBlend.js:37-40 | the table needs `degree*(degree+1)/2` slots, which fit the 10-slot scratch array exactly when `degree <= 4` |
| Blend.TierStartMono | js/computeBlend.js:62-66 | tier offsets increase with the tier |
| Blend.TierOffset | js/computeBlend.js:62-65 | the `offset` loop computes the start of the previous tier |
| Blend.SpanEntry | js/computeBlend.js:41-46 | a tier-1 entry is 1 exactly when `knot[j] <= t < knot[j+1]`, else 0 |
| Blend.CombineEntry | js/computeBlend.js:47-67 | a higher-tier entry is the Cox–de Boor combination of the two entries below, and a zero denominator makes its term 0 |
| Blend.Weights | js/computeBlend.js:49-60 | the two weights are the Cox–de Boor ratios, each 0 when its knot difference is 0 |
| Blend.TierEntry | js/computeBlend.js:41-67 | one turn of the `num` loop stores the order-`deg` basis value of `i + num` |
| Blend.FillTier | js/computeBlend.js:40-70 | one pass of the `num` loop fills tier `deg` with the order-`deg` basis values and keeps the tiers below |
| Blend.CalcBlend | js/computeBlend.js:33-75 | `calcBlend(i, t)` returns the order-`degree` basis function `N(i, degree, t)` |
| Blend.BlendTable | js/computeBlend.js:84-91 | the blend table has `circle.total * len` slots |
| Blend.BlendTableAt | js/computeBlend.js:84-91 | slot `idx*len + i` holds `(N(i, uv.x), N(i, uv.y))` of point `idx` |
| Blend.BlendInvocation | js/computeBlend.js:84-91 | invocation `(idx, i)` computes the table entry at `idx*len + i` |
| Blend.BlendWorkgroup | js/computeBlend.js:78-92 | workgroup `idx` fills its `len` slots with the table entries and leaves earlier workgroups' slots alone |
| Blend.BlendStage | js/computeBlend.js:78-92 | the dispatch writes every slot of the table, each with its basis pair |
| Blend.LocalSupport | js/computeBlend.js:41-66 | the basis is 0 when `t < knot[i]` or `t >= knot[i+degree]` |
| Blend.LeftWeightNonNegative | js/computeBlend.js:55-57 | the left weight is non-negative for `t >= knot[i]` on sorted knots |
| Blend.RightWeightNonNegative | js/computeBlend.js:58-60 | the right weight is non-negative for `t <= knot[i+deg]` on sorted knots |
| Blend.BasisNonNegative | js/computeBlend.js:33-75 | on sorted knots every basis value is non-negative |
| Blend.KnotReals | js/computeBlend.js:18-20 | the knot array the shader holds has `len + degree + 1` entries |
| Blend.KnotRealsSorted | js/computeBlend.js:18-20 | that array is non-decreasing when `degree <= len + 2` |
| Blend.BasisVanishesAtLastKnot | js/computeBlend.js:42 | at `t` equal to the last knot every basis value is 0 |
| Blend.KnotSpan | js/compute.js:4-18 | for `0 <= t < K` the knot span holding `t` is `[knot[degree-1+floor t], knot[degree+floor t])` |
| Blend.SpanSum | js/computeBlend.js:41-46 | on sorted knots exactly one order-1 span indicator is 1 at `t`, so a range holding its span sums to 1 |
| Blend.SumVanishesLeft | js/computeBlend.js:33-75 | basis functions whose support ends at or before `t` add up to 0 |
| Blend.Telescope | js/computeBlend.js:48-67 | a sum of order-`k` values telescopes to the order-`k-1` sum plus the two outer weighted terms |
| Blend.LocalPartition | js/computeBlend.js:33-75 | in a non-empty span `[knot[p], knot[p+1])` the order-`k` functions from `p-k+1` to `p` add up to 1 |
| Blend.PartitionOfUnity | js/compute.js:4-18 | the `len + 1` order-`degree` functions of the `len + degree + 1` knots add up to 1 at every `t` in `[0, K)` |
| Blend.ControlSumShortfall | js/computeBlend.js:84-91 | the `len` functions the blend stage evaluates (one per control point) add up to `1 - N(len, degree, t)` |
| Blend.ControlSumIsOne | js/computeBlend.js:84-91 | those `len` weights add up to 1 on `[0, len - degree + 1)`, where `N(len, degree, ·)` is still 0 |
| Blend.ControlSumShortNearEnd | js/computeBlend.js:84-91 | with 9 control points and degree 3, `N(9, 3, 7.5) = 0.25` and the 9 weights at `t = 7.5` add up to 0.75 |
| Sum.WindowIsTensorSum | src/3D-bspline/webgpu/computeSum.ts:35-41 | a window outside which the weights vanish sums to the full tensor sum |
| Sum.KnotRealsBounds | js/compute.js:8-14 | every knot lies in `[0, len-degree+2]`, and knot `m` is `m-degree+1` in the middle range |
| Sum.OutsideUnclampedWindowVanishes | src/3D-bspline/webgpu/computeSum.ts:32-36 | basis functions outside the 4-wide window starting at `u32(floor t)` are 0 at `t` |
| Sum.OutsideWindowVanishes | src/3D-bspline/webgpu/computeSum.ts:32-36 | basis functions outside the 4-wide window clamped to start at most at `len - 4` are 0 |
| Sum.RowOutsideWindow | src/3D-bspline/webgpu/computeSum.ts:35-38 | the same for a whole basis row |
| Sum.AddWindowRow | src/3D-bspline/webgpu/computeSum.ts:36-42 | the `kj` loop adds the four weighted control points of row `ki` to `cp` |
| Sum.WindowSum | src/3D-bspline/webgpu/computeSum.ts:30-43 | the `ki`/`kj` loops return the 4×4 window sum of `blend[ki].x * blend[kj].y * ctrl[ki*len + kj]` |
| Sum.RowsOfBlendTable | src/3D-bspline/webgpu/computeSum.ts:37-38 | `blend[p*len + k]` read by the sum stage is the basis row of point `p` |
| Sum.SumInvocationAsWritten | src/3D-bspline/webgpu/computeSum.ts:29-44 | one invocation as written, for any UV: the flat-index sum over the window at `(u32(floor u), u32(floor v))`, with reads past either buffer given by parameters |
| Sum.AddFlatRow | src/3D-bspline/webgpu/computeSum.ts:36-42 | the `kj` loop as written adds the four flat-index terms of row `ki` to `cp` |
| Sum.SumInvocation | src/3D-bspline/webgpu/computeSum.ts:30-44 | one invocation with the clamped origin returns the window sum at the clamped origin |
| Sum.SumStageAsWritten | src/3D-bspline/webgpu/computeSum.ts:26-45 | for every point and any UV, `pointResult[p]` is that as-written flat-index sum; nothing is required of the windows |
| Sum.SumStage | src/3D-bspline/webgpu/computeSum.ts:26-45 | the corrected loop, with the origin clamped to `len - 4`: every read stays in the lattice and `pointResult[p]` is the clamped window sum |
| Sum.ClampedWindowIsSpline | src/3D-bspline/webgpu/computeSum.ts:32-41 | the clamped window sum over the blend table equals the full spline sum at that UV |
| Sum.ClampedGridIsSpline | src/3D-bspline/webgpu/computeSum.ts:32-41 | over the basis rows, the clamped 4×4 window sums to the spline point |
| Sum.AsWrittenAgreesInRange | src/3D-bspline/webgpu/computeSum.ts:32-41 | where `floor(uv) + 4 <= len` the shader as written stores the clamped window sum |
| Sum.FlatRowInLattice | src/3D-bspline/webgpu/computeSum.ts:36-41 | a flat-index row whose weights past the last column read 0 is the in-lattice row sum |
| Sum.FlatGridInLattice | src/3D-bspline/webgpu/computeSum.ts:35-41 | a flat-index window whose weights past the last row and column read 0 is the window sum cut at the lattice edge |
| Sum.AsWrittenIsCutWindow | src/3D-bspline/webgpu/computeSum.ts:32-41 | the as-written point is the window cut at the lattice edge whenever every weight read past it is 0 |
| Sum.UnclampedWindowIsSpline | src/3D-bspline/webgpu/computeSum.ts:32-41 | over the basis rows, the window at `floor(uv)` cut at the lattice edge sums to the spline point |
| Sum.AsWrittenIsSpline | src/3D-bspline/webgpu/computeSum.ts:32-41 | fed by the blend stage, the as-written point is the spline point whenever every weight read past the lattice is 0 |
| Sum.EarlyBasisVanishes | js/compute.js:4-18 | basis function `i` is 0 from `t = i + 1` on |
| Sum.NextRowReadVanishes | src/3D-bspline/webgpu/computeSum.ts:37-40 | a weight read past point `p`'s blend row is the next point's basis `k - len`, 0 once that point's parameter is at least `k - len + 1` |
| Sum.AsWrittenIsSplineBeforeLast | src/3D-bspline/webgpu/computeSum.ts:32-44 | for every point but the last, below the last knot, whose successor's UVs have passed the functions the overrun reads, the as-written point is the spline point whatever lies past the buffers |
| Sum.LastPointReadsPastBuffers | src/3D-bspline/webgpu/computeSum.ts:32-41 | on the 9×9 lattice with 100 points, point 99 with `6 <= u < 7` reads its row-9 `u` weight at slot 900 of 900 and control points 81 and up of 81 |
| Sum.AsWrittenOverrunsByOneRow | src/3D-bspline/webgpu/computeSum.ts:35-41 | a window one row past the lattice stores the in-lattice window plus the flat row read past it |
| Sum.SplineAtLastKnot | js/computeBlend.js:42 | at the last knot value every weight is 0, so the spline point is the origin |
| Pipeline.WindowsAreSplinePoints | src/3D-bspline/webgpu/computeSum.ts:32-44 | each window the sum stage reads from the configured blend table is the spline point |
| Pipeline.SplinePoints | src/ts/webgpu/compute.ts:9-11 | one spline point per UV pair |
| Pipeline.BlendAndSum | src/ts/webgpu/compute.ts:8-9 | blend then the clamped sum stage (`Sum.SumStage`): the result holds each spline point as two floats |
| Pipeline.AsFloats | src/3D-bspline/webgpu/computeSum.ts:154-155 | the `vec2f` result buffer read back as a `Float32Array` is the points packed two floats each |
| Pipeline.ReadBackSplinePoints | src/ts/webgpu/compute.ts:9-11 | with the clamped sum stage, reading the packed result two floats at a time gives one point per sample, the spline of the current lattice at the UV of its initial position |
| Pipeline.ComputeCurrentCirclePos | src/ts/webgpu/compute.ts:6-12 | uv, blend, the clamped sum stage, then `arrayToList`: one point per sample, each the spline of the current lattice at the UV of its initial position |
| CircleDraw.CirclePoints.constructor | src/js/circlePointDraw.js:9-28 | builds `initPointsValue` as the packed initial points and the vertex buffer from them |
| CircleDraw.CirclePoints.CreatePointsValue | src/js/circlePointDraw.js:30-39 | `initPointsValue[2i], [2i+1]` are the coordinates of initial point `i`, and no other field changes |
| CircleDraw.CirclePoints.CreatePointsVertexValue | src/js/circlePointDraw.js:41-64 | the sprite buffer is built from `initPoints` when `init`, otherwise from `pointsValue` |
| CircleDraw.CirclePoints.CreateUVValue | src/js/circlePointDraw.js:66-68 | `uvValue` is the UV of each initial point, and no other field changes |
| CircleDraw.CirclePoints.UpdatePointsValue | src/js/circlePointDraw.js:70-89 | after blend then the clamped sum stage, `pointsValue[i]` is the spline point of UV `i` for `i < circle.total`, and the sprites are rebuilt from it |
| CircleDraw.StorePoints | src/js/circlePointDraw.js:82-87 | `pointsValue[i] = (result[2i], result[2i+1])` for `i < count`; later entries are kept |
| CircleDraw.MovedPoints | src/js/circlePointDraw.js:70-87 | with the clamped sum stage, the stored points are the spline points of the UVs over the given control points |
| CircleDrawLegacy.CanvasFractions | js/circlePointDraw.js:28-30 | `pointsValue` has two floats per point |
| CircleDrawLegacy.CanvasFractionsLayout | js/circlePointDraw.js:32-35 | floats `2i`, `2i+1` are `x/width` and `y/height`, and multiplying back recovers the point |
| CircleDrawLegacy.CanvasFractionsAt | js/circlePointDraw.js:32-35 | float `2i` is `x/width` and float `2i+1` is `y/height` of point `i` |
| CircleDrawLegacy.WriteFractions | js/circlePointDraw.js:27-36 | the loop leaves `x/width`, `y/height` of point `i` at floats `2i`, `2i+1`, for every point |
| CircleDrawLegacy.CirclePoints.constructor | js/circlePointDraw.js:7-25 | `pointsValue` holds the canvas fractions and the vertex buffer holds the sprites of the initial points |
| CircleDrawLegacy.CirclePoints.CreatePointsValue | js/circlePointDraw.js:27-36 | rebuilds `pointsValue` as canvas fractions, `2*circle.total` floats, and changes no other field |
| CircleDrawLegacy.CirclePoints.CreatePointsVertexValue | js/circlePointDraw.js:38-52 | block `i` is the sprite of initial point `i` at offset `12i` |
| CircleDrawLegacy.CirclePoints.CreateUVValue | js/circlePointDraw.js:54-56 | UVs come from `initPoints` only |
| CtrlGrid.Lattice | src/ts/ctrlPoint.ts:9-17 | the lattice has `len*len` points |
| CtrlGrid.LatticeIndex | src/ts/ctrlPoint.ts:9-15 | index `col*len + row` holds `(start.x + row*gap, start.y + col*gap)` |
| CtrlGrid.LatticeAtInjective | src/ts/ctrlPoint.ts:9-15 | for a nonzero gap the column and row of a point are determined by its coordinates |
| CtrlGrid.LatticeInjective | src/ts/ctrlPoint.ts:9-17 | with a nonzero gap no two indices hold the same point |
| CtrlGrid.BuildLattice | src/ts/ctrlPoint.ts:9-17 | the nested `col`/`row` push loops build exactly that lattice |
| CtrlGrid.CtrlPoint.constructor | src/ts/ctrlPoint.ts:4-19 | `current` starts equal to `init` and is a separate array |
| CtrlGrid.FirstHitSpec | src/2D-bspline/interaction.ts:19-30 | the pick is the first point in list order within `floor(size/2)` on both axes, and none exactly when no point is |
| CtrlGrid.FindClicked | src/2D-bspline/interaction.ts:19-30 | the loop with `break` returns that first hit |
| CtrlGrid.ClickedPoint.constructor | src/2D-bspline/interaction.ts:5-9 | the initial state is `(false, -1, (0,0))` |
| CtrlGrid.ClickedPoint.ChangeControlPoint | src/2D-bspline/interaction.ts:11-31 | on a hit it records `isClicked`, the index and `point - mouse`; with no hit the state is unchanged |
| CtrlGrid.ClickedPoint.MoveControlPoint | src/2D-bspline/interaction.ts:33-48 | does nothing unless clicked; otherwise sets `current[index] = mouse + mouseOffset` and nothing else changes |
| CtrlGrid.ClickedPoint.ReleaseControlPoint | src/2D-bspline/interaction.ts:50-54 | resets the state to `(false, -1, (0,0))` |
| CtrlGrid.ClickThenMoveInPlace | src/2D-bspline/interaction.ts:25-47 | a click then a move at the same mouse position leaves every point where it was |
| CtrlDraw.ColumnLattice | js/ctrlPointDraw.js:13-21 | the constructor's lattice has `len*len` points |
| CtrlDraw.ColumnLatticeAtIndex | js/ctrlPointDraw.js:13-21 | the point for `(i, j)` is `(start.x + i*gap, start.y + j*gap)` |
| CtrlDraw.ColumnLatticeIndex | js/ctrlPointDraw.js:13-21 | index `i*len + j` holds `(start.x + i*gap, start.y + j*gap)`, the transpose of the TypeScript lattice |
| CtrlDraw.BuildPoints | js/ctrlPointDraw.js:13-21 | `initPoints` and `points` are that lattice and every offset is zero |
| CtrlDraw.IdxSlotBijective | js/ctrlPointDraw.js:28 | `yIdx*len + xIdx` is a bijection between index pairs and slots |
| CtrlDraw.IdxNamesSwapped | js/ctrlPointDraw.js:27-29 | because the lattice is column-major, slot `(xIdx, yIdx)` holds the point whose x grows with `yIdx` |
| CtrlDraw.CtrlPoints.constructor | js/ctrlPointDraw.js:6-25 | builds the lattice, zero offsets, and the points and vertex buffers from them |
| CtrlDraw.CtrlPoints.GetPointFromIdx | js/ctrlPointDraw.js:27-29 | reads slot `yIdx*len + xIdx` |
| CtrlDraw.CtrlPoints.GetOffsetFromIdx | js/ctrlPointDraw.js:39-41 | reads the offset at slot `yIdx*len + xIdx` |
| CtrlDraw.CtrlPoints.SetPointFromIdx | js/ctrlPointDraw.js:31-37 | that one point becomes `initPoint + offset`; every other point and field is unchanged |
| CtrlDraw.CtrlPoints.SetOffsetFromIdx | js/ctrlPointDraw.js:43-45 | replaces only the offset at that slot |
| CtrlDraw.CtrlPoints.UpdatePointsVertexValue | js/ctrlPointDraw.js:47-56 | rewrites only the 12-float block of the addressed point with its sprite |
| CtrlDraw.CtrlPoints.CreatePointsVertexValue | js/ctrlPointDraw.js:58-73 | a fresh buffer holding the sprite of point `k` at `12k` |
| CtrlDraw.CtrlPoints.UpdatePointsValue | js/ctrlPointDraw.js:75-80 | writes 8 zeros into `pointsVertexValue` at `(yIdx*len + xIdx)*8` and leaves `pointsValue` alone |
| CtrlDraw.CtrlPoints.CreatePointsValue | js/ctrlPointDraw.js:82-92 | a fresh buffer with `points[k]` at floats `2k`, `2k+1` |
| Halfedge.NextHalfedge | src/Image-bspline/main.ts:184-186 | for `e >= 0` the result stays in the same triangle, differs from `e`, and wraps from corner 2 to corner 0 |
| Halfedge.PrevHalfedge | src/Image-bspline/main.ts:188-190 | for `e >= 0` the result stays in the same triangle, differs from `e`, and wraps from corner 0 to corner 2 |
| Halfedge.NextPrevInverse | src/Image-bspline/main.ts:184-190 | `prev(next(e)) == e` and `next(prev(e)) == e` |
| Halfedge.NextThreeTimes | src/Image-bspline/main.ts:184-186 | applying `next` three times returns `e` |
| LatticePoints.Centred | src/3D-bspline/points.ts:10-17 | the positions at `i` and `n-1-i` are negatives of each other |
| LatticePoints.FirstFrom | src/3D-bspline/points.ts:29 | the search stops at an entry with the requested index, or at the end |
| LatticePoints.FirstFromSkips | src/3D-bspline/points.ts:29 | no earlier entry has the requested index |
| LatticePoints.FindSpec | src/3D-bspline/points.ts:28-30 | `find` returns the first entry with an equal index, and nothing exactly when there is none |
| LatticePoints.LatticeFinds | src/3D-bspline/points.ts:12-30 | on the built lattice, `getPoint` finds exactly the in-range indices, with the expected position |
| LatticePoints.Points.PushPlane | src/3D-bspline/points.ts:13-24 | the `y`/`z` loops for one `x` push the entries of that plane in order and keep the lattice-so-far invariant |
| LatticePoints.Points.PushRow | src/3D-bspline/points.ts:14-23 | the `z` loop pushes the entries of one row in order |
| LatticePoints.FilledSnoc | src/3D-bspline/points.ts:15-22 | pushing the entry of `(x, y, z)` extends the lattice-so-far invariant to the next index |
| LatticePoints.Points.constructor | src/3D-bspline/points.ts:9-26 | `info` has `n³` entries; position `x*n*n + y*n + z` holds index `(x, y, z)` at `pStart + idx*gap` per axis |
| LatticePoints.Points.GetPoint | src/3D-bspline/points.ts:28-30 | on the lattice the constructor built, `getPoint` returns an entry exactly when the index is in range, and then the entry of that index |
| LatticeLines.Link | src/3D-bspline/lines.ts:27-35 | one edge to a neighbour when it is in range and found, none otherwise |
| LatticeLines.PointEdges | src/3D-bspline/lines.ts:20-58 | no edges from a missing point; every edge goes from the current point to a found neighbour |
| LatticeLines.WireframeWellFormed | src/3D-bspline/lines.ts:27-56 | every edge of the constructor's list joins two found points |
| LatticeLines.WireframeInLattice | src/3D-bspline/lines.ts:27-56 | on the lattice every edge joins two in-range indices that differ by 1 in exactly one coordinate |
| LatticeLines.PointEdgesCount | src/3D-bspline/lines.ts:27-56 | a point has one edge per axis on which `coord + 1 < n` |
| LatticeLines.EdgeCount | src/3D-bspline/lines.ts:60-66 | the wireframe has `3*n²*(n-1)` edges |
| LatticeLines.LineFloatsSix | src/3D-bspline/lines.ts:74-77 | each edge contributes 6 floats |
| LatticeLines.JoinedBlocks | src/3D-bspline/lines.ts:69-81 | the vertex array is the edge blocks laid end to end, block `i` at `[6i, 6i+6)` |
| LatticeLines.VertexBlock | src/3D-bspline/lines.ts:69-81 | block `i` is the from-position then the to-position of edge `i` |
| LatticeLines.LatticeLineFloats | src/3D-bspline/lines.ts:71-77 | on the lattice those positions are the lattice coordinates of the two indices |
| LatticeLines.Lines.constructor | src/3D-bspline/lines.ts:19-81 | `info` is the x-major, right/up/front edge list and `vertices` its 6-float blocks |
| LatticeLines.Lines.AddAll | src/3D-bspline/lines.ts:60-66 | the triple loop appends the edges of every point in loop order |
| LatticeLines.Lines.AddPlane | src/3D-bspline/lines.ts:61-65 | the `y`/`z` loops append the edges of one `x` plane |
| LatticeLines.Lines.AddRow | src/3D-bspline/lines.ts:62-64 | the `z` loop appends the edges of one row |
| LatticeLines.Lines.Vertices | src/3D-bspline/lines.ts:69-81 | the vertex loop returns the 6-float blocks of the edges in order |
| LatticeLines.Lines.AddLineInfo | src/3D-bspline/lines.ts:20-58 | appends exactly the point's edges and leaves `vertices` alone |
| GlbLoader.Record | src/3D-bspline/main.ts:296-314 | a vertex record is 8 floats |
| GlbLoader.Interleaved | src/3D-bspline/main.ts:293-294 | the interleaved array has `8*(positions.length/3)` floats |
| GlbLoader.InterleavedAt | src/3D-bspline/main.ts:296-314 | float `8i + c` is the position, normal or uv component `c` of vertex `i` |
| GlbLoader.PositionsRoundTrip | src/3D-bspline/main.ts:302-304 | reading floats 0..2 of every record gives back `positions` |
| GlbLoader.NormalsRoundTrip | src/3D-bspline/main.ts:307-309 | reading floats 3..5 gives back the normals of those vertices |
| GlbLoader.UvsRoundTrip | src/3D-bspline/main.ts:312-313 | reading floats 6..7 gives the uvs, with missing components read as 0 |
| GlbLoader.WriteVertexRecord | src/3D-bspline/main.ts:297-313 | one loop turn writes record `i` and keeps the records before it |
| GlbLoader.CreateInterleavedVertexData | src/3D-bspline/main.ts:288-317 | the buffer is exactly the interleaved layout |
| GlbLoader.CrossPerpendicular | src/3D-bspline/main.ts:350-354 | the cross product is perpendicular to both edges |
| GlbLoader.NormaliseUnit | src/3D-bspline/main.ts:356-363 | for a nonzero normal the normalised vector has unit length and scales back to the normal |
| GlbLoader.FaceNormalPerpendicular | src/3D-bspline/main.ts:339-363 | a face normal is perpendicular to both edges of its triangle |
| GlbLoader.FaceNormals | src/3D-bspline/main.ts:322 | one normal per 9-float triangle |
| GlbLoader.FaceNormalsAt | src/3D-bspline/main.ts:322-363 | the `t`-th normal is that of triangle `t` |
| GlbLoader.Triple | src/3D-bspline/main.ts:365-369 | the normal written three times, component by component |
| GlbLoader.Spread | src/3D-bspline/main.ts:320 | the normals array has the length of the positions |
| GlbLoader.SpreadAt | src/3D-bspline/main.ts:365-369 | each vertex of triangle `t` gets normal `t` |
| GlbLoader.FlatNormalsShared | src/3D-bspline/main.ts:319-372 | all three vertices of a triangle share that triangle's normal |
| GlbLoader.SetTriangleNormal | src/3D-bspline/main.ts:365-369 | the `j` loop writes the 9 floats of one triangle and nothing else |
| GlbLoader.TriangleNormal | src/3D-bspline/main.ts:322-363 | the edge cross product, normalised, is the face normal of triangle `t` |
| GlbLoader.FillTriangle | src/3D-bspline/main.ts:365-369 | after triangle `t` the buffer's first `9(t+1)` floats hold the spread normals of triangles `0..t` |
| GlbLoader.GenerateNormals | src/3D-bspline/main.ts:319-373 | the output has the input's length and holds the flat normal of each triangle at each of its vertices |
| GlbLoader.ChooseIndexFormat | src/3D-bspline/main.ts:390-405 | the format is `uint32` exactly when indices exist and are not a `Uint16Array`, otherwise `uint16` |
| GlbLoader.IndexFormatMatchesBuffer | src/3D-bspline/main.ts:399-405 | the chosen format has the typed array's element width, so `indexCount` elements fill the buffer and every index is representable; without indices the count is 0 |
| GlbLoader.MeshDataOf | src/3D-bspline/main.ts:270-282 | the pushed record has `8*vertexCount` floats, `vertexCount = positions.length/3`, and `indexCount` is the index count or 0 |
| Matrix4.IdentityNeutral | src/3D-bspline/main.ts:475-478 | the identity is neutral on both sides of the product |
| Matrix4.Identity | src/3D-bspline/main.ts:475-478 | zeroes the buffer, then sets entries 0, 5, 10, 15 to 1 |
| Matrix4.MultipliedDistinct | src/3D-bspline/main.ts:554-563 | with `out` distinct from the operands, the loops compute the matrix product |
| Matrix4.AliasedFirstEntry | src/3D-bspline/main.ts:554-563 | with `out == a`, entry 0 is computed after `a[0]` is zeroed, so the `k = 0` term is lost |
| Matrix4.AliasedMultiplyDiffers | src/3D-bspline/main.ts:469 | for `a` with first row `(1,0,0,0)` and `b[0] != 0`, the aliased result differs from the product |
| Matrix4.AccumulateEntry | src/3D-bspline/main.ts:557-560 | the `k` loop zeroes `out[i*4+j]` and accumulates into it, reading `a` through `out` when aliased |
| Matrix4.AddProduct | src/3D-bspline/main.ts:559 | one `k` step adds `a[i*4+k]*b[k*4+j]` to entry `(i, j)`, `a` being `out` as it was when the two alias |
| Matrix4.Multiply | src/3D-bspline/main.ts:554-564 | the result is the loops' in-place semantics, and the product whenever `out != a` |
| Matrix4.Copy | src/3D-bspline/main.ts:533-534 | a fresh copy of a buffer, as `rotateX`/`rotateY` take before writing |
| Matrix4.MultiplySafe | src/3D-bspline/main.ts:554-563 | reading copies of the operands makes the product correct whatever aliases `out` |
| Matrix4.ComposeMvpAsWritten | src/3D-bspline/main.ts:466-469 | `multiply(mvp, mvp, model)` yields the aliased loop result, not `P*V*M` |
| Matrix4.ComposeMvp | src/3D-bspline/main.ts:466-469 | the intended MVP is `(P*V)*M` |
| Triangulation.PixelOffset | src/Image-bspline/triangulation.ts:201 | pixel `(x, y)` starts at byte `(y*width + x)*4` |
| Triangulation.QuotientTest | src/Image-bspline/triangulation.ts:157-162 | the sign tests on `s/(2A)` and `t/(2A)` are equivalent to sign tests on numerators and area |
| Triangulation.InsideMatchesSource | src/Image-bspline/triangulation.ts:138-163 | the division-free inside test agrees with the barycentric formula, and a zero area is outside |
| Triangulation.CornersInside | src/Image-bspline/triangulation.ts:157-162 | the three vertices of a non-degenerate triangle are inside |
| Triangulation.BarycentricMeaning | src/Image-bspline/triangulation.ts:157-161 | `s` and `t` are the barycentric weights: `p = v1 + s(v2-v1) + t(v3-v1)` |
| Triangulation.FlatTriangleIsEmpty | src/Image-bspline/triangulation.ts:157-162 | a zero-area triangle contains no pixel |
| Triangulation.BoxScanInImage | src/Image-bspline/triangulation.ts:181-188 | the bounding-box scan visits only pixels of the box, all inside the image |
| Triangulation.TotalsSnoc | src/Image-bspline/triangulation.ts:189-206 | scanning one more pixel adds its channels and count when it is inside |
| Triangulation.UniformTotals | src/Image-bspline/triangulation.ts:189-206 | over inside pixels of one colour, each total is that channel times the count |
| Triangulation.AverageOfUniform | src/Image-bspline/triangulation.ts:211-219 | a triangle whose inside pixels all have one colour averages to that colour |
| Triangulation.InsideCounted | src/Image-bspline/triangulation.ts:205 | scanning an inside pixel makes the count positive |
| Triangulation.AddPixel | src/Image-bspline/triangulation.ts:189-206 | one inner-loop turn extends the totals by one pixel |
| Triangulation.ScanPixel | src/Image-bspline/triangulation.ts:189-206 | pixel `x` of row `y` extends the totals of the row scanned so far |
| Triangulation.ScanRow | src/Image-bspline/triangulation.ts:188-207 | the `x` loop totals one row of the box |
| Triangulation.ScanBox | src/Image-bspline/triangulation.ts:187-208 | the nested loops total the inside pixels of the box, in scan order |
| Triangulation.GetAverageColor | src/Image-bspline/triangulation.ts:165-220 | returns `[0,0,0]` when no pixel is inside, else the floored channel means over box ∩ triangle |
| Triangulation.VertexError | src/Image-bspline/triangulation.ts:222-247 | the sum of absolute channel differences at the three vertices, which is 0 exactly when all three match the colour |
| Triangulation.LowScanSnoc | src/Image-bspline/triangulation.ts:277-304 | scanning one more pixel replaces the pick exactly when it is a non-vertex inside pixel with strictly lower error |
| Triangulation.LowScanSpec | src/Image-bspline/triangulation.ts:271-306 | the pick is the first candidate of strictly minimal error, and there is none exactly when no non-vertex inside pixel exists |
| Triangulation.LowPixel | src/Image-bspline/triangulation.ts:277-304 | one inner-loop turn of the search |
| Triangulation.LowRowPixel | src/Image-bspline/triangulation.ts:277-304 | pixel `x` of row `y` extends the search of the row scanned so far |
| Triangulation.ScanLowRow | src/Image-bspline/triangulation.ts:276-305 | the `x` loop of the search over one row |
| Triangulation.ScanLowBox | src/Image-bspline/triangulation.ts:275-306 | the nested loops of the search over the box |
| Triangulation.GetLowErrorPoint | src/Image-bspline/triangulation.ts:249-309 | returns that pick, or `[0,0]` when there is none |
| Triangulation.TriAtInImage | src/Image-bspline/triangulation.ts:92-97 | the vertices read through the index list lie in the image |
| Triangulation.NewPointSpec | src/Image-bspline/triangulation.ts:106-130 | a triangle adds a point only when its vertex error exceeds 100 and both low-pixel coordinates are positive, and that point is the low pixel |
| Triangulation.NewPointIn | src/Image-bspline/triangulation.ts:127-129 | an added point lies in the image |
| Triangulation.NewPointRuleAdds | src/Image-bspline/triangulation.ts:114-130 | the refinement rule only ever adds image points, at most one pair |
| Triangulation.GrownGrows | src/Image-bspline/triangulation.ts:91-131 | a refinement pass keeps the old points as a prefix and adds image points only |
| Triangulation.RefineUpToGrows | src/Image-bspline/triangulation.ts:91-131 | the same after the first `n` triangles |
| Triangulation.RefineUpToSnoc | src/Image-bspline/triangulation.ts:91-131 | handling one more triangle appends that triangle's new point, if any |
| Triangulation.RefineGrows | src/Image-bspline/triangulation.ts:53-131 | points only grow and the previous points stay a prefix |
| Triangulation.RefineTriangle | src/Image-bspline/triangulation.ts:92-130 | the loop body pushes exactly the rule's new point |
| Triangulation.RefineStep | src/Image-bspline/triangulation.ts:91-131 | one turn of the refinement loop |
| Triangulation.RefinePass | src/Image-bspline/triangulation.ts:91-131 | the whole refinement loop |
| Triangulation.FinalLength | src/Image-bspline/triangulation.ts:64-85 | the final pass gives 6 coordinates and 3 colours per triangle |
| Triangulation.FinalPointsPrefix | src/Image-bspline/triangulation.ts:64-85 | the output of the first `m` triangles is a prefix of the output of `n` |
| Triangulation.PaintedStep | src/Image-bspline/triangulation.ts:75-84 | triangle `n-1` appends three copies of its colour to the colours of the first `n-1` |
| Triangulation.PaintedPrefix | src/Image-bspline/triangulation.ts:64-85 | the same for the colours |
| Triangulation.PaintedAt | src/Image-bspline/triangulation.ts:64-85 | triangle `j` contributes its six vertex coordinates and three copies of its colour |
| Triangulation.AverageRuleColors | src/Image-bspline/triangulation.ts:75-80 | the average colour of every in-image triangle is a colour |
| Triangulation.FinalLayout | src/Image-bspline/triangulation.ts:60-87 | the final output is exactly each triangle's coordinates and three copies of its average colour |
| Triangulation.FinalStep | src/Image-bspline/triangulation.ts:64-85 | one turn of the final loop |
| Triangulation.FinalPass | src/Image-bspline/triangulation.ts:61-87 | the whole final loop |
| Triangulation.RoundsStep | src/Image-bspline/triangulation.ts:56-131 | a round before the last refines the points of the triangulation |
| Triangulation.RoundsLast | src/Image-bspline/triangulation.ts:60-88 | the last round returns the final pass of the triangulation |
| Triangulation.NextRound | src/Image-bspline/triangulation.ts:57-131 | one turn of the depth loop |
| Triangulation.ClacDelunay | src/Image-bspline/triangulation.ts:47-135 | returns the rounds' result from a copy of the initial points; depth 0 returns `[[], []]` |
| Triangulation.CornersIn | src/Image-bspline/triangulation.ts:82 | the coordinates pushed for an in-image triangle lie in the image |
| Triangulation.FinalPointsIn | src/Image-bspline/triangulation.ts:82 | every output coordinate pair lies in the image |
| Triangulation.OneRoundOutput | src/Image-bspline/triangulation.ts:60-87 | with depth 1 the output has two coordinates per index of the triangulation and one colour per index |
| Triangulation.GridCoordWithin | src/Image-bspline/triangulation.ts:31-32 | `trunc((size-1)*k/n)` lies in `[0, size-1]` |
| Triangulation.GridUpToIn | src/Image-bspline/triangulation.ts:29-35 | the inner loop's points so far are in the image, two coordinates each |
| Triangulation.GridColumnsIn | src/Image-bspline/triangulation.ts:29-35 | the outer loop's points so far are in the image, 42 coordinates per column |
| Triangulation.GridInImage | src/Image-bspline/triangulation.ts:29-35 | the initial grid has `21*21` points, all inside the image |
| Triangulation.InitPoints | src/Image-bspline/triangulation.ts:25-35 | the nested loops push the x-major grid |
| Triangulation.SeedsInImage | src/Image-bspline/triangulation.ts:13-35 | the grid over the half-size image lies in that image |
| Triangulation.TriangleTest | src/Image-bspline/triangulation.ts:10-39 | the initial grid refined for depth 3 |
| Raster.ClampByte | src/Image-bspline/main.js:91-94 | a `Uint8ClampedArray` store clamps to `[0, 255]` and is within 0.5 of an in-range value |
| Raster.ClampByteExact | src/Image-bspline/main.js:91-94 | integers in range are stored unchanged |
| Raster.WritePixelEffect | src/Image-bspline/main.js:88-95 | `setPixel` writes r, g, b, a at `4*index .. 4*index+3` and nothing else |
| Raster.StoreClamped | src/Image-bspline/main.js:91 | one clamped byte store |
| Raster.SetPixel | src/Image-bspline/main.js:88-95 | the four stores of `setPixel` |
| Raster.SetPixelXY | src/Image-bspline/main.js:99-101 | `setPixelXY` writes the pixel at `y*width + x` |
| Raster.PixelIndexInjective | src/Image-bspline/main.js:99-101 | distinct in-range `(x, y)` give distinct pixels |
| Raster.LineEnds | src/Image-bspline/main.js:105-131 | the rounded edge passes through both endpoints |
| Raster.LineReversed | src/Image-bspline/main.js:105-131 | an edge drawn either way plots the same column in every row |
| Raster.LineWithin | src/Image-bspline/main.js:109-129 | every plotted column lies between the two endpoint columns |
| Raster.LineStep | src/Image-bspline/main.js:108-130 | each branch's `Math.round(x1 ± xdelta*y/ydelta)` is the edge column of row `y1 ± y` |
| Raster.SpanWithin | src/Image-bspline/main.js:160-167 | every non-empty span of an on-canvas triangle lies on the canvas |
| Raster.SpanCoversEdges | src/Image-bspline/main.js:165-167 | each row's span contains the columns of the edges through it |
| Raster.TriangleSpansOk | src/Image-bspline/main.js:160-167 | every span of an on-canvas triangle is in range |
| Raster.RowErrorGrows | src/Image-bspline/main.js:201-209 | the error only accumulates along a row |
| Raster.SpansErrorGrows | src/Image-bspline/main.js:188-211 | and over the rows |
| Raster.TriangleErrorNonNegative | src/Image-bspline/main.js:187-213 | a triangle's error is non-negative |
| Raster.PaintRowEffect | src/Image-bspline/main.js:197-199 | painting a row changes exactly the span's pixels to the clamped colour |
| Raster.PaintSpansEffect | src/Image-bspline/main.js:188-199 | painting the spans changes exactly the pixels on them |
| Raster.PaintTriangleEffect | src/Image-bspline/main.js:196-199 | with `dodraw`, exactly the pixels of the triangle's spans take the average colour, alpha 255 |
| Raster.Spans.constructor | src/Image-bspline/main.js:19-23 | both span buffers start as 768 zeros |
| Raster.Spans.Plot | src/Image-bspline/main.js:111-117 | a plot only lowers `minbuffer` and raises `maxbuffer`, and only in its row |
| Raster.Spans.Line | src/Image-bspline/main.js:105-131 | `line` touches only rows between `y1` and `y2`, folding in the edge column |
| Raster.Spans.ResetRows | src/Image-bspline/main.js:160-163 | rows `[ymin, ymax]` become min 9999 / max 0, and other rows are unchanged |
| Raster.Spans.Rasterise | src/Image-bspline/main.js:142-167 | after the reset and three edges, the buffers hold the triangle's spans, with rows outside untouched |
| Raster.Spans.SumSpans | src/Image-bspline/main.js:168-182 | the counting loops total the span pixels |
| Raster.SumBuffered | src/Image-bspline/main.js:168-182 | over span buffers that hold the spans, the counting loops return the span totals |
| Raster.ErrorBuffered | src/Image-bspline/main.js:187-211 | over such buffers the error loops return the span error |
| Raster.PaintBuffered | src/Image-bspline/main.js:188-199 | over such buffers the drawing loops paint exactly the span pixels |
| Raster.Spans.ErrorSpans | src/Image-bspline/main.js:187-211 | the error loops sum the squared differences from the average |
| Raster.Spans.PaintSpansInto | src/Image-bspline/main.js:188-199 | the drawing loops paint every span pixel |
| Raster.Spans.Triangle | src/Image-bspline/main.js:135-214 | with `dodraw` it paints the average and returns 0; otherwise it returns the error and leaves `dst` alone |
| Raster.SumRow | src/Image-bspline/main.js:175-181 | the inner counting loop over one span |
| Raster.ErrorRow | src/Image-bspline/main.js:201-209 | the inner error loop over one span |
| Raster.PaintRowInto | src/Image-bspline/main.js:197-199 | the inner drawing loop over one span |
| MeshOptimise.InitPoints | src/Image-bspline/main.js:31-62 | 2000 truncated random points, followed by the border points in listed order |
| MeshOptimise.RandomPtInCanvas | src/Image-bspline/main.js:38-45 | a truncated draw lies on the canvas |
| MeshOptimise.InitInCanvas | src/Image-bspline/main.js:31-62 | every initial point lies on the canvas |
| MeshOptimise.BuildPoints | src/Image-bspline/main.js:31-62 | the loops build exactly that list |
| MeshOptimise.DelaunayInit | src/Image-bspline/delaunay.ts:4-37 | the same random points, then the 8 border points computed from the canvas size |
| MeshOptimise.FacesOf | src/Image-bspline/main.js:66-76 | one face per index triple |
| MeshOptimise.BuildFaces | src/Image-bspline/main.js:66-76 | the loop builds those faces in order |
| MeshOptimise.NearestUnique | src/Image-bspline/main.js:218-234 | "first index of minimal squared distance" names one index |
| MeshOptimise.FindNearest | src/Image-bspline/main.js:218-234 | returns −1 when no point is nearer than `Number.MAX_VALUE`, else the first index of minimal squared distance; the copy in `delaunay.ts` behaves identically |
| MeshOptimise.NearestExists | src/Image-bspline/main.js:365 | a query from `refresh` always finds a point |
| MeshOptimise.WithPointMembers | src/Image-bspline/main.js:238-259 | exactly the triangles with a vertex equal to the point, in order |
| MeshOptimise.TrianglesWithPoint | src/Image-bspline/main.js:238-259 | the loop returns that list |
| MeshOptimise.CrossSymmetry | src/Image-bspline/main.js:263-273 | rotating the vertices keeps the cross product, and swapping two negates it |
| MeshOptimise.CounterClockwiseOneWay | src/Image-bspline/main.js:263-273 | one of the two orientations passes the test, and both pass exactly when the cross product is 0 |
| MeshOptimise.MovedOk | src/Image-bspline/main.js:335-336 | moving a vertex to an on-canvas place keeps every face on the canvas |
| MeshOptimise.TriOfInCanvas | src/Image-bspline/main.js:282-292 | each face passed to `triangle` lies on the canvas |
| MeshOptimise.Costs | src/Image-bspline/main.js:280-298 | one cost per triangle |
| MeshOptimise.RunLength | src/Image-bspline/main.js:294-297 | the run stops within the list |
| MeshOptimise.RunWithoutBound | src/Image-bspline/main.js:277-301 | with `prev = Infinity` the run visits every triangle and returns the total |
| MeshOptimise.SumNonNegative | src/Image-bspline/main.js:286-292 | the sum of non-negative costs is non-negative |
| MeshOptimise.EarlyExitAgrees | src/Image-bspline/main.js:294-297 | stopping once `err > prev` decides `> prev` as the full sum would, and gives the full sum when it stays `<= prev` |
| MeshOptimise.ScoreCostsNonNegative | src/Image-bspline/main.js:286-292 | without drawing, each triangle's penalty plus error is non-negative |
| MeshOptimise.CostsAreCosts | src/Image-bspline/main.js:286-292 | each cost is the 999999 penalty when counter-clockwise plus `triangle`'s result |
| MeshOptimise.FaceDrawerDraws | src/Image-bspline/main.js:292 | drawing triangle `k` paints that face |
| MeshOptimise.StepsKeepBorder | src/Image-bspline/main.js:326-332 | a nudge keeps the vertex on the canvas, border vertices keep their border coordinate, and others clamp to `[1,1022]×[1,766]` |
| MeshOptimise.DelaunayGuardMovesBorder | src/Image-bspline/delaunay.ts:84-86 | the `dy < 1198` guard moves the bottom border vertex from row 767 to 766 |
| MeshOptimise.SearchKeepsBest | src/Image-bspline/main.js:324-351 | the reported error is that of the picked position and never above the starting error |
| MeshOptimise.SearchKeepsBorder | src/Image-bspline/main.js:324-351 | every candidate and pick stays reachable from the vertex's home |
| MeshOptimise.MoveRuleIsRule | src/Image-bspline/main.js:335-339 | the move rule gives the mesh error with the vertex moved |
| MeshOptimise.Optimiser.constructor | src/Image-bspline/main.js:19-84 | the vertices, faces, picture copies and zeroed span buffers of `init` |
| MeshOptimise.Optimiser.GetErrorRun | src/Image-bspline/main.js:277-301 | the early-exit sum of the costs, drawing the triangles handled when `dodraw` |
| MeshOptimise.Optimiser.RunTriangles | src/Image-bspline/main.js:280-298 | the `geterrorrun` loop, given what each triangle costs and draws |
| MeshOptimise.Optimiser.RunStep | src/Image-bspline/main.js:286-292 | one turn adds the penalty and `triangle`'s result |
| MeshOptimise.Optimiser.Optimise | src/Image-bspline/main.js:303-359 | the nearest vertex moves to the search's pick, stays reachable, its error does not grow, and its triangles are drawn there |
| MeshOptimise.Optimiser.StartingError | src/Image-bspline/main.js:312-313 | the first `geterrorrun`, unbounded and not drawing, returns the error of the faces with the vertex in place and leaves the picture alone |
| MeshOptimise.Optimiser.DrawFaces | src/Image-bspline/main.js:357-358 | the last `geterrorrun`, unbounded and drawing, paints every face |
| MeshOptimise.Optimiser.SearchRounds | src/Image-bspline/main.js:324-351 | the ten rounds produce the search's pick, never worse than the start |
| MeshOptimise.Optimiser.TryMove | src/Image-bspline/main.js:325-350 | one round: clamp, set the vertex, accept only a strictly lower error, otherwise go back |
| Mouse.ScreenToNdc | src/3D-bspline/mouse.ts:6-11 | maps `x` to `2x/w - 1` and `y` to `1 - 2y/h` |
| Mouse.NdcCorners | src/3D-bspline/mouse.ts:6-11 | `(0,0)` goes to `(−1,1)`, `(w,h)` to `(1,−1)` and the centre to `(0,0)` |
| Mouse.IntersectRayAabb | src/3D-bspline/mouse.ts:33-55 | the loop with early `false` answers whether the three-slab sweep stays non-empty |
| Mouse.SlabParams | src/3D-bspline/mouse.ts:38-44 | the two plane parameters of axis `i`, swapped when the inverse direction is negative |
| Mouse.SweepStopped | src/3D-bspline/mouse.ts:49-51 | once `tmax < tmin`, later axes cannot revive the interval |
| Mouse.SweepNext | src/3D-bspline/mouse.ts:46-51 | each axis raises `tmin` to at least `t0` and lowers `tmax` to at most `t1` |
| Mouse.SlabInterval | src/3D-bspline/mouse.ts:38-44 | after the swap `t0 <= t1`, and `[t0, t1]` is exactly the set of `t` where the ray is inside the slab |
| Mouse.SlabIsFinite | src/3D-bspline/mouse.ts:38-44 | for a nonzero direction both slab ends are finite: `(a/d, b/d)`, swapped when `d < 0` |
| Mouse.SweepIsIntersection | src/3D-bspline/mouse.ts:37-52 | the sweep is non-empty exactly when some `t` lies in all slabs seen, and `[tmin, tmax]` is that set |
| Mouse.RayAabbMeetsBox | src/3D-bspline/mouse.ts:33-55 | for a finite direction the test is true exactly when the line meets the box |
| Mouse.ParallelAboveMisses | src/3D-bspline/mouse.ts:38-51 | a ray parallel to a slab and outside it is rejected through the `±Infinity` interval |
| Mouse.IntersectRayWithPlane | src/3D-bspline/mouse.ts:57-68 | undefined when `|dir.y| < 1e-6` or `t < 0`, else `origin + t*dir` |
| Mouse.PlaneHitOnPlane | src/3D-bspline/mouse.ts:62-67 | a returned point lies on the plane and on the forward ray |
| Svg.NextChar | svg.py:12 | the first occurrence of a character from a position |
| Svg.TagSpansLeftmost | svg.py:7 | each match is the leftmost `<path` from the scan position, and there is none exactly when no `<path` remains |
| Svg.TagSpansInOrder | svg.py:7 | the matches are `<path[^>]*>` tags, in document order and non-overlapping |
| Svg.Texts | svg.py:7 | one string per match, the matched text |
| Svg.PathElements | svg.py:7 | every collected element is a path tag |
| Svg.DPos | svg.py:12 | the leftmost position where `d="` is followed by a non-empty quoted value |
| Svg.DAttributeShape | svg.py:12-14 | the extracted value is non-empty, quote-free and appears as `d="value"` in the tag |
| Svg.PathDataFromTags | svg.py:11-14 | tags without `d` are skipped; every value comes from a tag, in order |
| Svg.PathDataLength | svg.py:11-14 | at most one value per tag |
| Svg.PathDataMembers | svg.py:11-14 | a string is collected exactly when some tag has it as its `d` value |
| Svg.ExtractPathData | svg.py:9-14 | the loop collects exactly those values |
| Svg.Split | svg.py:20 | `str.split` returns at least one piece |
| Svg.SplitJoin | svg.py:20 | joining the pieces gives back the string, and no piece contains the separator |
| Svg.SplitJoinBack | svg.py:20 | joining the pieces with the separator gives back the string |
| Svg.SplitPiecesClean | svg.py:20 | no piece contains the separator |
| Svg.SegmentPoint | svg.py:23-24 | a segment gives `(float(f0), float(f1))` of its tail split at `,`; a first field that is not a number is a `ValueError` even with no second field, then a missing second field is an `IndexError`, then a bad second field a `ValueError` |
| Svg.Segments | svg.py:20-22 | the segments are the pieces split at spaces without the last |
| Svg.PathPointsSpec | svg.py:21-26 | a path yields one pair per segment, or fails when some segment fails |
| Svg.PathPointsRead | svg.py:21-26 | a path whose every segment reads, reads |
| Svg.PathPointsValues | svg.py:21-26 | a path that reads has one pair per segment, each read from its own segment |
| Svg.AllPointsSpec | svg.py:17-26 | the run succeeds exactly when every path reads, and then holds one list per path, in order, each the pairs read from that path |
| Svg.AllPointsLengths | svg.py:21-26 | each list's length is the number of space-separated pieces minus one |
| Svg.ReadPath | svg.py:20-26 | the segment loop of one path |
| Svg.PathPointsStopped | svg.py:24 | a failure ends the run |
| Svg.AllPointsStopped | svg.py:24 | a failure in one path ends the whole run |
| Svg.ReadCoordinates | svg.py:17-26 | the path loop |
| Svg.ReadSvg | svg.py:7-26 | the whole script on the file's text: path data, then coordinates |

## Left out

- WebGPU and WebGL plumbing are not modelled. This covers devices,
  pipelines, bind groups, buffer creation, mapping and readback, command
  encoders, render loops and `requestAnimationFrame`. A compute stage is
  modelled as its shader body run once per invocation index.
- Asset and file loading are not modelled: `loadGLB`/GLTF traversal, `fetch`,
  `createImageBitmap`, `getImageData` and the `open()` and `print` of
  `svg.py`. The image is a plain RGBA byte sequence and the SVG text a
  string.
- GUI callbacks and DOM events are not modelled. The mouse position reaches
  the drag handlers as plain coordinates.
- The Delaunator library and the minified Bowyer–Watson triangulator are not
  modelled. Their index lists are inputs:
  - a `triangulate` function for `clacDelunay`;
  - the `tri` index list for the optimiser.
- The `cos`/`sin` circle generation in the `CirclePoints` constructors is not
  modelled. The constructors take the generated circle as a parameter.
- `lookAt`, `rotateX`, `rotateY`, `createMVPMatrix` and `getMouseRay` are not
  modelled. Their outputs reach the modelled helpers as inputs.
- GlbLoader.GenerateNormals: `Math.sqrt` is a parameter. Unit length is
  proved only for a `sqrt` that is a true square root. The member also
  requires a positions length that is a multiple of 9; the source would read
  `undefined` past the end.
- Floating-point rounding is not modelled:
  - f32 storage in `Float32Array`s;
  - f32 shader arithmetic;
  - f64 JavaScript arithmetic.

  All of these are exact reals. The model also does not distinguish `-0` from
  `+0` (so `1/-0` is `+Infinity` in `Mouse.Recip`), and `Number.MAX_VALUE` is
  an exact constant.
- `Math.random()` is not modelled. The draws of `init` and the nudges of
  `optimise` are parameters. `refresh`'s 30 queries are single calls of
  `Optimise`.
- Python's `float()` is a parameter `num: String -> Option<real>` in `Svg`.
  Where Python would raise `ValueError` or `IndexError`, the model returns
  the matching `Err` result, checking the fields in the order Python does.
- The regular expressions are modelled as explicit scanning functions over
  their two fixed patterns. No general regex engine is modelled.
- Matrix4.Multiply: requires `out != b`. No call in the viewer aliases the
  second operand.
- Raster.TriangleAverage: when a triangle covers no pixel, the source divides
  `0 / 0`. Every span is then empty, so the NaN is never read; the model uses
  0.
- CtrlGrid.ClickedPoint.ChangeControlPoint: the index recorded is the loop
  position. The source takes `indexOf(point)`, which is the same for a list
  of distinct objects.
- Pipeline.BlendAndSum: uses the clamped `Sum.SumStage`. The source's
  sum shader does not clamp the window; it is modelled as
  `Sum.SumStageAsWritten`. For every point but the last it is proved equal
  to the spline point (`Sum.AsWrittenIsSplineBeforeLast`). The last point
  reads past both buffers (`Sum.LastPointReadsPastBuffers`), and its value
  there is not modelled.
- Pipeline.ReadBackSplinePoints: states the readback of the clamped sum
  stage, not of the unclamped shader (see `Pipeline.BlendAndSum`).
- Pipeline.ComputeCurrentCirclePos: composes the clamped sum stage, not the
  unclamped shader (see `Pipeline.BlendAndSum`).
- CircleDraw.CirclePoints.UpdatePointsValue: stores the clamped sum stage's
  points, not the unclamped shader's (see `Pipeline.BlendAndSum`).
- CircleDraw.MovedPoints: the stored points are those of the clamped sum
  stage, not the unclamped shader's (see `Pipeline.BlendAndSum`).
- Blend.CalcBlend: partition of unity does not hold for the weights the
  blend stage produces. Only `len` of the `len + 1` basis functions are
  evaluated, so a point's weights add up to `1 - N(len, degree, t)`
  (`Blend.ControlSumShortfall`). For the configured 9 points and degree 3
  that is 0.75 at `t = 7.5` (`Blend.ControlSumShortNearEnd`). Partition of
  unity is proved over all `len + 1` functions (`Blend.PartitionOfUnity`)
  and for the `len` weights on `[0, len - degree + 1)` (`Blend.ControlSumIsOne`).
- Constant-only and type-only files are not modelled. Their values appear as
  the constants of `Config`.

## Findings

| source | as written | input that shows it | evidently intended | confidence | as-written member | corrected member |
|---|---|---|---|---|---|---|
| src/3D-bspline/webgpu/computeSum.ts:32-41 | the 4×4 window starts at `u32(floor(uv))` with no clamp, and every index is read flat | 9 control points and 100 points: the last point (index 99) with `6 <= u < 7` has window rows 6..9 and reads row 9's weight at `blendResult[900]` of 900 and control points `81 + kj` of 81 | clamp the window start to `len - 4`, which gives the spline point for every UV | medium, not executed | Sum.LastPointReadsPastBuffers | Sum.ClampedWindowIsSpline |
| src/3D-bspline/main.ts:469 | `multiply(mvp, mvp, model)` writes `out` while reading it as `a` | `P*V` with first row `(1,0,0,0)` and `model[0] != 0`: entry 0 becomes `0` instead of `model[0]` | MVP = `(P*V)*M`, computed from copies of the operands | high, not executed | Matrix4.AliasedMultiplyDiffers | Matrix4.ComposeMvp |
| src/Image-bspline/delaunay.ts:84 | the vertical nudge is guarded by `dy < 1198` | the bottom border vertex at `dy = 767` is clamped to 766 | the guard `dy < 767` of main.js:330, which leaves border vertices on the border | high, not executed | MeshOptimise.DelaunayGuardMovesBorder | MeshOptimise.StepsKeepBorder |
