/** The third compute stage: each sample point's new position is the tensor
    product sum `sum_i sum_j B_i(u) * B_j(v) * P[i * len + j]` over the
    control-point lattice `P`, evaluated by the shader over a 4 x 4 window of
    the lattice starting at `(floor u, floor v)`. */
module Sum {
  import opened Common
  import opened KnotVector
  import opened Blend

  function Scale(w: real, p: Vec2): Vec2 { Vec2(w * p.x, w * p.y) }

  const Origin: Vec2 := Vec2(0.0, 0.0)

  /** The lattice, the `u` basis row and the `v` basis row fit a lattice of `len * len` points. */
  predicate Shaped(ctrl: seq<Vec2>, len: nat, bu: seq<real>, bv: seq<real>) {
    |ctrl| == len * len && |bu| == len && |bv| == len
  }

  /** Contribution of control point `(ki, kj)`. */
  function Term(ctrl: seq<Vec2>, len: nat, bu: seq<real>, bv: seq<real>, ki: nat, kj: nat): Vec2
    requires Shaped(ctrl, len, bu, bv) && ki < len && kj < len
  {
    FlatIndexBound(ki, kj, len, len);
    Scale(bu[ki] * bv[kj], ctrl[ki * len + kj])
  }

  /** Row `ki` of the sum, over the columns `lo .. hi - 1`. */
  function RowSum(ctrl: seq<Vec2>, len: nat, bu: seq<real>, bv: seq<real>, ki: nat, lo: nat, hi: nat): Vec2
    requires Shaped(ctrl, len, bu, bv) && ki < len && lo <= hi <= len
    decreases hi - lo
  {
    if lo == hi then Origin else RowSum(ctrl, len, bu, bv, ki, lo, hi - 1).Plus(Term(ctrl, len, bu, bv, ki, hi - 1))
  }

  /** The sum over the rows `ilo .. ihi - 1` and columns `jlo .. jhi - 1`. */
  function GridSum(ctrl: seq<Vec2>, len: nat, bu: seq<real>, bv: seq<real>, ilo: nat, ihi: nat, jlo: nat, jhi: nat): Vec2
    requires Shaped(ctrl, len, bu, bv) && ilo <= ihi <= len && jlo <= jhi <= len
    decreases ihi - ilo
  {
    if ilo == ihi then Origin
    else GridSum(ctrl, len, bu, bv, ilo, ihi - 1, jlo, jhi).Plus(RowSum(ctrl, len, bu, bv, ihi - 1, jlo, jhi))
  }

  /** The full tensor-product sum over the whole lattice. */
  function TensorSum(ctrl: seq<Vec2>, len: nat, bu: seq<real>, bv: seq<real>): Vec2
    requires Shaped(ctrl, len, bu, bv)
  {
    GridSum(ctrl, len, bu, bv, 0, len, 0, len)
  }

  // ---------------------------------------------------------------------
  // Dropping rows and columns whose basis value is zero

  lemma {:induction false} RowDropLow(ctrl: seq<Vec2>, len: nat, bu: seq<real>, bv: seq<real>, ki: nat, lo: nat, a: nat, hi: nat)
    requires Shaped(ctrl, len, bu, bv) && ki < len && lo <= a <= hi <= len
    requires forall j :: lo <= j < a ==> bv[j] == 0.0
    ensures RowSum(ctrl, len, bu, bv, ki, lo, hi) == RowSum(ctrl, len, bu, bv, ki, a, hi)
    decreases hi
  {
    if hi == a {
      RowAllZero(ctrl, len, bu, bv, ki, lo, a);
    } else {
      RowDropLow(ctrl, len, bu, bv, ki, lo, a, hi - 1);
    }
  }

  lemma {:induction false} RowAllZero(ctrl: seq<Vec2>, len: nat, bu: seq<real>, bv: seq<real>, ki: nat, lo: nat, hi: nat)
    requires Shaped(ctrl, len, bu, bv) && ki < len && lo <= hi <= len
    requires forall j :: lo <= j < hi ==> bv[j] == 0.0
    ensures RowSum(ctrl, len, bu, bv, ki, lo, hi) == Origin
    decreases hi - lo
  {
    if lo < hi {
      RowAllZero(ctrl, len, bu, bv, ki, lo, hi - 1);
    }
  }

  lemma {:induction false} RowDropHigh(ctrl: seq<Vec2>, len: nat, bu: seq<real>, bv: seq<real>, ki: nat, lo: nat, b: nat, hi: nat)
    requires Shaped(ctrl, len, bu, bv) && ki < len && lo <= b <= hi <= len
    requires forall j :: b <= j < hi ==> bv[j] == 0.0
    ensures RowSum(ctrl, len, bu, bv, ki, lo, hi) == RowSum(ctrl, len, bu, bv, ki, lo, b)
    decreases hi
  {
    if b < hi {
      RowDropHigh(ctrl, len, bu, bv, ki, lo, b, hi - 1);
    }
  }

  /** A row whose `u` basis value is zero contributes nothing. */
  lemma {:induction false} RowOfZeroWeight(ctrl: seq<Vec2>, len: nat, bu: seq<real>, bv: seq<real>, ki: nat, lo: nat, hi: nat)
    requires Shaped(ctrl, len, bu, bv) && ki < len && lo <= hi <= len
    requires bu[ki] == 0.0
    ensures RowSum(ctrl, len, bu, bv, ki, lo, hi) == Origin
    decreases hi - lo
  {
    if lo < hi {
      RowOfZeroWeight(ctrl, len, bu, bv, ki, lo, hi - 1);
    }
  }

  lemma {:induction false} GridDropLow(ctrl: seq<Vec2>, len: nat, bu: seq<real>, bv: seq<real>, lo: nat, a: nat, hi: nat, jlo: nat, jhi: nat)
    requires Shaped(ctrl, len, bu, bv) && lo <= a <= hi <= len && jlo <= jhi <= len
    requires forall i :: lo <= i < a ==> bu[i] == 0.0
    ensures GridSum(ctrl, len, bu, bv, lo, hi, jlo, jhi) == GridSum(ctrl, len, bu, bv, a, hi, jlo, jhi)
    decreases hi
  {
    if hi == a {
      GridAllZero(ctrl, len, bu, bv, lo, a, jlo, jhi);
    } else {
      GridDropLow(ctrl, len, bu, bv, lo, a, hi - 1, jlo, jhi);
    }
  }

  lemma {:induction false} GridAllZero(ctrl: seq<Vec2>, len: nat, bu: seq<real>, bv: seq<real>, lo: nat, hi: nat, jlo: nat, jhi: nat)
    requires Shaped(ctrl, len, bu, bv) && lo <= hi <= len && jlo <= jhi <= len
    requires forall i :: lo <= i < hi ==> bu[i] == 0.0
    ensures GridSum(ctrl, len, bu, bv, lo, hi, jlo, jhi) == Origin
    decreases hi - lo
  {
    if lo < hi {
      GridAllZero(ctrl, len, bu, bv, lo, hi - 1, jlo, jhi);
      RowOfZeroWeight(ctrl, len, bu, bv, hi - 1, jlo, jhi);
    }
  }

  lemma {:induction false} GridDropHigh(ctrl: seq<Vec2>, len: nat, bu: seq<real>, bv: seq<real>, lo: nat, b: nat, hi: nat, jlo: nat, jhi: nat)
    requires Shaped(ctrl, len, bu, bv) && lo <= b <= hi <= len && jlo <= jhi <= len
    requires forall i :: b <= i < hi ==> bu[i] == 0.0
    ensures GridSum(ctrl, len, bu, bv, lo, hi, jlo, jhi) == GridSum(ctrl, len, bu, bv, lo, b, jlo, jhi)
    decreases hi
  {
    if b < hi {
      GridDropHigh(ctrl, len, bu, bv, lo, b, hi - 1, jlo, jhi);
      RowOfZeroWeight(ctrl, len, bu, bv, hi - 1, jlo, jhi);
    }
  }

  /** Narrowing the columns of every row to `[c, d)` when `bv` vanishes outside it. */
  lemma {:induction false} GridNarrowColumns(ctrl: seq<Vec2>, len: nat, bu: seq<real>, bv: seq<real>, ilo: nat, ihi: nat, c: nat, d: nat)
    requires Shaped(ctrl, len, bu, bv) && ilo <= ihi <= len && c <= d <= len
    requires forall j :: 0 <= j < len && !(c <= j < d) ==> bv[j] == 0.0
    ensures GridSum(ctrl, len, bu, bv, ilo, ihi, 0, len) == GridSum(ctrl, len, bu, bv, ilo, ihi, c, d)
    decreases ihi - ilo
  {
    if ilo < ihi {
      GridNarrowColumns(ctrl, len, bu, bv, ilo, ihi - 1, c, d);
      RowDropLow(ctrl, len, bu, bv, ihi - 1, 0, c, len);
      RowDropHigh(ctrl, len, bu, bv, ihi - 1, c, d, len);
      GridSnoc(ctrl, len, bu, bv, ilo, ihi, 0, len);
      GridSnoc(ctrl, len, bu, bv, ilo, ihi, c, d);
    }
  }

  /** The last row of a grid sum, split off. */
  lemma GridSnoc(ctrl: seq<Vec2>, len: nat, bu: seq<real>, bv: seq<real>, ilo: nat, ihi: nat, jlo: nat, jhi: nat)
    requires Shaped(ctrl, len, bu, bv) && ilo < ihi <= len && jlo <= jhi <= len
    ensures GridSum(ctrl, len, bu, bv, ilo, ihi, jlo, jhi)
      == GridSum(ctrl, len, bu, bv, ilo, ihi - 1, jlo, jhi).Plus(RowSum(ctrl, len, bu, bv, ihi - 1, jlo, jhi))
  {
  }

  /** The window sum is the full tensor sum whenever both basis rows vanish
      outside the window. */
  lemma WindowIsTensorSum(ctrl: seq<Vec2>, len: nat, bu: seq<real>, bv: seq<real>, a: nat, b: nat, c: nat, d: nat)
    requires Shaped(ctrl, len, bu, bv) && a <= b <= len && c <= d <= len
    requires forall i :: 0 <= i < len && !(a <= i < b) ==> bu[i] == 0.0
    requires forall j :: 0 <= j < len && !(c <= j < d) ==> bv[j] == 0.0
    ensures GridSum(ctrl, len, bu, bv, a, b, c, d) == TensorSum(ctrl, len, bu, bv)
  {
    GridNarrowColumns(ctrl, len, bu, bv, 0, len, c, d);
    GridDropLow(ctrl, len, bu, bv, 0, a, len, c, d);
    GridDropHigh(ctrl, len, bu, bv, a, b, len, c, d);
  }

  // ---------------------------------------------------------------------
  // The 4 x 4 window

  /** `u32(floor(t))`: WGSL's float-to-`u32` conversion saturates, so a
      negative parameter starts the window at 0. */
  function WindowStart(t: real): nat {
    if Floor(t) < 0 then 0 else Floor(t)
  }

  /** The window start kept inside the lattice: at most `len - 4`. */
  function ClampedStart(t: real, len: nat): nat
    requires 4 <= len
  {
    if WindowStart(t) <= len - 4 then WindowStart(t) else len - 4
  }

  /** The knots of the spline are whole numbers between 0 and the last knot. */
  lemma KnotRealsBounds(len: nat, degree: nat, m: nat)
    requires 1 <= degree <= len + 2 && m < len + degree + 1
    ensures 0.0 <= KnotReals(len, degree)[m] <= (len - degree + 2) as real
    ensures degree <= m <= len ==> KnotReals(len, degree)[m] == (m - degree + 1) as real
  {
    assert KnotReals(len, degree)[m] == KnotAt(len, degree, m) as real;
  }

  /** Local support in window terms: for `1 <= degree <= 4`, every basis
      function outside the 4-wide window starting at `u32(floor t)` vanishes at `t`. */
  lemma OutsideUnclampedWindowVanishes(len: nat, degree: nat, t: real, j: nat)
    requires 1 <= degree <= 4 && degree <= len + 2 && j < len
    requires j < WindowStart(t) || WindowStart(t) + 4 <= j
    ensures Basis(KnotReals(len, degree), j, degree, t) == 0.0
  {
    var kv := KnotReals(len, degree);
    var K := (len - degree + 2) as real;
    KnotRealsSorted(len, degree);
    KnotRealsBounds(len, degree, j);
    KnotRealsBounds(len, degree, j + degree);
    if t < 0.0 {
      LocalSupport(kv, j, degree, t);
    } else if K <= t {
      LocalSupport(kv, j, degree, t);
    } else if j < WindowStart(t) {
      assert kv[j + degree] == (j + 1) as real;
      LocalSupport(kv, j, degree, t);
    } else {
      assert kv[j] == (j - degree + 1) as real;
      LocalSupport(kv, j, degree, t);
    }
  }

  /** The same for the clamped window, which only moves the start down to
      `len - 4` where the unclamped window would leave the lattice. */
  lemma OutsideWindowVanishes(len: nat, degree: nat, t: real, j: nat)
    requires 1 <= degree <= 4 && 4 <= len && j < len
    requires j < ClampedStart(t, len) || ClampedStart(t, len) + 4 <= j
    ensures Basis(KnotReals(len, degree), j, degree, t) == 0.0
  {
    OutsideUnclampedWindowVanishes(len, degree, t, j);
  }

  /** The `u` (or `v`) basis row vanishes outside the clamped window. */
  lemma RowOutsideWindow(len: nat, degree: nat, t: real)
    requires 1 <= degree <= 4 && 4 <= len
    ensures forall j :: 0 <= j < len && !(ClampedStart(t, len) <= j < ClampedStart(t, len) + 4) ==>
      BasisRow(KnotReals(len, degree), len, degree, t)[j] == 0.0
  {
    forall j | 0 <= j < len && !(ClampedStart(t, len) <= j < ClampedStart(t, len) + 4)
      ensures BasisRow(KnotReals(len, degree), len, degree, t)[j] == 0.0
    {
      OutsideWindowVanishes(len, degree, t, j);
    }
  }

  /** The spline's value at `(u, v)`: the tensor sum of the lattice with the
      basis rows of `u` and `v`. */
  function SplinePoint(ctrl: seq<Vec2>, len: nat, degree: nat, uv: Vec2): Vec2
    requires 1 <= degree && |ctrl| == len * len
  {
    var kv := KnotReals(len, degree);
    TensorSum(ctrl, len, BasisRow(kv, len, degree, uv.x), BasisRow(kv, len, degree, uv.y))
  }

  /** The inner loop of the shader: row `ki` of the window, columns `v .. v + 3`,
      added to `cp`. */
  method AddWindowRow(controlPoints: seq<Vec2>, len: nat, bu: seq<real>, bv: seq<real>, ki: nat, v: nat, cp0: Vec2)
    returns (cp: Vec2)
    requires Shaped(controlPoints, len, bu, bv) && ki < len && v + 4 <= len
    ensures cp == cp0.Plus(RowSum(controlPoints, len, bu, bv, ki, v, v + 4))
  {
    cp := cp0;
    var kj := v;
    while kj < v + 4
      invariant v <= kj <= v + 4
      invariant cp == cp0.Plus(RowSum(controlPoints, len, bu, bv, ki, v, kj))
    {
      FlatIndexBound(ki, kj, len, len);
      var ctrlPtIdx := ki * len + kj;
      var weight := bu[ki] * bv[kj];
      var pt := controlPoints[ctrlPtIdx];
      assert Term(controlPoints, len, bu, bv, ki, kj) == Scale(weight, pt);
      cp := Vec2(cp.x + weight * pt.x, cp.y + weight * pt.y);
      kj := kj + 1;
    }
  }

  /** The 4 x 4 loop of the shader over the window starting at `(u, v)`,
      adding one weighted control point at a time. */
  method WindowSum(controlPoints: seq<Vec2>, len: nat, bu: seq<real>, bv: seq<real>, u: nat, v: nat)
    returns (cp: Vec2)
    requires Shaped(controlPoints, len, bu, bv) && u + 4 <= len && v + 4 <= len
    ensures cp == GridSum(controlPoints, len, bu, bv, u, u + 4, v, v + 4)
  {
    cp := Vec2(0.0, 0.0);
    var ki := u;
    while ki < u + 4
      invariant u <= ki <= u + 4
      invariant cp == GridSum(controlPoints, len, bu, bv, u, ki, v, v + 4)
    {
      cp := AddWindowRow(controlPoints, len, bu, bv, ki, v, cp);
      ki := ki + 1;
    }
  }

  /** The blend values of one sample point as read by the sum shader: `.x`
      (the `u` basis) and `.y` (the `v` basis) of slots `p * len .. p * len + len - 1`. */
  function URow(blend: seq<Vec2>, len: nat, p: nat): (r: seq<real>)
    requires (p + 1) * len <= |blend|
    ensures |r| == len
  {
    seq(len, k requires 0 <= k < len => blend[p * len + k].x)
  }

  function VRow(blend: seq<Vec2>, len: nat, p: nat): (r: seq<real>)
    requires (p + 1) * len <= |blend|
    ensures |r| == len
  {
    seq(len, k requires 0 <= k < len => blend[p * len + k].y)
  }

  lemma RowFits(p: nat, n: nat, len: nat)
    requires p < n
    ensures (p + 1) * len <= n * len
  {
    MulAtLeast(p + 1, n, len);
  }

  /** Read back from the blend stage, the rows of point `p` are the basis rows of its `u` and `v`. */
  lemma RowsOfBlendTable(len: nat, degree: nat, uvs: seq<Vec2>, p: nat)
    requires 1 <= degree && p < |uvs|
    ensures (p + 1) * len <= |uvs| * len
    ensures URow(BlendTable(KnotReals(len, degree), degree, len, uvs), len, p)
      == BasisRow(KnotReals(len, degree), len, degree, uvs[p].x)
    ensures VRow(BlendTable(KnotReals(len, degree), degree, len, uvs), len, p)
      == BasisRow(KnotReals(len, degree), len, degree, uvs[p].y)
  {
    RowFits(p, |uvs|, len);
    var kv := KnotReals(len, degree);
    forall k | 0 <= k < len
      ensures BlendTable(kv, degree, len, uvs)[p * len + k] == Vec2(BasisRow(kv, len, degree, uvs[p].x)[k], BasisRow(kv, len, degree, uvs[p].y)[k])
    {
      BlendTableAt(kv, degree, len, uvs, p, k);
    }
  }

  /** The window sum of sample point `p` with the window starting at `(u, v)`. */
  function PointWindow(controlPoints: seq<Vec2>, len: nat, blend: seq<Vec2>, n: nat, p: nat, u: nat, v: nat): Vec2
    requires |controlPoints| == len * len && |blend| == n * len && p < n && u + 4 <= len && v + 4 <= len
  {
    RowFits(p, n, len);
    GridSum(controlPoints, len, URow(blend, len, p), VRow(blend, len, p), u, u + 4, v, v + 4)
  }

  // ---------------------------------------------------------------------
  // The shader as written: flat indices and no clamp

  /** The shader's view of its bindings: the two read buffers, the lattice
      width, and what a read past the end of each buffer returns (WGSL
      leaves that value to the implementation, so it is a parameter). */
  datatype Bindings = Bindings(controlPoints: seq<Vec2>, blendResult: seq<Vec2>, len: nat,
                               blendPast: nat -> Vec2, ctrlPast: nat -> Vec2)

  /** A read `buf[i]`: the element inside the buffer, `past(i)` beyond it. */
  function ReadAt(buf: seq<Vec2>, i: nat, past: nat -> Vec2): Vec2 {
    if i < |buf| then buf[i] else past(i)
  }

  /** `blendResult[pointIdx * len + ki].x`: the `u` weight read for row `ki`. */
  function UWeight(b: Bindings, p: nat, ki: nat): real {
    ReadAt(b.blendResult, p * b.len + ki, b.blendPast).x
  }

  /** `blendResult[pointIdx * len + kj].y`: the `v` weight read for column `kj`. */
  function VWeight(b: Bindings, p: nat, kj: nat): real {
    ReadAt(b.blendResult, p * b.len + kj, b.blendPast).y
  }

  /** What the shader adds for `(ki, kj)`: both weights times control point `ki * len + kj`. */
  function FlatTerm(b: Bindings, p: nat, ki: nat, kj: nat): Vec2 {
    Scale(UWeight(b, p, ki) * VWeight(b, p, kj), ReadAt(b.controlPoints, ki * b.len + kj, b.ctrlPast))
  }

  function FlatRow(b: Bindings, p: nat, ki: nat, lo: nat, hi: nat): Vec2
    decreases hi - lo
  {
    if hi <= lo then Origin else FlatRow(b, p, ki, lo, hi - 1).Plus(FlatTerm(b, p, ki, hi - 1))
  }

  function FlatGrid(b: Bindings, p: nat, ilo: nat, ihi: nat, jlo: nat, jhi: nat): Vec2
    decreases ihi - ilo
  {
    if ihi <= ilo then Origin else FlatGrid(b, p, ilo, ihi - 1, jlo, jhi).Plus(FlatRow(b, p, ihi - 1, jlo, jhi))
  }

  /** What the shader as written stores for point `p` with parameters `uv`:
      the flat-index sum over the window starting at `(u32(floor u), u32(floor v))`. */
  function AsWrittenPoint(b: Bindings, uv: Vec2, p: nat): Vec2 {
    FlatGrid(b, p, WindowStart(uv.x), WindowStart(uv.x) + 4, WindowStart(uv.y), WindowStart(uv.y) + 4)
  }

  /** The inner loop as written: columns `v .. v + 3` of row `ki`, every
      index computed flat and read without a bounds check. */
  method AddFlatRow(b: Bindings, pointIdx: nat, ki: nat, v: nat, cp0: Vec2) returns (cp: Vec2)
    ensures cp == cp0.Plus(FlatRow(b, pointIdx, ki, v, v + 4))
  {
    cp := cp0;
    var kj := v;
    while kj < v + 4
      invariant v <= kj <= v + 4
      invariant cp == cp0.Plus(FlatRow(b, pointIdx, ki, v, kj))
    {
      var kiIdx := pointIdx * b.len + ki;
      var kjIdx := pointIdx * b.len + kj;
      var ctrlPtIdx := ki * b.len + kj;
      var wu, wv := ReadAt(b.blendResult, kiIdx, b.blendPast).x, ReadAt(b.blendResult, kjIdx, b.blendPast).y;
      var pt := ReadAt(b.controlPoints, ctrlPtIdx, b.ctrlPast);
      FlatRowExtends(b, pointIdx, ki, v, kj, cp0, cp, wu, wv, pt);
      cp := Vec2(cp.x + wu * wv * pt.x, cp.y + wu * wv * pt.y);
      kj := kj + 1;
    }
  }

  /** Adding the term for column `hi` the way the shader does, one coordinate
      at a time, extends the as-written row by one column. */
  lemma FlatRowExtends(b: Bindings, p: nat, ki: nat, lo: nat, hi: nat, cp0: Vec2, cp: Vec2, wu: real, wv: real, pt: Vec2)
    requires lo <= hi && cp == cp0.Plus(FlatRow(b, p, ki, lo, hi))
    requires wu == UWeight(b, p, ki) && wv == VWeight(b, p, hi) && pt == ReadAt(b.controlPoints, ki * b.len + hi, b.ctrlPast)
    ensures Vec2(cp.x + wu * wv * pt.x, cp.y + wu * wv * pt.y) == cp0.Plus(FlatRow(b, p, ki, lo, hi + 1))
  {
    var w := wu * wv;
    assert FlatTerm(b, p, ki, hi) == Vec2(w * pt.x, w * pt.y);
    assert FlatRow(b, p, ki, lo, hi + 1) == FlatRow(b, p, ki, lo, hi).Plus(Vec2(w * pt.x, w * pt.y));
  }

  /** One invocation of the shader as written, for point `pointIdx`. */
  method SumInvocationAsWritten(controlPoints: seq<Vec2>, circleUV: seq<Vec2>, blendResult: seq<Vec2>, len: nat,
                                blendPast: nat -> Vec2, ctrlPast: nat -> Vec2, pointIdx: nat)
    returns (cp: Vec2)
    requires |controlPoints| == len * len && |blendResult| == |circleUV| * len && pointIdx < |circleUV|
    ensures cp == AsWrittenPoint(Bindings(controlPoints, blendResult, len, blendPast, ctrlPast), circleUV[pointIdx], pointIdx)
  {
    var b := Bindings(controlPoints, blendResult, len, blendPast, ctrlPast);
    var u := WindowStart(circleUV[pointIdx].x);
    var v := WindowStart(circleUV[pointIdx].y);
    cp := Vec2(0.0, 0.0);
    var ki := u;
    while ki < u + 4
      invariant u <= ki <= u + 4
      invariant cp == FlatGrid(b, pointIdx, u, ki, v, v + 4)
    {
      cp := AddFlatRow(b, pointIdx, ki, v, cp);
      ki := ki + 1;
    }
  }

  /** The shader as written over every point: the window starts at
      `(u32(floor u), u32(floor v))` with no clamp, and every index is read
      flat, so a window past the lattice's last row or column reads the next
      row of control points, the next point's blend values, or past the end
      of a buffer. */
  method SumStageAsWritten(controlPoints: seq<Vec2>, circleUV: seq<Vec2>, blendResult: seq<Vec2>, len: nat,
                           blendPast: nat -> Vec2, ctrlPast: nat -> Vec2)
    returns (pointResult: array<Vec2>)
    requires |controlPoints| == len * len && |blendResult| == |circleUV| * len
    ensures pointResult.Length == |circleUV|
    ensures forall p :: 0 <= p < |circleUV| ==>
      pointResult[p] == AsWrittenPoint(Bindings(controlPoints, blendResult, len, blendPast, ctrlPast), circleUV[p], p)
  {
    var n := |circleUV|;
    pointResult := new Vec2[n](_ => Vec2(0.0, 0.0));
    var pointIdx := 0;
    while pointIdx < n
      invariant 0 <= pointIdx <= n
      invariant forall p :: 0 <= p < pointIdx ==>
        pointResult[p] == AsWrittenPoint(Bindings(controlPoints, blendResult, len, blendPast, ctrlPast), circleUV[p], p)
    {
      var cp := SumInvocationAsWritten(controlPoints, circleUV, blendResult, len, blendPast, ctrlPast, pointIdx);
      pointResult[pointIdx] := cp;
      pointIdx := pointIdx + 1;
    }
  }

  /** One invocation of the clamped shader, for point `pointIdx`. */
  method SumInvocation(controlPoints: seq<Vec2>, circleUV: seq<Vec2>, blendResult: seq<Vec2>,
                       len: nat, pointIdx: nat)
    returns (cp: Vec2)
    requires 4 <= len && |controlPoints| == len * len && |blendResult| == |circleUV| * len
    requires pointIdx < |circleUV|
    ensures cp == PointWindow(controlPoints, len, blendResult, |circleUV|, pointIdx,
      ClampedStart(circleUV[pointIdx].x, len), ClampedStart(circleUV[pointIdx].y, len))
  {
    RowFits(pointIdx, |circleUV|, len);
    var u := ClampedStart(circleUV[pointIdx].x, len);
    var v := ClampedStart(circleUV[pointIdx].y, len);
    cp := WindowSum(controlPoints, len, URow(blendResult, len, pointIdx), VRow(blendResult, len, pointIdx), u, v);
  }

  /** The shader with the window start clamped to `len - 4`: every point's
      reads stay inside the lattice. */
  method SumStage(controlPoints: seq<Vec2>, circleUV: seq<Vec2>, blendResult: seq<Vec2>, len: nat)
    returns (pointResult: array<Vec2>)
    requires 4 <= len && |controlPoints| == len * len && |blendResult| == |circleUV| * len
    ensures pointResult.Length == |circleUV|
    ensures forall p :: 0 <= p < |circleUV| ==>
      pointResult[p] == PointWindow(controlPoints, len, blendResult, |circleUV|, p,
        ClampedStart(circleUV[p].x, len), ClampedStart(circleUV[p].y, len))
  {
    var n := |circleUV|;
    pointResult := new Vec2[n](_ => Vec2(0.0, 0.0));
    var pointIdx := 0;
    while pointIdx < n
      invariant 0 <= pointIdx <= n
      invariant forall p :: 0 <= p < pointIdx ==>
        pointResult[p] == PointWindow(controlPoints, len, blendResult, n, p,
          ClampedStart(circleUV[p].x, len), ClampedStart(circleUV[p].y, len))
    {
      var cp := SumInvocation(controlPoints, circleUV, blendResult, len, pointIdx);
      pointResult[pointIdx] := cp;
      pointIdx := pointIdx + 1;
    }
  }

  /** Fed by the blend stage, the clamped window sum of every point is the
      spline's value at the point's parameters. */
  lemma ClampedWindowIsSpline(ctrl: seq<Vec2>, len: nat, degree: nat, uvs: seq<Vec2>, p: nat)
    requires 1 <= degree <= 4 && 4 <= len && |ctrl| == len * len && p < |uvs|
    ensures PointWindow(ctrl, len, BlendTable(KnotReals(len, degree), degree, len, uvs), |uvs|, p,
        ClampedStart(uvs[p].x, len), ClampedStart(uvs[p].y, len))
      == SplinePoint(ctrl, len, degree, uvs[p])
  {
    RowsOfBlendTable(len, degree, uvs, p);
    ClampedGridIsSpline(ctrl, len, degree, uvs[p]);
  }

  /** Over the basis rows themselves, the clamped 4 x 4 window holds every
      basis function that is not zero, so its sum is the spline's value. */
  lemma ClampedGridIsSpline(ctrl: seq<Vec2>, len: nat, degree: nat, uv: Vec2)
    requires 1 <= degree <= 4 && 4 <= len && |ctrl| == len * len
    ensures var kv, u, v := KnotReals(len, degree), ClampedStart(uv.x, len), ClampedStart(uv.y, len);
      GridSum(ctrl, len, BasisRow(kv, len, degree, uv.x), BasisRow(kv, len, degree, uv.y), u, u + 4, v, v + 4)
      == SplinePoint(ctrl, len, degree, uv)
  {
    var kv, u, v := KnotReals(len, degree), ClampedStart(uv.x, len), ClampedStart(uv.y, len);
    var bu, bv := BasisRow(kv, len, degree, uv.x), BasisRow(kv, len, degree, uv.y);
    forall j | 0 <= j < len && !(u <= j < u + 4)
      ensures bu[j] == 0.0
    {
      OutsideWindowVanishes(len, degree, uv.x, j);
    }
    forall j | 0 <= j < len && !(v <= j < v + 4)
      ensures bv[j] == 0.0
    {
      OutsideWindowVanishes(len, degree, uv.y, j);
    }
    WindowIsTensorSum(ctrl, len, bu, bv, u, u + 4, v, v + 4);
  }

  /** `min(i, len)`. */
  function Cap(i: nat, len: nat): nat { if i <= len then i else len }

  /** Bindings whose buffers have the sizes the shader declares, for point `p`. */
  predicate Sized(b: Bindings, n: nat, p: nat) {
    |b.controlPoints| == b.len * b.len && |b.blendResult| == n * b.len && p < n
  }

  /** Inside the lattice a flat term is the window term; past the last column,
      a zero `v` weight makes it zero whatever was read. */
  lemma {:induction false} FlatRowInLattice(b: Bindings, n: nat, p: nat, ki: nat, lo: nat, hi: nat)
    requires Sized(b, n, p) && ki < b.len && lo <= hi
    requires forall kj :: b.len <= kj < hi ==> VWeight(b, p, kj) == 0.0
    ensures (p + 1) * b.len <= |b.blendResult|
    ensures FlatRow(b, p, ki, lo, hi) ==
      RowSum(b.controlPoints, b.len, URow(b.blendResult, b.len, p), VRow(b.blendResult, b.len, p), ki, Cap(lo, b.len), Cap(hi, b.len))
    decreases hi
  {
    RowFits(p, n, b.len);
    if lo < hi {
      FlatRowInLattice(b, n, p, ki, lo, hi - 1);
      if hi - 1 < b.len {
        FlatIndexBound(ki, hi - 1, b.len, b.len);
        FlatIndexBound(p, ki, n, b.len);
        FlatIndexBound(p, hi - 1, n, b.len);
        assert FlatTerm(b, p, ki, hi - 1) ==
          Term(b.controlPoints, b.len, URow(b.blendResult, b.len, p), VRow(b.blendResult, b.len, p), ki, hi - 1);
      } else {
        FlatRowPastColumn(b, p, ki, lo, hi);
      }
    }
  }

  /** A column past the lattice whose `v` weight reads zero leaves the as-written row as it was. */
  lemma FlatRowPastColumn(b: Bindings, p: nat, ki: nat, lo: nat, hi: nat)
    requires lo < hi && VWeight(b, p, hi - 1) == 0.0
    ensures FlatRow(b, p, ki, lo, hi) == FlatRow(b, p, ki, lo, hi - 1)
  {
    assert FlatTerm(b, p, ki, hi - 1) == Origin;
  }

  /** A row whose `u` weight reads zero adds nothing, whatever else it reads. */
  lemma {:induction false} FlatRowOfZeroWeight(b: Bindings, p: nat, ki: nat, lo: nat, hi: nat)
    requires UWeight(b, p, ki) == 0.0
    ensures FlatRow(b, p, ki, lo, hi) == Origin
    decreases hi
  {
    if lo < hi {
      FlatRowOfZeroWeight(b, p, ki, lo, hi - 1);
    }
  }

  /** A row past the lattice whose `u` weight reads zero leaves the as-written grid as it was. */
  lemma FlatGridPastRow(b: Bindings, p: nat, ilo: nat, ihi: nat, jlo: nat, jhi: nat)
    requires ilo < ihi && UWeight(b, p, ihi - 1) == 0.0
    ensures FlatGrid(b, p, ilo, ihi, jlo, jhi) == FlatGrid(b, p, ilo, ihi - 1, jlo, jhi)
  {
    FlatRowOfZeroWeight(b, p, ihi - 1, jlo, jhi);
  }

  /** The as-written grid is the window sum cut at the lattice's edge when
      every weight read past the last row or column is zero. */
  lemma {:induction false} FlatGridInLattice(b: Bindings, n: nat, p: nat, ilo: nat, ihi: nat, jlo: nat, jhi: nat)
    requires Sized(b, n, p) && ilo <= ihi && jlo <= jhi
    requires forall ki :: b.len <= ki < ihi ==> UWeight(b, p, ki) == 0.0
    requires forall kj :: b.len <= kj < jhi ==> VWeight(b, p, kj) == 0.0
    ensures (p + 1) * b.len <= |b.blendResult|
    ensures FlatGrid(b, p, ilo, ihi, jlo, jhi) ==
      GridSum(b.controlPoints, b.len, URow(b.blendResult, b.len, p), VRow(b.blendResult, b.len, p),
        Cap(ilo, b.len), Cap(ihi, b.len), Cap(jlo, b.len), Cap(jhi, b.len))
    decreases ihi
  {
    RowFits(p, n, b.len);
    if ilo < ihi {
      FlatGridInLattice(b, n, p, ilo, ihi - 1, jlo, jhi);
      if ihi - 1 < b.len {
        FlatRowInLattice(b, n, p, ihi - 1, jlo, jhi);
      } else {
        FlatGridPastRow(b, p, ilo, ihi, jlo, jhi);
        assert Cap(ihi, b.len) == Cap(ihi - 1, b.len);
      }
    }
  }

  /** Where the unclamped window fits, the shader as written computes the
      clamped window sum: the two agree for every point with
      `floor u, floor v <= len - 4`. */
  lemma AsWrittenAgreesInRange(b: Bindings, uvs: seq<Vec2>, p: nat)
    requires 4 <= b.len && Sized(b, |uvs|, p)
    requires WindowStart(uvs[p].x) + 4 <= b.len && WindowStart(uvs[p].y) + 4 <= b.len
    ensures AsWrittenPoint(b, uvs[p], p) ==
      PointWindow(b.controlPoints, b.len, b.blendResult, |uvs|, p, ClampedStart(uvs[p].x, b.len), ClampedStart(uvs[p].y, b.len))
  {
    RowFits(p, |uvs|, b.len);
    assert ClampedStart(uvs[p].x, b.len) == WindowStart(uvs[p].x) && ClampedStart(uvs[p].y, b.len) == WindowStart(uvs[p].y);
    AsWrittenIsCutWindow(b, |uvs|, uvs[p], p, URow(b.blendResult, b.len, p), VRow(b.blendResult, b.len, p));
  }

  /** The shader as written computes the window sum cut at the lattice's
      edge whenever every weight it reads past the last row or column is zero. */
  lemma AsWrittenIsCutWindow(b: Bindings, n: nat, uv: Vec2, p: nat, bu: seq<real>, bv: seq<real>)
    requires Sized(b, n, p)
    requires forall ki :: b.len <= ki < WindowStart(uv.x) + 4 ==> UWeight(b, p, ki) == 0.0
    requires forall kj :: b.len <= kj < WindowStart(uv.y) + 4 ==> VWeight(b, p, kj) == 0.0
    requires (p + 1) * b.len <= |b.blendResult|
    requires URow(b.blendResult, b.len, p) == bu && VRow(b.blendResult, b.len, p) == bv
    ensures |bu| == |bv| == b.len
    ensures var u, v := WindowStart(uv.x), WindowStart(uv.y);
      AsWrittenPoint(b, uv, p) == GridSum(b.controlPoints, b.len, bu, bv, Cap(u, b.len), Cap(u + 4, b.len), Cap(v, b.len), Cap(v + 4, b.len))
  {
    var u, v := WindowStart(uv.x), WindowStart(uv.y);
    assert AsWrittenPoint(b, uv, p) == FlatGrid(b, p, u, u + 4, v, v + 4);
    FlatGridInLattice(b, n, p, u, u + 4, v, v + 4);
  }

  /** Fed by the blend stage, the shader as written yields the spline's value
      at a point's parameters whenever every weight it reads past the
      lattice's last row or column is zero. */
  lemma AsWrittenIsSpline(ctrl: seq<Vec2>, len: nat, degree: nat, uvs: seq<Vec2>, p: nat,
                          blendPast: nat -> Vec2, ctrlPast: nat -> Vec2)
    requires 1 <= degree <= 4 && degree <= len + 2 && |ctrl| == len * len && p < |uvs|
    requires forall ki :: len <= ki < WindowStart(uvs[p].x) + 4 ==>
      UWeight(Bindings(ctrl, BlendTable(KnotReals(len, degree), degree, len, uvs), len, blendPast, ctrlPast), p, ki) == 0.0
    requires forall kj :: len <= kj < WindowStart(uvs[p].y) + 4 ==>
      VWeight(Bindings(ctrl, BlendTable(KnotReals(len, degree), degree, len, uvs), len, blendPast, ctrlPast), p, kj) == 0.0
    ensures AsWrittenPoint(Bindings(ctrl, BlendTable(KnotReals(len, degree), degree, len, uvs), len, blendPast, ctrlPast), uvs[p], p)
      == SplinePoint(ctrl, len, degree, uvs[p])
  {
    var kv := KnotReals(len, degree);
    var b := Bindings(ctrl, BlendTable(kv, degree, len, uvs), len, blendPast, ctrlPast);
    var bu, bv := BasisRow(kv, len, degree, uvs[p].x), BasisRow(kv, len, degree, uvs[p].y);
    var u, v := WindowStart(uvs[p].x), WindowStart(uvs[p].y);
    RowsOfBlendTable(len, degree, uvs, p);
    AsWrittenIsCutWindow(b, |uvs|, uvs[p], p, bu, bv);
    assert AsWrittenPoint(b, uvs[p], p) == GridSum(ctrl, len, bu, bv, Cap(u, len), Cap(u + 4, len), Cap(v, len), Cap(v + 4, len));
    UnclampedWindowIsSpline(ctrl, len, degree, uvs[p]);
  }

  /** The window at `(u32(floor u), u32(floor v))`, cut at the lattice's
      edge, holds every basis function that is not zero at `uv`, so its sum
      is the spline's value there. */
  lemma UnclampedWindowIsSpline(ctrl: seq<Vec2>, len: nat, degree: nat, uv: Vec2)
    requires 1 <= degree <= 4 && degree <= len + 2 && |ctrl| == len * len
    ensures var kv, u, v := KnotReals(len, degree), WindowStart(uv.x), WindowStart(uv.y);
      GridSum(ctrl, len, BasisRow(kv, len, degree, uv.x), BasisRow(kv, len, degree, uv.y),
        Cap(u, len), Cap(u + 4, len), Cap(v, len), Cap(v + 4, len)) == SplinePoint(ctrl, len, degree, uv)
  {
    var kv, u, v := KnotReals(len, degree), WindowStart(uv.x), WindowStart(uv.y);
    var bu, bv := BasisRow(kv, len, degree, uv.x), BasisRow(kv, len, degree, uv.y);
    forall j | 0 <= j < len && !(Cap(u, len) <= j < Cap(u + 4, len))
      ensures bu[j] == 0.0
    {
      OutsideUnclampedWindowVanishes(len, degree, uv.x, j);
    }
    forall j | 0 <= j < len && !(Cap(v, len) <= j < Cap(v + 4, len))
      ensures bv[j] == 0.0
    {
      OutsideUnclampedWindowVanishes(len, degree, uv.y, j);
    }
    WindowIsTensorSum(ctrl, len, bu, bv, Cap(u, len), Cap(u + 4, len), Cap(v, len), Cap(v + 4, len));
  }

  /** A read past point `p`'s blend row lands in point `p + 1`'s row, at the
      basis function `ki - len`; it is zero when the next point's parameter
      has left that function's support `[0, ki - len + 1)`. */
  lemma NextRowReadVanishes(ctrl: seq<Vec2>, len: nat, degree: nat, uvs: seq<Vec2>, p: nat,
                            blendPast: nat -> Vec2, ctrlPast: nat -> Vec2, k: nat)
    requires 1 <= degree && len <= k && k - len + degree <= len && p + 1 < |uvs|
    ensures (k - len + 1) as real <= uvs[p + 1].x ==>
      UWeight(Bindings(ctrl, BlendTable(KnotReals(len, degree), degree, len, uvs), len, blendPast, ctrlPast), p, k) == 0.0
    ensures (k - len + 1) as real <= uvs[p + 1].y ==>
      VWeight(Bindings(ctrl, BlendTable(KnotReals(len, degree), degree, len, uvs), len, blendPast, ctrlPast), p, k) == 0.0
  {
    var kv := KnotReals(len, degree);
    var i := k - len;
    assert p * len + k == (p + 1) * len + i;
    BlendTableAt(kv, degree, len, uvs, p + 1, i);
    if (i + 1) as real <= uvs[p + 1].x {
      EarlyBasisVanishes(len, degree, i, uvs[p + 1].x);
    }
    if (i + 1) as real <= uvs[p + 1].y {
      EarlyBasisVanishes(len, degree, i, uvs[p + 1].y);
    }
  }

  /** Every point but the last: when the point's parameters lie below the
      last knot and the next point's parameters have moved past the basis
      functions the overrun reads (for the demo's cubic, `>= 1` or `>= 2`),
      the shader as written yields the spline's value, whatever lies past
      the buffers. */
  lemma AsWrittenIsSplineBeforeLast(ctrl: seq<Vec2>, len: nat, degree: nat, uvs: seq<Vec2>, p: nat,
                                    blendPast: nat -> Vec2, ctrlPast: nat -> Vec2)
    requires 1 <= degree <= 4 && 4 <= len && |ctrl| == len * len && p + 1 < |uvs|
    requires uvs[p].x < (len - degree + 2) as real && uvs[p].y < (len - degree + 2) as real
    requires (WindowStart(uvs[p].x) + 4 - len) as real <= uvs[p + 1].x
    requires (WindowStart(uvs[p].y) + 4 - len) as real <= uvs[p + 1].y
    ensures AsWrittenPoint(Bindings(ctrl, BlendTable(KnotReals(len, degree), degree, len, uvs), len, blendPast, ctrlPast), uvs[p], p)
      == SplinePoint(ctrl, len, degree, uvs[p])
  {
    var b := Bindings(ctrl, BlendTable(KnotReals(len, degree), degree, len, uvs), len, blendPast, ctrlPast);
    forall ki | len <= ki < WindowStart(uvs[p].x) + 4
      ensures UWeight(b, p, ki) == 0.0
    {
      NextRowReadVanishes(ctrl, len, degree, uvs, p, blendPast, ctrlPast, ki);
    }
    forall kj | len <= kj < WindowStart(uvs[p].y) + 4
      ensures VWeight(b, p, kj) == 0.0
    {
      NextRowReadVanishes(ctrl, len, degree, uvs, p, blendPast, ctrlPast, kj);
    }
    AsWrittenIsSpline(ctrl, len, degree, uvs, p, blendPast, ctrlPast);
  }

  /** Basis function `i` of the spline is zero from `t = i + 1` on: its
      support ends at knot `i + degree`, which is `i + 1`. */
  lemma EarlyBasisVanishes(len: nat, degree: nat, i: nat, t: real)
    requires 1 <= degree && i + degree <= len && (i + 1) as real <= t
    ensures Basis(KnotReals(len, degree), i, degree, t) == 0.0
  {
    KnotRealsSorted(len, degree);
    KnotRealsBounds(len, degree, i + degree);
    LocalSupport(KnotReals(len, degree), i, degree, t);
  }

  /** The window of the demo's last sample point (point 99 of 100, on the
      9 x 9 lattice) with `6 <= u < 7` starts at column 6, so its row 9 lies
      past the lattice: the shader reads that row's `u` weight at slot 900 of
      a 900-slot blend buffer and its control points at 81 and beyond of 81,
      so what the term adds is whatever the GPU returns for those reads. */
  lemma LastPointReadsPastBuffers(b: Bindings, uv: Vec2, kj: nat)
    requires b.len == 9 && |b.controlPoints| == 81 && |b.blendResult| == 900 && 6.0 <= uv.x < 7.0 && kj < 9
    ensures WindowStart(uv.x) == 6 && WindowStart(uv.x) + 3 == 9
    ensures FlatTerm(b, 99, 9, kj) == Scale(b.blendPast(900).x * b.blendResult[99 * 9 + kj].y, b.ctrlPast(81 + kj))
  {
    assert Floor(uv.x) == 6;
  }

  /** The same point's as-written value is its in-lattice window plus that
      last row, so the spline point is reached only if the GPU's read past
      the blend buffer happens to return a zero `u` weight. */
  lemma AsWrittenOverrunsByOneRow(b: Bindings, n: nat, uv: Vec2, p: nat)
    requires Sized(b, n, p) && 4 <= b.len
    requires WindowStart(uv.x) + 3 == b.len && WindowStart(uv.y) + 4 <= b.len
    ensures (p + 1) * b.len <= |b.blendResult|
    ensures AsWrittenPoint(b, uv, p) ==
      GridSum(b.controlPoints, b.len, URow(b.blendResult, b.len, p), VRow(b.blendResult, b.len, p),
        WindowStart(uv.x), b.len, WindowStart(uv.y), WindowStart(uv.y) + 4)
      .Plus(FlatRow(b, p, b.len, WindowStart(uv.y), WindowStart(uv.y) + 4))
  {
    var u, v := WindowStart(uv.x), WindowStart(uv.y);
    FlatGridInLattice(b, n, p, u, b.len, v, v + 4);
  }

  /** A parameter on the far edge of the domain (`u = K`, the last knot) has
      every basis value zero, so the spline sends it to the origin. */
  lemma SplineAtLastKnot(ctrl: seq<Vec2>, len: nat, degree: nat, uv: Vec2)
    requires 1 <= degree <= len + 2 && |ctrl| == len * len
    requires uv.x == (len - degree + 2) as real
    ensures SplinePoint(ctrl, len, degree, uv) == Origin
  {
    var kv := KnotReals(len, degree);
    var bu := BasisRow(kv, len, degree, uv.x);
    forall i | 0 <= i < len
      ensures bu[i] == 0.0
    {
      BasisVanishesAtLastKnot(len, degree, i);
    }
    GridAllZero(ctrl, len, bu, BasisRow(kv, len, degree, uv.y), 0, len, 0, len);
  }
}
