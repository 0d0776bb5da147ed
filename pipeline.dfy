/** The three compute stages run in order on the demo's configuration:
    parameters of the sample points, then their basis values, then the
    weighted sums over the current control-point lattice. */
module Pipeline {
  import opened Common
  import opened Config
  import opened KnotVector
  import opened Packing
  import opened Uv
  import opened Blend
  import opened Sum

  /** The parameter of a sample point in the configured lattice. */
  function ConfiguredUv(p: Vec2): Vec2 {
    UvOf(p, CtrlStart, GridEnd(CtrlStart, CtrlGap, CtrlLen), 8.0)
  }

  /** Every window the sum stage reads from the blend table of the configured
      knots is the full spline sum at that point's parameter. */
  lemma WindowsAreSplinePoints(current: seq<Vec2>, uvs: seq<Vec2>, blend: seq<Vec2>)
    requires |current| == CtrlLen * CtrlLen
    requires blend == BlendTable(KnotReals(CtrlLen, Degree), Degree, CtrlLen, uvs)
    ensures forall p :: 0 <= p < |uvs| ==>
      PointWindow(current, CtrlLen, blend, |uvs|, p, ClampedStart(uvs[p].x, CtrlLen), ClampedStart(uvs[p].y, CtrlLen))
      == SplinePoint(current, CtrlLen, Degree, uvs[p])
  {
    forall p | 0 <= p < |uvs|
      ensures PointWindow(current, CtrlLen, blend, |uvs|, p, ClampedStart(uvs[p].x, CtrlLen), ClampedStart(uvs[p].y, CtrlLen))
        == SplinePoint(current, CtrlLen, Degree, uvs[p])
    {
      ClampedWindowIsSpline(current, CtrlLen, Degree, uvs, p);
    }
  }

  /** The spline of `current` at each parameter in turn. */
  function SplinePoints(current: seq<Vec2>, uvs: seq<Vec2>): (r: seq<Vec2>)
    requires |current| == CtrlLen * CtrlLen
    ensures |r| == |uvs|
  {
    seq(|uvs|, p requires 0 <= p < |uvs| => SplinePoint(current, CtrlLen, Degree, uvs[p]))
  }

  /** The blend stage on the parameters, then the sum stage on the parameters,
      the blend table and the control points; the result buffer read back as
      floats holds the spline point of each parameter, two floats each. */
  method BlendAndSum(circleUV: seq<Vec2>, controlPoints: seq<Vec2>) returns (pointsResult: array<real>)
    requires |controlPoints| == CtrlLen * CtrlLen
    ensures pointsResult[..] == Packed(SplinePoints(controlPoints, circleUV), false)
  {
    var knotVector := CalcKnotVector(CtrlLen, Degree);
    assert AsReals(knotVector) == KnotReals(CtrlLen, Degree);
    var blend := BlendStage(AsReals(knotVector), Degree, CtrlLen, circleUV);
    var sum := SumStage(controlPoints, circleUV, blend[..], CtrlLen);
    SumIsSplinePoints(controlPoints, circleUV, blend[..], sum[..]);
    pointsResult := AsFloats(sum);
  }

  /** A result that holds, point by point, the windows the sum stage reads
      from the configured blend table is the list of spline points. */
  lemma SumIsSplinePoints(current: seq<Vec2>, uvs: seq<Vec2>, blend: seq<Vec2>, result: seq<Vec2>)
    requires |current| == CtrlLen * CtrlLen
    requires blend == BlendTable(KnotReals(CtrlLen, Degree), Degree, CtrlLen, uvs)
    requires |result| == |uvs|
    requires forall p :: 0 <= p < |uvs| ==>
      result[p] == PointWindow(current, CtrlLen, blend, |uvs|, p, ClampedStart(uvs[p].x, CtrlLen), ClampedStart(uvs[p].y, CtrlLen))
    ensures result == SplinePoints(current, uvs)
  {
    WindowsAreSplinePoints(current, uvs, blend);
  }

  /** The `vec2f` result buffer read back as a `Float32Array`: two floats per point. */
  method AsFloats(points: array<Vec2>) returns (floats: array<real>)
    ensures floats[..] == Packed(points[..], false)
  {
    var n := points.Length;
    ghost var want := Packed(points[..], false);
    floats := new real[2 * n](k requires 0 <= k < 2 * n reads points => Packed(points[..], false)[k]);
    assert floats[..] == want;
  }

  /** Read back two floats at a time, the packed spline points of the
      parameters of `init` are the spline points at those parameters. */
  lemma {:induction false} ReadBackSplinePoints(init: seq<Vec2>, current: seq<Vec2>, uvs: seq<Vec2>)
    requires |current| == CtrlLen * CtrlLen
    requires Spans(CtrlStart, GridEnd(CtrlStart, CtrlGap, CtrlLen))
    requires uvs == UvList(init, CtrlStart, GridEnd(CtrlStart, CtrlGap, CtrlLen), 8.0)
    ensures |Packed(SplinePoints(current, uvs), false)| % 2 == 0
    ensures var pts := Pairs(Packed(SplinePoints(current, uvs), false));
      |pts| == |init| &&
      forall p :: 0 <= p < |init| ==> pts[p] == SplinePoint(current, CtrlLen, Degree, ConfiguredUv(init[p]))
  {
    ghost var pts := SplinePoints(current, uvs);
    PairsOfPacked(pts);
    forall p | 0 <= p < |init|
      ensures pts[p] == SplinePoint(current, CtrlLen, Degree, ConfiguredUv(init[p]))
    {
      assert uvs[p] == ConfiguredUv(init[p]);
    }
  }

  /** `computeCurrentCirclePos`: uv, then blend, then sum, read back as a
      point list. Each sample point lands on the spline of the current
      lattice, at the parameter of its initial position. */
  method ComputeCurrentCirclePos(init: seq<Vec2>, current: seq<Vec2>) returns (currentCirclePos: seq<Vec2>)
    requires |current| == CtrlLen * CtrlLen
    ensures |currentCirclePos| == |init|
    ensures forall p :: 0 <= p < |init| ==>
      currentCirclePos[p] == SplinePoint(current, CtrlLen, Degree, ConfiguredUv(init[p]))
  {
    var uv := ComputeUv(init);
    var controlPoints := ListToArray(current, false);
    PairsOfPacked(current);
    var sum := BlendAndSum(uv[..], Pairs(controlPoints[..]));
    ReadBackSplinePoints(init, current, uv[..]);
    currentCirclePos := ArrayToList(sum);
  }
}
