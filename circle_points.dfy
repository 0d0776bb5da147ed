/** `CirclePoints` of the second 2D demo: the sample points on their circle,
    their float buffers, their parameters, and the points moved by the spline. */
module CircleDraw {
  import opened Common
  import opened Config
  import opened Packing
  import opened Uv
  import opened Sum
  import opened Pipeline

  class CirclePoints {
    var initPoints: seq<Vec2>
    var initPointsValue: array<real>
    var pointsValue: seq<Vec2>
    var pointsVertexValue: array<real>
    var uvValue: seq<Vec2>

    /** The circle's points are given (they come from `cos` and `sin`); the
        point buffer and the sprites of the initial points are built at once. */
    constructor (circle: seq<Vec2>)
      requires |circle| == CircleTotal
      ensures initPoints == circle && pointsValue == [] && uvValue == []
      ensures fresh(initPointsValue) && fresh(pointsVertexValue)
      ensures initPointsValue[..] == Packed(circle, false)
      ensures pointsVertexValue[..] == SquareVertices(circle, CircleSize as real, false)
    {
      initPoints := circle;
      pointsValue := [];
      uvValue := [];
      initPointsValue := new real[0];
      pointsVertexValue := new real[0];
      new;
      CreatePointsValue();
      CreatePointsVertexValue(true);
      assert initPoints[..CircleTotal] == circle;
    }

    /** The initial points at floats `2i`, `2i + 1`. */
    method CreatePointsValue()
      requires |initPoints| == CircleTotal
      modifies this
      ensures fresh(initPointsValue)
      ensures initPointsValue[..] == Packed(initPoints, false)
      ensures initPoints == old(initPoints) && pointsValue == old(pointsValue) && uvValue == old(uvValue)
      ensures pointsVertexValue == old(pointsVertexValue)
    {
      initPointsValue := new real[2 * CircleTotal];
      WritePairs(initPointsValue, initPoints);
    }

    /** The sprites of the first `circle.total` points: the initial ones when
        `init` holds, otherwise the moved ones. */
    method CreatePointsVertexValue(init: bool)
      requires init ==> |initPoints| >= CircleTotal
      requires !init ==> |pointsValue| >= CircleTotal
      modifies this
      ensures initPoints == old(initPoints) && pointsValue == old(pointsValue) && uvValue == old(uvValue)
      ensures initPointsValue == old(initPointsValue)
      ensures fresh(pointsVertexValue)
      ensures pointsVertexValue[..] ==
        SquareVertices((if init then initPoints else pointsValue)[..CircleTotal], CircleSize as real, false)
    {
      var source := if init then initPoints else pointsValue;
      pointsVertexValue := SquareVertexBuffer(source[..CircleTotal], CircleSize as real);
    }

    /** The parameters come from the initial points only. */
    method CreateUVValue()
      modifies this
      ensures |uvValue| == |initPoints|
      ensures forall i :: 0 <= i < |initPoints| ==> uvValue[i] == ConfiguredUv(initPoints[i])
      ensures initPoints == old(initPoints) && pointsValue == old(pointsValue)
      ensures initPointsValue == old(initPointsValue) && pointsVertexValue == old(pointsVertexValue)
    {
      var uv := ComputeUv(initPoints);
      uvValue := uv[..];
    }

    /** Runs blend and sum on the stored parameters and the control points'
        float buffer, stores point `i` of the result for each `i < circle.total`
        and rebuilds the sprites from the moved points. */
    method UpdatePointsValue(controlPoints: array<real>)
      requires controlPoints.Length == 2 * CtrlTotal && |uvValue| == CircleTotal
      modifies this
      ensures initPoints == old(initPoints) && uvValue == old(uvValue) && initPointsValue == old(initPointsValue)
      ensures |pointsValue| == MaxInt(|old(pointsValue)|, CircleTotal)
      ensures pointsValue[..CircleTotal] == SplinePoints(Pairs(controlPoints[..]), uvValue)
      ensures pointsValue[CircleTotal..] == old(pointsValue)[MinInt(CircleTotal, |old(pointsValue)|)..]
      ensures fresh(pointsVertexValue)
      ensures pointsVertexValue[..] == SquareVertices(pointsValue[..CircleTotal], CircleSize as real, false)
    {
      pointsValue := MovedPoints(pointsValue, uvValue, controlPoints[..]);
      CreatePointsVertexValue(false);
    }
  }

  /** The read-back loop: point `i` of the result floats replaces entry `i`
      of the list for each `i < count`, growing the list where it is shorter. */
  method StorePoints(pointsValue: seq<Vec2>, pointsResult: seq<real>, count: nat) returns (updated: seq<Vec2>)
    requires 2 * count <= |pointsResult|
    ensures |updated| == MaxInt(|pointsValue|, count)
    ensures updated[..count] == Pairs(pointsResult[..2 * count])
    ensures updated[count..] == pointsValue[MinInt(count, |pointsValue|)..]
  {
    updated := pointsValue;
    var i := 0;
    while i < count
      invariant 0 <= i <= count
      invariant |updated| == MaxInt(|pointsValue|, i)
      invariant updated[..i] == Pairs(pointsResult[..2 * i])
      invariant updated[i..] == pointsValue[MinInt(i, |pointsValue|)..]
    {
      var p := Vec2(pointsResult[i * 2], pointsResult[i * 2 + 1]);
      assert pointsResult[..2 * i + 2][..2 * i] == pointsResult[..2 * i];
      if i < |updated| {
        updated := updated[i := p];
      } else {
        updated := updated + [p];
      }
      assert updated[..i + 1] == updated[..i] + [p];
      i := i + 1;
    }
  }

  /** Blend and sum on the parameters, then the read-back loop over the first
      `circle.total` results. */
  method MovedPoints(pointsValue: seq<Vec2>, uvValue: seq<Vec2>, controlPoints: seq<real>) returns (updated: seq<Vec2>)
    requires |controlPoints| == 2 * CtrlTotal && |uvValue| == CircleTotal
    ensures |updated| == MaxInt(|pointsValue|, CircleTotal)
    ensures updated[..CircleTotal] == SplinePoints(Pairs(controlPoints), uvValue)
    ensures updated[CircleTotal..] == pointsValue[MinInt(CircleTotal, |pointsValue|)..]
  {
    var ctrl := Pairs(controlPoints);
    var pointsResult := BlendAndSum(uvValue, ctrl);
    ghost var moved := SplinePoints(ctrl, uvValue);
    PairsOfPacked(moved);
    assert pointsResult[..][..2 * CircleTotal] == Packed(moved, false);
    updated := StorePoints(pointsValue, pointsResult[..], CircleTotal);
  }
}
