/** `CirclePoints` of the first 2D demo: the sample points, their positions
    as fractions of the canvas, their sprites and their parameters. */
module CircleDrawLegacy {
  import opened Common
  import opened Config
  import opened Packing
  import opened Uv
  import opened Pipeline

  /** Point `i` as fractions of the canvas, at floats `2i` and `2i + 1`. */
  function CanvasFractions(pts: seq<Vec2>): (r: seq<real>)
    ensures |r| == 2 * |pts|
  {
    if pts == [] then []
    else CanvasFractions(pts[..|pts| - 1]) + [pts[|pts| - 1].x / CanvasWidth, pts[|pts| - 1].y / CanvasHeight]
  }

  /** Float `2i` is `x / width` and float `2i + 1` is `y / height` of point `i`. */
  lemma {:induction false} CanvasFractionsAt(pts: seq<Vec2>, i: nat)
    requires i < |pts|
    ensures CanvasFractions(pts)[2 * i] == pts[i].x / CanvasWidth
    ensures CanvasFractions(pts)[2 * i + 1] == pts[i].y / CanvasHeight
    decreases |pts|
  {
    var init := pts[..|pts| - 1];
    if i < |pts| - 1 {
      CanvasFractionsAt(init, i);
      assert pts[i] == init[i];
    }
  }

  /** The same layout for every point, and scaled back by the canvas size the
      two floats of point `i` give the point. */
  lemma CanvasFractionsLayout(pts: seq<Vec2>)
    ensures forall i :: 0 <= i < |pts| ==>
      CanvasFractions(pts)[2 * i] == pts[i].x / CanvasWidth &&
      CanvasFractions(pts)[2 * i + 1] == pts[i].y / CanvasHeight
    ensures forall i :: 0 <= i < |pts| ==>
      Vec2(CanvasFractions(pts)[2 * i] * CanvasWidth, CanvasFractions(pts)[2 * i + 1] * CanvasHeight) == pts[i]
  {
    forall i | 0 <= i < |pts|
      ensures CanvasFractions(pts)[2 * i] == pts[i].x / CanvasWidth
      ensures CanvasFractions(pts)[2 * i + 1] == pts[i].y / CanvasHeight
      ensures Vec2(CanvasFractions(pts)[2 * i] * CanvasWidth, CanvasFractions(pts)[2 * i + 1] * CanvasHeight) == pts[i]
    {
      CanvasFractionsAt(pts, i);
      ScaleBack(pts[i].x, CanvasWidth);
      ScaleBack(pts[i].y, CanvasHeight);
    }
  }

  /** Dividing by a non-zero size and multiplying back gives the value. */
  lemma ScaleBack(x: real, size: real)
    requires size != 0.0
    ensures x / size * size == x
  {
  }

  /** The loop of `createPointsValue`: point `i` divided by the canvas size,
      written at floats `2i` and `2i + 1`. */
  method WriteFractions(values: array<real>, pts: seq<Vec2>)
    requires values.Length == 2 * |pts|
    modifies values
    ensures values[..] == CanvasFractions(pts)
  {
    var i := 0;
    while i < |pts|
      invariant 0 <= i <= |pts|
      invariant values[..2 * i] == CanvasFractions(pts[..i])
    {
      values[i * 2] := pts[i].x / CanvasWidth;
      values[i * 2 + 1] := pts[i].y / CanvasHeight;
      assert pts[..i + 1][..i] == pts[..i];
      assert values[..2 * (i + 1)] == values[..2 * i] + [values[i * 2], values[i * 2 + 1]];
      i := i + 1;
    }
    assert pts[..i] == pts;
  }

  class CirclePoints {
    var initPoints: seq<Vec2>
    var pointsValue: array<real>
    var pointsVertexValue: array<real>
    var uvValue: seq<Vec2>

    /** The circle's points are given (they come from `cos` and `sin`). */
    constructor (circle: seq<Vec2>)
      requires |circle| == CircleTotal
      ensures initPoints == circle && uvValue == []
      ensures fresh(pointsValue) && fresh(pointsVertexValue)
      ensures pointsValue[..] == CanvasFractions(circle)
      ensures pointsVertexValue[..] == SquareVertices(circle, CircleSize as real, false)
    {
      initPoints := circle;
      uvValue := [];
      pointsValue := new real[0];
      pointsVertexValue := new real[0];
      new;
      CreatePointsValue();
      CreatePointsVertexValue();
    }

    /** `2 * circle.total` floats: each point divided by the canvas size. */
    method CreatePointsValue()
      requires |initPoints| == CircleTotal
      modifies this
      ensures fresh(pointsValue) && pointsValue.Length == 2 * CircleTotal
      ensures pointsValue[..] == CanvasFractions(initPoints)
      ensures initPoints == old(initPoints) && uvValue == old(uvValue) && pointsVertexValue == old(pointsVertexValue)
    {
      pointsValue := new real[2 * CircleTotal];
      WriteFractions(pointsValue, initPoints);
    }

    /** One sprite block per initial point, at `12i`. */
    method CreatePointsVertexValue()
      requires |initPoints| == CircleTotal
      modifies this
      ensures fresh(pointsVertexValue)
      ensures pointsVertexValue[..] == SquareVertices(initPoints, CircleSize as real, false)
      ensures initPoints == old(initPoints) && uvValue == old(uvValue) && pointsValue == old(pointsValue)
    {
      pointsVertexValue := SquareVertexBuffer(initPoints, CircleSize as real);
    }

    /** The parameters come from the initial points only. */
    method CreateUVValue()
      modifies this
      ensures |uvValue| == |initPoints|
      ensures forall i :: 0 <= i < |initPoints| ==> uvValue[i] == ConfiguredUv(initPoints[i])
      ensures initPoints == old(initPoints) && pointsValue == old(pointsValue)
      ensures pointsVertexValue == old(pointsVertexValue)
    {
      var uv := ComputeUv(initPoints);
      uvValue := uv[..];
    }
  }
}
