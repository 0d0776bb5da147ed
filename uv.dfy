/** The first compute stage: each sample point's pixel position is mapped
    affinely onto the parameter domain `[0, K]^2` of the spline, where `K` is
    the last knot and the lattice corners `gridStart`, `gridEnd` go to `0` and `K`. */
module Uv {
  import opened Common
  import opened Config
  import opened KnotVector
  import opened Packing

  /** The lattice corner opposite `start`: `gap * (len - 1)` further on both axes. */
  function GridEnd(start: Vec2, gap: real, len: nat): Vec2 {
    Vec2(start.x + gap * (len as real - 1.0), start.y + gap * (len as real - 1.0))
  }

  /** The lattice has a nonzero extent on both axes. */
  predicate Spans(start: Vec2, end: Vec2) {
    end.x != start.x && end.y != start.y
  }

  /** The shader's map of one coordinate: `K * (c - s) / (e - s)`. */
  function UvCoord(c: real, s: real, e: real, knot: real): real
    requires e != s
  {
    knot * (c - s) / (e - s)
  }

  /** Its inverse, from a parameter back to a pixel coordinate. */
  function PosCoord(t: real, s: real, e: real, knot: real): real
    requires knot != 0.0
  {
    s + t * (e - s) / knot
  }

  /** The shader's map of one point to its `(u, v)` parameter. */
  function UvOf(p: Vec2, start: Vec2, end: Vec2, knot: real): Vec2
    requires Spans(start, end)
  {
    Vec2(UvCoord(p.x, start.x, end.x, knot), UvCoord(p.y, start.y, end.y, knot))
  }

  /** The inverse map, from a parameter back to a pixel position. */
  function PosOf(uv: Vec2, start: Vec2, end: Vec2, knot: real): Vec2
    requires knot != 0.0
  {
    Vec2(PosCoord(uv.x, start.x, end.x, knot), PosCoord(uv.y, start.y, end.y, knot))
  }

  lemma DivCancel(x: real, y: real)
    requires y != 0.0
    ensures (x / y) * y == x && (x * y) / y == x
  {
  }

  /** Scaling by `b / a` and then by `a / b` gives back `x`. */
  lemma ScaleUnscale(x: real, a: real, b: real)
    requires a != 0.0 && b != 0.0
    ensures (b * x / a) * a / b == x
  {
    DivCancel(b * x, a);
    DivCancel(x, b);
    assert (b * x / a) * a == x * b;
  }

  /** Scaling by `a / b` and then by `b / a` gives back `x`. */
  lemma UnscaleScale(x: real, a: real, b: real)
    requires a != 0.0 && b != 0.0
    ensures b * (x * a / b) / a == x
  {
    DivCancel(x * a, b);
    DivCancel(x, a);
    assert b * (x * a / b) == x * a;
  }

  /** One coordinate of the map and of its inverse undo each other. */
  lemma CoordRoundTrip(c: real, s: real, e: real, knot: real)
    requires e != s && knot != 0.0
    ensures PosCoord(UvCoord(c, s, e, knot), s, e, knot) == c
    ensures UvCoord(PosCoord(c, s, e, knot), s, e, knot) == c
  {
    ScaleUnscale(c - s, e - s, knot);
    UnscaleScale(c, e - s, knot);
    assert (s + c * (e - s) / knot) - s == c * (e - s) / knot;
  }

  /** The parameter map is a bijection between positions and parameters. */
  lemma UvRoundTrip(p: Vec2, uv: Vec2, start: Vec2, end: Vec2, knot: real)
    requires Spans(start, end) && knot != 0.0
    ensures PosOf(UvOf(p, start, end, knot), start, end, knot) == p
    ensures UvOf(PosOf(uv, start, end, knot), start, end, knot) == uv
  {
    CoordRoundTrip(p.x, start.x, end.x, knot);
    CoordRoundTrip(p.y, start.y, end.y, knot);
    CoordRoundTrip(uv.x, start.x, end.x, knot);
    CoordRoundTrip(uv.y, start.y, end.y, knot);
  }

  /** The lattice corners go to the ends of the parameter domain. */
  lemma UvCorners(start: Vec2, end: Vec2, knot: real)
    requires Spans(start, end)
    ensures UvOf(start, start, end, knot) == Vec2(0.0, 0.0)
    ensures UvOf(end, start, end, knot) == Vec2(knot, knot)
  {
  }

  /** One coordinate of a position between the corners lands in `[0, K]`. */
  lemma CoordWithin(c: real, s: real, e: real, knot: real)
    requires s < e && s <= c <= e && 0.0 <= knot
    ensures 0.0 <= UvCoord(c, s, e, knot) <= knot
  {
    var d := e - s;
    var q := (c - s) / d;
    DivCancel(c - s, d);
    UnitQuotient(c - s, d);
    assert knot * (c - s) / d == knot * q;
    assert 0.0 <= knot * q by { assert 0.0 <= knot && 0.0 <= q; }
    assert knot * q <= knot * 1.0 by { assert knot * (1.0 - q) >= 0.0; }
  }

  /** A quotient of a part by the whole lies in the unit interval. */
  lemma UnitQuotient(x: real, d: real)
    requires 0.0 < d && 0.0 <= x <= d
    ensures 0.0 <= x / d <= 1.0
  {
    var q := x / d;
    assert q * d == x;
    assert (1.0 - q) * d == d - x;
  }

  /** A position inside the lattice (for a positive gap) has parameters in `[0, K]^2`. */
  lemma UvWithinDomain(p: Vec2, start: Vec2, end: Vec2, knot: real)
    requires start.x < end.x && start.y < end.y && 0.0 <= knot
    requires start.x <= p.x <= end.x && start.y <= p.y <= end.y
    ensures Spans(start, end)
    ensures 0.0 <= UvOf(p, start, end, knot).x <= knot
    ensures 0.0 <= UvOf(p, start, end, knot).y <= knot
  {
    CoordWithin(p.x, start.x, end.x, knot);
    CoordWithin(p.y, start.y, end.y, knot);
  }

  /** The parameters of a whole point list. */
  function UvList(pts: seq<Vec2>, start: Vec2, end: Vec2, knot: real): (r: seq<Vec2>)
    requires Spans(start, end)
    ensures |r| == |pts|
  {
    seq(|pts|, i requires 0 <= i < |pts| => UvOf(pts[i], start, end, knot))
  }

  /** The shader, one invocation per point: it reads `x` and `y` of the
      `vec4f` at `idx`, takes `K` from the last knot and writes the `vec2f` result. */
  method UvShader(points: seq<real>, pointNum: nat, start: Vec2, end: Vec2, knotVector: seq<int>)
    returns (uvResult: array<Vec2>)
    requires |points| == 4 * pointNum && |knotVector| > 0 && Spans(start, end)
    ensures uvResult.Length == pointNum
    ensures forall idx :: 0 <= idx < pointNum ==>
      uvResult[idx] == UvOf(Vec2(points[4 * idx], points[4 * idx + 1]), start, end, knotVector[|knotVector| - 1] as real)
  {
    uvResult := new Vec2[pointNum](_ => Vec2(0.0, 0.0));
    var knot := knotVector[|knotVector| - 1] as real;
    var idx := 0;
    while idx < pointNum
      invariant 0 <= idx <= pointNum
      invariant forall j :: 0 <= j < idx ==>
        uvResult[j] == UvOf(Vec2(points[4 * j], points[4 * j + 1]), start, end, knot)
    {
      uvResult[idx] := UvOf(Vec2(points[4 * idx], points[4 * idx + 1]), start, end, knot);
      idx := idx + 1;
    }
  }

  /** `computeUv` of the 2D demo: packs the initial points as `vec4f`s, builds
      the knot vector and runs the shader; the result holds the configured
      lattice's parameters of the points. */
  method ComputeUv(init: seq<Vec2>) returns (uv: array<Vec2>)
    ensures Spans(CtrlStart, GridEnd(CtrlStart, CtrlGap, CtrlLen))
    ensures uv[..] == UvList(init, CtrlStart, GridEnd(CtrlStart, CtrlGap, CtrlLen), 8.0)
  {
    var gridEnd := GridEnd(CtrlStart, CtrlGap, CtrlLen);
    var knotVector := CalcKnotVector(CtrlLen, Degree);
    LastKnot(CtrlLen, Degree);
    var packed := ListToArray(init, true);
    PackedLayout(init, true);
    uv := UvShader(packed[..], |init|, CtrlStart, gridEnd, knotVector);
  }

  /** The vertex packing loop of the first demo: `x`, `y`, `0`, `1` for each of
      the first `total` points. */
  method PackVec4(circlePoints: seq<Vec2>, total: nat) returns (circlePointsVec4f: array<real>)
    requires total <= |circlePoints|
    ensures circlePointsVec4f[..] == Packed(circlePoints[..total], true)
  {
    circlePointsVec4f := new real[total * 4];
    var i := 0;
    while i < total
      invariant 0 <= i <= total
      invariant circlePointsVec4f[..4 * i] == Packed(circlePoints[..i], true)
    {
      WriteSlot(circlePointsVec4f, 4 * i, circlePoints[i], true);
      PackedSnoc(circlePoints[..i], circlePoints[i], true);
      assert circlePoints[..i + 1] == circlePoints[..i] + [circlePoints[i]];
      i := i + 1;
    }
    assert circlePointsVec4f[..] == circlePointsVec4f[..4 * total];
  }

  /** The image demo's point loop: the flat triangulation coordinates read two
      at a time (the scaled copies it computes are not used). */
  method TriangleVectors(triangles: seq<real>) returns (triangleVector: seq<Vec2>)
    requires |triangles| % 2 == 0
    ensures triangleVector == Pairs(triangles)
  {
    triangleVector := [];
    var i := 0;
    while i < |triangles|
      invariant 0 <= i <= |triangles| && i % 2 == 0
      invariant triangleVector == Pairs(triangles[..i])
    {
      assert triangles[..i + 2][..i] == triangles[..i];
      triangleVector := triangleVector + [Vec2(triangles[i], triangles[i + 1])];
      i := i + 2;
    }
    assert triangles[..i] == triangles;
  }

  const WorkgroupSize: nat := 256

  /** Workgroups dispatched for `n` flat coordinates: `ceil((n / 2) / 256)`. */
  function DispatchCount(n: nat): int {
    Ceil((n as real / 2.0) / WorkgroupSize as real)
  }

  /** The dispatch is the fewest workgroups of 256 that cover every point. */
  lemma DispatchCovers(n: nat)
    requires n % 2 == 0
    ensures WorkgroupSize * DispatchCount(n) >= n / 2
    ensures DispatchCount(n) == 0 || WorkgroupSize * (DispatchCount(n) - 1) < n / 2
  {
    var pts := n / 2;
    assert n as real / 2.0 == pts as real;
    var q := pts as real / 256.0;
    var c := DispatchCount(n);
    assert c == -((-q).Floor);
    assert (-q).Floor as real <= -q < (-q).Floor as real + 1.0;
    assert q <= c as real < q + 1.0;
    assert 256.0 * q == pts as real;
  }
}
