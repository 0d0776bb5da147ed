/** The mesh optimiser of the image demo: a triangle mesh over the canvas
    whose vertices are nudged one at a time, keeping a move only when the
    triangles around the vertex then match the picture better. */
module MeshOptimise {
  import opened Common
  import opened Raster

  /** A mesh vertex at an integer pixel position. */
  datatype Pt = Pt(x: int, y: int)

  /** A triangle as three indices into the point list. */
  datatype Face = Face(p1: nat, p2: nat, p3: nat)

  /** `Number.MAX_VALUE`, `(2 - 2^-52) * 2^1023`, exactly. */
  const MaxValue: real := 179769313486231570814527423731704356798070567525844996598917476803157260780028538760589558632766878171540458953514382464234321326889464182768467546703537516986049910576551282076245490090389328944075868508455133942304583236903222948165808559332123348274797826204144723168738177180919299881250404026184124858368.0

  predicate PtInCanvas(p: Pt) {
    0 <= p.x < Width && 0 <= p.y < Height
  }

  // init

  /** The vertex made from one pair of `Math.random()` draws. */
  function RandomPt(width: real, height: real, u: (real, real)): Pt {
    Pt(Trunc(u.0 * width), Trunc(u.1 * height))
  }

  /** The 2000 random vertices, then the fixed border vertices. The loop runs
      its index down from 1999, so draw `k` fills vertex `1999 - k`. */
  function InitPoints(width: real, height: real, draws: seq<(real, real)>, border: seq<Pt>): (pts: seq<Pt>)
    requires |draws| == 2000
    ensures |pts| == 2000 + |border| && pts[2000..] == border
  {
    seq(2000, i requires 0 <= i < 2000 => RandomPt(width, height, draws[1999 - i])) + border
  }

  /** The border vertices of `main.js`: the corners, the middles of the top
      and bottom edges, and a point at row 350 on the left and right edges. */
  function MainBorder(): seq<Pt> {
    [Pt(0, 0), Pt(1023, 0), Pt(0, 767), Pt(1023, 767), Pt(512, 0), Pt(512, 767), Pt(0, 350), Pt(1023, 350)]
  }

  /** The border vertices of `delaunay.ts`, from the canvas size. */
  function DelaunayBorder(width: int, height: int): seq<Pt> {
    [Pt(0, 0), Pt(width - 1, 0), Pt(0, height - 1), Pt(width - 1, height - 1),
     Pt(Trunc(width as real / 2.0), 0), Pt(Trunc(width as real / 2.0), height - 1),
     Pt(0, Trunc(height as real / 2.0)), Pt(width - 1, Trunc(height as real / 2.0))]
  }

  predicate Draws(draws: seq<(real, real)>) {
    forall k :: 0 <= k < |draws| ==> 0.0 <= draws[k].0 < 1.0 && 0.0 <= draws[k].1 < 1.0
  }

  /** A draw in `[0, 1)` scaled to the canvas truncates to a pixel of it. */
  lemma RandomPtInCanvas(u: (real, real))
    requires 0.0 <= u.0 < 1.0 && 0.0 <= u.1 < 1.0
    ensures PtInCanvas(RandomPt(1024.0, 768.0, u))
  {
    assert u.0 * 1024.0 < 1024.0 && u.1 * 768.0 < 768.0;
  }

  /** Every vertex `init` makes lies on the 1024 x 768 canvas. */
  lemma InitInCanvas(draws: seq<(real, real)>)
    requires |draws| == 2000 && Draws(draws)
    ensures var pts := InitPoints(1024.0, 768.0, draws, MainBorder());
      forall i :: 0 <= i < |pts| ==> PtInCanvas(pts[i])
  {
    var pts := InitPoints(1024.0, 768.0, draws, MainBorder());
    forall i | 0 <= i < |pts|
      ensures PtInCanvas(pts[i])
    {
      if i < 2000 {
        RandomPtInCanvas(draws[1999 - i]);
      } else {
        assert pts[i] == MainBorder()[i - 2000];
      }
    }
  }

  /** `init`'s point loop, filling vertex `i` from the top down, then the border. */
  method BuildPoints(width: real, height: real, draws: seq<(real, real)>, border: seq<Pt>) returns (pts: seq<Pt>)
    requires |draws| == 2000
    ensures pts == InitPoints(width, height, draws, border)
  {
    var a := new Pt[2000](_ => Pt(0, 0));
    var i := 2000;
    var k := 0;
    while i > 0
      invariant 0 <= i <= 2000 && k == 2000 - i
      invariant forall j :: i <= j < 2000 ==> a[j] == RandomPt(width, height, draws[1999 - j])
    {
      i := i - 1;
      var x := draws[k].0 * width;
      var y := draws[k].1 * height;
      var u := draws[k];
      assert x == u.0 * width;
      assert Pt(Trunc(x), Trunc(y)) == RandomPt(width, height, u);
      a[i] := Pt(Trunc(x), Trunc(y));
      k := k + 1;
    }
    pts := a[..] + border;
  }

  /** `init` of `delaunay.ts`: the same random vertices, then border
      vertices placed from the canvas size. */
  method DelaunayInit(width: int, height: int, draws: seq<(real, real)>) returns (pts: seq<Pt>)
    requires |draws| == 2000
    ensures pts == InitPoints(width as real, height as real, draws, DelaunayBorder(width, height))
  {
    pts := BuildPoints(width as real, height as real, draws, DelaunayBorder(width, height));
  }

  /** The triangles of `init`: consecutive index triples of the triangulation. */
  function FacesOf(tri: seq<nat>): (faces: seq<Face>)
    requires |tri| % 3 == 0
    ensures |faces| == |tri| / 3
  {
    seq(|tri| / 3, i requires 0 <= i < |tri| / 3 => Face(tri[3 * i], tri[3 * i + 1], tri[3 * i + 2]))
  }

  method BuildFaces(tri: seq<nat>) returns (faces: seq<Face>)
    requires |tri| % 3 == 0
    ensures faces == FacesOf(tri)
  {
    var a := new Face[|tri| / 3](_ => Face(0, 0, 0));
    var i := 0;
    while i < |tri| / 3
      invariant 0 <= i <= |tri| / 3
      invariant forall j :: 0 <= j < i ==> a[j] == Face(tri[3 * j], tri[3 * j + 1], tri[3 * j + 2])
    {
      a[i] := Face(tri[i * 3], tri[i * 3 + 1], tri[i * 3 + 2]);
      i := i + 1;
    }
    FacesFromTriples(a[..], tri);
    faces := a[..];
  }

  lemma FacesFromTriples(a: seq<Face>, tri: seq<nat>)
    requires |tri| % 3 == 0 && |a| == |tri| / 3
    requires forall j :: 0 <= j < |a| ==> a[j] == Face(tri[3 * j], tri[3 * j + 1], tri[3 * j + 2])
    ensures a == FacesOf(tri)
  {
  }

  // findnearest

  /** The squared distance `findnearest` compares. */
  function Dist(p: Pt, ax: real, ay: real): real {
    var dx, dy := ax - p.x as real, ay - p.y as real;
    dx * dx + dy * dy
  }

  /** Index `i` is what `findnearest` picks: below `Number.MAX_VALUE`, no
      farther than any point, and strictly nearer than every earlier one. */
  predicate IsNearest(points: seq<Pt>, ax: real, ay: real, i: int) {
    0 <= i < |points| && Dist(points[i], ax, ay) < MaxValue &&
    (forall j :: 0 <= j < |points| ==> Dist(points[i], ax, ay) <= Dist(points[j], ax, ay)) &&
    (forall j :: 0 <= j < i ==> Dist(points[i], ax, ay) < Dist(points[j], ax, ay))
  }

  /** At most one index is the nearest. */
  lemma NearestUnique(points: seq<Pt>, ax: real, ay: real, i: int, j: int)
    requires IsNearest(points, ax, ay, i) && IsNearest(points, ax, ay, j)
    ensures i == j
  {
  }

  /** `findnearest`: -1 when no point is nearer than `Number.MAX_VALUE`
      (in particular for no points), else the first point of least distance. */
  method FindNearest(points: seq<Pt>, ax: real, ay: real) returns (pick: int)
    ensures pick == -1 <==> forall j :: 0 <= j < |points| ==> Dist(points[j], ax, ay) >= MaxValue
    ensures pick != -1 ==> IsNearest(points, ax, ay, pick)
  {
    var minimal := MaxValue;
    pick := -1;
    var x := 0;
    while x < |points|
      invariant 0 <= x <= |points|
      invariant pick == -1 ==> minimal == MaxValue && forall j :: 0 <= j < x ==> Dist(points[j], ax, ay) >= MaxValue
      invariant pick != -1 ==> (0 <= pick < x && minimal == Dist(points[pick], ax, ay) && minimal < MaxValue &&
        (forall j :: 0 <= j < x ==> minimal <= Dist(points[j], ax, ay)) &&
        (forall j :: 0 <= j < pick ==> minimal < Dist(points[j], ax, ay)))
    {
      var distance := Dist(points[x], ax, ay);
      if distance < minimal {
        minimal := distance;
        pick := x;
      }
      x := x + 1;
    }
  }

  /** A point of the canvas and a query in `refresh`'s range are nearer than
      `Number.MAX_VALUE`, so a non-empty mesh always yields a vertex. */
  lemma NearestExists(p: Pt, ax: real, ay: real)
    requires PtInCanvas(p) && 0.0 <= ax <= 1100.0 && 0.0 <= ay <= 800.0
    ensures Dist(p, ax, ay) < MaxValue
  {
    var dx, dy := ax - p.x as real, ay - p.y as real;
    SquareBelow(dx, 1100.0);
    SquareBelow(dy, 800.0);
    assert Dist(p, ax, ay) == dx * dx + dy * dy <= 1850000.0;
    assert 1850000.0 < MaxValue;
  }

  lemma SquareBelow(v: real, b: real)
    requires -b <= v <= b
    ensures v * v <= b * b
  {
    if v >= 0.0 {
      assert v * v <= b * v <= b * b;
    } else {
      assert v * v == (-v) * (-v) <= b * (-v) <= b * b;
    }
  }

  // trianglesWithPoint

  predicate FaceIn(n: nat, f: Face) {
    f.p1 < n && f.p2 < n && f.p3 < n
  }

  predicate FacesIn(n: nat, faces: seq<Face>) {
    forall j :: 0 <= j < |faces| ==> FaceIn(n, faces[j])
  }

  /** A triangle has a corner at `c`. */
  predicate HasVertex(points: seq<Pt>, f: Face, c: Pt)
    requires FaceIn(|points|, f)
  {
    points[f.p1] == c || points[f.p2] == c || points[f.p3] == c
  }

  /** The triangles with a corner at `c`, in their order. */
  function WithPoint(points: seq<Pt>, faces: seq<Face>, c: Pt): seq<Face>
    requires FacesIn(|points|, faces)
  {
    if faces == [] then []
    else
      var f := faces[|faces| - 1];
      WithPoint(points, faces[..|faces| - 1], c) + (if HasVertex(points, f, c) then [f] else [])
  }

  /** The list holds exactly the triangles with a corner at `c`. */
  lemma {:induction false} WithPointMembers(points: seq<Pt>, faces: seq<Face>, c: Pt)
    requires FacesIn(|points|, faces)
    ensures FacesIn(|points|, WithPoint(points, faces, c))
    ensures forall f :: f in WithPoint(points, faces, c) <==> f in faces && FaceIn(|points|, f) && HasVertex(points, f, c)
    ensures |WithPoint(points, faces, c)| <= |faces|
  {
    if faces != [] {
      var init := faces[..|faces| - 1];
      WithPointMembers(points, init, c);
      assert faces == init + [faces[|faces| - 1]];
    }
  }

  method TrianglesWithPoint(points: seq<Pt>, triangles: seq<Face>, cx: int, cy: int) returns (lst: seq<Face>)
    requires FacesIn(|points|, triangles)
    ensures lst == WithPoint(points, triangles, Pt(cx, cy))
  {
    lst := [];
    var point := Pt(cx, cy);
    var i := 0;
    while i < |triangles|
      invariant 0 <= i <= |triangles|
      invariant lst == WithPoint(points, triangles[..i], point)
    {
      var f := triangles[i];
      assert triangles[..i + 1][..i] == triangles[..i];
      if points[f.p1] == point || points[f.p2] == point || points[f.p3] == point {
        lst := lst + [f];
      }
      i := i + 1;
    }
    assert triangles[..i] == triangles;
  }

  // isCounterClockwise

  /** The cross product of `p2 - p1` and `p3 - p1`. */
  function Cross(p1: Pt, p2: Pt, p3: Pt): int {
    (p2.x - p1.x) * (p3.y - p1.y) - (p2.y - p1.y) * (p3.x - p1.x)
  }

  predicate IsCounterClockwise(p1: Pt, p2: Pt, p3: Pt) {
    Cross(p1, p2, p3) >= 0
  }

  /** Rotating the corners keeps the cross product; swapping two negates it. */
  lemma CrossSymmetry(p1: Pt, p2: Pt, p3: Pt)
    ensures Cross(p2, p3, p1) == Cross(p1, p2, p3)
    ensures Cross(p1, p3, p2) == -Cross(p1, p2, p3)
  {
  }

  /** Of a triangle and its mirror image at least one passes the test, and
      both do exactly when the corners are collinear. */
  lemma CounterClockwiseOneWay(p1: Pt, p2: Pt, p3: Pt)
    ensures IsCounterClockwise(p1, p2, p3) || IsCounterClockwise(p1, p3, p2)
    ensures IsCounterClockwise(p1, p2, p3) && IsCounterClockwise(p1, p3, p2) <==> Cross(p1, p2, p3) == 0
  {
    CrossSymmetry(p1, p2, p3);
  }

  // geterrorrun

  /** The threshold `geterrorrun` stops at; `Infinity` never stops it. */
  datatype Bound = Finite(value: real) | Infinity

  predicate Exceeds(err: real, prev: Bound) {
    prev.Finite? && err > prev.value
  }

  /** The points lie on the canvas and the triangles index them. */
  predicate MeshOk(points: seq<Pt>, faces: seq<Face>) {
    (forall i :: 0 <= i < |points| ==> PtInCanvas(points[i])) && FacesIn(|points|, faces)
  }

  /** Moving one vertex to a place on the canvas keeps the mesh on the canvas. */
  lemma MovedOk(points: seq<Pt>, faces: seq<Face>, idx: nat, p: Pt)
    requires MeshOk(points, faces) && idx < |points| && PtInCanvas(p)
    ensures MeshOk(points[idx := p], faces)
  {
  }

  function TriOf(points: seq<Pt>, f: Face): (t: Tri)
    requires FaceIn(|points|, f)
  {
    Tri(points[f.p1].x, points[f.p1].y, points[f.p2].x, points[f.p2].y, points[f.p3].x, points[f.p3].y)
  }

  lemma TriOfInCanvas(points: seq<Pt>, faces: seq<Face>, j: int)
    requires MeshOk(points, faces) && 0 <= j < |faces|
    ensures FaceIn(|points|, faces[j]) && InCanvas(TriOf(points, faces[j]))
  {
    var f := faces[j];
    assert PtInCanvas(points[f.p1]) && PtInCanvas(points[f.p2]) && PtInCanvas(points[f.p3]);
  }

  /** The penalty for a triangle that `isCounterClockwise` accepts. */
  function Penalty(points: seq<Pt>, f: Face): real
    requires FaceIn(|points|, f)
  {
    if IsCounterClockwise(points[f.p1], points[f.p2], points[f.p3]) then 999999.0 else 0.0
  }

  /** What a triangle adds to the run: the penalty, then what `triangle`
      returns, which is its error when not drawing and 0 when drawing. */
  function FaceCost(src: seq<int>, points: seq<Pt>, f: Face, dodraw: bool): real
    requires |src| == ImageBytes && FaceIn(|points|, f) && InCanvas(TriOf(points, f))
  {
    Penalty(points, f) + (if dodraw then 0.0 else TriangleError(src, TriOf(points, f)))
  }

  /** What each triangle of the list adds, in order. */
  function Costs(src: seq<int>, points: seq<Pt>, lst: seq<Face>, dodraw: bool): (costs: seq<real>)
    requires |src| == ImageBytes && MeshOk(points, lst)
    ensures |costs| == |lst|
  {
    seq(|lst|, k requires 0 <= k < |lst| => TriOfInCanvas(points, lst, k); FaceCost(src, points, lst[k], dodraw))
  }

  /** The sum `geterrorrun` returns, from triangle `i` on with `acc` summed
      so far: it stops right after the triangle that takes it past `prev`. */
  function RunError(costs: seq<real>, prev: Bound, i: nat, acc: real): real
    decreases |costs| - i
  {
    if i >= |costs| then acc
    else
      var e := acc + costs[i];
      if Exceeds(e, prev) then e else RunError(costs, prev, i + 1, e)
  }

  /** How many triangles that run handles. */
  function RunLength(costs: seq<real>, prev: Bound, i: nat, acc: real): (n: nat)
    requires i <= |costs|
    ensures i <= n <= |costs|
    decreases |costs| - i
  {
    if i == |costs| then i
    else
      var e := acc + costs[i];
      if Exceeds(e, prev) then i + 1 else RunLength(costs, prev, i + 1, e)
  }

  /** The plain sum of the costs from `i` on. */
  function SumFrom(costs: seq<real>, i: nat): real
    decreases |costs| - i
  {
    if i >= |costs| then 0.0 else costs[i] + SumFrom(costs, i + 1)
  }

  predicate NonNegative(costs: seq<real>) {
    forall k :: 0 <= k < |costs| ==> costs[k] >= 0.0
  }

  /** Without a threshold the run is the plain sum and handles every triangle. */
  lemma {:induction false} RunWithoutBound(costs: seq<real>, i: nat, acc: real)
    requires i <= |costs|
    ensures RunError(costs, Infinity, i, acc) == acc + SumFrom(costs, i)
    ensures RunLength(costs, Infinity, i, acc) == |costs|
    decreases |costs| - i
  {
    if i < |costs| {
      RunWithoutBound(costs, i + 1, acc + costs[i]);
    }
  }

  lemma {:induction false} SumNonNegative(costs: seq<real>, i: nat)
    requires NonNegative(costs)
    ensures SumFrom(costs, i) >= 0.0
    decreases |costs| - i
  {
    if i < |costs| {
      SumNonNegative(costs, i + 1);
    }
  }

  /** Stopping early never changes the comparison with the threshold when no
      triangle costs less than nothing: the run exceeds `prev` exactly when
      the full sum does, and a run that does not exceed it is the full sum. */
  lemma {:induction false} EarlyExitAgrees(costs: seq<real>, prev: real, i: nat, acc: real)
    requires NonNegative(costs)
    ensures var cut, full := RunError(costs, Finite(prev), i, acc), acc + SumFrom(costs, i);
      (cut > prev <==> full > prev) && (cut <= prev ==> cut == full)
    decreases |costs| - i
  {
    if i < |costs| {
      var e := acc + costs[i];
      if e > prev {
        SumNonNegative(costs, i + 1);
      } else {
        EarlyExitAgrees(costs, prev, i + 1, e);
      }
    }
  }

  /** Without drawing, every triangle adds its penalty and its error, neither
      negative. */
  lemma ScoreCostsNonNegative(src: seq<int>, points: seq<Pt>, lst: seq<Face>)
    requires |src| == ImageBytes && MeshOk(points, lst)
    ensures NonNegative(Costs(src, points, lst, false))
  {
    var costs := Costs(src, points, lst, false);
    forall k | 0 <= k < |lst|
      ensures costs[k] >= 0.0
    {
      TriOfInCanvas(points, lst, k);
      TriangleErrorNonNegative(src, TriOf(points, lst[k]));
    }
  }

  /** The picture after `draw` has drawn triangles `0 .. n - 1` in turn. */
  function DrawFrom(draw: (seq<int>, nat) -> seq<int>, d: seq<int>, n: nat): seq<int> {
    if n == 0 then d else draw(DrawFrom(draw, d, n - 1), n - 1)
  }

  /** Drawing triangle `k` of the list with `triangle`. */
  function FaceDrawer(src: seq<int>, points: seq<Pt>, lst: seq<Face>): (seq<int>, nat) -> seq<int>
    requires |src| == ImageBytes && MeshOk(points, lst)
  {
    (d, k) => if |src| == ImageBytes && MeshOk(points, lst) && 0 <= k < |lst| then (TriOfInCanvas(points, lst, k); PaintTriangle(d, src, TriOf(points, lst[k]))) else d
  }

  /** The picture after drawing the first `n` triangles of the list in turn. */
  function PaintFaces(d: seq<int>, src: seq<int>, points: seq<Pt>, lst: seq<Face>, n: nat): seq<int>
    requires |src| == ImageBytes && MeshOk(points, lst)
  {
    DrawFrom(FaceDrawer(src, points, lst), d, n)
  }

  /** `costs` holds what each triangle adds; the link is only unfolded
      where a triangle's cost is named. */
  ghost predicate CostsOf(costs: seq<real>, src: seq<int>, points: seq<Pt>, lst: seq<Face>, dodraw: bool)
    requires |src| == ImageBytes && MeshOk(points, lst)
  {
    |costs| == |lst| &&
    forall k {:trigger FaceCost(src, points, lst[k], dodraw)} :: 0 <= k < |lst| ==>
      costs[k] == FaceCost(src, points, lst[k], dodraw)
  }

  /** `draw` draws the triangles of the list; the link is only unfolded
      where a triangle's drawing is named. */
  ghost predicate DrawsOf(draw: (seq<int>, nat) -> seq<int>, src: seq<int>, points: seq<Pt>, lst: seq<Face>)
    requires |src| == ImageBytes && MeshOk(points, lst)
  {
    forall d, k {:trigger PaintTriangle(d, src, TriOf(points, lst[k]))} :: 0 <= k < |lst| ==>
      draw(d, k) == PaintTriangle(d, src, TriOf(points, lst[k]))
  }

  lemma CostsAreCosts(src: seq<int>, points: seq<Pt>, lst: seq<Face>, dodraw: bool)
    requires |src| == ImageBytes && MeshOk(points, lst)
    ensures CostsOf(Costs(src, points, lst, dodraw), src, points, lst, dodraw)
  {
  }

  lemma FaceDrawerDraws(src: seq<int>, points: seq<Pt>, lst: seq<Face>)
    requires |src| == ImageBytes && MeshOk(points, lst)
    ensures DrawsOf(FaceDrawer(src, points, lst), src, points, lst)
  {
  }

  /** The error of a mesh around a vertex: the penalties and errors of its
      triangles, summed. */
  function MeshError(src: seq<int>, points: seq<Pt>, lst: seq<Face>): real
    requires |src| == ImageBytes && MeshOk(points, lst)
  {
    SumFrom(Costs(src, points, lst, false), 0)
  }

  /** The error with vertex `idx` moved to `(x, y)`. */
  function MovedError(src: seq<int>, points: seq<Pt>, idx: nat, lst: seq<Face>, x: int, y: int): real
    requires |src| == ImageBytes && MeshOk(points, lst) && idx < |points| && PtInCanvas(Pt(x, y))
  {
    MovedOk(points, lst, idx, Pt(x, y));
    MeshError(src, points[idx := Pt(x, y)], lst)
  }

  /** The error of each place on the canvas the vertex could move to. */
  function MoveRule(src: seq<int>, points: seq<Pt>, idx: nat, lst: seq<Face>): (int, int) -> real
    requires |src| == ImageBytes && MeshOk(points, lst) && idx < |points|
  {
    (x, y) => if PtInCanvas(Pt(x, y)) then MovedError(src, points, idx, lst, x, y) else 0.0
  }

  // optimise

  /** One random nudge of a coordinate: only a coordinate strictly between 0
      and `limit` moves, and the result is clamped to `[1, hi]`. */
  function Perturb(v: int, offset: int, limit: int, hi: int): int {
    if 0 < v < limit then MinInt(hi, MaxInt(1, v + offset)) else v
  }

  function StepX(dx: int, offset: int): int {
    Perturb(dx, offset, 1023, 1022)
  }

  function StepY(dy: int, offset: int): int {
    Perturb(dy, offset, 767, 766)
  }

  /** A nudge stays on the canvas, and a vertex on the left or right edge
      never moves sideways, one on the top or bottom edge never up or down. */
  lemma StepsKeepBorder(dx: int, dy: int, ox: int, oy: int)
    requires 0 <= dx < Width && 0 <= dy < Height
    ensures PtInCanvas(Pt(StepX(dx, ox), StepY(dy, oy)))
    ensures dx == 0 || dx == 1023 ==> StepX(dx, ox) == dx
    ensures dy == 0 || dy == 767 ==> StepY(dy, oy) == dy
    ensures StepX(dx, ox) == dx || 1 <= StepX(dx, ox) <= 1022
    ensures StepY(dy, oy) == dy || 1 <= StepY(dy, oy) <= 766
  {
  }

  /** The vertical nudge of `delaunay.ts`, whose guard is `dy < 1198`. */
  function DelaunayStepY(dy: int, offset: int): int {
    Perturb(dy, offset, 1198, 766)
  }

  /** With that guard the bottom border vertex at row 767 is clamped to row
      766 even by a zero nudge, so the mesh no longer reaches the last row. */
  lemma DelaunayGuardMovesBorder()
    ensures DelaunayStepY(767, 0) == 766 && StepY(767, 0) == 767
  {
  }

  /** The state of the search loop of `optimise`: the current candidate, the
      best position so far and its error. */
  datatype Search = Search(dx: int, dy: int, pickx: int, picky: int, minerr: real)

  /** One round: nudge the candidate, keep it when its error is strictly
      lower than the best so far, and otherwise go back to `home`. */
  function SearchStep(err: (int, int) -> real, home: Pt, offset: (int, int), s: Search): Search {
    var dx, dy := StepX(s.dx, offset.0), StepY(s.dy, offset.1);
    var e := err(dx, dy);
    if e < s.minerr then Search(dx, dy, dx, dy, e) else Search(home.x, home.y, s.pickx, s.picky, s.minerr)
  }

  /** The rounds from `k` on. */
  function SearchFrom(err: (int, int) -> real, home: Pt, offsets: seq<(int, int)>, k: nat, s: Search): Search
    decreases |offsets| - k
  {
    if k >= |offsets| then s else SearchFrom(err, home, offsets, k + 1, SearchStep(err, home, offsets[k], s))
  }

  /** The search from the vertex's own place and error. */
  function SearchAll(err: (int, int) -> real, home: Pt, offsets: seq<(int, int)>): Search {
    SearchFrom(err, home, offsets, 0, Search(home.x, home.y, home.x, home.y, err(home.x, home.y)))
  }

  /** The search keeps the best position it has accepted: the error it
      reports is the error of that position and never above where it started. */
  lemma {:induction false} SearchKeepsBest(err: (int, int) -> real, home: Pt, offsets: seq<(int, int)>, k: nat, s: Search)
    requires s.minerr == err(s.pickx, s.picky)
    ensures var r := SearchFrom(err, home, offsets, k, s);
      r.minerr <= s.minerr && r.minerr == err(r.pickx, r.picky)
    decreases |offsets| - k
  {
    if k < |offsets| {
      SearchKeepsBest(err, home, offsets, k + 1, SearchStep(err, home, offsets[k], s));
    }
  }

  /** Where the search may put a vertex starting at `home`: on the canvas, a
      vertex on the left or right border keeps its column and one on the top
      or bottom border keeps its row, and every other coordinate ends up in
      `[1, 1022] x [1, 766]` or where it was. */
  predicate Reachable(home: Pt, x: int, y: int) {
    PtInCanvas(Pt(x, y)) &&
    (home.x == 0 || home.x == 1023 ==> x == home.x) && (home.y == 0 || home.y == 767 ==> y == home.y) &&
    (x == home.x || 1 <= x <= 1022) && (y == home.y || 1 <= y <= 766)
  }

  lemma {:induction false} SearchKeepsBorder(err: (int, int) -> real, home: Pt, offsets: seq<(int, int)>, k: nat, s: Search)
    requires PtInCanvas(home) && Reachable(home, s.dx, s.dy) && Reachable(home, s.pickx, s.picky)
    ensures var r := SearchFrom(err, home, offsets, k, s);
      Reachable(home, r.dx, r.dy) && Reachable(home, r.pickx, r.picky)
    decreases |offsets| - k
  {
    if k < |offsets| {
      StepsKeepBorder(s.dx, s.dy, offsets[k].0, offsets[k].1);
      SearchKeepsBorder(err, home, offsets, k + 1, SearchStep(err, home, offsets[k], s));
    }
  }

  /** `rule` gives the error of the mesh with vertex `idx` moved. */
  ghost predicate RuleOf(rule: (int, int) -> real, src: seq<int>, points: seq<Pt>, idx: nat, lst: seq<Face>)
    requires |src| == ImageBytes && MeshOk(points, lst) && idx < |points|
  {
    forall x, y {:trigger MovedError(src, points, idx, lst, x, y)} ::
      PtInCanvas(Pt(x, y)) ==> rule(x, y) == MovedError(src, points, idx, lst, x, y)
  }

  lemma MoveRuleIsRule(src: seq<int>, points: seq<Pt>, idx: nat, lst: seq<Face>)
    requires |src| == ImageBytes && MeshOk(points, lst) && idx < |points|
    ensures RuleOf(MoveRule(src, points, idx, lst), src, points, idx, lst)
  {
  }

  /** The global state of `main.js`: the vertices, the triangles, the span
      buffers, the untouched copy of the picture and the picture drawn. */
  class Optimiser {
    var points: seq<Pt>
    const triangles: seq<Face>
    const cpy: seq<int>
    const idt: array<int>
    const spans: Spans

    ghost predicate Valid()
      reads this
    {
      spans.Valid() && idt != spans.minBuffer && idt != spans.maxBuffer &&
      |cpy| == ImageBytes && MeshOk(points, triangles)
    }

    /** `init`, given the picture, the 2000 pairs of `Math.random()` draws and
      the index list the Delaunay triangulation returns for the vertices. */
    constructor (image: seq<int>, draws: seq<(real, real)>, tri: seq<nat>)
      requires |image| == ImageBytes && |draws| == 2000 && Draws(draws)
      requires |tri| % 3 == 0 && forall j :: 0 <= j < |tri| ==> tri[j] < 2008
      ensures Valid() && fresh(idt) && fresh(spans)
      ensures points == InitPoints(1024.0, 768.0, draws, MainBorder())
      ensures triangles == FacesOf(tri) && cpy == image && idt[..] == image
      ensures forall r :: 0 <= r < Height ==> spans.minBuffer[r] == 0 && spans.maxBuffer[r] == 0
    {
      spans := new Spans();
      var pts := BuildPoints(1024.0, 768.0, draws, MainBorder());
      InitInCanvas(draws);
      points := pts;
      var faces := BuildFaces(tri);
      forall j | 0 <= j < |faces|
        ensures FaceIn(|pts|, faces[j])
      {
        assert faces[j] == Face(tri[3 * j], tri[3 * j + 1], tri[3 * j + 2]);
      }
      triangles := faces;
      cpy := image;
      idt := new int[ImageBytes](k requires 0 <= k < ImageBytes => image[k]);
    }

    /** `geterrorrun(lst, dodraw, prev)` over the current vertices: the sum it
      returns, and the triangles it handled drawn when `dodraw`. */
    method GetErrorRun(lst: seq<Face>, dodraw: bool, prev: Bound) returns (err: real)
      requires Valid() && FacesIn(|points|, lst)
      modifies spans.minBuffer, spans.maxBuffer, idt
      ensures err == RunError(Costs(cpy, points, lst, dodraw), prev, 0, 0.0)
      ensures dodraw ==> idt[..] == PaintFaces(old(idt[..]), cpy, points, lst, RunLength(Costs(cpy, points, lst, dodraw), prev, 0, 0.0))
      ensures !dodraw ==> idt[..] == old(idt[..])
    {
      CostsAreCosts(cpy, points, lst, dodraw);
      FaceDrawerDraws(cpy, points, lst);
      err := RunTriangles(lst, dodraw, prev, Costs(cpy, points, lst, dodraw), FaceDrawer(cpy, points, lst));
    }

    /** The loop of `geterrorrun`, given what each triangle costs and draws. */
    method RunTriangles(lst: seq<Face>, dodraw: bool, prev: Bound, ghost costs: seq<real>, ghost draw: (seq<int>, nat) -> seq<int>)
      returns (err: real)
      requires Valid() && FacesIn(|points|, lst)
      requires CostsOf(costs, cpy, points, lst, dodraw) && DrawsOf(draw, cpy, points, lst)
      modifies spans.minBuffer, spans.maxBuffer, idt
      ensures err == RunError(costs, prev, 0, 0.0)
      ensures dodraw ==> idt[..] == DrawFrom(draw, old(idt[..]), RunLength(costs, prev, 0, 0.0))
      ensures !dodraw ==> idt[..] == old(idt[..])
    {
      err := 0.0;
      var i := 0;
      while i < |lst|
        invariant 0 <= i <= |lst|
        invariant RunError(costs, prev, i, err) == RunError(costs, prev, 0, 0.0)
        invariant RunLength(costs, prev, i, err) == RunLength(costs, prev, 0, 0.0)
        invariant dodraw ==> idt[..] == DrawFrom(draw, old(idt[..]), i)
        invariant !dodraw ==> idt[..] == old(idt[..])
      {
        err := RunStep(lst, i, dodraw, err, costs, draw);
        if Exceeds(err, prev) {
          return;
        }
        i := i + 1;
      }
    }

    /** One turn of `geterrorrun`'s loop: the penalty, then `triangle`. */
    method RunStep(lst: seq<Face>, k: nat, dodraw: bool, acc: real, ghost costs: seq<real>, ghost draw: (seq<int>, nat) -> seq<int>)
      returns (err: real)
      requires Valid() && FacesIn(|points|, lst) && k < |lst|
      requires CostsOf(costs, cpy, points, lst, dodraw) && DrawsOf(draw, cpy, points, lst)
      modifies spans.minBuffer, spans.maxBuffer, idt
      ensures err == acc + costs[k]
      ensures dodraw ==> idt[..] == draw(old(idt[..]), k)
      ensures !dodraw ==> idt[..] == old(idt[..])
    {
      TriOfInCanvas(points, lst, k);
      var f := lst[k];
      err := acc;
      if IsCounterClockwise(points[f.p1], points[f.p2], points[f.p3]) {
        err := err + 999999.0;
      }
      var e := spans.Triangle(cpy, idt, TriOf(points, f), dodraw);
      err := err + e;
      assert costs[k] == FaceCost(cpy, points, lst[k], dodraw);
      assert dodraw ==> draw(old(idt[..]), k) == PaintTriangle(old(idt[..]), cpy, TriOf(points, lst[k]));
    }

    /** `optimise(cx, cy)`, given the ten nudges `Math.random()` produces.
      The vertex nearest the query moves to the best place the search
      accepted, the error around it does not grow, and its triangles are
      drawn there. */
    method Optimise(cx: real, cy: real, offsets: seq<(int, int)>) returns (ghost idx: nat, ghost lst: seq<Face>)
      requires Valid() && |offsets| == 10
      requires exists j :: 0 <= j < |points| && Dist(points[j], cx, cy) < MaxValue
      modifies this, spans.minBuffer, spans.maxBuffer, idt
      ensures Valid() && IsNearest(old(points), cx, cy, idx)
      ensures lst == WithPoint(old(points), triangles, old(points)[idx])
      ensures MeshOk(old(points), lst) && MeshOk(points, lst)
      ensures var s := SearchAll(MoveRule(cpy, old(points), idx, lst), old(points)[idx], offsets);
        points == old(points)[idx := Pt(s.pickx, s.picky)]
      ensures Reachable(old(points)[idx], points[idx].x, points[idx].y)
      ensures MeshError(cpy, points, lst) <= MeshError(cpy, old(points), lst)
      ensures idt[..] == PaintFaces(old(idt[..]), cpy, points, lst, |lst|)
    {
      var idxnear := FindNearest(points, cx, cy);
      idx := idxnear;
      var home := points;
      var dx, dy := points[idxnear].x, points[idxnear].y;
      var faces := TrianglesWithPoint(points, triangles, dx, dy);
      lst := faces;
      WithPointMembers(points, triangles, Pt(dx, dy));
      ghost var rule := MoveRule(cpy, points, idxnear, faces);
      MoveRuleIsRule(cpy, points, idxnear, faces);
      var minerr := StartingError(idxnear, faces);
      var pickx, picky := SearchRounds(home, idxnear, faces, offsets, minerr, rule);
      points := home[idxnear := Pt(pickx, picky)];
      DrawFaces(faces);
    }

    /** The first `geterrorrun` of `optimise`: without a bound and without
      drawing it is the error of the faces with the vertex where it is. */
    method StartingError(idx: nat, faces: seq<Face>) returns (minerr: real)
      requires Valid() && idx < |points| && MeshOk(points, faces)
      modifies spans.minBuffer, spans.maxBuffer, idt
      ensures idt[..] == old(idt[..])
      ensures minerr == MeshError(cpy, points, faces)
      ensures minerr == MoveRule(cpy, points, idx, faces)(points[idx].x, points[idx].y)
    {
      minerr := GetErrorRun(faces, false, Infinity);
      RunWithoutBound(Costs(cpy, points, faces, false), 0, 0.0);
      assert points[idx := Pt(points[idx].x, points[idx].y)] == points;
    }

    /** The last `geterrorrun` of `optimise`: without a bound every face is
      drawn. */
    method DrawFaces(faces: seq<Face>)
      requires Valid() && FacesIn(|points|, faces)
      modifies spans.minBuffer, spans.maxBuffer, idt
      ensures idt[..] == PaintFaces(old(idt[..]), cpy, points, faces, |faces|)
    {
      var _ := GetErrorRun(faces, true, Infinity);
      RunWithoutBound(Costs(cpy, points, faces, true), 0, 0.0);
    }

    /** The ten rounds of `optimise`, each evaluating the candidate with
      `geterrorrun` cut off at the best error so far. */
    method SearchRounds(home: seq<Pt>, idx: nat, lst: seq<Face>, offsets: seq<(int, int)>, minerr0: real,
                        ghost rule: (int, int) -> real)
      returns (pickx: int, picky: int)
      requires Valid() && points == home && idx < |home| && FacesIn(|home|, lst)
      requires RuleOf(rule, cpy, home, idx, lst) && minerr0 == rule(home[idx].x, home[idx].y)
      modifies this, spans.minBuffer, spans.maxBuffer, idt
      ensures Valid() && idt[..] == old(idt[..]) && |points| == |home|
      ensures var s := SearchAll(rule, home[idx], offsets); pickx == s.pickx && picky == s.picky
      ensures Reachable(home[idx], pickx, picky) && rule(pickx, picky) <= minerr0
    {
      var start := home[idx];
      var s := Search(start.x, start.y, start.x, start.y, minerr0);
      SearchKeepsBest(rule, start, offsets, 0, s);
      SearchKeepsBorder(rule, start, offsets, 0, s);
      var t := 0;
      while t < |offsets|
        invariant 0 <= t <= |offsets|
        invariant Valid() && idt[..] == old(idt[..])
        invariant |points| == |home| && MeshOk(points, lst)
        invariant Reachable(start, s.dx, s.dy) && Reachable(start, s.pickx, s.picky)
        invariant SearchFrom(rule, start, offsets, t, s) == SearchAll(rule, start, offsets)
      {
        s := TryMove(home, idx, lst, offsets[t], s, rule);
        t := t + 1;
      }
      pickx, picky := s.pickx, s.picky;
    }

    /** One round of the search: nudge, set the vertex there, compare. */
    method TryMove(home: seq<Pt>, idx: nat, lst: seq<Face>, offset: (int, int), s: Search, ghost rule: (int, int) -> real)
      returns (next: Search)
      requires Valid() && |points| == |home| && idx < |home| && MeshOk(home, lst)
      requires RuleOf(rule, cpy, home, idx, lst) && PtInCanvas(home[idx])
      requires Reachable(home[idx], s.dx, s.dy)
      modifies this, spans.minBuffer, spans.maxBuffer, idt
      ensures Valid() && idt[..] == old(idt[..]) && points == home[idx := Pt(StepX(s.dx, offset.0), StepY(s.dy, offset.1))]
      ensures next == SearchStep(rule, home[idx], offset, s)
    {
      var dx, dy := s.dx, s.dy;
      if 0 < dx < 1023 {
        dx := MinInt(1022, MaxInt(1, dx + offset.0));
      }
      if 0 < dy < 767 {
        dy := MinInt(766, MaxInt(1, dy + offset.1));
      }
      StepsKeepBorder(s.dx, s.dy, offset.0, offset.1);
      MovedOk(home, lst, idx, Pt(dx, dy));
      points := home[idx := Pt(dx, dy)];
      var err := GetErrorRun(lst, false, Finite(s.minerr));
      ghost var costs := Costs(cpy, points, lst, false);
      ScoreCostsNonNegative(cpy, points, lst);
      EarlyExitAgrees(costs, s.minerr, 0, 0.0);
      assert rule(dx, dy) == MovedError(cpy, home, idx, lst, dx, dy) == SumFrom(costs, 0);
      if err < s.minerr {
        next := Search(dx, dy, dx, dy, err);
      } else {
        next := Search(home[idx].x, home[idx].y, s.pickx, s.picky, s.minerr);
      }
    }
  }
}
