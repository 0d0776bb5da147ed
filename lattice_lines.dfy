/** The wireframe of the 3D control lattice: one line from every lattice point
    to each of its +x, +y and +z neighbours, and the flat vertex list drawn from it. */
module LatticeLines {
  import opened Common
  import opened LatticePoints

  /** A line between two lattice indices. */
  datatype LineInfo = LineInfo(from: Idx3, to: Idx3)

  predicate Found(info: seq<PointInfo>, idx: Idx3) {
    Find(info, idx).Some?
  }

  /** The end of the line is the start moved by one in exactly one coordinate. */
  predicate UnitStep(l: LineInfo) {
    || l.to == Idx3(l.from.x + 1, l.from.y, l.from.z)
    || l.to == Idx3(l.from.x, l.from.y + 1, l.from.z)
    || l.to == Idx3(l.from.x, l.from.y, l.from.z + 1)
  }

  /** The line joins two found points one step apart. */
  predicate LineOk(info: seq<PointInfo>, l: LineInfo) {
    UnitStep(l) && Found(info, l.from) && Found(info, l.to)
  }

  /** Every line of the list joins two found points one step apart. */
  ghost predicate WellFormed(info: seq<PointInfo>, lines: seq<LineInfo>) {
    forall i :: 0 <= i < |lines| ==> LineOk(info, lines[i])
  }

  /** One neighbour link: added only when `near` holds and the neighbour is found. */
  function Link(info: seq<PointInfo>, cur: PointInfo, near: bool, to: Idx3): (r: seq<LineInfo>)
    ensures |r| == (if near && Found(info, to) then 1 else 0)
    ensures forall i :: 0 <= i < |r| ==> r[i] == LineInfo(cur.index, to)
  {
    if near then
      match Find(info, to)
      case Some(t) => [LineInfo(cur.index, t.index)]
      case None => []
    else []
  }

  /** `addLineInfo(x, y, z)`: the lines from (x, y, z) to its right, upper and front
      neighbours, in that order; nothing when (x, y, z) itself is missing. */
  function PointEdges(info: seq<PointInfo>, n: nat, x: nat, y: nat, z: nat): (r: seq<LineInfo>)
    ensures !Found(info, Idx3(x, y, z)) ==> r == []
    ensures forall i :: 0 <= i < |r| ==> r[i].from == Idx3(x, y, z) && LineOk(info, r[i])
  {
    match Find(info, Idx3(x, y, z))
    case None => []
    case Some(cur) =>
      Link(info, cur, x + 1 < n, Idx3(x + 1, y, z))
      + Link(info, cur, y + 1 < n, Idx3(x, y + 1, z))
      + Link(info, cur, z + 1 < n, Idx3(x, y, z + 1))
  }

  /** The pieces `f(0)`, ..., `f(k-1)` joined in order: the lines a loop of `k` rounds adds. */
  function Concat(f: nat -> seq<LineInfo>, k: nat): seq<LineInfo> {
    if k == 0 then [] else Concat(f, k - 1) + f(k - 1)
  }

  /** What one row of the innermost loop adds for each z. */
  function RowOf(edges: (nat, nat, nat) -> seq<LineInfo>, x: nat, y: nat): nat -> seq<LineInfo> {
    (z: nat) => edges(x, y, z)
  }

  /** What the middle loop adds for each y: a whole row. */
  function PlaneOf(edges: (nat, nat, nat) -> seq<LineInfo>, n: nat, x: nat): nat -> seq<LineInfo> {
    (y: nat) => Concat(RowOf(edges, x, y), n)
  }

  /** What the outer loop adds for each x: a whole plane. */
  function LatticeOf(edges: (nat, nat, nat) -> seq<LineInfo>, n: nat): nat -> seq<LineInfo> {
    (x: nat) => Concat(PlaneOf(edges, n, x), n)
  }

  /** What `addLineInfo` adds for each index of a given lattice object. */
  function AddedBy(info: seq<PointInfo>, n: nat): (nat, nat, nat) -> seq<LineInfo> {
    (x: nat, y: nat, z: nat) => PointEdges(info, n, x, y, z)
  }

  /** The lines of the wireframe over `info`, in the order the triple loop adds them. */
  function Wireframe(info: seq<PointInfo>, n: nat): seq<LineInfo> {
    Concat(LatticeOf(AddedBy(info, n), n), n)
  }

  /** `edges` agrees with `AddedBy(info, n)`; stated so that `PointEdges` is only
      unfolded where a proof names it. */
  ghost predicate EdgesOf(edges: (nat, nat, nat) -> seq<LineInfo>, info: seq<PointInfo>, n: nat) {
    forall x: nat, y: nat, z: nat {:trigger PointEdges(info, n, x, y, z)} ::
      edges(x, y, z) == PointEdges(info, n, x, y, z)
  }

  lemma AddedByEdges(info: seq<PointInfo>, n: nat)
    ensures EdgesOf(AddedBy(info, n), info, n)
  {
  }

  lemma WellFormedAppend(info: seq<PointInfo>, a: seq<LineInfo>, b: seq<LineInfo>)
    requires WellFormed(info, a) && WellFormed(info, b)
    ensures WellFormed(info, a + b)
  {
    forall i | 0 <= i < |a + b|
      ensures LineOk(info, (a + b)[i])
    {
      if i >= |a| {
        assert (a + b)[i] == b[i - |a|];
      }
    }
  }

  /** Joining well-formed pieces gives a well-formed list. */
  lemma {:induction false} ConcatWellFormed(info: seq<PointInfo>, f: nat -> seq<LineInfo>, k: nat)
    requires forall i: nat :: i < k ==> WellFormed(info, f(i))
    ensures WellFormed(info, Concat(f, k))
  {
    if k > 0 {
      ConcatWellFormed(info, f, k - 1);
      WellFormedAppend(info, Concat(f, k - 1), f(k - 1));
    }
  }

  /** Every line of the wireframe joins two found points one step apart. */
  lemma WireframeWellFormed(info: seq<PointInfo>, n: nat)
    ensures WellFormed(info, Wireframe(info, n))
  {
    var edges := AddedBy(info, n);
    forall x: nat | x < n
      ensures WellFormed(info, LatticeOf(edges, n)(x))
    {
      forall y: nat | y < n
        ensures WellFormed(info, PlaneOf(edges, n, x)(y))
      {
        forall z: nat | z < n
          ensures WellFormed(info, RowOf(edges, x, y)(z))
        {
          assert RowOf(edges, x, y)(z) == PointEdges(info, n, x, y, z);
        }
        ConcatWellFormed(info, RowOf(edges, x, y), n);
      }
      ConcatWellFormed(info, PlaneOf(edges, n, x), n);
    }
    ConcatWellFormed(info, LatticeOf(edges, n), n);
  }

  /** On the lattice every line of the wireframe joins two lattice indices one step apart. */
  lemma WireframeInLattice(info: seq<PointInfo>, n: nat, gap: real)
    requires IsLattice(info, n, gap)
    ensures forall l :: l in Wireframe(info, n) ==>
              UnitStep(l) && InLattice(n, l.from) && InLattice(n, l.to)
  {
    var w := Wireframe(info, n);
    WireframeWellFormed(info, n);
    forall l | l in w
      ensures UnitStep(l) && InLattice(n, l.from) && InLattice(n, l.to)
    {
      var i :| 0 <= i < |w| && w[i] == l;
      assert LineOk(info, w[i]);
      LatticeFinds(info, n, gap, l.from);
      LatticeFinds(info, n, gap, l.to);
    }
  }

  /** 1 when a coordinate still has a neighbour above it, else 0. */
  function Step(n: nat, c: nat): nat {
    if c + 1 < n then 1 else 0
  }

  /** How many of the first `k` coordinates have a neighbour above: `min(k, n-1)`. */
  function Below(n: nat, k: nat): nat {
    if n == 0 then 0 else if k < n then k else n - 1
  }

  /** Inside the lattice, index (x, y, z) gets one line per neighbour above it. */
  lemma PointEdgesCount(info: seq<PointInfo>, n: nat, gap: real, x: nat, y: nat, z: nat)
    requires IsLattice(info, n, gap) && x < n && y < n && z < n
    ensures |PointEdges(info, n, x, y, z)| == Step(n, x) + Step(n, y) + Step(n, z)
  {
    LatticeFinds(info, n, gap, Idx3(x, y, z));
    LatticeFinds(info, n, gap, Idx3(x + 1, y, z));
    LatticeFinds(info, n, gap, Idx3(x, y + 1, z));
    LatticeFinds(info, n, gap, Idx3(x, y, z + 1));
  }

  /** The arithmetic of one step of `ConcatCount`. */
  lemma CountStep(k: nat, a: nat, b: nat, s: nat, below: nat)
    requires k > 0
    ensures (k - 1) * a + b * below + (a + b * s) == k * a + b * (below + s)
  {
    MulSucc(k - 1, a);
  }

  /** Pieces of length `a`, plus `b` more for every index with a neighbour above,
      join to `k*a + b*min(k, n-1)` lines. */
  lemma {:induction false} ConcatCount(f: nat -> seq<LineInfo>, k: nat, n: nat, a: nat, b: nat)
    requires k <= n
    requires forall i: nat :: i < n ==> |f(i)| == a + b * Step(n, i)
    ensures |Concat(f, k)| == k * a + b * Below(n, k)
  {
    if k > 0 {
      ConcatCount(f, k - 1, n, a, b);
      assert |f(k - 1)| == a + b * Step(n, k - 1);
      CountStep(k, a, b, Step(n, k - 1), Below(n, k - 1));
      assert Below(n, k) == Below(n, k - 1) + Step(n, k - 1);
    }
  }

  lemma PlaneArith(n: nat, s: nat, m: nat)
    ensures n * (n * s + m) + n * m == (n * m + n * m) + (n * n) * s
  {
    assert n * (n * s + m) == n * (n * s) + n * m;
  }

  lemma TotalArith(n: nat, m: nat)
    ensures n * (n * m + n * m) + (n * n) * m == 3 * (n * n * m)
  {
    assert n * (n * m + n * m) == 2 * (n * (n * m));
  }

  /** Every index inside the lattice gets one line per neighbour above it. */
  ghost predicate Degrees(info: seq<PointInfo>, n: nat) {
    forall x: nat, y: nat, z: nat {:trigger PointEdges(info, n, x, y, z)} ::
      x < n && y < n && z < n ==> |PointEdges(info, n, x, y, z)| == Step(n, x) + Step(n, y) + Step(n, z)
  }

  lemma LatticeDegrees(info: seq<PointInfo>, n: nat, gap: real)
    requires IsLattice(info, n, gap)
    ensures Degrees(info, n)
  {
    forall x: nat, y: nat, z: nat | x < n && y < n && z < n
      ensures |PointEdges(info, n, x, y, z)| == Step(n, x) + Step(n, y) + Step(n, z)
    {
      PointEdgesCount(info, n, gap, x, y, z);
    }
  }

  lemma Distribute(n: nat, a: nat, b: nat)
    ensures n * (a + b) == n * a + n * b
  {
  }

  /** A row (x, y, _) of the lattice has one line per z, plus one per neighbour above in x and y. */
  lemma RowCount(info: seq<PointInfo>, n: nat, x: nat, y: nat)
    requires Degrees(info, n) && x < n && y < n
    ensures |Concat(RowOf(AddedBy(info, n), x, y), n)| == (n * Step(n, x) + Below(n, n)) + n * Step(n, y)
  {
    var row := RowOf(AddedBy(info, n), x, y);
    forall z: nat | z < n
      ensures |row(z)| == (Step(n, x) + Step(n, y)) + 1 * Step(n, z)
    {
      assert row(z) == PointEdges(info, n, x, y, z);
    }
    ConcatCount(row, n, n, Step(n, x) + Step(n, y), 1);
    Distribute(n, Step(n, x), Step(n, y));
  }

  /** A plane x of the lattice has `2*n*(n-1)` lines inside it, plus `n*n` towards x+1 if any. */
  lemma PlaneCount(info: seq<PointInfo>, n: nat, x: nat)
    requires Degrees(info, n) && x < n
    ensures |Concat(PlaneOf(AddedBy(info, n), n, x), n)|
            == (n * Below(n, n) + n * Below(n, n)) + (n * n) * Step(n, x)
  {
    var plane := PlaneOf(AddedBy(info, n), n, x);
    var m := Below(n, n);
    forall y: nat | y < n
      ensures |plane(y)| == (n * Step(n, x) + m) + n * Step(n, y)
    {
      RowCount(info, n, x, y);
    }
    ConcatCount(plane, n, n, n * Step(n, x) + m, n);
    PlaneArith(n, Step(n, x), m);
  }

  /** The lattice's wireframe has `3*n*n*(n-1)` lines: `n*n*(n-1)` along each axis. */
  lemma EdgeCount(info: seq<PointInfo>, n: nat, gap: real)
    requires IsLattice(info, n, gap)
    ensures |Wireframe(info, n)| == 3 * (n * n * Below(n, n))
  {
    var all := LatticeOf(AddedBy(info, n), n);
    var m := Below(n, n);
    LatticeDegrees(info, n, gap);
    forall x: nat | x < n
      ensures |all(x)| == (n * m + n * m) + (n * n) * Step(n, x)
    {
      PlaneCount(info, n, x);
    }
    ConcatCount(all, n, n, n * m + n * m, n * n);
    TotalArith(n, m);
  }

  /** The six coordinates of a line: the start position, then the end position. */
  function Block(a: PointInfo, b: PointInfo): seq<real> {
    [a.position.x, a.position.y, a.position.z, b.position.x, b.position.y, b.position.z]
  }

  /** What one line contributes to `vertices`: nothing unless both ends are found. */
  function LineFloats(info: seq<PointInfo>, l: LineInfo): seq<real> {
    match (Find(info, l.from), Find(info, l.to))
    case (Some(a), Some(b)) => Block(a, b)
    case _ => []
  }

  /** The pieces `g(l)` for the lines `l` of `lines`, joined in order. */
  function Joined(g: LineInfo -> seq<real>, lines: seq<LineInfo>): seq<real> {
    if |lines| == 0 then [] else Joined(g, lines[..|lines| - 1]) + g(lines[|lines| - 1])
  }

  /** The vertex list built from `lines`, in order. */
  function EdgeVertices(info: seq<PointInfo>, lines: seq<LineInfo>): seq<real> {
    Joined(l => LineFloats(info, l), lines)
  }

  /** A well-formed line adds its six coordinates. */
  lemma LineFloatsSix(info: seq<PointInfo>, l: LineInfo)
    requires LineOk(info, l)
    ensures |LineFloats(info, l)| == 6
  {
  }

  /** Pieces of six join to six per line, and line `i` sits at `6*i` to `6*i+5`. */
  lemma {:induction false} JoinedBlocks(g: LineInfo -> seq<real>, lines: seq<LineInfo>, i: nat)
    requires forall j :: 0 <= j < |lines| ==> |g(lines[j])| == 6
    requires i < |lines|
    ensures |Joined(g, lines)| == 6 * |lines|
    ensures Joined(g, lines)[6 * i..6 * i + 6] == g(lines[i])
    decreases |lines|
  {
    var k := |lines| - 1;
    var init := lines[..k];
    assert forall j :: 0 <= j < |init| ==> init[j] == lines[j];
    var head := Joined(g, init);
    if k == 0 {
      assert head == [];
    } else if i < k {
      JoinedBlocks(g, init, i);
    } else {
      JoinedBlocks(g, init, 0);
    }
    assert |g(lines[k])| == 6;
    assert Joined(g, lines) == head + g(lines[k]);
  }

  /** Of well-formed lines, each adds exactly six coordinates, and line `i` sits at
      `6*i` to `6*i+5` of the vertex list. */
  lemma VertexBlock(info: seq<PointInfo>, lines: seq<LineInfo>, i: nat)
    requires WellFormed(info, lines) && i < |lines|
    ensures |EdgeVertices(info, lines)| == 6 * |lines|
    ensures EdgeVertices(info, lines)[6 * i..6 * i + 6] == LineFloats(info, lines[i])
  {
    var g := l => LineFloats(info, l);
    forall j | 0 <= j < |lines|
      ensures |g(lines[j])| == 6
    {
      LineFloatsSix(info, lines[j]);
    }
    JoinedBlocks(g, lines, i);
  }

  /** On the lattice a line between in-range indices is drawn between their positions. */
  lemma LatticeLineFloats(info: seq<PointInfo>, n: nat, gap: real, l: LineInfo)
    requires IsLattice(info, n, gap) && InLattice(n, l.from) && InLattice(n, l.to)
    ensures LineFloats(info, l) == Block(EntryAt(n, gap, l.from), EntryAt(n, gap, l.to))
  {
    LatticeFinds(info, n, gap, l.from);
    LatticeFinds(info, n, gap, l.to);
  }

  /** The wireframe object: its lines and the vertex list they give. */
  class Lines {
    const point: Points
    var info: seq<LineInfo>
    var vertices: seq<real>

    /** Visits every lattice index in x-major order, then lists both ends of each line. */
    constructor(point: Points)
      ensures this.point == point
      ensures info == Wireframe(point.info, point.pointNumber)
      ensures vertices == EdgeVertices(point.info, info)
    {
      this.point := point;
      info := [];
      vertices := [];
      new;
      AddedByEdges(point.info, point.pointNumber);
      AddAll(AddedBy(point.info, point.pointNumber));
      vertices := Vertices(point, info);
    }

    /** The outer loop over x. */
    method AddAll(ghost edges: (nat, nat, nat) -> seq<LineInfo>)
      requires EdgesOf(edges, point.info, point.pointNumber)
      modifies this
      ensures info == old(info) + Concat(LatticeOf(edges, point.pointNumber), point.pointNumber)
      ensures vertices == old(vertices)
    {
      var n := point.pointNumber;
      ghost var start := info;
      var x := 0;
      while x < n
        invariant x <= n && info == start + Concat(LatticeOf(edges, n), x)
        invariant vertices == old(vertices)
      {
        AddPlane(x, edges);
        x := x + 1;
      }
    }

    /** The middle loop over y for one x. */
    method AddPlane(x: nat, ghost edges: (nat, nat, nat) -> seq<LineInfo>)
      requires EdgesOf(edges, point.info, point.pointNumber)
      modifies this
      ensures info == old(info) + Concat(PlaneOf(edges, point.pointNumber, x), point.pointNumber)
      ensures vertices == old(vertices)
    {
      var n := point.pointNumber;
      ghost var start := info;
      var y := 0;
      while y < n
        invariant y <= n && info == start + Concat(PlaneOf(edges, n, x), y)
        invariant vertices == old(vertices)
      {
        AddRow(x, y, edges);
        y := y + 1;
      }
    }

    /** The inner loop over z for one x and y. */
    method AddRow(x: nat, y: nat, ghost edges: (nat, nat, nat) -> seq<LineInfo>)
      requires EdgesOf(edges, point.info, point.pointNumber)
      modifies this
      ensures info == old(info) + Concat(RowOf(edges, x, y), point.pointNumber)
      ensures vertices == old(vertices)
    {
      var n := point.pointNumber;
      ghost var start := info;
      var z := 0;
      while z < n
        invariant z <= n && info == start + Concat(RowOf(edges, x, y), z)
        invariant vertices == old(vertices)
      {
        AddLineInfo(x, y, z, edges);
        z := z + 1;
      }
    }

    /** `addLineInfo`: appends the lines from (x, y, z) to its existing +x, +y, +z neighbours. */
    method AddLineInfo(x: nat, y: nat, z: nat, ghost edges: (nat, nat, nat) -> seq<LineInfo>)
      requires EdgesOf(edges, point.info, point.pointNumber)
      modifies this
      ensures info == old(info) + edges(x, y, z)
      ensures vertices == old(vertices)
    {
      var n := point.pointNumber;
      assert edges(x, y, z) == PointEdges(point.info, n, x, y, z);
      var current := point.GetPoint(Idx3(x, y, z));
      if current.None? {
        return;
      }
      var cur := current.value;
      if x + 1 < n {
        var toPoint := point.GetPoint(Idx3(x + 1, y, z));
        if toPoint.Some? {
          info := info + [LineInfo(cur.index, toPoint.value.index)];
        }
      }
      if y + 1 < n {
        var toPoint := point.GetPoint(Idx3(x, y + 1, z));
        if toPoint.Some? {
          info := info + [LineInfo(cur.index, toPoint.value.index)];
        }
      }
      if z + 1 < n {
        var toPoint := point.GetPoint(Idx3(x, y, z + 1));
        if toPoint.Some? {
          info := info + [LineInfo(cur.index, toPoint.value.index)];
        }
      }
    }

    /** The vertex loop of the constructor: both ends of every line whose ends are found. */
    static method Vertices(point: Points, lines: seq<LineInfo>) returns (verts: seq<real>)
      ensures verts == EdgeVertices(point.info, lines)
    {
      verts := [];
      var i := 0;
      while i < |lines|
        invariant i <= |lines| && verts == EdgeVertices(point.info, lines[..i])
      {
        assert lines[..i + 1][..i] == lines[..i];
        var fromPoint := point.GetPoint(lines[i].from);
        var toPoint := point.GetPoint(lines[i].to);
        if fromPoint.Some? && toPoint.Some? {
          verts := verts + Block(fromPoint.value, toPoint.value);
        }
        i := i + 1;
      }
      assert lines[..i] == lines;
    }
  }
}
