/** The 3D control lattice: `n` points per axis, `gap` apart, centred on the
    origin, stored in one list in x-major order. */
module LatticePoints {
  import opened Common

  /** Integer lattice coordinates of a point. */
  datatype Idx3 = Idx3(x: int, y: int, z: int)

  /** One lattice entry: its integer index and its position in space. */
  datatype PointInfo = PointInfo(index: Idx3, position: Vec3)

  predicate InLattice(n: nat, idx: Idx3) {
    0 <= idx.x < n && 0 <= idx.y < n && 0 <= idx.z < n
  }

  /** The first coordinate along every axis, `-(gap*(n-1)/2)`. */
  function Start(n: nat, gap: real): real {
    -(gap * (n as real - 1.0) / 2.0)
  }

  /** Position along an axis of lattice index `i`. */
  function Coord(n: nat, gap: real, i: int): real {
    Start(n, gap) + i as real * gap
  }

  /** The entry the constructor creates for index `idx`. */
  function EntryAt(n: nat, gap: real, idx: Idx3): PointInfo {
    PointInfo(idx, Vec3(Coord(n, gap, idx.x), Coord(n, gap, idx.y), Coord(n, gap, idx.z)))
  }

  /** Flat position of `idx` in x-major order: `x*n*n + y*n + z`. */
  function Flat(n: nat, idx: Idx3): int {
    idx.x * (n * n) + (idx.y * n + idx.z)
  }

  /** `info` is the lattice: `n*n*n` entries, the entry at `Flat(idx)` has index `idx`
      and its position, and every entry is one of these. */
  ghost predicate IsLattice(info: seq<PointInfo>, n: nat, gap: real) {
    && |info| == n * (n * n)
    && (forall idx :: InLattice(n, idx) ==>
          0 <= Flat(n, idx) < |info| && info[Flat(n, idx)] == EntryAt(n, gap, idx))
    && (forall j :: 0 <= j < |info| ==>
          InLattice(n, info[j].index) && info[j] == EntryAt(n, gap, info[j].index))
  }

  /** The lattice is centred: mirrored indices have opposite coordinates. */
  lemma Centred(n: nat, gap: real, i: nat)
    requires i < n
    ensures Coord(n, gap, i) == -Coord(n, gap, n - 1 - i)
  {
    assert i as real * gap + (n - 1 - i) as real * gap == (n as real - 1.0) * gap;
  }

  /** Position of the first entry from `s` on whose index is `idx`, or `|info|`. */
  function FirstFrom(info: seq<PointInfo>, idx: Idx3, s: nat): (i: nat)
    requires s <= |info|
    ensures s <= i <= |info|
    ensures i < |info| ==> info[i].index == idx
    decreases |info| - s
  {
    if s == |info| then s
    else if info[s].index == idx then s
    else FirstFrom(info, idx, s + 1)
  }

  /** No entry between `s` and `FirstFrom(info, idx, s)` has index `idx`. */
  lemma {:induction false} FirstFromSkips(info: seq<PointInfo>, idx: Idx3, s: nat)
    requires s <= |info|
    ensures forall j :: s <= j < FirstFrom(info, idx, s) ==> info[j].index != idx
    decreases |info| - s
  {
    if s < |info| && info[s].index != idx {
      FirstFromSkips(info, idx, s + 1);
    }
  }

  /** `getPoint`: the first entry whose index equals `idx`, if any. */
  function Find(info: seq<PointInfo>, idx: Idx3): Option<PointInfo> {
    var i := FirstFrom(info, idx, 0);
    if i < |info| then Some(info[i]) else None
  }

  /** `Find` succeeds exactly when some entry has index `idx`, and then returns the
      first such entry. */
  lemma FindSpec(info: seq<PointInfo>, idx: Idx3)
    ensures Find(info, idx).Some? <==> exists i :: 0 <= i < |info| && info[i].index == idx
    ensures Find(info, idx).Some? ==>
              exists i :: 0 <= i < |info| && info[i] == Find(info, idx).value
                          && info[i].index == idx
                          && forall j :: 0 <= j < i ==> info[j].index != idx
  {
    var i := FirstFrom(info, idx, 0);
    FirstFromSkips(info, idx, 0);
    if i < |info| {
      assert info[i] == Find(info, idx).value;
    }
  }

  /** In the lattice every index in range is found, with its own entry, and no other. */
  lemma LatticeFinds(info: seq<PointInfo>, n: nat, gap: real, idx: Idx3)
    requires IsLattice(info, n, gap)
    ensures Find(info, idx).Some? <==> InLattice(n, idx)
    ensures InLattice(n, idx) ==> Find(info, idx) == Some(EntryAt(n, gap, idx))
  {
    FindSpec(info, idx);
    var r := Find(info, idx);
    if r.Some? {
      var g :| 0 <= g < |info| && info[g] == r.value && info[g].index == idx;
    }
    if InLattice(n, idx) {
      assert info[Flat(n, idx)].index == idx;
    }
  }

  /** `LatticeFinds` for a list that may or may not be the lattice. */
  lemma LatticeFindsWhenBuilt(info: seq<PointInfo>, n: nat, gap: real, idx: Idx3)
    ensures IsLattice(info, n, gap) ==> (Find(info, idx).Some? <==> InLattice(n, idx))
    ensures IsLattice(info, n, gap) && InLattice(n, idx) ==> Find(info, idx) == Some(EntryAt(n, gap, idx))
  {
    if IsLattice(info, n, gap) {
      LatticeFinds(info, n, gap, idx);
    }
  }

  /** Lexicographic (x, y, z) order: the order the constructor visits indices in. */
  predicate Before(a: Idx3, b: Idx3) {
    a.x < b.x || (a.x == b.x && (a.y < b.y || (a.y == b.y && a.z < b.z)))
  }

  /** `acc` holds exactly the lattice entries visited before `upto`, each at its flat position. */
  ghost predicate Filled(acc: seq<PointInfo>, n: nat, gap: real, upto: Idx3) {
    && (forall idx :: InLattice(n, idx) && Before(idx, upto) ==>
          0 <= Flat(n, idx) < |acc| && acc[Flat(n, idx)] == EntryAt(n, gap, idx))
    && (forall j :: 0 <= j < |acc| ==>
          InLattice(n, acc[j].index) && acc[j] == EntryAt(n, gap, acc[j].index))
  }

  /** Appending the entry of `(x, y, z)` extends the filled prefix by that index. */
  lemma FilledSnoc(acc: seq<PointInfo>, n: nat, gap: real, x: nat, y: nat, z: nat)
    requires x < n && y < n && z < n
    requires |acc| == Flat(n, Idx3(x, y, z)) && Filled(acc, n, gap, Idx3(x, y, z))
    ensures |acc + [EntryAt(n, gap, Idx3(x, y, z))]| == Flat(n, Idx3(x, y, z + 1))
    ensures Filled(acc + [EntryAt(n, gap, Idx3(x, y, z))], n, gap, Idx3(x, y, z + 1))
  {
    var r := acc + [EntryAt(n, gap, Idx3(x, y, z))];
    forall idx | InLattice(n, idx) && Before(idx, Idx3(x, y, z + 1))
      ensures 0 <= Flat(n, idx) < |r| && r[Flat(n, idx)] == EntryAt(n, gap, idx)
    {
      if idx != Idx3(x, y, z) {
        assert Before(idx, Idx3(x, y, z));
      }
    }
    forall j | 0 <= j < |r|
      ensures InLattice(n, r[j].index) && r[j] == EntryAt(n, gap, r[j].index)
    {
      if j < |acc| {
        assert r[j] == acc[j];
      }
    }
  }

  /** The lattice object (`Points`): its size, spacing and entries. */
  class Points {
    const pointNumber: nat
    const gap: real
    var info: seq<PointInfo>

    /** Fills `info` in a triple loop over x, y and z. */
    constructor(pointNumber: nat, gap: real)
      ensures this.pointNumber == pointNumber && this.gap == gap
      ensures IsLattice(info, pointNumber, gap)
    {
      var n := pointNumber;
      var pStart := -(gap * (n as real - 1.0) / 2.0);
      var acc: seq<PointInfo> := [];
      var x := 0;
      while x < n
        invariant x <= n && |acc| == Flat(n, Idx3(x, 0, 0)) && Filled(acc, n, gap, Idx3(x, 0, 0))
      {
        acc := PushPlane(acc, n, gap, pStart, x);
        MulSucc(x, n * n);
        x := x + 1;
      }
      this.pointNumber := pointNumber;
      this.gap := gap;
      info := acc;
    }

    /** The middle loop of the constructor: one row per y. */
    static method PushPlane(acc: seq<PointInfo>, n: nat, gap: real, pStart: real, x: nat)
      returns (r: seq<PointInfo>)
      requires x < n && pStart == Start(n, gap)
      requires |acc| == Flat(n, Idx3(x, 0, 0)) && Filled(acc, n, gap, Idx3(x, 0, 0))
      ensures |r| == Flat(n, Idx3(x, n, 0)) && Filled(r, n, gap, Idx3(x + 1, 0, 0))
    {
      r := acc;
      var y := 0;
      while y < n
        invariant y <= n && |r| == Flat(n, Idx3(x, y, 0)) && Filled(r, n, gap, Idx3(x, y, 0))
      {
        r := PushRow(r, n, gap, pStart, x, y);
        MulSucc(y, n);
        y := y + 1;
      }
    }

    /** The innermost loop of the constructor: one entry per z. */
    static method PushRow(acc: seq<PointInfo>, n: nat, gap: real, pStart: real, x: nat, y: nat)
      returns (r: seq<PointInfo>)
      requires x < n && y < n && pStart == Start(n, gap)
      requires |acc| == Flat(n, Idx3(x, y, 0)) && Filled(acc, n, gap, Idx3(x, y, 0))
      ensures |r| == Flat(n, Idx3(x, y, n)) && Filled(r, n, gap, Idx3(x, y + 1, 0))
    {
      r := acc;
      var z := 0;
      while z < n
        invariant z <= n && |r| == Flat(n, Idx3(x, y, z)) && Filled(r, n, gap, Idx3(x, y, z))
      {
        var p := PointInfo(Idx3(x, y, z), Vec3(pStart + x as real * gap,
                                               pStart + y as real * gap,
                                               pStart + z as real * gap));
        assert p == EntryAt(n, gap, Idx3(x, y, z));
        FilledSnoc(r, n, gap, x, y, z);
        r := r + [p];
        z := z + 1;
      }
    }

    /** `getPoint` on the lattice the constructor built: the entry of `idx`
        when `idx` is in range, and nothing otherwise. */
    function GetPoint(idx: Idx3): (r: Option<PointInfo>)
      reads this
      ensures IsLattice(info, pointNumber, gap) ==> (r.Some? <==> InLattice(pointNumber, idx))
      ensures IsLattice(info, pointNumber, gap) && InLattice(pointNumber, idx) ==>
                r == Some(EntryAt(pointNumber, gap, idx))
    {
      LatticeFindsWhenBuilt(info, pointNumber, gap, idx);
      Find(info, idx)
    }
  }
}
