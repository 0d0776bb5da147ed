/** The picking helpers of the 3D viewer: screen to normalised device coordinates,
    the slab test of a ray against an axis-aligned box, and the intersection of a ray
    with a horizontal plane. Coordinates are reals; the infinities and NaN that
    JavaScript's `1 / 0` produces in the slab test are kept as extended reals. */
module Mouse {
  import opened Common

  /** `screenToNdc`: `x` grows to the right from -1 to 1, `y` is flipped so that the top
      row of the canvas is 1. */
  function ScreenToNdc(x: real, y: real, width: real, height: real): (r: (real, real))
    requires width != 0.0 && height != 0.0
    ensures r.0 == 2.0 * x / width - 1.0 && r.1 == 1.0 - 2.0 * y / height
  {
    (2.0 * x / width - 1.0, 1.0 - 2.0 * y / height)
  }

  /** The corners of the canvas go to the corners of the device square, with the y axis
      flipped: the top-left pixel to (-1, 1), the bottom-right to (1, -1), the centre to 0. */
  lemma NdcCorners(width: real, height: real)
    requires width != 0.0 && height != 0.0
    ensures ScreenToNdc(0.0, 0.0, width, height) == (-1.0, 1.0)
    ensures ScreenToNdc(width, height, width, height) == (1.0, -1.0)
    ensures ScreenToNdc(width / 2.0, height / 2.0, width, height) == (0.0, 0.0)
  {
    assert 2.0 * width / width == 2.0;
    assert 2.0 * height / height == 2.0;
    assert 2.0 * (width / 2.0) / width == 1.0;
    assert 2.0 * (height / 2.0) / height == 1.0;
  }

  // ---------------------------------------------------------------------------
  // Extended reals with the IEEE rules the slab test meets.

  datatype Ext = NegInf | Fin(v: real) | PosInf | NaN

  /** `1 / d`; a zero direction component gives `Infinity`. */
  function Recip(d: real): Ext {
    if d == 0.0 then PosInf else Fin(1.0 / d)
  }

  /** `a * e` for a finite `a`: an infinity keeps or flips its sign, `0 * Infinity` is NaN. */
  function Times(a: real, e: Ext): Ext {
    match e
    case Fin(v) => Fin(a * v)
    case PosInf => if a > 0.0 then PosInf else if a < 0.0 then NegInf else NaN
    case NegInf => if a > 0.0 then NegInf else if a < 0.0 then PosInf else NaN
    case NaN => NaN
  }

  /** The order `<` of IEEE numbers; any comparison with NaN is false. */
  predicate Less(a: Ext, b: Ext) {
    match (a, b)
    case (Fin(x), Fin(y)) => x < y
    case (NegInf, Fin(_)) => true
    case (NegInf, PosInf) => true
    case (Fin(_), PosInf) => true
    case _ => false
  }

  /** `Math.max`: NaN if either operand is NaN, otherwise the larger. */
  function Max(a: Ext, b: Ext): Ext {
    if a.NaN? || b.NaN? then NaN else if Less(a, b) then b else a
  }

  /** `Math.min`: NaN if either operand is NaN, otherwise the smaller. */
  function Min(a: Ext, b: Ext): Ext {
    if a.NaN? || b.NaN? then NaN else if Less(b, a) then b else a
  }

  function Coord(v: Vec3, i: nat): real
    requires i < 3
  {
    if i == 0 then v.x else if i == 1 then v.y else v.z
  }

  /** The entry and exit parameters of the ray through the slab of axis `i`, swapped
      when the inverse direction is negative. */
  function Slab(origin: Vec3, dir: Vec3, lo: Vec3, hi: Vec3, i: nat): (Ext, Ext)
    requires i < 3
  {
    var invD := Recip(Coord(dir, i));
    var t0 := Times(Coord(lo, i) - Coord(origin, i), invD);
    var t1 := Times(Coord(hi, i) - Coord(origin, i), invD);
    if Less(invD, Fin(0.0)) then (t1, t0) else (t0, t1)
  }

  /** The loop state after the axes below `k`: `None` once the test has returned false,
      otherwise `(tmin, tmax)`. */
  function Sweep(origin: Vec3, dir: Vec3, lo: Vec3, hi: Vec3, k: nat): Option<(Ext, Ext)>
    requires k <= 3
  {
    if k == 0 then Some((NegInf, PosInf))
    else
      var prev := Sweep(origin, dir, lo, hi, k - 1);
      if prev.None? then None
      else
        var slab := Slab(origin, dir, lo, hi, k - 1);
        var tmin := Max(prev.value.0, slab.0);
        var tmax := Min(prev.value.1, slab.1);
        if Less(tmax, tmin) then None else Some((tmin, tmax))
  }

  /** The body of the loop up to the narrowing: the two plane parameters of axis `i`,
      swapped when the inverse direction is negative. */
  method SlabParams(origin: Vec3, dir: Vec3, lo: Vec3, hi: Vec3, i: nat) returns (t0: Ext, t1: Ext)
    requires i < 3
    ensures t0 == Slab(origin, dir, lo, hi, i).0 && t1 == Slab(origin, dir, lo, hi, i).1
  {
    var invD := Recip(Coord(dir, i));
    t0 := Times(Coord(lo, i) - Coord(origin, i), invD);
    t1 := Times(Coord(hi, i) - Coord(origin, i), invD);
    if Less(invD, Fin(0.0)) {
      t0, t1 := t1, t0;
    }
  }

  /** `intersectRayAabb`: for each axis in turn, narrow `[tmin, tmax]` to the slab and
      return false as soon as it is empty. */
  method IntersectRayAabb(origin: Vec3, dir: Vec3, lo: Vec3, hi: Vec3) returns (hit: bool)
    ensures hit <==> Sweep(origin, dir, lo, hi, 3).Some?
  {
    var tmin, tmax := NegInf, PosInf;
    for i := 0 to 3
      invariant Sweep(origin, dir, lo, hi, i) == Some((tmin, tmax))
    {
      var t0, t1 := SlabParams(origin, dir, lo, hi, i);
      tmin := Max(tmin, t0);
      tmax := Min(tmax, t1);
      if Less(tmax, tmin) {
        SweepStopped(origin, dir, lo, hi, i + 1);
        return false;
      }
    }
    return true;
  }

  /** Once the test has returned false, later axes do not revive it. */
  lemma {:induction false} SweepStopped(origin: Vec3, dir: Vec3, lo: Vec3, hi: Vec3, k: nat)
    requires k <= 3 && Sweep(origin, dir, lo, hi, k).None?
    ensures Sweep(origin, dir, lo, hi, 3).None?
    decreases 3 - k
  {
    if k < 3 {
      SweepStopped(origin, dir, lo, hi, k + 1);
    }
  }

  // ---------------------------------------------------------------------------
  // The slab test on a ray with no zero direction component.

  predicate Finite(dir: Vec3) {
    dir.x != 0.0 && dir.y != 0.0 && dir.z != 0.0
  }

  /** The point at parameter `t` lies between the two planes of axis `i`. */
  predicate InSlab(origin: Vec3, dir: Vec3, lo: Vec3, hi: Vec3, i: nat, t: real)
    requires i < 3
  {
    Coord(lo, i) <= Coord(origin, i) + t * Coord(dir, i) <= Coord(hi, i)
  }

  /** The point at parameter `t` lies in the slabs of every axis below `k`. */
  predicate AllSlabs(origin: Vec3, dir: Vec3, lo: Vec3, hi: Vec3, k: nat, t: real)
    requires k <= 3
  {
    forall i :: 0 <= i < k ==> InSlab(origin, dir, lo, hi, i, t)
  }

  /** Dividing `a <= t * d <= b` through by a nonzero `d`, flipping the bounds when
      `d` is negative. */
  lemma ScaleBetween(a: real, b: real, d: real, t: real)
    requires d != 0.0
    ensures d > 0.0 ==> (a <= t * d <= b <==> a * (1.0 / d) <= t <= b * (1.0 / d))
    ensures d < 0.0 ==> (a <= t * d <= b <==> b * (1.0 / d) <= t <= a * (1.0 / d))
  {
    assert (1.0 / d) * d == 1.0;
    if d > 0.0 {
      assert a <= t * d <==> a * (1.0 / d) <= t;
      assert t * d <= b <==> t <= b * (1.0 / d);
    } else {
      assert a <= t * d <==> t <= a * (1.0 / d);
      assert t * d <= b <==> b * (1.0 / d) <= t;
    }
  }

  /** Scaling by `1 / d` keeps the order of `a <= b` for a positive `d` and reverses it
      for a negative one. */
  lemma ScaleOrder(a: real, b: real, d: real)
    requires d != 0.0 && a <= b
    ensures d > 0.0 ==> a * (1.0 / d) <= b * (1.0 / d)
    ensures d < 0.0 ==> b * (1.0 / d) <= a * (1.0 / d)
  {
    if d > 0.0 {
      assert 1.0 / d > 0.0;
    } else {
      assert 1.0 / d < 0.0;
    }
  }

  /** The finite ends of the slab `a <= t * d <= b` for a nonzero `d`. */
  function SlabEnds(a: real, b: real, d: real): (real, real)
    requires d != 0.0
  {
    if d < 0.0 then (b * (1.0 / d), a * (1.0 / d)) else (a * (1.0 / d), b * (1.0 / d))
  }

  /** `SlabEnds` bounds exactly the parameters of the slab. */
  lemma SlabEndsExact(a: real, b: real, d: real, t: real)
    requires d != 0.0
    ensures a <= t * d <= b <==> SlabEnds(a, b, d).0 <= t <= SlabEnds(a, b, d).1
  {
    ScaleBetween(a, b, d, t);
  }

  /** `SlabEnds` is ordered when `a <= b`. */
  lemma SlabEndsOrdered(a: real, b: real, d: real)
    requires d != 0.0 && a <= b
    ensures SlabEnds(a, b, d).0 <= SlabEnds(a, b, d).1
  {
    ScaleOrder(a, b, d);
  }

  /** With a nonzero direction component the IEEE slab is the finite `SlabEnds`. */
  lemma SlabIsFinite(origin: Vec3, dir: Vec3, lo: Vec3, hi: Vec3, i: nat)
    requires i < 3 && Coord(dir, i) != 0.0
    ensures var ends := SlabEnds(Coord(lo, i) - Coord(origin, i), Coord(hi, i) - Coord(origin, i), Coord(dir, i));
            Slab(origin, dir, lo, hi, i).0 == Fin(ends.0) && Slab(origin, dir, lo, hi, i).1 == Fin(ends.1)
  {
    var d := Coord(dir, i);
    var e := 1.0 / d;
    assert d < 0.0 <==> e < 0.0 by {
      assert e * d == 1.0;
    }
    var a, b := Coord(lo, i) - Coord(origin, i), Coord(hi, i) - Coord(origin, i);
    assert Recip(d) == Fin(e);
    assert Times(a, Fin(e)) == Fin(a * e) && Times(b, Fin(e)) == Fin(b * e);
    assert Less(Fin(e), Fin(0.0)) <==> d < 0.0;
  }

  /** With a nonzero direction, the swapped slab is a finite interval `[t0, t1]` holding
      exactly the parameters whose point lies in the slab. */
  lemma SlabInterval(origin: Vec3, dir: Vec3, lo: Vec3, hi: Vec3, i: nat)
    requires i < 3 && Coord(dir, i) != 0.0
    ensures Slab(origin, dir, lo, hi, i).0.Fin? && Slab(origin, dir, lo, hi, i).1.Fin?
    ensures forall t :: InSlab(origin, dir, lo, hi, i, t) <==>
              Slab(origin, dir, lo, hi, i).0.v <= t <= Slab(origin, dir, lo, hi, i).1.v
    ensures Coord(lo, i) <= Coord(hi, i) ==> Slab(origin, dir, lo, hi, i).0.v <= Slab(origin, dir, lo, hi, i).1.v
  {
    var o := Coord(origin, i);
    var a, b, d := Coord(lo, i) - o, Coord(hi, i) - o, Coord(dir, i);
    SlabIsFinite(origin, dir, lo, hi, i);
    forall t ensures InSlab(origin, dir, lo, hi, i, t) <==> SlabEnds(a, b, d).0 <= t <= SlabEnds(a, b, d).1 {
      SlabEndsExact(a, b, d, t);
    }
    if a <= b {
      SlabEndsOrdered(a, b, d);
    }
  }

  /** For a ray with no zero direction component, `tmin` only grows and `tmax` only
      shrinks: after `k` axes the state is the intersection of the first `k` slabs, and it
      is there exactly when some parameter lies in all of them. */
  lemma {:induction false} SweepIsIntersection(origin: Vec3, dir: Vec3, lo: Vec3, hi: Vec3, k: nat)
    requires k <= 3 && Finite(dir)
    ensures Sweep(origin, dir, lo, hi, k).Some? <==>
              k == 0 || exists t :: AllSlabs(origin, dir, lo, hi, k, t)
    ensures Sweep(origin, dir, lo, hi, k).Some? && k > 0 ==>
              var range := Sweep(origin, dir, lo, hi, k).value;
              range.0.Fin? && range.1.Fin? && range.0.v <= range.1.v &&
              forall t :: (range.0.v <= t <= range.1.v <==> AllSlabs(origin, dir, lo, hi, k, t))
  {
    if k > 0 {
      SweepIsIntersection(origin, dir, lo, hi, k - 1);
      SlabInterval(origin, dir, lo, hi, k - 1);
      var prev := Sweep(origin, dir, lo, hi, k - 1);
      var slab := Slab(origin, dir, lo, hi, k - 1);
      forall t ensures AllSlabs(origin, dir, lo, hi, k, t) <==>
                       (k == 1 || AllSlabs(origin, dir, lo, hi, k - 1, t)) && InSlab(origin, dir, lo, hi, k - 1, t)
      {
      }
      if prev.Some? {
        var range := prev.value;
        var tmin := Max(range.0, slab.0);
        var tmax := Min(range.1, slab.1);
        assert tmin.Fin? && tmax.Fin?;
        assert tmin.v == if k == 1 || range.0.v < slab.0.v then slab.0.v else range.0.v;
        assert tmax.v == if k == 1 || slab.1.v < range.1.v then slab.1.v else range.1.v;
        assert forall t :: tmin.v <= t <= tmax.v <==> AllSlabs(origin, dir, lo, hi, k, t);
        if !Less(tmax, tmin) {
          assert AllSlabs(origin, dir, lo, hi, k, tmin.v);
        }
      }
    }
  }

  /** The slab test is exact for a ray with no zero direction component: it reports a hit
      exactly when the line of the ray (either side of the origin) meets the box. */
  lemma RayAabbMeetsBox(origin: Vec3, dir: Vec3, lo: Vec3, hi: Vec3)
    requires Finite(dir)
    ensures Sweep(origin, dir, lo, hi, 3).Some? <==>
              exists t :: AllSlabs(origin, dir, lo, hi, 3, t)
  {
    SweepIsIntersection(origin, dir, lo, hi, 3);
  }

  /** One axis of the sweep, from the state before it and the slab of that axis. */
  lemma SweepNext(origin: Vec3, dir: Vec3, lo: Vec3, hi: Vec3, k: nat, range: (Ext, Ext), slab: (Ext, Ext))
    requires 0 < k <= 3
    requires Sweep(origin, dir, lo, hi, k - 1) == Some(range) && Slab(origin, dir, lo, hi, k - 1) == slab
    ensures Less(Min(range.1, slab.1), Max(range.0, slab.0)) ==> Sweep(origin, dir, lo, hi, k).None?
    ensures !Less(Min(range.1, slab.1), Max(range.0, slab.0)) ==>
              Sweep(origin, dir, lo, hi, k) == Some((Max(range.0, slab.0), Min(range.1, slab.1)))
  {
  }

  /** A ray that runs parallel to the y planes (`dir.y == 0`, so `1 / dir.y` is `Infinity`)
      from above the box misses it: both y slab ends are `-Infinity`, and the interval
      left by the x axis empties there. */
  lemma ParallelAboveMisses(o: Vec3, d: Vec3, lo: Vec3, hi: Vec3)
    requires d.x != 0.0 && d.y == 0.0
    requires lo.y <= hi.y < o.y
    ensures Sweep(o, d, lo, hi, 3).None?
  {
    SlabInterval(o, d, lo, hi, 0);
    var first := Slab(o, d, lo, hi, 0);
    var one := Sweep(o, d, lo, hi, 1);
    if one.None? {
      SweepStopped(o, d, lo, hi, 1);
    } else {
      assert Sweep(o, d, lo, hi, 0) == Some((NegInf, PosInf));
      assert Max(NegInf, first.0) == first.0 && Min(PosInf, first.1) == first.1;
      assert one.value.0 == first.0 && one.value.1 == first.1;
      assert Recip(Coord(d, 1)) == PosInf;
      assert Slab(o, d, lo, hi, 1) == (NegInf, NegInf);
      assert Sweep(o, d, lo, hi, 2).None?;
      SweepStopped(o, d, lo, hi, 2);
    }
  }

  // ---------------------------------------------------------------------------
  // `intersectRayWithPlane`

  const ParallelEpsilon: real := 0.000001

  /** `intersectRayWithPlane`: nothing when the ray runs (nearly) parallel to the plane
      `y = planeY` or meets it behind the origin; otherwise `origin + t * dir`. */
  function IntersectRayWithPlane(origin: Vec3, dir: Vec3, planeY: real): (r: Option<Vec3>)
    ensures r.Some? <==> Abs(dir.y) >= ParallelEpsilon && (planeY - origin.y) / dir.y >= 0.0
    ensures r.Some? ==> r.value == origin.Plus(dir.Scale((planeY - origin.y) / dir.y))
  {
    if Abs(dir.y) < ParallelEpsilon then None
    else
      var t := (planeY - origin.y) / dir.y;
      if t < 0.0 then None else Some(origin.Plus(dir.Scale(t)))
  }

  /** The point returned lies on the plane and on the ray, in front of its origin. Conversely,
      a ray that is not nearly parallel and reaches the plane at a point in front of its
      origin gets that point back. */
  lemma PlaneHitOnPlane(origin: Vec3, dir: Vec3, planeY: real)
    ensures IntersectRayWithPlane(origin, dir, planeY).Some? ==>
              var p := IntersectRayWithPlane(origin, dir, planeY).value;
              p.y == planeY && exists t :: t >= 0.0 && p == origin.Plus(dir.Scale(t))
    ensures forall t :: t >= 0.0 && Abs(dir.y) >= ParallelEpsilon && origin.Plus(dir.Scale(t)).y == planeY ==>
              IntersectRayWithPlane(origin, dir, planeY) == Some(origin.Plus(dir.Scale(t)))
  {
    if Abs(dir.y) >= ParallelEpsilon {
      var t := (planeY - origin.y) / dir.y;
      assert t * dir.y == planeY - origin.y;
      forall s | s >= 0.0 && origin.Plus(dir.Scale(s)).y == planeY
        ensures IntersectRayWithPlane(origin, dir, planeY) == Some(origin.Plus(dir.Scale(s)))
      {
        assert s * dir.y == planeY - origin.y;
        assert s == t;
      }
    }
  }
}
