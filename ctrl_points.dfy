/** `CtrlPoints` of the first 2D demo: the lattice, its displaced copy, the
    per-point offsets, and the two float buffers drawn from them. */
module CtrlDraw {
  import opened Common
  import opened Config
  import opened Packing
  import CtrlGrid

  /** This demo's lattice: index `i * len + j` holds `(start.x + i * gap, start.y + j * gap)`,
      so the outer index runs along `x`. */
  function ColumnLatticeAt(start: Vec2, gap: real, len: nat, k: nat): Vec2
    requires len > 0
  {
    Vec2(start.x + (k / len) as real * gap, start.y + (k % len) as real * gap)
  }

  function ColumnLattice(start: Vec2, gap: real, len: nat): (r: seq<Vec2>)
    ensures |r| == len * len
  {
    seq(len * len, k requires 0 <= k < len * len => ColumnLatticeAt(start, gap, len, k))
  }

  /** Flat index `i * len + j` holds column `i` and row `j`. */
  lemma ColumnLatticeAtIndex(start: Vec2, gap: real, len: nat, i: nat, j: nat)
    requires i < len && j < len
    ensures ColumnLatticeAt(start, gap, len, i * len + j) == Vec2(start.x + i as real * gap, start.y + j as real * gap)
  {
    var k := i * len + j;
    DivModFlat(i, j, len);
    assert (k / len) as real == i as real && (k % len) as real == j as real;
  }

  /** Index `i * len + j` holds `(start.x + i * gap, start.y + j * gap)`; it is the
      other demo's lattice with the two indices swapped. */
  lemma ColumnLatticeIndex(start: Vec2, gap: real, len: nat, i: nat, j: nat)
    requires i < len && j < len
    ensures i * len + j < len * len && j * len + i < len * len
    ensures ColumnLattice(start, gap, len)[i * len + j] == Vec2(start.x + i as real * gap, start.y + j as real * gap)
    ensures ColumnLattice(start, gap, len)[i * len + j] == CtrlGrid.Lattice(start, gap, len)[j * len + i]
  {
    FlatIndexBound(i, j, len, len);
    FlatIndexBound(j, i, len, len);
    ColumnLatticeAtIndex(start, gap, len, i, j);
    CtrlGrid.LatticeIndex(start, gap, len, j, i);
  }

  /** The constructor's nested loops: each step pushes the lattice point to
      `initPoints` and `points` and a zero offset. */
  method BuildPoints(start: Vec2, gap: real, len: nat)
    returns (initPoints: seq<Vec2>, points: seq<Vec2>, offsets: seq<Vec2>)
    ensures initPoints == points == ColumnLattice(start, gap, len)
    ensures |offsets| == len * len && forall k :: 0 <= k < |offsets| ==> offsets[k] == Vec2(0.0, 0.0)
  {
    ghost var want := ColumnLattice(start, gap, len);
    initPoints, points, offsets := [], [], [];
    var i := 0;
    while i < len
      invariant 0 <= i <= len && i * len <= len * len
      invariant initPoints == points == want[..i * len]
      invariant |offsets| == i * len && forall k :: 0 <= k < |offsets| ==> offsets[k] == Vec2(0.0, 0.0)
    {
      var j := 0;
      while j < len
        invariant 0 <= j <= len && i * len + j <= len * len
        invariant initPoints == points == want[..i * len + j]
        invariant |offsets| == i * len + j && forall k :: 0 <= k < |offsets| ==> offsets[k] == Vec2(0.0, 0.0)
      {
        ColumnLatticeGrows(start, gap, len, i, j);
        var p := Vec2(start.x + i as real * gap, start.y + j as real * gap);
        initPoints := initPoints + [p];
        points := points + [p];
        offsets := offsets + [Vec2(0.0, 0.0)];
        j := j + 1;
      }
      MulAtLeast(i + 1, len, len);
      i := i + 1;
    }
    assert want[..len * len] == want;
  }

  /** The constructor's step `(i, j)` extends the lattice prefix by one point. */
  lemma ColumnLatticeGrows(start: Vec2, gap: real, len: nat, i: nat, j: nat)
    requires i < len && j < len
    ensures i * len + j < len * len
    ensures var want := ColumnLattice(start, gap, len);
      want[..i * len + j + 1] == want[..i * len + j] + [Vec2(start.x + i as real * gap, start.y + j as real * gap)]
  {
    ColumnLatticeIndex(start, gap, len, i, j);
    var want := ColumnLattice(start, gap, len);
    PrefixExtends(want, i * len + j, i * len + j + 1);
  }

  /** The slot `getPointFromIdx` and its siblings address: `yIdx * len + xIdx`. */
  function IdxSlot(xIdx: nat, yIdx: nat): nat {
    yIdx * CtrlLen + xIdx
  }

  /** Every index pair on the lattice has its own slot, and every slot is reached. */
  lemma IdxSlotBijective(xIdx: nat, yIdx: nat, k: nat)
    requires xIdx < CtrlLen && yIdx < CtrlLen
    ensures IdxSlot(xIdx, yIdx) < CtrlTotal
    ensures k < CtrlTotal ==> IdxSlot(k % CtrlLen, k / CtrlLen) == k
    ensures IdxSlot(xIdx, yIdx) % CtrlLen == xIdx && IdxSlot(xIdx, yIdx) / CtrlLen == yIdx
  {
    FlatIndexBound(yIdx, xIdx, CtrlLen, CtrlLen);
    DivModFlat(yIdx, xIdx, CtrlLen);
  }

  /** Read back through `yIdx * len + xIdx`, the constructor's lattice puts
      `xIdx` on the `y` axis: the names of the two indices are swapped. */
  lemma IdxNamesSwapped(xIdx: nat, yIdx: nat)
    requires xIdx < CtrlLen && yIdx < CtrlLen
    ensures IdxSlot(xIdx, yIdx) < CtrlTotal
    ensures ColumnLattice(CtrlStart, CtrlGap, CtrlLen)[IdxSlot(xIdx, yIdx)] ==
      Vec2(CtrlStart.x + yIdx as real * CtrlGap, CtrlStart.y + xIdx as real * CtrlGap)
  {
    ColumnLatticeIndex(CtrlStart, CtrlGap, CtrlLen, yIdx, xIdx);
  }

  class CtrlPoints {
    var initPoints: array<Vec2>
    var points: array<Vec2>
    var offsets: array<Vec2>
    var pointsValue: array<real>
    var pointsVertexValue: array<real>

    /** One entry per control point in each list, the float buffers sized for
        all of them, and three separate point arrays. */
    predicate Valid()
      reads this
    {
      initPoints.Length == CtrlTotal && points.Length == CtrlTotal && offsets.Length == CtrlTotal &&
      pointsValue.Length == 2 * CtrlTotal && pointsVertexValue.Length == 12 * CtrlTotal &&
      initPoints != points && initPoints != offsets && points != offsets
    }

    constructor ()
      ensures Valid()
      ensures fresh(initPoints) && fresh(points) && fresh(offsets) && fresh(pointsValue) && fresh(pointsVertexValue)
      ensures initPoints[..] == points[..] == ColumnLattice(CtrlStart, CtrlGap, CtrlLen)
      ensures forall k :: 0 <= k < CtrlTotal ==> offsets[k] == Vec2(0.0, 0.0)
      ensures pointsValue[..] == Packed(points[..], false)
      ensures pointsVertexValue[..] == SquareVertices(points[..], CtrlSize as real, false)
    {
      var ip, ps, os := BuildPoints(CtrlStart, CtrlGap, CtrlLen);
      initPoints := new Vec2[CtrlTotal](k requires 0 <= k < CtrlTotal => ip[k]);
      points := new Vec2[CtrlTotal](k requires 0 <= k < CtrlTotal => ps[k]);
      offsets := new Vec2[CtrlTotal](k requires 0 <= k < CtrlTotal => os[k]);
      pointsValue := new real[0];
      pointsVertexValue := new real[0];
      new;
      assert initPoints[..] == ip && points[..] == ps;
      CreatePointsValue();
      CreatePointsVertexValue();
      assert initPoints[..] == ip && points[..] == ps;
      assert forall k :: 0 <= k < CtrlTotal ==> offsets[k] == os[k];
    }

    function GetPointFromIdx(vecArr: array<Vec2>, xIdx: nat, yIdx: nat): (p: Vec2)
      requires vecArr.Length == CtrlTotal && xIdx < CtrlLen && yIdx < CtrlLen
      reads vecArr
      ensures IdxSlot(xIdx, yIdx) < CtrlTotal && p == vecArr[IdxSlot(xIdx, yIdx)]
    {
      IdxSlotBijective(xIdx, yIdx, 0);
      vecArr[IdxSlot(xIdx, yIdx)]
    }

    function GetOffsetFromIdx(xIdx: nat, yIdx: nat): (o: Vec2)
      requires Valid() && xIdx < CtrlLen && yIdx < CtrlLen
      reads this, offsets
      ensures IdxSlot(xIdx, yIdx) < CtrlTotal && o == offsets[IdxSlot(xIdx, yIdx)]
    {
      IdxSlotBijective(xIdx, yIdx, 0);
      offsets[IdxSlot(xIdx, yIdx)]
    }

    /** The addressed point becomes its lattice position plus its offset; no
        other point, and neither `initPoints` nor `offsets`, changes. */
    method SetPointFromIdx(xIdx: nat, yIdx: nat)
      requires Valid() && xIdx < CtrlLen && yIdx < CtrlLen
      modifies points
      ensures Valid()
      ensures points[..] == old(points[..])[IdxSlot(xIdx, yIdx) :=
        initPoints[IdxSlot(xIdx, yIdx)].Plus(offsets[IdxSlot(xIdx, yIdx)])]
      ensures initPoints[..] == old(initPoints[..]) && offsets[..] == old(offsets[..])
    {
      var initPoint := GetPointFromIdx(initPoints, xIdx, yIdx);
      var offset := GetOffsetFromIdx(xIdx, yIdx);
      points[IdxSlot(xIdx, yIdx)] := Vec2(initPoint.x + offset.x, initPoint.y + offset.y);
    }

    /** Only the addressed offset is replaced. */
    method SetOffsetFromIdx(xIdx: nat, yIdx: nat, offset: Vec2)
      requires Valid() && xIdx < CtrlLen && yIdx < CtrlLen
      modifies offsets
      ensures Valid()
      ensures IdxSlot(xIdx, yIdx) < CtrlTotal
      ensures offsets[..] == old(offsets[..])[IdxSlot(xIdx, yIdx) := offset]
      ensures initPoints[..] == old(initPoints[..]) && points[..] == old(points[..])
    {
      IdxSlotBijective(xIdx, yIdx, 0);
      offsets[IdxSlot(xIdx, yIdx)] := offset;
    }

    /** Redraws the addressed point's sprite: its twelve floats are rebuilt
        from the point and every other float keeps its value. */
    method UpdatePointsVertexValue(xIdx: nat, yIdx: nat)
      requires Valid() && xIdx < CtrlLen && yIdx < CtrlLen
      modifies pointsVertexValue
      ensures Valid()
      ensures IdxSlot(xIdx, yIdx) < CtrlTotal
      ensures var off := 12 * IdxSlot(xIdx, yIdx);
        pointsVertexValue[..] ==
          old(pointsVertexValue[..off]) + SquareBlock(points[IdxSlot(xIdx, yIdx)], CtrlSize as real, false) +
          old(pointsVertexValue[off + 12..])
    {
      IdxSlotBijective(xIdx, yIdx, 0);
      var k := IdxSlot(xIdx, yIdx);
      var vertexData := CreateSquareVertex(points[k].x, points[k].y, CtrlSize as real);
      SetAt(pointsVertexValue, vertexData[..], 12 * k);
    }

    /** A fresh sprite buffer, one twelve-float block per point in order. */
    method CreatePointsVertexValue()
      requires points.Length == CtrlTotal
      modifies this
      ensures fresh(pointsVertexValue) && pointsVertexValue.Length == 12 * CtrlTotal
      ensures pointsVertexValue[..] == SquareVertices(points[..], CtrlSize as real, false)
      ensures initPoints == old(initPoints) && points == old(points) && offsets == old(offsets)
      ensures pointsValue == old(pointsValue)
    {
      pointsVertexValue := SquareVertexBuffer(points[..], CtrlSize as real);
    }

    /** Writes eight zero floats into the sprite buffer from `(yIdx * len + xIdx) * 8`;
        `pointsValue` is not touched. */
    method UpdatePointsValue(yIdx: nat, xIdx: nat)
      requires Valid() && xIdx < CtrlLen && yIdx < CtrlLen
      modifies pointsVertexValue
      ensures Valid()
      ensures IdxSlot(xIdx, yIdx) < CtrlTotal
      ensures var off := 8 * IdxSlot(xIdx, yIdx);
        pointsVertexValue[..] == old(pointsVertexValue[..off]) + seq(8, _ => 0.0) + old(pointsVertexValue[off + 8..])
      ensures pointsValue[..] == old(pointsValue[..])
    {
      IdxSlotBijective(xIdx, yIdx, 0);
      var pointData := seq(8, _ => 0.0);
      SetAt(pointsVertexValue, pointData, IdxSlot(xIdx, yIdx) * 8);
    }

    /** A fresh point buffer: point `k` at floats `2k` and `2k + 1`. */
    method CreatePointsValue()
      requires points.Length == CtrlTotal
      modifies this
      ensures fresh(pointsValue) && pointsValue.Length == 2 * CtrlTotal
      ensures pointsValue[..] == Packed(points[..], false)
      ensures initPoints == old(initPoints) && points == old(points) && offsets == old(offsets)
      ensures pointsVertexValue == old(pointsVertexValue)
    {
      pointsValue := new real[2 * CtrlTotal];
      WritePairs(pointsValue, points[..]);
    }
  }
}
