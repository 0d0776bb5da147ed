/** The control-point lattice of the 2D demo (`init` and its working copy
    `current`) and the drag state machine that moves one of its points. */
module CtrlGrid {
  import opened Common
  import opened Config

  /** Flat index `k` of the lattice holds column `k / len` and row `k % len`;
      the row runs along `x` and the column along `y`. */
  function LatticeAt(start: Vec2, gap: real, len: nat, k: nat): Vec2
    requires len > 0
  {
    Vec2(start.x + (k % len) as real * gap, start.y + (k / len) as real * gap)
  }

  /** The whole lattice, `len * len` points. */
  function Lattice(start: Vec2, gap: real, len: nat): (r: seq<Vec2>)
    ensures |r| == len * len
  {
    seq(len * len, k requires 0 <= k < len * len => LatticeAt(start, gap, len, k))
  }

  /** Index `col * len + row` holds `(start.x + row * gap, start.y + col * gap)`. */
  lemma LatticeIndex(start: Vec2, gap: real, len: nat, col: nat, row: nat)
    requires col < len && row < len
    ensures col * len + row < len * len
    ensures Lattice(start, gap, len)[col * len + row] ==
      Vec2(start.x + row as real * gap, start.y + col as real * gap)
  {
    FlatIndexBound(col, row, len, len);
    DivModFlat(col, row, len);
  }

  /** `LatticeAt` sends distinct indices to distinct points (for a nonzero gap):
      the row and the column are each recovered from one coordinate. */
  lemma LatticeAtInjective(start: Vec2, gap: real, len: nat, k1: nat, k2: nat)
    requires gap != 0.0 && len > 0
    requires LatticeAt(start, gap, len, k1) == LatticeAt(start, gap, len, k2)
    ensures k1 == k2
  {
    var q1, r1 := k1 / len, k1 % len;
    var q2, r2 := k2 / len, k2 % len;
    ScaleCancel(r1, r2, gap);
    ScaleCancel(q1, q2, gap);
    assert k1 == q1 * len + r1 && k2 == q2 * len + r2;
  }

  /** Two lattice indices hold the same point only if they are the same index
      (for a nonzero gap). */
  lemma LatticeInjective(start: Vec2, gap: real, len: nat, k1: nat, k2: nat)
    requires gap != 0.0 && k1 < len * len && k2 < len * len
    requires Lattice(start, gap, len)[k1] == Lattice(start, gap, len)[k2]
    ensures k1 == k2
  {
    DivBound(k1, len, len);
    LatticeAtInjective(start, gap, len, k1, k2);
  }

  /** The nested column/row loops, one point pushed per step. */
  method BuildLattice(start: Vec2, gap: real, len: nat) returns (init: seq<Vec2>)
    ensures init == Lattice(start, gap, len)
  {
    ghost var want := Lattice(start, gap, len);
    init := [];
    var col := 0;
    while col < len
      invariant 0 <= col <= len
      invariant col * len <= len * len
      invariant init == want[..col * len]
    {
      var row := 0;
      while row < len
        invariant 0 <= row <= len
        invariant col * len + row <= len * len
        invariant init == want[..col * len + row]
      {
        LatticeIndex(start, gap, len, col, row);
        assert want[..col * len + row + 1] == want[..col * len + row] + [want[col * len + row]];
        init := init + [Vec2(start.x + row as real * gap, start.y + col as real * gap)];
        row := row + 1;
      }
      MulAtLeast(col + 1, len, len);
      col := col + 1;
    }
    assert want[..len * len] == want;
  }

  /** `ctrlPoint`: the undisplaced lattice and the working copy the demo edits. */
  class CtrlPoint {
    var init: array<Vec2>
    var current: array<Vec2>

    /** `current` starts equal to `init`, as a separate array. */
    constructor ()
      ensures fresh(init) && fresh(current) && init != current
      ensures init[..] == Lattice(CtrlStart, CtrlGap, CtrlLen)
      ensures current[..] == init[..]
    {
      var pts := BuildLattice(CtrlStart, CtrlGap, CtrlLen);
      var initArr := new Vec2[|pts|](k requires 0 <= k < |pts| => pts[k]);
      init := initArr;
      current := new Vec2[initArr.Length](k requires 0 <= k < initArr.Length reads initArr => initArr[k]);
    }
  }

  /** `Math.floor(ctrl.size / 2)`: the pick radius in pixels on each axis. */
  function PickRadius(): real {
    Floor(CtrlSize as real / 2.0) as real
  }

  /** The mouse is within the pick square of `point`. */
  predicate Hits(point: Vec2, mouse: Vec2) {
    Abs(point.x - mouse.x) <= PickRadius() && Abs(point.y - mouse.y) <= PickRadius()
  }

  /** The first index at or after `from` whose point the mouse hits. */
  function FirstHit(points: seq<Vec2>, mouse: Vec2, from: nat): Option<nat>
    decreases |points| - from
  {
    if from >= |points| then None
    else if Hits(points[from], mouse) then Some(from)
    else FirstHit(points, mouse, from + 1)
  }

  /** `FirstHit` finds a hit that no earlier index (from `from` on) has, and
      finds nothing exactly when no index from `from` on is a hit. */
  lemma {:induction false} FirstHitSpec(points: seq<Vec2>, mouse: Vec2, from: nat)
    ensures FirstHit(points, mouse, from).Some? ==>
      var i := FirstHit(points, mouse, from).value;
      from <= i < |points| && Hits(points[i], mouse) &&
      forall j :: from <= j < i ==> !Hits(points[j], mouse)
    ensures FirstHit(points, mouse, from).None? <==>
      forall j :: from <= j < |points| ==> !Hits(points[j], mouse)
    decreases |points| - from
  {
    if from < |points| && !Hits(points[from], mouse) {
      FirstHitSpec(points, mouse, from + 1);
    }
  }

  /** The search loop of `changeControlPoint`: it stops at the first point the
      mouse hits. The list holds distinct objects, so `indexOf` of the point
      found is the loop position. */
  method FindClicked(points: seq<Vec2>, mouse: Vec2) returns (hit: Option<nat>)
    ensures hit == FirstHit(points, mouse, 0)
  {
    hit := None;
    var i := 0;
    while i < |points|
      invariant 0 <= i <= |points|
      invariant FirstHit(points, mouse, 0) == FirstHit(points, mouse, i)
    {
      if Hits(points[i], mouse) {
        hit := Some(i);
        return;
      }
      i := i + 1;
    }
  }

  /** `clickedPoint`: whether a point is being dragged, which one, and the
      offset from the mouse to the point when it was picked. */
  class ClickedPoint {
    var isClicked: bool
    var index: int
    var mouseOffset: Vec2

    /** While a point is held, `index` addresses it in `current`. */
    predicate Valid(points: CtrlPoint)
      reads this, points
    {
      isClicked ==> 0 <= index < points.current.Length
    }

    constructor ()
      ensures !isClicked && index == -1 && mouseOffset == Vec2(0.0, 0.0)
    {
      isClicked := false;
      index := -1;
      mouseOffset := Vec2(0.0, 0.0);
    }

    /** `changeControlPoint`: on a hit, hold the first point hit and remember
        `point - mouse`; with no hit, leave the state as it was. */
    method ChangeControlPoint(points: CtrlPoint, mouse: Vec2)
      requires Valid(points)
      modifies this
      ensures Valid(points)
      ensures match FirstHit(points.current[..], mouse, 0)
        case None => isClicked == old(isClicked) && index == old(index) && mouseOffset == old(mouseOffset)
        case Some(i) => isClicked && index == i && mouseOffset == points.current[i].Minus(mouse)
    {
      var hit := FindClicked(points.current[..], mouse);
      FirstHitSpec(points.current[..], mouse, 0);
      if hit.Some? {
        isClicked := true;
        index := hit.value;
        mouseOffset := points.current[hit.value].Minus(mouse);
      }
    }

    /** `moveControlPoint`: while a point is held it follows the mouse, kept at
        the picked offset; no other point moves, and `init` is untouched. */
    method MoveControlPoint(points: CtrlPoint, mouse: Vec2)
      requires Valid(points) && points.init != points.current
      modifies points.current
      ensures Valid(points)
      ensures !isClicked ==> points.current[..] == old(points.current[..])
      ensures isClicked ==> points.current[..] == old(points.current[..])[index := mouse.Plus(mouseOffset)]
      ensures points.init[..] == old(points.init[..])
    {
      if !isClicked {
        return;
      }
      points.current[index] := mouse.Plus(mouseOffset);
    }

    /** `releaseControlPoint`: back to the idle state. */
    method ReleaseControlPoint()
      modifies this
      ensures !isClicked && index == -1 && mouseOffset == Vec2(0.0, 0.0)
    {
      isClicked := false;
      index := -1;
      mouseOffset := Vec2(0.0, 0.0);
    }
  }

  /** Pressing on a point and moving without moving the mouse leaves every
      point where it was. */
  method ClickThenMoveInPlace(points: CtrlPoint, clicked: ClickedPoint, mouse: Vec2)
    requires clicked.Valid(points) && points.init != points.current
    requires FirstHit(points.current[..], mouse, 0).Some?
    modifies clicked, points.current
    ensures clicked.isClicked
    ensures points.current[..] == old(points.current[..])
  {
    clicked.ChangeControlPoint(points, mouse);
    ghost var before := points.current[..];
    clicked.MoveControlPoint(points, mouse);
    assert mouse.Plus(points.current[clicked.index].Minus(mouse)) == before[clicked.index];
  }
}
