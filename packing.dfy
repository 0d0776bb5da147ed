/** Conversions between point lists and the flat `Float32Array` layouts the
    GPU buffers use, and the square-sprite vertex generators. */
module Packing {
  import opened Common
  import opened Config

  // ---------------------------------------------------------------------
  // Point lists <-> flat float arrays

  /** Floats per point: 2, or 4 when padded to a `vec4f`. */
  function Pad(toVec4f: bool): nat { if toVec4f then 4 else 2 }

  /** The floats one point occupies: `(x, y)`, or `(x, y, 0, 1)` as a `vec4f`. */
  function Slot(p: Vec2, toVec4f: bool): seq<real> {
    if toVec4f then [p.x, p.y, 0.0, 1.0] else [p.x, p.y]
  }

  /** The flat layout of a whole point list, point after point. */
  function Packed(pts: seq<Vec2>, toVec4f: bool): (r: seq<real>)
    ensures |r| == Pad(toVec4f) * |pts|
  {
    if pts == [] then [] else Packed(pts[..|pts| - 1], toVec4f) + Slot(pts[|pts| - 1], toVec4f)
  }

  /** Reading a flat array two floats at a time. */
  function Pairs(s: seq<real>): (r: seq<Vec2>)
    requires |s| % 2 == 0
    ensures |r| == |s| / 2
  {
    if s == [] then [] else Pairs(s[..|s| - 2]) + [Vec2(s[|s| - 2], s[|s| - 1])]
  }

  /** Point `i` occupies floats `Pad*i .. Pad*i + Pad`: `x`, `y`, and in the
      `vec4f` layout `0` and `1`. */
  lemma {:induction false} PackedLayout(pts: seq<Vec2>, toVec4f: bool)
    ensures |Packed(pts, toVec4f)| == Pad(toVec4f) * |pts|
    ensures forall i :: 0 <= i < |pts| ==>
      var s, b := Packed(pts, toVec4f), Pad(toVec4f) * i;
      s[b] == pts[i].x && s[b + 1] == pts[i].y &&
      (toVec4f ==> s[b + 2] == 0.0 && s[b + 3] == 1.0)
  {
    if pts != [] {
      var init := pts[..|pts| - 1];
      PackedLayout(init, toVec4f);
      forall i | 0 <= i < |pts| - 1
        ensures pts[i] == init[i]
      {
      }
    }
  }

  /** Element `k` of the pair reading is floats `2k` and `2k+1`. */
  lemma {:induction false} PairsLayout(s: seq<real>)
    requires |s| % 2 == 0
    ensures |Pairs(s)| == |s| / 2
    ensures forall k :: 0 <= k < |s| / 2 ==> Pairs(s)[k] == Vec2(s[2 * k], s[2 * k + 1])
  {
    if s != [] {
      var init := s[..|s| - 2];
      PairsLayout(init);
      assert Pairs(s) == Pairs(init) + [Vec2(s[|s| - 2], s[|s| - 1])];
      forall k | 0 <= k < |s| / 2
        ensures Pairs(s)[k] == Vec2(s[2 * k], s[2 * k + 1])
      {
        if k < |init| / 2 {
          assert init[2 * k] == s[2 * k] && init[2 * k + 1] == s[2 * k + 1];
        }
      }
    }
  }

  /** Reading back the 2-float layout gives the original list. */
  lemma {:induction false} PairsOfPacked(pts: seq<Vec2>)
    ensures |Packed(pts, false)| % 2 == 0
    ensures Pairs(Packed(pts, false)) == pts
  {
    if pts != [] {
      var init, p := pts[..|pts| - 1], pts[|pts| - 1];
      var front := Packed(init, false);
      assert Packed(pts, false) == front + [p.x, p.y];
      PairsOfPacked(init);
      PairsSnoc(front, p.x, p.y);
      assert pts == init + [p];
    }
  }

  /** Two more floats at the end read back as one more point. */
  lemma PairsSnoc(front: seq<real>, x: real, y: real)
    requires |front| % 2 == 0
    ensures |front + [x, y]| % 2 == 0
    ensures Pairs(front + [x, y]) == Pairs(front) + [Vec2(x, y)]
  {
    var s := front + [x, y];
    assert s[..|s| - 2] == front;
  }

  /** Packing an even-length array's pairs gives the array back. */
  lemma {:induction false} PackedOfPairs(s: seq<real>)
    requires |s| % 2 == 0
    ensures Packed(Pairs(s), false) == s
  {
    if s != [] {
      var init := s[..|s| - 2];
      PackedOfPairs(init);
      var ps := Pairs(s);
      assert ps[..|ps| - 1] == Pairs(init);
    }
  }

  /** Appending one point appends its slot. */
  lemma PackedSnoc(pts: seq<Vec2>, p: Vec2, toVec4f: bool)
    ensures Packed(pts + [p], toVec4f) == Packed(pts, toVec4f) + Slot(p, toVec4f)
  {
    assert (pts + [p])[..|pts + [p]| - 1] == pts;
  }

  /** One point's floats written from `index` on (one turn of the
      `listToArray` loop and of the other packing loops), the floats before
      them untouched. */
  method WriteSlot(values: array<real>, index: nat, p: Vec2, toVec4f: bool)
    requires index + Pad(toVec4f) <= values.Length
    modifies values
    ensures values[..index + Pad(toVec4f)] == old(values[..index]) + Slot(p, toVec4f)
  {
    values[index] := p.x;
    values[index + 1] := p.y;
    if toVec4f {
      values[index + 2] := 0.0;
      values[index + 3] := 1.0;
    }
  }

  /** `listToArray`: a running `index` writes each point's floats in turn. */
  method ListToArray(pointList: seq<Vec2>, toVec4f: bool) returns (values: array<real>)
    ensures values[..] == Packed(pointList, toVec4f)
  {
    var arrayPad := if toVec4f then 4 else 2;
    values := new real[|pointList| * arrayPad];
    var index := 0;
    var i := 0;
    while i < |pointList|
      invariant 0 <= i <= |pointList|
      invariant index == arrayPad * i
      invariant values[..index] == Packed(pointList[..i], toVec4f)
    {
      var p := pointList[i];
      assert index + arrayPad <= values.Length by {
        assert arrayPad * (i + 1) <= arrayPad * |pointList|;
      }
      WriteSlot(values, index, p, toVec4f);
      PackedSnoc(pointList[..i], p, toVec4f);
      assert pointList[..i + 1] == pointList[..i] + [p];
      index := index + arrayPad;
      i := i + 1;
    }
    assert pointList[..i] == pointList;
    assert values[..] == values[..index];
  }

  /** The loop of the drawing classes' `createPointsValue`: point `i` written at
      floats `2i` and `2i + 1` of a buffer of the right size. */
  method WritePairs(values: array<real>, pts: seq<Vec2>)
    requires values.Length == 2 * |pts|
    modifies values
    ensures values[..] == Packed(pts, false)
  {
    var i := 0;
    while i < |pts|
      invariant 0 <= i <= |pts|
      invariant values[..2 * i] == Packed(pts[..i], false)
    {
      WriteSlot(values, 2 * i, pts[i], false);
      PackedSnoc(pts[..i], pts[i], false);
      assert pts[..i + 1] == pts[..i] + [pts[i]];
      i := i + 1;
    }
    assert pts[..i] == pts;
  }

  /** `arrayToList`: one point per consecutive pair of floats. */
  method ArrayToList(values: array<real>) returns (pointList: seq<Vec2>)
    requires values.Length % 2 == 0
    ensures pointList == Pairs(values[..])
  {
    pointList := [];
    var i := 0;
    while i < values.Length
      invariant 0 <= i <= values.Length && i % 2 == 0
      invariant pointList == Pairs(values[..i])
    {
      assert values[..i + 2][..i] == values[..i];
      pointList := pointList + [Vec2(values[i], values[i + 1])];
      i := i + 2;
    }
    assert values[..i] == values[..];
  }

  // ---------------------------------------------------------------------
  // Square sprites: two triangles (six vertices, twelve floats) per point

  datatype SquareType = Ctrl | Circle

  /** Pixel position to clip space; the TypeScript generators negate y. */
  function ToClip(px: real, py: real, flipY: bool): Vec2 {
    var cx := (px / CanvasWidth - 0.5) * 2.0;
    var cy := (py / CanvasHeight - 0.5) * 2.0;
    Vec2(cx, if flipY then -cy else cy)
  }

  /** Corners 0..5 of the two triangles around `(x, y)` with half-size `o`:
      0--1 4
      | / /|
      2 3--5 */
  function Corners(x: real, y: real, o: real): seq<Vec2> {
    [Vec2(x - o, y - o), Vec2(x + o, y - o), Vec2(x - o, y + o),
     Vec2(x - o, y + o), Vec2(x + o, y - o), Vec2(x + o, y + o)]
  }

  /** Corner `v` of the sprite around `p`, in clip space. */
  function CornerClip(p: Vec2, o: real, flipY: bool, v: nat): Vec2
    requires v < 6
  {
    var c := Corners(p.x, p.y, o)[v];
    ToClip(c.x, c.y, flipY)
  }

  /** The twelve floats of one point's sprite: the six corners in order. */
  function SquareBlock(p: Vec2, o: real, flipY: bool): seq<real> {
    var q0, q1, q2 := CornerClip(p, o, flipY, 0), CornerClip(p, o, flipY, 1), CornerClip(p, o, flipY, 2);
    var q3, q4, q5 := CornerClip(p, o, flipY, 3), CornerClip(p, o, flipY, 4), CornerClip(p, o, flipY, 5);
    [q0.x, q0.y, q1.x, q1.y, q2.x, q2.y, q3.x, q3.y, q4.x, q4.y, q5.x, q5.y]
  }

  /** The sprites of a whole point list, block after block. */
  function SquareVertices(pts: seq<Vec2>, o: real, flipY: bool): seq<real> {
    if pts == [] then [] else SquareVertices(pts[..|pts| - 1], o, flipY) + SquareBlock(pts[|pts| - 1], o, flipY)
  }

  /** The half-size `listToSquareVertex` uses: half the configured size, rounded down. */
  function HalfSize(squareType: SquareType): int {
    if squareType == Ctrl then CtrlSize / 2 else CircleSize / 2
  }

  /** Each sprite block is twelve floats, the six corners in order; corners 1
      and 4 coincide and so do 2 and 3 (the shared diagonal). */
  lemma SquareBlockLayout(p: Vec2, o: real, flipY: bool)
    ensures |SquareBlock(p, o, flipY)| == 2 * VertNum
    ensures forall v :: 0 <= v < 6 ==>
      SquareBlock(p, o, flipY)[2 * v] == CornerClip(p, o, flipY, v).x &&
      SquareBlock(p, o, flipY)[2 * v + 1] == CornerClip(p, o, flipY, v).y
    ensures SquareBlock(p, o, flipY)[2..4] == SquareBlock(p, o, flipY)[8..10]
    ensures SquareBlock(p, o, flipY)[4..6] == SquareBlock(p, o, flipY)[6..8]
  {
    var s := SquareBlock(p, o, flipY);
    forall v | 0 <= v < 6
      ensures s[2 * v] == CornerClip(p, o, flipY, v).x && s[2 * v + 1] == CornerClip(p, o, flipY, v).y
    {
      if v == 0 {} else if v == 1 {} else if v == 2 {} else if v == 3 {} else if v == 4 {} else {}
    }
  }

  /** Block `i` of the sprite array occupies floats `12i .. 12i + 12`. */
  lemma {:induction false} SquareVerticesLayout(pts: seq<Vec2>, o: real, flipY: bool)
    ensures |SquareVertices(pts, o, flipY)| == 12 * |pts|
    ensures forall i :: 0 <= i < |pts| ==>
      SquareVertices(pts, o, flipY)[12 * i .. 12 * i + 12] == SquareBlock(pts[i], o, flipY)
  {
    if pts != [] {
      var init := pts[..|pts| - 1];
      SquareVerticesLayout(init, o, flipY);
      SquareBlockLayout(pts[|pts| - 1], o, flipY);
      var front, last := SquareVertices(init, o, flipY), SquareBlock(pts[|pts| - 1], o, flipY);
      assert SquareVertices(pts, o, flipY) == front + last;
      forall i | 0 <= i < |pts|
        ensures (front + last)[12 * i .. 12 * i + 12] == SquareBlock(pts[i], o, flipY)
      {
        if i < |pts| - 1 {
          assert pts[i] == init[i];
          SliceOfAppend(front, last, 12 * i, 12 * i + 12);
        } else {
          SliceAfterAppend(front, last);
        }
      }
    }
  }

  /** The y flip: the TypeScript generators give the negated y of the
      JavaScript one and the same x. */
  lemma FlipNegatesY(p: Vec2, o: real)
    ensures |SquareBlock(p, o, true)| == |SquareBlock(p, o, false)| == 12
    ensures forall v :: 0 <= v < 6 ==>
      SquareBlock(p, o, true)[2 * v] == SquareBlock(p, o, false)[2 * v] &&
      SquareBlock(p, o, true)[2 * v + 1] == -SquareBlock(p, o, false)[2 * v + 1]
  {
    SquareBlockLayout(p, o, true);
    SquareBlockLayout(p, o, false);
  }

  /** The `addVertex` closure: writes one clip-space vertex at `vertexIndex`. */
  method AddVertex(vertexData: array<real>, vertexIndex: nat, px: real, py: real, flipY: bool)
    returns (next: nat)
    requires vertexIndex + 2 <= vertexData.Length
    modifies vertexData
    ensures next == vertexIndex + 2
    ensures vertexData[..] == old(vertexData[..])[vertexIndex := ToClip(px, py, flipY).x]
                                                 [vertexIndex + 1 := ToClip(px, py, flipY).y]
  {
    var q := ToClip(px, py, flipY);
    vertexData[vertexIndex] := q.x;
    vertexData[vertexIndex + 1] := q.y;
    next := vertexIndex + 2;
  }

  /** Writes the six corners of one sprite from `start`; the other floats are kept. */
  method AddSquare(vertexData: array<real>, start: nat, x: real, y: real, o: real, flipY: bool)
    returns (next: nat)
    requires start + 12 <= vertexData.Length
    modifies vertexData
    ensures next == start + 12
    ensures vertexData[..] == old(vertexData[..start]) + SquareBlock(Vec2(x, y), o, flipY) + old(vertexData[start + 12..])
  {
    ghost var before := vertexData[..];
    var p := Vec2(x, y);
    var vertexIndex := start;
    vertexIndex := AddVertex(vertexData, vertexIndex, x - o, y - o, flipY);
    vertexIndex := AddVertex(vertexData, vertexIndex, x + o, y - o, flipY);
    vertexIndex := AddVertex(vertexData, vertexIndex, x - o, y + o, flipY);
    vertexIndex := AddVertex(vertexData, vertexIndex, x - o, y + o, flipY);
    vertexIndex := AddVertex(vertexData, vertexIndex, x + o, y - o, flipY);
    vertexIndex := AddVertex(vertexData, vertexIndex, x + o, y + o, flipY);
    next := vertexIndex;
    BlockWritten(before, vertexData[..], start, p, o, flipY);
  }

  /** Twelve single-float updates from `start` that write the corners of a sprite
      in order replace exactly that sprite's block. */
  lemma BlockWritten(before: seq<real>, after: seq<real>, start: nat, p: Vec2, o: real, flipY: bool)
    requires start + 12 <= |before|
    requires var q0, q1, q2 := CornerClip(p, o, flipY, 0), CornerClip(p, o, flipY, 1), CornerClip(p, o, flipY, 2);
             var q3, q4, q5 := CornerClip(p, o, flipY, 3), CornerClip(p, o, flipY, 4), CornerClip(p, o, flipY, 5);
             after == before[start := q0.x][start + 1 := q0.y][start + 2 := q1.x][start + 3 := q1.y]
                            [start + 4 := q2.x][start + 5 := q2.y][start + 6 := q3.x][start + 7 := q3.y]
                            [start + 8 := q4.x][start + 9 := q4.y][start + 10 := q5.x][start + 11 := q5.y]
    ensures after == before[..start] + SquareBlock(p, o, flipY) + before[start + 12..]
  {
    var block := SquareBlock(p, o, flipY);
    var want := before[..start] + block + before[start + 12..];
    forall k | 0 <= k < |after|
      ensures after[k] == want[k]
    {
      if start <= k < start + 12 {
        assert want[k] == block[k - start];
      }
    }
  }

  /** `listToSquareVertex`: twelve floats per point, y flipped, half-size by sprite type. */
  method ListToSquareVertex(pointList: seq<Vec2>, squareType: SquareType) returns (vertexData: array<real>)
    ensures vertexData[..] == SquareVertices(pointList, HalfSize(squareType) as real, true)
  {
    vertexData := new real[|pointList| * VertNum * 2];
    var offset := HalfSize(squareType) as real;
    var vertexIndex := 0;
    var i := 0;
    while i < |pointList|
      invariant 0 <= i <= |pointList|
      invariant vertexIndex == 12 * i
      invariant vertexData[..vertexIndex] == SquareVertices(pointList[..i], offset, true)
    {
      var p := pointList[i];
      ghost var before := vertexData[..vertexIndex];
      vertexIndex := AddSquare(vertexData, vertexIndex, p.x, p.y, offset, true);
      assert vertexData[..vertexIndex] == before + SquareBlock(p, offset, true);
      assert pointList[..i + 1][..i] == pointList[..i];
      i := i + 1;
    }
    assert pointList[..i] == pointList;
    assert vertexData[..] == vertexData[..vertexIndex];
  }

  /** `createSquareVertex`: one point's twelve floats, offset used as given, no y flip. */
  method CreateSquareVertex(x: real, y: real, offset: real) returns (vertexData: array<real>)
    ensures vertexData[..] == SquareBlock(Vec2(x, y), offset, false)
  {
    vertexData := new real[VertNum * 2];
    var next := AddSquare(vertexData, 0, x, y, offset, false);
  }

  /** `Float32Array.prototype.set`: copies `src` into `dst` from `offset` on;
      the floats before and after keep their values. */
  method SetAt(dst: array<real>, src: seq<real>, offset: nat)
    requires offset + |src| <= dst.Length
    modifies dst
    ensures dst[..] == old(dst[..offset]) + src + old(dst[offset + |src|..])
  {
    ghost var before := dst[..];
    var i := 0;
    while i < |src|
      invariant 0 <= i <= |src|
      invariant dst[..offset] == before[..offset]
      invariant dst[offset..offset + i] == src[..i]
      invariant dst[offset + |src|..] == before[offset + |src|..]
    {
      dst[offset + i] := src[i];
      assert dst[offset..offset + i + 1] == dst[offset..offset + i] + [src[i]];
      assert src[..i + 1] == src[..i] + [src[i]];
      i := i + 1;
    }
    assert dst[..] == dst[..offset] + dst[offset..offset + |src|] + dst[offset + |src|..];
  }

  /** The `createPointsVertexValue` loop of the drawing classes: a buffer of
      `12 * |pts|` floats, and the `createSquareVertex` block of point `i`
      copied in at `12 * i`. */
  method SquareVertexBuffer(pts: seq<Vec2>, size: real) returns (pointsVertexValue: array<real>)
    ensures fresh(pointsVertexValue) && pointsVertexValue.Length == 12 * |pts|
    ensures pointsVertexValue[..] == SquareVertices(pts, size, false)
  {
    pointsVertexValue := new real[12 * |pts|];
    var i := 0;
    while i < |pts|
      invariant 0 <= i <= |pts|
      invariant pointsVertexValue[..12 * i] == SquareVertices(pts[..i], size, false)
    {
      var vertexData := CreateSquareVertex(pts[i].x, pts[i].y, size);
      ghost var before := pointsVertexValue[..12 * i];
      SetAt(pointsVertexValue, vertexData[..], 12 * i);
      assert pointsVertexValue[..12 * i] == before;
      assert pointsVertexValue[..12 * (i + 1)] == before + vertexData[..];
      assert pts[..i + 1][..i] == pts[..i];
      i := i + 1;
    }
    assert pts[..i] == pts;
  }
}
