/** Half-edge navigation over a triangle index list: half-edge `e` belongs to
    triangle `e / 3`, and the three half-edges of a triangle form a cycle. */
module Halfedge {
  import opened Common

  /** The half-edge after `e` in its triangle (`e % 3` is JavaScript's remainder). */
  function NextHalfedge(e: int): (r: int)
    ensures e >= 0 ==> r >= 0 && r / 3 == e / 3 && r != e
    ensures e >= 0 ==> (r % 3 == 0 <==> e % 3 == 2)
  {
    if JsRem(e, 3) == 2 then e - 2 else e + 1
  }

  /** The half-edge before `e` in its triangle. */
  function PrevHalfedge(e: int): (r: int)
    ensures e >= 0 ==> r >= 0 && r / 3 == e / 3 && r != e
    ensures e >= 0 ==> (r % 3 == 2 <==> e % 3 == 0)
  {
    if JsRem(e, 3) == 0 then e + 2 else e - 1
  }

  /** On the half-edges of a triangulation, stepping forward and back cancel. */
  lemma NextPrevInverse(e: int)
    requires e >= 0
    ensures PrevHalfedge(NextHalfedge(e)) == e
    ensures NextHalfedge(PrevHalfedge(e)) == e
  {
    var q, m := e / 3, e % 3;
    assert e == 3 * q + m;
    if m == 2 {
      assert NextHalfedge(e) == 3 * q;
    } else if m == 0 {
      assert PrevHalfedge(e) == 3 * q + 2;
    }
  }

  /** Three forward steps go round the triangle back to the start. */
  lemma NextThreeTimes(e: int)
    requires e >= 0
    ensures NextHalfedge(NextHalfedge(NextHalfedge(e))) == e
  {
    var q, m := e / 3, e % 3;
    assert e == 3 * q + m;
    if m == 0 {
      assert NextHalfedge(e) == 3 * q + 1;
      assert NextHalfedge(3 * q + 1) == 3 * q + 2;
    } else if m == 1 {
      assert NextHalfedge(e) == 3 * q + 2;
    } else {
      assert NextHalfedge(e) == 3 * q;
      assert NextHalfedge(3 * q) == 3 * q + 1;
    }
  }
}
