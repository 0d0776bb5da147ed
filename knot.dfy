/** The knot vector of the tensor-product B-spline, built from the number of
    control points per axis (`len`) and the spline `degree`. */
module KnotVector {

  /** Entry `i` of the knot vector: zero below `degree`, then counting up from 1
      until index `len`, then held at `len - degree + 2`. */
  function KnotAt(len: nat, degree: nat, i: nat): int {
    if i < degree then 0
    else if i <= len then i - degree + 1
    else len - degree + 2
  }

  /** The whole knot vector, `len + degree + 1` entries. */
  function Knots(len: nat, degree: nat): seq<int> {
    seq(len + degree + 1, i requires 0 <= i => KnotAt(len, degree, i))
  }

  predicate NonDecreasing(s: seq<int>) {
    forall i, j :: 0 <= i < j < |s| ==> s[i] <= s[j]
  }

  /** The knot loop: one entry pushed per index, by the three-branch rule. */
  method CalcKnotVector(len: nat, degree: nat) returns (knotVector: seq<int>)
    ensures |knotVector| == len + degree + 1
    ensures forall i :: 0 <= i < |knotVector| ==>
      knotVector[i] == (if i < degree then 0 else if i <= len then i - degree + 1 else len - degree + 2)
    ensures knotVector == Knots(len, degree)
  {
    var totalKnotNum := len + degree + 1;
    knotVector := [];
    var i := 0;
    while i < totalKnotNum
      invariant 0 <= i <= totalKnotNum
      invariant |knotVector| == i
      invariant forall k :: 0 <= k < i ==> knotVector[k] == KnotAt(len, degree, k)
    {
      if i < degree {
        knotVector := knotVector + [0];
      } else if i <= len {
        knotVector := knotVector + [i - degree + 1];
      } else if i > len {
        knotVector := knotVector + [len - degree + 2];
      }
      i := i + 1;
    }
  }

  /** The knot vector is non-decreasing exactly when `degree <= len + 2`; for a
      larger degree the clamped tail `len - degree + 2` drops below zero. */
  lemma KnotsSortedIff(len: nat, degree: nat)
    ensures NonDecreasing(Knots(len, degree)) <==> degree <= len + 2
  {
    var kv := Knots(len, degree);
    if degree > len + 2 {
      assert kv[0] == 0;
      assert kv[len + degree] == len - degree + 2 < 0;
    }
  }

  /** The last knot, the end of the parametric domain, is `len - degree + 2`
      for every degree of at least 1 (for degree 0 it is `len + 1`). */
  lemma LastKnot(len: nat, degree: nat)
    ensures var kv := Knots(len, degree);
      kv[|kv| - 1] == if degree >= 1 then len - degree + 2 else len + 1
  {
  }

  /** The configuration of the demos: 9 control points per axis, degree 3. */
  lemma KnotsNineThree()
    ensures Knots(9, 3) == [0, 0, 0, 1, 2, 3, 4, 5, 6, 7, 8, 8, 8]
  {
  }

  /** Knots as the shader's `f32` values. */
  function AsReals(kv: seq<int>): (r: seq<real>)
    ensures |r| == |kv|
    ensures forall i :: 0 <= i < |kv| ==> r[i] == kv[i] as real
  {
    seq(|kv|, i requires 0 <= i < |kv| => kv[i] as real)
  }

  predicate NonDecreasingReals(s: seq<real>) {
    forall i, j :: 0 <= i < j < |s| ==> s[i] <= s[j]
  }

  lemma AsRealsSorted(kv: seq<int>)
    requires NonDecreasing(kv)
    ensures NonDecreasingReals(AsReals(kv))
  {
  }
}
