/** The second compute stage: for every sample point and every control-point
    index `i`, the B-spline basis value at the point's `u` and at its `v`.

    The shader evaluates the Cox-de Boor recursion bottom-up in a scratch
    array of ten slots: tier `deg` (for `deg = 1 .. degree`) holds the order-`deg`
    values of the basis functions `i, i + 1, ..., i + degree - deg`, and each
    entry of a tier combines two neighbouring entries of the tier below. */
module Blend {
  import opened Common
  import opened KnotVector

  /** Weight of the lower basis function `j` in the recursion for order `k`:
      `(t - knot[j]) / (knot[j + k - 1] - knot[j])`, or zero for a zero difference. */
  function LeftWeight(knot: seq<real>, j: nat, k: nat, t: real): real
    requires 2 <= k && j + k < |knot|
  {
    var d := knot[j + k - 1] - knot[j];
    if d != 0.0 then (t - knot[j]) / d else 0.0
  }

  /** Weight of the lower basis function `j + 1`:
      `(knot[j + k] - t) / (knot[j + k] - knot[j + 1])`, or zero for a zero difference. */
  function RightWeight(knot: seq<real>, j: nat, k: nat, t: real): real
    requires 2 <= k && j + k < |knot|
  {
    var d := knot[j + k] - knot[j + 1];
    if d != 0.0 then (knot[j + k] - t) / d else 0.0
  }

  /** The recursion step for order `k >= 2`: the two lower basis values weighted by
      `LeftWeight` and `RightWeight`. */
  function Combine(knot: seq<real>, j: nat, k: nat, t: real, lower0: real, lower1: real): real
    requires 2 <= k && j + k < |knot|
  {
    Mix(LeftWeight(knot, j, k, t), lower0, RightWeight(knot, j, k, t), lower1)
  }

  /** The weighted sum of two lower basis values. */
  function Mix(w0: real, lower0: real, w1: real, lower1: real): real {
    w0 * lower0 + w1 * lower1
  }

  /** The Cox-de Boor basis function number `j` of order `k`; order 1 is the
      indicator of the knot span `[knot[j], knot[j + 1])`. */
  function Basis(knot: seq<real>, j: nat, k: nat, t: real): real
    requires 1 <= k && j + k < |knot|
    decreases k
  {
    if k == 1 then
      if knot[j] <= t < knot[j + 1] then 1.0 else 0.0
    else
      Combine(knot, j, k, t, Basis(knot, j, k - 1, t), Basis(knot, j + 1, k - 1, t))
  }

  /** Slot of the first entry of tier `deg`: the tiers below hold
      `degree, degree - 1, ..., degree + 2 - deg` entries. */
  function TierStart(degree: nat, deg: nat): nat
    requires 1 <= deg <= degree + 1
  {
    if deg == 1 then 0 else TierStart(degree, deg - 1) + (degree + 2 - deg)
  }

  /** Closed form of the tier layout: all tiers together take
      `degree * (degree + 1) / 2` slots. */
  lemma {:induction false} TierStartClosed(degree: nat, deg: nat)
    requires 1 <= deg <= degree + 1
    ensures 2 * TierStart(degree, deg) == (deg - 1) * (2 * degree + 2 - deg)
  {
    if deg > 1 {
      TierStartClosed(degree, deg - 1);
    }
  }


  /** The ten-slot scratch array holds every tier exactly when `degree <= 4`. */
  lemma TiersFitIff(degree: nat)
    ensures 2 * TierStart(degree, degree + 1) == degree * (degree + 1)
    ensures TierStart(degree, degree + 1) <= 10 <==> degree <= 4
  {
    TierStartClosed(degree, degree + 1);
    if degree >= 5 {
      MulAtLeast(5, degree, degree + 1);
      MulAtLeast(6, degree + 1, 5);
    } else {
      MulAtLeast(degree, 4, degree + 1);
      MulAtLeast(degree + 1, 5, 4);
    }
  }

  lemma {:induction false} TierStartMono(degree: nat, a: nat, b: nat)
    requires 1 <= a <= b <= degree + 1
    ensures TierStart(degree, a) <= TierStart(degree, b)
  {
    if a < b {
      TierStartMono(degree, a, b - 1);
    }
  }

  /** The offset loop: the start of the tier below `deg`, as a running sum of
      tier sizes `degree - d` for `d < deg - 2`. */
  method TierOffset(degree: nat, deg: nat) returns (offset: nat)
    requires 2 <= deg <= degree
    ensures offset == TierStart(degree, deg - 1)
  {
    offset := 0;
    var d := 0;
    while d < deg - 2
      invariant 0 <= d <= deg - 2
      invariant offset == TierStart(degree, d + 1)
    {
      offset := offset + (degree - d);
      d := d + 1;
    }
  }

  /** Tier `deg` of the scratch array when it holds `count` entries: the
      order-`deg` basis values `i, i + 1, ...` at `t`. */
  function Tier(knot: seq<real>, i: nat, deg: nat, count: nat, t: real): (r: seq<real>)
    requires 1 <= deg && i + count + deg <= |knot|
    ensures |r| == count
  {
    seq(count, n requires 0 <= n < count => Basis(knot, i + n, deg, t))
  }

  /** The two weights of one entry of tier `deg >= 2`, each zero when its knot
      difference is zero. */
  method Weights(knotVector: seq<real>, deg: nat, iIdx: nat, t: real) returns (term1: real, term2: real)
    requires 2 <= deg && iIdx + deg < |knotVector|
    ensures term1 == LeftWeight(knotVector, iIdx, deg, t)
    ensures term2 == RightWeight(knotVector, iIdx, deg, t)
  {
    term1 := 0.0;
    term2 := 0.0;
    var denominator1 := knotVector[iIdx + deg - 1] - knotVector[iIdx];
    var denominator2 := knotVector[iIdx + deg] - knotVector[iIdx + 1];
    if denominator1 != 0.0 {
      term1 := (t - knotVector[iIdx]) / denominator1;
    }
    if denominator2 != 0.0 {
      term2 := (knotVector[iIdx + deg] - t) / denominator2;
    }
  }

  /** One entry of tier `deg >= 2`, from the two entries below it. */
  method CombineEntry(knotVector: seq<real>, deg: nat, iIdx: nat, t: real, lower0: real, lower1: real)
    returns (value: real)
    requires 2 <= deg && iIdx + deg < |knotVector|
    requires lower0 == Basis(knotVector, iIdx, deg - 1, t)
    requires lower1 == Basis(knotVector, iIdx + 1, deg - 1, t)
    ensures value == Basis(knotVector, iIdx, deg, t)
  {
    var term1, term2 := Weights(knotVector, deg, iIdx, t);
    value := Mix(term1, lower0, term2, lower1);
  }

  lemma TierSnoc(knot: seq<real>, i: nat, deg: nat, num: nat, t: real)
    requires 1 <= deg && i + num + 1 + deg <= |knot|
    ensures Tier(knot, i, deg, num + 1, t) == Tier(knot, i, deg, num, t) + [Basis(knot, i + num, deg, t)]
  {
  }

  /** The order-1 entry: the indicator of the knot span. */
  method SpanEntry(knotVector: seq<real>, j: nat, t: real) returns (value: real)
    requires j + 1 < |knotVector|
    ensures value == Basis(knotVector, j, 1, t)
  {
    if knotVector[j] <= t && t < knotVector[j + 1] {
      value := 1.0;
    } else {
      value := 0.0;
    }
  }

  /** The body of the inner loop of `calcBlend`: entry `num` of tier `deg`, the
      indicator for tier 1 and otherwise the combination of entries `num` and
      `num + 1` of the tier below. */
  method TierEntry(degArr: array<real>, knotVector: seq<real>, degree: nat, deg: nat, i: nat, t: real, num: nat)
    returns (value: real)
    requires 1 <= deg <= degree && i + degree < |knotVector| && num < degree + 1 - deg
    requires degArr.Length == 10 && TierStart(degree, deg + 1) <= 10
    requires deg >= 2 ==> (TierStart(degree, deg - 1) <= TierStart(degree, deg) &&
      degArr[TierStart(degree, deg - 1)..TierStart(degree, deg)] == Tier(knotVector, i, deg - 1, degree + 2 - deg, t))
    ensures value == Basis(knotVector, i + num, deg, t)
  {
    if deg == 1 {
      value := SpanEntry(knotVector, i + num, t);
    } else {
      var offset := TierOffset(degree, deg);
      ghost var lower := degArr[offset..TierStart(degree, deg)];
      assert degArr[offset + num] == lower[num] && degArr[offset + num + 1] == lower[num + 1];
      value := CombineEntry(knotVector, deg, i + num, t, degArr[offset + num], degArr[offset + num + 1]);
    }
  }

  /** The inner loop of `calcBlend`: fills tier `deg` from its first slot on,
      reading the tier below it. */
  method FillTier(degArr: array<real>, knotVector: seq<real>, degree: nat, deg: nat, i: nat, t: real)
    requires 1 <= deg <= degree && i + degree < |knotVector|
    requires degArr.Length == 10 && TierStart(degree, deg + 1) <= 10
    requires deg >= 2 ==> (TierStart(degree, deg - 1) <= TierStart(degree, deg) &&
      degArr[TierStart(degree, deg - 1)..TierStart(degree, deg)] == Tier(knotVector, i, deg - 1, degree + 2 - deg, t))
    modifies degArr
    ensures degArr[TierStart(degree, deg)..TierStart(degree, deg + 1)] == Tier(knotVector, i, deg, degree + 1 - deg, t)
  {
    var start := TierStart(degree, deg);
    ghost var below := if deg >= 2 then TierStart(degree, deg - 1) else start;
    ghost var lower := degArr[below..start];
    var idx := start;
    var num := 0;
    while num < degree + 1 - deg
      invariant 0 <= num <= degree + 1 - deg
      invariant idx == start + num
      invariant degArr[below..start] == lower
      invariant degArr[start..idx] == Tier(knotVector, i, deg, num, t)
    {
      ghost var tierSoFar := degArr[start..idx];
      var value := TierEntry(degArr, knotVector, degree, deg, i, t, num);
      degArr[idx] := value;
      assert degArr[start..idx + 1] == tierSoFar + [value];
      TierSnoc(knotVector, i, deg, num, t);
      idx := idx + 1;
      num := num + 1;
    }
  }

  /** `calcBlend(i, t)`: the order-`degree` basis function number `i` at `t`. */
  method CalcBlend(knotVector: seq<real>, degree: nat, i: nat, t: real) returns (r: real)
    requires 1 <= degree <= 4
    requires i + degree < |knotVector|
    ensures r == Basis(knotVector, i, degree, t)
  {
    var degArr := new real[10](_ => 0.0);
    TiersFitIff(degree);
    var idx := 0;
    var deg := 1;
    while deg < degree + 1
      invariant 1 <= deg <= degree + 1
      invariant idx == TierStart(degree, deg)
      invariant deg >= 2 ==>
        degArr[TierStart(degree, deg - 1)..TierStart(degree, deg)] == Tier(knotVector, i, deg - 1, degree + 2 - deg, t)
    {
      TierStartMono(degree, deg + 1, degree + 1);
      FillTier(degArr, knotVector, degree, deg, i, t);
      idx := idx + (degree + 1 - deg);
      deg := deg + 1;
    }
    assert degArr[idx - 1] == degArr[TierStart(degree, degree)..TierStart(degree, degree + 1)][0];
    r := degArr[idx - 1];
  }

  /** Every order-`degree` basis value of one parameter, for control points `0 .. len - 1`. */
  function BasisRow(knot: seq<real>, len: nat, degree: nat, t: real): (row: seq<real>)
    requires 1 <= degree && len + degree <= |knot|
    ensures |row| == len
  {
    seq(len, i requires 0 <= i < len => Basis(knot, i, degree, t))
  }

  /** The pair of basis values of one control-point index at a point's `(u, v)`. */
  function BasisPair(knot: seq<real>, degree: nat, uv: Vec2, i: nat): Vec2
    requires 1 <= degree && i + degree < |knot|
  {
    Vec2(Basis(knot, i, degree, uv.x), Basis(knot, i, degree, uv.y))
  }

  /** The whole blend buffer: slot `g` holds the basis pair of control-point
      index `g % len` at sample point `g / len`. */
  function BlendTable(knot: seq<real>, degree: nat, len: nat, uvs: seq<Vec2>): (r: seq<Vec2>)
    requires 1 <= degree && len + degree <= |knot|
    ensures |r| == |uvs| * len
  {
    seq(|uvs| * len, g requires 0 <= g < |uvs| * len =>
      DivBound(g, |uvs|, len); BasisPair(knot, degree, uvs[g / len], g % len))
  }

  /** Slot `idx * len + i` of the blend buffer holds `(B_i(u), B_i(v))` of
      sample point `idx`. */
  lemma BlendTableAt(knot: seq<real>, degree: nat, len: nat, uvs: seq<Vec2>, idx: nat, i: nat)
    requires 1 <= degree && len + degree <= |knot|
    requires idx < |uvs| && i < len
    ensures idx * len + i < |uvs| * len
    ensures BlendTable(knot, degree, len, uvs)[idx * len + i]
      == Vec2(BasisRow(knot, len, degree, uvs[idx].x)[i], BasisRow(knot, len, degree, uvs[idx].y)[i])
  {
    FlatIndexBound(idx, i, |uvs|, len);
    DivModFlat(idx, i, len);
  }

  /** One invocation of the shader's `main`: workgroup `idx` is a sample point and
      invocation `i` a control-point index; it computes the pair `(B_i(u), B_i(v))`
      that belongs at slot `idx * len + i`. */
  method BlendInvocation(knotVector: seq<real>, degree: nat, len: nat, circleUV: seq<Vec2>, idx: nat, i: nat)
    returns (pair: Vec2)
    requires 1 <= degree <= 4 && len + degree <= |knotVector|
    requires idx < |circleUV| && i < len
    ensures idx * len + i < |circleUV| * len
    ensures pair == BlendTable(knotVector, degree, len, circleUV)[idx * len + i]
  {
    var circleX := CalcBlend(knotVector, degree, i, circleUV[idx].x);
    var circleY := CalcBlend(knotVector, degree, i, circleUV[idx].y);
    BlendTableAt(knotVector, degree, len, circleUV, idx, i);
    pair := Vec2(circleX, circleY);
  }

  /** One workgroup: the invocations of sample point `idx` fill slots
      `idx * len .. idx * len + len - 1` and leave the slots before them alone. */
  method BlendWorkgroup(blendResult: array<Vec2>, knotVector: seq<real>, degree: nat, len: nat,
                        circleUV: seq<Vec2>, idx: nat)
    requires 1 <= degree <= 4 && len + degree <= |knotVector|
    requires idx < |circleUV| && blendResult.Length == |circleUV| * len
    modifies blendResult
    ensures (idx + 1) * len <= blendResult.Length
    ensures blendResult[..idx * len] == old(blendResult[..idx * len])
    ensures blendResult[idx * len..(idx + 1) * len]
            == BlendTable(knotVector, degree, len, circleUV)[idx * len..(idx + 1) * len]
  {
    assert (idx + 1) * len == idx * len + len;
    MulAtLeast(idx + 1, |circleUV|, len);
    ghost var table := BlendTable(knotVector, degree, len, circleUV);
    var i := 0;
    while i < len
      invariant 0 <= i <= len
      invariant blendResult[..idx * len] == old(blendResult[..idx * len])
      invariant blendResult[idx * len..idx * len + i] == table[idx * len..idx * len + i]
    {
      var pair := BlendInvocation(knotVector, degree, len, circleUV, idx, i);
      blendResult[idx * len + i] := pair;
      assert blendResult[idx * len..idx * len + i + 1] == table[idx * len..idx * len + i + 1];
      i := i + 1;
    }
  }

  /** The whole dispatch: one workgroup per sample point, so every slot of the buffer
      receives its pair. */
  method BlendStage(knotVector: seq<real>, degree: nat, len: nat, circleUV: seq<Vec2>)
    returns (blendResult: array<Vec2>)
    requires 1 <= degree <= 4 && len + degree <= |knotVector|
    ensures blendResult[..] == BlendTable(knotVector, degree, len, circleUV)
  {
    var pointNum := |circleUV|;
    blendResult := new Vec2[pointNum * len](_ => Vec2(0.0, 0.0));
    ghost var table := BlendTable(knotVector, degree, len, circleUV);
    var idx := 0;
    while idx < pointNum
      invariant 0 <= idx <= pointNum
      invariant idx * len <= pointNum * len
      invariant blendResult[..idx * len] == table[..idx * len]
    {
      BlendWorkgroup(blendResult, knotVector, degree, len, circleUV, idx);
      PrefixExtends(blendResult[..], idx * len, (idx + 1) * len);
      PrefixExtends(table, idx * len, (idx + 1) * len);
      idx := idx + 1;
    }
    assert blendResult[..] == blendResult[..pointNum * len];
  }

  // ---------------------------------------------------------------------
  // Properties of the basis

  /** Local support: basis function `j` of order `k` vanishes outside
      `[knot[j], knot[j + k])` when the knots do not decrease. */
  lemma {:induction false} LocalSupport(knot: seq<real>, j: nat, k: nat, t: real)
    requires NonDecreasingReals(knot)
    requires 1 <= k && j + k < |knot|
    requires t < knot[j] || knot[j + k] <= t
    ensures Basis(knot, j, k, t) == 0.0
    decreases k
  {
    if k > 1 {
      LocalSupport(knot, j, k - 1, t);
      LocalSupport(knot, j + 1, k - 1, t);
    }
  }

  lemma LeftWeightNonNegative(knot: seq<real>, j: nat, k: nat, t: real)
    requires 2 <= k && j + k < |knot| && knot[j] <= knot[j + k - 1] && knot[j] <= t
    ensures LeftWeight(knot, j, k, t) >= 0.0
  {
    var d := knot[j + k - 1] - knot[j];
    if d != 0.0 {
      DivNonNegative(t - knot[j], d);
    }
  }

  lemma RightWeightNonNegative(knot: seq<real>, j: nat, k: nat, t: real)
    requires 2 <= k && j + k < |knot| && knot[j + 1] <= knot[j + k] && t <= knot[j + k]
    ensures RightWeight(knot, j, k, t) >= 0.0
  {
    var d := knot[j + k] - knot[j + 1];
    if d != 0.0 {
      DivNonNegative(knot[j + k] - t, d);
    }
  }

  lemma DivNonNegative(a: real, d: real)
    requires a >= 0.0 && d > 0.0
    ensures a / d >= 0.0
  {
  }

  /** One weighted term of the recursion is non-negative when the weight is
      non-negative wherever the lower basis value is not zero. */
  lemma WeightedTerm(w: real, b: real)
    requires b >= 0.0 && (b == 0.0 || w >= 0.0)
    ensures w * b >= 0.0
  {
  }

  lemma MixNonNegative(w0: real, lower0: real, w1: real, lower1: real)
    requires w0 * lower0 >= 0.0 && w1 * lower1 >= 0.0
    ensures Mix(w0, lower0, w1, lower1) >= 0.0
  {
  }

  /** Non-negativity: with non-decreasing knots no basis value is negative. */
  lemma {:induction false} BasisNonNegative(knot: seq<real>, j: nat, k: nat, t: real)
    requires NonDecreasingReals(knot)
    requires 1 <= k && j + k < |knot|
    ensures Basis(knot, j, k, t) >= 0.0
    decreases k
  {
    if k > 1 {
      BasisNonNegative(knot, j, k - 1, t);
      BasisNonNegative(knot, j + 1, k - 1, t);
      LowerVanishesOutside(knot, j, k, t);
      LeftTermNonNegative(knot, j, k, t);
      RightTermNonNegative(knot, j, k, t);
      BasisStep(knot, j, k, t);
      MixNonNegative(LeftWeight(knot, j, k, t), Basis(knot, j, k - 1, t),
        RightWeight(knot, j, k, t), Basis(knot, j + 1, k - 1, t));
    }
  }

  /** With non-decreasing knots, the two lower basis values of the
      recursion vanish on the far sides of their supports, and those
      supports are not reversed. */
  lemma LowerVanishesOutside(knot: seq<real>, j: nat, k: nat, t: real)
    requires NonDecreasingReals(knot)
    requires 2 <= k && j + k < |knot|
    ensures knot[j] <= knot[j + k - 1] && knot[j + 1] <= knot[j + k]
    ensures t < knot[j] ==> Basis(knot, j, k - 1, t) == 0.0
    ensures knot[j + k] < t ==> Basis(knot, j + 1, k - 1, t) == 0.0
  {
    if t < knot[j] {
      LocalSupport(knot, j, k - 1, t);
    }
    if knot[j + k] < t {
      LocalSupport(knot, j + 1, k - 1, t);
    }
  }

  /** The left term of the recursion is non-negative: below `knot[j]` the
      lower basis value vanishes, from `knot[j]` on the weight is
      non-negative. */
  lemma LeftTermNonNegative(knot: seq<real>, j: nat, k: nat, t: real)
    requires 2 <= k && j + k < |knot| && knot[j] <= knot[j + k - 1]
    requires Basis(knot, j, k - 1, t) >= 0.0
    requires t < knot[j] ==> Basis(knot, j, k - 1, t) == 0.0
    ensures LeftWeight(knot, j, k, t) * Basis(knot, j, k - 1, t) >= 0.0
  {
    if knot[j] <= t {
      LeftWeightNonNegative(knot, j, k, t);
    }
    WeightedTerm(LeftWeight(knot, j, k, t), Basis(knot, j, k - 1, t));
  }

  /** The right term of the recursion is non-negative, by the mirror
      argument at `knot[j + k]`. */
  lemma RightTermNonNegative(knot: seq<real>, j: nat, k: nat, t: real)
    requires 2 <= k && j + k < |knot| && knot[j + 1] <= knot[j + k]
    requires Basis(knot, j + 1, k - 1, t) >= 0.0
    requires knot[j + k] < t ==> Basis(knot, j + 1, k - 1, t) == 0.0
    ensures RightWeight(knot, j, k, t) * Basis(knot, j + 1, k - 1, t) >= 0.0
  {
    if t <= knot[j + k] {
      RightWeightNonNegative(knot, j, k, t);
    }
    WeightedTerm(RightWeight(knot, j, k, t), Basis(knot, j + 1, k - 1, t));
  }

  /** The spline's knot vector as `f32` values, non-decreasing for every
      configuration with `degree <= len + 2`. */
  function KnotReals(len: nat, degree: nat): (kv: seq<real>)
    ensures |kv| == len + degree + 1
  {
    AsReals(Knots(len, degree))
  }

  lemma KnotRealsSorted(len: nat, degree: nat)
    requires degree <= len + 2
    ensures NonDecreasingReals(KnotReals(len, degree))
  {
    KnotsSortedIff(len, degree);
    AsRealsSorted(Knots(len, degree));
  }

  /** At the last knot `K` (a position on the far edge of the lattice) every
      basis value the shader computes is zero, because the spans are half-open. */
  lemma BasisVanishesAtLastKnot(len: nat, degree: nat, i: nat)
    requires 1 <= degree <= len + 2 && i < len
    ensures Basis(KnotReals(len, degree), i, degree, (len - degree + 2) as real) == 0.0
  {
    var kv := KnotReals(len, degree);
    KnotRealsSorted(len, degree);
    LastKnot(len, degree);
    assert kv[i + degree] <= kv[len + degree];
    LocalSupport(kv, i, degree, (len - degree + 2) as real);
  }

  // ---------------------------------------------------------------------
  // Partition of unity

  /** The sum of `f(lo) .. f(hi - 1)`. */
  function SeriesSum(f: nat -> real, lo: nat, hi: nat): real
    decreases hi - lo
  {
    if hi <= lo then 0.0 else SeriesSum(f, lo, hi - 1) + f(hi - 1)
  }

  /** Basis function `j` of order `k` at `t` as a function of `j`, zero where
      the knot vector is too short for it. */
  function BasisAt(knot: seq<real>, k: nat, t: real): nat -> real {
    (j: nat) => if 1 <= k && j + k < |knot| then Basis(knot, j, k, t) else 0.0
  }

  /** The sum of the order-`k` basis values `lo .. hi - 1` at `t`. */
  function BasisSum(knot: seq<real>, k: nat, t: real, lo: nat, hi: nat): real {
    SeriesSum(BasisAt(knot, k, t), lo, hi)
  }

  /** One step of the recursion, written out. */
  lemma BasisStep(knot: seq<real>, j: nat, k: nat, t: real)
    requires 2 <= k && j + k < |knot|
    ensures Basis(knot, j, k, t) ==
      Mix(LeftWeight(knot, j, k, t), Basis(knot, j, k - 1, t), RightWeight(knot, j, k, t), Basis(knot, j + 1, k - 1, t))
  {
  }

  /** The two ratios over one knot difference add up to one. */
  lemma RatiosAddToOne(hi: real, lo: real, t: real)
    requires hi != lo
    ensures (hi - t) / (hi - lo) + (t - lo) / (hi - lo) == 1.0
  {
    var d := hi - lo;
    var r, l := (hi - t) / d, (t - lo) / d;
    assert r * d == hi - t && l * d == t - lo;
    assert (r + l) * d == r * d + l * d;
    assert (r + l - 1.0) * d == 0.0;
  }

  /** Weights adding up to one leave a single value unchanged. */
  lemma FactorOut(r: real, l: real, b: real)
    requires r + l == 1.0
    ensures Mix(r, b, l, b) == b
  {
    assert r * b + l * b == (r + l) * b;
  }

  /** The right weight of `j - 1` and the left weight of `j` share a knot
      difference and add up to one wherever basis `j` of order `k - 1` is not zero. */
  lemma WeightsComplement(knot: seq<real>, j: nat, k: nat, t: real)
    requires 2 <= k && 1 <= j && j + k < |knot|
    requires knot[j] == knot[j + k - 1] ==> Basis(knot, j, k - 1, t) == 0.0
    ensures Mix(RightWeight(knot, j - 1, k, t), Basis(knot, j, k - 1, t), LeftWeight(knot, j, k, t), Basis(knot, j, k - 1, t))
      == Basis(knot, j, k - 1, t)
  {
    var hi, lo := knot[j + k - 1], knot[j];
    if hi != lo {
      assert RightWeight(knot, j - 1, k, t) == (hi - t) / (hi - lo);
      assert LeftWeight(knot, j, k, t) == (t - lo) / (hi - lo);
      RatiosAddToOne(hi, lo, t);
      FactorOut(RightWeight(knot, j - 1, k, t), LeftWeight(knot, j, k, t), Basis(knot, j, k - 1, t));
    }
  }

  /** The left and right weighted terms of the recursion step for basis `j`
      of order `k` (zero where the knot vector is too short). */
  function LeftPart(knot: seq<real>, k: nat, t: real, j: nat): real {
    if 2 <= k && j + k < |knot| then Mix(LeftWeight(knot, j, k, t), Basis(knot, j, k - 1, t), 0.0, 0.0) else 0.0
  }

  function RightPart(knot: seq<real>, k: nat, t: real, j: nat): real {
    if 2 <= k && j + k < |knot| then Mix(0.0, 0.0, RightWeight(knot, j, k, t), Basis(knot, j + 1, k - 1, t)) else 0.0
  }

  /** A mix is its left half plus its right half. */
  lemma MixSplit(w0: real, lower0: real, w1: real, lower1: real)
    ensures Mix(w0, lower0, w1, lower1) == Mix(w0, lower0, 0.0, 0.0) + Mix(0.0, 0.0, w1, lower1)
  {
  }

  /** A right half and a left half over one shared value make one mix. */
  lemma MixJoin(r: real, l: real, b: real)
    ensures Mix(0.0, 0.0, r, b) + Mix(l, b, 0.0, 0.0) == Mix(r, b, l, b)
  {
  }

  lemma StepParts(knot: seq<real>, k: nat, t: real, j: nat)
    requires 2 <= k && j + k < |knot|
    ensures BasisAt(knot, k, t)(j) == LeftPart(knot, k, t, j) + RightPart(knot, k, t, j)
  {
    BasisStep(knot, j, k, t);
    MixSplit(LeftWeight(knot, j, k, t), Basis(knot, j, k - 1, t), RightWeight(knot, j, k, t), Basis(knot, j + 1, k - 1, t));
  }

  lemma InnerParts(knot: seq<real>, k: nat, t: real, j: nat)
    requires 2 <= k && 1 <= j && j + k < |knot|
    requires knot[j] == knot[j + k - 1] ==> Basis(knot, j, k - 1, t) == 0.0
    ensures RightPart(knot, k, t, j - 1) + LeftPart(knot, k, t, j) == BasisAt(knot, k - 1, t)(j)
  {
    WeightsComplement(knot, j, k, t);
    MixJoin(RightWeight(knot, j - 1, k, t), LeftWeight(knot, j, k, t), Basis(knot, j, k - 1, t));
  }

  /** Each order-`k` function from `lo` to `hi - 1` whose support
      `[knot[j], knot[j + k])` is empty is zero. */
  predicate EmptySupportsVanish(knot: seq<real>, k: nat, t: real, lo: nat, hi: nat)
    requires 1 <= k && hi - 1 + k < |knot|
  {
    forall j {:trigger Basis(knot, j, k, t)} :: lo <= j < hi && knot[j] == knot[j + k] ==> Basis(knot, j, k, t) == 0.0
  }

  lemma EmptySupportsVanishOfSorted(knot: seq<real>, k: nat, t: real, lo: nat, hi: nat)
    requires NonDecreasingReals(knot) && 1 <= k && hi - 1 + k < |knot|
    ensures EmptySupportsVanish(knot, k, t, lo, hi)
  {
    forall j | lo <= j < hi && knot[j] == knot[j + k]
      ensures Basis(knot, j, k, t) == 0.0
    {
      LocalSupport(knot, j, k, t);
    }
  }

  /** Summing order `k` over `lo .. hi - 1` telescopes to order `k - 1` over
      `lo + 1 .. hi - 1` plus the two outer weighted terms. */
  /** The bookkeeping of one telescoping step, on plain numbers: a sum that
      grows by a term split into a left and a right part, where the previous
      right part and the new left part make up the next lower term. */
  lemma TelescopeStep(sum: real, prev: real, term: real, left: real, right: real,
                      first: real, lowerPrev: real, lowerSum: real, prevRight: real, lower: real)
    requires sum == prev + term && term == left + right
    requires prev == first + lowerPrev + prevRight && prevRight + left == lower
    requires lowerSum == lowerPrev + lower
    ensures sum == first + lowerSum + right
  {
  }

  lemma {:induction false} Telescope(knot: seq<real>, k: nat, t: real, lo: nat, hi: nat)
    requires 2 <= k && lo < hi && hi - 1 + k < |knot| && EmptySupportsVanish(knot, k - 1, t, lo + 1, hi)
    ensures BasisSum(knot, k, t, lo, hi) ==
      LeftPart(knot, k, t, lo) + BasisSum(knot, k - 1, t, lo + 1, hi) + RightPart(knot, k, t, hi - 1)
    decreases hi
  {
    StepParts(knot, k, t, hi - 1);
    assert BasisSum(knot, k, t, lo, hi) == BasisSum(knot, k, t, lo, hi - 1) + BasisAt(knot, k, t)(hi - 1);
    if hi == lo + 1 {
      assert BasisSum(knot, k - 1, t, lo + 1, hi) == 0.0;
    } else {
      Telescope(knot, k, t, lo, hi - 1);
      InnerParts(knot, k, t, hi - 1);
      assert BasisSum(knot, k - 1, t, lo + 1, hi) == BasisSum(knot, k - 1, t, lo + 1, hi - 1) + BasisAt(knot, k - 1, t)(hi - 1);
      TelescopeStep(BasisSum(knot, k, t, lo, hi), BasisSum(knot, k, t, lo, hi - 1), BasisAt(knot, k, t)(hi - 1),
                    LeftPart(knot, k, t, hi - 1), RightPart(knot, k, t, hi - 1),
                    LeftPart(knot, k, t, lo), BasisSum(knot, k - 1, t, lo + 1, hi - 1), BasisSum(knot, k - 1, t, lo + 1, hi),
                    RightPart(knot, k, t, hi - 2), BasisAt(knot, k - 1, t)(hi - 1));
    }
  }

  /** One more term of a basis sum. */
  lemma BasisSumSnoc(knot: seq<real>, k: nat, t: real, lo: nat, hi: nat)
    requires 1 <= k && lo < hi && hi - 1 + k < |knot|
    ensures BasisSum(knot, k, t, lo, hi) == BasisSum(knot, k, t, lo, hi - 1) + Basis(knot, hi - 1, k, t)
  {
  }

  /** Order-`k` functions whose support ends at or before `t` add up to zero. */
  lemma {:induction false} SumVanishesLeft(knot: seq<real>, k: nat, t: real, lo: nat, hi: nat)
    requires NonDecreasingReals(knot) && 1 <= k && lo < hi && hi - 1 + k < |knot| && knot[hi - 1 + k] <= t
    ensures BasisSum(knot, k, t, lo, hi) == 0.0
    decreases hi
  {
    LocalSupport(knot, hi - 1, k, t);
    BasisSumSnoc(knot, k, t, lo, hi);
    if lo < hi - 1 {
      assert knot[hi - 2 + k] <= knot[hi - 1 + k];
      SumVanishesLeft(knot, k, t, lo, hi - 1);
    }
  }

  /** Order one: exactly one span indicator is on, the one of the span holding `t`. */
  lemma {:induction false} SpanSum(knot: seq<real>, t: real, p: nat, lo: nat, hi: nat)
    requires NonDecreasingReals(knot) && p + 1 < |knot| && knot[p] <= t < knot[p + 1]
    requires lo <= p < hi && hi < |knot|
    ensures BasisSum(knot, 1, t, lo, hi) == 1.0
    decreases hi
  {
    BasisSumSnoc(knot, 1, t, lo, hi);
    if p < hi - 1 {
      assert knot[p + 1] <= knot[hi - 1];
      LocalSupport(knot, hi - 1, 1, t);
      SpanSum(knot, t, p, lo, hi - 1);
    } else if lo < p {
      SumVanishesLeft(knot, 1, t, lo, p);
    }
  }

  /** Local partition of unity: for `t` in a non-empty span `[knot[p], knot[p + 1])`,
      the order-`k` functions over a range reaching from `p - k + 1` to `p` add up to one. */
  lemma {:induction false} LocalPartition(knot: seq<real>, k: nat, t: real, p: nat, lo: nat, hi: nat)
    requires NonDecreasingReals(knot) && 1 <= k && p + 1 < |knot| && knot[p] <= t < knot[p + 1]
    requires lo + k - 1 <= p < hi && hi - 1 + k < |knot|
    ensures BasisSum(knot, k, t, lo, hi) == 1.0
    decreases k
  {
    if k == 1 {
      SpanSum(knot, t, p, lo, hi);
    } else {
      EmptySupportsVanishOfSorted(knot, k - 1, t, lo + 1, hi);
      Telescope(knot, k, t, lo, hi);
      assert knot[lo + k - 1] <= knot[p];
      LocalSupport(knot, lo, k - 1, t);
      assert knot[p + 1] <= knot[hi];
      LocalSupport(knot, hi, k - 1, t);
      LocalPartition(knot, k - 1, t, p, lo + 1, hi);
      assert LeftPart(knot, k, t, lo) == Mix(LeftWeight(knot, lo, k, t), 0.0, 0.0, 0.0);
      assert RightPart(knot, k, t, hi - 1) == Mix(0.0, 0.0, RightWeight(knot, hi - 1, k, t), 0.0);
    }
  }

  /** The span of the spline's knot vector holding `t`, for `0 <= t < K`:
      index `degree - 1 + floor t`, from `floor t` to `floor t + 1`. */
  lemma KnotSpan(len: nat, degree: nat, t: real) returns (p: nat)
    requires 1 <= degree <= len + 1 && 0.0 <= t < (len - degree + 2) as real
    ensures p == degree - 1 + Floor(t) && p <= len
    ensures KnotReals(len, degree)[p] <= t < KnotReals(len, degree)[p + 1]
  {
    var kv := KnotReals(len, degree);
    var m := Floor(t);
    p := degree - 1 + m;
    assert kv[p] == KnotAt(len, degree, p) as real && kv[p + 1] == KnotAt(len, degree, p + 1) as real;
  }

  /** Partition of unity over the whole knot vector: the `len + 1` basis
      functions of order `degree` add up to one at every `t` in `[0, K)`. */
  lemma PartitionOfUnity(len: nat, degree: nat, t: real)
    requires 1 <= degree <= len + 1 && 0.0 <= t < (len - degree + 2) as real
    ensures BasisSum(KnotReals(len, degree), degree, t, 0, len + 1) == 1.0
  {
    KnotRealsSorted(len, degree);
    var p := KnotSpan(len, degree, t);
    LocalPartition(KnotReals(len, degree), degree, t, p, 0, len + 1);
  }

  /** The `len` basis functions the blend stage keeps (one per control point)
      miss the last one of the knot vector: their sum is one minus basis `len`. */
  lemma ControlSumShortfall(len: nat, degree: nat, t: real)
    requires 1 <= degree <= len + 1 && 0.0 <= t < (len - degree + 2) as real
    ensures BasisSum(KnotReals(len, degree), degree, t, 0, len) == 1.0 - Basis(KnotReals(len, degree), len, degree, t)
  {
    PartitionOfUnity(len, degree, t);
  }

  /** So the control-point weights add up to one on `[0, len - degree + 1)`, where
      basis `len` has not started. */
  lemma ControlSumIsOne(len: nat, degree: nat, t: real)
    requires 1 <= degree <= len && 0.0 <= t < (len - degree + 1) as real
    ensures BasisSum(KnotReals(len, degree), degree, t, 0, len) == 1.0
  {
    var kv := KnotReals(len, degree);
    ControlSumShortfall(len, degree, t);
    KnotRealsSorted(len, degree);
    assert kv[len] == KnotAt(len, degree, len) as real;
    LocalSupport(kv, len, degree, t);
  }

  /** With 9 control points and degree 3 the weights at `t = 7.5` add up to
      0.75: basis 9, which no control point carries, is 0.25 there. */
  lemma ControlSumShortNearEnd()
    ensures Basis(KnotReals(9, 3), 9, 3, 7.5) == 0.25
    ensures BasisSum(KnotReals(9, 3), 3, 7.5, 0, 9) == 0.75
  {
    var kv := KnotReals(9, 3);
    assert kv[9] == 7.0 && kv[10] == 8.0 && kv[11] == 8.0 && kv[12] == 8.0 by {
      assert kv[9] == KnotAt(9, 3, 9) as real && kv[10] == KnotAt(9, 3, 10) as real;
      assert kv[11] == KnotAt(9, 3, 11) as real && kv[12] == KnotAt(9, 3, 12) as real;
    }
    assert Basis(kv, 9, 1, 7.5) == 1.0 && Basis(kv, 10, 1, 7.5) == 0.0 && Basis(kv, 11, 1, 7.5) == 0.0;
    BasisStep(kv, 9, 2, 7.5);
    BasisStep(kv, 10, 2, 7.5);
    assert Basis(kv, 9, 2, 7.5) == 0.5;
    assert Basis(kv, 10, 2, 7.5) == 0.0;
    BasisStep(kv, 9, 3, 7.5);
    ControlSumShortfall(9, 3, 7.5);
  }
}
