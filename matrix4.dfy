/** The 4x4 matrix helpers of the GLB viewer. A matrix is 16 reals indexed
    `m[i*4 + j]` exactly as the viewer indexes its `Float32Array`s; `Product`
    is the mathematical product in that indexing. */
module Matrix4 {

  predicate IsMatrix(m: seq<real>) {
    |m| == 16
  }

  /** Row `i` times column `j`, written out. */
  function Entry(a: seq<real>, b: seq<real>, i: nat, j: nat): real
    requires IsMatrix(a) && IsMatrix(b) && i < 4 && j < 4
  {
    a[4 * i] * b[j] + a[4 * i + 1] * b[4 + j] + a[4 * i + 2] * b[8 + j] + a[4 * i + 3] * b[12 + j]
  }

  function Product(a: seq<real>, b: seq<real>): (r: seq<real>)
    requires IsMatrix(a) && IsMatrix(b)
    ensures IsMatrix(r)
  {
    seq(16, n requires 0 <= n < 16 => Entry(a, b, n / 4, n % 4))
  }

  function IdentityMatrix(): (r: seq<real>)
    ensures IsMatrix(r)
  {
    [1.0, 0.0, 0.0, 0.0,
     0.0, 1.0, 0.0, 0.0,
     0.0, 0.0, 1.0, 0.0,
     0.0, 0.0, 0.0, 1.0]
  }

  /** The identity is neutral on both sides of the product. */
  lemma IdentityNeutral(m: seq<real>)
    requires IsMatrix(m)
    ensures Product(IdentityMatrix(), m) == m
    ensures Product(m, IdentityMatrix()) == m
  {
    var id := IdentityMatrix();
    forall n | 0 <= n < 16
      ensures Product(id, m)[n] == m[n] && Product(m, id)[n] == m[n]
    {
      var i, j := n / 4, n % 4;
      assert n == 4 * i + j;
      assert Entry(id, m, i, j) == m[4 * i + j];
      assert Entry(m, id, i, j) == m[4 * i + j];
    }
  }

  // ---------------------------------------------------------------------------
  // `identity`

  /** Entry `k` of a buffer after `identity`: 1 on the diagonal slots 0, 5, 10, 15. */
  function IdentityValue(k: nat): real {
    if k == 0 || k == 5 || k == 10 || k == 15 then 1.0 else 0.0
  }

  /** `identity`: zero every entry, then set the four diagonal slots. A typed-array write
      past the end is ignored, which the guards reproduce for a shorter buffer. */
  method Identity(out: array<real>)
    modifies out
    ensures forall k :: 0 <= k < out.Length ==> out[k] == IdentityValue(k)
    ensures out.Length == 16 ==> out[..] == IdentityMatrix()
  {
    for k := 0 to out.Length
      invariant forall m :: 0 <= m < k ==> out[m] == 0.0
    {
      out[k] := 0.0;
    }
    if 15 < out.Length { out[15] := 1.0; }
    if 10 < out.Length { out[10] := 1.0; }
    if 5 < out.Length { out[5] := 1.0; }
    if 0 < out.Length { out[0] := 1.0; }
  }

  // ---------------------------------------------------------------------------
  // `multiply(out, a, b)`, run step by step on the contents of `out`. When `out`
  // and `a` are the same buffer (`aliased`), a read of `a` sees what has already
  // been written to `out`; `b` is never the output buffer at any call site.

  /** One step `out[i*4+j] += a[i*4+k] * b[k*4+j]`, where `src` is what a read of `a` sees. */
  function AddTerm(t: seq<real>, src: seq<real>, b: seq<real>, i: nat, j: nat, k: nat): (r: seq<real>)
    requires IsMatrix(t) && IsMatrix(src) && IsMatrix(b) && i < 4 && j < 4 && k < 4
    ensures IsMatrix(r)
  {
    t[4 * i + j := t[4 * i + j] + src[4 * i + k] * b[4 * k + j]]
  }

  lemma AddTermIs(t: seq<real>, src: seq<real>, b: seq<real>, i: nat, j: nat, k: nat)
    requires IsMatrix(t) && IsMatrix(src) && IsMatrix(b) && i < 4 && j < 4 && k < 4
    ensures AddTerm(t, src, b, i, j, k) == t[4 * i + j := t[4 * i + j] + src[4 * i + k] * b[4 * k + j]]
  {
  }

  /** The state after `out[i*4+j] = 0` and the first `k` steps of the sum. A read of `a`
      sees the current state when `out` and `a` are the same buffer. */
  function KLoop(s: seq<real>, a: seq<real>, b: seq<real>, aliased: bool, i: nat, j: nat, k: nat): (r: seq<real>)
    requires IsMatrix(s) && IsMatrix(a) && IsMatrix(b) && i < 4 && j < 4 && k <= 4
    ensures IsMatrix(r)
  {
    if k == 0 then s[4 * i + j := 0.0]
    else
      var t := KLoop(s, a, b, aliased, i, j, k - 1);
      AddTerm(t, if aliased then t else a, b, i, j, k - 1)
  }

  /** When `out` and `a` are the same buffer, the old contents of `a` play no part. */
  lemma {:induction false} KLoopAliased(s: seq<real>, a: seq<real>, a': seq<real>, b: seq<real>, i: nat, j: nat, k: nat)
    requires IsMatrix(s) && IsMatrix(a) && IsMatrix(a') && IsMatrix(b) && i < 4 && j < 4 && k <= 4
    ensures KLoop(s, a, b, true, i, j, k) == KLoop(s, a', b, true, i, j, k)
  {
    if k > 0 {
      KLoopAliased(s, a, a', b, i, j, k - 1);
    }
  }

  /** The state after the first `j` entries of row `i`. */
  function JLoop(s: seq<real>, a: seq<real>, b: seq<real>, aliased: bool, i: nat, j: nat): (r: seq<real>)
    requires IsMatrix(s) && IsMatrix(a) && IsMatrix(b) && i < 4 && j <= 4
    ensures IsMatrix(r)
  {
    if j == 0 then s else KLoop(JLoop(s, a, b, aliased, i, j - 1), a, b, aliased, i, j - 1, 4)
  }

  /** The state after the first `i` rows. */
  function ILoop(s: seq<real>, a: seq<real>, b: seq<real>, aliased: bool, i: nat): (r: seq<real>)
    requires IsMatrix(s) && IsMatrix(a) && IsMatrix(b) && i <= 4
    ensures IsMatrix(r)
  {
    if i == 0 then s else JLoop(ILoop(s, a, b, aliased, i - 1), a, b, aliased, i - 1, 4)
  }

  /** `multiply` as written, from the initial contents `s` of `out`. */
  function Multiplied(s: seq<real>, a: seq<real>, b: seq<real>, aliased: bool): (r: seq<real>)
    requires IsMatrix(s) && IsMatrix(a) && IsMatrix(b)
    ensures IsMatrix(r)
  {
    ILoop(s, a, b, aliased, 4)
  }

  /** The partial sum of row `i` of `a` times column `j` of `b` over the first `k` terms. */
  function PartialEntry(a: seq<real>, b: seq<real>, i: nat, j: nat, k: nat): real
    requires IsMatrix(a) && IsMatrix(b) && i < 4 && j < 4 && k <= 4
  {
    if k == 0 then 0.0 else PartialEntry(a, b, i, j, k - 1) + a[4 * i + k - 1] * b[4 * (k - 1) + j]
  }

  /** Without aliasing, computing entry (i, j) writes the partial sums of that entry and
      nothing else. */
  lemma {:induction false} KLoopDistinct(s: seq<real>, a: seq<real>, b: seq<real>, i: nat, j: nat, k: nat)
    requires IsMatrix(s) && IsMatrix(a) && IsMatrix(b) && i < 4 && j < 4 && k <= 4
    ensures forall n :: 0 <= n < 16 ==>
              KLoop(s, a, b, false, i, j, k)[n] == if n == 4 * i + j then PartialEntry(a, b, i, j, k) else s[n]
  {
    if k > 0 {
      KLoopDistinct(s, a, b, i, j, k - 1);
    }
  }

  /** All four terms of the partial sum make the entry of the product. */
  lemma PartialEntryFull(a: seq<real>, b: seq<real>, i: nat, j: nat)
    requires IsMatrix(a) && IsMatrix(b) && i < 4 && j < 4
    ensures PartialEntry(a, b, i, j, 4) == Entry(a, b, i, j)
  {
    assert PartialEntry(a, b, i, j, 1) == a[4 * i] * b[j];
    assert PartialEntry(a, b, i, j, 2) == a[4 * i] * b[j] + a[4 * i + 1] * b[4 + j];
  }

  /** Without aliasing, the first `j` entries of row `i` hold the product and nothing else
      changes. */
  lemma {:induction false} JLoopDistinct(s: seq<real>, a: seq<real>, b: seq<real>, i: nat, j: nat)
    requires IsMatrix(s) && IsMatrix(a) && IsMatrix(b) && i < 4 && j <= 4
    ensures forall n :: 0 <= n < 16 ==>
              JLoop(s, a, b, false, i, j)[n] == if 4 * i <= n < 4 * i + j then Product(a, b)[n] else s[n]
  {
    if j > 0 {
      JLoopDistinct(s, a, b, i, j - 1);
      var t := JLoop(s, a, b, false, i, j - 1);
      KLoopDistinct(t, a, b, i, j - 1, 4);
      PartialEntryFull(a, b, i, j - 1);
      var n := 4 * i + j - 1;
      assert n / 4 == i && n % 4 == j - 1;
    }
  }

  /** Without aliasing, the first `i` rows hold the product and the rest is untouched. */
  lemma {:induction false} ILoopDistinct(s: seq<real>, a: seq<real>, b: seq<real>, i: nat)
    requires IsMatrix(s) && IsMatrix(a) && IsMatrix(b) && i <= 4
    ensures forall n :: 0 <= n < 16 ==>
              ILoop(s, a, b, false, i)[n] == if n < 4 * i then Product(a, b)[n] else s[n]
  {
    if i > 0 {
      ILoopDistinct(s, a, b, i - 1);
      JLoopDistinct(ILoop(s, a, b, false, i - 1), a, b, i - 1, 4);
    }
  }

  /** `multiply` into a buffer that is neither operand computes the product, whatever
      the buffer held before. */
  lemma MultipliedDistinct(s: seq<real>, a: seq<real>, b: seq<real>)
    requires IsMatrix(s) && IsMatrix(a) && IsMatrix(b)
    ensures Multiplied(s, a, b, false) == Product(a, b)
  {
    ILoopDistinct(s, a, b, 4);
  }

  /** Computing entry (i, j) writes only that entry. */
  lemma {:induction false} KLoopFrame(s: seq<real>, a: seq<real>, b: seq<real>, aliased: bool,
                                      i: nat, j: nat, k: nat)
    requires IsMatrix(s) && IsMatrix(a) && IsMatrix(b) && i < 4 && j < 4 && k <= 4
    ensures forall n :: 0 <= n < 16 && n != 4 * i + j ==> KLoop(s, a, b, aliased, i, j, k)[n] == s[n]
  {
    if k > 0 {
      KLoopFrame(s, a, b, aliased, i, j, k - 1);
    }
  }

  /** Computing the first `j` entries of row `i` writes only those entries. */
  lemma {:induction false} JLoopFrame(s: seq<real>, a: seq<real>, b: seq<real>, aliased: bool, i: nat, j: nat)
    requires IsMatrix(s) && IsMatrix(a) && IsMatrix(b) && i < 4 && j <= 4
    ensures forall n :: 0 <= n < 16 && !(4 * i <= n < 4 * i + j) ==> JLoop(s, a, b, aliased, i, j)[n] == s[n]
  {
    if j > 0 {
      JLoopFrame(s, a, b, aliased, i, j - 1);
      KLoopFrame(JLoop(s, a, b, aliased, i, j - 1), a, b, aliased, i, j - 1, 4);
    }
  }

  /** With `out` and `a` the same buffer, the first entry loses its diagonal term: by the
      time `a[0]` is read it has been reset to 0. */
  lemma AliasedFirstEntry(a: seq<real>, b: seq<real>)
    requires IsMatrix(a) && IsMatrix(b)
    ensures Multiplied(a, a, b, true)[0] == a[1] * b[4] + a[2] * b[8] + a[3] * b[12]
  {
    var i1 := ILoop(a, a, b, true, 1);
    var i2 := ILoop(a, a, b, true, 2);
    var i3 := ILoop(a, a, b, true, 3);
    assert ILoop(a, a, b, true, 0) == a;
    assert i1 == JLoop(a, a, b, true, 0, 4);
    JLoopFrame(i1, a, b, true, 1, 4);
    JLoopFrame(i2, a, b, true, 2, 4);
    JLoopFrame(i3, a, b, true, 3, 4);
    assert Multiplied(a, a, b, true)[0] == i1[0];
    var j1, j2, j3 := JLoop(a, a, b, true, 0, 1), JLoop(a, a, b, true, 0, 2), JLoop(a, a, b, true, 0, 3);
    KLoopFrame(j1, a, b, true, 0, 1, 4);
    KLoopFrame(j2, a, b, true, 0, 2, 4);
    KLoopFrame(j3, a, b, true, 0, 3, 4);
    assert i1[0] == j1[0];
    var t0 := KLoop(a, a, b, true, 0, 0, 0);
    var t1 := KLoop(a, a, b, true, 0, 0, 1);
    var t2 := KLoop(a, a, b, true, 0, 0, 2);
    var t3 := KLoop(a, a, b, true, 0, 0, 3);
    assert t0[0] == 0.0 && t0[1] == a[1] && t0[2] == a[2] && t0[3] == a[3];
    assert t1[0] == 0.0 && t1[1] == a[1] && t1[2] == a[2] && t1[3] == a[3];
    assert t2[0] == a[1] * b[4] && t2[2] == a[2] && t2[3] == a[3];
    assert t3[0] == a[1] * b[4] + a[2] * b[8] && t3[3] == a[3];
    assert JLoop(a, a, b, true, 0, 0) == a;
    assert j1 == KLoop(a, a, b, true, 0, 0, 4);
  }

  /** Whenever the first row of `a` is that of the identity (the identity matrix itself,
      say) and `b[0]` is not 0, `multiply(a, a, b)` leaves 0 in the first entry where the
      product has `b[0]`. */
  lemma AliasedMultiplyDiffers(a: seq<real>, b: seq<real>)
    requires IsMatrix(a) && IsMatrix(b)
    requires a[0] == 1.0 && a[1] == 0.0 && a[2] == 0.0 && a[3] == 0.0 && b[0] != 0.0
    ensures Multiplied(a, a, b, true)[0] == 0.0
    ensures Product(a, b)[0] == b[0]
    ensures Multiplied(a, a, b, true) != Product(a, b)
  {
    AliasedFirstEntry(a, b);
    assert Product(a, b)[0] == Entry(a, b, 0, 0);
  }

  /** The innermost loop of `multiply`: entry `(i, j)` of `out` is reset to 0 and the four
      products are added into it. */
  method AccumulateEntry(out: array<real>, a: array<real>, b: array<real>, i: nat, j: nat)
    requires out.Length == 16 && a.Length == 16 && b.Length == 16 && out != b && i < 4 && j < 4
    modifies out
    ensures out[..] == KLoop(old(out[..]), old(a[..]), b[..], out == a, i, j, 4)
  {
    ghost var entry, a0, b0 := out[..], a[..], b[..];
    ghost var aliased := out == a;
    out[i * 4 + j] := 0.0;
    for k := 0 to 4
      invariant !aliased ==> a[..] == a0
      invariant out[..] == KLoop(entry, a0, b0, aliased, i, j, k)
    {
      AddProduct(out, a, b, i, j, k);
    }
  }

  /** One step of the innermost loop, `out[i*4+j] += a[i*4+k] * b[k*4+j]`, where a read
      of `a` sees `out` as it was before the step when the two are the same buffer. */
  method AddProduct(out: array<real>, a: array<real>, b: array<real>, i: nat, j: nat, k: nat)
    requires out.Length == 16 && a.Length == 16 && b.Length == 16 && out != b && i < 4 && j < 4 && k < 4
    modifies out
    ensures out == a ==> out[..] == AddTerm(old(out[..]), old(out[..]), b[..], i, j, k)
    ensures out != a ==> out[..] == AddTerm(old(out[..]), a[..], b[..], i, j, k)
  {
    ghost var t := out[..];
    ghost var src := if out == a then t else a[..];
    ghost var bs := b[..];
    AddTermIs(t, src, bs, i, j, k);
    var v := out[i * 4 + j] + a[i * 4 + k] * b[k * 4 + j];
    assert v == t[4 * i + j] + src[4 * i + k] * bs[4 * k + j];
    out[i * 4 + j] := v;
    assert out[..] == t[4 * i + j := v];
  }

  /** `multiply(out, a, b)` as written: entry by entry, `out[i*4+j]` is reset to 0 and the
      four products are added into it, reading `a` and `b` as they are at that moment. */
  method Multiply(out: array<real>, a: array<real>, b: array<real>)
    requires out.Length == 16 && a.Length == 16 && b.Length == 16 && out != b
    modifies out
    ensures out[..] == Multiplied(old(out[..]), old(a[..]), b[..], out == a)
    ensures out != a ==> out[..] == Product(old(a[..]), b[..])
  {
    ghost var s0, a0, b0 := out[..], a[..], b[..];
    ghost var aliased := out == a;
    for i := 0 to 4
      invariant !aliased ==> a[..] == a0
      invariant out[..] == ILoop(s0, a0, b0, aliased, i)
    {
      ghost var row := out[..];
      for j := 0 to 4
        invariant !aliased ==> a[..] == a0
        invariant out[..] == JLoop(row, a0, b0, aliased, i, j)
      {
        ghost var before := out[..];
        AccumulateEntry(out, a, b, i, j);
        if aliased {
          KLoopAliased(before, before, a0, b0, i, j, 4);
        }
      }
      assert ILoop(s0, a0, b0, aliased, i + 1) == JLoop(row, a0, b0, aliased, i, 4);
    }
    if !aliased {
      MultipliedDistinct(s0, a0, b0);
    }
  }

  /** A fresh copy of a buffer, as `new Float32Array(a)` makes. */
  method Copy(a: array<real>) returns (c: array<real>)
    ensures fresh(c) && c[..] == a[..]
  {
    c := new real[a.Length];
    for k := 0 to a.Length
      invariant c[..k] == a[..k]
    {
      c[k] := a[k];
    }
  }

  /** `multiply` made safe for `out == a` or `out == b` by reading copies of the operands,
      as the viewer's `rotateX` and `rotateY` already do for their input. */
  method MultiplySafe(out: array<real>, a: array<real>, b: array<real>)
    requires out.Length == 16 && a.Length == 16 && b.Length == 16
    modifies out
    ensures out[..] == Product(old(a[..]), old(b[..]))
  {
    var tempA := Copy(a);
    var tempB := Copy(b);
    Multiply(out, tempA, tempB);
    assert out[..] == Product(tempA[..], tempB[..]);
  }

  /** The model-view-projection product as written: `multiply(mvp, projection, view)` into a
      fresh buffer, then `multiply(mvp, mvp, model)` in place. */
  method ComposeMvpAsWritten(projection: array<real>, view: array<real>, model: array<real>)
    returns (mvp: array<real>)
    requires projection.Length == 16 && view.Length == 16 && model.Length == 16
    ensures var pv := Product(projection[..], view[..]);
            mvp[..] == Multiplied(pv, pv, model[..], true)
  {
    mvp := new real[16];
    Multiply(mvp, projection, view);
    Multiply(mvp, mvp, model);
  }

  /** The model-view-projection product `projection * view * model`, with the second
      multiplication reading copies of its operands. */
  method ComposeMvp(projection: array<real>, view: array<real>, model: array<real>)
    returns (mvp: array<real>)
    requires projection.Length == 16 && view.Length == 16 && model.Length == 16
    ensures mvp[..] == Product(Product(projection[..], view[..]), model[..])
  {
    mvp := new real[16];
    Multiply(mvp, projection, view);
    MultiplySafe(mvp, mvp, model);
  }
}
