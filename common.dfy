/** Values shared by every part of the model: 2D vectors, optional results and
    the few JavaScript numeric conversions the source relies on. */
module Common {

  /** A 2D point or displacement (the source's `Vector` class, a plain value). */
  datatype Vec2 = Vec2(x: real, y: real) {
    function Plus(o: Vec2): Vec2 { Vec2(x + o.x, y + o.y) }
    function Minus(o: Vec2): Vec2 { Vec2(x - o.x, y - o.y) }
  }

  /** A 3D point or direction (a `[number, number, number]` triple in the source). */
  datatype Vec3 = Vec3(x: real, y: real, z: real) {
    function Plus(o: Vec3): Vec3 { Vec3(x + o.x, y + o.y, z + o.z) }
    function Minus(o: Vec3): Vec3 { Vec3(x - o.x, y - o.y, z - o.z) }
    function Scale(s: real): Vec3 { Vec3(x * s, y * s, z * s) }
  }

  datatype Option<+T> = None | Some(value: T)

  /** `Math.floor` on a real, as an integer. */
  function Floor(r: real): int { r.Floor }

  /** `Math.trunc`: rounds toward zero, unlike Dafny's `.Floor`. */
  function Trunc(r: real): int {
    if r >= 0.0 then r.Floor else -((-r).Floor)
  }

  /** `Math.round`: halves round toward positive infinity. */
  function Round(r: real): int { (r + 0.5).Floor }

  /** `Math.ceil`. */
  function Ceil(r: real): int { -((-r).Floor) }

  /** JavaScript's `%` on integers: the remainder takes the sign of the dividend. */
  function JsRem(a: int, b: int): int
    requires b > 0
  {
    if a >= 0 then a % b else -((-a) % b)
  }

  function Abs(r: real): real { if r < 0.0 then -r else r }

  function AbsInt(n: int): int { if n < 0 then -n else n }

  function MinInt(a: int, b: int): int { if a <= b then a else b }

  function MaxInt(a: int, b: int): int { if a >= b then a else b }

  lemma RoundWithin(a: int, b: int, r: real)
    requires a as real <= r <= b as real
    ensures a <= Round(r) <= b
  {
  }

  lemma MulSucc(a: int, b: int)
    ensures (a + 1) * b == a * b + b
  {
  }

  lemma MulAtLeast(a: nat, b: nat, c: nat)
    requires a <= b
    ensures a * c <= b * c
  {
  }

  /** Splitting a flat index into a row of width `len` and a column. */
  lemma DivModFlat(q: nat, r: nat, len: nat)
    requires r < len
    ensures (q * len + r) / len == q && (q * len + r) % len == r
  {
    var x := q * len + r;
    var a, b := x / len, x % len;
    assert x == a * len + b && 0 <= b < len;
    if a > q {
      MulAtLeast(q + 1, a, len);
    } else if a < q {
      MulAtLeast(a + 1, q, len);
    }
  }

  lemma FlatIndexBound(p: nat, i: nat, n: nat, len: nat)
    requires p < n && i < len
    ensures p * len + i < n * len
  {
    MulAtLeast(p + 1, n, len);
  }

  /** A nonzero factor cancels from both sides. */
  lemma ScaleCancel(a: int, b: int, g: real)
    requires g != 0.0 && a as real * g == b as real * g
    ensures a == b
  {
    assert (a - b) as real * g == 0.0;
  }

  lemma DivBound(g: nat, n: nat, len: nat)
    requires g < n * len
    ensures len > 0 && g / len < n && g % len < len
  {
    if g / len >= n {
      MulAtLeast(n, g / len, len);
    }
  }

  /** A slice inside the front part of a concatenation is a slice of that part. */
  lemma SliceOfAppend<T>(a: seq<T>, b: seq<T>, lo: nat, hi: nat)
    requires lo <= hi <= |a|
    ensures (a + b)[lo..hi] == a[lo..hi]
  {
  }

  /** A longer prefix is a shorter prefix followed by the slice between them. */
  lemma PrefixExtends<T>(s: seq<T>, a: nat, b: nat)
    requires a <= b <= |s|
    ensures s[..b] == s[..a] + s[a..b]
  {
  }

  /** The back part of a concatenation is its slice after the front part. */
  lemma SliceAfterAppend<T>(a: seq<T>, b: seq<T>)
    ensures (a + b)[|a|..|a| + |b|] == b
  {
  }
}
