/** The scanline rasteriser of the image demo's mesh optimiser: pixel writes
    into an RGBA byte array, the per-row span buffers that `line` fills, and
    `triangle`, which either paints a triangle in its average colour or
    measures how far the source image is from that colour. */
module Raster {
  import opened Common

  /** The canvas the optimiser draws on. */
  const Width: int := 1024
  const Height: int := 768
  /** Four bytes per pixel of the 1024 x 768 canvas. */
  const ImageBytes: int := 3145728

  // setPixel / setPixelXY

  /** Storing a number into a `Uint8ClampedArray`: clamped to `[0, 255]`,
      then rounded to the nearest integer, halves to even. */
  function ClampByte(v: real): (b: int)
    ensures 0 <= b <= 255
    ensures v <= 0.0 ==> b == 0
    ensures 255.0 <= v ==> b == 255
    ensures 0.0 <= v <= 255.0 ==> -0.5 <= b as real - v <= 0.5
  {
    if v <= 0.0 then 0
    else if v >= 255.0 then 255
    else
      var f := v.Floor;
      if v - f as real < 0.5 then f
      else if v - f as real > 0.5 then f + 1
      else if f % 2 == 0 then f else f + 1
  }

  /** A byte value is stored as it is. */
  lemma ClampByteExact(n: int)
    requires 0 <= n <= 255
    ensures ClampByte(n as real) == n
  {
  }

  /** One store into a typed array: an index outside the array is ignored. */
  function StoreByte(d: seq<int>, i: int, v: int): seq<int> {
    if 0 <= i < |d| then d[i := v] else d
  }

  /** The bytes after `setPixel(d, index, r, g, b, a)`. */
  function WritePixel(d: seq<int>, index: int, r: int, g: int, b: int, a: int): seq<int> {
    var i := index * 4;
    StoreByte(StoreByte(StoreByte(StoreByte(d, i, r), i + 1, g), i + 2, b), i + 3, a)
  }

  /** `setPixel` writes the four bytes of pixel `index` that exist and no other byte. */
  lemma WritePixelEffect(d: seq<int>, index: int, r: int, g: int, b: int, a: int)
    ensures var e := WritePixel(d, index, r, g, b, a);
      |e| == |d| &&
      (forall k :: 0 <= k < |d| ==>
        e[k] == if k == index * 4 then r else if k == index * 4 + 1 then g
                else if k == index * 4 + 2 then b else if k == index * 4 + 3 then a else d[k])
  {
  }

  /** One `d[i++] = v` of `setPixel`. */
  method StoreClamped(d: array<int>, i: int, v: real)
    modifies d
    ensures d[..] == StoreByte(old(d[..]), i, ClampByte(v))
  {
    if 0 <= i < d.Length {
      d[i] := ClampByte(v);
    }
  }

  method SetPixel(d: array<int>, index: int, r: real, g: real, b: real, a: real)
    modifies d
    ensures d[..] == WritePixel(old(d[..]), index, ClampByte(r), ClampByte(g), ClampByte(b), ClampByte(a))
  {
    var i := index * 4;
    StoreClamped(d, i, r);
    StoreClamped(d, i + 1, g);
    StoreClamped(d, i + 2, b);
    StoreClamped(d, i + 3, a);
  }

  method SetPixelXY(d: array<int>, width: int, x: int, y: int, r: real, g: real, b: real, a: real)
    modifies d
    ensures d[..] == WritePixel(old(d[..]), y * width + x, ClampByte(r), ClampByte(g), ClampByte(b), ClampByte(a))
  {
    SetPixel(d, y * width + x, r, g, b, a);
  }

  /** Row-major indexing: distinct pixels of a row width have distinct indices. */
  lemma PixelIndexInjective(width: int, x1: int, y1: nat, x2: int, y2: nat)
    requires 0 <= x1 < width && 0 <= x2 < width
    requires y1 * width + x1 == y2 * width + x2
    ensures x1 == x2 && y1 == y2
  {
    if y1 < y2 {
      MulAtLeast(y1 + 1, y2, width);
    } else if y2 < y1 {
      MulAtLeast(y2 + 1, y1, width);
    }
  }

  // line

  /** Whether `line(x1, y1, x2, y2)` stores anything on `row`: only rows from
      `y1` to `y2` that the buffers hold (reading past them gives `undefined`,
      which no comparison accepts), and nothing for a horizontal edge, whose
      `0 / 0` step is not a number. */
  predicate Plots(y1: int, y2: int, row: int) {
    y1 != y2 && MinInt(y1, y2) <= row <= MaxInt(y1, y2) && 0 <= row < Height
  }

  /** The column `line` computes on `row`, rounded by `Math.round`. */
  function LineX(x1: int, y1: int, x2: int, y2: int, row: int): int
    requires y1 != y2
  {
    Round(x1 as real + ((x2 - x1) * (row - y1)) as real / (y2 - y1) as real)
  }

  /** The left bound of `row` after the edge: lowered to the edge's column. */
  function EdgeLo(lo: int, x1: int, y1: int, x2: int, y2: int, row: int): int {
    if Plots(y1, y2, row) then MinInt(lo, LineX(x1, y1, x2, y2, row)) else lo
  }

  /** The right bound of `row` after the edge: raised to the edge's column. */
  function EdgeHi(hi: int, x1: int, y1: int, x2: int, y2: int, row: int): int {
    if Plots(y1, y2, row) then MaxInt(hi, LineX(x1, y1, x2, y2, row)) else hi
  }

  /** The edge starts at `(x1, y1)` and ends at `(x2, y2)`. */
  lemma LineEnds(x1: int, y1: int, x2: int, y2: int)
    requires y1 != y2
    ensures LineX(x1, y1, x2, y2, y1) == x1 && LineX(x1, y1, x2, y2, y2) == x2
  {
    assert ((x2 - x1) * (y2 - y1)) as real / (y2 - y1) as real == (x2 - x1) as real;
  }

  /** A product over a non-zero denominator is a scaled quotient. */
  lemma DivScale(a: int, b: int, d: int)
    requires d != 0
    ensures (a * b) as real / d as real == a as real * (b as real / d as real)
  {
    assert (a * b) as real == a as real * b as real;
  }

  /** A fraction whose numerator lies between 0 and the denominator lies in `[0, 1]`. */
  lemma FractionInUnit(a: int, d: int)
    requires (0 < d && 0 <= a <= d) || (d < 0 && d <= a <= 0)
    ensures 0.0 <= a as real / d as real <= 1.0
  {
    if d < 0 {
      assert a as real / d as real == (-a) as real / (-d) as real;
    }
  }

  /** Scaling by a factor in `[0, 1]` stays between 0 and the value. */
  lemma ScaleInUnit(k: real, s: real)
    requires 0.0 <= s <= 1.0
    ensures 0.0 <= k ==> 0.0 <= k * s <= k
    ensures k < 0.0 ==> k <= k * s <= 0.0
  {
    if 0.0 <= k {
      assert k * s <= k * 1.0;
    } else {
      assert k * 1.0 <= k * s;
    }
  }

  /** Counting rows from the other end of the edge. */
  lemma FractionFromOtherEnd(y1: int, y2: int, row: int)
    requires y1 != y2
    ensures (row - y2) as real / (y1 - y2) as real == 1.0 - (row - y1) as real / (y2 - y1) as real
  {
    var d, a := (y2 - y1) as real, (row - y1) as real;
    var q, r := a / d, (row - y2) as real / (y1 - y2) as real;
    assert q * d == a;
    assert r * -d == a - d by {
      assert (row - y2) as real == a - d && (y1 - y2) as real == -d;
    }
    assert (r - (1.0 - q)) * -d == 0.0;
    ZeroFactor(r - (1.0 - q), -d);
  }

  /** A product with a non-zero factor is zero only when the other factor is. */
  lemma ZeroFactor(x: real, d: real)
    requires d != 0.0 && x * d == 0.0
    ensures x == 0.0
  {
  }

  /** An edge gives the same columns whichever end it is drawn from. */
  lemma LineReversed(x1: int, y1: int, x2: int, y2: int, row: int)
    requires y1 != y2
    ensures LineX(x1, y1, x2, y2, row) == LineX(x2, y2, x1, y1, row)
  {
    var s := (row - y1) as real / (y2 - y1) as real;
    DivScale(x2 - x1, row - y1, y2 - y1);
    DivScale(x1 - x2, row - y2, y1 - y2);
    FractionFromOtherEnd(y1, y2, row);
    assert (x1 - x2) as real * (1.0 - s) == (x1 - x2) as real + (x2 - x1) as real * s;
  }

  /** A point part way along from `x1` to `x2`, rounded, lies between them. */
  lemma RoundBetween(x1: int, x2: int, s: real)
    requires 0.0 <= s <= 1.0
    ensures MinInt(x1, x2) <= Round(x1 as real + (x2 - x1) as real * s) <= MaxInt(x1, x2)
  {
    ScaleInUnit((x2 - x1) as real, s);
    RoundWithin(MinInt(x1, x2), MaxInt(x1, x2), x1 as real + (x2 - x1) as real * s);
  }

  /** Between its end rows an edge stays between its end columns. */
  lemma LineWithin(x1: int, y1: int, x2: int, y2: int, row: int)
    requires y1 != y2 && MinInt(y1, y2) <= row <= MaxInt(y1, y2)
    ensures MinInt(x1, x2) <= LineX(x1, y1, x2, y2, row) <= MaxInt(x1, x2)
  {
    FractionInUnit(row - y1, y2 - y1);
    DivScale(x2 - x1, row - y1, y2 - y1);
    RoundBetween(x1, x2, (row - y1) as real / (y2 - y1) as real);
  }

  /** Rows `y1`, `y1 + 1`, ... (or `y1`, `y1 - 1`, ...) of the two loops of
      `line` compute the same column as `LineX`. */
  lemma LineStep(x1: int, y1: int, x2: int, y2: int, y: int)
    requires y1 != y2
    ensures y2 - y1 > 0 ==>
      Round(x1 as real + ((x2 - x1) * y) as real / (y2 - y1) as real) == LineX(x1, y1, x2, y2, y1 + y)
    ensures y2 - y1 < 0 ==>
      Round(x1 as real - ((x2 - x1) * y) as real / (y2 - y1) as real) == LineX(x1, y1, x2, y2, y1 - y)
  {
    assert (y1 + y) - y1 == y;
    assert (x2 - x1) * ((y1 - y) - y1) == -((x2 - x1) * y);
    assert (-((x2 - x1) * y)) as real / (y2 - y1) as real == -(((x2 - x1) * y) as real / (y2 - y1) as real);
  }

  // triangle

  /** A triangle's corners, already truncated to integers. */
  datatype Tri = Tri(x1: int, y1: int, x2: int, y2: int, x3: int, y3: int)

  predicate InCanvas(t: Tri) {
    0 <= t.x1 < Width && 0 <= t.x2 < Width && 0 <= t.x3 < Width &&
    0 <= t.y1 < Height && 0 <= t.y2 < Height && 0 <= t.y3 < Height
  }

  function YMin(t: Tri): int { MinInt(MinInt(t.y1, t.y2), t.y3) }

  function YMax(t: Tri): int { MaxInt(MaxInt(t.y1, t.y2), t.y3) }

  /** The left bound of `row` once the rows are reset to 9999 and the three
      edges are drawn. */
  function SpanLo(t: Tri, row: int): int {
    EdgeLo(EdgeLo(EdgeLo(9999, t.x1, t.y1, t.x2, t.y2, row), t.x2, t.y2, t.x3, t.y3, row), t.x3, t.y3, t.x1, t.y1, row)
  }

  /** The right bound of `row` once the rows are reset to 0 and the three
      edges are drawn. */
  function SpanHi(t: Tri, row: int): int {
    EdgeHi(EdgeHi(EdgeHi(0, t.x1, t.y1, t.x2, t.y2, row), t.x2, t.y2, t.x3, t.y3, row), t.x3, t.y3, t.x1, t.y1, row)
  }

  /** Every span lies in the canvas: its right bound is a column of the
      canvas, and so is its left bound unless the span is empty. */
  lemma SpanWithin(t: Tri, row: int)
    requires InCanvas(t)
    ensures 0 <= SpanHi(t, row) < Width
    ensures SpanLo(t, row) <= SpanHi(t, row) ==> 0 <= SpanLo(t, row)
  {
    if Plots(t.y1, t.y2, row) { LineWithin(t.x1, t.y1, t.x2, t.y2, row); }
    if Plots(t.y2, t.y3, row) { LineWithin(t.x2, t.y2, t.x3, t.y3, row); }
    if Plots(t.y3, t.y1, row) { LineWithin(t.x3, t.y3, t.x1, t.y1, row); }
  }

  /** A row strictly between the top and bottom corners, or one that a
      non-horizontal edge reaches, has a span holding that edge's column. */
  lemma SpanCoversEdges(t: Tri, row: int)
    ensures Plots(t.y1, t.y2, row) ==> SpanLo(t, row) <= LineX(t.x1, t.y1, t.x2, t.y2, row) <= SpanHi(t, row)
    ensures Plots(t.y2, t.y3, row) ==> SpanLo(t, row) <= LineX(t.x2, t.y2, t.x3, t.y3, row) <= SpanHi(t, row)
    ensures Plots(t.y3, t.y1, row) ==> SpanLo(t, row) <= LineX(t.x3, t.y3, t.x1, t.y1, row) <= SpanHi(t, row)
  {
  }

  /** The left bounds of the triangle's rows, as a function of the row. */
  function LoOf(t: Tri): int -> int {
    r => SpanLo(t, r)
  }

  /** The right bounds of the triangle's rows. */
  function HiOf(t: Tri): int -> int {
    r => SpanHi(t, r)
  }

  /** Red, green and blue sums and the pixel count of the spans. */
  datatype Totals = Totals(r: int, g: int, b: int, count: int)

  /** Columns `x .. end - 1` of row `y` are pixels of the canvas, or there are none. */
  predicate SpanOk(y: int, x: int, end: int) {
    end <= x || (0 <= x && end <= Width && 0 <= y < Height)
  }

  /** Every span of rows `y .. ymax` is in the canvas or empty. */
  predicate SpansOk(lo: int -> int, hi: int -> int, y: int, ymax: int) {
    forall r :: y <= r <= ymax ==> SpanOk(r, lo(r), hi(r) + 1)
  }

  lemma TriangleSpansOk(t: Tri)
    requires InCanvas(t)
    ensures SpansOk(LoOf(t), HiOf(t), YMin(t), YMax(t))
  {
    forall r | YMin(t) <= r <= YMax(t)
      ensures SpanOk(r, LoOf(t)(r), HiOf(t)(r) + 1)
    {
      SpanWithin(t, r);
    }
  }

  /** The sums after adding columns `x .. end - 1` of row `y` to `acc`,
      reading byte `(y * 1024 + x) * 4` and the two after it. */
  function RowTotals(src: seq<int>, y: int, x: int, end: int, acc: Totals): Totals
    requires |src| == ImageBytes && SpanOk(y, x, end)
    decreases end - x
  {
    if end <= x then acc
    else
      var pos := y * 4096 + x * 4;
      RowTotals(src, y, x + 1, end, Totals(acc.r + src[pos], acc.g + src[pos + 1], acc.b + src[pos + 2], acc.count + 1))
  }

  /** The sums after adding the spans of rows `y .. ymax` to `acc`. */
  function SpansTotals(src: seq<int>, lo: int -> int, hi: int -> int, y: int, ymax: int, acc: Totals): Totals
    requires |src| == ImageBytes && SpansOk(lo, hi, y, ymax)
    decreases ymax + 1 - y
  {
    if y > ymax then acc
    else SpansTotals(src, lo, hi, y + 1, ymax, RowTotals(src, y, lo(y), hi(y) + 1, acc))
  }

  /** The channel averages `triangle` divides out. When no pixel was counted
      every span is empty, so the `0 / 0` of the source is never read; the
      model puts 0 there. */
  datatype Color = Color(r: real, g: real, b: real)

  function Average(tot: Totals): Color {
    if tot.count == 0 then Color(0.0, 0.0, 0.0)
    else Color(tot.r as real / tot.count as real, tot.g as real / tot.count as real, tot.b as real / tot.count as real)
  }

  function TriangleTotals(src: seq<int>, t: Tri): Totals
    requires |src| == ImageBytes && InCanvas(t)
  {
    TriangleSpansOk(t);
    SpansTotals(src, LoOf(t), HiOf(t), YMin(t), YMax(t), Totals(0, 0, 0, 0))
  }

  function TriangleAverage(src: seq<int>, t: Tri): Color
    requires |src| == ImageBytes && InCanvas(t)
  {
    Average(TriangleTotals(src, t))
  }

  /** The squared channel differences `ri * ri + gi * gi + bi * bi` of one pixel. */
  function PixelError(src: seq<int>, pos: int, avg: Color): real
    requires 0 <= pos && pos + 2 < |src|
  {
    var ri, gi, bi := avg.r - src[pos] as real, avg.g - src[pos + 1] as real, avg.b - src[pos + 2] as real;
    ri * ri + gi * gi + bi * bi
  }

  /** The error after adding the squared differences of columns `x .. end - 1` of row `y`. */
  function RowError(src: seq<int>, y: int, x: int, end: int, avg: Color, acc: real): real
    requires |src| == ImageBytes && SpanOk(y, x, end)
    decreases end - x
  {
    if end <= x then acc
    else RowError(src, y, x + 1, end, avg, acc + PixelError(src, y * 4096 + x * 4, avg))
  }

  function SpansError(src: seq<int>, lo: int -> int, hi: int -> int, y: int, ymax: int, avg: Color, acc: real): real
    requires |src| == ImageBytes && SpansOk(lo, hi, y, ymax)
    decreases ymax + 1 - y
  {
    if y > ymax then acc
    else SpansError(src, lo, hi, y + 1, ymax, avg, RowError(src, y, lo(y), hi(y) + 1, avg, acc))
  }

  /** What `triangle` returns when it does not draw: the summed squared
      channel differences of the span pixels from their average. */
  function TriangleError(src: seq<int>, t: Tri): real
    requires |src| == ImageBytes && InCanvas(t)
  {
    ErrorFrom(src, t, TriangleAverage(src, t))
  }

  /** The squared differences of the span pixels from `avg`. */
  function ErrorFrom(src: seq<int>, t: Tri, avg: Color): real
    requires |src| == ImageBytes && InCanvas(t)
  {
    TriangleSpansOk(t);
    SpansError(src, LoOf(t), HiOf(t), YMin(t), YMax(t), avg, 0.0)
  }

  lemma {:induction false} RowErrorGrows(src: seq<int>, y: int, x: int, end: int, avg: Color, acc: real)
    requires |src| == ImageBytes && SpanOk(y, x, end)
    ensures RowError(src, y, x, end, avg, acc) >= acc
    decreases end - x
  {
    if x < end {
      var pos := y * 4096 + x * 4;
      var e := PixelError(src, pos, avg);
      PixelErrorNonNegative(src, pos, avg);
      RowErrorGrows(src, y, x + 1, end, avg, acc + e);
    }
  }

  /** A squared colour difference is never negative. */
  lemma PixelErrorNonNegative(src: seq<int>, pos: int, avg: Color)
    requires 0 <= pos && pos + 2 < |src|
    ensures PixelError(src, pos, avg) >= 0.0
  {
    var ri, gi, bi := avg.r - src[pos] as real, avg.g - src[pos + 1] as real, avg.b - src[pos + 2] as real;
    assert ri * ri >= 0.0 && gi * gi >= 0.0 && bi * bi >= 0.0;
  }

  lemma {:induction false} SpansErrorGrows(src: seq<int>, lo: int -> int, hi: int -> int, y: int, ymax: int, avg: Color, acc: real)
    requires |src| == ImageBytes && SpansOk(lo, hi, y, ymax)
    ensures SpansError(src, lo, hi, y, ymax, avg, acc) >= acc
    decreases ymax + 1 - y
  {
    if y <= ymax {
      RowErrorGrows(src, y, lo(y), hi(y) + 1, avg, acc);
      SpansErrorGrows(src, lo, hi, y + 1, ymax, avg, RowError(src, y, lo(y), hi(y) + 1, avg, acc));
    }
  }

  /** The error of a triangle is never negative. */
  lemma TriangleErrorNonNegative(src: seq<int>, t: Tri)
    requires |src| == ImageBytes && InCanvas(t)
    ensures TriangleError(src, t) >= 0.0
  {
    TriangleSpansOk(t);
    SpansErrorGrows(src, LoOf(t), HiOf(t), YMin(t), YMax(t), TriangleAverage(src, t), 0.0);
  }

  /** The bytes stored for one pixel of the average colour, opaque. */
  datatype Paint = Paint(r: int, g: int, b: int)

  function PaintOf(avg: Color): Paint {
    Paint(ClampByte(avg.r), ClampByte(avg.g), ClampByte(avg.b))
  }

  /** `setPixelXY` on columns `x .. end - 1` of row `y` of the 1024-wide canvas. */
  function PaintRow(d: seq<int>, y: int, x: int, end: int, p: Paint): seq<int>
    decreases end - x
  {
    if end <= x then d
    else PaintRow(WritePixel(d, y * 1024 + x, p.r, p.g, p.b, 255), y, x + 1, end, p)
  }

  function PaintSpans(d: seq<int>, lo: int -> int, hi: int -> int, y: int, ymax: int, p: Paint): seq<int>
    decreases ymax + 1 - y
  {
    if y > ymax then d
    else PaintSpans(PaintRow(d, y, lo(y), hi(y) + 1, p), lo, hi, y + 1, ymax, p)
  }

  /** Summing rows `y .. ymax` is summing row `y` and then rows `y + 1 .. ymax`. */
  lemma SpansTotalsStep(src: seq<int>, lo: int -> int, hi: int -> int, y: int, ymax: int, acc: Totals)
    requires |src| == ImageBytes && SpansOk(lo, hi, y, ymax) && y <= ymax
    ensures SpanOk(y, lo(y), hi(y) + 1) && SpansOk(lo, hi, y + 1, ymax)
    ensures SpansTotals(src, lo, hi, y, ymax, acc) == SpansTotals(src, lo, hi, y + 1, ymax, RowTotals(src, y, lo(y), hi(y) + 1, acc))
  {
  }

  /** The error of rows `y .. ymax` is that of row `y` and then of rows `y + 1 .. ymax`. */
  lemma SpansErrorStep(src: seq<int>, lo: int -> int, hi: int -> int, y: int, ymax: int, avg: Color, acc: real)
    requires |src| == ImageBytes && SpansOk(lo, hi, y, ymax) && y <= ymax
    ensures SpanOk(y, lo(y), hi(y) + 1) && SpansOk(lo, hi, y + 1, ymax)
    ensures SpansError(src, lo, hi, y, ymax, avg, acc) == SpansError(src, lo, hi, y + 1, ymax, avg, RowError(src, y, lo(y), hi(y) + 1, avg, acc))
  {
  }

  /** Painting rows `y .. ymax` is painting row `y` and then rows `y + 1 .. ymax`. */
  lemma PaintSpansStep(d: seq<int>, lo: int -> int, hi: int -> int, y: int, ymax: int, p: Paint)
    requires y <= ymax
    ensures PaintSpans(d, lo, hi, y, ymax, p) == PaintSpans(PaintRow(d, y, lo(y), hi(y) + 1, p), lo, hi, y + 1, ymax, p)
  {
  }

  /** The bytes after `triangle` draws: every span pixel in the average colour. */
  function PaintTriangle(d: seq<int>, src: seq<int>, t: Tri): seq<int>
    requires |src| == ImageBytes && InCanvas(t)
  {
    PaintSpans(d, LoOf(t), HiOf(t), YMin(t), YMax(t), PaintOf(TriangleAverage(src, t)))
  }

  /** Byte `c` of the colour a painted pixel gets. */
  function PaintByte(p: Paint, c: int): int {
    if c == 0 then p.r else if c == 1 then p.g else if c == 2 then p.b else 255
  }

  lemma {:induction false} PaintRowEffect(d: seq<int>, y: int, x: int, end: int, p: Paint, px: int, py: int, c: int)
    requires |d| == ImageBytes && 0 <= y < Height && 0 <= x && end <= Width
    requires 0 <= px < Width && 0 <= py < Height && 0 <= c < 4
    ensures |PaintRow(d, y, x, end, p)| == ImageBytes
    ensures PaintRow(d, y, x, end, p)[(py * 1024 + px) * 4 + c] ==
      if py == y && x <= px < end then PaintByte(p, c) else d[(py * 1024 + px) * 4 + c]
    decreases end - x
  {
    if x < end {
      var e := WritePixel(d, y * 1024 + x, p.r, p.g, p.b, 255);
      WritePixelEffect(d, y * 1024 + x, p.r, p.g, p.b, 255);
      PaintRowEffect(e, y, x + 1, end, p, px, py, c);
      if py * 1024 + px == y * 1024 + x {
        PixelIndexInjective(1024, px, py, x, y);
      }
    }
  }

  lemma {:induction false} PaintSpansEffect(d: seq<int>, lo: int -> int, hi: int -> int, y: int, ymax: int, p: Paint,
                                            px: int, py: int, c: int)
    requires |d| == ImageBytes && SpansOk(lo, hi, y, ymax)
    requires 0 <= px < Width && 0 <= py < Height && 0 <= c < 4
    ensures |PaintSpans(d, lo, hi, y, ymax, p)| == ImageBytes
    ensures PaintSpans(d, lo, hi, y, ymax, p)[(py * 1024 + px) * 4 + c] ==
      if y <= py <= ymax && lo(py) <= px <= hi(py) then PaintByte(p, c) else d[(py * 1024 + px) * 4 + c]
    decreases ymax + 1 - y
  {
    if y <= ymax {
      var e := PaintRow(d, y, lo(y), hi(y) + 1, p);
      assert SpanOk(y, lo(y), hi(y) + 1);
      if lo(y) <= hi(y) {
        PaintRowEffect(d, y, lo(y), hi(y) + 1, p, px, py, c);
      }
      PaintSpansEffect(e, lo, hi, y + 1, ymax, p, px, py, c);
    }
  }

  /** The pixel at `(x, y)` lies on a span of the triangle. */
  predicate OnTriangle(t: Tri, x: int, y: int) {
    YMin(t) <= y <= YMax(t) && SpanLo(t, y) <= x <= SpanHi(t, y)
  }

  /** Drawing paints exactly the span pixels, each in the triangle's average
      colour with full opacity, and leaves every other byte as it was. */
  lemma PaintTriangleEffect(d: seq<int>, src: seq<int>, t: Tri, px: int, py: int, c: int)
    requires |d| == ImageBytes && |src| == ImageBytes && InCanvas(t)
    requires 0 <= px < Width && 0 <= py < Height && 0 <= c < 4
    ensures |PaintTriangle(d, src, t)| == ImageBytes
    ensures PaintTriangle(d, src, t)[(py * 1024 + px) * 4 + c] ==
      if OnTriangle(t, px, py) then PaintByte(PaintOf(TriangleAverage(src, t)), c)
      else d[(py * 1024 + px) * 4 + c]
  {
    TriangleSpansOk(t);
    PaintSpansEffect(d, LoOf(t), HiOf(t), YMin(t), YMax(t), PaintOf(TriangleAverage(src, t)), px, py, c);
  }

  /** The two span buffers of `main.js`, one entry per canvas row. */
  class Spans {
    const minBuffer: array<int>
    const maxBuffer: array<int>

    ghost predicate Valid() {
      minBuffer.Length == Height && maxBuffer.Length == Height && minBuffer != maxBuffer
    }

    /** Rows `YMin(t) .. YMax(t)` hold the spans of `t`. */
    ghost predicate Holds(t: Tri)
      requires Valid()
      reads minBuffer, maxBuffer
    {
      forall r :: YMin(t) <= r <= YMax(t) && 0 <= r < Height ==>
        minBuffer[r] == LoOf(t)(r) && maxBuffer[r] == HiOf(t)(r)
    }

    /** `init`: 768 rows with both bounds 0. */
    constructor ()
      ensures Valid() && fresh(minBuffer) && fresh(maxBuffer)
      ensures forall r :: 0 <= r < Height ==> minBuffer[r] == 0 && maxBuffer[r] == 0
    {
      minBuffer := new int[768](_ => 0);
      maxBuffer := new int[768](_ => 0);
    }

    /** One column `x` on `row`: the bounds widen to take it in. */
    method Plot(row: int, x: int)
      requires Valid()
      modifies minBuffer, maxBuffer
      ensures forall r :: 0 <= r < Height ==>
        minBuffer[r] == (if r == row then MinInt(old(minBuffer[r]), x) else old(minBuffer[r])) &&
        maxBuffer[r] == (if r == row then MaxInt(old(maxBuffer[r]), x) else old(maxBuffer[r]))
    {
      if 0 <= row < Height {
        if x < minBuffer[row] {
          minBuffer[row] := x;
        }
        if x > maxBuffer[row] {
          maxBuffer[row] := x;
        }
      }
    }

    /** `line`: each row the edge reaches gets the edge's column. */
    method Line(x1: int, y1: int, x2: int, y2: int)
      requires Valid()
      modifies minBuffer, maxBuffer
      ensures forall r :: 0 <= r < Height ==>
        minBuffer[r] == EdgeLo(old(minBuffer[r]), x1, y1, x2, y2, r) &&
        maxBuffer[r] == EdgeHi(old(maxBuffer[r]), x1, y1, x2, y2, r)
    {
      var xdelta := x2 - x1;
      var ydelta := y2 - y1;
      if ydelta >= 0 {
        var y := 0;
        while y <= ydelta
          invariant 0 <= y <= ydelta + 1
          invariant forall r :: 0 <= r < Height ==>
            minBuffer[r] == (if y1 <= r < y1 + y then EdgeLo(old(minBuffer[r]), x1, y1, x2, y2, r) else old(minBuffer[r])) &&
            maxBuffer[r] == (if y1 <= r < y1 + y then EdgeHi(old(maxBuffer[r]), x1, y1, x2, y2, r) else old(maxBuffer[r]))
        {
          if ydelta != 0 {
            var x := Round(x1 as real + (xdelta * y) as real / ydelta as real);
            LineStep(x1, y1, x2, y2, y);
            Plot(y1 + y, x);
          }
          y := y + 1;
        }
      } else {
        var y := 0;
        while y <= -ydelta
          invariant 0 <= y <= -ydelta + 1
          invariant forall r :: 0 <= r < Height ==>
            minBuffer[r] == (if y1 - y < r <= y1 then EdgeLo(old(minBuffer[r]), x1, y1, x2, y2, r) else old(minBuffer[r])) &&
            maxBuffer[r] == (if y1 - y < r <= y1 then EdgeHi(old(maxBuffer[r]), x1, y1, x2, y2, r) else old(maxBuffer[r]))
        {
          var x := Round(x1 as real - (xdelta * y) as real / ydelta as real);
          LineStep(x1, y1, x2, y2, y);
          Plot(y1 - y, x);
          y := y + 1;
        }
      }
    }

    /** The reset loop of `triangle`: rows `ymin .. ymax` start empty. */
    method ResetRows(ymin: int, ymax: int)
      requires Valid() && 0 <= ymin && ymax < Height
      modifies minBuffer, maxBuffer
      ensures forall r :: 0 <= r < Height ==>
        minBuffer[r] == (if ymin <= r <= ymax then 9999 else old(minBuffer[r])) &&
        maxBuffer[r] == (if ymin <= r <= ymax then 0 else old(maxBuffer[r]))
    {
      var y := ymin;
      while y <= ymax
        invariant ymin <= y <= MaxInt(ymin, ymax + 1)
        invariant forall r :: 0 <= r < Height ==>
          minBuffer[r] == (if ymin <= r < y then 9999 else old(minBuffer[r])) &&
          maxBuffer[r] == (if ymin <= r < y then 0 else old(maxBuffer[r]))
      {
        minBuffer[y] := 9999;
        maxBuffer[y] := 0;
        y := y + 1;
      }
    }

    /** The first half of `triangle`: the rows of the triangle are reset and
      its three edges drawn, leaving every other row as it was. */
    method Rasterise(t: Tri)
      requires Valid() && InCanvas(t)
      modifies minBuffer, maxBuffer
      ensures Holds(t)
      ensures forall r :: 0 <= r < Height && !(YMin(t) <= r <= YMax(t)) ==>
        minBuffer[r] == old(minBuffer[r]) && maxBuffer[r] == old(maxBuffer[r])
    {
      var ymin := t.y1;
      if t.y2 < ymin {
        ymin := t.y2;
      }
      if t.y3 < ymin {
        ymin := t.y3;
      }
      var ymax := t.y1;
      if t.y2 > ymax {
        ymax := t.y2;
      }
      if t.y3 > ymax {
        ymax := t.y3;
      }
      ResetRows(ymin, ymax);
      Line(t.x1, t.y1, t.x2, t.y2);
      Line(t.x2, t.y2, t.x3, t.y3);
      Line(t.x3, t.y3, t.x1, t.y1);
    }

    /** The counting loop of `triangle`. */
    method SumSpans(src: seq<int>, t: Tri) returns (tot: Totals)
      requires Valid() && |src| == ImageBytes && InCanvas(t) && Holds(t)
      ensures tot == TriangleTotals(src, t)
    {
      TriangleSpansOk(t);
      tot := SumBuffered(src, minBuffer, maxBuffer, LoOf(t), HiOf(t), YMin(t), YMax(t));
    }

    /** The error loop of `triangle`. */
    method ErrorSpans(src: seq<int>, t: Tri, avg: Color) returns (err: real)
      requires Valid() && |src| == ImageBytes && InCanvas(t) && Holds(t)
      ensures err == ErrorFrom(src, t, avg)
    {
      TriangleSpansOk(t);
      err := ErrorBuffered(src, minBuffer, maxBuffer, LoOf(t), HiOf(t), YMin(t), YMax(t), avg);
    }

    /** The drawing loop of `triangle`. */
    method PaintSpansInto(dst: array<int>, t: Tri, avg: Color)
      requires Valid() && InCanvas(t) && Holds(t)
      requires dst != minBuffer && dst != maxBuffer
      modifies dst
      ensures dst[..] == PaintSpans(old(dst[..]), LoOf(t), HiOf(t), YMin(t), YMax(t), PaintOf(avg))
    {
      PaintBuffered(dst, minBuffer, maxBuffer, LoOf(t), HiOf(t), YMin(t), YMax(t), avg);
    }

    /** `triangle(src, dst, ...)` with `src` the read-only copy of the image:
      it draws into `dst` and returns 0, or returns the error and leaves `dst`. */
    method Triangle(src: seq<int>, dst: array<int>, t: Tri, dodraw: bool) returns (err: real)
      requires Valid() && |src| == ImageBytes && InCanvas(t)
      requires dst != minBuffer && dst != maxBuffer
      modifies minBuffer, maxBuffer, dst
      ensures Holds(t)
      ensures forall r :: 0 <= r < Height && !(YMin(t) <= r <= YMax(t)) ==>
        minBuffer[r] == old(minBuffer[r]) && maxBuffer[r] == old(maxBuffer[r])
      ensures dodraw ==> err == 0.0 && dst[..] == PaintTriangle(old(dst[..]), src, t)
      ensures !dodraw ==> err == TriangleError(src, t) && dst[..] == old(dst[..])
    {
      Rasterise(t);
      var tot := SumSpans(src, t);
      var avg := Average(tot);
      err := 0.0;
      if dodraw {
        PaintSpansInto(dst, t, avg);
      } else {
        err := ErrorSpans(src, t, avg);
      }
    }
  }

  /** Rows `ymin .. ymax` of the two buffers hold the bounds `lo` and `hi`. */
  predicate Buffered(lows: array<int>, highs: array<int>, lo: int -> int, hi: int -> int, ymin: int, ymax: int)
    reads lows, highs
  {
    forall r :: ymin <= r <= ymax ==>
      0 <= r < lows.Length && 0 <= r < highs.Length && lows[r] == lo(r) && highs[r] == hi(r)
  }

  /** The counting loop over the rows the buffers hold. */
  method SumBuffered(src: seq<int>, lows: array<int>, highs: array<int>, lo: int -> int, hi: int -> int,
                     ymin: int, ymax: int)
    returns (tot: Totals)
    requires |src| == ImageBytes && SpansOk(lo, hi, ymin, ymax) && Buffered(lows, highs, lo, hi, ymin, ymax)
    ensures tot == SpansTotals(src, lo, hi, ymin, ymax, Totals(0, 0, 0, 0))
  {
    tot := Totals(0, 0, 0, 0);
    var y := ymin;
    while y <= ymax
      invariant ymin <= y && (y <= ymax + 1 || y == ymin)
      invariant SpansOk(lo, hi, y, ymax)
      invariant SpansTotals(src, lo, hi, y, ymax, tot) == SpansTotals(src, lo, hi, ymin, ymax, Totals(0, 0, 0, 0))
    {
      SpansTotalsStep(src, lo, hi, y, ymax, tot);
      tot := SumRow(src, y, lows[y], highs[y], tot);
      y := y + 1;
    }
  }

  /** The error loop over the rows the buffers hold. */
  method ErrorBuffered(src: seq<int>, lows: array<int>, highs: array<int>, lo: int -> int, hi: int -> int,
                       ymin: int, ymax: int, avg: Color)
    returns (err: real)
    requires |src| == ImageBytes && SpansOk(lo, hi, ymin, ymax) && Buffered(lows, highs, lo, hi, ymin, ymax)
    ensures err == SpansError(src, lo, hi, ymin, ymax, avg, 0.0)
  {
    err := 0.0;
    var y := ymin;
    while y <= ymax
      invariant ymin <= y && (y <= ymax + 1 || y == ymin)
      invariant SpansOk(lo, hi, y, ymax)
      invariant SpansError(src, lo, hi, y, ymax, avg, err) == SpansError(src, lo, hi, ymin, ymax, avg, 0.0)
    {
      SpansErrorStep(src, lo, hi, y, ymax, avg, err);
      err := ErrorRow(src, y, lows[y], highs[y], avg, err);
      y := y + 1;
    }
  }

  /** The drawing loop over the rows the buffers hold. */
  method PaintBuffered(dst: array<int>, lows: array<int>, highs: array<int>, lo: int -> int, hi: int -> int,
                       ymin: int, ymax: int, avg: Color)
    requires Buffered(lows, highs, lo, hi, ymin, ymax) && dst != lows && dst != highs
    modifies dst
    ensures dst[..] == PaintSpans(old(dst[..]), lo, hi, ymin, ymax, PaintOf(avg))
  {
    var y := ymin;
    while y <= ymax
      invariant ymin <= y && (y <= ymax + 1 || y == ymin)
      invariant PaintSpans(dst[..], lo, hi, y, ymax, PaintOf(avg)) == PaintSpans(old(dst[..]), lo, hi, ymin, ymax, PaintOf(avg))
    {
      PaintSpansStep(dst[..], lo, hi, y, ymax, PaintOf(avg));
      PaintRowInto(dst, y, lows[y], highs[y], avg);
      y := y + 1;
    }
  }

  /** The inner counting loop: columns `lo .. hi` of row `y`, from byte
      `(y * 1024 + lo) * 4` on. */
  method SumRow(src: seq<int>, y: int, lo: int, hi: int, acc: Totals) returns (tot: Totals)
    requires |src| == ImageBytes && SpanOk(y, lo, hi + 1)
    ensures tot == RowTotals(src, y, lo, hi + 1, acc)
  {
    tot := acc;
    var pos := y * 4096 + lo * 4;
    var x := lo;
    while x <= hi
      invariant lo <= x <= MaxInt(lo, hi + 1)
      invariant pos == y * 4096 + x * 4
      invariant RowTotals(src, y, x, hi + 1, tot) == RowTotals(src, y, lo, hi + 1, acc)
    {
      tot := Totals(tot.r + src[pos], tot.g + src[pos + 1], tot.b + src[pos + 2], tot.count + 1);
      pos := pos + 4;
      x := x + 1;
    }
  }

  /** The inner error loop. */
  method ErrorRow(src: seq<int>, y: int, lo: int, hi: int, avg: Color, acc: real) returns (err: real)
    requires |src| == ImageBytes && SpanOk(y, lo, hi + 1)
    ensures err == RowError(src, y, lo, hi + 1, avg, acc)
  {
    err := acc;
    var pos := y * 4096 + lo * 4;
    var x := lo;
    while x <= hi
      invariant lo <= x <= MaxInt(lo, hi + 1)
      invariant pos == y * 4096 + x * 4
      invariant RowError(src, y, x, hi + 1, avg, err) == RowError(src, y, lo, hi + 1, avg, acc)
    {
      err := err + PixelError(src, pos, avg);
      pos := pos + 4;
      x := x + 1;
    }
  }

  /** The inner drawing loop: `setPixelXY(dst, x, y, r, g, b, 255)` on the 1024-wide canvas. */
  method PaintRowInto(dst: array<int>, y: int, lo: int, hi: int, avg: Color)
    modifies dst
    ensures dst[..] == PaintRow(old(dst[..]), y, lo, hi + 1, PaintOf(avg))
  {
    var x := lo;
    while x <= hi
      invariant PaintRow(dst[..], y, x, hi + 1, PaintOf(avg)) == PaintRow(old(dst[..]), y, lo, hi + 1, PaintOf(avg))
    {
      SetPixelXY(dst, 1024, x, y, avg.r, avg.g, avg.b, 255.0);
      x := x + 1;
    }
  }
}
