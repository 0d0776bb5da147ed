/** Image triangulation of the image demo: a grid of seed points is refined
    by adding, inside each badly coloured triangle, the pixel that best
    matches the triangle's average colour; the last round emits the triangles
    with their average colours. The Delaunay triangulation itself is a
    parameter. */
module Triangulation {
  import opened Common

  /** An RGBA image, four bytes per pixel, row after row. */
  datatype Image = Image(width: nat, height: nat, data: seq<int>)

  /** The number of entries in `rows` rows of `width` each, counted row by
      row; it is `rows * width` (`RowsLengthIsProduct`). */
  function RowsLength(width: nat, rows: nat): nat {
    if rows == 0 then 0 else RowsLength(width, rows - 1) + width
  }

  lemma {:induction false} RowsLengthIsProduct(width: nat, rows: nat)
    ensures RowsLength(width, rows) == rows * width
  {
    if rows > 0 {
      RowsLengthIsProduct(width, rows - 1);
    }
  }

  /** Row `y` ends no later than the last of `rows` rows. */
  lemma {:induction false} RowsLengthMono(width: nat, y: nat, rows: nat)
    requires y < rows
    ensures RowsLength(width, y) + width <= RowsLength(width, rows)
  {
    if y < rows - 1 {
      RowsLengthMono(width, y, rows - 1);
    }
  }

  /** Four bytes for each of `width * height` pixels. */
  predicate ValidImage(img: Image) {
    |img.data| == 4 * RowsLength(img.width, img.height)
  }

  datatype Rgb = Rgb(r: int, g: int, b: int)

  /** A pixel position. */
  datatype Cell = Cell(x: int, y: int)

  predicate InImage(img: Image, c: Cell) {
    0 <= c.x < img.width && 0 <= c.y < img.height
  }

  /** Red, green and blue of the pixel at `c`, read at `(y * width + x) * 4`. */
  function PixelAt(img: Image, c: Cell): Rgb
    requires ValidImage(img) && InImage(img, c)
  {
    RowsLengthMono(img.width, c.y, img.height);
    var i := (RowsLength(img.width, c.y) + c.x) * 4;
    Rgb(img.data[i], img.data[i + 1], img.data[i + 2])
  }

  /** The byte offset read for a pixel is the row-major one. */
  lemma PixelOffset(img: Image, c: Cell)
    requires InImage(img, c)
    ensures (RowsLength(img.width, c.y) + c.x) * 4 == (c.y * img.width + c.x) * 4
    ensures |img.data| == 4 * RowsLength(img.width, img.height) <==> |img.data| == 4 * (img.width * img.height)
  {
    RowsLengthIsProduct(img.width, c.y);
    RowsLengthIsProduct(img.width, img.height);
  }

  /** A triangle by the integer coordinates of its three corners. */
  datatype Tri = Tri(x1: int, y1: int, x2: int, y2: int, x3: int, y3: int)

  predicate TriInImage(img: Image, t: Tri) {
    InImage(img, Cell(t.x1, t.y1)) && InImage(img, Cell(t.x2, t.y2)) && InImage(img, Cell(t.x3, t.y3))
  }

  // Barycentric inside test

  /** Twice the signed area. */
  function Area2(t: Tri): real {
    var x1, y1, x2, y2, x3, y3 := t.x1 as real, t.y1 as real, t.x2 as real, t.y2 as real, t.x3 as real, t.y3 as real;
    -y2 * x3 + y1 * (-x2 + x3) + x1 * (y2 - y3) + x2 * y3
  }

  /** The numerators of the barycentric coordinates `s` (toward corner 2) and
      `t` (toward corner 3). */
  function SNum(t: Tri, px: real, py: real): real {
    var x1, y1, x3, y3 := t.x1 as real, t.y1 as real, t.x3 as real, t.y3 as real;
    y1 * x3 - x1 * y3 + (y3 - y1) * px + (x1 - x3) * py
  }

  function TNum(t: Tri, px: real, py: real): real {
    var x1, y1, x2, y2 := t.x1 as real, t.y1 as real, t.x2 as real, t.y2 as real;
    x1 * y2 - y1 * x2 + (y1 - y2) * px + (x2 - x1) * py
  }

  /** `isInsideTriangle` as written: `s = SNum / 2A` and `t = TNum / 2A` with
      `s >= 0`, `t >= 0` and `s + t <= 1`. For a zero area the floating-point
      quotients are infinite or NaN and every comparison chain fails. */
  predicate InsideAsWritten(t: Tri, px: real, py: real) {
    var a := Area2(t);
    a != 0.0 && SNum(t, px, py) / a >= 0.0 && TNum(t, px, py) / a >= 0.0 &&
    SNum(t, px, py) / a + TNum(t, px, py) / a <= 1.0
  }

  /** The same test with the sign of the area multiplied through. */
  predicate IsInside(t: Tri, c: Cell) {
    var a := Area2(t);
    var sn, tn := SNum(t, c.x as real, c.y as real), TNum(t, c.x as real, c.y as real);
    (a > 0.0 && sn >= 0.0 && tn >= 0.0 && sn + tn <= a) ||
    (a < 0.0 && sn <= 0.0 && tn <= 0.0 && sn + tn >= a)
  }

  lemma SignOfQuotient(n: real, a: real)
    requires a != 0.0
    ensures n / a >= 0.0 <==> (a > 0.0 && n >= 0.0) || (a < 0.0 && n <= 0.0)
  {
    if a > 0.0 {
      if n / a >= 0.0 { assert n == (n / a) * a; }
    } else {
      if n / a >= 0.0 { assert n == (n / a) * a; }
    }
  }

  lemma SumOfQuotients(n: real, a: real)
    requires a != 0.0
    ensures n / a <= 1.0 <==> (a > 0.0 && n <= a) || (a < 0.0 && n >= a)
  {
    if n / a <= 1.0 { assert n == (n / a) * a; }
  }

  /** The quotient test on two numerators and a denominator, without division. */
  lemma QuotientTest(sn: real, tn: real, a: real)
    ensures ((a > 0.0 && sn >= 0.0 && tn >= 0.0 && sn + tn <= a) || (a < 0.0 && sn <= 0.0 && tn <= 0.0 && sn + tn >= a))
      <==> (a != 0.0 && sn / a >= 0.0 && tn / a >= 0.0 && sn / a + tn / a <= 1.0)
  {
    if a != 0.0 {
      SignOfQuotient(sn, a);
      SignOfQuotient(tn, a);
      assert sn / a + tn / a == (sn + tn) / a;
      SumOfQuotients(sn + tn, a);
    }
  }

  /** The division-free test agrees with the source's quotients at every pixel. */
  lemma InsideMatchesSource(t: Tri, c: Cell)
    ensures IsInside(t, c) <==> InsideAsWritten(t, c.x as real, c.y as real)
  {
    QuotientTest(SNum(t, c.x as real, c.y as real), TNum(t, c.x as real, c.y as real), Area2(t));
  }

  /** The barycentric coordinates of the three corners are `(0, 0)`, `(1, 0)` and `(0, 1)`. */
  lemma CornerCoordinates(t: Tri)
    ensures SNum(t, t.x1 as real, t.y1 as real) == 0.0 && TNum(t, t.x1 as real, t.y1 as real) == 0.0
    ensures SNum(t, t.x2 as real, t.y2 as real) == Area2(t) && TNum(t, t.x2 as real, t.y2 as real) == 0.0
    ensures SNum(t, t.x3 as real, t.y3 as real) == 0.0 && TNum(t, t.x3 as real, t.y3 as real) == Area2(t)
  {
  }

  /** A triangle of nonzero area contains its three corners. */
  lemma CornersInside(t: Tri)
    requires Area2(t) != 0.0
    ensures IsInside(t, Cell(t.x1, t.y1)) && IsInside(t, Cell(t.x2, t.y2)) && IsInside(t, Cell(t.x3, t.y3))
  {
    CornerCoordinates(t);
  }

  /** The polynomial identity behind the barycentric coordinates, on one axis. */
  lemma EdgeIdentity(x1: real, y1: real, x2: real, y2: real, x3: real, y3: real, px: real, py: real)
    ensures var a := -y2 * x3 + y1 * (-x2 + x3) + x1 * (y2 - y3) + x2 * y3;
      var sn := y1 * x3 - x1 * y3 + (y3 - y1) * px + (x1 - x3) * py;
      var tn := x1 * y2 - y1 * x2 + (y1 - y2) * px + (x2 - x1) * py;
      sn * (x2 - x1) + tn * (x3 - x1) == a * (px - x1) &&
      sn * (y2 - y1) + tn * (y3 - y1) == a * (py - y1)
  {
    // Shift corner 1 to the origin: every term is then a product of two differences.
    var u2, v2, u3, v3, u, v := x2 - x1, y2 - y1, x3 - x1, y3 - y1, px - x1, py - y1;
    assert -y2 * x3 + y1 * (-x2 + x3) + x1 * (y2 - y3) + x2 * y3 == u2 * v3 - v2 * u3;
    assert y1 * x3 - x1 * y3 + (y3 - y1) * px + (x1 - x3) * py == v3 * u - u3 * v;
    assert x1 * y2 - y1 * x2 + (y1 - y2) * px + (x2 - x1) * py == u2 * v - v2 * u;
    assert (v3 * u - u3 * v) * u2 + (u2 * v - v2 * u) * u3 == (u2 * v3 - v2 * u3) * u;
    assert (v3 * u - u3 * v) * v2 + (u2 * v - v2 * u) * v3 == (u2 * v3 - v2 * u3) * v;
  }

  lemma ScaleSum(p: real, q: real, a: real, d: real, e: real)
    requires a != 0.0
    ensures (p / a) * d + (q / a) * e == (p * d + q * e) / a
  {
  }

  /** `s` and `t` are coordinates: the point is corner 1 plus `s` times the
      edge to corner 2 plus `t` times the edge to corner 3. */
  lemma BarycentricMeaning(t: Tri, px: real, py: real)
    requires Area2(t) != 0.0
    ensures var a := Area2(t);
      var s, u := SNum(t, px, py) / a, TNum(t, px, py) / a;
      px == t.x1 as real + s * (t.x2 - t.x1) as real + u * (t.x3 - t.x1) as real &&
      py == t.y1 as real + s * (t.y2 - t.y1) as real + u * (t.y3 - t.y1) as real
  {
    var a := Area2(t);
    var sn, tn := SNum(t, px, py), TNum(t, px, py);
    var x1, y1, x2, y2, x3, y3 := t.x1 as real, t.y1 as real, t.x2 as real, t.y2 as real, t.x3 as real, t.y3 as real;
    EdgeIdentity(x1, y1, x2, y2, x3, y3, px, py);
    ScaleSum(sn, tn, a, x2 - x1, x3 - x1);
    ScaleSum(sn, tn, a, y2 - y1, y3 - y1);
    assert a * (px - x1) / a == px - x1;
    assert a * (py - y1) / a == py - y1;
  }

  /** A triangle whose corners are collinear contains no pixel at all. */
  lemma FlatTriangleIsEmpty(t: Tri, c: Cell)
    requires Area2(t) == 0.0
    ensures !IsInside(t, c)
  {
  }

  // The bounding box, scanned row by row

  function MinX(t: Tri): int { MinInt(MinInt(t.x1, t.x2), t.x3) }
  function MaxX(t: Tri): int { MaxInt(MaxInt(t.x1, t.x2), t.x3) }
  function MinY(t: Tri): int { MinInt(MinInt(t.y1, t.y2), t.y3) }
  function MaxY(t: Tri): int { MaxInt(MaxInt(t.y1, t.y2), t.y3) }

  /** Cells `(minX, y) .. (x - 1, y)` of one row, left to right. */
  function RowCells(y: int, minX: int, x: int): seq<Cell>
    decreases x - minX
  {
    if x <= minX then [] else RowCells(y, minX, x - 1) + [Cell(x - 1, y)]
  }

  /** Rows `minY .. y - 1` of the box `[minX, maxX]`, top to bottom. */
  function BoxRows(minX: int, maxX: int, minY: int, y: int): seq<Cell>
    decreases y - minY
  {
    if y <= minY then [] else BoxRows(minX, maxX, minY, y - 1) + RowCells(y - 1, minX, maxX + 1)
  }

  /** The scan of a triangle's bounding box: `y` outer, `x` inner, both inclusive. */
  function BoxScan(t: Tri): seq<Cell> {
    BoxRows(MinX(t), MaxX(t), MinY(t), MaxY(t) + 1)
  }

  lemma {:induction false} RowCellsBounds(y: int, minX: int, x: int)
    ensures forall i :: 0 <= i < |RowCells(y, minX, x)| ==>
      RowCells(y, minX, x)[i].y == y && minX <= RowCells(y, minX, x)[i].x < x
    decreases x - minX
  {
    if x > minX {
      RowCellsBounds(y, minX, x - 1);
    }
  }

  lemma {:induction false} BoxRowsBounds(minX: int, maxX: int, minY: int, y: int)
    ensures forall i :: 0 <= i < |BoxRows(minX, maxX, minY, y)| ==>
      minX <= BoxRows(minX, maxX, minY, y)[i].x <= maxX && minY <= BoxRows(minX, maxX, minY, y)[i].y < y
    decreases y - minY
  {
    if y > minY {
      BoxRowsBounds(minX, maxX, minY, y - 1);
      RowCellsBounds(y - 1, minX, maxX + 1);
      var prev := BoxRows(minX, maxX, minY, y - 1);
      var row := RowCells(y - 1, minX, maxX + 1);
      var all: seq<Cell> := prev + row;
      forall i | 0 <= i < |all|
        ensures minX <= all[i].x <= maxX && minY <= all[i].y < y
      {
        if i >= |prev| {
          assert all[i] == row[i - |prev|];
        }
      }
    }
  }

  /** Appending a row one cell longer appends that cell. */
  lemma RowCellsSnoc(rows: seq<Cell>, y: int, minX: int, x: int)
    requires minX <= x
    ensures rows + RowCells(y, minX, x + 1) == rows + RowCells(y, minX, x) + [Cell(x, y)]
  {
    assert RowCells(y, minX, x + 1) == RowCells(y, minX, x) + [Cell(x, y)];
  }

  predicate CellsIn(img: Image, cells: seq<Cell>) {
    forall i :: 0 <= i < |cells| ==> InImage(img, cells[i])
  }

  /** Every cell of the scan lies in the bounding box, so inside the image
      when the corners are. */
  lemma BoxScanInImage(img: Image, t: Tri)
    requires TriInImage(img, t)
    ensures CellsIn(img, BoxScan(t))
    ensures forall i :: 0 <= i < |BoxScan(t)| ==>
      MinX(t) <= BoxScan(t)[i].x <= MaxX(t) && MinY(t) <= BoxScan(t)[i].y <= MaxY(t)
  {
    BoxRowsBounds(MinX(t), MaxX(t), MinY(t), MaxY(t) + 1);
  }

  // getAverageColor

  datatype Totals = Totals(r: int, g: int, b: int, count: nat)

  /** The inside test of one triangle, as a test on cells. */
  function InsideOf(t: Tri): Cell -> bool {
    c => IsInside(t, c)
  }

  /** Channel sums and count of the scanned cells that pass `inside`. */
  function InsideTotals(img: Image, inside: Cell -> bool, cells: seq<Cell>): Totals
    requires ValidImage(img) && CellsIn(img, cells)
  {
    if cells == [] then Totals(0, 0, 0, 0)
    else AddCell(img, inside, InsideTotals(img, inside, cells[..|cells| - 1]), cells[|cells| - 1])
  }

  /** One step of the colour scan: an inside pixel adds its channels and one to the count. */
  function AddCell(img: Image, inside: Cell -> bool, prev: Totals, c: Cell): Totals
    requires ValidImage(img) && InImage(img, c)
  {
    if inside(c) then
      var p := PixelAt(img, c);
      Totals(prev.r + p.r, prev.g + p.g, prev.b + p.b, prev.count + 1)
    else prev
  }

  /** Scanning one more cell is one more step. */
  lemma TotalsSnoc(img: Image, inside: Cell -> bool, cells: seq<Cell>, c: Cell)
    requires ValidImage(img) && CellsIn(img, cells) && InImage(img, c)
    ensures CellsIn(img, cells + [c])
    ensures InsideTotals(img, inside, cells + [c]) == AddCell(img, inside, InsideTotals(img, inside, cells), c)
  {
    assert (cells + [c])[..|cells|] == cells;
  }

  /** Black when no pixel is inside, otherwise each channel's sum divided by
      the count and rounded down. */
  function AverageColor(img: Image, t: Tri): Rgb
    requires ValidImage(img) && TriInImage(img, t)
  {
    BoxScanInImage(img, t);
    var tot := InsideTotals(img, InsideOf(t), BoxScan(t));
    if tot.count == 0 then Rgb(0, 0, 0) else Rgb(tot.r / tot.count, tot.g / tot.count, tot.b / tot.count)
  }

  /** Over cells whose inside pixels all have colour `c`, the sums are the
      count times `c`. */
  lemma {:induction false} UniformTotals(img: Image, inside: Cell -> bool, cells: seq<Cell>, c: Rgb)
    requires ValidImage(img) && CellsIn(img, cells)
    requires forall i :: 0 <= i < |cells| && inside(cells[i]) ==> PixelAt(img, cells[i]) == c
    ensures var tot := InsideTotals(img, inside, cells);
      tot.r == tot.count * c.r && tot.g == tot.count * c.g && tot.b == tot.count * c.b
  {
    if cells != [] {
      var init := cells[..|cells| - 1];
      UniformTotals(img, inside, init, c);
      var prev := InsideTotals(img, inside, init);
      if inside(cells[|cells| - 1]) {
        assert (prev.count + 1) * c.r == prev.count * c.r + c.r;
        assert (prev.count + 1) * c.g == prev.count * c.g + c.g;
        assert (prev.count + 1) * c.b == prev.count * c.b + c.b;
      }
    }
  }

  /** A triangle filled with one colour averages to that colour. */
  lemma AverageOfUniform(img: Image, t: Tri, c: Rgb)
    requires ValidImage(img) && TriInImage(img, t)
    requires CellsIn(img, BoxScan(t))
    requires forall i :: 0 <= i < |BoxScan(t)| && IsInside(t, BoxScan(t)[i]) ==> PixelAt(img, BoxScan(t)[i]) == c
    requires exists i :: 0 <= i < |BoxScan(t)| && IsInside(t, BoxScan(t)[i])
    ensures AverageColor(img, t) == c
  {
    BoxScanInImage(img, t);
    var cells := BoxScan(t);
    UniformTotals(img, InsideOf(t), cells, c);
    var i :| 0 <= i < |cells| && IsInside(t, cells[i]);
    InsideCounted(img, InsideOf(t), cells, i);
    var tot := InsideTotals(img, InsideOf(t), cells);
    MulDivCancel(tot.count, c.r);
    MulDivCancel(tot.count, c.g);
    MulDivCancel(tot.count, c.b);
  }

  lemma MulDivCancel(n: int, k: int)
    requires n > 0
    ensures (n * k) / n == k
  {
    var x := n * k;
    var q, r := x / n, x % n;
    assert x == q * n + r && 0 <= r < n;
    var d := q - k;
    assert d * n == -r;
  }

  /** A scanned cell inside the triangle is counted. */
  lemma {:induction false} InsideCounted(img: Image, inside: Cell -> bool, cells: seq<Cell>, i: nat)
    requires ValidImage(img) && CellsIn(img, cells) && i < |cells| && inside(cells[i])
    ensures InsideTotals(img, inside, cells).count > 0
  {
    if i < |cells| - 1 {
      InsideCounted(img, inside, cells[..|cells| - 1], i);
    }
  }

  /** One pixel of the inner loop: a pixel inside the triangle adds its
      channels to the running sums and one to the count. */
  method AddPixel(img: Image, inside: Cell -> bool, ghost scanned: seq<Cell>, c: Cell, acc: Totals)
    returns (tot: Totals)
    requires ValidImage(img) && CellsIn(img, scanned) && InImage(img, c)
    requires InsideTotals(img, inside, scanned) == acc
    ensures CellsIn(img, scanned + [c])
    ensures InsideTotals(img, inside, scanned + [c]) == tot
  {
    TotalsSnoc(img, inside, scanned, c);
    var rTotal, gTotal, bTotal, count := acc.r, acc.g, acc.b, acc.count;
    if inside(c) {
      var p := PixelAt(img, c);
      rTotal, gTotal, bTotal, count := rTotal + p.r, gTotal + p.g, bTotal + p.b, count + 1;
    }
    tot := Totals(rTotal, gTotal, bTotal, count);
  }

  /** Pixel `x` of row `y`, stated over the row scanned so far. */
  method ScanPixel(img: Image, inside: Cell -> bool, rows: seq<Cell>, y: int, minX: int, x: int, acc: Totals)
    returns (tot: Totals)
    requires ValidImage(img) && minX <= x && 0 <= x < img.width && 0 <= y < img.height
    requires CellsIn(img, rows + RowCells(y, minX, x))
    requires InsideTotals(img, inside, rows + RowCells(y, minX, x)) == acc
    ensures CellsIn(img, rows + RowCells(y, minX, x + 1))
    ensures InsideTotals(img, inside, rows + RowCells(y, minX, x + 1)) == tot
  {
    RowCellsSnoc(rows, y, minX, x);
    tot := AddPixel(img, inside, rows + RowCells(y, minX, x), Cell(x, y), acc);
  }

  /** One row of the `getAverageColor` scan, `x` from `minX` to `maxX`. */
  method ScanRow(img: Image, inside: Cell -> bool, rows: seq<Cell>, y: int, minX: int, maxX: int, acc: Totals)
    returns (tot: Totals)
    requires ValidImage(img) && CellsIn(img, rows)
    requires 0 <= y < img.height && 0 <= minX && maxX < img.width
    requires InsideTotals(img, inside, rows) == acc
    ensures CellsIn(img, rows + RowCells(y, minX, MaxInt(minX, maxX + 1)))
    ensures InsideTotals(img, inside, rows + RowCells(y, minX, MaxInt(minX, maxX + 1))) == tot
  {
    tot := acc;
    var x := minX;
    assert rows + RowCells(y, minX, x) == rows;
    while x <= maxX
      invariant minX <= x <= MaxInt(minX, maxX + 1)
      invariant CellsIn(img, rows + RowCells(y, minX, x))
      invariant InsideTotals(img, inside, rows + RowCells(y, minX, x)) == tot
    {
      tot := ScanPixel(img, inside, rows, y, minX, x, tot);
      x := x + 1;
    }
  }

  /** The rows `minY .. maxY` of the colour scan over the box `[minX, maxX]`. */
  method ScanBox(img: Image, inside: Cell -> bool, minX: int, maxX: int, minY: int, maxY: int) returns (tot: Totals)
    requires ValidImage(img) && 0 <= minX && maxX < img.width && 0 <= minY && maxY < img.height
    ensures CellsIn(img, BoxRows(minX, maxX, minY, MaxInt(minY, maxY + 1)))
    ensures tot == InsideTotals(img, inside, BoxRows(minX, maxX, minY, MaxInt(minY, maxY + 1)))
  {
    tot := Totals(0, 0, 0, 0);
    var y := minY;
    while y <= maxY
      invariant minY <= y <= MaxInt(minY, maxY + 1)
      invariant CellsIn(img, BoxRows(minX, maxX, minY, y))
      invariant InsideTotals(img, inside, BoxRows(minX, maxX, minY, y)) == tot
    {
      tot := ScanRow(img, inside, BoxRows(minX, maxX, minY, y), y, minX, maxX, tot);
      y := y + 1;
    }
  }

  /** `getAverageColor`: the box scan, then the rounded-down quotients,
      black when no pixel is inside. */
  method GetAverageColor(img: Image, t: Tri) returns (avg: Rgb)
    requires ValidImage(img) && TriInImage(img, t)
    ensures avg == AverageColor(img, t)
  {
    var tot := ScanBox(img, InsideOf(t), MinX(t), MaxX(t), MinY(t), MaxY(t));
    if tot.count == 0 {
      avg := Rgb(0, 0, 0);
    } else {
      avg := Rgb(tot.r / tot.count, tot.g / tot.count, tot.b / tot.count);
    }
  }

  // getAverageVertexError

  function AbsDiff(a: int, b: int): nat { if a >= b then a - b else b - a }

  function ColorError(p: Rgb, c: Rgb): nat {
    AbsDiff(p.r, c.r) + AbsDiff(p.g, c.g) + AbsDiff(p.b, c.b)
  }

  /** The summed channel differences of the three corner pixels from `color`. */
  function VertexError(img: Image, t: Tri, color: Rgb): (e: nat)
    requires ValidImage(img) && TriInImage(img, t)
    ensures e == 0 <==>
      PixelAt(img, Cell(t.x1, t.y1)) == color && PixelAt(img, Cell(t.x2, t.y2)) == color &&
      PixelAt(img, Cell(t.x3, t.y3)) == color
  {
    ColorError(PixelAt(img, Cell(t.x1, t.y1)), color) + ColorError(PixelAt(img, Cell(t.x2, t.y2)), color) +
    ColorError(PixelAt(img, Cell(t.x3, t.y3)), color)
  }

  // getLowErrorPoint

  /** The scan's running choice: position and error of the best pixel so far
      (no error yet stands for the initial `Infinity`). */
  datatype Low = Low(x: int, y: int, err: Option<nat>)

  predicate IsCorner(t: Tri, c: Cell) {
    (c.x == t.x1 && c.y == t.y1) || (c.x == t.x2 && c.y == t.y2) || (c.x == t.x3 && c.y == t.y3)
  }

  /** A pixel the search may pick: inside the triangle and not a corner. */
  predicate Candidate(inside: Cell -> bool, t: Tri, c: Cell) {
    inside(c) && !IsCorner(t, c)
  }

  function LowScan(img: Image, inside: Cell -> bool, t: Tri, color: Rgb, cells: seq<Cell>): Low
    requires ValidImage(img) && CellsIn(img, cells)
  {
    if cells == [] then Low(0, 0, None)
    else LowStep(img, inside, t, color, LowScan(img, inside, t, color, cells[..|cells| - 1]), cells[|cells| - 1])
  }

  /** One step of the search: a candidate of strictly smaller error replaces the choice. */
  function LowStep(img: Image, inside: Cell -> bool, t: Tri, color: Rgb, prev: Low, c: Cell): Low
    requires ValidImage(img) && InImage(img, c)
  {
    if Candidate(inside, t, c) then
      var e := ColorError(PixelAt(img, c), color);
      if prev.err.None? || e < prev.err.value then Low(c.x, c.y, Some(e)) else prev
    else prev
  }

  /** Searching one more cell is one more step. */
  lemma LowScanSnoc(img: Image, inside: Cell -> bool, t: Tri, color: Rgb, cells: seq<Cell>, c: Cell)
    requires ValidImage(img) && CellsIn(img, cells) && InImage(img, c)
    ensures CellsIn(img, cells + [c])
    ensures LowScan(img, inside, t, color, cells + [c]) == LowStep(img, inside, t, color, LowScan(img, inside, t, color, cells), c)
  {
    assert (cells + [c])[..|cells|] == cells;
  }

  /** The search finds nothing exactly when no cell is a candidate; otherwise
      it picks a candidate of least error, the first such in scan order. */
  lemma {:induction false} LowScanSpec(img: Image, inside: Cell -> bool, t: Tri, color: Rgb, cells: seq<Cell>)
    requires ValidImage(img) && CellsIn(img, cells)
    ensures var low := LowScan(img, inside, t, color, cells);
      (low.err.None? <==> forall j :: 0 <= j < |cells| ==> !Candidate(inside, t, cells[j])) &&
      (low.err.None? ==> low.x == 0 && low.y == 0) &&
      (low.err.Some? ==>
        (forall j :: 0 <= j < |cells| && Candidate(inside, t, cells[j]) ==> low.err.value <= ColorError(PixelAt(img, cells[j]), color)) &&
        exists i :: 0 <= i < |cells| && cells[i] == Cell(low.x, low.y) && Candidate(inside, t, cells[i]) &&
          ColorError(PixelAt(img, cells[i]), color) == low.err.value &&
          forall j :: 0 <= j < i && Candidate(inside, t, cells[j]) ==> low.err.value < ColorError(PixelAt(img, cells[j]), color))
  {
    if cells != [] {
      var init := cells[..|cells| - 1];
      LowScanSpec(img, inside, t, color, init);
      var prev := LowScan(img, inside, t, color, init);
      var low := LowScan(img, inside, t, color, cells);
      var n := |cells| - 1;
      assert forall j :: 0 <= j < n ==> cells[j] == init[j];
      if low.err.Some? {
        if low != prev {
          assert Candidate(inside, t, cells[n]) && cells[n] == Cell(low.x, low.y);
        } else {
          var i :| 0 <= i < n && init[i] == Cell(prev.x, prev.y) && Candidate(inside, t, init[i]) &&
            ColorError(PixelAt(img, init[i]), color) == prev.err.value &&
            forall j :: 0 <= j < i && Candidate(inside, t, init[j]) ==> prev.err.value < ColorError(PixelAt(img, init[j]), color);
          assert cells[i] == init[i];
        }
      }
    }
  }

  /** `getLowErrorPoint`: the chosen pixel, `[0, 0]` when there is none. */
  function LowErrorPoint(img: Image, t: Tri, color: Rgb): Cell
    requires ValidImage(img) && TriInImage(img, t)
  {
    BoxScanInImage(img, t);
    var low := LowScan(img, InsideOf(t), t, color, BoxScan(t));
    Cell(low.x, low.y)
  }

  /** One pixel of the low-error search: an inside pixel that is not a corner
      and beats the best error so far becomes the new best. */
  method LowPixel(img: Image, inside: Cell -> bool, t: Tri, color: Rgb, ghost scanned: seq<Cell>, c: Cell, acc: Low)
    returns (low: Low)
    requires ValidImage(img) && CellsIn(img, scanned) && InImage(img, c)
    requires LowScan(img, inside, t, color, scanned) == acc
    ensures CellsIn(img, scanned + [c])
    ensures LowScan(img, inside, t, color, scanned + [c]) == low
  {
    LowScanSnoc(img, inside, t, color, scanned, c);
    var errorX, errorY, errorAmt := acc.x, acc.y, acc.err;
    if inside(c) {
      var error := ColorError(PixelAt(img, c), color);
      var isVertex := IsCorner(t, c);
      if (errorAmt.None? || error < errorAmt.value) && !isVertex {
        errorX, errorY, errorAmt := c.x, c.y, Some(error);
      }
    }
    low := Low(errorX, errorY, errorAmt);
  }

  /** Pixel `x` of row `y` of the low-error search, stated over the row
      scanned so far. */
  method LowRowPixel(img: Image, inside: Cell -> bool, t: Tri, color: Rgb, rows: seq<Cell>, y: int, minX: int, x: int, acc: Low)
    returns (low: Low)
    requires ValidImage(img) && minX <= x && 0 <= x < img.width && 0 <= y < img.height
    requires CellsIn(img, rows + RowCells(y, minX, x))
    requires LowScan(img, inside, t, color, rows + RowCells(y, minX, x)) == acc
    ensures CellsIn(img, rows + RowCells(y, minX, x + 1))
    ensures LowScan(img, inside, t, color, rows + RowCells(y, minX, x + 1)) == low
  {
    RowCellsSnoc(rows, y, minX, x);
    low := LowPixel(img, inside, t, color, rows + RowCells(y, minX, x), Cell(x, y), acc);
  }

  /** One row of the `getLowErrorPoint` scan. */
  method ScanLowRow(img: Image, inside: Cell -> bool, t: Tri, color: Rgb, rows: seq<Cell>, y: int, minX: int, maxX: int, acc: Low)
    returns (low: Low)
    requires ValidImage(img) && CellsIn(img, rows)
    requires 0 <= y < img.height && 0 <= minX && maxX < img.width
    requires LowScan(img, inside, t, color, rows) == acc
    ensures CellsIn(img, rows + RowCells(y, minX, MaxInt(minX, maxX + 1)))
    ensures LowScan(img, inside, t, color, rows + RowCells(y, minX, MaxInt(minX, maxX + 1))) == low
  {
    low := acc;
    var x := minX;
    assert rows + RowCells(y, minX, x) == rows;
    while x <= maxX
      invariant minX <= x <= MaxInt(minX, maxX + 1)
      invariant CellsIn(img, rows + RowCells(y, minX, x))
      invariant LowScan(img, inside, t, color, rows + RowCells(y, minX, x)) == low
    {
      low := LowRowPixel(img, inside, t, color, rows, y, minX, x, low);
      x := x + 1;
    }
  }

  /** The rows `minY .. maxY` of the search over the box `[minX, maxX]`. */
  method ScanLowBox(img: Image, inside: Cell -> bool, t: Tri, color: Rgb, minX: int, maxX: int, minY: int, maxY: int)
    returns (low: Low)
    requires ValidImage(img) && 0 <= minX && maxX < img.width && 0 <= minY && maxY < img.height
    ensures CellsIn(img, BoxRows(minX, maxX, minY, MaxInt(minY, maxY + 1)))
    ensures low == LowScan(img, inside, t, color, BoxRows(minX, maxX, minY, MaxInt(minY, maxY + 1)))
  {
    low := Low(0, 0, None);
    var y := minY;
    while y <= maxY
      invariant minY <= y <= MaxInt(minY, maxY + 1)
      invariant CellsIn(img, BoxRows(minX, maxX, minY, y))
      invariant LowScan(img, inside, t, color, BoxRows(minX, maxX, minY, y)) == low
    {
      low := ScanLowRow(img, inside, t, color, BoxRows(minX, maxX, minY, y), y, minX, maxX, low);
      y := y + 1;
    }
  }

  /** `getLowErrorPoint`: the box scan with a strict `<`, so ties keep the
      earlier pixel. */
  method GetLowErrorPoint(img: Image, t: Tri, color: Rgb) returns (errorX: int, errorY: int)
    requires ValidImage(img) && TriInImage(img, t)
    ensures Cell(errorX, errorY) == LowErrorPoint(img, t, color)
  {
    var low := ScanLowBox(img, InsideOf(t), t, color, MinX(t), MaxX(t), MinY(t), MaxY(t));
    errorX, errorY := low.x, low.y;
  }

  // Flat point lists and triangle index lists

  /** Point `k` of a flat `x, y, x, y, ...` list. */
  function PointAt(pts: seq<int>, k: nat): Cell
    requires 2 * k + 1 < |pts|
  {
    Cell(pts[2 * k], pts[2 * k + 1])
  }

  /** An even-length list whose every point is a pixel of the image. */
  ghost predicate PointsIn(img: Image, pts: seq<int>) {
    |pts| % 2 == 0 && forall k: nat :: 2 * k + 1 < |pts| ==> InImage(img, PointAt(pts, k))
  }

  /** Whole triangles of three point indices, each naming a point of `pts`. */
  predicate ValidTris(pts: seq<int>, tris: seq<nat>) {
    |tris| % 3 == 0 && forall i :: 0 <= i < |tris| ==> 2 * tris[i] + 1 < |pts|
  }

  /** What the triangulation library promises: valid triangles over any even-length list. */
  ghost predicate ValidTriangulator(triangulate: seq<int> -> seq<nat>) {
    forall pts: seq<int> :: |pts| % 2 == 0 ==> ValidTris(pts, triangulate(pts))
  }

  /** Triangle `j`, its corners read from `pts` through the index list. */
  function TriAt(pts: seq<int>, tris: seq<nat>, j: nat): Tri
    requires ValidTris(pts, tris) && 3 * j + 2 < |tris|
  {
    var p1, p2, p3 := PointAt(pts, tris[3 * j]), PointAt(pts, tris[3 * j + 1]), PointAt(pts, tris[3 * j + 2]);
    Tri(p1.x, p1.y, p2.x, p2.y, p3.x, p3.y)
  }

  /** A triangle over points of the image has its corners in the image. */
  lemma TriAtInImage(img: Image, pts: seq<int>, tris: seq<nat>, j: nat)
    requires PointsIn(img, pts) && ValidTris(pts, tris) && 3 * j + 2 < |tris|
    ensures TriInImage(img, TriAt(pts, tris, j))
  {
    assert InImage(img, PointAt(pts, tris[3 * j]));
    assert InImage(img, PointAt(pts, tris[3 * j + 1]));
    assert InImage(img, PointAt(pts, tris[3 * j + 2]));
  }

  /** Appending a list of image points keeps every point in the image. */
  lemma PointsInAppend(img: Image, a: seq<int>, b: seq<int>)
    requires PointsIn(img, a) && PointsIn(img, b)
    ensures PointsIn(img, a + b)
  {
    var ab := a + b;
    forall k: nat | 2 * k + 1 < |ab|
      ensures InImage(img, PointAt(ab, k))
    {
      if 2 * k + 1 < |a| {
        assert PointAt(ab, k) == PointAt(a, k);
      } else {
        var m := k - |a| / 2;
        assert 2 * m + 1 < |b|;
        assert PointAt(ab, k) == PointAt(b, m);
      }
    }
  }

  // One refinement round

  /** What one triangle adds: its best pixel when the corners' error against
      the average colour exceeds 100, unless that pixel has a zero coordinate. */
  function NewPoint(img: Image, t: Tri): seq<int>
    requires ValidImage(img) && TriInImage(img, t)
  {
    var avg := AverageColor(img, t);
    if VertexError(img, t, avg) > 100 then
      var low := LowErrorPoint(img, t, avg);
      if low.x > 0 && low.y > 0 then [low.x, low.y] else []
    else []
  }

  /** A point is added only for a triangle whose corners are badly coloured,
      and it is a pixel inside that triangle, in the image, not one of the
      corners and off the top and left borders. */
  lemma NewPointSpec(img: Image, t: Tri)
    requires ValidImage(img) && TriInImage(img, t)
    ensures var np := NewPoint(img, t);
      np == [] ||
      (|np| == 2 && VertexError(img, t, AverageColor(img, t)) > 100 &&
       var c := Cell(np[0], np[1]);
       InImage(img, c) && IsInside(t, c) && !IsCorner(t, c) && c.x > 0 && c.y > 0)
  {
    var avg := AverageColor(img, t);
    BoxScanInImage(img, t);
    var cells := BoxScan(t);
    LowScanSpec(img, InsideOf(t), t, avg, cells);
    var low := LowScan(img, InsideOf(t), t, avg, cells);
    if low.err.Some? {
      var i :| 0 <= i < |cells| && cells[i] == Cell(low.x, low.y) && Candidate(InsideOf(t), t, cells[i]) &&
        ColorError(PixelAt(img, cells[i]), avg) == low.err.value &&
        forall j :: 0 <= j < i && Candidate(InsideOf(t), t, cells[j]) ==> low.err.value < ColorError(PixelAt(img, cells[j]), avg);
      assert InImage(img, cells[i]);
    }
  }

  lemma NewPointIn(img: Image, t: Tri)
    requires ValidImage(img) && TriInImage(img, t)
    ensures PointsIn(img, NewPoint(img, t))
  {
    NewPointSpec(img, t);
    var np := NewPoint(img, t);
    if np != [] {
      assert forall k: nat :: 2 * k + 1 < |np| ==> k == 0;
    }
  }

  /** A rule for what a triangle adds that, for every triangle of the image,
      applies and adds only points of the image. */
  ghost predicate AddsImagePoints(img: Image, grow: Tri --> seq<int>) {
    forall t :: TriInImage(img, t) ==> grow.requires(t) && PointsIn(img, grow(t))
  }

  /** `NewPoint` as a rule on the triangles of one image. */
  function NewPointRule(img: Image): Tri --> seq<int>
    requires ValidImage(img)
  {
    t requires ValidImage(img) && TriInImage(img, t) => NewPoint(img, t)
  }

  lemma NewPointRuleAdds(img: Image)
    requires ValidImage(img)
    ensures AddsImagePoints(img, NewPointRule(img))
  {
    forall t | TriInImage(img, t)
      ensures PointsIn(img, NewPointRule(img)(t))
    {
      NewPointIn(img, t);
    }
  }

  /** `pts` followed by what `grow` adds for triangles `0 .. n - 1`, in
      triangle order; corners are always read from `pts`. */
  function Grown(img: Image, pts: seq<int>, tris: seq<nat>, n: nat, grow: Tri --> seq<int>): seq<int>
    requires PointsIn(img, pts) && ValidTris(pts, tris) && 3 * n <= |tris| && AddsImagePoints(img, grow)
  {
    if n == 0 then pts
    else
      TriAtInImage(img, pts, tris, n - 1);
      Grown(img, pts, tris, n - 1, grow) + grow(TriAt(pts, tris, n - 1))
  }

  /** Visiting triangles only appends: the old points keep their places and
      every point stays a pixel of the image. */
  lemma {:induction false} GrownGrows(img: Image, pts: seq<int>, tris: seq<nat>, n: nat, grow: Tri --> seq<int>)
    requires PointsIn(img, pts) && ValidTris(pts, tris) && 3 * n <= |tris| && AddsImagePoints(img, grow)
    ensures var r := Grown(img, pts, tris, n, grow);
      |pts| <= |r| && r[..|pts|] == pts && PointsIn(img, r)
  {
    if n > 0 {
      GrownGrows(img, pts, tris, n - 1, grow);
      TriAtInImage(img, pts, tris, n - 1);
      var prev := Grown(img, pts, tris, n - 1, grow);
      var np := grow(TriAt(pts, tris, n - 1));
      PointsInAppend(img, prev, np);
      assert (prev + np)[..|pts|] == prev[..|pts|];
    }
  }

  /** The list once the refinement loop has visited triangles `0 .. n - 1`. */
  function RefineUpTo(img: Image, pts: seq<int>, tris: seq<nat>, n: nat): seq<int>
    requires ValidImage(img) && PointsIn(img, pts) && ValidTris(pts, tris) && 3 * n <= |tris|
  {
    NewPointRuleAdds(img);
    Grown(img, pts, tris, n, NewPointRule(img))
  }

  lemma RefineUpToGrows(img: Image, pts: seq<int>, tris: seq<nat>, n: nat)
    requires ValidImage(img) && PointsIn(img, pts) && ValidTris(pts, tris) && 3 * n <= |tris|
    ensures var r := RefineUpTo(img, pts, tris, n);
      |pts| <= |r| && r[..|pts|] == pts && PointsIn(img, r)
  {
    NewPointRuleAdds(img);
    GrownGrows(img, pts, tris, n, NewPointRule(img));
  }

  /** Visiting one more triangle appends what it adds. */
  lemma RefineUpToSnoc(img: Image, pts: seq<int>, tris: seq<nat>, j: nat)
    requires ValidImage(img) && PointsIn(img, pts) && ValidTris(pts, tris) && 3 * j + 3 <= |tris|
    ensures TriInImage(img, TriAt(pts, tris, j))
    ensures RefineUpTo(img, pts, tris, j + 1) == RefineUpTo(img, pts, tris, j) + NewPoint(img, TriAt(pts, tris, j))
  {
    TriAtInImage(img, pts, tris, j);
  }

  /** The list after a round. */
  function Refine(img: Image, pts: seq<int>, tris: seq<nat>): seq<int>
    requires ValidImage(img) && PointsIn(img, pts) && ValidTris(pts, tris)
  {
    RefineUpTo(img, pts, tris, |tris| / 3)
  }

  /** A round only appends: the old points keep their places and every point
      stays a pixel of the image. */
  lemma RefineGrows(img: Image, pts: seq<int>, tris: seq<nat>)
    requires ValidImage(img) && PointsIn(img, pts) && ValidTris(pts, tris)
    ensures var r := Refine(img, pts, tris);
      |pts| <= |r| && r[..|pts|] == pts && PointsIn(img, r)
  {
    RefineUpToGrows(img, pts, tris, |tris| / 3);
  }

  lemma PrefixPoint(pts: seq<int>, longer: seq<int>, k: nat)
    requires |pts| <= |longer| && longer[..|pts|] == pts && 2 * k + 1 < |pts|
    ensures PointAt(longer, k) == PointAt(pts, k)
  {
    assert longer[2 * k] == longer[..|pts|][2 * k];
    assert longer[2 * k + 1] == longer[..|pts|][2 * k + 1];
  }

  /** Every index names a point from before the round, so reading the
      corners from a longer list with the same prefix gives the same triangle. */
  lemma PrefixTri(img: Image, pts: seq<int>, longer: seq<int>, tris: seq<nat>, j: nat)
    requires PointsIn(img, pts) && ValidTris(pts, tris) && 3 * j + 2 < |tris|
    requires |pts| <= |longer| && longer[..|pts|] == pts
    ensures 2 * tris[3 * j] + 1 < |pts| && 2 * tris[3 * j + 1] + 1 < |pts| && 2 * tris[3 * j + 2] + 1 < |pts|
    ensures var t := TriAt(pts, tris, j);
      t == Tri(longer[tris[3 * j] * 2], longer[tris[3 * j] * 2 + 1], longer[tris[3 * j + 1] * 2],
               longer[tris[3 * j + 1] * 2 + 1], longer[tris[3 * j + 2] * 2], longer[tris[3 * j + 2] * 2 + 1]) &&
      TriInImage(img, t)
  {
    PrefixPoint(pts, longer, tris[3 * j]);
    PrefixPoint(pts, longer, tris[3 * j + 1]);
    PrefixPoint(pts, longer, tris[3 * j + 2]);
    TriAtInImage(img, pts, tris, j);
  }

  /** The body of the refinement loop for one triangle: the coordinates it pushes. */
  method RefineTriangle(img: Image, t: Tri) returns (pushed: seq<int>)
    requires ValidImage(img) && TriInImage(img, t)
    ensures pushed == NewPoint(img, t)
  {
    pushed := [];
    var avgColor := GetAverageColor(img, t);
    var averageVertexError := VertexError(img, t, avgColor);
    if averageVertexError > 100 {
      var lowX, lowY := GetLowErrorPoint(img, t, avgColor);
      if lowX > 0 && lowY > 0 {
        pushed := [lowX, lowY];
      }
    }
  }

  /** One pass of the refinement loop, triangle `j` at `i = 3 j`: it reads the
      corners from the list it is appending to and pushes what the triangle adds. */
  method RefineStep(img: Image, points: seq<int>, triangles: seq<nat>, refined: seq<int>, i: nat, ghost j: nat)
    returns (next: seq<int>)
    requires ValidImage(img) && PointsIn(img, points) && ValidTris(points, triangles)
    requires i == 3 * j && 3 * j + 3 <= |triangles|
    requires refined == RefineUpTo(img, points, triangles, j)
    ensures next == RefineUpTo(img, points, triangles, j + 1)
  {
    RefineUpToGrows(img, points, triangles, j);
    PrefixTri(img, points, refined, triangles, j);
    var a, b, c := triangles[i], triangles[i + 1], triangles[i + 2];
    assert a == triangles[3 * j] && b == triangles[3 * j + 1] && c == triangles[3 * j + 2];
    var x1, y1 := refined[a * 2], refined[a * 2 + 1];
    var x2, y2 := refined[b * 2], refined[b * 2 + 1];
    var x3, y3 := refined[c * 2], refined[c * 2 + 1];
    ghost var t := TriAt(points, triangles, j);
    assert Tri(x1, y1, x2, y2, x3, y3) == t;
    var pushed := RefineTriangle(img, Tri(x1, y1, x2, y2, x3, y3));
    assert pushed == NewPoint(img, t);
    RefineUpToSnoc(img, points, triangles, j);
    next := refined + pushed;
  }

  lemma LastTriangle(tris: seq<nat>, j: nat)
    requires |tris| % 3 == 0 && 3 * j < |tris|
    ensures 3 * j + 3 <= |tris|
  {
  }

  /** The refinement loop of `clacDelunay`; the points it appends come after
      every point the triangles index. */
  method RefinePass(img: Image, points: seq<int>, triangles: seq<nat>) returns (refined: seq<int>)
    requires ValidImage(img) && PointsIn(img, points) && ValidTris(points, triangles)
    ensures refined == Refine(img, points, triangles)
  {
    refined := points;
    var i := 0;
    ghost var j := 0;
    while i < |triangles|
      invariant 0 <= i <= |triangles| && i == 3 * j
      invariant refined == RefineUpTo(img, points, triangles, j)
    {
      LastTriangle(triangles, j);
      refined := RefineStep(img, points, triangles, refined, i, j);
      i, j := i + 3, j + 1;
    }
    assert j == |triangles| / 3;
  }

  // The last round

  /** The six corner coordinates of triangles `0 .. n - 1`. */
  function FinalPoints(pts: seq<int>, tris: seq<nat>, n: nat): seq<int>
    requires ValidTris(pts, tris) && 3 * n <= |tris|
  {
    if n == 0 then []
    else
      var t := TriAt(pts, tris, n - 1);
      FinalPoints(pts, tris, n - 1) + [t.x1, t.y1, t.x2, t.y2, t.x3, t.y3]
  }

  /** A colouring of triangles that applies to every triangle of the image. */
  ghost predicate ColorsImage(img: Image, color: Tri --> Rgb) {
    forall t :: TriInImage(img, t) ==> color.requires(t)
  }

  /** The colour of each of triangles `0 .. n - 1` under `color`, once per corner. */
  function Painted(img: Image, pts: seq<int>, tris: seq<nat>, n: nat, color: Tri --> Rgb): seq<Rgb>
    requires PointsIn(img, pts) && ValidTris(pts, tris) && 3 * n <= |tris| && ColorsImage(img, color)
  {
    if n == 0 then []
    else
      TriAtInImage(img, pts, tris, n - 1);
      var c := color(TriAt(pts, tris, n - 1));
      Painted(img, pts, tris, n - 1, color) + [c, c, c]
  }

  /** `AverageColor` as a colouring of the triangles of one image. */
  function AverageRule(img: Image): Tri --> Rgb
    requires ValidImage(img)
  {
    t requires ValidImage(img) && TriInImage(img, t) => AverageColor(img, t)
  }

  /** The average colour of each of triangles `0 .. n - 1`, once per corner. */
  function FinalColors(img: Image, pts: seq<int>, tris: seq<nat>, n: nat): seq<Rgb>
    requires ValidImage(img) && PointsIn(img, pts) && ValidTris(pts, tris) && 3 * n <= |tris|
  {
    Painted(img, pts, tris, n, AverageRule(img))
  }

  lemma {:induction false} FinalLength(img: Image, pts: seq<int>, tris: seq<nat>, n: nat, color: Tri --> Rgb)
    requires PointsIn(img, pts) && ValidTris(pts, tris) && 3 * n <= |tris| && ColorsImage(img, color)
    ensures |FinalPoints(pts, tris, n)| == 6 * n && |Painted(img, pts, tris, n, color)| == 3 * n
  {
    if n > 0 {
      FinalLength(img, pts, tris, n - 1, color);
    }
  }

  /** Later triangles only append to the coordinates of earlier ones. */
  lemma {:induction false} FinalPointsPrefix(img: Image, pts: seq<int>, tris: seq<nat>, m: nat, n: nat)
    requires PointsIn(img, pts) && ValidTris(pts, tris) && m <= n && 3 * n <= |tris|
    ensures |FinalPoints(pts, tris, n)| == 6 * n
    ensures FinalPoints(pts, tris, n)[..6 * m] == FinalPoints(pts, tris, m)
    decreases n
  {
    if n > m {
      FinalPointsPrefix(img, pts, tris, m, n - 1);
      var fp0 := FinalPoints(pts, tris, n - 1);
      assert FinalPoints(pts, tris, n)[..6 * m] == fp0[..6 * m];
    } else {
      if n > 0 {
        FinalPointsPrefix(img, pts, tris, n - 1, n - 1);
      }
      assert FinalPoints(pts, tris, n)[..6 * m] == FinalPoints(pts, tris, n);
    }
  }

  /** One step of `Painted`: triangle `n - 1` adds three copies of its colour. */
  lemma PaintedStep(img: Image, pts: seq<int>, tris: seq<nat>, n: nat, color: Tri --> Rgb) returns (c: Rgb)
    requires PointsIn(img, pts) && ValidTris(pts, tris) && 0 < n && 3 * n <= |tris| && ColorsImage(img, color)
    ensures TriInImage(img, TriAt(pts, tris, n - 1)) && c == color(TriAt(pts, tris, n - 1))
    ensures Painted(img, pts, tris, n, color) == Painted(img, pts, tris, n - 1, color) + [c, c, c]
  {
    TriAtInImage(img, pts, tris, n - 1);
    c := color(TriAt(pts, tris, n - 1));
  }

  /** Later triangles only append to the colours of earlier ones. */
  lemma {:induction false} PaintedPrefix(img: Image, pts: seq<int>, tris: seq<nat>, m: nat, n: nat, color: Tri --> Rgb)
    requires PointsIn(img, pts) && ValidTris(pts, tris) && m <= n && 3 * n <= |tris| && ColorsImage(img, color)
    ensures |Painted(img, pts, tris, n, color)| == 3 * n
    ensures Painted(img, pts, tris, n, color)[..3 * m] == Painted(img, pts, tris, m, color)
    decreases n
  {
    if n > m {
      PaintedPrefix(img, pts, tris, m, n - 1, color);
      var fc0 := Painted(img, pts, tris, n - 1, color);
      var c := PaintedStep(img, pts, tris, n, color);
      SliceOfAppend(fc0, [c, c, c], 0, 3 * m);
    } else {
      FinalLength(img, pts, tris, n, color);
      assert Painted(img, pts, tris, n, color)[..3 * m] == Painted(img, pts, tris, n, color);
    }
  }

  /** Triangle `j` is emitted at `6 j` and `3 j`. */
  lemma PaintedAt(img: Image, pts: seq<int>, tris: seq<nat>, n: nat, color: Tri --> Rgb, j: nat)
    requires PointsIn(img, pts) && ValidTris(pts, tris) && 3 * n <= |tris| && ColorsImage(img, color) && j < n
    ensures TriInImage(img, TriAt(pts, tris, j))
    ensures |FinalPoints(pts, tris, n)| == 6 * n && |Painted(img, pts, tris, n, color)| == 3 * n
    ensures var t, fp, fc := TriAt(pts, tris, j), FinalPoints(pts, tris, n), Painted(img, pts, tris, n, color);
      fp[6 * j .. 6 * j + 6] == [t.x1, t.y1, t.x2, t.y2, t.x3, t.y3] &&
      fc[3 * j .. 3 * j + 3] == [color(t), color(t), color(t)]
  {
    TriAtInImage(img, pts, tris, j);
    FinalPointsAt(img, pts, tris, n, j);
    PaintedSliceAt(img, pts, tris, n, color, j);
  }

  /** Triangle `j`'s six coordinates sit at `6 j`. */
  lemma FinalPointsAt(img: Image, pts: seq<int>, tris: seq<nat>, n: nat, j: nat)
    requires PointsIn(img, pts) && ValidTris(pts, tris) && 3 * n <= |tris| && j < n
    ensures |FinalPoints(pts, tris, n)| == 6 * n
    ensures var t := TriAt(pts, tris, j);
      FinalPoints(pts, tris, n)[6 * j .. 6 * j + 6] == [t.x1, t.y1, t.x2, t.y2, t.x3, t.y3]
  {
    FinalPointsPrefix(img, pts, tris, j + 1, n);
    FinalPointsPrefix(img, pts, tris, j, j);
    var fp, fp1 := FinalPoints(pts, tris, n), FinalPoints(pts, tris, j + 1);
    assert fp[6 * j .. 6 * j + 6] == fp1[6 * j .. 6 * j + 6];
  }

  /** Triangle `j`'s three colours sit at `3 j`. */
  lemma PaintedSliceAt(img: Image, pts: seq<int>, tris: seq<nat>, n: nat, color: Tri --> Rgb, j: nat)
    requires PointsIn(img, pts) && ValidTris(pts, tris) && 3 * n <= |tris| && ColorsImage(img, color) && j < n
    ensures TriInImage(img, TriAt(pts, tris, j))
    ensures |Painted(img, pts, tris, n, color)| == 3 * n
    ensures var t := TriAt(pts, tris, j);
      Painted(img, pts, tris, n, color)[3 * j .. 3 * j + 3] == [color(t), color(t), color(t)]
  {
    PaintedPrefix(img, pts, tris, j + 1, n, color);
    FinalLength(img, pts, tris, j, color);
    var c := PaintedStep(img, pts, tris, j + 1, color);
    var fc, fc1 := Painted(img, pts, tris, n, color), Painted(img, pts, tris, j + 1, color);
    assert fc[3 * j .. 3 * j + 3] == fc1[3 * j .. 3 * j + 3];
  }

  lemma AverageRuleColors(img: Image)
    requires ValidImage(img)
    ensures ColorsImage(img, AverageRule(img))
  {
  }

  /** The output layout: six coordinates and three copies of the average
      colour per triangle, triangle `j` at `6 j` and `3 j`. */
  lemma FinalLayout(img: Image, pts: seq<int>, tris: seq<nat>, n: nat)
    requires ValidImage(img) && PointsIn(img, pts) && ValidTris(pts, tris) && 3 * n <= |tris|
    ensures |FinalPoints(pts, tris, n)| == 6 * n && |FinalColors(img, pts, tris, n)| == 3 * n
    ensures forall j :: 0 <= j < n ==>
      TriInImage(img, TriAt(pts, tris, j)) &&
      var t, fp, fc := TriAt(pts, tris, j), FinalPoints(pts, tris, n), FinalColors(img, pts, tris, n);
      fp[6 * j .. 6 * j + 6] == [t.x1, t.y1, t.x2, t.y2, t.x3, t.y3] &&
      fc[3 * j .. 3 * j + 3] == [AverageColor(img, t), AverageColor(img, t), AverageColor(img, t)]
  {
    AverageRuleColors(img);
    FinalLength(img, pts, tris, n, AverageRule(img));
    forall j | 0 <= j < n
      ensures TriInImage(img, TriAt(pts, tris, j))
      ensures var t := TriAt(pts, tris, j);
        FinalPoints(pts, tris, n)[6 * j .. 6 * j + 6] == [t.x1, t.y1, t.x2, t.y2, t.x3, t.y3] &&
        FinalColors(img, pts, tris, n)[3 * j .. 3 * j + 3] == [AverageColor(img, t), AverageColor(img, t), AverageColor(img, t)]
    {
      PaintedAt(img, pts, tris, n, AverageRule(img), j);
    }
  }

  /** The output loop body for triangle `j` at `i = 3 j`. */
  method FinalStep(img: Image, points: seq<int>, triangles: seq<nat>, triPoints: seq<int>, triColors: seq<Rgb>,
                   i: nat, ghost j: nat)
    returns (nextPoints: seq<int>, nextColors: seq<Rgb>)
    requires ValidImage(img) && PointsIn(img, points) && ValidTris(points, triangles)
    requires i == 3 * j && 3 * j + 3 <= |triangles|
    requires triPoints == FinalPoints(points, triangles, j)
    requires triColors == FinalColors(img, points, triangles, j)
    ensures nextPoints == FinalPoints(points, triangles, j + 1)
    ensures nextColors == FinalColors(img, points, triangles, j + 1)
  {
    var t := ReadTri(points, triangles, i, j);
    FinalExtends(img, points, triangles, j);
    var avgColor := GetAverageColor(img, t);
    nextPoints := triPoints + [t.x1, t.y1, t.x2, t.y2, t.x3, t.y3];
    nextColors := triColors + [avgColor, avgColor, avgColor];
  }

  /** Triangle `j`'s corners, read from the point list through its three
      indices at `i = 3 j`. */
  method ReadTri(points: seq<int>, triangles: seq<nat>, i: nat, ghost j: nat) returns (t: Tri)
    requires ValidTris(points, triangles) && i == 3 * j && 3 * j + 3 <= |triangles|
    ensures t == TriAt(points, triangles, j)
  {
    var a, b, c := triangles[i], triangles[i + 1], triangles[i + 2];
    var x1, y1 := points[a * 2], points[a * 2 + 1];
    var x2, y2 := points[b * 2], points[b * 2 + 1];
    var x3, y3 := points[c * 2], points[c * 2 + 1];
    t := Tri(x1, y1, x2, y2, x3, y3);
  }

  /** Triangle `j` appends its six coordinates and three copies of its
      average colour to the output of the triangles before it. */
  lemma FinalExtends(img: Image, pts: seq<int>, tris: seq<nat>, j: nat)
    requires ValidImage(img) && PointsIn(img, pts) && ValidTris(pts, tris) && 3 * j + 3 <= |tris|
    ensures TriInImage(img, TriAt(pts, tris, j))
    ensures var t := TriAt(pts, tris, j);
      FinalPoints(pts, tris, j + 1) == FinalPoints(pts, tris, j) + [t.x1, t.y1, t.x2, t.y2, t.x3, t.y3] &&
      FinalColors(img, pts, tris, j + 1) ==
        FinalColors(img, pts, tris, j) + [AverageColor(img, t), AverageColor(img, t), AverageColor(img, t)]
  {
    AverageRuleColors(img);
    var c := PaintedStep(img, pts, tris, j + 1, AverageRule(img));
  }

  /** The output loop of the last round. */
  method FinalPass(img: Image, points: seq<int>, triangles: seq<nat>) returns (triPoints: seq<int>, triColors: seq<Rgb>)
    requires ValidImage(img) && PointsIn(img, points) && ValidTris(points, triangles)
    ensures triPoints == FinalPoints(points, triangles, |triangles| / 3)
    ensures triColors == FinalColors(img, points, triangles, |triangles| / 3)
  {
    triPoints, triColors := [], [];
    var i := 0;
    ghost var j := 0;
    while i < |triangles|
      invariant 0 <= i <= |triangles| && i == 3 * j
      invariant triPoints == FinalPoints(points, triangles, j)
      invariant triColors == FinalColors(img, points, triangles, j)
    {
      LastTriangle(triangles, j);
      triPoints, triColors := FinalStep(img, points, triangles, triPoints, triColors, i, j);
      i, j := i + 3, j + 1;
    }
    assert j == |triangles| / 3;
  }

  // clacDelunay

  /** Rounds `d .. depth - 1` over `pts`: each but the last appends points,
      the last (`d == depth - 1`) emits the triangles with their colours; no
      rounds left emit nothing. */
  function Rounds(img: Image, pts: seq<int>, d: nat, depth: nat, triangulate: seq<int> -> seq<nat>): (seq<int>, seq<Rgb>)
    requires ValidImage(img) && PointsIn(img, pts) && ValidTriangulator(triangulate)
    decreases depth - d
  {
    if d >= depth then ([], [])
    else
      var tris := triangulate(pts);
      if d == depth - 1 then (FinalPoints(pts, tris, |tris| / 3), FinalColors(img, pts, tris, |tris| / 3))
      else
        RefineGrows(img, pts, tris);
        Rounds(img, Refine(img, pts, tris), d + 1, depth, triangulate)
  }

  /** A round that is not the last one refines and goes on with the next. */
  lemma RoundsStep(img: Image, pts: seq<int>, d: nat, depth: nat, triangulate: seq<int> -> seq<nat>)
    requires ValidImage(img) && PointsIn(img, pts) && ValidTriangulator(triangulate) && d + 1 < depth
    ensures ValidTris(pts, triangulate(pts)) && PointsIn(img, Refine(img, pts, triangulate(pts)))
    ensures Rounds(img, pts, d, depth, triangulate) == Rounds(img, Refine(img, pts, triangulate(pts)), d + 1, depth, triangulate)
  {
    RefineGrows(img, pts, triangulate(pts));
  }

  /** The last round emits the triangles of the current list. */
  lemma RoundsLast(img: Image, pts: seq<int>, d: nat, depth: nat, triangulate: seq<int> -> seq<nat>)
    requires ValidImage(img) && PointsIn(img, pts) && ValidTriangulator(triangulate) && d == depth - 1
    ensures ValidTris(pts, triangulate(pts))
    ensures Rounds(img, pts, d, depth, triangulate) ==
      (FinalPoints(pts, triangulate(pts), |triangulate(pts)| / 3), FinalColors(img, pts, triangulate(pts), |triangulate(pts)| / 3))
  {
  }

  /** A round that is not the last: refine the list by its triangulation,
      leaving the later rounds to the same result. */
  method NextRound(img: Image, points: seq<int>, triangles: seq<nat>, ghost d: nat, ghost depth: nat,
                   triangulate: seq<int> -> seq<nat>, ghost result: (seq<int>, seq<Rgb>))
    returns (next: seq<int>)
    requires ValidImage(img) && PointsIn(img, points) && ValidTriangulator(triangulate) && d + 1 < depth
    requires triangles == triangulate(points)
    requires Rounds(img, points, d, depth, triangulate) == result
    ensures PointsIn(img, next)
    ensures Rounds(img, next, d + 1, depth, triangulate) == result
  {
    RoundsStep(img, points, d, depth, triangulate);
    next := RefinePass(img, points, triangles);
    assert next == Refine(img, points, triangles);
  }

  /** `clacDelunay`: triangulate the current list, then either emit (in the
      last round) or refine and go round again. */
  method ClacDelunay(img: Image, initPoints: seq<int>, depth: nat, triangulate: seq<int> -> seq<nat>)
    returns (triPoints: seq<int>, triColors: seq<Rgb>)
    requires ValidImage(img) && PointsIn(img, initPoints) && ValidTriangulator(triangulate)
    ensures (triPoints, triColors) == Rounds(img, initPoints, 0, depth, triangulate)
  {
    var points := initPoints;
    ghost var result := Rounds(img, initPoints, 0, depth, triangulate);
    var d := 0;
    while d < depth
      invariant 0 <= d <= depth
      invariant PointsIn(img, points)
      invariant Rounds(img, points, d, depth, triangulate) == result
    {
      var triangles := triangulate(points);
      if d == depth - 1 {
        RoundsLast(img, points, d, depth, triangulate);
        triPoints, triColors := FinalPass(img, points, triangles);
        return;
      }
      points := NextRound(img, points, triangles, d, depth, triangulate, result);
      d := d + 1;
    }
    triPoints, triColors := [], [];
  }

  /** The corners of a triangle in the image, as a flat list of image points. */
  lemma CornersIn(img: Image, t: Tri)
    requires TriInImage(img, t)
    ensures PointsIn(img, [t.x1, t.y1, t.x2, t.y2, t.x3, t.y3])
  {
    var c := [t.x1, t.y1, t.x2, t.y2, t.x3, t.y3];
    forall k: nat | 2 * k + 1 < |c|
      ensures InImage(img, PointAt(c, k))
    {
      assert k == 0 || k == 1 || k == 2;
    }
  }

  /** Every emitted corner is a pixel of the image. */
  lemma {:induction false} FinalPointsIn(img: Image, pts: seq<int>, tris: seq<nat>, n: nat)
    requires ValidImage(img) && PointsIn(img, pts) && ValidTris(pts, tris) && 3 * n <= |tris|
    ensures PointsIn(img, FinalPoints(pts, tris, n))
  {
    if n > 0 {
      FinalPointsIn(img, pts, tris, n - 1);
      TriAtInImage(img, pts, tris, n - 1);
      var t := TriAt(pts, tris, n - 1);
      CornersIn(img, t);
      PointsInAppend(img, FinalPoints(pts, tris, n - 1), [t.x1, t.y1, t.x2, t.y2, t.x3, t.y3]);
    }
  }

  /** A run that ends after the first round emits two coordinates and one
      colour per index the triangulation returns, and every emitted corner is
      a pixel of the image. */
  lemma OneRoundOutput(img: Image, pts: seq<int>, triangulate: seq<int> -> seq<nat>)
    requires ValidImage(img) && PointsIn(img, pts) && ValidTriangulator(triangulate)
    ensures var (fp, fc) := Rounds(img, pts, 0, 1, triangulate);
      |fp| == 2 * |triangulate(pts)| && |fc| == |triangulate(pts)| && PointsIn(img, fp)
  {
    var tris := triangulate(pts);
    assert ValidTris(pts, tris);
    FinalLayout(img, pts, tris, |tris| / 3);
    FinalPointsIn(img, pts, tris, |tris| / 3);
  }

  // triangleTest: the seed grid

  const GridX: nat := 20
  const GridY: nat := 20

  /** Seed `k` of `n + 1` evenly spaced over `[0, size - 1]`, truncated. */
  function GridCoord(size: real, k: nat, n: nat): int
    requires n > 0
  {
    Trunc((size - 1.0) * k as real / n as real)
  }

  /** The seeds of columns `0 .. x - 1` and then `(x, 0) .. (x, y - 1)`, as
      flat pairs: `x` outer, `y` inner. */
  function GridUpTo(w: real, h: real, x: nat, y: nat): seq<int>
    decreases x, 1, y
  {
    if y == 0 then GridColumns(w, h, x)
    else GridUpTo(w, h, x, y - 1) + [GridCoord(w, x, GridX), GridCoord(h, y - 1, GridY)]
  }

  /** Columns `0 .. x - 1` of the seed grid. */
  function GridColumns(w: real, h: real, x: nat): seq<int>
    decreases x, 0, 0
  {
    if x == 0 then [] else GridUpTo(w, h, x - 1, GridY + 1)
  }

  /** The `(gridX + 1) * (gridY + 1)` seeds of `triangleTest`. */
  function GridPoints(w: real, h: real): seq<int> {
    GridColumns(w, h, GridX + 1)
  }

  lemma FractionAtMostOne(a: real, b: real)
    requires 0.0 <= a <= b && 0.0 < b
    ensures 0.0 <= a / b <= 1.0
  {
    assert a / b * b == a;
  }

  lemma ScaleAtMost(m: real, f: real)
    requires 0.0 <= m && 0.0 <= f <= 1.0
    ensures 0.0 <= m * f <= m
  {
    assert m - m * f == m * (1.0 - f);
  }

  lemma MulDivAssoc(m: real, k: real, n: real)
    requires n != 0.0
    ensures m * k / n == m * (k / n)
  {
    assert k / n * n == k;
  }

  /** A fraction `k / n` of `m` lies between `0` and `m`. */
  lemma PartOf(m: real, k: real, n: real)
    requires 0.0 <= m && 0.0 <= k <= n && 0.0 < n
    ensures 0.0 <= m * k / n <= m
  {
    FractionAtMostOne(k, n);
    MulDivAssoc(m, k, n);
    ScaleAtMost(m, k / n);
  }

  lemma FloorMono(a: real, b: real)
    requires a <= b
    ensures a.Floor <= b.Floor
  {
    assert a.Floor as real <= a;
  }

  lemma FloorLessOne(r: real)
    ensures (r - 1.0).Floor == r.Floor - 1
  {
    assert (r.Floor - 1) as real <= r - 1.0 < r.Floor as real;
  }

  /** A seed coordinate lies on the canvas, `[0, floor(size) - 1]`. */
  lemma GridCoordWithin(size: real, k: nat, n: nat)
    requires size >= 1.0 && 0 < n && k <= n
    ensures 0 <= GridCoord(size, k, n) <= Floor(size) - 1
  {
    var v := (size - 1.0) * k as real / n as real;
    PartOf(size - 1.0, k as real, n as real);
    FloorMono(0.0, v);
    FloorMono(v, size - 1.0);
    FloorLessOne(size);
  }

  /** Each column holds 21 seeds, 42 coordinates. */
  lemma {:induction false} GridUpToIn(img: Image, w: real, h: real, x: nat, y: nat)
    requires w >= 1.0 && h >= 1.0 && Floor(w) == img.width && Floor(h) == img.height
    requires x <= GridX && y <= GridY + 1
    ensures |GridUpTo(w, h, x, y)| == 42 * x + 2 * y && PointsIn(img, GridUpTo(w, h, x, y))
    decreases x, 1, y
  {
    if y == 0 {
      GridColumnsIn(img, w, h, x);
    } else {
      GridUpToIn(img, w, h, x, y - 1);
      GridCoordWithin(w, x, GridX);
      GridCoordWithin(h, y - 1, GridY);
      var p := [GridCoord(w, x, GridX), GridCoord(h, y - 1, GridY)];
      assert PointsIn(img, p) by {
        assert forall k: nat :: 2 * k + 1 < |p| ==> k == 0;
      }
      PointsInAppend(img, GridUpTo(w, h, x, y - 1), p);
    }
  }

  lemma {:induction false} GridColumnsIn(img: Image, w: real, h: real, x: nat)
    requires w >= 1.0 && h >= 1.0 && Floor(w) == img.width && Floor(h) == img.height
    requires x <= GridX + 1
    ensures |GridColumns(w, h, x)| == 42 * x && PointsIn(img, GridColumns(w, h, x))
    decreases x, 0, 0
  {
    if x > 0 {
      GridUpToIn(img, w, h, x - 1, GridY + 1);
    }
  }

  /** The seed grid is 441 pixels of the canvas, corners included. */
  lemma GridInImage(img: Image, w: real, h: real)
    requires w >= 1.0 && h >= 1.0 && Floor(w) == img.width && Floor(h) == img.height
    ensures |GridPoints(w, h)| == 2 * 441 && PointsIn(img, GridPoints(w, h))
  {
    GridColumnsIn(img, w, h, GridX + 1);
  }

  /** The seed loops of `triangleTest`. */
  method InitPoints(w: real, h: real) returns (initPoints: seq<int>)
    ensures initPoints == GridPoints(w, h)
  {
    initPoints := [];
    var x := 0;
    while x < GridX + 1
      invariant 0 <= x <= GridX + 1
      invariant initPoints == GridColumns(w, h, x)
    {
      var y := 0;
      while y < GridY + 1
        invariant 0 <= y <= GridY + 1
        invariant initPoints == GridUpTo(w, h, x, y)
      {
        var pX := GridCoord(w, x, GridX);
        var pY := GridCoord(h, y, GridY);
        initPoints := initPoints + [pX, pY];
        y := y + 1;
      }
      x := x + 1;
    }
  }

  /** The seeds of a canvas at half the bitmap's size are pixels of that canvas. */
  lemma SeedsInImage(img: Image, sourceWidth: nat, sourceHeight: nat)
    requires img.width == sourceWidth / 2 >= 1 && img.height == sourceHeight / 2 >= 1
    ensures PointsIn(img, GridPoints(sourceWidth as real / 2.0, sourceHeight as real / 2.0))
  {
    HalfFloor(sourceWidth);
    HalfFloor(sourceHeight);
    GridInImage(img, sourceWidth as real / 2.0, sourceHeight as real / 2.0);
  }

  /** The number of rounds `triangleTest` asks for. */
  const Depth: nat := 3

  /** `triangleTest`: the bitmap is drawn at half size onto a canvas whose
      dimensions are the truncated halves. */
  method TriangleTest(img: Image, sourceWidth: nat, sourceHeight: nat, triangulate: seq<int> -> seq<nat>)
    returns (triangles: seq<int>, triangleColors: seq<Rgb>)
    requires ValidImage(img) && ValidTriangulator(triangulate)
    requires img.width == sourceWidth / 2 >= 1 && img.height == sourceHeight / 2 >= 1
    ensures PointsIn(img, GridPoints(sourceWidth as real / 2.0, sourceHeight as real / 2.0))
    ensures (triangles, triangleColors) ==
      Rounds(img, GridPoints(sourceWidth as real / 2.0, sourceHeight as real / 2.0), 0, Depth, triangulate)
  {
    var initPoints := InitPoints(sourceWidth as real / 2.0, sourceHeight as real / 2.0);
    SeedsInImage(img, sourceWidth, sourceHeight);
    assert initPoints == GridPoints(sourceWidth as real / 2.0, sourceHeight as real / 2.0);
    triangles, triangleColors := ClacDelunay(img, initPoints, Depth, triangulate);
  }

  /** The canvas size is the truncated half of the bitmap size. */
  lemma HalfFloor(n: nat)
    ensures Floor(n as real / 2.0) == n / 2
  {
    var q := n / 2;
    assert n as real / 2.0 == q as real + (n % 2) as real / 2.0;
  }
}
