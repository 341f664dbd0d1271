/** clients/simple-damage.c:421-442: painting boxes and discs into a buffer of
    32-bit pixels stored row by row. */
module Painting {

  type Pixel = int

  // ---------- Row-major indices ----------

  function Row(k: int, pitch: int): int
    requires pitch > 0
  {
    k / pitch
  }

  function Col(k: int, pitch: int): int
    requires pitch > 0
  {
    k % pitch
  }

  function Index(i: int, j: int, pitch: int): int {
    i + j * pitch
  }

  lemma IndexOfCell(i: int, j: int, pitch: int)
    requires 0 <= i < pitch
    ensures Row(Index(i, j, pitch), pitch) == j && Col(Index(i, j, pitch), pitch) == i
  {
    var k := Index(i, j, pitch);
    var q, r := k / pitch, k % pitch;
    assert k == q * pitch + r && 0 <= r < pitch;
    SameQuotient(q, r, j, i, pitch);
  }

  lemma SameQuotient(q: int, r: int, j: int, i: int, pitch: int)
    requires 0 <= i < pitch && 0 <= r < pitch && q * pitch + r == j * pitch + i
    ensures q == j && r == i
  {
    var d := q - j;
    assert d * pitch == i - r;
    assert d >= 1 ==> d * pitch >= pitch;
    assert d <= -1 ==> d * pitch <= -pitch;
  }

  lemma CellOfIndex(k: int, pitch: int)
    requires pitch > 0
    ensures 0 <= Col(k, pitch) < pitch && Index(Col(k, pitch), Row(k, pitch), pitch) == k
  {
  }

  lemma IndexInBuffer(i: int, j: int, pitch: int, rows: int, size: int)
    requires 0 <= i < pitch && 0 <= j < rows && size == rows * pitch
    ensures 0 <= Index(i, j, pitch) < size
  {
    assert (j + 1) * pitch <= rows * pitch;
    assert 0 <= j * pitch;
  }

  lemma RowInBuffer(k: int, pitch: int, rows: int, size: int)
    requires pitch > 0 && 0 <= k < size == rows * pitch
    ensures 0 <= Row(k, pitch) < rows
  {
    var q, r := k / pitch, k % pitch;
    assert k == q * pitch + r && 0 <= r < pitch;
    assert q >= rows ==> q * pitch >= rows * pitch;
    assert q <= -1 ==> q * pitch <= -pitch;
  }

  // ---------- Boxes ----------

  predicate InBox(i: int, j: int, x: int, y: int, width: int, height: int) {
    x <= i < x + width && y <= j < y + height
  }

  /** The pixels s with one box filled. */
  ghost predicate IsBoxPainted(t: seq<Pixel>, s: seq<Pixel>, pitch: int, x: int, y: int, width: int, height: int,
      color: Pixel)
    requires pitch > 0
  {
    && |t| == |s|
    && forall k :: 0 <= k < |s| ==>
         t[k] == if InBox(Col(k, pitch), Row(k, pitch), x, y, width, height) then color else s[k]
  }

  /** Rows y..j are done, and row j up to column i. */
  ghost predicate BoxPartly(t: seq<Pixel>, s: seq<Pixel>, pitch: int, x: int, y: int, width: int, j: int, i: int,
      color: Pixel)
    requires pitch > 0
  {
    && |t| == |s|
    && forall k :: 0 <= k < |s| ==>
         t[k] == if InBox(Col(k, pitch), Row(k, pitch), x, y, width, j - y)
                    || InBox(Col(k, pitch), Row(k, pitch), x, j, i - x, 1) then color else s[k]
  }

  lemma WriteBoxPixel(t: seq<Pixel>, u: seq<Pixel>, s: seq<Pixel>, pitch: int, x: int, y: int, width: int, j: int,
      i: int, color: Pixel)
    requires 0 <= x <= i < x + width <= pitch && y <= j
    requires BoxPartly(t, s, pitch, x, y, width, j, i, color)
    requires 0 <= Index(i, j, pitch) < |t| && u == t[Index(i, j, pitch) := color]
    ensures BoxPartly(u, s, pitch, x, y, width, j, i + 1, color)
  {
    hide Row, Col, Index;
    IndexOfCell(i, j, pitch);
    forall k | 0 <= k < |s|
      ensures u[k] == if InBox(Col(k, pitch), Row(k, pitch), x, y, width, j - y)
                         || InBox(Col(k, pitch), Row(k, pitch), x, j, i + 1 - x, 1) then color else s[k]
    {
      CellOfIndex(k, pitch);
    }
  }

  /** paint_box */
  method PaintBox(pixels: array<Pixel>, pitch: int, ghost rows: int, x: int, y: int, width: int, height: int,
      color: Pixel)
    requires 0 <= x && 0 <= width && x + width <= pitch && 0 < pitch
    requires 0 <= y && 0 <= height && y + height <= rows && pixels.Length == rows * pitch
    modifies pixels
    ensures IsBoxPainted(pixels[..], old(pixels[..]), pitch, x, y, width, height, color)
  {
    ghost var s := pixels[..];
    var j := y;
    while j < y + height
      invariant y <= j <= y + height
      invariant BoxPartly(pixels[..], s, pitch, x, y, width, j, x, color)
    {
      var i := x;
      while i < x + width
        invariant x <= i <= x + width
        invariant BoxPartly(pixels[..], s, pitch, x, y, width, j, i, color)
      {
        IndexInBuffer(i, j, pitch, rows, pixels.Length);
        ghost var t := pixels[..];
        pixels[i + j * pitch] := color;
        WriteBoxPixel(t, pixels[..], s, pitch, x, y, width, j, i, color);
        i := i + 1;
      }
      j := j + 1;
    }
  }

  // ---------- Discs ----------

  /** The test of paint_circle: the pixel's centre lies in the disc. */
  predicate InDisc(i: int, j: int, x: real, y: real, radius: int) {
    Square(j as real + 0.5 - y) + Square(i as real + 0.5 - x) <= (radius * radius) as real
  }

  function Square(d: real): real {
    d * d
  }

  lemma SquareBound(d: real, r: real)
    requires r >= 0.0 && Square(d) <= r * r
    ensures -r <= d <= r
  {
    assert (d - r) * (d + r) == d * d - r * r;
    if d > r { ProductPositive(d - r, d + r); }
    if d < -r { ProductPositive(r - d, -r - d); }
  }

  lemma ProductPositive(p: real, q: real)
    requires p > 0.0 && q > 0.0
    ensures p * q > 0.0
  {
  }

  lemma SquareNonNegative(d: real)
    ensures Square(d) >= 0.0
  {
  }

  lemma DiscExtent(i: int, j: int, x: real, y: real, radius: nat)
    requires InDisc(i, j, x, y, radius)
    ensures -(radius as real) <= i as real + 0.5 - x <= radius as real
    ensures -(radius as real) <= j as real + 0.5 - y <= radius as real
  {
    var di, dj, r := i as real + 0.5 - x, j as real + 0.5 - y, radius as real;
    assert (radius * radius) as real == r * r;
    SquareNonNegative(di);
    SquareNonNegative(dj);
    SquareBound(di, r);
    SquareBound(dj, r);
  }

  /** Conversion of a float to int. */
  function Truncated(x: real): int {
    if x >= 0.0 then x.Floor else -((-x).Floor)
  }

  ghost predicate IsDiscPainted(t: seq<Pixel>, s: seq<Pixel>, pitch: int, x: real, y: real, radius: int, color: Pixel)
    requires pitch > 0
  {
    && |t| == |s|
    && forall k :: 0 <= k < |s| ==>
         t[k] == if InDisc(Col(k, pitch), Row(k, pitch), x, y, radius) then color else s[k]
  }

  /** Scanned before cell (i, j). */
  predicate Before(col: int, row: int, i: int, j: int) {
    row < j || (row == j && col < i)
  }

  ghost predicate DiscPartly(t: seq<Pixel>, s: seq<Pixel>, pitch: int, x: real, y: real, radius: int, i: int, j: int,
      color: Pixel)
    requires pitch > 0
  {
    && |t| == |s|
    && forall k :: 0 <= k < |s| ==>
         t[k] == if InDisc(Col(k, pitch), Row(k, pitch), x, y, radius) && Before(Col(k, pitch), Row(k, pitch), i, j)
                 then color else s[k]
  }

  lemma ScanDiscPixel(t: seq<Pixel>, u: seq<Pixel>, s: seq<Pixel>, pitch: int, x: real, y: real, radius: int, i: int,
      j: int, color: Pixel)
    requires pitch > 0 && DiscPartly(t, s, pitch, x, y, radius, i, j, color)
    requires InDisc(i, j, x, y, radius) ==>
               0 <= i < pitch && 0 <= Index(i, j, pitch) < |t| && u == t[Index(i, j, pitch) := color]
    requires !InDisc(i, j, x, y, radius) ==> u == t
    ensures DiscPartly(u, s, pitch, x, y, radius, i + 1, j, color)
  {
    hide Row, Col, Index, InDisc;
    if 0 <= i < pitch { IndexOfCell(i, j, pitch); }
    forall k | 0 <= k < |s|
      ensures u[k] == if InDisc(Col(k, pitch), Row(k, pitch), x, y, radius)
                         && Before(Col(k, pitch), Row(k, pitch), i + 1, j) then color else s[k]
    {
      CellOfIndex(k, pitch);
    }
  }

  /** No disc pixel lies left of the first or right of the last scanned column,
      nor above or below the scanned rows. */
  lemma DiscInScan(i: int, j: int, x: real, y: real, radius: nat)
    requires InDisc(i, j, x, y, radius) && x >= radius as real && y >= radius as real
    ensures Truncated(x - radius as real) <= i <= Truncated(x + radius as real)
    ensures Truncated(y - radius as real) <= j <= Truncated(y + radius as real)
  {
    DiscExtent(i, j, x, y, radius);
  }

  /** paint_circle paints the whole disc, and the disc is inside the buffer. */
  method PaintCircle(pixels: array<Pixel>, pitch: int, ghost rows: int, x: real, y: real, radius: nat, color: Pixel)
    requires 0 < pitch && pixels.Length == rows * pitch
    requires radius as real <= x <= (pitch - radius) as real && radius as real <= y <= (rows - radius) as real
    modifies pixels
    ensures IsDiscPainted(pixels[..], old(pixels[..]), pitch, x, y, radius, color)
  {
    ghost var s := pixels[..];
    var j := Truncated(y - radius as real);
    var firstColumn, lastColumn := Truncated(x - radius as real), Truncated(x + radius as real);
    var lastRow := Truncated(y + radius as real);
    DiscStart(s, pitch, x, y, radius, color);
    while j <= lastRow
      invariant j <= lastRow + 1
      invariant DiscPartly(pixels[..], s, pitch, x, y, radius, firstColumn, j, color)
    {
      var i := firstColumn;
      while i <= lastColumn
        invariant firstColumn <= i <= lastColumn + 1
        invariant DiscPartly(pixels[..], s, pitch, x, y, radius, i, j, color)
      {
        ghost var t := pixels[..];
        if Square(j as real + 0.5 - y) + Square(i as real + 0.5 - x) <= (radius * radius) as real {
          DiscInBuffer(i, j, x, y, radius, pitch, rows, pixels.Length);
          pixels[i + j * pitch] := color;
        }
        ScanDiscPixel(t, pixels[..], s, pitch, x, y, radius, i, j, color);
        i := i + 1;
      }
      DiscNextRow(pixels[..], s, pitch, x, y, radius, j, color);
      j := j + 1;
    }
    DiscEnd(pixels[..], s, pitch, x, y, radius, j, color);
  }

  lemma DiscInBuffer(i: int, j: int, x: real, y: real, radius: nat, pitch: int, rows: int, size: int)
    requires InDisc(i, j, x, y, radius) && 0 < pitch && size == rows * pitch
    requires radius as real <= x <= (pitch - radius) as real && radius as real <= y <= (rows - radius) as real
    ensures 0 <= i < pitch && 0 <= j < rows && 0 <= Index(i, j, pitch) < size
  {
    DiscExtent(i, j, x, y, radius);
    IndexInBuffer(i, j, pitch, rows, size);
  }

  lemma DiscStart(s: seq<Pixel>, pitch: int, x: real, y: real, radius: nat, color: Pixel)
    requires pitch > 0 && x >= radius as real && y >= radius as real
    ensures DiscPartly(s, s, pitch, x, y, radius, Truncated(x - radius as real), Truncated(y - radius as real), color)
  {
    hide Truncated, InDisc;
    forall k | 0 <= k < |s| && InDisc(Col(k, pitch), Row(k, pitch), x, y, radius)
      ensures !Before(Col(k, pitch), Row(k, pitch), Truncated(x - radius as real), Truncated(y - radius as real))
    {
      DiscInScan(Col(k, pitch), Row(k, pitch), x, y, radius);
    }
  }

  lemma DiscNextRow(t: seq<Pixel>, s: seq<Pixel>, pitch: int, x: real, y: real, radius: nat, j: int, color: Pixel)
    requires pitch > 0 && x >= radius as real && y >= radius as real
    requires DiscPartly(t, s, pitch, x, y, radius, Truncated(x + radius as real) + 1, j, color)
    ensures DiscPartly(t, s, pitch, x, y, radius, Truncated(x - radius as real), j + 1, color)
  {
    hide Truncated, InDisc;
    forall k | 0 <= k < |s| && InDisc(Col(k, pitch), Row(k, pitch), x, y, radius)
      ensures Truncated(x - radius as real) <= Col(k, pitch) <= Truncated(x + radius as real)
    {
      DiscInScan(Col(k, pitch), Row(k, pitch), x, y, radius);
    }
  }

  lemma DiscEnd(t: seq<Pixel>, s: seq<Pixel>, pitch: int, x: real, y: real, radius: nat, j: int, color: Pixel)
    requires pitch > 0 && x >= radius as real && y >= radius as real
    requires j > Truncated(y + radius as real)
    requires DiscPartly(t, s, pitch, x, y, radius, Truncated(x - radius as real), j, color)
    ensures IsDiscPainted(t, s, pitch, x, y, radius, color)
  {
    hide Truncated, InDisc;
    forall k | 0 <= k < |s| && InDisc(Col(k, pitch), Row(k, pitch), x, y, radius)
      ensures Row(k, pitch) <= Truncated(y + radius as real)
    {
      DiscInScan(Col(k, pitch), Row(k, pitch), x, y, radius);
    }
  }
}
