/** clients/simple-shm.c:535-586: paint_pixels walks one pixel pointer over the
    image, skipping the padding by pointer arithmetic only. */
module ShmPainting {
  import opened CInt
  import opened Painting

  const TWO_24 := 0x100_0000

  function Abs(x: int): int {
    if x < 0 then -x else x
  }

  /** Centre and squared radii thresholds. */
  function HalfSide(side: int, padding: int): int {
    padding + TruncDiv(side - padding * 2, 2)
  }

  function OuterRadius(padding: int, width: int, height: int): int {
    Min(HalfSide(width, padding), HalfSide(height, padding)) - 8
  }

  /** The colour at column x, row y, r2 the squared distance from the centre: an
      expanding ring pattern, with the top byte set off the two diagonals. */
  function ColourAt(x: int, y: int, r2: int, inner: int, outer: int, height: int, time: uint32): uint32 {
    var level :=
      if r2 < inner then TruncDiv(r2, 32) + time / 64
      else if r2 < outer then y + time / 32
      else x + time / 16;
    var v := ToUint32(ToUint32(level) * 0x0080401) % TWO_24;
    if Abs(x - y) > 6 && Abs(x + y - height) > 6 then v + 0xff000000 else v
  }

  function PixelValue(x: int, y: int, padding: int, width: int, height: int, time: uint32): uint32 {
    var dx, dy := x - HalfSide(width, padding), y - HalfSide(height, padding);
    var outer := OuterRadius(padding, width, height);
    var inner := outer - 32;
    ColourAt(x, y, dx * dx + dy * dy, inner * inner, outer * outer, height, time)
  }

  // ---------- What the pattern does ----------

  /** Squared distance from the centre of the unpadded area. */
  function FromCentre(x: int, y: int, padding: int, width: int, height: int): int {
    var dx, dy := x - HalfSide(width, padding), y - HalfSide(height, padding);
    dx * dx + dy * dy
  }

  datatype Zone = Inside | Ring | Outside

  /** The ring is 32 pixels wide and ends 8 short of the nearer edge. */
  function ZoneOf(x: int, y: int, padding: int, width: int, height: int): Zone {
    var r2, outer := FromCentre(x, y, padding, width, height), OuterRadius(padding, width, height);
    if r2 < (outer - 32) * (outer - 32) then Inside else if r2 < outer * outer then Ring else Outside
  }

  /** The three colour channels. */
  function Colour(x: int, y: int, padding: int, width: int, height: int, time: uint32): int {
    PixelValue(x, y, padding, width, height, time) % TWO_24
  }

  /** The top byte: all ones except along the two diagonals, where it is zero. */
  lemma DiagonalsClear(x: int, y: int, padding: int, width: int, height: int, time: uint32)
    ensures PixelValue(x, y, padding, width, height, time) / TWO_24 ==
            if -6 <= x - y <= 6 || -6 <= x + y - height <= 6 then 0 else 0xff
  {
    hide ZoneOf, FromCentre, OuterRadius, HalfSide;
  }

  /** The pattern moves: outside one column to the left in 16 ms, in the ring one row
      up in 32 ms, and inside towards the centre, by 32 in the squared distance in
      64 ms. */
  lemma PatternMoves(x: int, y: int, u: int, v: int, padding: int, width: int, height: int, time: uint32)
    requires time + 64 < TWO_32
    requires ZoneOf(x, y, padding, width, height) == ZoneOf(u, v, padding, width, height)
    ensures ZoneOf(x, y, padding, width, height) == Outside && u == x + 1 ==>
              Colour(x, y, padding, width, height, time + 16) == Colour(u, v, padding, width, height, time)
    ensures ZoneOf(x, y, padding, width, height) == Ring && v == y + 1 ==>
              Colour(x, y, padding, width, height, time + 32) == Colour(u, v, padding, width, height, time)
    ensures ZoneOf(x, y, padding, width, height) == Inside
            && FromCentre(u, v, padding, width, height) == FromCentre(x, y, padding, width, height) + 32 ==>
              Colour(x, y, padding, width, height, time + 64) == Colour(u, v, padding, width, height, time)
  {
    hide Colour, ZoneOf, FromCentre, Shade;
    Spread(x, y, padding, width, height, time + 16);
    Spread(x, y, padding, width, height, time + 32);
    Spread(x, y, padding, width, height, time + 64);
    Spread(u, v, padding, width, height, time);
  }

  lemma FromCentreNonNegative(x: int, y: int, padding: int, width: int, height: int)
    ensures FromCentre(x, y, padding, width, height) >= 0
  {
  }

  function Level(x: int, y: int, padding: int, width: int, height: int, time: uint32): int {
    match ZoneOf(x, y, padding, width, height)
    case Inside => FromCentre(x, y, padding, width, height) / 32 + time / 64
    case Ring => y + time / 32
    case Outside => x + time / 16
  }

  function Shade(level: int): int {
    ToUint32(ToUint32(level) * 0x0080401) % TWO_24
  }

  /** All three channels come from the lowest bits of one level. */
  lemma Spread(x: int, y: int, padding: int, width: int, height: int, time: uint32)
    ensures Colour(x, y, padding, width, height, time) == Shade(Level(x, y, padding, width, height, time))
  {
    FromCentreNonNegative(x, y, padding, width, height);
    hide OuterRadius, HalfSide;
  }

  predicate InsidePadding(x: int, y: int, padding: int, width: int, height: int) {
    padding <= x < width - padding && padding <= y < height - padding
  }

  /** Exactly the cells inside the padding hold their colour; the rest of the
      image is untouched. */
  ghost predicate IsPainted(t: seq<Pixel>, s: seq<Pixel>, padding: int, width: int, height: int, time: uint32)
    requires width > 0
  {
    && |t| == |s|
    && forall k :: 0 <= k < |s| ==>
         t[k] == if InsidePadding(Col(k, width), Row(k, width), padding, width, height)
                 then PixelValue(Col(k, width), Row(k, width), padding, width, height, time) else s[k]
  }

  /** The same, as far as the walk has come: up to column x of row y. */
  ghost predicate WalkedTo(t: seq<Pixel>, s: seq<Pixel>, x: int, y: int, padding: int, width: int, height: int,
      time: uint32)
    requires width > 0
  {
    && |t| == |s|
    && forall k :: 0 <= k < |s| ==>
         t[k] == if InsidePadding(Col(k, width), Row(k, width), padding, width, height)
                    && Before(Col(k, width), Row(k, width), x, y)
                 then PixelValue(Col(k, width), Row(k, width), padding, width, height, time) else s[k]
  }

  lemma WritePixel(t: seq<Pixel>, u: seq<Pixel>, s: seq<Pixel>, x: int, y: int, padding: nat, width: int,
      height: int, time: uint32)
    requires InsidePadding(x, y, padding, width, height)
    requires WalkedTo(t, s, x, y, padding, width, height, time)
    requires 0 <= Index(x, y, width) < |t|
    requires u == t[Index(x, y, width) := PixelValue(x, y, padding, width, height, time)]
    ensures WalkedTo(u, s, x + 1, y, padding, width, height, time)
  {
    hide Row, Col, Index, PixelValue;
    IndexOfCell(x, y, width);
    forall k | 0 <= k < |s|
      ensures u[k] == if InsidePadding(Col(k, width), Row(k, width), padding, width, height)
                         && Before(Col(k, width), Row(k, width), x + 1, y)
                      then PixelValue(Col(k, width), Row(k, width), padding, width, height, time) else s[k]
    {
      CellOfIndex(k, width);
    }
  }

  lemma NextRow(t: seq<Pixel>, s: seq<Pixel>, y: int, padding: nat, width: int, height: int, time: uint32)
    requires width > 0 && WalkedTo(t, s, Max(padding, width - padding), y, padding, width, height, time)
    ensures WalkedTo(t, s, padding, y + 1, padding, width, height, time)
  {
    hide Row, Col, PixelValue;
  }

  lemma IndexMoves(x: int, y: int, width: int)
    ensures Index(x + 1, y, width) == Index(x, y, width) + 1
    ensures Index(0, y + 1, width) == Index(0, y, width) + width
    ensures Index(x, y, width) == Index(0, y, width) + x
  {
    assert (y + 1) * width == y * width + width;
  }

  /** paint_pixels */
  method PaintPixels(image: array<Pixel>, padding: nat, width: int, height: int, time: uint32)
    requires width > 0 && height > 0 && image.Length == height * width
    modifies image
    ensures IsPainted(image[..], old(image[..]), padding, width, height, time)
  {
    hide ColourAt;
    ghost var s := image[..];
    var halfh := padding + TruncDiv(height - padding * 2, 2);
    var halfw := padding + TruncDiv(width - padding * 2, 2);
    var outer := (if halfw < halfh then halfw else halfh) - 8;
    var inner := outer - 32;
    outer := outer * outer;
    inner := inner * inner;

    var pixel := padding * width;
    var y: int := padding;
    Start(s, padding, width, height, time);
    while y < height - padding
      invariant y >= padding && (height >= padding * 2 ==> y <= height - padding)
      invariant width >= padding * 2 ==> pixel == Index(0, y, width)
      invariant WalkedTo(image[..], s, padding, y, padding, width, height, time)
    {
      var dy2 := (y - halfh) * (y - halfh);
      IndexMoves(padding, y, width);
      pixel := pixel + padding;
      var x: int := padding;
      while x < width - padding
        invariant x >= padding && (width >= padding * 2 ==> x <= width - padding)
        invariant width < padding * 2 ==> x == padding
        invariant width >= padding * 2 ==> pixel == Index(x, y, width)
        invariant WalkedTo(image[..], s, x, y, padding, width, height, time)
      {
        var r2 := (x - halfw) * (x - halfw) + dy2;
        var v := ColourAt(x, y, r2, inner, outer, height, time);
        assert v == PixelValue(x, y, padding, width, height, time);
        IndexInBuffer(x, y, width, height, image.Length);
        ghost var t := image[..];
        image[pixel] := v;
        WritePixel(t, image[..], s, x, y, padding, width, height, time);
        IndexMoves(x, y, width);
        pixel := pixel + 1;
        x := x + 1;
      }
      IndexMoves(x, y, width);
      pixel := pixel + padding;
      NextRow(image[..], s, y, padding, width, height, time);
      y := y + 1;
    }
    End(image[..], s, y, padding, width, height, time);
  }

  lemma Start(s: seq<Pixel>, padding: nat, width: int, height: int, time: uint32)
    requires width > 0
    ensures WalkedTo(s, s, padding, padding, padding, width, height, time)
  {
    hide Row, Col, PixelValue;
  }

  lemma End(t: seq<Pixel>, s: seq<Pixel>, y: int, padding: nat, width: int, height: int, time: uint32)
    requires width > 0 && y >= height - padding && WalkedTo(t, s, padding, y, padding, width, height, time)
    ensures IsPainted(t, s, padding, width, height, time)
  {
    hide Row, Col, PixelValue;
  }
}
