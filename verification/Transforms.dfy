/** The eight buffer transforms of the Wayland protocol: where a point of a surface
    lands in its buffer, and where the compositor puts it back. */
module Transforms {
  import opened Painting

  datatype Transform = Normal | Rot90 | Rot180 | Rot270 | Flipped | Flipped90 | Flipped180 | Flipped270

  datatype Point = Point(x: real, y: real)

  const ORIGIN := Point(0.0, 0.0)

  /** Where the clients draw point p of a surface of size w x h. */
  function Place(t: Transform, w: real, h: real, p: Point): Point {
    match t
    case Normal => Point(p.x, p.y)
    case Rot90 => Point(p.y, w - p.x)
    case Rot180 => Point(w - p.x, h - p.y)
    case Rot270 => Point(h - p.y, p.x)
    case Flipped => Point(w - p.x, p.y)
    case Flipped90 => Point(p.y, p.x)
    case Flipped180 => Point(p.x, h - p.y)
    case Flipped270 => Point(h - p.y, w - p.x)
  }

  /** Where the compositor shows point q of a buffer of size w x h. */
  function Unplace(t: Transform, w: real, h: real, q: Point): Point {
    match t
    case Normal => Point(q.x, q.y)
    case Rot90 => Point(h - q.y, q.x)
    case Rot180 => Point(w - q.x, h - q.y)
    case Rot270 => Point(q.y, w - q.x)
    case Flipped => Point(w - q.x, q.y)
    case Flipped90 => Point(q.y, q.x)
    case Flipped180 => Point(q.x, h - q.y)
    case Flipped270 => Point(h - q.y, w - q.x)
  }

  /** The transforms whose buffers are as wide as the surface is high. */
  predicate Swaps(t: Transform) {
    t.Rot90? || t.Rot270? || t.Flipped90? || t.Flipped270?
  }

  // ---------- What the transforms are ----------

  /** The surface corner at the buffer's origin, and the one at the far end of its
      first row: two corners fix a transform. */
  lemma Corners(w: real, h: real)
    ensures Place(Normal, w, h, Point(0.0, 0.0)) == ORIGIN && Place(Normal, w, h, Point(w, 0.0)) == Point(w, 0.0)
    ensures Place(Rot90, w, h, Point(w, 0.0)) == ORIGIN && Place(Rot90, w, h, Point(w, h)) == Point(h, 0.0)
    ensures Place(Rot180, w, h, Point(w, h)) == ORIGIN && Place(Rot180, w, h, Point(0.0, h)) == Point(w, 0.0)
    ensures Place(Rot270, w, h, Point(0.0, h)) == ORIGIN && Place(Rot270, w, h, Point(0.0, 0.0)) == Point(h, 0.0)
    ensures Place(Flipped, w, h, Point(w, 0.0)) == ORIGIN && Place(Flipped, w, h, Point(0.0, 0.0)) == Point(w, 0.0)
    ensures Place(Flipped90, w, h, Point(0.0, 0.0)) == ORIGIN && Place(Flipped90, w, h, Point(0.0, h)) == Point(h, 0.0)
    ensures Place(Flipped180, w, h, Point(0.0, h)) == ORIGIN && Place(Flipped180, w, h, Point(w, h)) == Point(w, 0.0)
    ensures Place(Flipped270, w, h, Point(w, h)) == ORIGIN && Place(Flipped270, w, h, Point(w, 0.0)) == Point(h, 0.0)
  {
  }

  /** A point on a sheet of some size. */
  datatype Pose = Pose(p: Point, w: real, h: real)

  /** The sheet turned by a quarter, counter-clockwise. */
  function QuarterTurn(a: Pose): Pose {
    Pose(Point(a.p.y, a.w - a.p.x), a.h, a.w)
  }

  /** The sheet mirrored left to right. */
  function Mirrored(a: Pose): Pose {
    Pose(Point(a.w - a.p.x, a.p.y), a.w, a.h)
  }

  function Turned(a: Pose, quarters: nat): Pose {
    if quarters == 0 then a else QuarterTurn(Turned(a, quarters - 1))
  }

  /** In the order in which the protocol numbers the transforms: the first four are
      0 to 3 quarter turns, the others the same after one mirroring. */
  const TRANSFORMS: seq<Transform> := [Normal, Rot90, Rot180, Rot270, Flipped, Flipped90, Flipped180, Flipped270]

  /** Each transform is that many quarter turns of the sheet, mirrored or not; this
      gives the point and the size of the buffer. */
  lemma {:induction false} PlaceIsTurns(k: nat, w: real, h: real, p: Point)
    requires k < 8
    ensures var t := TRANSFORMS[k];
            var a := Turned(if k < 4 then Pose(p, w, h) else Mirrored(Pose(p, w, h)), k % 4);
            a == Pose(Place(t, w, h, p), if Swaps(t) then h else w, if Swaps(t) then w else h)
  {
    var b := if k < 4 then Pose(p, w, h) else Mirrored(Pose(p, w, h));
    assert Turned(b, 1) == QuarterTurn(b);
    assert Turned(b, 2) == QuarterTurn(QuarterTurn(b));
    assert Turned(b, 3) == QuarterTurn(QuarterTurn(QuarterTurn(b)));
  }

  // ---------- Round trips ----------

  function BufferWide(t: Transform, w: real, h: real): real {
    if Swaps(t) then h else w
  }

  function BufferHigh(t: Transform, w: real, h: real): real {
    if Swaps(t) then w else h
  }

  predicate InRect(p: Point, w: real, h: real) {
    0.0 <= p.x <= w && 0.0 <= p.y <= h
  }

  /** The compositor's map undoes the client's, and the surface rectangle and the
      buffer rectangle are each other's image. */
  lemma PlaceUnplace(t: Transform, w: real, h: real, p: Point)
    ensures Unplace(t, BufferWide(t, w, h), BufferHigh(t, w, h), Place(t, w, h, p)) == p
    ensures Place(t, w, h, Unplace(t, BufferWide(t, w, h), BufferHigh(t, w, h), p)) == p
    ensures InRect(p, w, h) <==> InRect(Place(t, w, h, p), BufferWide(t, w, h), BufferHigh(t, w, h))
  {
  }

  function Distance2(p: Point, q: Point): real {
    Square(p.x - q.x) + Square(p.y - q.y)
  }

  /** Transforms keep distances. */
  lemma PlaceKeepsDistance(t: Transform, w: real, h: real, p: Point, q: Point)
    ensures Distance2(Place(t, w, h, p), Place(t, w, h, q)) == Distance2(p, q)
  {
    SquareEven(p.x - q.x);
    SquareEven(p.y - q.y);
  }

  lemma SquareEven(d: real)
    ensures Square(-d) == Square(d)
  {
  }
}
