/** clients/simple-damage.c: a ball bounces in a window; every frame repaints one
    of two buffers and reports damage around the old and the new ball only.
    No viewport, fixed transform; floats are reals. */
module SimpleDamage {
  import opened CInt
  import opened Bounce
  import opened Painting
  import opened Transforms

  const WHITE: Pixel := 0xffffffff
  const TRANSLUCENT: Pixel := 0x80000000
  const GREEN: Pixel := 0xff00ff00

  /** A surface length in buffer pixels, and a surface coordinate in the buffer. */
  function Px(n: int, scale: nat): int {
    n * scale
  }

  function Zoom(v: real, scale: nat): real {
    v * scale as real
  }

  /** Everything that does not change while the window runs. */
  datatype Geometry = Geometry(width: int, height: int, border: nat, radius: nat, scale: nat, transform: Transform) {
    predicate Valid() {
      && 1 <= scale && 1 <= radius
      && width > 2 * (border + radius) && height > 2 * (border + radius)
    }

    predicate Swapped() {
      Swaps(transform)
    }

    function BufferWidth(): int {
      Px(if Swapped() then height else width, scale)
    }

    function BufferHeight(): int {
      Px(if Swapped() then width else height, scale)
    }

    /** bborder and bradius */
    function BufferBorder(): int {
      Px(border, scale)
    }

    function BufferRadius(): int {
      Px(radius, scale)
    }
  }

  datatype Ball = Ball(x: real, y: real, dx: real, dy: real, prevTime: uint32)

  /** window_get_transformed_ball, and where any surface point lands in the
      buffer. */
  function ToBuffer(g: Geometry, p: Point): Point {
    var q := Place(g.transform, g.width as real, g.height as real, p);
    Point(Zoom(q.x, g.scale), Zoom(q.y, g.scale))
  }

  /** The ball's centre in the arena of its window. */
  predicate InArena(g: Geometry, x: real, y: real) {
    && (g.border + g.radius) as real <= x <= (g.width - g.border - g.radius) as real
    && (g.border + g.radius) as real <= y <= (g.height - g.border - g.radius) as real
  }

  // ---------- Frames ----------

  function Background(g: Geometry, i: int, j: int): Pixel {
    var b := g.BufferBorder();
    if b <= i < g.BufferWidth() - b && b <= j < g.BufferHeight() - b then TRANSLUCENT else WHITE
  }

  /** The pixel in column i, row j of a frame with the ball at (x, y). */
  function FramePixel(g: Geometry, x: real, y: real, i: int, j: int): Pixel {
    var c := ToBuffer(g, Point(x, y));
    if InDisc(i, j, c.x, c.y, g.BufferRadius()) then GREEN else Background(g, i, j)
  }

  /** The buffer shows the frame, whatever it held before. */
  ghost predicate ShowsFrame(pixels: seq<Pixel>, g: Geometry, x: real, y: real)
    requires g.BufferWidth() > 0
  {
    && |pixels| == g.BufferHeight() * g.BufferWidth()
    && forall k :: 0 <= k < |pixels| ==>
         pixels[k] == FramePixel(g, x, y, Col(k, g.BufferWidth()), Row(k, g.BufferWidth()))
  }

  // ---------- Damage ----------

  datatype Damage =
    | BufferDamage(x: int, y: int, width: int, height: int)
    | SurfaceDamage(x: int, y: int, width: int, height: int)

  /** The request for a ball at (x, y). */
  function BallDamage(g: Geometry, x: real, y: real, useDamageBuffer: bool): Damage {
    if useDamageBuffer then
      var c, r := ToBuffer(g, Point(x, y)), g.BufferRadius();
      BufferDamage(Truncated(c.x - r as real), Truncated(c.y - r as real), r * 2 + 1, r * 2 + 1)
    else
      SurfaceDamage(Truncated(x - g.radius as real), Truncated(y - g.radius as real),
                    g.radius * 2 + 1, g.radius * 2 + 1)
  }

  /** Buffer pixel (i, j) lies in the damage; a surface rectangle stands for the
      buffer pixels between the images of its corners. */
  predicate Covers(g: Geometry, d: Damage, i: int, j: int) {
    match d
    case BufferDamage(x, y, w, h) => InBox(i, j, x, y, w, h)
    case SurfaceDamage(x, y, w, h) =>
      var p := ToBuffer(g, Point(x as real, y as real));
      var q := ToBuffer(g, Point((x + w) as real, (y + h) as real));
      Between(i, p.x, q.x) && Between(j, p.y, q.y)
  }

  /** The unit interval of pixel i lies between the two coordinates. */
  predicate Between(i: int, p: real, q: real) {
    (p <= i as real && (i + 1) as real <= q) || (q <= i as real && (i + 1) as real <= p)
  }

  // ---------- Scaling ----------

  lemma PxLaws(a: int, b: int, s: nat)
    ensures Px(a + b, s) == Px(a, s) + Px(b, s) && Px(a - b, s) == Px(a, s) - Px(b, s)
    ensures a >= 0 ==> Px(a, s) >= 0
    ensures a >= 1 && s >= 1 ==> Px(a, s) >= 1
    ensures a <= b ==> Px(a, s) <= Px(b, s)
  {
    if a <= b { assert (b - a) * s >= 0; }
  }

  lemma ZoomInt(n: int, s: nat)
    ensures Zoom(n as real, s) == Px(n, s) as real
  {
  }

  lemma ZoomLaws(u: real, v: real, s: nat)
    ensures Zoom(u + v, s) == Zoom(u, s) + Zoom(v, s) && Zoom(u - v, s) == Zoom(u, s) - Zoom(v, s)
    ensures u <= v ==> Zoom(u, s) <= Zoom(v, s)
    ensures u < v && s >= 1 ==> Zoom(u, s) < Zoom(v, s)
  {
    var t := s as real;
    assert (u + v) * t == u * t + v * t && (u - v) * t == u * t - v * t && (v - u) * t == v * t - u * t;
    if u < v && s >= 1 { ProductPositive(v - u, t); }
  }

  /** A coordinate m away from both ends stays so after scaling, straight or
      mirrored. */
  lemma Scaled(s: nat, m: int, v: real, length: int)
    requires m as real <= v <= (length - m) as real
    ensures Px(m, s) as real <= Zoom(v, s) <= (Px(length, s) - Px(m, s)) as real
    ensures Px(m, s) as real <= Zoom(length as real - v, s) <= (Px(length, s) - Px(m, s)) as real
  {
    hide Px, Zoom;
    ZoomInt(m, s);
    ZoomInt(length, s);
    ZoomLaws(m as real, v, s);
    ZoomLaws(length as real, m as real, s);
    ZoomLaws(v, length as real - m as real, s);
    ZoomLaws(length as real, v, s);
  }

  /** The whole disc, and the border beside it, lie inside the buffer. */
  lemma BallInBuffer(g: Geometry, x: real, y: real)
    requires g.Valid() && InArena(g, x, y)
    ensures var c, m := ToBuffer(g, Point(x, y)), g.BufferBorder() + g.BufferRadius();
            && m as real <= c.x <= (g.BufferWidth() - m) as real
            && m as real <= c.y <= (g.BufferHeight() - m) as real
    ensures 0 <= g.BufferBorder() && 0 <= g.BufferRadius()
  {
    hide Px, Zoom;
    PxLaws(g.border, g.radius, g.scale);
    PxLaws(g.radius, g.border, g.scale);
    Scaled(g.scale, g.border + g.radius, x, g.width);
    Scaled(g.scale, g.border + g.radius, y, g.height);
  }

  // ---------- The damage covers the disc ----------

  /** One axis, buffer coordinates: floor(u - r) and 2 r + 1 pixels suffice. */
  lemma BufferAxis(u: real, r: nat, i: int)
    requires u >= r as real && -(r as real) <= i as real + 0.5 - u <= r as real
    ensures Truncated(u - r as real) <= i < Truncated(u - r as real) + (r * 2 + 1)
  {
  }

  /** Pixel i is within the scaled radius of the scaled coordinate v. */
  predicate Near(i: int, u: real, r: nat, s: nat) {
    -(Px(r, s) as real) <= i as real + 0.5 - u <= Px(r, s) as real
  }

  /** One axis, surface coordinates: the pixels near v lie in the scaled interval
      [f, f + 2 r + 1), f the floor of v - r. */
  lemma SurfaceAxis(s: nat, v: real, r: nat, i: int)
    requires s >= 1 && v >= r as real && Near(i, Zoom(v, s), r, s)
    ensures var f := Truncated(v - r as real); Px(f, s) <= i < Px(f + (r * 2 + 1), s)
  {
    hide Px, Zoom;
    var f := Truncated(v - r as real);
    var low, high := v - r as real, v + r as real;
    ZoomInt(f, s);
    ZoomInt(f + (r * 2 + 1), s);
    ZoomInt(r, s);
    ZoomLaws(v, r as real, s);
    ZoomLaws(f as real, low, s);
    ZoomLaws(high, (f + (r * 2 + 1)) as real, s);
  }

  /** The same for an axis of the given length, run backwards. */
  lemma MirroredAxis(s: nat, length: int, v: real, r: nat, i: int)
    requires s >= 1 && v >= r as real && Near(i, Zoom(length as real - v, s), r, s)
    ensures var f := Truncated(v - r as real);
            Px(length, s) - Px(f + (r * 2 + 1), s) <= i < Px(length, s) - Px(f, s)
  {
    hide Px, Zoom;
    ZoomInt(length, s);
    ZoomLaws(length as real, v, s);
    SurfaceAxis(s, v, r, Px(length, s) - 1 - i);
  }

  lemma CornerScaled(length: int, m: int, s: nat)
    ensures Zoom(m as real, s) == Px(m, s) as real
    ensures Zoom(length as real - m as real, s) == (Px(length, s) - Px(m, s)) as real
  {
    hide Px, Zoom;
    ZoomInt(m, s);
    ZoomInt(length, s);
    ZoomLaws(length as real, m as real, s);
  }

  /** Surface damage of one coordinate covers the disc, straight or mirrored. */
  lemma StraightCovered(s: nat, v: real, r: nat, i: int)
    requires s >= 1 && v >= r as real && Near(i, Zoom(v, s), r, s)
    ensures var f := Truncated(v - r as real);
            Between(i, Zoom(f as real, s), Zoom((f + (r * 2 + 1)) as real, s))
  {
    hide Px, Zoom;
    var f := Truncated(v - r as real);
    SurfaceAxis(s, v, r, i);
    CornerScaled(0, f, s);
    CornerScaled(0, f + (r * 2 + 1), s);
  }

  lemma MirroredCovered(s: nat, length: int, v: real, r: nat, i: int)
    requires s >= 1 && v >= r as real && Near(i, Zoom(length as real - v, s), r, s)
    ensures var f := Truncated(v - r as real);
            Between(i, Zoom(length as real - f as real, s), Zoom(length as real - (f + (r * 2 + 1)) as real, s))
  {
    hide Px, Zoom;
    var f := Truncated(v - r as real);
    MirroredAxis(s, length, v, r, i);
    CornerScaled(length, f, s);
    CornerScaled(length, f + (r * 2 + 1), s);
  }

  /** All transforms at once, in surface coordinates. */
  lemma SurfaceCovered(g: Geometry, x: real, y: real, i: int, j: int)
    requires g.Valid() && x >= g.radius as real && y >= g.radius as real
    requires Near(i, ToBuffer(g, Point(x, y)).x, g.radius, g.scale)
    requires Near(j, ToBuffer(g, Point(x, y)).y, g.radius, g.scale)
    ensures Covers(g, BallDamage(g, x, y, false), i, j)
  {
    hide Px, Zoom, Near, Between, Truncated;
    var s, r, w, h := g.scale, g.radius, g.width, g.height;
    match g.transform
    case Normal => StraightCovered(s, x, r, i); StraightCovered(s, y, r, j);
    case Rot90 => StraightCovered(s, y, r, i); MirroredCovered(s, w, x, r, j);
    case Rot180 => MirroredCovered(s, w, x, r, i); MirroredCovered(s, h, y, r, j);
    case Rot270 => MirroredCovered(s, h, y, r, i); StraightCovered(s, x, r, j);
    case Flipped => MirroredCovered(s, w, x, r, i); StraightCovered(s, y, r, j);
    case Flipped90 => StraightCovered(s, y, r, i); StraightCovered(s, x, r, j);
    case Flipped180 => StraightCovered(s, x, r, i); MirroredCovered(s, h, y, r, j);
    case Flipped270 => MirroredCovered(s, h, y, r, i); MirroredCovered(s, w, x, r, j);
  }

  /** Every pixel of the disc lies in the damage of its ball: all transforms, all
      scales, both kinds of damage. */
  lemma DiscCovered(g: Geometry, x: real, y: real, useDamageBuffer: bool, i: int, j: int)
    requires g.Valid() && InArena(g, x, y)
    requires InDisc(i, j, ToBuffer(g, Point(x, y)).x, ToBuffer(g, Point(x, y)).y, g.BufferRadius())
    ensures Covers(g, BallDamage(g, x, y, useDamageBuffer), i, j)
  {
    hide Px, Zoom, InDisc, Truncated, ToBuffer, Between;
    var c, r := ToBuffer(g, Point(x, y)), g.BufferRadius();
    BallInBuffer(g, x, y);
    DiscExtent(i, j, c.x, c.y, r);
    if useDamageBuffer {
      BufferAxis(c.x, r, i);
      BufferAxis(c.y, r, j);
    } else {
      SurfaceCovered(g, x, y, i, j);
    }
  }

  /** Main result: a pixel that differs between two frames lies in the damage of
      one of the two balls. */
  lemma DifferenceIsDamaged(g: Geometry, x: real, y: real, x': real, y': real, useDamageBuffer: bool, i: int, j: int)
    requires g.Valid() && InArena(g, x, y) && InArena(g, x', y')
    requires FramePixel(g, x, y, i, j) != FramePixel(g, x', y', i, j)
    ensures Covers(g, BallDamage(g, x, y, useDamageBuffer), i, j)
         || Covers(g, BallDamage(g, x', y', useDamageBuffer), i, j)
  {
    hide InDisc, Covers, BallDamage, InArena;
    var c, c' := ToBuffer(g, Point(x, y)), ToBuffer(g, Point(x', y'));
    if InDisc(i, j, c.x, c.y, g.BufferRadius()) {
      DiscCovered(g, x, y, useDamageBuffer, i, j);
    } else {
      assert InDisc(i, j, c'.x, c'.y, g.BufferRadius());
      DiscCovered(g, x', y', useDamageBuffer, i, j);
    }
  }

  /** The same for two whole buffers, as redraw leaves them one after the other. */
  lemma ConsecutiveFramesDamaged(g: Geometry, before: seq<Pixel>, after: seq<Pixel>, b: Ball, timestamp: uint32,
      useDamageBuffer: bool)
    requires g.Valid() && InArena(g, b.x, b.y) && g.BufferWidth() > 0
    requires ShowsFrame(before, g, b.x, b.y)
    requires var n := Advanced(g, b, timestamp); ShowsFrame(after, g, n.x, n.y)
    ensures var n, pitch := Advanced(g, b, timestamp), g.BufferWidth();
            forall k :: 0 <= k < |before| && before[k] != after[k] ==>
              || Covers(g, BallDamage(g, b.x, b.y, useDamageBuffer), Col(k, pitch), Row(k, pitch))
              || Covers(g, BallDamage(g, n.x, n.y, useDamageBuffer), Col(k, pitch), Row(k, pitch))
  {
    hide FramePixel, BallDamage, Covers, Px, Row, Col, InArena;
    var n, pitch := Advanced(g, b, timestamp), g.BufferWidth();
    forall k | 0 <= k < |before| && before[k] != after[k]
      ensures Covers(g, BallDamage(g, b.x, b.y, useDamageBuffer), Col(k, pitch), Row(k, pitch))
           || Covers(g, BallDamage(g, n.x, n.y, useDamageBuffer), Col(k, pitch), Row(k, pitch))
    {
      DifferenceIsDamaged(g, b.x, b.y, n.x, n.y, useDamageBuffer, Col(k, pitch), Row(k, pitch));
    }
  }

  /** The damage is no larger than it has to be: what it covers lies less than one
      surface pixel outside the ball on each axis. */
  lemma DamageTight(g: Geometry, x: real, y: real, useDamageBuffer: bool, i: int, j: int)
    requires g.Valid() && InArena(g, x, y) && Covers(g, BallDamage(g, x, y, useDamageBuffer), i, j)
    ensures Near(i, ToBuffer(g, Point(x, y)).x, g.radius + 1, g.scale)
    ensures Near(j, ToBuffer(g, Point(x, y)).y, g.radius + 1, g.scale)
  {
    hide Px, Zoom, Near, Between, Truncated, InArena;
    var s, r, w, h := g.scale, g.radius, g.width, g.height;
    var c := ToBuffer(g, Point(x, y));
    BallInBuffer(g, x, y);
    InsideArena(g, x, y);
    if useDamageBuffer {
      TightBuffer(c.x, r, s, i);
      TightBuffer(c.y, r, s, j);
    } else {
      match g.transform
      case Normal => StraightTight(s, x, r, i); StraightTight(s, y, r, j);
      case Rot90 => StraightTight(s, y, r, i); MirroredTight(s, w, x, r, j);
      case Rot180 => MirroredTight(s, w, x, r, i); MirroredTight(s, h, y, r, j);
      case Rot270 => MirroredTight(s, h, y, r, i); StraightTight(s, x, r, j);
      case Flipped => MirroredTight(s, w, x, r, i); StraightTight(s, y, r, j);
      case Flipped90 => StraightTight(s, y, r, i); StraightTight(s, x, r, j);
      case Flipped180 => StraightTight(s, x, r, i); MirroredTight(s, h, y, r, j);
      case Flipped270 => MirroredTight(s, h, y, r, i); MirroredTight(s, w, x, r, j);
    }
  }

  lemma InsideArena(g: Geometry, x: real, y: real)
    requires g.Valid() && InArena(g, x, y)
    ensures x >= g.radius as real && y >= g.radius as real
  {
  }

  lemma TightBuffer(u: real, r: nat, s: nat, i: int)
    requires s >= 1 && u >= Px(r, s) as real
    requires Px(r, s) >= 0
    requires var first := Truncated(u - Px(r, s) as real); first <= i < first + (Px(r, s) * 2 + 1)
    ensures Near(i, u, r + 1, s)
  {
    PxLaws(r, 1, s);
    assert Px(1, s) == s;
  }

  lemma StraightTight(s: nat, v: real, r: nat, i: int)
    requires s >= 1 && v >= r as real
    requires var f := Truncated(v - r as real); Between(i, Zoom(f as real, s), Zoom((f + (r * 2 + 1)) as real, s))
    ensures Near(i, Zoom(v, s), r + 1, s)
  {
    hide Px, Zoom;
    var f := Truncated(v - r as real);
    ZoomInt(r + 1, s);
    ZoomLaws(v, (r + 1) as real, s);
    ZoomLaws(v - (r + 1) as real, f as real, s);
    ZoomLaws((f + (r * 2 + 1)) as real, v + (r + 1) as real, s);
    ZoomLaws(f as real, (f + (r * 2 + 1)) as real, s);
  }

  lemma MirroredTight(s: nat, length: int, v: real, r: nat, i: int)
    requires s >= 1 && v >= r as real
    requires var f := Truncated(v - r as real);
             Between(i, Zoom(length as real - f as real, s), Zoom(length as real - (f + (r * 2 + 1)) as real, s))
    ensures Near(i, Zoom(length as real - v, s), r + 1, s)
  {
    hide Px, Zoom;
    var f := Truncated(v - r as real);
    var l := length as real;
    ZoomInt(r + 1, s);
    ZoomLaws(l - v, (r + 1) as real, s);
    ZoomLaws(l - v - (r + 1) as real, l - (f + (r * 2 + 1)) as real, s);
    ZoomLaws(l - f as real, l - v + (r + 1) as real, s);
    ZoomLaws(l - (f + (r * 2 + 1)) as real, l - f as real, s);
  }

  // ---------- What the compositor shows ----------

  /** Where the compositor shows the centre of buffer pixel (i, j): the buffer at its
      scale, turned back. */
  function OnSurface(g: Geometry, i: int, j: int): Point
    requires g.scale >= 1
  {
    var s := g.scale as real;
    Unplace(g.transform, g.BufferWidth() as real / s, g.BufferHeight() as real / s,
            Point((i as real + 0.5) / s, (j as real + 0.5) / s))
  }

  /** The picture the client means to show, in surface coordinates alone. */
  function Seen(g: Geometry, ball: Point, p: Point): Pixel {
    if Distance2(p, ball) <= (g.radius * g.radius) as real then 0xff00ff00
    else if g.border as real < p.x < (g.width - g.border) as real
         && g.border as real < p.y < (g.height - g.border) as real then 0x80000000
    else 0xffffffff
  }

  lemma Unzoom(v: real, s: nat)
    requires s >= 1
    ensures Zoom(v / s as real, s) == v && Zoom(v, s) / s as real == v
  {
    QuotientTimes(v, s as real);
    var t := s as real;
    assert (v * t) / t == v by { QuotientOfProduct(v, t); }
  }

  lemma QuotientOfProduct(v: real, t: real)
    requires t > 0.0
    ensures (v * t) / t == v
  {
    QuotientTimes(v * t, t);
    var q := (v * t) / t;
    assert t * (q - v) == 0.0;
    if q > v { ProductPositive(t, q - v); } else if q < v { ProductPositive(t, v - q); }
  }

  /** The client draws at pixel (i, j) what it means for that point. */
  lemma OnSurfacePlaced(g: Geometry, i: int, j: int)
    requires g.scale >= 1
    ensures ToBuffer(g, OnSurface(g, i, j)) == Point(i as real + 0.5, j as real + 0.5)
  {
    hide Place, Unplace, Zoom, Px;
    var s, w, h := g.scale as real, g.width as real, g.height as real;
    Unzoom(i as real + 0.5, g.scale);
    Unzoom(j as real + 0.5, g.scale);
    ZoomInt(g.width, g.scale);
    ZoomInt(g.height, g.scale);
    Unzoom(w, g.scale);
    Unzoom(h, g.scale);
    PlaceUnplace(g.transform, w, h, Point((i as real + 0.5) / s, (j as real + 0.5) / s));
  }

  lemma ScaledDistance(a: Point, b: Point, s: nat)
    ensures Distance2(Point(Zoom(a.x, s), Zoom(a.y, s)), Point(Zoom(b.x, s), Zoom(b.y, s))) ==
            Distance2(a, b) * Painting.Square(s as real)
  {
    ScaledSquare(a.x, b.x, s);
    ScaledSquare(a.y, b.y, s);
  }

  lemma ScaledSquare(u: real, v: real, s: nat)
    ensures Painting.Square(Zoom(u, s) - Zoom(v, s)) == Painting.Square(u - v) * Painting.Square(s as real)
  {
    var d, t := u - v, s as real;
    assert Zoom(u, s) - Zoom(v, s) == d * t;
  }

  /** The disc in the buffer is the disc on the surface. */
  lemma DiscSeen(g: Geometry, ball: Point, i: int, j: int)
    requires g.scale >= 1
    ensures var c := ToBuffer(g, ball);
            InDisc(i, j, c.x, c.y, g.BufferRadius()) <==>
            Distance2(OnSurface(g, i, j), ball) <= (g.radius * g.radius) as real
  {
    var w, h, p := g.width as real, g.height as real, OnSurface(g, i, j);
    OnSurfacePlaced(g, i, j);
    PlaceKeepsDistance(g.transform, w, h, p, ball);
    ScaledDistance(Place(g.transform, w, h, p), Place(g.transform, w, h, ball), g.scale);
    hide Place, Unplace, OnSurface, Zoom, Distance2;
    var d, t := Distance2(p, ball), Painting.Square(g.scale as real);
    RadiusSquared(g.radius, g.scale);
    assert InDisc(i, j, ToBuffer(g, ball).x, ToBuffer(g, ball).y, g.BufferRadius()) <==>
           Distance2(ToBuffer(g, p), ToBuffer(g, ball)) <= (g.BufferRadius() * g.BufferRadius()) as real by {
      DistanceIsDisc(i, j, ToBuffer(g, ball), g.BufferRadius());
    }
    ScaleOrder(t, d, (g.radius * g.radius) as real);
  }

  lemma DistanceIsDisc(i: int, j: int, c: Point, radius: int)
    ensures InDisc(i, j, c.x, c.y, radius) <==>
            Distance2(Point(i as real + 0.5, j as real + 0.5), c) <= (radius * radius) as real
  {
  }

  lemma RadiusSquared(r: nat, s: nat)
    ensures (Px(r, s) * Px(r, s)) as real == Painting.Square(s as real) * (r * r) as real
    ensures s >= 1 ==> Painting.Square(s as real) > 0.0
  {
    assert Px(r, s) * Px(r, s) == (s * s) * (r * r);
    if s >= 1 { ProductPositive(s as real, s as real); }
  }

  /** One axis: the pixel is inside the borders iff its point is. */
  lemma AxisInside(s: nat, b: nat, length: int, v: real, i: int)
    requires s >= 1 && Zoom(v, s) == i as real + 0.5
    ensures Px(b, s) <= i < Px(length, s) - Px(b, s) <==> b as real < v < (length - b) as real
  {
    hide Px, Zoom;
    ZoomInt(b, s);
    ZoomInt(length - b, s);
    PxLaws(length, b, s);
    ZoomLaws(b as real, v, s);
    ZoomLaws(v, b as real, s);
    ZoomLaws(v, (length - b) as real, s);
    ZoomLaws((length - b) as real, v, s);
  }

  lemma AxisInsideMirrored(s: nat, b: nat, length: int, v: real, i: int)
    requires s >= 1 && Zoom(length as real - v, s) == i as real + 0.5
    ensures Px(b, s) <= i < Px(length, s) - Px(b, s) <==> b as real < v < (length - b) as real
  {
    hide Px, Zoom;
    AxisInside(s, b, length, length as real - v, i);
  }

  /** The translucent part of the buffer is the part of the surface inside the
      border. */
  lemma InteriorSeen(g: Geometry, i: int, j: int)
    requires g.Valid()
    ensures var p := OnSurface(g, i, j);
            Background(g, i, j) == (if g.border as real < p.x < (g.width - g.border) as real
                                       && g.border as real < p.y < (g.height - g.border) as real
                                    then 0x80000000 else 0xffffffff)
  {
    hide Px, Zoom, OnSurface;
    var s, b, w, h, p := g.scale, g.border, g.width, g.height, OnSurface(g, i, j);
    OnSurfacePlaced(g, i, j);
    match g.transform
    case Normal => AxisInside(s, b, w, p.x, i); AxisInside(s, b, h, p.y, j);
    case Rot90 => AxisInside(s, b, h, p.y, i); AxisInsideMirrored(s, b, w, p.x, j);
    case Rot180 => AxisInsideMirrored(s, b, w, p.x, i); AxisInsideMirrored(s, b, h, p.y, j);
    case Rot270 => AxisInsideMirrored(s, b, h, p.y, i); AxisInside(s, b, w, p.x, j);
    case Flipped => AxisInsideMirrored(s, b, w, p.x, i); AxisInside(s, b, h, p.y, j);
    case Flipped90 => AxisInside(s, b, h, p.y, i); AxisInside(s, b, w, p.x, j);
    case Flipped180 => AxisInside(s, b, w, p.x, i); AxisInsideMirrored(s, b, h, p.y, j);
    case Flipped270 => AxisInsideMirrored(s, b, h, p.y, i); AxisInsideMirrored(s, b, w, p.x, j);
  }

  /** Main result: under every transform and scale the compositor shows the same
      picture: a green disc of the ball's radius at the ball's place, on the
      translucent inside of a white border. */
  lemma FrameSeen(g: Geometry, x: real, y: real, i: int, j: int)
    requires g.Valid()
    ensures FramePixel(g, x, y, i, j) == Seen(g, Point(x, y), OnSurface(g, i, j))
  {
    hide ToBuffer, OnSurface, InDisc, Background, Distance2;
    DiscSeen(g, Point(x, y), i, j);
    InteriorSeen(g, i, j);
  }

  /** Every pixel centre of the buffer is shown at a point of the surface, and
      different pixels at different points. */
  lemma PixelsOnSurface(g: Geometry, i: int, j: int)
    requires g.Valid()
    ensures 0 <= i < g.BufferWidth() && 0 <= j < g.BufferHeight() <==>
            InRect(OnSurface(g, i, j), g.width as real, g.height as real)
  {
    var w, h, p := g.width as real, g.height as real, OnSurface(g, i, j);
    OnSurfacePlaced(g, i, j);
    PlaceUnplace(g.transform, w, h, p);
    var q := Place(g.transform, w, h, p);
    hide Place, Unplace, OnSurface, Px, Zoom;
    AxisRange(g.scale, if Swaps(g.transform) then g.height else g.width, q.x, i);
    AxisRange(g.scale, if Swaps(g.transform) then g.width else g.height, q.y, j);
  }

  lemma AxisRange(s: nat, length: int, v: real, i: int)
    requires s >= 1 && Zoom(v, s) == i as real + 0.5
    ensures 0 <= i < Px(length, s) <==> 0.0 <= v <= length as real
  {
    hide Px, Zoom;
    ZoomInt(0, s);
    ZoomInt(length, s);
    PxLaws(0, 0, s);
    ZoomLaws(0.0, v, s);
    ZoomLaws(v, 0.0, s);
    ZoomLaws(v, length as real, s);
    ZoomLaws(length as real, v, s);
  }

  // ---------- The window ----------

  /** One coordinate after dt seconds: margin m at both ends of the length. */
  function Travelled(v: real, dv: real, dt: real, m: int, length: int): (r: real)
    requires length > 2 * m
    ensures m as real <= r <= (length - m) as real
  {
    var raw, a, w := v + dv * dt, m as real, (length - 2 * m) as real;
    FoldMeaning(raw, a, w);
    Fold(raw, a, w)
  }

  function Velocity(v: real, dv: real, dt: real, m: int, length: int): real
    requires length > 2 * m
  {
    Sign(Reversals(v + dv * dt, m as real, (length - 2 * m) as real)) * dv
  }

  /** One step of window_advance_game: the ball never leaves the arena. */
  function Advanced(g: Geometry, b: Ball, timestamp: uint32): (r: Ball)
    requires g.Valid()
    ensures InArena(g, b.x, b.y) ==> InArena(g, r.x, r.y)
  {
    if b.prevTime == 0 then b.(prevTime := timestamp)
    else
      var dt, m := ToUint32(timestamp - b.prevTime) as real / 1000.0, g.border + g.radius;
      Ball(Travelled(b.x, b.dx, dt, m, g.width), Travelled(b.y, b.dy, dt, m, g.height),
           Velocity(b.x, b.dx, dt, m, g.width), Velocity(b.y, b.dy, dt, m, g.height), timestamp)
  }

  /** The first frame only takes the time. */
  lemma FirstFrameWaits(g: Geometry, b: Ball, timestamp: uint32)
    requires g.Valid() && b.prevTime == 0
    ensures Advanced(g, b, timestamp) == Ball(b.x, b.y, b.dx, b.dy, timestamp)
  {
  }

  /** n milliseconds later, over a wrap of the clock or not: each coordinate moves by
      its own speed times the seconds; folded back into its own arena, which leaves
      it alone when it did not get out. */
  lemma AdvancedMeaning(g: Geometry, b: Ball, n: nat)
    requires g.Valid() && b.prevTime != 0 && n < TWO_32
    ensures var r := Advanced(g, b, ToUint32(b.prevTime + n));
            var rawX, rawY := b.x + b.dx * n as real / 1000.0, b.y + b.dy * n as real / 1000.0;
            var m := (g.border + g.radius) as real;
            && r.prevTime == ToUint32(b.prevTime + n)
            && r.x == Fold(rawX, m, g.width as real - 2.0 * m)
            && r.y == Fold(rawY, m, g.height as real - 2.0 * m)
            && (m <= rawX <= g.width as real - m ==> r.x == rawX && r.dx == b.dx)
            && (m <= rawY <= g.height as real - m ==> r.y == rawY && r.dy == b.dy)
  {
    hide Fold, Travelled, Velocity, ToUint32;
    var rawX, rawY := b.x + b.dx * n as real / 1000.0, b.y + b.dy * n as real / 1000.0;
    var m := g.border + g.radius;
    ElapsedSurvivesWrap(b.prevTime, n);
    AxisAdvanced(b.x, b.dx, n, m, g.width, rawX, g.width as real - 2.0 * m as real);
    AxisAdvanced(b.y, b.dy, n, m, g.height, rawY, g.height as real - 2.0 * m as real);
  }

  lemma ElapsedSurvivesWrap(before: uint32, n: nat)
    requires n < TWO_32
    ensures ToUint32(ToUint32(before + n) - before) == n
  {
  }

  lemma AxisAdvanced(v: real, dv: real, n: nat, m: nat, length: int, raw: real, w: real)
    requires length > 2 * m
    requires raw == v + dv * n as real / 1000.0 && w == length as real - 2.0 * m as real
    ensures var dt := n as real / 1000.0;
            && Travelled(v, dv, dt, m, length) == Fold(raw, m as real, w)
            && (m as real <= raw <= length as real - m as real ==>
                  Travelled(v, dv, dt, m, length) == raw && Velocity(v, dv, dt, m, length) == dv)
  {
    hide Fold, Reversals;
    var dt := n as real / 1000.0;
    assert raw == v + dv * dt;
    Undisturbed(raw, m as real, w);
    assert Sign(0) * dv == dv by { SignNext(0); }
  }

  lemma Undisturbed(x: real, a: real, w: real)
    requires w > 0.0
    ensures a <= x <= a + w ==> Fold(x, a, w) == x && Reversals(x, a, w) == 0 && Sign(0) == 1.0
  {
    if a <= x <= a + w {
      FoldInside(x, a, w);
      InsideIsDone(x, a, w);
    }
  }

  /** One while loop of window_advance_game. */
  method Travel(v: real, dv: real, dt: real, m: int, length: int) returns (r: real, dr: real)
    requires length > 2 * m
    ensures r == Travelled(v, dv, dt, m, length) && dr == Velocity(v, dv, dt, m, length)
  {
    hide Fold, Reversals, Sign;
    r, dr := Reflect(v + dv * dt, dv, m, length - m);
  }

  class Buffer {
    const pixels: array<Pixel>
    var busy: bool

    constructor (size: nat)
      ensures fresh(pixels) && pixels.Length == size && !busy
    {
      pixels := new Pixel[size](_ => 0);
      busy := false;
    }
  }

  class Window {
    const geometry: Geometry
    const useDamageBuffer: bool
    const first: Buffer
    const second: Buffer
    var ball: Ball

    ghost predicate Valid()
      reads this
    {
      && geometry.Valid() && InArena(geometry, ball.x, ball.y)
      && first != second && first.pixels != second.pixels
      && first.pixels.Length == second.pixels.Length == geometry.BufferHeight() * geometry.BufferWidth()
    }

    constructor (g: Geometry, flag: bool, start: Ball)
      requires g.Valid() && InArena(g, start.x, start.y)
      ensures Valid() && geometry == g && useDamageBuffer == flag && ball == start
      ensures fresh(first) && fresh(second) && fresh(first.pixels) && fresh(second.pixels)
    {
      PositiveSize(g);
      geometry, useDamageBuffer, ball := g, flag, start;
      first := new Buffer(g.BufferHeight() * g.BufferWidth());
      second := new Buffer(g.BufferHeight() * g.BufferWidth());
    }

    method BufferRelease(buffer: Buffer)
      modifies buffer`busy
      ensures !buffer.busy
    {
      buffer.busy := false;
    }

    /** window_next_buffer; redraw aborts when both are busy. */
    method NextBuffer() returns (buffer: Buffer)
      requires !first.busy || !second.busy
      ensures buffer == if !first.busy then first else second
      ensures !buffer.busy
    {
      if !first.busy {
        buffer := first;
      } else {
        buffer := second;
      }
    }

    method AdvanceGame(timestamp: uint32)
      requires Valid()
      modifies this`ball
      ensures Valid() && ball == Advanced(geometry, old(ball), timestamp)
    {
      hide Travelled, Velocity;
      var g := geometry;
      if ball.prevTime == 0 {
        ball := ball.(prevTime := timestamp);
        return;
      }
      var dt := ToUint32(timestamp - ball.prevTime) as real / 1000.0;
      var x, dx := Travel(ball.x, ball.dx, dt, g.border + g.radius, g.width);
      var y, dy := Travel(ball.y, ball.dy, dt, g.border + g.radius, g.height);
      ball := Ball(x, y, dx, dy, timestamp);
    }

    /** The painting part of redraw: border, inside, ball. */
    method Paint(buffer: Buffer)
      requires Valid() && (buffer == first || buffer == second)
      modifies buffer.pixels
      ensures ShowsFrame(buffer.pixels[..], geometry, ball.x, ball.y)
    {
      var g, pixels := geometry, buffer.pixels;
      PositiveSize(g);
      BallInBuffer(g, ball.x, ball.y);
      var bwidth, bheight := g.BufferWidth(), g.BufferHeight();
      var bborder, bradius := g.border * g.scale, g.radius * g.scale;
      hide Px, Zoom, ToBuffer;
      ghost var s0 := pixels[..];
      PaintBox(pixels, bwidth, bheight, 0, 0, bwidth, bborder, WHITE);
      ghost var s1 := pixels[..];
      PaintBox(pixels, bwidth, bheight, 0, 0, bborder, bheight, WHITE);
      ghost var s2 := pixels[..];
      PaintBox(pixels, bwidth, bheight, bwidth - bborder, 0, bborder, bheight, WHITE);
      ghost var s3 := pixels[..];
      PaintBox(pixels, bwidth, bheight, 0, bheight - bborder, bwidth, bborder, WHITE);
      ghost var s4 := pixels[..];
      PaintBox(pixels, bwidth, bheight, bborder, bborder, bwidth - 2 * bborder, bheight - 2 * bborder, TRANSLUCENT);
      ghost var s5 := pixels[..];
      var c := ToBuffer(g, Point(ball.x, ball.y));
      PaintCircle(pixels, bwidth, bheight, c.x, c.y, bradius, GREEN);
      BackgroundPainted(g, s0, s1, s2, s3, s4, s5);
      FramePainted(g, ball.x, ball.y, s5, pixels[..]);
    }

    /** redraw: the chosen buffer shows the advanced ball, and the damage is that
        of the ball before and after. */
    method Redraw(timestamp: uint32) returns (buffer: Buffer, damage: seq<Damage>)
      requires Valid() && (!first.busy || !second.busy)
      modifies this`ball, first`busy, second`busy, first.pixels, second.pixels
      ensures Valid() && ball == Advanced(geometry, old(ball), timestamp)
      ensures buffer == (if !old(first.busy) then first else second) && buffer.busy
      ensures ShowsFrame(buffer.pixels[..], geometry, ball.x, ball.y)
      ensures damage == [BallDamage(geometry, old(ball.x), old(ball.y), useDamageBuffer),
                         BallDamage(geometry, ball.x, ball.y, useDamageBuffer)]
      ensures var other := if buffer == first then second else first;
              other.pixels[..] == old(other.pixels[..]) && other.busy == old(other.busy)
    {
      buffer := NextBuffer();
      damage := [BallDamage(geometry, ball.x, ball.y, useDamageBuffer)];
      AdvanceGame(timestamp);
      Paint(buffer);
      damage := damage + [BallDamage(geometry, ball.x, ball.y, useDamageBuffer)];
      buffer.busy := true;
    }
  }

  lemma PositiveSize(g: Geometry)
    requires g.Valid()
    ensures g.BufferWidth() > 2 * (g.BufferBorder() + g.BufferRadius())
    ensures g.BufferHeight() > 2 * (g.BufferBorder() + g.BufferRadius())
    ensures 0 <= g.BufferBorder() && 0 <= g.BufferRadius()
    ensures 0 <= g.BufferHeight() * g.BufferWidth()
  {
    var m := g.border + g.radius;
    assert Px(g.width - 2 * m, g.scale) >= 1;
    assert Px(g.height - 2 * m, g.scale) >= 1;
  }

  /** The four border boxes and the inside leave no old pixel. */
  lemma BackgroundPainted(g: Geometry, s0: seq<Pixel>, s1: seq<Pixel>, s2: seq<Pixel>, s3: seq<Pixel>,
      s4: seq<Pixel>, s5: seq<Pixel>)
    requires g.Valid() && g.BufferWidth() > 0
    requires |s0| == g.BufferHeight() * g.BufferWidth()
    requires var w, h, b := g.BufferWidth(), g.BufferHeight(), g.BufferBorder();
             && IsBoxPainted(s1, s0, w, 0, 0, w, b, WHITE)
             && IsBoxPainted(s2, s1, w, 0, 0, b, h, WHITE)
             && IsBoxPainted(s3, s2, w, w - b, 0, b, h, WHITE)
             && IsBoxPainted(s4, s3, w, 0, h - b, w, b, WHITE)
             && IsBoxPainted(s5, s4, w, b, b, w - 2 * b, h - 2 * b, TRANSLUCENT)
    ensures |s5| == |s0|
    ensures forall k :: 0 <= k < |s5| ==> s5[k] == Background(g, Col(k, g.BufferWidth()), Row(k, g.BufferWidth()))
  {
    hide Row, Col, Px;
    var w, h := g.BufferWidth(), g.BufferHeight();
    forall k | 0 <= k < |s5|
      ensures s5[k] == Background(g, Col(k, w), Row(k, w))
    {
      CellOfIndex(k, w);
      RowInBuffer(k, w, h, |s0|);
    }
  }

  lemma FramePainted(g: Geometry, x: real, y: real, s: seq<Pixel>, t: seq<Pixel>)
    requires g.BufferWidth() > 0 && |s| == g.BufferHeight() * g.BufferWidth()
    requires forall k :: 0 <= k < |s| ==> s[k] == Background(g, Col(k, g.BufferWidth()), Row(k, g.BufferWidth()))
    requires IsDiscPainted(t, s, g.BufferWidth(), ToBuffer(g, Point(x, y)).x, ToBuffer(g, Point(x, y)).y,
                           g.BufferRadius(), GREEN)
    ensures ShowsFrame(t, g, x, y)
  {
    hide Row, Col, InDisc, ToBuffer, Background, Px;
  }
}
