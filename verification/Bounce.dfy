/** clients/simple-damage.c:217-258: one coordinate of the bouncing ball.  After
    a step the position is reflected at the walls until it lies in the arena.
    Floats are modelled as reals. */
module Bounce {

  // ---------- The closed form ----------

  /** Number of full periods (twice the arena) below x, measured from wall a. */
  function Period(x: real, a: real, w: real): int
    requires w > 0.0
  {
    ((x - a) / (2.0 * w)).Floor
  }

  /** Position inside its period, in [0, 2 w). */
  function Phase(x: real, a: real, w: real): real
    requires w > 0.0
  {
    x - a - 2.0 * w * Period(x, a, w) as real
  }

  /** The triangle wave that folds the line into [a, a + w]. */
  function Fold(x: real, a: real, w: real): real
    requires w > 0.0
  {
    var m := Phase(x, a, w);
    if m <= w then a + m else a + 2.0 * w - m
  }

  /** The number of velocity reversals the loop performs: none inside the arena,
      otherwise the distance to the first wall in periods, rounded up. */
  function Reversals(x: real, a: real, w: real): int
    requires w > 0.0
  {
    if a <= x <= a + w then 0
    else if x < a then Ceiling((a - x) / (2.0 * w))
    else Ceiling((x - a) / (2.0 * w))
  }

  function Ceiling(x: real): int {
    -((-x).Floor)
  }

  lemma ScaleOrder(c: real, p: real, q: real)
    requires c > 0.0
    ensures p < q <==> c * p < c * q
    ensures p <= q <==> c * p <= c * q
  {
    if p < q { assert c * (q - p) > 0.0; }
    if q < p { assert c * (p - q) > 0.0; }
  }

  lemma QuotientTimes(x: real, c: real)
    requires c > 0.0
    ensures c * (x / c) == x
  {
  }

  lemma FloorIff(q: real, k: int)
    ensures q.Floor == k <==> k as real <= q < k as real + 1.0
  {
  }

  lemma ScaleInterval(x: real, q: real, c: real, r: real)
    requires c > 0.0 && c * q == x
    ensures r <= q <==> c * r <= x
    ensures q < r + 1.0 <==> x < c * r + c
  {
    var up, down := r + 1.0 - q, q - r;
    Positive(c, up);
    Positive(c, down);
    assert c * up == c * r + c - x;
    assert c * down == x - c * r;
  }

  lemma Positive(c: real, d: real)
    requires c > 0.0
    ensures d > 0.0 <==> c * d > 0.0
    ensures d >= 0.0 <==> c * d >= 0.0
  {
  }

  /** A quotient has floor k iff k multiples of the divisor fit below x. */
  lemma QuotientFloorIff(x: real, c: real, k: int)
    requires c > 0.0
    ensures (x / c).Floor == k <==> c * k as real <= x < c * k as real + c
  {
    QuotientTimes(x, c);
    FloorIff(x / c, k);
    ScaleInterval(x, x / c, c, k as real);
  }

  lemma PhaseRange(x: real, a: real, w: real)
    requires w > 0.0
    ensures 0.0 <= Phase(x, a, w) < 2.0 * w
  {
    QuotientFloorIff(x - a, 2.0 * w, Period(x, a, w));
  }

  /** Phase and period are determined by being a quotient and a remainder. */
  lemma PhaseUnique(x: real, a: real, w: real, m: real, k: int)
    requires w > 0.0 && 0.0 <= m < 2.0 * w && x - a == 2.0 * w * k as real + m
    ensures Phase(x, a, w) == m && Period(x, a, w) == k
  {
    QuotientFloorIff(x - a, 2.0 * w, k);
  }

  lemma FoldShift(x: real, a: real, w: real)
    requires w > 0.0
    ensures Fold(x + 2.0 * w, a, w) == Fold(x, a, w)
  {
    PhaseRange(x, a, w);
    var m, k := Phase(x, a, w), Period(x, a, w);
    assert x + 2.0 * w - a == 2.0 * w * (k + 1) as real + m;
    PhaseUnique(x + 2.0 * w, a, w, m, k + 1);
  }

  /** Reflecting at the lower wall does not change where x folds to. */
  lemma FoldReflectLow(x: real, a: real, w: real)
    requires w > 0.0
    ensures Fold(2.0 * a - x, a, w) == Fold(x, a, w)
  {
    PhaseRange(x, a, w);
    var m, k := Phase(x, a, w), Period(x, a, w);
    if m == 0.0 {
      assert 2.0 * a - x - a == 2.0 * w * (-k) as real + 0.0;
      PhaseUnique(2.0 * a - x, a, w, 0.0, -k);
    } else {
      assert 2.0 * a - x - a == 2.0 * w * (-k - 1) as real + (2.0 * w - m);
      PhaseUnique(2.0 * a - x, a, w, 2.0 * w - m, -k - 1);
    }
  }

  lemma FoldReflectHigh(x: real, a: real, w: real)
    requires w > 0.0
    ensures Fold(2.0 * (a + w) - x, a, w) == Fold(x, a, w)
  {
    FoldReflectLow(x, a, w);
    FoldShift(2.0 * a - x, a, w);
    assert 2.0 * a - x + 2.0 * w == 2.0 * (a + w) - x;
  }

  lemma FoldInside(x: real, a: real, w: real)
    requires w > 0.0 && a <= x <= a + w
    ensures Fold(x, a, w) == x
  {
    assert x - a == 2.0 * w * 0 as real + (x - a);
    PhaseUnique(x, a, w, x - a, 0);
  }

  /** The fold always lies in the arena, a whole number of periods away from x
      or from the mirror image of x. */
  lemma FoldMeaning(x: real, a: real, w: real)
    requires w > 0.0
    ensures a <= Fold(x, a, w) <= a + w
    ensures exists k: int :: Fold(x, a, w) == Image(x, a, w, k, false) || Fold(x, a, w) == Image(x, a, w, k, true)
  {
    PhaseRange(x, a, w);
    var k := Period(x, a, w);
    if Phase(x, a, w) <= w {
      assert Fold(x, a, w) == Image(x, a, w, -k, false);
    } else {
      assert Fold(x, a, w) == Image(x, a, w, k + 1, true);
    }
  }

  /** x moved by k periods, first mirrored at the lower wall if asked. */
  function Image(x: real, a: real, w: real, k: int, mirrored: bool): real {
    (if mirrored then 2.0 * a - x else x) + 2.0 * w * k as real
  }

  // ---------- The number of reversals ----------

  /** Rounded-up quotient: how many steps of c it takes to cover d. */
  lemma CeilingIff(d: real, c: real, n: int)
    requires c > 0.0
    ensures Ceiling(d / c) == n <==> c * n as real - c < d <= c * n as real
  {
    QuotientFloorIff(-d, c, -n);
    QuotientTimes(d, c);
    QuotientTimes(-d, c);
    assert (-d) / c == -(d / c) by {
      ScaleOrder(c, (-d) / c, -(d / c));
      ScaleOrder(c, -(d / c), (-d) / c);
    }
    assert c * (-n) as real == -(c * n as real);
  }

  lemma CeilingStep(d: real, c: real)
    requires c > 0.0
    ensures Ceiling((d - c) / c) == Ceiling(d / c) - 1
    ensures 0.0 < d <= c ==> Ceiling(d / c) == 1
    ensures -c < d <= 0.0 ==> Ceiling(d / c) == 0
  {
    var n := Ceiling(d / c);
    CeilingIff(d, c, n);
    CeilingIff(d - c, c, n - 1);
    assert c * (n - 1) as real == c * n as real - c;
    CeilingIff(d, c, 1);
    CeilingIff(d, c, 0);
  }

  /** One turn of the loop: either reflected once, or (below, by more than the
      arena) moved up a period; always one reversal. */
  function Turn(x: real, a: real, w: real): real {
    var low := if x < a then 2.0 * a - x else x;
    if a + w <= low then 2.0 * (a + w) - low else low
  }

  lemma TurnFolds(x: real, a: real, w: real)
    requires w > 0.0
    ensures Fold(Turn(x, a, w), a, w) == Fold(x, a, w)
  {
    FoldReflectLow(x, a, w);
    var low := if x < a then 2.0 * a - x else x;
    FoldReflectHigh(low, a, w);
  }

  lemma TurnReversesOnce(x: real, a: real, w: real)
    requires w > 0.0 && (x < a || a + w < x)
    ensures Reversals(x, a, w) == 1 + Reversals(Turn(x, a, w), a, w)
  {
    hide Ceiling;
    var c, t := 2.0 * w, Turn(x, a, w);
    var d := if x < a then a - x else x - a;
    CeilingStep(d, c);
    if x < a && d < w {
      assert t == a + d;
    } else {
      assert a - t == d - c;
    }
  }

  // ---------- The loop ----------

  /** Number of walls a ball travelling in a straight line to x has hit, if it
      starts inside: it shrinks with every turn. */
  function WallHits(x: real, a: real, w: real): nat
    requires w > 0.0
  {
    var d := if x < a then a - x else x - a - w;
    if d <= 0.0 then 0 else (QuotientNonNegative(d, w); (d / w).Floor + 1)
  }

  lemma QuotientNonNegative(d: real, w: real)
    requires w > 0.0 && d > 0.0
    ensures (d / w).Floor >= 0
  {
    var k := (d / w).Floor;
    QuotientFloorIff(d, w, k);
    if k < 0 { ScaleOrder(w, k as real, -1.0); }
  }

  function Sign(n: int): real {
    if n % 2 == 0 then 1.0 else -1.0
  }

  /** Reflect until inside: the position is the triangle-wave fold of the raw
      position, and the velocity is reversed Reversals times. */
  method Reflect(x0: real, dx0: real, ax1: int, ax2: int) returns (x: real, dx: real)
    requires ax1 < ax2
    ensures x == Fold(x0, ax1 as real, (ax2 - ax1) as real)
    ensures ax1 as real <= x <= ax2 as real
    ensures dx == Sign(Reversals(x0, ax1 as real, (ax2 - ax1) as real)) * dx0
    ensures dx == dx0 || dx == -dx0
  {
    hide Fold, Reversals, WallHits, Turn, Sign;
    x, dx := x0, dx0;
    ghost var a, w := ax1 as real, (ax2 - ax1) as real;
    ghost var n := 0;
    SignNext(0);
    while x < ax1 as real || ax2 as real < x
      invariant Fold(x, a, w) == Fold(x0, a, w)
      invariant n + Reversals(x, a, w) == Reversals(x0, a, w)
      invariant dx == Sign(n) * dx0 && (dx == dx0 || dx == -dx0)
      decreases WallHits(x, a, w)
    {
      ghost var before := x;
      if x < ax1 as real {
        x := (2 * ax1) as real - x;
      }
      if ax2 as real <= x {
        x := (2 * ax2) as real - x;
      }
      dx := -1.0 * dx;
      n := n + 1;
      TurnIs(before, a, w, x);
      SignNext(n - 1);
      TurnFolds(before, a, w);
      TurnReversesOnce(before, a, w);
      TurnApproaches(before, a, w);
    }
    FoldInside(x, a, w);
    InsideIsDone(x, a, w);
  }

  lemma TurnIs(x: real, a: real, w: real, t: real)
    requires var low := if x < a then 2.0 * a - x else x;
             t == if a + w <= low then 2.0 * (a + w) - low else low
    ensures t == Turn(x, a, w)
  {
  }

  lemma SignNext(n: int)
    ensures Sign(n + 1) == -1.0 * Sign(n) && Sign(0) == 1.0
  {
  }

  lemma InsideIsDone(x: real, a: real, w: real)
    requires w > 0.0 && a <= x <= a + w
    ensures Reversals(x, a, w) == 0
  {
  }

  lemma QuotientStep(d: real, w: real)
    requires w > 0.0
    ensures ((d - w) / w).Floor == (d / w).Floor - 1
  {
    var k := (d / w).Floor;
    QuotientFloorIff(d, w, k);
    QuotientFloorIff(d - w, w, k - 1);
    assert w * (k - 1) as real == w * k as real - w;
  }

  lemma TurnApproaches(x: real, a: real, w: real)
    requires w > 0.0 && (x < a || a + w < x)
    ensures WallHits(Turn(x, a, w), a, w) < WallHits(x, a, w)
  {
    var t := Turn(x, a, w);
    var d := if x < a then a - x else x - a - w;
    QuotientNonNegative(d, w);
    QuotientStep(d, w);
    QuotientStep(d - w, w);
    if x < a && d < w {
      assert t == a + d;
    } else if x < a {
      assert a - t == (d - w) - w;
    } else {
      assert a - t == d - w;
    }
  }

  // ---------- Consequences ----------

  /** A step that overshoots one wall by less than the arena reverses once. */
  lemma SingleOvershootReversesOnce(x: real, a: real, w: real)
    requires w > 0.0
    requires (a - w < x < a) || (a + w < x < a + 2.0 * w)
    ensures Reversals(x, a, w) == 1 && WallHits(x, a, w) == 1
  {
    CeilingStep(if x < a then a - x else x - a, 2.0 * w);
    QuotientFloorIff(if x < a then a - x else x - a - w, w, 0);
  }

  /** The loop counts two hits as one when a single turn reflects at both walls:
      overshooting the low wall by between one and two arenas reverses the
      velocity once although the ball has hit two walls. */
  lemma DoubleReflectionReversesOnce(x: real, a: real, w: real)
    requires w > 0.0 && a - 2.0 * w < x < a - w
    ensures Reversals(x, a, w) == 1 && WallHits(x, a, w) == 2
  {
    CeilingStep(a - x, 2.0 * w);
    QuotientFloorIff(a - x, w, 1);
  }

  /** Number of walls a ball travelling in a straight line to x has passed, if it
      starts inside; landing on a wall is not passing it. */
  function Crossings(x: real, a: real, w: real): int
    requires w > 0.0
  {
    if a <= x <= a + w then 0
    else Ceiling((if x < a then a - x else x - a - w) / w)
  }

  lemma ScaleInt(w: real, c: int, n: int)
    requires w > 0.0
    ensures c == 2 * n ==> w * c as real == 2.0 * w * n as real
    ensures c == 2 * n - 1 ==> w * c as real == 2.0 * w * n as real - w
    ensures c == 2 * n - 2 ==> w * c as real == 2.0 * w * n as real - 2.0 * w
    ensures c == 2 * n + 1 ==> w * c as real == 2.0 * w * n as real + w
    ensures c == -2 * n ==> w * c as real == -(2.0 * w * n as real)
    ensures c == -2 * n - 1 ==> w * c as real == -(2.0 * w * n as real) - w
  {
  }

  lemma CrossingsBounds(x: real, a: real, w: real)
    requires w > 0.0 && (x < a || a + w < x)
    ensures var c, d := Crossings(x, a, w), if x < a then a - x else x - a - w;
            c >= 1 && w * c as real - w < d <= w * c as real
  {
    var d := if x < a then a - x else x - a - w;
    var c := Crossings(x, a, w);
    CeilingIff(d, w, c);
    if c <= 0 { ScaleOrder(w, c as real, 0.0); }
  }

  /** The loop reverses about once for every two walls passed: rounded up below
      the arena, down and one more above it, where its first turn reflects once. */
  lemma ReversalsFromCrossings(x: real, a: real, w: real)
    requires w > 0.0
    ensures var c := Crossings(x, a, w);
            Reversals(x, a, w) == if a <= x <= a + w then 0 else if x < a then (c + 1) / 2 else c / 2 + 1
  {
    if x < a || a + w < x {
      hide Ceiling;
      var c := Crossings(x, a, w);
      CrossingsBounds(x, a, w);
      var n := if x < a then (c + 1) / 2 else c / 2 + 1;
      ScaleInt(w, c, n);
      CeilingIff(if x < a then a - x else x - a, 2.0 * w, n);
    }
  }

  /** Main result: the velocity's direction comes out right, one reversal for every
      wall passed up to pairs, if and only if the number of walls passed is 0 or 1
      modulo 4 below the arena, 1 or 2 above it. */
  lemma DirectionRightIff(x: real, a: real, w: real)
    requires w > 0.0
    ensures var c := Crossings(x, a, w);
            Sign(Reversals(x, a, w)) == Sign(c) <==>
            a <= x <= a + w || (x < a && c % 4 <= 1) || (a + w < x && 1 <= c % 4 <= 2)
  {
    ReversalsFromCrossings(x, a, w);
  }

  /** The walls passed give the direction in which the fold moves: an even number
      on its rising branches, an odd one on the falling. */
  lemma CrossingsGiveDirection(x: real, a: real, w: real)
    requires w > 0.0
    ensures 0.0 < Phase(x, a, w) < w ==> Sign(Crossings(x, a, w)) == 1.0
    ensures w < Phase(x, a, w) < 2.0 * w ==> Sign(Crossings(x, a, w)) == -1.0
  {
    if a <= x <= a + w {
      InsidePhase(x, a, w);
    } else if x < a {
      BelowDirection(x, a, w);
    } else {
      AboveDirection(x, a, w);
    }
  }

  lemma InsidePhase(x: real, a: real, w: real)
    requires w > 0.0 && a <= x <= a + w
    ensures Phase(x, a, w) <= w
  {
    PhaseUnique(x, a, w, x - a, 0);
  }

  lemma AboveDirection(x: real, a: real, w: real)
    requires w > 0.0 && a + w < x
    ensures 0.0 < Phase(x, a, w) < w ==> Crossings(x, a, w) == 2 * Period(x, a, w)
    ensures w < Phase(x, a, w) < 2.0 * w ==> Crossings(x, a, w) == 2 * Period(x, a, w) + 1
  {
    hide Ceiling;
    var p := Period(x, a, w);
    var c := if Phase(x, a, w) < w then 2 * p else 2 * p + 1;
    ScaleInt(w, c, p);
    CeilingIff(x - a - w, w, c);
  }

  lemma BelowDirection(x: real, a: real, w: real)
    requires w > 0.0 && x < a
    ensures 0.0 < Phase(x, a, w) < w ==> Crossings(x, a, w) == -2 * Period(x, a, w)
    ensures w < Phase(x, a, w) < 2.0 * w ==> Crossings(x, a, w) == -2 * Period(x, a, w) - 1
  {
    hide Ceiling;
    var p := Period(x, a, w);
    var c := if Phase(x, a, w) < w then -2 * p else -2 * p - 1;
    ScaleInt(w, c, p);
    CeilingIff(a - x, w, c);
  }

  /** With an empty or one-point arena the loop cannot be left once entered:
      ax1 < ax2 is what termination needs. */
  lemma DegenerateArenaNeverSettles(x: real, a: real, w: real)
    requires w <= 0.0 && (x < a || a + w < x)
    ensures Turn(x, a, w) < a || a + w < Turn(x, a, w)
  {
  }
}
