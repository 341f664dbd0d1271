/** clients/resizor.c: two damped springs animate the window size, one frame
    callback at a time.  Doubles are modelled as reals. */
module Resizor {

  const DONE_DISTANCE := 0.1

  datatype SpringState = SpringState(current: real, target: real, previous: real) {
    /** spring_done looks at the position before the last update. */
    predicate Done() {
      -DONE_DISTANCE < previous - target < DONE_DISTANCE
    }
  }

  class Spring {
    var current: real
    var target: real
    var previous: real

    constructor (size: real)
      ensures View() == SpringState(size, size, size)
    {
      current, target, previous := size, size, size;
    }

    function View(): SpringState
      reads this
    {
      SpringState(current, target, previous)
    }

    /** The previous-position terms cancel: whatever `previous` was, an update
        leaves 19/20 of the distance to the target. */
    method Update()
      modifies this
      ensures target == old(target) && previous == old(current)
      ensures target - current == 19.0 / 20.0 * (target - old(current))
    {
      var now := current;
      var force := (target - now) / 20.0 + (previous - now);
      current := now + (now - previous) + force;
      previous := now;
    }
  }

  /** `pending` is "frame_callback is not NULL". */
  datatype Animation = Animation(width: SpringState, height: SpringState, pending: bool) {
    predicate Done() {
      width.Done() && height.Done()
    }
  }

  function Contracted(s: SpringState): SpringState {
    SpringState(s.target - 19.0 / 20.0 * (s.target - s.current), s.target, s.current)
  }

  /** What frame_callback does to the animation. */
  function Frame(a: Animation, maximized: bool): Animation {
    if maximized then a.(pending := false)
    else
      var w, h := Contracted(a.width), Contracted(a.height);
      Animation(w, h, !(w.Done() && h.Done()))
  }

  datatype Key = Up | Down | Left | Right | OtherKey

  datatype Event =
    | FrameDone
    | KeyPress(key: Key, width: int, height: int)
    | LockedMotion(dx: real, dy: real)
    | LeftButton(width: int, height: int)

  function Retargeted(s: SpringState, size: int): SpringState {
    SpringState(size as real, if s.Done() then size as real else s.target, s.previous)
  }

  /** Everything key_handler does before it may start the animation. */
  function Aimed(a: Animation, key: Key, width: int, height: int): Animation {
    var w, h := Retargeted(a.width, width), Retargeted(a.height, height);
    match key
    case Up => a.(width := w, height := if height < 400 then h else h.(target := (height - 200) as real))
    case Down => a.(width := w, height := if height > 1000 then h else h.(target := (height + 200) as real))
    case Left => a.(height := h, width := if width < 400 then w else w.(target := (width - 200) as real))
    case Right => a.(height := h, width := if width > 1000 then w else w.(target := (width + 200) as real))
    case OtherKey => a.(width := w, height := h)
  }

  function Moved(s: SpringState, d: real): SpringState {
    SpringState(s.current + d, s.current + d, s.current + d)
  }

  function Step(a: Animation, e: Event, maximized: bool): Animation {
    match e
    case FrameDone => if a.pending then Frame(a, maximized) else a
    case KeyPress(key, width, height) =>
      var aimed := Aimed(a, key, width, height);
      if aimed.pending then aimed else Frame(aimed, maximized)
    case LockedMotion(dx, dy) => a.(width := Moved(a.width, dx), height := Moved(a.height, dy))
    case LeftButton(width, height) =>
      var w, h := width as real, height as real;
      a.(width := SpringState(w, w, w), height := SpringState(h, h, h))
  }

  class Resizor {
    const width: Spring
    const height: Spring
    var pending: bool

    ghost predicate Valid() {
      width != height
    }

    function View(): Animation
      reads this, width, height
    {
      Animation(width.View(), height.View(), pending)
    }

    constructor ()
      ensures Valid() && fresh(width) && fresh(height)
      ensures View() == Animation(SpringState(400.0, 400.0, 400.0), SpringState(400.0, 400.0, 400.0), false)
    {
      width := new Spring(400.0);
      height := new Spring(400.0);
      pending := false;
    }

    method FrameCallback(maximized: bool)
      requires Valid()
      modifies this, width, height
      ensures View() == Frame(old(View()), maximized)
    {
      pending := false;
      if maximized {
        return;
      }
      width.Update();
      height.Update();
      if !width.View().Done() || !height.View().Done() {
        pending := true;
      }
    }

    method KeyHandler(key: Key, allocWidth: int, allocHeight: int, maximized: bool)
      requires Valid()
      modifies this, width, height
      ensures View() == Step(old(View()), KeyPress(key, allocWidth, allocHeight), maximized)
    {
      width.current := allocWidth as real;
      if width.View().Done() {
        width.target := allocWidth as real;
      }
      height.current := allocHeight as real;
      if height.View().Done() {
        height.target := allocHeight as real;
      }
      match key {
        case Up =>
          if allocHeight >= 400 { height.target := (allocHeight - 200) as real; }
        case Down =>
          if allocHeight <= 1000 { height.target := (allocHeight + 200) as real; }
        case Left =>
          if allocWidth >= 400 { width.target := (allocWidth - 200) as real; }
        case Right =>
          if allocWidth <= 1000 { width.target := (allocWidth + 200) as real; }
        case OtherKey =>
      }
      assert View() == Aimed(old(View()), key, allocWidth, allocHeight);
      if !pending {
        FrameCallback(maximized);
      }
    }

    method LockedPointerMotion(dx: real, dy: real, ghost maximized: bool)
      requires Valid()
      modifies width, height
      ensures View() == Step(old(View()), LockedMotion(dx, dy), maximized)
    {
      width.current := width.current + dx;
      width.previous := width.current;
      width.target := width.current;
      height.current := height.current + dy;
      height.previous := height.current;
      height.target := height.current;
    }

    method LeftButtonPressed(allocWidth: int, allocHeight: int, ghost maximized: bool)
      requires Valid()
      modifies width, height
      ensures View() == Step(old(View()), LeftButton(allocWidth, allocHeight), maximized)
    {
      width.current := allocWidth as real;
      width.previous := allocWidth as real;
      width.target := allocWidth as real;
      height.current := allocHeight as real;
      height.previous := allocHeight as real;
      height.target := allocHeight as real;
    }
  }

  // ---------- Convergence ----------

  function Abs(x: real): real {
    if x < 0.0 then -x else x
  }

  function Distance(s: SpringState): real {
    Abs(s.target - s.current)
  }

  function LargerDistance(a: Animation): real {
    if Distance(a.width) < Distance(a.height) then Distance(a.height) else Distance(a.width)
  }

  /** d times (19/20)^n. */
  function Decayed(d: real, n: nat): real {
    if n == 0 then d else 19.0 / 20.0 * Decayed(d, n - 1)
  }

  /** n frame callbacks with no other event in between. */
  function Chain(a: Animation, n: nat): Animation {
    if n == 0 then a else Frame(Chain(a, n - 1), false)
  }

  /** Each spring's signed distance contracts by exactly 19/20 a frame. */
  lemma {:induction false} SpringAfterFrames(a: Animation, n: nat)
    ensures Chain(a, n).width.target == a.width.target && Chain(a, n).height.target == a.height.target
    ensures a.width.target - Chain(a, n).width.current == Decayed(a.width.target - a.width.current, n)
    ensures a.height.target - Chain(a, n).height.current == Decayed(a.height.target - a.height.current, n)
  {
    if n > 0 {
      SpringAfterFrames(a, n - 1);
    }
  }

  lemma {:induction false} DecayedSign(d: real, n: nat)
    ensures d >= 0.0 ==> 0.0 <= Decayed(d, n) <= d
    ensures d <= 0.0 ==> d <= Decayed(d, n) <= 0.0
    ensures Abs(Decayed(d, n)) == Decayed(Abs(d), n)
  {
    if n > 0 { DecayedSign(d, n - 1); }
  }

  lemma {:induction false} DecayedOrder(d: real, e: real, n: nat)
    requires d <= e
    ensures Decayed(d, n) <= Decayed(e, n)
  {
    if n > 0 { DecayedOrder(d, e, n - 1); }
  }

  /** No overshoot: the window never passes its target and never moves away. */
  lemma {:induction false} NoOvershoot(a: Animation, n: nat)
    ensures a.width.current <= a.width.target ==>
              a.width.current <= Chain(a, n).width.current <= a.width.target
    ensures a.width.target <= a.width.current ==>
              a.width.target <= Chain(a, n).width.current <= a.width.current
    ensures a.height.current <= a.height.target ==>
              a.height.current <= Chain(a, n).height.current <= a.height.target
    ensures a.height.target <= a.height.current ==>
              a.height.target <= Chain(a, n).height.current <= a.height.current
  {
    SpringAfterFrames(a, n);
    DecayedSign(a.width.target - a.width.current, n);
    DecayedSign(a.height.target - a.height.current, n);
  }

  /** The exact stopping rule: the callback after frame n + 1 is armed again iff
      the larger initial distance, contracted n times, is still 0.1 or more. */
  lemma {:induction false} ArmedAgainIff(a: Animation, n: nat)
    ensures Chain(a, n + 1).pending <==> Decayed(LargerDistance(a), n) >= DONE_DISTANCE
  {
    SpringAfterFrames(a, n);
    DecayedSign(a.width.target - a.width.current, n);
    DecayedSign(a.height.target - a.height.current, n);
    if Distance(a.width) < Distance(a.height) {
      DecayedOrder(Distance(a.width), Distance(a.height), n);
    } else {
      DecayedOrder(Distance(a.height), Distance(a.width), n);
    }
  }

  lemma {:induction false} DecayedHarmonic(d: real, n: nat)
    requires d >= 0.0
    ensures Decayed(d, n) * (19.0 + n as real) <= 19.0 * d
  {
    if n > 0 {
      DecayedHarmonic(d, n - 1);
      DecayedSign(d, n - 1);
    }
  }

  lemma DistancesPositive(a: Animation)
    ensures LargerDistance(a) >= 0.0
  {
  }

  lemma BelowTenth(x: real, k: real, bound: real)
    requires k > 0.0 && x * k <= bound && 10.0 * bound < k
    ensures x < DONE_DISTANCE
  {
    assert x >= DONE_DISTANCE ==> x * k >= DONE_DISTANCE * k;
  }

  /** Linear bound: the chain has stopped once 19 + n exceeds 190 times the
      larger initial distance. */
  lemma StopsLinearly(a: Animation, n: nat)
    requires 190.0 * LargerDistance(a) < 19.0 + n as real
    ensures !Chain(a, n + 1).pending
  {
    hide Chain, LargerDistance, Decayed;
    var d := LargerDistance(a);
    DistancesPositive(a);
    ArmedAgainIff(a, n);
    DecayedHarmonic(d, n);
    BelowTenth(Decayed(d, n), 19.0 + n as real, 19.0 * d);
  }

  lemma {:induction false} DecayedSplit(d: real, m: nat, n: nat)
    ensures Decayed(d, m + n) == Decayed(Decayed(d, m), n)
  {
    if n > 0 {
      DecayedSplit(d, m, n - 1);
      assert m + n - 1 == m + (n - 1);
    }
  }

  function Pow2(m: nat): real {
    if m == 0 then 1.0 else 2.0 * Pow2(m - 1)
  }

  lemma {:induction false} Pow2Positive(m: nat)
    ensures Pow2(m) >= 1.0
  {
    if m > 0 { Pow2Positive(m - 1); }
  }

  /** Fourteen frames more than halve a distance. */
  lemma {:induction false} FourteenHalve(d: real)
    requires d >= 0.0
    ensures 2.0 * Decayed(d, 14) <= d
  {
    assert Decayed(d, 1) == 19.0 / 20.0 * d;
    assert Decayed(d, 2) == 361.0 / 400.0 * d;
    assert Decayed(d, 4) == 361.0 / 400.0 * Decayed(d, 2);
    assert Decayed(d, 6) == 361.0 / 400.0 * Decayed(d, 4);
    assert Decayed(d, 8) == 361.0 / 400.0 * Decayed(d, 6);
    assert Decayed(d, 10) == 361.0 / 400.0 * Decayed(d, 8);
    assert Decayed(d, 12) == 361.0 / 400.0 * Decayed(d, 10);
    assert Decayed(d, 14) == 361.0 / 400.0 * Decayed(d, 12);
  }

  lemma {:induction false} DecayedHalves(d: real, m: nat)
    requires d >= 0.0
    ensures Decayed(d, 14 * m) * Pow2(m) <= d
  {
    if m > 0 {
      var e := Decayed(d, 14 * (m - 1));
      DecayedHalves(d, m - 1);
      DecayedSplit(d, 14 * (m - 1), 14);
      DecayedSign(d, 14 * (m - 1));
      FourteenHalve(e);
      Pow2Positive(m - 1);
      assert 14 * (m - 1) + 14 == 14 * m;
      assert (2.0 * Decayed(e, 14)) * Pow2(m - 1) <= e * Pow2(m - 1);
    }
  }

  /** Logarithmic bound, sharper than the linear one: a distance below 2^m
      tenths is animated in at most 14 m + 1 frames. */
  lemma {:induction false} StopsLogarithmically(a: Animation, m: nat)
    requires 10.0 * LargerDistance(a) < Pow2(m)
    ensures !Chain(a, 14 * m + 1).pending
  {
    hide Chain, LargerDistance, Decayed, Pow2;
    var d := LargerDistance(a);
    DistancesPositive(a);
    ArmedAgainIff(a, 14 * m);
    DecayedHalves(d, m);
    Pow2Positive(m);
    BelowTenth(Decayed(d, 14 * m), Pow2(m), d);
  }

  // ---------- What keys and pointer ask for ----------

  /** The target of a side of that length when its own pair of keys may be down. */
  function Wanted(s: SpringState, size: int, shrink: bool, grow: bool): real {
    if shrink && size >= 400 then size as real - 200.0
    else if grow && size <= 1000 then size as real + 200.0
    else if -0.1 < s.previous - s.target < 0.1 then size as real
    else s.target
  }

  /** Left makes the window narrower by 200, Right wider, Up lower, Down higher, a
      window below 400 never smaller and one above 1000 never larger; the animation
      starts at the allocated size, at once or with the callback already armed, and
      n frames later is that much nearer. */
  lemma {:induction false} KeyResizes(a: Animation, key: Key, width: int, height: int, n: nat)
    ensures var wide, high := Wanted(a.width, width, key == Left, key == Right),
                              Wanted(a.height, height, key == Up, key == Down);
            var r := Chain(Step(a, KeyPress(key, width, height), false), n);
            var frames := if a.pending then n else n + 1;
            && r.width.target == wide && wide - r.width.current == Decayed(wide - width as real, frames)
            && r.height.target == high && high - r.height.current == Decayed(high - height as real, frames)
  {
    var aimed := Aimed(a, key, width, height);
    SpringAfterFrames(Step(a, KeyPress(key, width, height), false), n);
    ChainFirst(aimed, n);
    SpringAfterFrames(aimed, if a.pending then n else n + 1);
  }

  lemma {:induction false} ChainFirst(a: Animation, n: nat)
    ensures Chain(Frame(a, false), n) == Chain(a, n + 1)
  {
    if n > 0 {
      ChainFirst(a, n - 1);
    } else {
      assert Chain(a, 1) == Frame(Chain(a, 0), false);
    }
  }

  /** Dragging moves the size with the pointer, and the button stops the animation
      at the allocated size: frames that follow leave both alone. */
  lemma {:induction false} DraggingStays(a: Animation, dx: real, dy: real, width: int, height: int, maximized: bool,
      n: nat)
    ensures var r := Chain(Step(a, LockedMotion(dx, dy), maximized), n);
            r.width.current == a.width.current + dx && r.height.current == a.height.current + dy
    ensures var r := Chain(Step(a, LeftButton(width, height), maximized), n);
            r.width.current == width as real && r.height.current == height as real
  {
    AtRestStays(Step(a, LockedMotion(dx, dy), maximized), n);
    AtRestStays(Step(a, LeftButton(width, height), maximized), n);
  }

  lemma {:induction false} AtRestStays(a: Animation, n: nat)
    requires a.width.current == a.width.target && a.height.current == a.height.target
    ensures Chain(a, n).width.current == a.width.current && Chain(a, n).height.current == a.height.current
  {
    SpringAfterFrames(a, n);
    DecayedSign(0.0, n);
  }

  // ---------- No lost wake-up ----------

  /** A frame callback is armed whenever a spring still has to move. */
  predicate Awake(a: Animation) {
    a.pending || a.Done()
  }

  /** The event runs frame_callback on a window that is maximized while a
      spring still has to move. */
  predicate LosesWakeup(a: Animation, e: Event, maximized: bool) {
    maximized &&
    match e
    case FrameDone => a.pending && !a.Done()
    case KeyPress(key, width, height) => !a.pending && !Aimed(a, key, width, height).Done()
    case _ => false
  }

  /** From an awake animation, one event leaves it awake exactly when it is not
      such an event. */
  lemma AwakeKeptIff(a: Animation, e: Event, maximized: bool)
    requires Awake(a)
    ensures Awake(Step(a, e, maximized)) <==> !LosesWakeup(a, e, maximized)
  {
    if e.KeyPress? {
      var aimed := Aimed(a, e.key, e.width, e.height);
      assert aimed.pending == a.pending;
    }
  }

  datatype Input = Input(event: Event, maximized: bool)

  function Run(a: Animation, inputs: seq<Input>): Animation
    decreases |inputs|
  {
    if inputs == [] then a
    else Run(Step(a, inputs[0].event, inputs[0].maximized), inputs[1..])
  }

  /** Over any run in which the window is not maximized, no wake-up is lost. */
  lemma {:induction false} NeverStalls(a: Animation, inputs: seq<Input>)
    requires Awake(a)
    requires forall i :: 0 <= i < |inputs| ==> !inputs[i].maximized
    ensures Awake(Run(a, inputs))
    decreases |inputs|
  {
    if inputs != [] {
      AwakeKeptIff(a, inputs[0].event, inputs[0].maximized);
      NeverStalls(Step(a, inputs[0].event, inputs[0].maximized), inputs[1..]);
    }
  }

  /** Pressing Down on a maximized 400x400 window sets a target 200 away and
      leaves no callback to reach it. */
  lemma MaximizedKeyStalls()
    ensures var rest := SpringState(400.0, 400.0, 400.0);
            var a := Step(Animation(rest, rest, false), KeyPress(Down, 400, 400), true);
            a.height.target == 600.0 && a.height.current == 400.0 && !a.pending && !Awake(a)
  {
    var rest := SpringState(400.0, 400.0, 400.0);
    assert Aimed(Animation(rest, rest, false), Down, 400, 400).height.target == 600.0;
  }
}
