/** clients/constraints.c: a surface draws pointer lines into a pool of three
    buffers that live in one shared memory block.  The compositor holds some of
    them; the picture on screen must still be one canvas. */
module Constraints {

  type Pixel = int

  const NUM_BUFFERS := 3

  datatype Line = Line(x1: int, y1: int, x2: int, y2: int)

  /** What is drawn: a fill with the surface colour, or a stroke. */
  datatype Op = Fill | Stroke(line: Line)

  /** The drawing library on a picture of fixed size. */
  datatype Painter = Painter(size: nat, solid: seq<Pixel>, stroke: (seq<Pixel>, Line) -> seq<Pixel>) {
    ghost predicate Valid() {
      && |solid| == size
      && forall p, l :: |p| == size ==> |stroke(p, l)| == size
    }
  }

  function Painted(p: Painter, picture: seq<Pixel>, op: Op): seq<Pixel> {
    match op
    case Fill => p.solid
    case Stroke(line) => p.stroke(picture, line)
  }

  function Blank(p: Painter): seq<Pixel> {
    seq(p.size, _ => 0)
  }

  /** The one canvas: everything drawn so far, in order, on a blank picture. */
  function Canvas(p: Painter, log: seq<Op>): seq<Pixel> {
    if log == [] then Blank(p) else Painted(p, Canvas(p, log[..|log| - 1]), log[|log| - 1])
  }

  /** A fill hides everything before it, a stroke goes on top. */
  lemma {:induction false} FillHides(p: Painter, before: seq<Op>, other: seq<Op>, after: seq<Op>)
    ensures Canvas(p, before + [Fill]) == p.solid
    ensures Canvas(p, before + [Fill] + after) == Canvas(p, other + [Fill] + after)
    ensures forall l :: Canvas(p, before + [Stroke(l)]) == p.stroke(Canvas(p, before), l)
    decreases |after|
  {
    CanvasAppend(p, before, Fill);
    CanvasAppend(p, other, Fill);
    forall l ensures Canvas(p, before + [Stroke(l)]) == p.stroke(Canvas(p, before), l) {
      CanvasAppend(p, before, Stroke(l));
    }
    hide Canvas;
    if after == [] {
      assert before + [Fill] + after == before + [Fill] && other + [Fill] + after == other + [Fill];
    } else {
      var n := |after| - 1;
      FillHides(p, before, other, after[..n]);
      assert before + [Fill] + after == (before + [Fill] + after[..n]) + [after[n]];
      assert other + [Fill] + after == (other + [Fill] + after[..n]) + [after[n]];
      CanvasAppend(p, before + [Fill] + after[..n], after[n]);
      CanvasAppend(p, other + [Fill] + after[..n], after[n]);
    }
  }

  lemma {:induction false} CanvasAppend(p: Painter, log: seq<Op>, op: Op)
    ensures Canvas(p, log + [op]) == Painted(p, Canvas(p, log), op)
  {
    assert (log + [op])[..|log|] == log;
  }

  // ---------- What is to be drawn ----------

  /** line, needs_reset and needs_redraw, and the history of drawing. */
  datatype Sketch = Sketch(line: Line, needsReset: bool, needsRedraw: bool, log: seq<Op>)

  const NO_LINE := Line(-1, -1, -1, -1)
  const INITIAL := Sketch(NO_LINE, true, true, [])

  /** Both start coordinates are set. */
  predicate PenDown(l: Line) {
    l.x1 != -1 && l.y1 != -1
  }

  /** The drawing part of surface_redraw, once there is a buffer. */
  function Drawn(s: Sketch, locked: bool): Sketch {
    if !s.needsRedraw then s
    else
      Sketch(if locked then s.line else Line(s.line.x2, s.line.y2, s.line.x2, s.line.y2), false, false,
             s.log + (if s.needsReset then [Fill] else []) + (if PenDown(s.line) then [Stroke(s.line)] else []))
  }

  datatype Event =
    | Motion(x: int, y: int)
    | RelativeMotion(dx: int, dy: int)
    | PointerLeave
    | PointerLocked

  function Noted(s: Sketch, ev: Event): Sketch {
    match ev
    case Motion(x, y) => s.(line := s.line.(x2 := x, y2 := y), needsRedraw := true)
    case RelativeMotion(dx, dy) =>
      s.(line := s.line.(x2 := s.line.x1 + dx, y2 := s.line.y1 + dy), needsReset := true, needsRedraw := true)
    case PointerLeave => s.(line := NO_LINE, needsReset := true, needsRedraw := true)
    case PointerLocked => s.(line := s.line.(x1 := s.line.x2, y1 := s.line.y2), needsReset := true, needsRedraw := true)
  }

  // ---------- The surface and its pool ----------

  /** Offset of buffer i in the pool: a third of the pool each. */
  function Offset(i: int, size: nat): int {
    i * size
  }

  lemma OffsetBounds(i: int, size: nat)
    requires 0 <= i < NUM_BUFFERS
    ensures 0 <= Offset(i, size) && Offset(i, size) + size <= NUM_BUFFERS * size
  {
    assert i == 0 || i == 1 || i == 2;
  }

  /** The parts of the pool do not overlap. */
  lemma OffsetsApart(i: int, j: int, size: nat)
    requires 0 <= i < NUM_BUFFERS && 0 <= j < NUM_BUFFERS && i != j
    ensures Offset(i, size) + size <= Offset(j, size) || Offset(j, size) + size <= Offset(i, size)
  {
    assert (i == 0 || i == 1 || i == 2) && (j == 0 || j == 1 || j == 2);
  }

  class Surface {
    const painter: Painter
    const memory: array<Pixel>
    const used: array<bool>
    var current: int
    var line: Line
    var needsReset: bool
    var needsRedraw: bool
    ghost var log: seq<Op>

    ghost predicate Shape() {
      && painter.Valid() && used.Length == NUM_BUFFERS
      && memory.Length == NUM_BUFFERS * painter.size
    }

    /** The pixels of buffer i. */
    ghost function Picture(i: int): (s: seq<Pixel>)
      requires Shape() && 0 <= i < NUM_BUFFERS
      reads memory
      ensures |s| == painter.size
    {
      OffsetBounds(i, painter.size);
      memory[Offset(i, painter.size)..Offset(i, painter.size) + painter.size]
    }

    /** The current buffer shows the canvas; before the first one is chosen, all
        of the pool is still blank. */
    ghost predicate Valid()
      reads this`current, this`log, memory
    {
      && Shape() && -1 <= current < NUM_BUFFERS
      && (current >= 0 ==> Picture(current) == Canvas(painter, log))
      && (current < 0 ==> log == [] && forall i :: 0 <= i < NUM_BUFFERS ==> Picture(i) == Blank(painter))
    }

    ghost function View(): Sketch
      reads this
    {
      Sketch(line, needsReset, needsRedraw, log)
    }

    constructor (p: Painter)
      requires p.Valid()
      ensures Valid() && painter == p && View() == INITIAL && fresh(memory) && fresh(used)
      ensures used[..] == [false, false, false]
    {
      painter := p;
      memory := new Pixel[NUM_BUFFERS * p.size](_ => 0);
      used := new bool[NUM_BUFFERS](_ => false);
      current, line, needsReset, needsRedraw, log := -1, NO_LINE, true, true, [];
    }

    /** The pointer handlers. */
    method Note(ev: Event)
      requires Valid()
      modifies this`line, this`needsReset, this`needsRedraw
      ensures Valid() && View() == Noted(old(View()), ev)
    {
      match ev {
        case Motion(x, y) =>
          line := line.(x2 := x, y2 := y);
        case RelativeMotion(dx, dy) =>
          line := line.(x2 := line.x1 + dx, y2 := line.y1 + dy);
          needsReset := true;
        case PointerLeave =>
          line := Line(-1, -1, -1, -1);
          needsReset := true;
        case PointerLocked =>
          line := line.(x1 := line.x2, y1 := line.y2);
          needsReset := true;
      }
      needsRedraw := true;
    }

    method BufferRelease(i: int)
      requires Valid() && 0 <= i < NUM_BUFFERS
      modifies used
      ensures Valid() && used[..] == old(used[..])[i := false]
    {
      used[i] := false;
    }

    /** Overwrite buffer i; the others are disjoint parts of the pool. */
    method Store(i: int, picture: seq<Pixel>)
      requires Shape() && 0 <= i < NUM_BUFFERS && |picture| == painter.size
      modifies memory
      ensures Picture(i) == picture
      ensures forall j :: 0 <= j < NUM_BUFFERS && j != i ==> Picture(j) == old(Picture(j))
    {
      var k := 0;
      var offset := Offset(i, painter.size);
      OffsetBounds(i, painter.size);
      hide Offset;
      while k < painter.size
        invariant 0 <= k <= painter.size
        invariant forall m :: 0 <= m < k ==> memory[offset + m] == picture[m]
        invariant forall m :: 0 <= m < memory.Length && !(offset <= m < offset + k) ==> memory[m] == old(memory[m])
      {
        memory[offset + k] := picture[k];
        k := k + 1;
      }
      forall j | 0 <= j < NUM_BUFFERS && j != i
        ensures Picture(j) == old(Picture(j))
      {
        OffsetBounds(j, painter.size);
        OffsetsApart(i, j, painter.size);
      }
    }

    /** Read buffer i. */
    method Load(i: int) returns (picture: seq<Pixel>)
      requires Shape() && 0 <= i < NUM_BUFFERS
      ensures picture == Picture(i)
    {
      OffsetBounds(i, painter.size);
      var offset := Offset(i, painter.size);
      picture := memory[offset..offset + painter.size];
    }

    /** shm_pool_get_buffer: the current buffer if the compositor has released it,
        otherwise the first free one with the current picture copied into it. */
    method GetBuffer() returns (buffer: int)
      requires Valid()
      modifies memory
      ensures Shape() && -1 <= buffer < NUM_BUFFERS
      ensures buffer < 0 <==> forall i :: 0 <= i < NUM_BUFFERS ==> used[i]
      ensures buffer >= 0 ==> !used[buffer] && Picture(buffer) == Canvas(painter, log)
      ensures buffer >= 0 && current >= 0 && !used[current] ==> buffer == current
      ensures forall i :: 0 <= i < NUM_BUFFERS && used[i] ==> Picture(i) == old(Picture(i))
      ensures buffer < 0 ==> memory[..] == old(memory[..])
    {
      if current >= 0 && !used[current] {
        return current;
      }
      buffer := -1;
      var i := 0;
      while i < NUM_BUFFERS
        invariant 0 <= i <= NUM_BUFFERS
        invariant forall j :: 0 <= j < i ==> used[j]
      {
        if !used[i] {
          buffer := i;
          break;
        }
        i := i + 1;
      }
      if buffer >= 0 && current >= 0 {
        var previous := Load(current);
        Store(buffer, previous);
      }
    }

    /** One drawing operation on the current buffer. */
    method Paint(op: Op)
      requires Valid() && current >= 0 && !used[current]
      modifies memory, this`log
      ensures Valid() && log == old(log) + [op]
      ensures forall i :: 0 <= i < NUM_BUFFERS && used[i] ==> Picture(i) == old(Picture(i))
    {
      var picture := Load(current);
      Store(current, match op case Fill => painter.solid case Stroke(l) => painter.stroke(picture, l));
      log := log + [op];
    }

    /** surface_reset and surface_draw_line, for a surface that needs a redraw. */
    method DrawPending(locked: bool)
      requires Valid() && current >= 0 && !used[current] && needsRedraw
      modifies memory, this`log, this`line, this`needsReset, this`needsRedraw
      ensures Valid() && View() == Drawn(old(View()), locked)
      ensures forall i :: 0 <= i < NUM_BUFFERS && used[i] ==> Picture(i) == old(Picture(i))
    {
      hide Picture, Canvas;
      if needsReset {
        Paint(Fill);
        needsReset := false;
      }
      if line.x1 != -1 && line.y1 != -1 {
        Paint(Stroke(line));
      }
      if !locked {
        line := Line(line.x2, line.y2, line.x2, line.y2);
      }
      needsRedraw := false;
    }

    /** surface_redraw.  With a buffer it does exactly what a single canvas would;
        without one it does nothing.  Pictures the compositor holds stay. */
    method Redraw(locked: bool) returns (ok: bool)
      requires Valid()
      modifies this, memory, used
      ensures Valid()
      ensures ok <==> exists i :: 0 <= i < NUM_BUFFERS && !old(used[..])[i]
      ensures View() == if ok then Drawn(old(View()), locked) else old(View())
      ensures ok ==> current >= 0 && !old(used[..])[current]
      ensures forall i :: 0 <= i < NUM_BUFFERS && old(used[i]) ==> Picture(i) == old(Picture(i))
      ensures used[..] == if ok && old(needsRedraw) then old(used[..])[current := true] else old(used[..])
    {
      hide Picture, Canvas;
      var buffer := GetBuffer();
      ok := buffer >= 0;
      if !ok {
        return;
      }
      assert !old(used[..])[buffer];
      current := buffer;
      if needsRedraw {
        DrawPending(locked);
        used[buffer] := true;
      }
    }
  }

  // ---------- The trail ----------

  /** Within one fill the strokes follow each other: each starts where the one
      before ended. */
  predicate Connected(log: seq<Op>) {
    forall k :: 0 <= k < |log| - 1 && log[k].Stroke? && log[k + 1].Stroke? ==> Follows(log[k], log[k + 1])
  }

  predicate Follows(before: Op, after: Op)
    requires before.Stroke? && after.Stroke?
  {
    after.line.x1 == before.line.x2 && after.line.y1 == before.line.y2
  }

  /** The pen rests where the last stroke ended, unless a fill is due. */
  predicate PenAtEnd(s: Sketch) {
    s.log != [] && s.log[|s.log| - 1].Stroke? && !s.needsReset ==>
      && s.line.x1 == s.log[|s.log| - 1].line.x2
      && s.line.y1 == s.log[|s.log| - 1].line.y2
  }

  predicate Tidy(s: Sketch) {
    Connected(s.log) && PenAtEnd(s)
  }

  /** The pending line leads nowhere. */
  predicate Still(l: Line) {
    l.x1 == l.x2 && l.y1 == l.y2
  }

  /** The last thing drawn is a stroke that the next one has to follow. */
  predicate MustFollow(s: Sketch) {
    s.log != [] && s.log[|s.log| - 1].Stroke? && !s.needsReset
  }

  /** Redraws happen with the pointer locked or not. */
  datatype Input = Pointer(ev: Event) | Redrawn(locked: bool)

  function Step(s: Sketch, input: Input): Sketch {
    match input
    case Pointer(ev) => Noted(s, ev)
    case Redrawn(locked) => Drawn(s, locked)
  }

  function Run(s: Sketch, inputs: seq<Input>): Sketch
    decreases |inputs|
  {
    if inputs == [] then s else Run(Step(s, inputs[0]), inputs[1..])
  }

  /** No pointer event takes the pen off the end of the trail. */
  lemma EventsKeepPen(s: Sketch, ev: Event)
    requires Tidy(s)
    ensures Tidy(Noted(s, ev))
  {
  }

  lemma ConnectedAppend(log: seq<Op>, op: Op)
    requires Connected(log)
    ensures Connected(log + [op]) <==>
            !(log != [] && log[|log| - 1].Stroke? && op.Stroke?) || Follows(log[|log| - 1], op)
  {
    var longer := log + [op];
    forall k | 0 <= k < |log| - 1 && longer[k].Stroke? && longer[k + 1].Stroke?
      ensures Follows(longer[k], longer[k + 1])
    {
      assert longer[k] == log[k] && longer[k + 1] == log[k + 1];
    }
    if Connected(longer) && log != [] && log[|log| - 1].Stroke? && op.Stroke? {
      assert Follows(longer[|log| - 1], longer[|log|]);
    }
  }

  /** The redraw that tears the trail: exactly one that draws a line while the pen
      is not where the trail ended. */
  lemma DrawConnectedIff(s: Sketch, locked: bool)
    requires Connected(s.log)
    ensures Connected(Drawn(s, locked).log) <==> !Tears(s)
  {
    if s.needsRedraw {
      var filled := s.log + (if s.needsReset then [Fill] else []);
      if s.needsReset { ConnectedAppend(s.log, Fill); } else { assert filled == s.log; }
      if PenDown(s.line) {
        ConnectedAppend(filled, Stroke(s.line));
        assert Drawn(s, locked).log == filled + [Stroke(s.line)];
      } else {
        assert Drawn(s, locked).log == filled;
      }
    }
  }

  predicate Tears(s: Sketch) {
    s.needsRedraw && PenDown(s.line) && !PenAtEnd(s)
  }

  /** An unlocked redraw takes the pen off the trail exactly when the trail ended
      at the coordinate -1, which reads as "no pen", and the pointer moved on: the
      line from there is then not drawn. */
  lemma UnlockedDrawKeepsTidyIff(s: Sketch)
    requires Tidy(s)
    ensures Tidy(Drawn(s, false)) <==>
            !(s.needsRedraw && MustFollow(s) && !PenDown(s.line) && !Still(s.line))
  {
    DrawConnectedIff(s, false);
    if s.needsRedraw { DrawnEnd(s, false); }
  }

  /** A locked redraw does so exactly when it draws a line that leads somewhere:
      the pen stays at the start of it. */
  lemma LockedDrawKeepsPenIff(s: Sketch)
    requires Tidy(s)
    ensures Connected(Drawn(s, true).log)
    ensures Tidy(Drawn(s, true)) <==> !s.needsRedraw || !PenDown(s.line) || Still(s.line)
  {
    DrawConnectedIff(s, true);
    if s.needsRedraw { DrawnEnd(s, true); }
  }

  lemma DrawnEnd(s: Sketch, locked: bool)
    requires s.needsRedraw
    ensures var log := Drawn(s, locked).log;
            && (PenDown(s.line) ==> log != [] && log[|log| - 1] == Stroke(s.line))
            && (!PenDown(s.line) && s.needsReset ==> log != [] && log[|log| - 1] == Fill)
            && (!PenDown(s.line) && !s.needsReset ==> log == s.log)
  {
  }

  /** Input k is a redraw that tears the trail. */
  predicate TornAt(s: Sketch, inputs: seq<Input>, k: nat) {
    k < |inputs| && inputs[k].Redrawn? && Tears(Run(s, inputs[..k]))
  }

  /** Main result: whatever the pointer does, locked or not and at any position,
      the trail is connected if and only if no redraw of the run draws a line while
      the pen is off the end of the trail. */
  lemma {:induction false} TrailConnectedIff(s: Sketch, inputs: seq<Input>)
    requires Connected(s.log)
    ensures Connected(Run(s, inputs).log) <==> forall k: nat :: !TornAt(s, inputs, k)
    decreases |inputs|
  {
    hide Connected, Tears, Noted, Drawn;
    if inputs != [] {
      var next, rest := Step(s, inputs[0]), inputs[1..];
      if inputs[0].Redrawn? { DrawConnectedIff(s, inputs[0].locked); } else { NotedLog(s, inputs[0].ev); }
      assert TornAt(s, inputs, 0) <==> inputs[0].Redrawn? && Tears(s) by { assert inputs[..0] == []; }
      forall k: nat ensures TornAt(s, inputs, k + 1) <==> TornAt(next, rest, k) { TornLater(s, inputs, k); }
      if TornAt(s, inputs, 0) {
        StaysTorn(next, rest);
      } else {
        TrailConnectedIff(next, rest);
        forall k: nat | TornAt(s, inputs, k) ensures exists j: nat :: TornAt(next, rest, j) {
          TornLater(s, inputs, k - 1);
          assert TornAt(next, rest, k - 1);
        }
      }
    }
  }

  lemma NotedLog(s: Sketch, ev: Event)
    ensures Noted(s, ev).log == s.log
  {
  }

  lemma TornLater(s: Sketch, inputs: seq<Input>, k: nat)
    requires inputs != []
    ensures TornAt(s, inputs, k + 1) <==> TornAt(Step(s, inputs[0]), inputs[1..], k)
  {
    hide Tears, Step;
    if k < |inputs[1..]| {
      assert inputs[1..][..k] == inputs[..k + 1][1..];
    }
  }

  /** Drawing only ever adds to the log. */
  lemma {:induction false} StaysTorn(s: Sketch, inputs: seq<Input>)
    requires !Connected(s.log)
    ensures !Connected(Run(s, inputs).log)
    decreases |inputs|
  {
    if inputs != [] {
      var next := Step(s, inputs[0]);
      assert s.log <= next.log;
      assert !Connected(next.log) by {
        var k :| 0 <= k < |s.log| - 1 && s.log[k].Stroke? && s.log[k + 1].Stroke? && !Follows(s.log[k], s.log[k + 1]);
        assert next.log[k] == s.log[k] && next.log[k + 1] == s.log[k + 1];
      }
      StaysTorn(next, inputs[1..]);
    }
  }

  // ---------- The trail of an unlocked pointer ----------

  /** No stroke ends at the coordinate that means "no pen", and neither does the
      line of a lowered pen. */
  predicate EndsSet(s: Sketch) {
    && (forall k :: 0 <= k < |s.log| && s.log[k].Stroke? ==> s.log[k].line.x2 != -1 && s.log[k].line.y2 != -1)
    && (PenDown(s.line) ==> s.line.x2 != -1 && s.line.y2 != -1)
  }

  /** Events of a pointer that is not locked.  It may leave the surface while a
      button is held, to any coordinates but -1. */
  predicate Unlocked(input: Input) {
    match input
    case Redrawn(locked) => !locked
    case Pointer(ev) => ev.PointerLeave? || (ev.Motion? && ev.x != -1 && ev.y != -1)
  }

  lemma StepTidy(s: Sketch, input: Input)
    requires Tidy(s) && EndsSet(s) && Unlocked(input)
    ensures Tidy(Step(s, input)) && EndsSet(Step(s, input))
  {
    if input.Redrawn? && s.needsRedraw {
      UnlockedDrawKeepsTidyIff(s);
      DrawnEnd(s, false);
      DrawnStrokes(s);
    }
  }

  lemma DrawnStrokes(s: Sketch)
    requires EndsSet(s)
    ensures EndsSet(Drawn(s, false))
  {
  }

  /** However motion events and redraws interleave, an unlocked pointer leaves a
      connected trail: coalesced motions lose corners but never tear the line. */
  lemma {:induction false} TrailConnected(s: Sketch, inputs: seq<Input>)
    requires Tidy(s) && EndsSet(s) && forall i :: 0 <= i < |inputs| ==> Unlocked(inputs[i])
    ensures Connected(Run(s, inputs).log)
    decreases |inputs|
  {
    hide Tidy, EndsSet, Unlocked, Step, Connected;
    if inputs != [] {
      StepTidy(s, inputs[0]);
      TrailConnected(Step(s, inputs[0]), inputs[1..]);
    } else {
      TidyConnected(s);
    }
  }

  lemma TidyConnected(s: Sketch)
    requires Tidy(s)
    ensures Connected(s.log)
  {
  }

  /** The same from start-up. */
  lemma {:induction false} EveryRunConnected(inputs: seq<Input>)
    requires forall i :: 0 <= i < |inputs| ==> Unlocked(inputs[i])
    ensures Connected(Run(INITIAL, inputs).log)
  {
    hide Unlocked, Connected, Run;
    InitialTidy();
    TrailConnected(INITIAL, inputs);
  }

  lemma InitialTidy()
    ensures Tidy(INITIAL) && EndsSet(INITIAL)
  {
  }

  /** At -1 the trail does tear: a stroke that ends there is followed by one that
      starts wherever the pointer is two redraws later. */
  lemma MinusOneTearsTrail()
    ensures var s := Sketch(Line(0, 0, 0, 0), false, false, [Fill]);
            var off := Drawn(Noted(s, Motion(-1, 5)), false);
            var back := Drawn(Noted(off, Motion(5, 5)), false);
            var on := Drawn(Noted(back, Motion(9, 9)), false);
            && Tidy(s) && EndsSet(s) && Tidy(off) && !Tidy(back)
            && on.log == [Fill, Stroke(Line(0, 0, -1, 5)), Stroke(Line(5, 5, 9, 9))] && !Connected(on.log)
  {
    var s := Sketch(Line(0, 0, 0, 0), false, false, [Fill]);
    var off := Drawn(Noted(s, Motion(-1, 5)), false);
    assert off == Sketch(Line(-1, 5, -1, 5), false, false, [Fill, Stroke(Line(0, 0, -1, 5))]);
    var back := Drawn(Noted(off, Motion(5, 5)), false);
    assert back == Sketch(Line(5, 5, 5, 5), false, false, off.log);
    var on := Drawn(Noted(back, Motion(9, 9)), false);
    assert on.log[1] == Stroke(Line(0, 0, -1, 5)) && on.log[2] == Stroke(Line(5, 5, 9, 9));
  }

  /** A locked pointer draws from a fixed point; the first stroke after unlocking
      starts there again, so the trail is torn. */
  lemma LockingTearsTrail()
    ensures var s := Sketch(Line(5, 5, 5, 5), false, false, [Fill]);
            var pulled := Drawn(Noted(s, RelativeMotion(3, 0)), true);
            var moved := Drawn(Noted(pulled, Motion(9, 9)), false);
            moved.log == [Fill, Fill, Stroke(Line(5, 5, 8, 5)), Stroke(Line(5, 5, 9, 9))] && !Connected(moved.log)
  {
    var s := Sketch(Line(5, 5, 5, 5), false, false, [Fill]);
    var pulled := Drawn(Noted(s, RelativeMotion(3, 0)), true);
    var moved := Drawn(Noted(pulled, Motion(9, 9)), false);
    assert moved.log[2] == Stroke(Line(5, 5, 8, 5)) && moved.log[3] == Stroke(Line(5, 5, 9, 9));
  }

  // ---------- What is drawn ----------

  datatype Spot = Spot(x: int, y: int) {
    predicate Set() {
      x != -1 && y != -1
    }
  }

  /** The pointer goes to each spot in turn, and each time the surface is redrawn. */
  function Visits(spots: seq<Spot>): seq<Input> {
    if spots == [] then []
    else [Pointer(Motion(spots[0].x, spots[0].y)), Redrawn(false)] + Visits(spots[1..])
  }

  /** The polyline from a spot through the others. */
  function Polyline(from: Spot, spots: seq<Spot>): seq<Op>
    decreases |spots|
  {
    if spots == [] then []
    else [Stroke(Line(from.x, from.y, spots[0].x, spots[0].y))] + Polyline(spots[0], spots[1..])
  }

  lemma {:induction false} RunAppend(s: Sketch, a: seq<Input>, b: seq<Input>)
    ensures Run(s, a + b) == Run(Run(s, a), b)
    decreases |a|
  {
    hide Step;
    if a == [] {
      assert a + b == b;
    } else {
      assert (a + b)[1..] == a[1..] + b;
      RunAppend(Step(s, a[0]), a[1..], b);
    }
  }

  lemma {:induction false} RunTwo(s: Sketch, a: Input, b: Input)
    ensures Run(s, [a, b]) == Step(Step(s, a), b)
  {
    hide Step;
    assert [a, b][1..] == [b] && [b][1..] == [];
    assert Run(Step(s, a), [b]) == Run(Step(Step(s, a), b), []);
  }

  lemma {:induction false} VisitOne(s: Sketch, p: Spot)
    ensures Run(s, Visits([p])) ==
            Sketch(Line(p.x, p.y, p.x, p.y), false, false,
                   s.log + (if s.needsReset then [Fill] else [])
                   + (if s.line.x1 != -1 && s.line.y1 != -1
                      then [Stroke(Line(s.line.x1, s.line.y1, p.x, p.y))] else []))
  {
    assert [p][1..] == [] && Visits([p]) == [Pointer(Motion(p.x, p.y)), Redrawn(false)];
    RunTwo(s, Pointer(Motion(p.x, p.y)), Redrawn(false));
  }

  lemma {:induction false} VisitsDraw(s: Sketch, from: Spot, spots: seq<Spot>)
    requires s.line == Line(from.x, from.y, from.x, from.y) && !s.needsReset
    requires from.Set() && forall p :: p in spots ==> p.Set()
    ensures Run(s, Visits(spots)).log == s.log + Polyline(from, spots)
    decreases |spots|
  {
    if spots != [] {
      var p, rest := spots[0], spots[1..];
      assert p in spots && forall q :: q in rest ==> q in spots;
      FirstVisit(p, rest);
      assert [p] + rest == spots;
      hide Run, Visits, Step;
      RunAppend(s, Visits([p]), Visits(rest));
      VisitOne(s, p);
      var t := Run(s, Visits([p]));
      VisitsDraw(t, p, rest);
      assert Polyline(from, spots) == [Stroke(Line(from.x, from.y, p.x, p.y))] + Polyline(p, rest);
    }
  }

  /** Main result: from start-up, and again whenever the pointer has left, the
      surface is filled and then shows exactly the polyline through the spots the
      pointer is redrawn at, in order. */
  lemma {:induction false} PolylineDrawn(s: Sketch, p: Spot, spots: seq<Spot>, locked: bool)
    requires p.Set() && forall q :: q in spots ==> q.Set()
    ensures Run(INITIAL, Visits([p] + spots)).log == [Fill] + Polyline(p, spots)
    ensures Run(s, [Pointer(PointerLeave), Redrawn(locked)] + Visits([p] + spots)).log ==
            s.log + [Fill] + Polyline(p, spots)
  {
    hide Step, Polyline;
    var left := [Pointer(PointerLeave), Redrawn(locked)];
    FirstVisit(p, spots);
    FromNoLine(INITIAL, p, spots);
    RunAppend(s, left, Visits([p] + spots));
    LeavingStartsOver(s, locked);
    FromNoLine(Run(s, left), p, spots);
  }

  lemma {:induction false} FirstVisit(p: Spot, spots: seq<Spot>)
    ensures Visits([p] + spots) == Visits([p]) + Visits(spots)
  {
    assert ([p] + spots)[1..] == spots && [p][1..] == [];
  }

  lemma {:induction false} FromNoLine(s: Sketch, p: Spot, spots: seq<Spot>)
    requires s.line == NO_LINE && p.Set() && forall q :: q in spots ==> q.Set()
    ensures Run(s, Visits([p] + spots)).log == s.log + (if s.needsReset then [Fill] else []) + Polyline(p, spots)
  {
    hide Run, Visits;
    FirstVisit(p, spots);
    RunAppend(s, Visits([p]), Visits(spots));
    VisitOne(s, p);
    VisitsDraw(Run(s, Visits([p])), p, spots);
  }

  /** Leaving wipes the surface at the next redraw and lifts the pen. */
  lemma {:induction false} LeavingStartsOver(s: Sketch, locked: bool)
    ensures Run(s, [Pointer(PointerLeave), Redrawn(locked)]) ==
            Sketch(Line(-1, -1, -1, -1), false, false, s.log + [Fill])
  {
    RunTwo(s, Pointer(PointerLeave), Redrawn(locked));
  }

  /** Of several motions before a redraw only the last one counts. */
  lemma MotionsCoalesce(s: Sketch, x: int, y: int, x': int, y': int, locked: bool)
    ensures Drawn(Noted(Noted(s, Motion(x, y)), Motion(x', y')), locked) == Drawn(Noted(s, Motion(x', y')), locked)
  {
  }

  /** While locked every redraw shows one line, from where the pen rests by the
      latest relative motion; the pen stays. */
  lemma LockedShowsOneLine(s: Sketch, dx: int, dy: int, dx': int, dy': int)
    requires s.line.x1 != -1 && s.line.y1 != -1
    ensures var x, y := s.line.x1, s.line.y1;
            var t := Drawn(Noted(s, RelativeMotion(dx, dy)), true);
            && t == Sketch(Line(x, y, x + dx, y + dy), false, false,
                           s.log + [Fill, Stroke(Line(x, y, x + dx, y + dy))])
            && Drawn(Noted(t, RelativeMotion(dx', dy')), true).log ==
               t.log + [Fill, Stroke(Line(x, y, x + dx', y + dy'))]
  {
  }

  /** Locking puts the pen where the pointer is, on a surface to be wiped. */
  lemma LockingRests(s: Sketch, dx: int, dy: int)
    requires s.line.x2 != -1 && s.line.y2 != -1
    ensures var x, y := s.line.x2, s.line.y2;
            Drawn(Noted(Noted(s, PointerLocked), RelativeMotion(dx, dy)), true).log ==
            s.log + [Fill, Stroke(Line(x, y, x + dx, y + dy))]
  {
  }
}
