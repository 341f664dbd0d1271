/** What the events of clients/simple-egl.c do to the picture: the buffer against
    the map of its transform, and who decides transform, scale and size. */
module EglMeaning {
  import opened CInt
  import opened Options
  import opened Transforms
  import opened SimpleEgl

  // ---------- The buffer holds the surface ----------

  function Times(p: Point, k: int): Point {
    Point(p.x * k as real, p.y * k as real)
  }

  lemma TimesOrder(v: real, n: int, k: int, u: real, m: int)
    requires k >= 1 && u == v * k as real && m == n * k
    ensures 0.0 <= v <= n as real <==> 0.0 <= u <= m as real
  {
    var d := n as real - v;
    assert m as real - u == d * k as real;
    NonNegativeTimes(v, k as real);
    NonNegativeTimes(d, k as real);
  }

  lemma NonNegativeTimes(d: real, k: real)
    requires k > 0.0
    ensures d >= 0.0 <==> d * k >= 0.0
  {
  }

  /** With the flag clear, the size is that of the transform and scale told. */
  lemma SizeTold(s: State)
    requires Sound(s) && !s.dirty
    ensures s.told.transform == s.bufferTransform && s.told.scale == s.bufferScale >= 1
    ensures s.bufferSize == BufferSize(s.logicalSize, s.bufferTransform, s.fractional, s.bufferScale, Square(s))
  {
    hide Distinct, LargestScale, BufferSize, Cropped;
  }

  lemma RectangleFills(z: Size, t: Transform, k: int, p: Point, b: Size)
    requires k >= 1
    requires b.width == (if Swaps(t) then z.height else z.width) * k
    requires b.height == (if Swaps(t) then z.width else z.height) * k
    ensures var w, h := z.width as real, z.height as real;
            InRect(p, w, h) <==> InRect(Times(Place(t, w, h, p), k), b.width as real, b.height as real)
  {
    var w, h := z.width as real, z.height as real;
    var q := Place(t, w, h, p);
    var r := Times(q, k);
    PlaceUnplace(t, w, h, p);
    TimesOrder(q.x, if Swaps(t) then z.height else z.width, k, r.x, b.width);
    TimesOrder(q.y, if Swaps(t) then z.width else z.height, k, r.y, b.height);
    hide Place, Times;
    assert InRect(p, w, h) <==> InRect(q, BufferWide(t, w, h), BufferHigh(t, w, h));
  }

  /** Main result: with the flag clear and no fractional scale the map of the
      transform, times the scale, carries the logical rectangle exactly onto the
      buffer: a point is in the one iff its image is in the other. */
  lemma SurfaceFillsBuffer(s: State, p: Point)
    requires Sound(s) && !s.dirty && s.fractional <= 0.0 && !(s.fullscreen && s.fullscreenRatio)
    ensures var w, h := s.logicalSize.width as real, s.logicalSize.height as real;
            InRect(p, w, h) <==>
            InRect(Times(Place(s.told.transform, w, h, p), s.told.scale),
                   s.bufferSize.width as real, s.bufferSize.height as real)
  {
    hide Sound, Place, Times, InRect;
    SizeTold(s);
    RectangleFills(s.logicalSize, s.bufferTransform, s.bufferScale, p, s.bufferSize);
  }

  /** The sides of the logical rectangle as the transform lays it into the buffer. */
  function Laid(s: State): Extent {
    var t, w, h := s.bufferTransform, s.logicalSize.width as real, s.logicalSize.height as real;
    Spanned(Place(t, w, h, ORIGIN), Place(t, w, h, Point(w, h)))
  }

  lemma CornersLaid(t: Transform, w: real, h: real)
    requires w > 0.0 && h > 0.0
    ensures Spanned(Place(t, w, h, ORIGIN), Place(t, w, h, Point(w, h))) ==
            if Swaps(t) then Extent(h, w) else Extent(w, h)
  {
  }

  /** Enough pixels for the length at that scale, and less than one to spare. */
  predicate Fits(pixels: int, length: real, fractional: real) {
    length * fractional <= pixels as real < length * fractional + 1.0
  }

  lemma SideFits(n: int, f: real, k: int)
    requires f > 0.0
    ensures Fits(Scaled(n, f, k), n as real, f)
  {
  }

  lemma ShorterFits(a: int, b: int, f: real, k: int)
    requires f > 0.0
    ensures Fits(Min(Scaled(a, f, k), Scaled(b, f, k)), Min(a, b) as real, f)
  {
    var x, y := a as real * f, b as real * f;
    NonNegativeTimes((b - a) as real, f);
    assert (b - a) as real * f == y - x;
    SideFits(a, f, k);
    SideFits(b, f, k);
  }

  /** The shorter side. */
  function Shorter(l: Extent): real {
    if l.width <= l.height then l.width else l.height
  }

  /** Under a fractional scale each side of the buffer has just enough whole pixels
      for the side laid along it, or for the shorter one if a square is shown. */
  lemma FractionalBufferFits(s: State)
    requires Sound(s) && !s.dirty && s.fractional > 0.0
    ensures var l, f, z := Laid(s), s.fractional, s.bufferSize;
            if s.fullscreen && s.fullscreenRatio then z.width == z.height && Fits(z.width, Shorter(l), f)
            else Fits(z.width, l.width, f) && Fits(z.height, l.height, f)
  {
    SizeTold(s);
    assert Positive(s.logicalSize);
    var z, f, k := SimpleEgl.Turned(s.logicalSize, s.bufferTransform), s.fractional, s.bufferScale;
    hide Sound, Place, Spanned, Scaled, Fits;
    CornersLaid(s.bufferTransform, s.logicalSize.width as real, s.logicalSize.height as real);
    SideFits(z.width, f, k);
    SideFits(z.height, f, k);
    ShorterFits(z.width, z.height, f, k);
  }

  // ---------- Who decides ----------

  /** The event takes the output off the list of entered ones. */
  predicate Drops(ev: Event, id: OutputId) {
    ev == SurfaceLeave(id) || ev == OutputRemoved(id)
  }

  /** What the compositor last said about the output. */
  function LastSaid(o: Output, events: seq<Event>, id: OutputId): Output
    decreases |events|
  {
    if events == [] then o
    else
      var ev := events[0];
      LastSaid(if ev.OutputGeometry? && ev.id == id then o.(transform := ev.transform)
               else if ev.OutputScale? && ev.id == id then o.(scale := ev.scale)
               else o,
               events[1..], id)
  }

  /** Entering puts an output behind those entered before, also at first sight. */
  lemma EnteringQueues(s: State, id: OutputId)
    requires Linked(s) && id !in s.entered
    ensures id in s.outputs ==> Step(s, SurfaceEnter(id)).entered == s.entered + [id]
    ensures id !in s.outputs ==>
              var t := Step(Step(s, OutputAdded(id)), SurfaceEnter(id));
              t.entered == s.entered + [id] && t.outputs[id] == Output(Normal, 1)
  {
  }

  /** Dropping an output takes out that one; the others stay in their order. */
  lemma DroppingUnlinks(s: State, ev: Event, before: seq<OutputId>, id: OutputId, after: seq<OutputId>)
    requires Linked(s) && Drops(ev, id) && s.entered == before + [id] + after && id !in before
    ensures var t := Step(s, ev);
            && t.entered == before + after
            && (forall k :: k in s.outputs && k != id ==> k in t.outputs && t.outputs[k] == s.outputs[k])
            && (ev.OutputRemoved? ==> id !in t.outputs)
  {
    assert s.entered[..|before|] == before && s.entered[|before|] == id && s.entered[|before| + 1..] == after;
    WithoutAt(s.entered, |before|);
  }

  lemma {:induction false} OldestStays(s: State, ev: Event, id: OutputId)
    requires Sound(s) && Allowed(s, ev) && !Drops(ev, id)
    requires s.entered != [] && s.entered[0] == id
    ensures var t := Step(s, ev);
            && t.entered != [] && t.entered[0] == id && id in t.outputs
            && t.outputs[id] == LastSaid(s.outputs[id], [ev], id)
  {
    hide Distinct, LargestScale, BufferSize, Coherent, Synced;
    assert [ev][1..] == [];
  }

  /** Main result: while the oldest entered output stays, the buffer's transform is
      the one last announced for it, whatever other outputs come, go or announce. */
  lemma {:induction false} OldestDecides(s: State, events: seq<Event>, id: OutputId)
    requires Sound(s) && AllowedRun(s, events) && forall i :: 0 <= i < |events| ==> !Drops(events[i], id)
    requires s.entered != [] && s.entered[0] == id
    ensures id in s.outputs
    ensures var t, o := Run(s, events), LastSaid(s.outputs[id], events, id);
            && t.entered != [] && t.entered[0] == id && id in t.outputs && t.outputs[id] == o
            && (!t.dirty ==> t.told.transform == o.transform)
    decreases |events|
  {
    if events != [] {
      StepSound(s, events[0]);
      OldestStays(s, events[0], id);
      assert [events[0]][1..] == [];
      assert forall i :: 0 <= i < |events[1..]| ==> events[1..][i] == events[i + 1];
      hide Step, Sound, Drops, Coherent;
      OldestDecides(Step(s, events[0]), events[1..], id);
    }
  }

  /** The scale told is the largest the entered outputs announced, never below 1;
      under a fractional scale it is 1. */
  lemma SharpestDecides(s: State)
    requires Sound(s) && !s.dirty
    ensures s.fractional > 0.0 ==> s.told.scale == 1
    ensures s.fractional <= 0.0 ==>
              && s.told.scale >= 1 && (forall id :: id in s.entered ==> s.outputs[id].scale <= s.told.scale)
              && (s.told.scale == 1 || exists id :: id in s.entered && s.outputs[id].scale == s.told.scale)
  {
  }

  /** A configure with a size, be it fullscreen, maximized or neither: the next
      frame shows at that size, or at the square of its smaller side. */
  lemma ConfiguredSizeShown(s: State, width: int, height: int, isFullscreen: bool, isMaximized: bool)
    requires Sound(s) && width > 0 && height > 0 && (s.told.destination == None || s.fractional > 0.0)
    ensures var r := Step(Step(s, Configure(width, height, isFullscreen, isMaximized)), Redraw);
            var side := if width <= height then width else height;
            && r.fullscreen == isFullscreen && r.maximized == isMaximized && r.told.scale >= 1
            && ShownSize(r) == (if isFullscreen && s.fullscreenRatio then Extent(side as real, side as real)
                                else Extent(width as real, height as real))
            && r.windowSize == (if isFullscreen || isMaximized then s.windowSize else Size(width, height))
  {
    hide Coherent, Linked, Updated, FreshSize, FreshScale, FreshTransform, ShownSize;
    var c := Configure(width, height, isFullscreen, isMaximized);
    StepSound(s, c);
    var t := Step(s, c);
    StepSound(t, Redraw);
    CleanKeeps(t);
    ShownAtLogicalSize(Step(t, Redraw));
  }

  lemma CleanKeeps(s: State)
    requires Linked(s)
    ensures var r := Step(s, Redraw);
            && !r.dirty && r.fullscreen == s.fullscreen && r.maximized == s.maximized
            && r.logicalSize == s.logicalSize && r.windowSize == s.windowSize && r.fractional == s.fractional
            && r.fullscreenRatio == s.fullscreenRatio
            && (s.fractional <= 0.0 ==> r.told.destination == s.told.destination)
  {
    hide FreshSize, FreshScale, FreshTransform;
  }

  /** Without a size, a window that stays fullscreen or maximized keeps its own. */
  lemma UnsizedConfigureKeeps(s: State, width: int, height: int, isFullscreen: bool, isMaximized: bool)
    requires Linked(s) && (width <= 0 || height <= 0)
    ensures var r := Step(s, Configure(width, height, isFullscreen, isMaximized));
            && r.logicalSize == (if isFullscreen || isMaximized then s.logicalSize else s.windowSize)
            && r.windowSize == s.windowSize && r.fullscreen == isFullscreen && r.maximized == isMaximized
  {
  }

  /** The EGL window exists from its creation on, at the size of the buffer as a
      fresh computation gives it. */
  lemma {:induction false} NativeFollows(s: State, events: seq<Event>)
    requires Sound(s) && AllowedRun(s, events + [InitGl])
    ensures AllowedRun(s, events)
    ensures var t := Run(s, events);
            && Linked(t) && Step(t, InitGl).told.native == Some(Step(t, InitGl).bufferSize) && !Step(t, InitGl).dirty
    decreases |events|
  {
    if events == [] {
    } else {
      assert (events + [InitGl])[1..] == events[1..] + [InitGl];
      StepSound(s, events[0]);
      NativeFollows(Step(s, events[0]), events[1..]);
    }
  }
}
