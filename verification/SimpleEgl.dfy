/** clients/simple-egl.c: the buffer geometry is cached behind a dirty flag.
    Every event that changes an input of the computation must set the flag; when
    it is clear, the cache and what the compositor was told are up to date.
    The fractional scale (a double) is a real. */
module SimpleEgl {
  import opened CInt
  import opened Options
  import opened Transforms

  datatype Size = Size(width: int, height: int)

  datatype Output = Output(transform: Transform, scale: int)

  type OutputId = nat

  /** What the surface and the EGL window were last told; the viewport only if it
      was ever used, the EGL window only once it exists. */
  datatype Told = Told(transform: Transform, scale: int, destination: Option<Size>, native: Option<Size>)

  datatype State = State(
    outputs: map<OutputId, Output>, entered: seq<OutputId>,
    windowSize: Size, logicalSize: Size, fullscreen: bool, maximized: bool, fullscreenRatio: bool, fractional: real,
    bufferSize: Size, bufferScale: int, bufferTransform: Transform, dirty: bool, told: Told)

  // ---------- What the geometry should be ----------

  /** The scale of the sharpest entered output, at least 1. */
  function LargestScale(outputs: map<OutputId, Output>, entered: seq<OutputId>): (r: int)
    requires Known(outputs, entered)
    ensures r >= 1
    ensures forall k :: k in entered ==> outputs[k].scale <= r
    ensures r == 1 || exists k :: k in entered && outputs[k].scale == r
  {
    if entered == [] then 1
    else
      var n := |entered| - 1;
      assert entered == entered[..n] + [entered[n]];
      var r := LargestScale(outputs, entered[..n]);
      if outputs[entered[n]].scale > r then outputs[entered[n]].scale else r
  }

  predicate Known(outputs: map<OutputId, Output>, entered: seq<OutputId>) {
    forall k :: k in entered ==> k in outputs
  }

  predicate Distinct(entered: seq<OutputId>) {
    entered == [] || (entered[0] !in entered[1..] && Distinct(entered[1..]))
  }

  function FreshTransform(s: State): Transform
    requires Linked(s)
  {
    OldestTransform(s.outputs, s.entered)
  }

  function OldestTransform(outputs: map<OutputId, Output>, entered: seq<OutputId>): Transform
    requires Known(outputs, entered)
  {
    if entered == [] then Normal else outputs[entered[0]].transform
  }

  function FreshScale(s: State): int
    requires Linked(s)
  {
    if s.fractional > 0.0 then 1 else LargestScale(s.outputs, s.entered)
  }

  function Ceil(x: real): int {
    -((-x).Floor)
  }

  function Scaled(n: int, fractional: real, scale: int): int {
    if fractional > 0.0 then Ceil(n as real * fractional) else n * scale
  }

  /** The square of a full screen shown with a fixed ratio. */
  function Cropped(z: Size, square: bool): (r: Size)
    ensures !square ==> r == z
    ensures square ==> r.width == r.height && r.width <= z.width && r.height <= z.height
                       && (r.width == z.width || r.height == z.height)
  {
    if square then Size(Min(z.width, z.height), Min(z.width, z.height)) else z
  }

  function Turned(z: Size, t: Transform): Size {
    if Swaps(t) then Size(z.height, z.width) else z
  }

  /** The logical size, turned, scaled and cropped in that order. */
  function BufferSize(logical: Size, t: Transform, fractional: real, scale: int, square: bool): Size {
    var l := Turned(logical, t);
    Cropped(Size(Scaled(l.width, fractional, scale), Scaled(l.height, fractional, scale)), square)
  }

  predicate Square(s: State) {
    s.fullscreen && s.fullscreenRatio
  }

  function FreshSize(s: State): Size
    requires Linked(s)
  {
    BufferSize(s.logicalSize, FreshTransform(s), s.fractional, FreshScale(s), Square(s))
  }

  /** Every entered output exists, and is entered once. */
  predicate Linked(s: State) {
    Known(s.outputs, s.entered) && Distinct(s.entered)
  }

  /** The cache equals a fresh computation and was sent as such. */
  predicate Coherent(s: State)
    requires Linked(s)
  {
    && s.bufferTransform == FreshTransform(s)
    && s.bufferScale == FreshScale(s)
    && s.bufferSize == FreshSize(s)
    && (s.fractional > 0.0 ==> s.told.destination == Some(Cropped(s.logicalSize, Square(s))))
  }

  /** Requests go out with every change, dirty or not. */
  predicate Synced(s: State) {
    && s.told.transform == s.bufferTransform
    && s.told.scale == s.bufferScale
    && (s.told.native.Some? ==> s.told.native.value == s.bufferSize)
    && s.bufferScale >= 1
  }

  predicate Positive(z: Size) {
    z.width > 0 && z.height > 0
  }

  predicate Sound(s: State) {
    Linked(s) && Synced(s) && Positive(s.windowSize) && Positive(s.logicalSize) && (!s.dirty ==> Coherent(s))
  }

  // ---------- Events ----------

  datatype Event =
    | OutputAdded(id: OutputId)
    | OutputRemoved(id: OutputId)
    | OutputGeometry(id: OutputId, transform: Transform)
    | OutputScale(id: OutputId, scale: int)
    | SurfaceEnter(id: OutputId)
    | SurfaceLeave(id: OutputId)
    | PreferredScale(wire: uint32)
    | Configure(width: int, height: int, isFullscreen: bool, isMaximized: bool)
    | InitGl
    | Redraw

  /** Outputs are announced once, and entered and left in turn. */
  predicate Allowed(s: State, ev: Event) {
    match ev
    case OutputAdded(id) => id !in s.outputs
    case OutputGeometry(id, _) => id in s.outputs
    case OutputScale(id, _) => id in s.outputs
    case SurfaceEnter(id) => id !in s.entered
    case _ => true
  }

  function Without(entered: seq<OutputId>, id: OutputId): seq<OutputId> {
    if entered == [] then [] else if entered[0] == id then entered[1..] else [entered[0]] + Without(entered[1..], id)
  }

  /** destroy_window_output */
  function Left(s: State, id: OutputId): State {
    if id in s.entered then s.(entered := Without(s.entered, id), dirty := true) else s
  }

  /** update_buffer_geometry */
  function Updated(s: State): State
    requires Linked(s)
  {
    s.(bufferTransform := FreshTransform(s), bufferScale := FreshScale(s), bufferSize := FreshSize(s), dirty := false,
       told := Told(FreshTransform(s), FreshScale(s),
                    if s.fractional > 0.0 then Some(Cropped(s.logicalSize, Square(s))) else s.told.destination,
                    if s.told.native.Some? then Some(FreshSize(s)) else None))
  }

  function Clean(s: State): State
    requires Linked(s)
  {
    if s.dirty then Updated(s) else s
  }

  function Step(s: State, ev: Event): State
    requires Linked(s) && Allowed(s, ev)
  {
    match ev
    case OutputAdded(id) => s.(outputs := s.outputs[id := Output(Normal, 1)])
    case OutputRemoved(id) =>
      if id in s.outputs then Left(s, id).(outputs := s.outputs - {id}) else s
    case OutputGeometry(id, transform) =>
      s.(outputs := s.outputs[id := s.outputs[id].(transform := transform)], dirty := true)
    case OutputScale(id, scale) =>
      s.(outputs := s.outputs[id := s.outputs[id].(scale := scale)], dirty := true)
    case SurfaceEnter(id) =>
      if id in s.outputs then s.(entered := s.entered + [id], dirty := true) else s
    case SurfaceLeave(id) => Left(s, id)
    case PreferredScale(wire) => s.(fractional := wire as real / 120.0, dirty := true)
    case Configure(width, height, isFullscreen, isMaximized) =>
      var t := s.(fullscreen := isFullscreen, maximized := isMaximized, dirty := true);
      if width > 0 && height > 0 then
        t.(logicalSize := Size(width, height),
           windowSize := if !isFullscreen && !isMaximized then Size(width, height) else s.windowSize)
      else if !isFullscreen && !isMaximized then t.(logicalSize := s.windowSize)
      else t
    case InitGl => var c := Clean(s); c.(told := c.told.(native := Some(c.bufferSize)))
    case Redraw => Clean(s)
  }

  /** The state main starts from, with the fullscreen options of the command line. */
  function Initial(fullscreen: bool, maximized: bool, fullscreenRatio: bool): State {
    var z := Size(250, 250);
    State(map[], [], z, z, fullscreen, maximized, fullscreenRatio, 0.0, z, 1, Normal, false,
        Told(Normal, 1, None, None))
  }

  // ---------- Coherence ----------

  lemma InitialSound(fullscreen: bool, maximized: bool, fullscreenRatio: bool)
    ensures Sound(Initial(fullscreen, maximized, fullscreenRatio))
  {
  }

  lemma {:induction false} WithoutFacts(entered: seq<OutputId>, id: OutputId)
    requires Distinct(entered)
    ensures Distinct(Without(entered, id))
    ensures forall k :: k in Without(entered, id) <==> k in entered && k != id
    decreases |entered|
  {
    if entered != [] {
      WithoutFacts(entered[1..], id);
      assert entered == [entered[0]] + entered[1..];
      assert entered[0] != id ==> Without(entered, id)[1..] == Without(entered[1..], id);
    }
  }

  lemma {:induction false} DistinctAppend(entered: seq<OutputId>, id: OutputId)
    requires Distinct(entered) && id !in entered
    ensures Distinct(entered + [id])
    decreases |entered|
  {
    if entered != [] {
      DistinctAppend(entered[1..], id);
      assert (entered + [id])[1..] == entered[1..] + [id];
    }
  }

  lemma {:induction false} WithoutAt(entered: seq<OutputId>, i: nat)
    requires i < |entered| && entered[i] !in entered[..i]
    ensures Without(entered, entered[i]) == entered[..i] + entered[i + 1..]
    decreases |entered|
  {
    if i > 0 {
      assert entered[..i] == [entered[0]] + entered[1..][..i - 1];
      WithoutAt(entered[1..], i - 1);
      assert entered[1..][i..] == entered[i + 1..];
    }
  }

  lemma UpdatedCoherent(s: State)
    requires Linked(s)
    ensures Linked(Updated(s)) && Synced(Updated(s)) && Coherent(Updated(s))
    ensures Updated(s).told.native.Some? == s.told.native.Some?
  {
    var u := Updated(s);
    assert u.entered == s.entered && u.outputs == s.outputs;
  }

  lemma {:induction false} SameScale(o: map<OutputId, Output>, p: map<OutputId, Output>, entered: seq<OutputId>)
    requires Known(o, entered) && Known(p, entered)
    requires forall k :: k in entered ==> o[k] == p[k]
    ensures LargestScale(o, entered) == LargestScale(p, entered)
    decreases |entered|
  {
    if entered != [] {
      var n := |entered| - 1;
      assert entered == entered[..n] + [entered[n]];
      SameScale(o, p, entered[..n]);
    }
  }

  /** An output that is not entered plays no part. */
  lemma UnenteredIrrelevant(s: State, outputs: map<OutputId, Output>)
    requires Linked(s) && Known(outputs, s.entered)
    requires forall k :: k in s.entered ==> outputs[k] == s.outputs[k]
    ensures Coherent(s.(outputs := outputs)) <==> Coherent(s)
  {
    hide Distinct, LargestScale, BufferSize, Cropped;
    SameScale(s.outputs, outputs, s.entered);
  }

  /** Every event keeps the cache coherent or marks it dirty. */
  lemma StepSound(s: State, ev: Event)
    requires Sound(s) && Allowed(s, ev)
    ensures Sound(Step(s, ev))
  {
    hide Coherent, Distinct, Without, Updated;
    match ev
    case OutputAdded(id) => UnenteredIrrelevant(s, s.outputs[id := Output(Normal, 1)]);
    case OutputRemoved(id) =>
      WithoutFacts(s.entered, id);
      if id !in s.entered { UnenteredIrrelevant(s, s.outputs - {id}); }
    case SurfaceEnter(id) => DistinctAppend(s.entered, id);
    case SurfaceLeave(id) => WithoutFacts(s.entered, id);
    case InitGl => CleanSound(s); NativeToldCoherent(Clean(s));
    case Redraw => CleanSound(s);
    case _ =>
  }

  lemma CleanSound(s: State)
    requires Sound(s)
    ensures Sound(Clean(s)) && !Clean(s).dirty && Coherent(Clean(s))
    ensures Clean(s).entered == s.entered && Clean(s).outputs == s.outputs
  {
    hide Coherent, Linked;
    UpdatedCoherent(s);
  }

  lemma NativeToldCoherent(s: State)
    requires Linked(s) && Coherent(s)
    ensures Coherent(s.(told := s.told.(native := Some(s.bufferSize))))
  {
    hide Distinct, LargestScale, BufferSize, Cropped;
  }

  predicate AllowedRun(s: State, events: seq<Event>)
    requires Sound(s)
    decreases |events|
  {
    events == [] || (Allowed(s, events[0]) && (StepSound(s, events[0]); AllowedRun(Step(s, events[0]), events[1..])))
  }

  function Run(s: State, events: seq<Event>): (r: State)
    requires Sound(s) && AllowedRun(s, events)
    decreases |events|
  {
    if events == [] then s
    else
      StepSound(s, events[0]);
      Run(Step(s, events[0]), events[1..])
  }

  lemma {:induction false} RunSound(s: State, events: seq<Event>)
    requires Sound(s) && AllowedRun(s, events)
    ensures Sound(Run(s, events))
    decreases |events|
  {
    hide Coherent, Synced, Step;
    if events != [] {
      StepSound(s, events[0]);
      RunSound(Step(s, events[0]), events[1..]);
    }
  }

  /** Main result: in every reachable state with the flag clear, the cached
      transform, scale and size equal a fresh computation and are what the
      compositor was last told. */
  lemma {:induction false} ReachableCoherent(s: State, events: seq<Event>)
    requires Sound(s) && AllowedRun(s, events)
    ensures var t := Run(s, events);
            && Linked(t)
            && (!t.dirty ==>
                  && t.told.transform == t.bufferTransform == FreshTransform(t)
                  && t.told.scale == t.bufferScale == FreshScale(t)
                  && t.bufferSize == FreshSize(t)
                  && (t.told.native.Some? ==> t.told.native.value == FreshSize(t)))
  {
    hide Run, AllowedRun, FreshTransform, FreshScale, FreshSize, Linked;
    RunSound(s, events);
  }

  /** A configure that gives a windowed surface a size. */
  predicate SizesWindow(ev: Event) {
    ev.Configure? && !ev.isFullscreen && !ev.isMaximized && ev.width > 0 && ev.height > 0
  }

  lemma {:induction false} WindowedSizeKept(s: State, events: seq<Event>)
    requires Sound(s) && AllowedRun(s, events)
    requires forall i :: 0 <= i < |events| ==> !SizesWindow(events[i])
    ensures Run(s, events).windowSize == s.windowSize
    decreases |events|
  {
    if events != [] {
      StepSound(s, events[0]);
      StepKeepsWindowSize(s, events[0]);
      hide Sound, Step, Allowed, SizesWindow;
      assert forall i :: 0 <= i < |events[1..]| ==> events[1..][i] == events[i + 1];
      WindowedSizeKept(Step(s, events[0]), events[1..]);
    }
  }

  lemma StepKeepsWindowSize(s: State, ev: Event)
    requires Linked(s) && Allowed(s, ev) && !SizesWindow(ev)
    ensures Step(s, ev).windowSize == s.windowSize
  {
    hide Linked, FreshTransform, FreshScale, FreshSize;
  }

  /** Whatever happens while the window is fullscreen or maximized, a configure
      that ends it without a size restores the last windowed size. */
  lemma {:induction false} LeavingFullscreenRestores(s: State, width: int, height: int, events: seq<Event>)
    requires Sound(s) && width > 0 && height > 0
    requires forall i :: 0 <= i < |events| ==> !SizesWindow(events[i])
    requires (StepSound(s, Configure(width, height, false, false));
              AllowedRun(Step(s, Configure(width, height, false, false)), events))
    ensures (StepSound(s, Configure(width, height, false, false));
             var t := Run(Step(s, Configure(width, height, false, false)), events);
             Linked(t) && Step(t, Configure(0, 0, false, false)).logicalSize == Size(width, height))
  {
    hide Run, AllowedRun, Coherent, SizesWindow;
    StepSound(s, Configure(width, height, false, false));
    RunSound(Step(s, Configure(width, height, false, false)), events);
    WindowedSizeKept(Step(s, Configure(width, height, false, false)), events);
  }

  /** After a redraw the flag is clear, so the frame is drawn at the right size. */
  lemma RedrawClean(s: State)
    requires Sound(s)
    ensures !Step(s, Redraw).dirty && Linked(Step(s, Redraw)) && Coherent(Step(s, Redraw))
  {
    CleanSound(s);
  }

  // ---------- What the compositor shows ----------

  datatype Extent = Extent(width: real, height: real)

  function Abs(x: real): real {
    if x < 0.0 then -x else x
  }

  /** The sides of the rectangle with these opposite corners. */
  function Spanned(p: Point, q: Point): Extent {
    Extent(Abs(q.x - p.x), Abs(q.y - p.y))
  }

  function AsExtent(z: Size): Extent {
    Extent(z.width as real, z.height as real)
  }

  /** The size of the surface, as the compositor derives it from what it was told:
      the viewport's destination if one was ever set, else the buffer, corner by
      corner turned back, and divided by its scale. */
  function ShownSize(s: State): Extent
    requires s.told.scale >= 1
  {
    if s.told.destination.Some? then AsExtent(s.told.destination.value)
    else
      var t, w, h, k := s.told.transform, s.bufferSize.width as real, s.bufferSize.height as real, s.told.scale as real;
      var z := Spanned(Unplace(t, w, h, ORIGIN), Unplace(t, w, h, Point(w, h)));
      Extent(z.width / k, z.height / k)
  }

  lemma DivideMultiple(n: int, m: int)
    requires m >= 1
    ensures (n * m) as real / m as real == n as real
  {
    var q, k := (n * m) as real / m as real, m as real;
    assert q * k == n as real * k;
    assert (q - n as real) * k == 0.0;
  }

  lemma MinOfMultiples(a: int, b: int, m: int)
    requires m >= 1
    ensures Min(a * m, b * m) == Min(a, b) * m
  {
    assert a <= b ==> a * m <= b * m;
    assert a >= b ==> a * m >= b * m;
  }

  /** Turning the buffer back undoes the turning of the logical size. */
  lemma TurnedBack(z: Size, t: Transform, scale: int, square: bool)
    requires scale >= 1 && Positive(z)
    ensures var y, c := BufferSize(z, t, 0.0, scale, square), Cropped(z, square);
            var w, h := y.width as real, y.height as real;
            Spanned(Unplace(t, w, h, ORIGIN), Unplace(t, w, h, Point(w, h))) ==
            Extent((c.width * scale) as real, (c.height * scale) as real)
  {
    MinOfMultiples(z.width, z.height, scale);
    MinOfMultiples(z.height, z.width, scale);
    var y := BufferSize(z, t, 0.0, scale, square);
    MultiplePositive(z.width, scale);
    MultiplePositive(z.height, scale);
    CornersBack(t, y.width as real, y.height as real);
  }

  lemma MultiplePositive(n: int, m: int)
    requires n > 0 && m >= 1
    ensures n * m > 0
  {
  }

  lemma CornersBack(t: Transform, w: real, h: real)
    requires w > 0.0 && h > 0.0
    ensures Spanned(Unplace(t, w, h, ORIGIN), Unplace(t, w, h, Point(w, h))) ==
            if Swaps(t) then Extent(h, w) else Extent(w, h)
  {
  }

  lemma ScaleOnly(z: Size, t: Transform, fractional: real, scale: int, square: bool)
    requires fractional <= 0.0
    ensures BufferSize(z, t, fractional, scale, square) == BufferSize(z, t, 0.0, scale, square)
  {
  }

  /** With the flag clear the surface shows at its logical size, unless the
      fractional scale went away while a viewport destination is set: then it
      shows at that destination. */
  lemma ShownAtLogicalSize(s: State)
    requires Sound(s) && !s.dirty
    ensures s.told.destination == None || s.fractional > 0.0 ==>
              ShownSize(s) == AsExtent(Cropped(s.logicalSize, Square(s)))
    ensures s.told.destination != None && s.fractional <= 0.0 ==> ShownSize(s) == AsExtent(s.told.destination.value)
  {
    hide Distinct, LargestScale, Cropped, BufferSize, Turned, Unplace, Spanned;
    if s.fractional <= 0.0 {
      var c := Cropped(s.logicalSize, Square(s));
      TurnedBack(s.logicalSize, s.bufferTransform, s.bufferScale, Square(s));
      ScaleOnly(s.logicalSize, s.bufferTransform, s.fractional, s.bufferScale, Square(s));
      DivideMultiple(c.width, s.bufferScale);
      DivideMultiple(c.height, s.bufferScale);
    }
  }

  /** The wire carries 120ths; the protocol has no scale of zero. */
  predicate PositiveScales(events: seq<Event>) {
    forall i :: 0 <= i < |events| && events[i].PreferredScale? ==> events[i].wire > 0
  }

  lemma StepKeepsViewport(s: State, ev: Event)
    requires Sound(s) && Allowed(s, ev) && (ev.PreferredScale? ==> ev.wire > 0)
    requires s.told.destination != None ==> s.fractional > 0.0
    ensures Step(s, ev).told.destination != None ==> Step(s, ev).fractional > 0.0
  {
    hide Distinct, LargestScale, BufferSize, Cropped, Without;
    if ev.PreferredScale? { assert ev.wire as real / 120.0 > 0.0; }
  }

  lemma {:induction false} RunKeepsViewport(s: State, events: seq<Event>)
    requires Sound(s) && AllowedRun(s, events) && PositiveScales(events)
    requires s.told.destination != None ==> s.fractional > 0.0
    ensures Run(s, events).told.destination != None ==> Run(s, events).fractional > 0.0
    decreases |events|
  {
    if events != [] {
      StepSound(s, events[0]);
      StepKeepsViewport(s, events[0]);
      assert forall i :: 0 <= i < |events[1..]| ==> events[1..][i] == events[i + 1];
      RunKeepsViewport(Step(s, events[0]), events[1..]);
    }
  }

  /** Main result: from start-up, whatever outputs, scales and configures follow,
      a frame drawn with the flag clear shows at the window's logical size. */
  lemma {:induction false} EveryRunShowsLogicalSize(fullscreen: bool, maximized: bool, fullscreenRatio: bool,
      events: seq<Event>)
    requires PositiveScales(events)
    requires (InitialSound(fullscreen, maximized, fullscreenRatio);
              AllowedRun(Initial(fullscreen, maximized, fullscreenRatio), events))
    ensures (InitialSound(fullscreen, maximized, fullscreenRatio);
             var t := Run(Initial(fullscreen, maximized, fullscreenRatio), events);
             Sound(t) && (!t.dirty ==> ShownSize(t) == AsExtent(Cropped(t.logicalSize, Square(t)))))
  {
    hide AllowedRun, Run, Coherent, Distinct, ShownSize;
    var s := Initial(fullscreen, maximized, fullscreenRatio);
    InitialSound(fullscreen, maximized, fullscreenRatio);
    RunSound(s, events);
    RunKeepsViewport(s, events);
    var t := Run(s, events);
    if !t.dirty { ShownAtLogicalSize(t); }
  }

  /** The event updates the geometry while a fractional scale is in force. */
  predicate Sends(s: State, ev: Event) {
    (ev.Redraw? || ev.InitGl?) && s.dirty && s.fractional > 0.0
  }

  /** Some event of the run does. */
  predicate SomeSends(s: State, events: seq<Event>)
    requires Sound(s) && AllowedRun(s, events)
    decreases |events|
  {
    events != [] && (Sends(s, events[0]) || (StepSound(s, events[0]); SomeSends(Step(s, events[0]), events[1..])))
  }

  /** The fractional scale after the run: the last one preferred. */
  function FinalScale(fractional: real, events: seq<Event>): real
    decreases |events|
  {
    if events == [] then fractional
    else FinalScale(if events[0].PreferredScale? then events[0].wire as real / 120.0 else fractional, events[1..])
  }

  lemma StepViewport(s: State, ev: Event)
    requires Sound(s) && Allowed(s, ev)
    ensures Step(s, ev).told.destination != None <==> s.told.destination != None || Sends(s, ev)
    ensures Step(s, ev).fractional == if ev.PreferredScale? then ev.wire as real / 120.0 else s.fractional
  {
    hide Linked, FreshTransform, FreshScale, FreshSize, Without, Coherent, Synced;
  }

  lemma {:induction false} RunViewport(s: State, events: seq<Event>)
    requires Sound(s) && AllowedRun(s, events)
    ensures Run(s, events).told.destination != None <==> s.told.destination != None || SomeSends(s, events)
    ensures Run(s, events).fractional == FinalScale(s.fractional, events)
    decreases |events|
  {
    if events != [] {
      StepSound(s, events[0]);
      StepViewport(s, events[0]);
      hide Sound, Step, Sends;
      RunViewport(Step(s, events[0]), events[1..]);
    }
  }

  /** Main result: exactly when the size shown is a stale one.  With the flag clear
      the window shows at its logical size unless the last scale preferred is zero
      although an earlier update sent a viewport destination; then that
      destination stays in force, right or wrong. */
  lemma {:induction false} StaleDestinationIff(fullscreen: bool, maximized: bool, fullscreenRatio: bool,
      events: seq<Event>)
    requires (InitialSound(fullscreen, maximized, fullscreenRatio);
              AllowedRun(Initial(fullscreen, maximized, fullscreenRatio), events))
    ensures (InitialSound(fullscreen, maximized, fullscreenRatio);
             var s := Initial(fullscreen, maximized, fullscreenRatio);
             var t := Run(s, events);
             var stale := FinalScale(0.0, events) <= 0.0 && SomeSends(s, events);
             && Sound(t)
             && (stale <==> t.told.destination != None && t.fractional <= 0.0)
             && (!t.dirty ==>
                   ShownSize(t) ==
                   AsExtent(if stale then t.told.destination.value else Cropped(t.logicalSize, Square(t)))))
  {
    hide AllowedRun, Run, Coherent, Distinct, ShownSize;
    var s := Initial(fullscreen, maximized, fullscreenRatio);
    InitialSound(fullscreen, maximized, fullscreenRatio);
    RunSound(s, events);
    RunViewport(s, events);
    var t := Run(s, events);
    if !t.dirty { ShownAtLogicalSize(t); }
  }

  /** Without a fractional scale the viewport is never set again: after a
      preferred scale of zero a stale destination stays behind. */
  lemma DestinationCanBeStale(s: State, wire: uint32, side: int)
    requires Sound(s) && wire > 0 && side > 0 && s.logicalSize != Size(side, side)
    requires !s.fullscreen && !s.maximized
    ensures var t := Step(Step(Step(Step(Step(s, PreferredScale(wire)), Redraw), PreferredScale(0)),
                               Configure(side, side, false, false)), Redraw);
            !t.dirty && t.logicalSize == Size(side, side) && t.told.destination == Some(s.logicalSize)
  {
    assert wire as real / 120.0 > 0.0;
  }

  // ---------- The window ----------

  function Turning(s: State, transform: Transform): State {
    s.(bufferTransform := transform, told := s.told.(transform := transform))
  }

  function Scaling(s: State, scale: int): State {
    s.(bufferScale := scale, told := s.told.(scale := scale))
  }

  function Resized(s: State, size: Size): State {
    s.(bufferSize := size, told := s.told.(native := if s.told.native.Some? then Some(size) else None))
  }

  function Shown(s: State, destination: Size): State {
    if s.fractional > 0.0 then s.(told := s.told.(destination := Some(destination))) else s
  }

  predicate NativeTold(s: State) {
    s.told.native.Some? ==> s.told.native.value == s.bufferSize
  }

  lemma SoundTold(s: State)
    requires Sound(s)
    ensures Linked(s) && NativeTold(s)
  {
  }

  lemma TurningKeeps(s: State, transform: Transform)
    requires Linked(s)
    ensures var t := Turning(s, transform);
            && Linked(t) && FreshScale(t) == FreshScale(s) && t.told.scale == s.told.scale
            && t.bufferScale == s.bufferScale
            && (NativeTold(s) ==> NativeTold(t)) && t.told.native.Some? == s.told.native.Some?
  {
  }

  lemma ScalingKeeps(s: State, scale: int)
    requires Linked(s)
    ensures var t := Scaling(s, scale);
            Linked(t) && (NativeTold(s) ==> NativeTold(t)) && t.told.native.Some? == s.told.native.Some?
  {
  }

  /** The order in which update_buffer_geometry works does not matter. */
  lemma UpdatedInSteps(s: State)
    requires Linked(s)
    ensures var t := Scaling(Turning(s, FreshTransform(s)), FreshScale(s));
            && FreshSize(s) == BufferSize(t.logicalSize, t.bufferTransform, t.fractional, t.bufferScale, Square(t))
            && var u := Resized(t, FreshSize(s));
               Updated(s) == Shown(u, Cropped(u.logicalSize, Square(u))).(dirty := false)
  {
  }

  class Window {
    var outputs: map<OutputId, Output>
    var windowOutputs: seq<OutputId>
    var windowSize: Size
    var logicalSize: Size
    var fullscreen: bool
    var maximized: bool
    var fullscreenRatio: bool
    var fractionalScale: real
    var bufferSize: Size
    var bufferScale: int
    var bufferTransform: Transform
    var needsUpdate: bool
    var native: bool
    /** The requests sent so far, in effect. */
    ghost var told: Told

    ghost function View(): State
      reads this
    {
      State(outputs, windowOutputs, windowSize, logicalSize, fullscreen, maximized, fullscreenRatio, fractionalScale,
            bufferSize, bufferScale, bufferTransform, needsUpdate, told)
    }

    ghost predicate Valid()
      reads this
    {
      Sound(View()) && native == told.native.Some?
    }

    constructor (fullscreen: bool, maximized: bool, fullscreenRatio: bool)
      ensures Valid() && View() == Initial(fullscreen, maximized, fullscreenRatio)
    {
      outputs, windowOutputs := map[], [];
      windowSize, logicalSize, bufferSize := Size(250, 250), Size(250, 250), Size(250, 250);
      this.fullscreen, this.maximized, this.fullscreenRatio := fullscreen, maximized, fullscreenRatio;
      fractionalScale, bufferScale, bufferTransform := 0.0, 1, Normal;
      needsUpdate, native, told := false, false, Told(Normal, 1, None, None);
      new;
      InitialSound(fullscreen, maximized, fullscreenRatio);
    }

    /** compute_buffer_scale: the loop's accumulator ends at the largest scale. */
    method ComputeBufferScale() returns (scale: int)
      requires Known(outputs, windowOutputs)
      ensures scale == LargestScale(outputs, windowOutputs)
    {
      hide Distinct;
      scale := 1;
      var i := 0;
      while i < |windowOutputs|
        invariant 0 <= i <= |windowOutputs|
        invariant Known(outputs, windowOutputs[..i]) && scale == LargestScale(outputs, windowOutputs[..i])
      {
        assert windowOutputs[..i + 1] == windowOutputs[..i] + [windowOutputs[i]];
        assert windowOutputs[..i + 1][..i] == windowOutputs[..i];
        if outputs[windowOutputs[i]].scale > scale {
          scale := outputs[windowOutputs[i]].scale;
        }
        i := i + 1;
      }
      assert windowOutputs[..i] == windowOutputs;
    }

    /** compute_buffer_transform: the loop breaks at the oldest entered output. */
    method ComputeBufferTransform() returns (transform: Transform)
      requires Linked(View())
      ensures transform == FreshTransform(View())
    {
      transform := Normal;
      if windowOutputs != [] {
        transform := outputs[windowOutputs[0]].transform;
      }
    }

    /** update_buffer_geometry: requests go out only for what changed, yet the
        cache and what was told end at the fresh values. */
    method UpdateBufferGeometry()
      requires Valid()
      modifies this
      ensures Valid() && View() == Updated(old(View()))
    {
      hide FreshTransform, FreshScale, FreshSize, Coherent, Linked, Updated, Turning, Scaling, Resized, Shown,
          NativeTold;
      ghost var was := View();
      assert Linked(was) && NativeTold(was) by { SoundTold(was); }
      UpdatedCoherent(was);
      UpdatedInSteps(was);
      TurningKeeps(was, FreshTransform(was));
      ScalingKeeps(Turning(was, FreshTransform(was)), FreshScale(was));
      SendTransform();
      SendScale();
      var size, destination := NewSize();
      Resize(size);
      SendDestination(destination);
      needsUpdate := false;
    }

    method SendDestination(destination: Size)
      modifies `told
      ensures View() == Shown(old(View()), destination)
    {
      if fractionalScale > 0.0 {
        told := told.(destination := Some(destination));
      }
    }

    method Resize(size: Size)
      requires native == told.native.Some? && NativeTold(View())
      modifies `bufferSize, `told
      ensures View() == Resized(old(View()), size)
    {
      if bufferSize.width != size.width || bufferSize.height != size.height {
        bufferSize := size;
        if native {
          told := told.(native := Some(bufferSize));
        }
      }
    }

    method SendTransform()
      requires Linked(View()) && told.transform == bufferTransform
      modifies `bufferTransform, `told
      ensures View() == Turning(old(View()), FreshTransform(old(View())))
    {
      var transform := ComputeBufferTransform();
      if bufferTransform != transform {
        bufferTransform := transform;
        told := told.(transform := bufferTransform);
      }
    }

    method SendScale()
      requires Linked(View()) && told.scale == bufferScale >= 1
      modifies `bufferScale, `told
      ensures View() == Scaling(old(View()), FreshScale(old(View())))
    {
      if fractionalScale > 0.0 {
        if bufferScale > 1 {
          bufferScale := 1;
          told := told.(scale := bufferScale);
        }
      } else {
        var scale := ComputeBufferScale();
        if bufferScale != scale {
          bufferScale := scale;
          told := told.(scale := bufferScale);
        }
      }
    }

    /** The arithmetic of update_buffer_geometry, on the transform and scale just
        computed. */
    method NewSize() returns (size: Size, destination: Size)
      ensures var s := View();
              size == BufferSize(s.logicalSize, s.bufferTransform, s.fractional, s.bufferScale, Square(s))
      ensures destination == Cropped(logicalSize, Square(View()))
    {
      size := if Swaps(bufferTransform) then Size(logicalSize.height, logicalSize.width) else logicalSize;
      if fractionalScale > 0.0 {
        size := Size(Ceil(size.width as real * fractionalScale), Ceil(size.height as real * fractionalScale));
      } else {
        size := Size(size.width * bufferScale, size.height * bufferScale);
      }
      destination := logicalSize;
      if fullscreen && fullscreenRatio {
        size := Size(Min(size.width, size.height), Min(size.width, size.height));
        destination := Size(Min(logicalSize.width, logicalSize.height), Min(logicalSize.width, logicalSize.height));
      }
    }

    method OutputAdded(id: OutputId)
      requires Valid() && id !in outputs
      modifies this
      ensures Valid() && View() == Step(old(View()), Event.OutputAdded(id))
    {
      hide Coherent, Synced, Distinct, LargestScale, Updated;
      StepSound(View(), Event.OutputAdded(id));
      outputs := outputs[id := Output(Normal, 1)];
    }

    /** destroy_window_output: a search of the list, then an unlink. */
    method DestroyWindowOutput(id: OutputId)
      requires Linked(View())
      modifies `windowOutputs, `needsUpdate
      ensures View() == Left(old(View()), id)
    {
      var i := 0;
      while i < |windowOutputs| && windowOutputs[i] != id
        invariant 0 <= i <= |windowOutputs|
        invariant id !in windowOutputs[..i]
      {
        assert windowOutputs[..i + 1] == windowOutputs[..i] + [windowOutputs[i]];
        i := i + 1;
      }
      if i < |windowOutputs| {
        WithoutAt(windowOutputs, i);
        windowOutputs := windowOutputs[..i] + windowOutputs[i + 1..];
        needsUpdate := true;
      } else {
        assert windowOutputs[..i] == windowOutputs;
      }
    }

    method OutputRemoved(id: OutputId)
      requires Valid()
      modifies this
      ensures Valid() && View() == Step(old(View()), Event.OutputRemoved(id))
    {
      hide Coherent, Synced, Distinct, LargestScale, Updated;
      StepSound(View(), Event.OutputRemoved(id));
      if id in outputs {
        DestroyWindowOutput(id);
        outputs := outputs - {id};
      }
    }

    method OutputGeometry(id: OutputId, transform: Transform)
      requires Valid() && id in outputs
      modifies this
      ensures Valid() && View() == Step(old(View()), Event.OutputGeometry(id, transform))
    {
      hide Coherent, Synced, Linked, LargestScale, Updated;
      StepSound(View(), Event.OutputGeometry(id, transform));
      outputs := outputs[id := outputs[id].(transform := transform)];
      needsUpdate := true;
    }

    method OutputScale(id: OutputId, scale: int)
      requires Valid() && id in outputs
      modifies this
      ensures Valid() && View() == Step(old(View()), Event.OutputScale(id, scale))
    {
      hide Coherent, Synced, Linked, LargestScale, Updated;
      StepSound(View(), Event.OutputScale(id, scale));
      outputs := outputs[id := outputs[id].(scale := scale)];
      needsUpdate := true;
    }

    method SurfaceEnter(id: OutputId)
      requires Valid() && id !in windowOutputs
      modifies this
      ensures Valid() && View() == Step(old(View()), Event.SurfaceEnter(id))
    {
      hide Coherent, Synced, Distinct, LargestScale, Updated;
      StepSound(View(), Event.SurfaceEnter(id));
      if id in outputs {
        windowOutputs := windowOutputs + [id];
        needsUpdate := true;
      }
    }

    method SurfaceLeave(id: OutputId)
      requires Valid()
      modifies this
      ensures Valid() && View() == Step(old(View()), Event.SurfaceLeave(id))
    {
      hide Coherent, Synced, Distinct, LargestScale, Updated;
      StepSound(View(), Event.SurfaceLeave(id));
      DestroyWindowOutput(id);
    }

    method PreferredScale(wire: uint32)
      requires Valid()
      modifies this
      ensures Valid() && View() == Step(old(View()), Event.PreferredScale(wire))
    {
      hide Coherent, Synced, Linked, LargestScale, Updated;
      StepSound(View(), Event.PreferredScale(wire));
      fractionalScale := wire as real / 120.0;
      needsUpdate := true;
    }

    method Configure(width: int, height: int, isFullscreen: bool, isMaximized: bool)
      requires Valid()
      modifies this
      ensures Valid() && View() == Step(old(View()), Event.Configure(width, height, isFullscreen, isMaximized))
    {
      hide Sound, Coherent, Synced, Linked, LargestScale, Updated;
      StepSound(View(), Event.Configure(width, height, isFullscreen, isMaximized));
      fullscreen, maximized := isFullscreen, isMaximized;
      NoteSize(width, height);
      needsUpdate := true;
    }

    method NoteSize(width: int, height: int)
      modifies `windowSize, `logicalSize
      ensures windowSize ==
              if width > 0 && height > 0 && !fullscreen && !maximized then Size(width, height) else old(windowSize)
      ensures logicalSize ==
              if width > 0 && height > 0 then Size(width, height)
              else if !fullscreen && !maximized then old(windowSize) else old(logicalSize)
    {
      if width > 0 && height > 0 {
        if !fullscreen && !maximized {
          windowSize := Size(width, height);
        }
        logicalSize := Size(width, height);
      } else if !fullscreen && !maximized {
        logicalSize := windowSize;
      }
    }

    method InitGl()
      requires Valid()
      modifies this
      ensures Valid() && View() == Step(old(View()), Event.InitGl)
    {
      hide Coherent, Linked, LargestScale, Updated;
      StepSound(View(), Event.InitGl);
      if needsUpdate {
        UpdateBufferGeometry();
      }
      native := true;
      told := told.(native := Some(bufferSize));
    }

    method Redraw()
      requires Valid()
      modifies this
      ensures Valid() && View() == Step(old(View()), Event.Redraw) && !needsUpdate
    {
      CleanSound(View());
      if needsUpdate {
        UpdateBufferGeometry();
      }
    }
  }
}
