/** clients/simple-shm.c: a window keeps a list of shared-memory buffers that
    grows when the window is configured and is pruned of old sizes.  The buffer
    it picks must always fit. */
module SimpleShm {
  import opened CInt
  import opened Painting

  const MAX_BUFFER_ALLOC := 2

  /** A buffer as the list holds it; `mapped` is "its wl_buffer exists". */
  datatype Info = Info(busy: bool, width: int, height: int, mapped: bool, size: int)

  datatype State = State(
    width: int, height: int, initWidth: int, initHeight: int,
    fullscreen: bool, maximized: bool, needsUpdate: bool,
    bytes: nat, buffers: seq<Info>)

  // ---------- The operations on values ----------

  function Fresh(width: int, height: int): Info {
    Info(false, width, height, false, 0)
  }

  predicate Fits(b: Info, width: int, height: int) {
    b.width == width && b.height == height
  }

  /** prune_old_released_buffers */
  function Pruned(bs: seq<Info>, width: int, height: int): seq<Info> {
    if bs == [] then []
    else (if !bs[0].busy && !Fits(bs[0], width, height) then [] else [bs[0]]) + Pruned(bs[1..], width, height)
  }

  function CountFitting(bs: seq<Info>, width: int, height: int): nat {
    if bs == [] then 0
    else (if Fits(bs[0], width, height) then 1 else 0) + CountFitting(bs[1..], width, height)
  }

  function CountHeld(bs: seq<Info>, width: int, height: int): nat {
    if bs == [] then 0
    else (if Fits(bs[0], width, height) && bs[0].busy then 1 else 0) + CountHeld(bs[1..], width, height)
  }

  /** pick_free_buffer: position of the first free buffer, or the length. */
  function FirstFree(bs: seq<Info>): (i: nat)
    ensures i <= |bs|
    ensures forall j :: 0 <= j < i ==> bs[j].busy
    ensures i < |bs| ==> !bs[i].busy
  {
    if bs == [] || !bs[0].busy then 0 else 1 + FirstFree(bs[1..])
  }

  function Configured(s: State, width: int, height: int, fullscreen: bool, maximized: bool): State {
    var t := s.(fullscreen := fullscreen, maximized := maximized, needsUpdate := true);
    if width > 0 && height > 0 then
      var u := if !fullscreen && !maximized then t.(initWidth := width, initHeight := height) else t;
      u.(width := width, height := height)
    else if !fullscreen && !maximized then t.(width := t.initWidth, height := t.initHeight)
    else t
  }

  /** Two new buffers of the current size after a configure. */
  function Extended(s: State): State {
    if s.needsUpdate then
      s.(needsUpdate := false, buffers := [Fresh(s.width, s.height), Fresh(s.width, s.height)] + s.buffers)
    else s
  }

  /** The list redraw picks from: pruned, and extended after a configure. */
  function Prepared(s: State): State {
    Extended(s.(buffers := Pruned(s.buffers, s.width, s.height)))
  }

  /** The buffer create_shm_buffer maps for the window's current size. */
  function Mapped(b: Info, s: State): Info {
    if b.mapped then b else b.(mapped := true, size := s.width * s.bytes * s.height)
  }

  /** redraw with a buffer to draw into: map it if needed, hand it over. */
  function Redrawn(s: State): State
    requires FirstFree(Prepared(s).buffers) < |Prepared(s).buffers|
  {
    var p := Prepared(s);
    var i := FirstFree(p.buffers);
    p.(buffers := p.buffers[i := Mapped(p.buffers[i], p).(busy := true)])
  }

  datatype Event =
    | Configure(newWidth: int, newHeight: int, fullscreen: bool, maximized: bool)
    | Release(index: nat)
    | Redraw

  predicate Possible(s: State, ev: Event) {
    match ev
    case Configure(_, _, _, _) => true
    case Release(i) => i < |s.buffers| && s.buffers[i].busy
    case Redraw => FirstFree(Prepared(s).buffers) < |Prepared(s).buffers|
  }

  function Step(s: State, ev: Event): State
    requires Possible(s, ev)
  {
    match ev
    case Configure(w, h, f, m) => Configured(s, w, h, f, m)
    case Release(i) => s.(buffers := s.buffers[i := s.buffers[i].(busy := false)])
    case Redraw => Redrawn(s)
  }

  // ---------- The invariant ----------

  /** A mapped buffer has memory for exactly its own dimensions. */
  predicate SizesMatch(bs: seq<Info>, bytes: nat) {
    forall i :: 0 <= i < |bs| && bs[i].mapped ==> bs[i].size == bs[i].width * bytes * bs[i].height
  }

  predicate Sound(s: State) {
    && s.width > 0 && s.height > 0 && s.initWidth > 0 && s.initHeight > 0
    && SizesMatch(s.buffers, s.bytes)
    && (!s.needsUpdate ==> CountFitting(s.buffers, s.width, s.height) >= MAX_BUFFER_ALLOC)
  }

  /** Pruning keeps exactly the held buffers, of whatever size, and those of the
      current size: each as often as before, and no other. */
  lemma {:induction false} PrunedExactly(bs: seq<Info>, width: int, height: int, b: Info)
    ensures multiset(Pruned(bs, width, height))[b] == if b.busy || Fits(b, width, height) then multiset(bs)[b] else 0
    decreases |bs|
  {
    if bs != [] {
      PrunedExactly(bs[1..], width, height, b);
      assert bs == [bs[0]] + bs[1..];
    }
  }

  lemma {:induction false} PrunedFacts(bs: seq<Info>, width: int, height: int, bytes: nat)
    requires SizesMatch(bs, bytes)
    ensures SizesMatch(Pruned(bs, width, height), bytes)
    ensures CountFitting(Pruned(bs, width, height), width, height) == CountFitting(bs, width, height)
    ensures CountHeld(Pruned(bs, width, height), width, height) == CountHeld(bs, width, height)
    ensures forall b :: b in Pruned(bs, width, height) ==> b.busy || Fits(b, width, height)
    decreases |bs|
  {
    if bs != [] {
      PrunedFacts(bs[1..], width, height, bytes);
      var kept := if !bs[0].busy && !Fits(bs[0], width, height) then [] else [bs[0]];
      var rest := Pruned(bs[1..], width, height);
      CountAppend(kept, rest, width, height);
      CountAppend([bs[0]], bs[1..], width, height);
      forall i | 0 <= i < |kept + rest| && (kept + rest)[i].mapped
        ensures (kept + rest)[i].size == (kept + rest)[i].width * bytes * (kept + rest)[i].height
      {
        if i >= |kept| { assert (kept + rest)[i] == rest[i - |kept|]; }
      }
    }
  }

  lemma {:induction false} CountAppend(s: seq<Info>, t: seq<Info>, width: int, height: int)
    ensures CountFitting(s + t, width, height) == CountFitting(s, width, height) + CountFitting(t, width, height)
    ensures CountHeld(s + t, width, height) == CountHeld(s, width, height) + CountHeld(t, width, height)
    decreases |s|
  {
    if s == [] {
      assert s + t == t;
    } else {
      assert (s + t)[1..] == s[1..] + t;
      CountAppend(s[1..], t, width, height);
    }
  }

  /** Changing whether one buffer is busy or mapped keeps the count of its size. */
  lemma CountUpdate(s: seq<Info>, i: nat, b: Info, width: int, height: int)
    requires i < |s| && b.width == s[i].width && b.height == s[i].height
    ensures CountFitting(s[i := b], width, height) == CountFitting(s, width, height)
  {
    assert s == s[..i] + [s[i]] + s[i + 1..];
    assert s[i := b] == s[..i] + [b] + s[i + 1..];
    CountAppend(s[..i] + [s[i]], s[i + 1..], width, height);
    CountAppend(s[..i], [s[i]], width, height);
    CountAppend(s[..i] + [b], s[i + 1..], width, height);
    CountAppend(s[..i], [b], width, height);
  }

  /** After the pruning and the extension, every free buffer fits the window, and
      at least two buffers of its size exist. */
  lemma PreparedFits(s: State)
    requires Sound(s)
    ensures Sound(Prepared(s)) && !Prepared(s).needsUpdate
    ensures CountFitting(Prepared(s).buffers, s.width, s.height) >= MAX_BUFFER_ALLOC
    ensures forall b :: b in Prepared(s).buffers && !b.busy ==> Fits(b, s.width, s.height)
  {
    PrunedFacts(s.buffers, s.width, s.height, s.bytes);
    if s.needsUpdate {
      var added := [Fresh(s.width, s.height), Fresh(s.width, s.height)];
      var kept := Pruned(s.buffers, s.width, s.height);
      CountAppend(added, kept, s.width, s.height);
      assert added[1..] == [Fresh(s.width, s.height)];
      forall i | 0 <= i < |added + kept| && (added + kept)[i].mapped
        ensures (added + kept)[i].size == (added + kept)[i].width * s.bytes * (added + kept)[i].height
      {
        assert (added + kept)[i] == kept[i - 2];
      }
    }
  }

  lemma {:induction false} AllBusyHeld(bs: seq<Info>, width: int, height: int)
    requires forall b :: b in bs ==> b.busy
    ensures CountHeld(bs, width, height) == CountFitting(bs, width, height)
    decreases |bs|
  {
    if bs != [] {
      assert bs[0] in bs;
      AllBusyHeld(bs[1..], width, height);
    }
  }

  /** "No buffer" means the compositor holds at least two of the current size. */
  lemma NoBufferMeansTwoHeld(s: State)
    requires Sound(s) && !Possible(s, Redraw)
    ensures CountHeld(Prepared(s).buffers, s.width, s.height) >= MAX_BUFFER_ALLOC
  {
    PreparedFits(s);
    AllBusyHeld(Prepared(s).buffers, s.width, s.height);
  }

  /** The picked buffer is free, has exactly the window's dimensions and, once
      mapped, exactly the memory the painting writes. */
  lemma PickedFits(s: State)
    requires Sound(s) && Possible(s, Redraw)
    ensures var i := FirstFree(Prepared(s).buffers);
            && !Prepared(s).buffers[i].busy
            && Fits(Redrawn(s).buffers[i], s.width, s.height)
            && Redrawn(s).buffers[i].mapped && Redrawn(s).buffers[i].busy
            && Redrawn(s).buffers[i].size == s.width * s.bytes * s.height
  {
    PreparedFits(s);
  }

  lemma StepSound(s: State, ev: Event)
    requires Sound(s) && Possible(s, ev)
    ensures Sound(Step(s, ev))
  {
    match ev
    case Configure(_, _, _, _) =>
    case Release(i) =>
      CountUpdate(s.buffers, i, s.buffers[i].(busy := false), s.width, s.height);
    case Redraw =>
      PreparedFits(s);
      PickedFits(s);
      var p, i := Prepared(s), FirstFree(Prepared(s).buffers);
      CountUpdate(p.buffers, i, Mapped(p.buffers[i], p).(busy := true), s.width, s.height);
  }

  predicate PossibleRun(s: State, events: seq<Event>)
    decreases |events|
  {
    events == [] || (Possible(s, events[0]) && PossibleRun(Step(s, events[0]), events[1..]))
  }

  function Run(s: State, events: seq<Event>): State
    requires PossibleRun(s, events)
    decreases |events|
  {
    if events == [] then s else Run(Step(s, events[0]), events[1..])
  }

  lemma {:induction false} RunSound(s: State, events: seq<Event>)
    requires Sound(s) && PossibleRun(s, events)
    ensures Sound(Run(s, events))
    decreases |events|
  {
    if events != [] {
      StepSound(s, events[0]);
      RunSound(Step(s, events[0]), events[1..]);
    }
  }

  /** Main result: in every run, a redraw either picks a free buffer of exactly
      the window's dimensions and mapped size, or finds the compositor holding at
      least two of the current size. */
  lemma {:induction false} EveryRedrawFits(s: State, events: seq<Event>)
    requires Sound(s) && PossibleRun(s, events)
    ensures var t := Run(s, events);
            && (!Possible(t, Redraw) ==> CountHeld(Prepared(t).buffers, t.width, t.height) >= MAX_BUFFER_ALLOC)
            && (Possible(t, Redraw) ==>
                  var i := FirstFree(Prepared(t).buffers);
                  var b := Redrawn(t).buffers[i];
                  && !Prepared(t).buffers[i].busy && b.busy && b.mapped
                  && b.width == t.width && b.height == t.height && b.size == t.width * t.bytes * t.height)
  {
    hide Run, PossibleRun, Sound, Prepared, Redrawn, CountHeld;
    RunSound(s, events);
    var t := Run(s, events);
    if Possible(t, Redraw) { PickedFits(t); } else { NoBufferMeansTwoHeld(t); }
  }

  /** No stale buffer outlives a redraw: what is left is held or of the window's
      size, and no held buffer was dropped. */
  lemma RedrawLeavesNoStale(s: State, b: Info)
    requires Sound(s) && Possible(s, Redraw)
    ensures b in Redrawn(s).buffers ==> b.busy || Fits(b, s.width, s.height)
    ensures b.busy ==> multiset(Redrawn(s).buffers)[b] >= multiset(s.buffers)[b]
  {
    hide Sound, Prepared, Pruned, CountFitting;
    PreparedFits(s);
    var p := Prepared(s);
    var i := FirstFree(p.buffers);
    if b.busy {
      PreparedKeepsHeld(s, b);
      ReplacedKeeps(p.buffers, i, Mapped(p.buffers[i], p).(busy := true), b);
    }
  }

  lemma PreparedKeepsHeld(s: State, b: Info)
    requires b.busy
    ensures multiset(Prepared(s).buffers)[b] >= multiset(s.buffers)[b]
  {
    hide Pruned;
    PrunedExactly(s.buffers, s.width, s.height, b);
  }

  lemma ReplacedKeeps(bs: seq<Info>, i: nat, c: Info, b: Info)
    requires i < |bs| && bs[i] != b
    ensures multiset(bs[i := c])[b] >= multiset(bs)[b]
    ensures b in bs[i := c] ==> b in bs || b == c
  {
  }

  /** Held buffers of other sizes. */
  function CountOutgrown(bs: seq<Info>, width: int, height: int): nat {
    if bs == [] then 0
    else (if bs[0].busy && !Fits(bs[0], width, height) then 1 else 0) + CountOutgrown(bs[1..], width, height)
  }

  lemma {:induction false} PrunedLength(bs: seq<Info>, width: int, height: int)
    ensures |Pruned(bs, width, height)| == CountFitting(bs, width, height) + CountOutgrown(bs, width, height)
    decreases |bs|
  {
    if bs != [] { PrunedLength(bs[1..], width, height); }
  }

  /** What a redraw leaves: all buffers of the current size, the held ones of other
      sizes, and two more of the current size exactly when a configure is due. */
  lemma RedrawnLength(s: State)
    requires Sound(s) && Possible(s, Redraw)
    ensures |Redrawn(s).buffers| == CountFitting(s.buffers, s.width, s.height)
                                    + CountOutgrown(s.buffers, s.width, s.height) + (if s.needsUpdate then 2 else 0)
    ensures CountFitting(Redrawn(s).buffers, s.width, s.height) ==
            CountFitting(s.buffers, s.width, s.height) + (if s.needsUpdate then 2 else 0)
  {
    PrunedLength(s.buffers, s.width, s.height);
    PrunedFacts(s.buffers, s.width, s.height, s.bytes);
    var p := Prepared(s);
    var i := FirstFree(p.buffers);
    PreparedFits(s);
    CountUpdate(p.buffers, i, Mapped(p.buffers[i], p).(busy := true), s.width, s.height);
    var added := [Fresh(s.width, s.height), Fresh(s.width, s.height)];
    assert added[1..] == [Fresh(s.width, s.height)];
    CountAppend(added, Pruned(s.buffers, s.width, s.height), s.width, s.height);
  }

  /** No configure of the run changes the window's size. */
  predicate SizeStays(s: State, events: seq<Event>)
    requires PossibleRun(s, events)
    decreases |events|
  {
    events == [] || (
      && Step(s, events[0]).width == s.width && Step(s, events[0]).height == s.height
      && SizeStays(Step(s, events[0]), events[1..]))
  }

  /** The redraws that are the first after some configure; `due` says that one
      came before the run. */
  function Updates(due: bool, events: seq<Event>): nat
    decreases |events|
  {
    if events == [] then 0
    else
      match events[0]
      case Configure(_, _, _, _) => Updates(true, events[1..])
      case Release(_) => Updates(due, events[1..])
      case Redraw => (if due then 1 else 0) + Updates(false, events[1..])
  }

  /** Main result: while the size stays, no event removes a buffer of it, and
      each redraw that follows a configure adds two. */
  lemma {:induction false} GrowsByTwoPerUpdate(s: State, events: seq<Event>)
    requires Sound(s) && PossibleRun(s, events) && SizeStays(s, events)
    ensures CountFitting(Run(s, events).buffers, s.width, s.height) ==
            CountFitting(s.buffers, s.width, s.height) + 2 * Updates(s.needsUpdate, events)
    decreases |events|
  {
    hide Sound, Redrawn, Possible;
    if events != [] {
      StepSound(s, events[0]);
      StepCount(s, events[0]);
      GrowsByTwoPerUpdate(Step(s, events[0]), events[1..]);
    }
  }

  lemma StepCount(s: State, ev: Event)
    requires Sound(s) && Possible(s, ev)
    ensures var t := Step(s, ev);
            && t.needsUpdate == (ev.Configure? || (ev.Release? && s.needsUpdate))
            && CountFitting(t.buffers, s.width, s.height) ==
               CountFitting(s.buffers, s.width, s.height) + if ev.Redraw? && s.needsUpdate then 2 else 0
  {
    match ev
    case Configure(_, _, _, _) =>
    case Release(i) => CountUpdate(s.buffers, i, s.buffers[i].(busy := false), s.width, s.height);
    case Redraw => RedrawnLength(s);
  }

  /** A configure that gives a windowed surface a size. */
  predicate SizesWindow(ev: Event) {
    ev.Configure? && !ev.fullscreen && !ev.maximized && ev.newWidth > 0 && ev.newHeight > 0
  }

  lemma {:induction false} WindowedSizeKept(s: State, events: seq<Event>)
    requires PossibleRun(s, events)
    requires forall i :: 0 <= i < |events| ==> !SizesWindow(events[i])
    ensures Run(s, events).initWidth == s.initWidth && Run(s, events).initHeight == s.initHeight
    decreases |events|
  {
    if events != [] {
      hide Prepared;
      PreparedKeepsSizes(s);
      WindowedSizeKept(Step(s, events[0]), events[1..]);
    }
  }

  lemma PreparedKeepsSizes(s: State)
    ensures Prepared(s).initWidth == s.initWidth && Prepared(s).initHeight == s.initHeight
  {
  }

  /** Whatever happens while the window is fullscreen or maximized, a configure
      that ends it without a size restores the last windowed size. */
  lemma {:induction false} LeavingFullscreenRestores(s: State, width: int, height: int, events: seq<Event>)
    requires width > 0 && height > 0
    requires forall i :: 0 <= i < |events| ==> !SizesWindow(events[i])
    requires PossibleRun(Step(s, Configure(width, height, false, false)), events)
    ensures var t := Step(Run(Step(s, Configure(width, height, false, false)), events), Configure(0, 0, false, false));
            t.width == width && t.height == height
  {
    WindowedSizeKept(Step(s, Configure(width, height, false, false)), events);
  }

  /** Whatever the compositor holds, a configure with a size, be it fullscreen,
      maximized or neither, lets the next redraw draw into a buffer of that size. */
  lemma ConfiguredSizeDrawn(s: State, width: int, height: int, fullscreen: bool, maximized: bool)
    requires Sound(s) && width > 0 && height > 0
    ensures var t := Step(s, Configure(width, height, fullscreen, maximized));
            && t.fullscreen == fullscreen && t.maximized == maximized
            && Possible(t, Redraw)
            && var r, i := Step(t, Redraw), FirstFree(Prepared(t).buffers);
               && r.width == width && r.height == height && i < |r.buffers|
               && r.buffers[i] == Info(true, width, height, true, width * s.bytes * height)
               && (if fullscreen || maximized then r.initWidth == s.initWidth && r.initHeight == s.initHeight
                   else r.initWidth == width && r.initHeight == height)
  {
    var t := Step(s, Configure(width, height, fullscreen, maximized));
    StepSound(s, Configure(width, height, fullscreen, maximized));
    hide Sound, Pruned, CountFitting;
    assert Prepared(t).buffers[0] == Fresh(width, height);
    PickedFits(t);
  }

  /** Without a size the window keeps its own while fullscreen or maximized. */
  lemma UnsizedConfigureKeeps(s: State, width: int, height: int, fullscreen: bool, maximized: bool)
    requires width <= 0 || height <= 0
    ensures var t := Step(s, Configure(width, height, fullscreen, maximized));
            && t.fullscreen == fullscreen && t.maximized == maximized && t.buffers == s.buffers
            && t.initWidth == s.initWidth && t.initHeight == s.initHeight
            && (if fullscreen || maximized then t.width == s.width && t.height == s.height
                else t.width == s.initWidth && t.height == s.initHeight)
  {
  }

  /** A release frees that buffer and nothing else. */
  lemma ReleaseFrees(s: State, i: nat, k: nat)
    requires Possible(s, Release(i)) && k < |s.buffers|
    ensures var t, b := Step(s, Release(i)), s.buffers[k];
            |t.buffers| == |s.buffers| && t.buffers[k] == Info(b.busy && k != i, b.width, b.height, b.mapped, b.size)
  {
  }

  /** create_window */
  function Initial(width: int, height: int, bytes: nat): State {
    State(width, height, width, height, false, false, false, bytes, [Fresh(width, height), Fresh(width, height)])
  }

  lemma InitialSound(width: int, height: int, bytes: nat)
    requires width > 0 && height > 0
    ensures Sound(Initial(width, height, bytes))
  {
    var f := Fresh(width, height);
    assert [f, f][1..] == [f];
  }

  // ---------- Nothing bounds the list ----------

  /** A configure that repeats the size, the redraw after it, and the release. */
  function SameSizeCycle(s: State): (r: State)
    requires s.width > 0 && s.height > 0
    ensures r.width == s.width && r.height == s.height
  {
    var c := Configured(s, s.width, s.height, false, false);
    var r := Redrawn(c);
    r.(buffers := r.buffers[0 := r.buffers[0].(busy := false)])
  }

  function SameSizeCycles(s: State, n: nat): (r: State)
    requires s.width > 0 && s.height > 0
    ensures r.width == s.width && r.height == s.height
  {
    if n == 0 then s else SameSizeCycle(SameSizeCycles(s, n - 1))
  }

  lemma {:induction false} NothingPruned(bs: seq<Info>, width: int, height: int)
    requires forall b :: b in bs ==> Fits(b, width, height)
    ensures Pruned(bs, width, height) == bs
    decreases |bs|
  {
    if bs != [] {
      assert bs[0] in bs;
      NothingPruned(bs[1..], width, height);
    }
  }

  lemma CycleAddsTwo(s: State)
    requires s.width > 0 && s.height > 0 && forall b :: b in s.buffers ==> Fits(b, s.width, s.height)
    ensures |SameSizeCycle(s).buffers| == |s.buffers| + 2
    ensures forall b :: b in SameSizeCycle(s).buffers ==> Fits(b, s.width, s.height)
  {
    NothingPruned(s.buffers, s.width, s.height);
  }

  /** Pruning only removes old sizes: n configures that repeat the current size
      leave exactly 2 + 2 n buffers although one at a time is in use. */
  lemma {:induction false} RepeatedSizeGrows(width: int, height: int, bytes: nat, n: nat)
    requires width > 0 && height > 0
    ensures |SameSizeCycles(Initial(width, height, bytes), n).buffers| == 2 + 2 * n
    ensures forall b :: b in SameSizeCycles(Initial(width, height, bytes), n).buffers ==> Fits(b, width, height)
  {
    hide SameSizeCycle;
    if n > 0 {
      RepeatedSizeGrows(width, height, bytes, n - 1);
      CycleAddsTwo(SameSizeCycles(Initial(width, height, bytes), n - 1));
    }
  }

  // ---------- The window ----------

  class Buffer {
    var busy: bool
    const width: int
    const height: int
    var mapped: bool
    var size: int

    function View(): Info
      reads this
    {
      Info(busy, width, height, mapped, size)
    }

    constructor (width: int, height: int)
      ensures View() == Fresh(width, height)
    {
      this.width, this.height := width, height;
      busy, mapped, size := false, false, 0;
    }
  }

  function Infos(bs: seq<Buffer>): (r: seq<Info>)
    reads bs
    ensures |r| == |bs|
  {
    seq(|bs|, i requires 0 <= i < |bs| reads bs => bs[i].View())
  }

  lemma {:induction false} PrunedHead(left: seq<Info>, rest: seq<Info>, width: int, height: int)
    requires rest != []
    ensures if !rest[0].busy && !Fits(rest[0], width, height)
            then left + Pruned(rest[1..], width, height) == left + Pruned(rest, width, height)
            else (left + [rest[0]]) + Pruned(rest[1..], width, height) == left + Pruned(rest, width, height)
  {
    PrunedUnfolds(rest, width, height);
    hide Pruned;
    Regroup(left, rest[0], Pruned(rest[1..], width, height));
  }

  lemma {:induction false} PrunedUnfolds(rest: seq<Info>, width: int, height: int)
    requires rest != []
    ensures Pruned(rest, width, height) ==
              if !rest[0].busy && !Fits(rest[0], width, height) then Pruned(rest[1..], width, height)
              else [rest[0]] + Pruned(rest[1..], width, height)
  {
  }

  lemma Regroup(left: seq<Info>, b: Info, tail: seq<Info>)
    ensures (left + [b]) + tail == left + ([b] + tail)
  {
  }

  lemma {:induction false} PrunedEmpty(left: seq<Info>, rest: seq<Info>, width: int, height: int)
    ensures rest == [] ==> left + Pruned(rest, width, height) == left && left + rest == left
  {
  }

  lemma InfosSplit(bs: seq<Buffer>, i: nat, left: seq<Info>, rest: seq<Info>)
    requires i < |bs| && i == |left| && left + rest == Infos(bs)
    ensures rest != [] && rest[0] == bs[i].View() && (left + [rest[0]]) + rest[1..] == Infos(bs)
  {
    assert (left + rest)[i] == rest[0];
  }

  lemma InfosWithout(bs: seq<Buffer>, i: nat, left: seq<Info>, rest: seq<Info>)
    requires i < |bs| && i == |left| && left + rest == Infos(bs)
    ensures rest != [] && rest[0] == bs[i].View() && left + rest[1..] == Infos(bs[..i] + bs[i + 1..])
  {
    assert (left + rest)[i] == rest[0];
    var shorter := bs[..i] + bs[i + 1..];
    forall k | 0 <= k < |shorter|
      ensures (left + rest[1..])[k] == Infos(shorter)[k]
    {
      assert k < i ==> (left + rest)[k] == bs[k].View();
      assert k >= i ==> (left + rest)[k + 1] == bs[k + 1].View();
    }
  }

  predicate Distinct(bs: seq<Buffer>) {
    forall i, j :: 0 <= i < j < |bs| ==> bs[i] != bs[j]
  }

  class Window {
    var width: int
    var height: int
    var initWidth: int
    var initHeight: int
    var fullscreen: bool
    var maximized: bool
    var needsUpdate: bool
    const bytes: nat
    var buffers: seq<Buffer>

    function View(): State
      reads this, buffers
    {
      State(width, height, initWidth, initHeight, fullscreen, maximized, needsUpdate, bytes, Infos(buffers))
    }

    constructor (w: int, h: int, bytesPerPixel: nat)
      ensures View() == Initial(w, h, bytesPerPixel) && Distinct(buffers)
      ensures forall b :: b in buffers ==> fresh(b)
    {
      width, height, initWidth, initHeight := w, h, w, h;
      fullscreen, maximized, needsUpdate := false, false, false;
      bytes := bytesPerPixel;
      buffers := [];
      new;
      AllocBuffer();
      AllocBuffer();
      assert Infos(buffers) == [Fresh(w, h), Fresh(w, h)];
    }

    /** alloc_buffer: insert at the head of the list. */
    method AllocBuffer()
      requires Distinct(buffers)
      modifies this`buffers
      ensures |buffers| == |old(buffers)| + 1 && buffers[1..] == old(buffers)
      ensures fresh(buffers[0]) && Distinct(buffers)
      ensures View() == old(View()).(buffers := [Fresh(width, height)] + old(View()).buffers)
    {
      var buffer := new Buffer(width, height);
      buffers := [buffer] + buffers;
      assert buffers[1..] == old(buffers);
      assert Infos(old(buffers)) == old(Infos(buffers));
    }

    /** handle_xdg_toplevel_configure */
    method ToplevelConfigure(newWidth: int, newHeight: int, states: seq<bool>)
      requires |states| == 2
      modifies this
      ensures buffers == old(buffers)
      ensures View() == Step(old(View()), Configure(newWidth, newHeight, states[0], states[1]))
    {
      fullscreen, maximized := states[0], states[1];
      if newWidth > 0 && newHeight > 0 {
        if !fullscreen && !maximized {
          initWidth := newWidth;
          initHeight := newHeight;
        }
        width := newWidth;
        height := newHeight;
      } else if !fullscreen && !maximized {
        width := initWidth;
        height := initHeight;
      }
      needsUpdate := true;
    }

    method BufferRelease(i: nat)
      requires Distinct(buffers) && i < |buffers| && buffers[i].busy
      modifies buffers[i]
      ensures View() == Step(old(View()), Release(i))
    {
      buffers[i].busy := false;
      assert Infos(buffers) == old(View()).buffers[i := old(View()).buffers[i].(busy := false)];
    }

    /** prune_old_released_buffers: walk the list, unlinking as it goes. */
    method PruneOldReleasedBuffers()
      requires Distinct(buffers)
      modifies this`buffers
      ensures Distinct(buffers) && forall b :: b in buffers ==> b in old(buffers)
      ensures View() == old(View()).(buffers := Pruned(old(View()).buffers, width, height))
    {
      hide Infos, Pruned;
      ghost var left: seq<Info>, rest := [], Infos(buffers);
      ghost var pruned := Pruned(rest, width, height);
      var i := 0;
      while i < |buffers|
        invariant i == |left| && left + rest == Infos(buffers)
        invariant Distinct(buffers) && forall b :: b in buffers ==> b in old(buffers)
        invariant left + Pruned(rest, width, height) == pruned
        decreases |buffers| - i
      {
        ghost var before := buffers;
        if !buffers[i].busy && (buffers[i].width != width || buffers[i].height != height) {
          buffers := buffers[..i] + buffers[i + 1..];
          InfosWithout(before, i, left, rest);
          PrunedHead(left, rest, width, height);
        } else {
          InfosSplit(before, i, left, rest);
          PrunedHead(left, rest, width, height);
          left := left + [rest[0]];
          i := i + 1;
        }
        rest := rest[1..];
      }
      PrunedEmpty(left, rest, width, height);
    }

    /** pick_free_buffer */
    method PickFreeBuffer() returns (index: nat)
      ensures index == FirstFree(Infos(buffers))
    {
      index := 0;
      assert Infos(buffers)[0..] == Infos(buffers);
      while index < |buffers|
        invariant index <= |buffers|
        invariant index + FirstFree(Infos(buffers)[index..]) == FirstFree(Infos(buffers))
      {
        assert Infos(buffers)[index..][1..] == Infos(buffers)[index + 1..];
        if !buffers[index].busy {
          break;
        }
        index := index + 1;
      }
    }

    /** The first part of window_next_buffer. */
    method ExtendList()
      requires Distinct(buffers)
      modifies this`buffers, this`needsUpdate
      ensures Distinct(buffers) && forall b :: b in buffers ==> b in old(buffers) || fresh(b)
      ensures View() == Extended(old(View()))
    {
      if needsUpdate {
        AllocBuffer();
        AllocBuffer();
        needsUpdate := false;
      }
    }

    /** create_shm_buffer for the picked buffer; mapping succeeds. */
    method MapBuffer(buffer: Buffer, ghost index: nat)
      requires Distinct(buffers) && index < |buffers| && buffers[index] == buffer
      modifies buffer
      ensures View() == old(View()).(
                buffers := old(View()).buffers[index := Mapped(old(View()).buffers[index], old(View()))])
    {
      ghost var infos := Infos(buffers);
      if !buffer.mapped {
        buffer.mapped := true;
        buffer.size := width * bytes * height;
      }
      assert Infos(buffers) == infos[index := Mapped(infos[index], old(View()))];
    }

    /** Handing the buffer to the compositor. */
    method HandOver(buffer: Buffer, ghost index: nat)
      requires Distinct(buffers) && index < |buffers| && buffers[index] == buffer
      modifies buffer`busy
      ensures View() == old(View()).(buffers := old(View()).buffers[index := old(View()).buffers[index].(busy := true)])
    {
      ghost var infos := Infos(buffers);
      buffer.busy := true;
      assert Infos(buffers) == infos[index := infos[index].(busy := true)];
    }

    /** redraw, without the painting. */
    method Redraw() returns (buffer: Buffer)
      requires Distinct(buffers) && Possible(View(), Event.Redraw)
      modifies this, buffers
      ensures Distinct(buffers)
      ensures View() == Step(old(View()), Event.Redraw)
      ensures var i := FirstFree(Prepared(old(View())).buffers); i < |buffers| && buffer == buffers[i]
    {
      hide Pruned, FirstFree, Mapped, Infos;
      ghost var prepared := Prepared(View());
      PruneOldReleasedBuffers();
      ExtendList();
      assert View() == prepared;
      var index := PickFreeBuffer();
      assert |Infos(buffers)| == |buffers|;
      buffer := buffers[index];
      assert buffer in buffers;
      MapBuffer(buffer, index);
      HandOver(buffer, index);
    }
  }
}
