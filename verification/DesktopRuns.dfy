/** clients/desktop-shell.c over whole runs: which outputs get a panel and a
    background, and how they can come to lack one. */
module DesktopRuns {
  import opened Options
  import opened DesktopShell

  /** The output shows live surfaces of its own: a background, and a panel exactly
      if panels are wanted. */
  predicate Furnished(s: State, o: Output) {
    && o.background.Some? && IsLive(s, o.background.value, Surface(Background, o.id))
    && (o.panel.Some? <==> s.wantPanel)
    && (o.panel.Some? ==> IsLive(s, o.panel.value, Surface(Panel, o.id)))
  }

  predicate IsLive(s: State, x: SurfaceId, f: Surface) {
    x in s.surfaces && s.surfaces[x] == f
  }

  /** Nothing went away, and every other surface is as before. */
  predicate Grew(s: State, t: State) {
    && s.created <= t.created && t.destroyed == s.destroyed && t.wantPanel == s.wantPanel
    && forall x :: x in s.surfaces ==> IsLive(t, x, s.surfaces[x])
  }

  lemma InitFurnishes(s: State, i: nat)
    requires Core(s) && i < |s.outputs| && s.outputs[i].panel == None && s.outputs[i].background == None
    ensures var t := Init(s, i);
            && |t.outputs| == |s.outputs| && Furnished(t, t.outputs[i]) && Grew(s, t)
            && t.outputs[i].id == s.outputs[i].id
            && t.outputs[i].x == s.outputs[i].x && t.outputs[i].y == s.outputs[i].y
            && (forall j :: 0 <= j < |s.outputs| && j != i ==> t.outputs[j] == s.outputs[j])
            && t.shell == s.shell && t.started == s.started
  {
    hide Owned, Linked, DistinctIds;
    CreatedFresh(s);
    assert Times(s, s.created + 1) == 0;
  }

  /** Furniture stays while surfaces are only added. */
  lemma FurnishedStays(s: State, t: State, o: Output)
    requires Furnished(s, o) && Grew(s, t)
    ensures Furnished(t, o)
  {
  }

  /** The loop of main furnishes what it passes and leaves the rest alone. */
  lemma {:induction false} LoopFurnishes(s: State, i: nat, k: nat)
    requires Core(s) && i <= |s.outputs| && k < |s.outputs|
    requires forall j :: i <= j < |s.outputs| && s.outputs[j].background == None ==> s.outputs[j].panel == None
    ensures var t := InitFrom(s, i);
            && |t.outputs| == |s.outputs| && Grew(s, t)
            && t.outputs[k].id == s.outputs[k].id
            && t.outputs[k].x == s.outputs[k].x && t.outputs[k].y == s.outputs[k].y
            && (k < i || s.outputs[k].background.Some? ==> t.outputs[k] == s.outputs[k])
            && (k >= i && s.outputs[k].background == None ==> Furnished(t, t.outputs[k]))
            && t.shell == s.shell
    decreases |s.outputs| - i
  {
    hide Core, Init, Furnished;
    if i < |s.outputs| {
      if s.outputs[i].background == None {
        InitCore(s, i);
        InitFurnishes(s, i);
        LoopFurnishes(Init(s, i), i + 1, k);
        if k == i { FurnishedStays(Init(s, i), InitFrom(Init(s, i), i + 1), Init(s, i).outputs[i]); }
      } else {
        LoopFurnishes(s, i + 1, k);
      }
    }
  }

  lemma {:induction false} LoopFrame(s: State, i: nat)
    requires i <= |s.outputs|
    ensures var t := InitFrom(s, i);
            |t.outputs| == |s.outputs| && t.shell == s.shell && t.wantPanel == s.wantPanel
    decreases |s.outputs| - i
  {
    if i < |s.outputs| { LoopFrame(if s.outputs[i].background == None then Init(s, i) else s, i + 1); }
  }

  /** Main result: when start-up is over, every output has a live background; one
      that had none before has a panel too exactly if panels are wanted, and one
      that had is as it was. */
  lemma StartUpFurnishes(s: State, k: nat)
    requires Sound(s) && Allowed(s, FinishStartUp) && k < |s.outputs|
    ensures var t := Step(s, FinishStartUp);
            && t.started && |t.outputs| == |s.outputs| && Grew(s, t)
            && var o, p := s.outputs[k], t.outputs[k];
               && p.id == o.id && p.x == o.x && p.y == o.y
               && (o.background.Some? ==> p == o) && (o.background == None ==> Furnished(t, p))
               && p.background.Some? && IsLive(t, p.background.value, Surface(Background, p.id))
  {
    hide Find, Owned, EachOnce, DistinctIds, InitFrom;
    LinkedOf(s, k, Background);
    LoopFurnishes(s, 0, k);
  }

  /** An output announced after the shell global is furnished at once, one before
      it not; it goes to the head of the list, at the origin. */
  lemma NewOutputFurnished(s: State, id: OutputId)
    requires Sound(s) && Allowed(s, OutputGlobal(id))
    ensures var t := Step(s, OutputGlobal(id));
            && |t.outputs| == |s.outputs| + 1 && t.outputs[1..] == s.outputs && Grew(s, t)
            && t.outputs[0].id == id && t.outputs[0].x == 0 == t.outputs[0].y
            && (s.shell ==> Furnished(t, t.outputs[0]))
            && (!s.shell ==> t.outputs[0] == Output(id, 0, 0, None, None) && t.surfaces == s.surfaces)
            && t.shell == s.shell && t.started == s.started
  {
    hide Core, Init, Furnished;
    var o := Output(id, 0, 0, None, None);
    HeadCore(s, o);
    if s.shell { InitFurnishes(s.(outputs := [o] + s.outputs), 0); }
  }

  /** The shell global is only noted, and the removal of an unknown output ignored. */
  lemma ShellGlobalNoted(s: State, id: OutputId)
    requires Sound(s)
    ensures Step(s, ShellGlobal).shell && Step(s, ShellGlobal) == s.(shell := true)
    ensures s.started && (forall k :: 0 <= k < |s.outputs| ==> s.outputs[k].id != id) ==> Step(s, OutputGone(id)) == s
  {
    hide Core, Remove;
  }

  // ---------- Moves, dismissals, removals ----------

  /** Only that output moves. */
  lemma GeometryMoves(s: State, id: OutputId, x: int, y: int, k: nat)
    requires Sound(s) && Allowed(s, Geometry(id, x, y)) && k < |s.outputs|
    ensures var t, o := Step(s, Geometry(id, x, y)), s.outputs[k];
            && |t.outputs| == |s.outputs| && t == s.(outputs := t.outputs)
            && t.outputs[k] == Output(o.id, if o.id == id then x else o.x, if o.id == id then y else o.y,
                                      o.panel, o.background)
  {
    hide Owned, Linked, EachOnce;
    if s.outputs[k].id == id { FindAt(s.outputs, k); }
  }

  /** A configure to nothing destroys exactly that surface and clears exactly the
      pointer to it; any other configure keeps all of them. */
  lemma ConfigureDismisses(s: State, x: SurfaceId, width: int, height: int, k: nat)
    requires Sound(s) && Allowed(s, Configure(x, width, height)) && k < |s.outputs|
    ensures var t, o := Step(s, Configure(x, width, height)), s.outputs[k];
            if width >= 1 && height >= 1 then t == s
            else
              && t.surfaces == s.surfaces - {x} && t.destroyed == s.destroyed + [x] && t.created == s.created
              && |t.outputs| == |s.outputs|
              && t.outputs[k] == Output(o.id, o.x, o.y, if o.panel == Some(x) then None else o.panel,
                                        if o.background == Some(x) then None else o.background)
              && t.wantPanel == s.wantPanel && t.shell == s.shell && t.started == s.started
  {
    hide EachOnce, Find, Linked, DistinctIds;
    assert Owned(s, x);
    var i := Find(s.outputs, s.surfaces[x].owner);
    var kind := s.surfaces[x].kind;
    var other := if kind.Panel? then Background else Panel;
    SlotsApart(s, i, kind, i, other);
    if k != i {
      SlotsApart(s, i, kind, k, Panel);
      SlotsApart(s, i, kind, k, Background);
    }
  }

  /** Where output m stands once output i is gone. */
  function After(m: nat, i: nat): nat
    requires m != i
  {
    if m < i then m else m - 1
  }

  lemma HandOverFlags(s: State, i: nat, j: nat, kind: Kind)
    requires i < |s.outputs| && j < |s.outputs| && i != j
    ensures var t := HandOver(s, i, j, kind);
            && |t.outputs| == |s.outputs| && t.shell == s.shell && t.started == s.started
            && t.wantPanel == s.wantPanel && t.created == s.created
  {
  }

  lemma DestroyFlags(s: State, i: nat)
    requires i < |s.outputs|
    ensures var t := Destroy(s, i);
            && t.shell == s.shell && t.started == s.started && t.wantPanel == s.wantPanel && t.created == s.created
  {
  }

  lemma RemovalFrame(s: State, i: nat)
    requires i < |s.outputs|
    ensures var t := Remove(s, i);
            && |t.outputs| == |s.outputs| - 1 && t.shell == s.shell && t.started == s.started
            && t.wantPanel == s.wantPanel && t.created == s.created
  {
    hide Clone, HandOver, Destroy;
    var j := Clone(s.outputs, i, 0);
    DestroyFlags(s, i);
    DestroySurfaces(s, i);
    if s.outputs[i].background.Some? && j < |s.outputs| {
      var t := HandOver(s, i, j, Background);
      HandOverFlags(s, i, j, Background);
      HandOverFlags(t, i, j, Panel);
      DestroyFlags(HandOver(t, i, j, Panel), i);
      DestroySurfaces(HandOver(t, i, j, Panel), i);
    }
  }

  /** Output p is output o, with what it had and at most what the giver had. */
  predicate KeptOrTook(p: Output, o: Output, giver: Output) {
    && p.id == o.id && p.x == o.x && p.y == o.y
    && p.panel == (if o.panel.Some? then o.panel else p.panel)
    && p.background == (if o.background.Some? then o.background else p.background)
    && (p.panel == o.panel || p.panel == giver.panel)
    && (p.background == o.background || p.background == giver.background)
  }

  lemma TwoHandOvers(s: State, i: nat, j: nat, m: nat)
    requires i < |s.outputs| && j < |s.outputs| && m < |s.outputs| && i != j && i != m
    ensures var t := HandOver(HandOver(s, i, j, Background), i, j, Panel);
            |t.outputs| == |s.outputs| && KeptOrTook(t.outputs[m], s.outputs[m], s.outputs[i])
  {
    hide HandOver;
    OneHandOver(s, i, j, Background);
    OneHandOver(HandOver(s, i, j, Background), i, j, Panel);
  }

  /** A removal takes out that output; every other keeps its place and what it had,
      and gains at most what the removed one had. */
  lemma GoneKeepsOthers(s: State, i: nat, m: nat)
    requires Sound(s) && s.started && i < |s.outputs| && m < |s.outputs| && m != i
    ensures Allowed(s, OutputGone(s.outputs[i].id))
    ensures var t := Step(s, OutputGone(s.outputs[i].id));
            && |t.outputs| == |s.outputs| - 1
            && KeptOrTook(t.outputs[After(m, i)], s.outputs[m], s.outputs[i])
            && t.wantPanel == s.wantPanel && t.shell == s.shell && t.started == s.started && t.created == s.created
  {
    FindAt(s.outputs, i);
    hide Sound, Find, Remove, KeptOrTook;
    RemovalFrame(s, i);
    RemoveKeepsOthers(s, i, m);
  }

  lemma RemoveKeepsOthers(s: State, i: nat, m: nat)
    requires i < |s.outputs| && m < |s.outputs| && m != i
    ensures var t := Remove(s, i);
            |t.outputs| == |s.outputs| - 1 && KeptOrTook(t.outputs[After(m, i)], s.outputs[m], s.outputs[i])
  {
    hide Clone, HandOver, Destroy, KeptOrTook;
    var j := Clone(s.outputs, i, 0);
    if s.outputs[i].background.Some? && j < |s.outputs| {
      HandOverFlags(s, i, j, Background);
      var t := HandOver(HandOver(s, i, j, Background), i, j, Panel);
      TwoHandOvers(s, i, j, m);
      DestroySurfaces(t, i);
      DropAt(t.outputs, i, m);
    } else {
      DestroySurfaces(s, i);
      DropAt(s.outputs, i, m);
      KeptSame(s.outputs[m], s.outputs[i]);
    }
  }

  lemma DropAt(outputs: seq<Output>, i: nat, m: nat)
    requires i < |outputs| && m < |outputs| && m != i
    ensures (outputs[..i] + outputs[i + 1..])[After(m, i)] == outputs[m]
  {
  }

  lemma KeptSame(o: Output, giver: Output)
    ensures KeptOrTook(o, o, giver)
  {
  }

  // ---------- How an output can lack a surface ----------

  predicate Lacks(s: State, id: OutputId, kind: Kind) {
    exists k :: 0 <= k < |s.outputs| && s.outputs[k].id == id && Get(s.outputs[k], kind) == None
  }

  /** The event dismisses a surface of that kind which the output owns. */
  predicate Dismisses(s: State, ev: Event, id: OutputId, kind: Kind) {
    ev.Configure? && (ev.width < 1 || ev.height < 1) && IsLive(s, ev.surface, Surface(kind, id))
  }

  /** Some event of the run does, in the state it meets. */
  ghost predicate Dismissed(s: State, events: seq<Event>, id: OutputId, kind: Kind)
    requires Sound(s) && AllowedRun(s, events)
    decreases |events|
  {
    events != [] && (
      || Dismisses(s, events[0], id, kind)
      || (StepSound(s, events[0]); Dismissed(Step(s, events[0]), events[1..], id, kind)))
  }

  /** Backgrounds are always wanted. */
  predicate Wanted(s: State, kind: Kind) {
    kind.Background? || s.wantPanel
  }

  /** Until start-up is over an output with a background lacks nothing; after it
      the output named lacks nothing. */
  predicate Provided(s: State, id: OutputId, kind: Kind) {
    && (s.started ==> s.shell && !Lacks(s, id, kind))
    && (!s.started ==>
          forall k :: 0 <= k < |s.outputs| && s.outputs[k].background.Some? ==> Get(s.outputs[k], kind).Some?)
  }

  lemma StartUpProvides(s: State, id: OutputId, kind: Kind)
    requires Sound(s) && Allowed(s, FinishStartUp) && Wanted(s, kind) && Provided(s, id, kind)
    ensures var t := Step(s, FinishStartUp); Provided(t, id, kind) && t.wantPanel == s.wantPanel
  {
    hide Sound, InitFrom, IsLive, Grew;
    var t := Step(s, FinishStartUp);
    LoopFrame(s, 0);
    forall k | 0 <= k < |t.outputs| ensures Get(t.outputs[k], kind).Some? {
      StartUpFurnishes(s, k);
    }
  }

  lemma DismissalSpares(s: State, ev: Event, id: OutputId, kind: Kind)
    requires Sound(s) && Allowed(s, ev) && ev.Configure? && !Lacks(s, id, kind) && !Dismisses(s, ev, id, kind)
    ensures !Lacks(Step(s, ev), id, kind)
  {
    hide Core, Step, Dismisses;
    var t := Step(s, ev);
    forall k | 0 <= k < |t.outputs| && t.outputs[k].id == id ensures Get(t.outputs[k], kind).Some? {
      assert |t.outputs| == |s.outputs| by {
        OwnerListed(s, ev.surface);
        ConfigureDismisses(s, ev.surface, ev.width, ev.height, Find(s.outputs, s.surfaces[ev.surface].owner));
      }
      ConfigureDismisses(s, ev.surface, ev.width, ev.height, k);
      assert Get(s.outputs[k], kind).Some?;
      if (ev.width < 1 || ev.height < 1) && Get(s.outputs[k], kind) == Some(ev.surface) {
        DismissesOwn(s, ev, k, kind);
        assert false;
      }
    }
  }

  /** Dismissing the surface that output k points at is dismissing its own. */
  lemma DismissesOwn(s: State, ev: Event, k: nat, kind: Kind)
    requires Core(s) && k < |s.outputs| && ev.Configure? && (ev.width < 1 || ev.height < 1)
    requires Get(s.outputs[k], kind) == Some(ev.surface)
    ensures Dismisses(s, ev, s.outputs[k].id, kind)
  {
    hide EachOnce, Owned;
    LinkedOf(s, k, kind);
  }

  lemma RemovalSpares(s: State, gone: OutputId, id: OutputId, kind: Kind)
    requires Sound(s) && s.started && !Lacks(s, id, kind)
    ensures var t := Step(s, OutputGone(gone));
            !Lacks(t, id, kind) && t.shell == s.shell && t.started && t.wantPanel == s.wantPanel
  {
    hide Core, Remove;
    var i := Find(s.outputs, gone);
    var t := Step(s, OutputGone(gone));
    if i < |s.outputs| {
      RemovalFrame(s, i);
      forall k | 0 <= k < |t.outputs| && t.outputs[k].id == id ensures Get(t.outputs[k], kind).Some? {
        var m := if k < i then k else k + 1;
        GoneKeepsOthers(s, i, m);
        assert After(m, i) == k;
      }
    }
  }

  /** Nothing but its dismissal takes a surface from an output, once started. */
  lemma StepProvides(s: State, ev: Event, id: OutputId, kind: Kind)
    requires Sound(s) && Allowed(s, ev) && Wanted(s, kind) && Provided(s, id, kind) && !Dismisses(s, ev, id, kind)
    ensures var t := Step(s, ev); Provided(t, id, kind) && t.wantPanel == s.wantPanel
  {
    hide Core, Find, Init, Furnished, Dismisses, Remove, Grew;
    match ev
    case ShellGlobal =>
    case OutputGlobal(o) => NewProvided(s, o, id, kind);
    case FinishStartUp => StartUpProvides(s, id, kind);
    case Geometry(o, x, y) => MoveProvided(s, o, x, y, id, kind);
    case Configure(x, _, _) => DismissalSpares(s, ev, id, kind); DismissalFrame(s, ev);
    case OutputGone(o) => RemovalSpares(s, o, id, kind);
    case CleanUp => DestroyAllCore(s); CleanUpFlags(s);
  }

  lemma DismissalFrame(s: State, ev: Event)
    requires Sound(s) && Allowed(s, ev) && ev.Configure?
    ensures var t := Step(s, ev); t.shell == s.shell && t.started == s.started && t.wantPanel == s.wantPanel
  {
    hide Core, Find;
    OwnerListed(s, ev.surface);
  }

  lemma {:induction false} CleanUpFlags(s: State)
    ensures var t := DestroyAll(s); t.shell == s.shell && t.started == s.started && t.wantPanel == s.wantPanel
    decreases |s.outputs|
  {
    if s.outputs != [] { CleanUpFlags(Destroy(s, 0)); }
  }

  lemma NewProvided(s: State, o: OutputId, id: OutputId, kind: Kind)
    requires Sound(s) && Allowed(s, OutputGlobal(o)) && Wanted(s, kind) && Provided(s, id, kind)
    ensures var t := Step(s, OutputGlobal(o)); Provided(t, id, kind) && t.wantPanel == s.wantPanel
  {
    hide Sound, Find, Step, IsLive;
    NewOutputFurnished(s, o);
    var t := Step(s, OutputGlobal(o));
    assert forall k :: 0 <= k < |s.outputs| ==> t.outputs[k + 1] == t.outputs[1..][k] == s.outputs[k];
    forall k | 0 < k < |t.outputs| ensures t.outputs[k] == s.outputs[k - 1] {
      assert t.outputs[(k - 1) + 1] == s.outputs[k - 1];
    }
  }

  lemma MoveProvided(s: State, o: OutputId, x: int, y: int, id: OutputId, kind: Kind)
    requires Sound(s) && Allowed(s, Geometry(o, x, y)) && Provided(s, id, kind)
    ensures var t := Step(s, Geometry(o, x, y)); Provided(t, id, kind) && t.wantPanel == s.wantPanel
  {
    hide Core, Find;
    var t := Step(s, Geometry(o, x, y));
    assert forall k :: 0 <= k < |s.outputs| ==>
             t.outputs[k].id == s.outputs[k].id && Get(t.outputs[k], kind) == Get(s.outputs[k], kind)
             && t.outputs[k].background == s.outputs[k].background;
  }

  lemma {:induction false} RunProvides(s: State, events: seq<Event>, id: OutputId, kind: Kind)
    requires Sound(s) && AllowedRun(s, events) && Wanted(s, kind) && Provided(s, id, kind)
    requires !Dismissed(s, events, id, kind)
    ensures Provided(Run(s, events), id, kind)
    decreases |events|
  {
    hide Sound, Provided, Step, Allowed, Dismisses;
    if events != [] {
      StepSound(s, events[0]);
      StepProvides(s, events[0], id, kind);
      RunProvides(Step(s, events[0]), events[1..], id, kind);
    }
  }

  /** Main result, over every run from the empty desktop: once start-up is over, an
      output lacks its background, or its panel if panels are wanted, only if the
      compositor dismissed one it owned. */
  lemma {:induction false} LacksOnlyDismissed(wantPanel: bool, events: seq<Event>, id: OutputId, kind: Kind)
    requires (InitialSound(wantPanel); AllowedRun(Initial(wantPanel), events))
    requires kind.Background? || wantPanel
    ensures (InitialSound(wantPanel);
             var t := Run(Initial(wantPanel), events);
             t.started && Lacks(t, id, kind) ==> Dismissed(Initial(wantPanel), events, id, kind))
  {
    hide Sound, AllowedRun, Run, Dismissed;
    InitialSound(wantPanel);
    if !Dismissed(Initial(wantPanel), events, id, kind) { RunProvides(Initial(wantPanel), events, id, kind); }
  }

  // ---------- Unwanted panels ----------

  predicate NoPanels(s: State) {
    !s.wantPanel && forall k :: 0 <= k < |s.outputs| ==> s.outputs[k].panel == None
  }

  lemma {:induction false} LoopAddsNoPanels(s: State, i: nat)
    requires NoPanels(s) && i <= |s.outputs|
    ensures NoPanels(InitFrom(s, i))
    decreases |s.outputs| - i
  {
    if i < |s.outputs| { LoopAddsNoPanels(if s.outputs[i].background == None then Init(s, i) else s, i + 1); }
  }

  lemma {:induction false} CleanUpNoPanels(s: State)
    requires NoPanels(s)
    ensures NoPanels(DestroyAll(s))
    decreases |s.outputs|
  {
    if s.outputs != [] { CleanUpNoPanels(Destroy(s, 0)); }
  }

  lemma StepAddsNoPanels(s: State, ev: Event)
    requires Sound(s) && Allowed(s, ev) && NoPanels(s)
    ensures NoPanels(Step(s, ev))
  {
    hide Core, Find, Remove, Init, DestroyAll, Dismiss;
    match ev
    case OutputGlobal(id) => NewOutputFurnished(s, id); TailSame(Step(s, ev).outputs, s.outputs);
    case FinishStartUp => LoopAddsNoPanels(s, 0);
    case Configure(x, _, _) => DismissalAddsNoPanels(s, ev);
    case OutputGone(id) => RemovalAddsNoPanels(s, id);
    case CleanUp => CleanUpNoPanels(s);
    case _ =>
  }

  lemma TailSame(a: seq<Output>, b: seq<Output>)
    requires a != [] && a[1..] == b
    ensures forall k :: 0 < k < |a| ==> a[k] == b[k - 1]
  {
  }

  lemma DismissalAddsNoPanels(s: State, ev: Event)
    requires Sound(s) && Allowed(s, ev) && ev.Configure? && NoPanels(s)
    ensures NoPanels(Step(s, ev))
  {
    hide Core, Step;
    DismissalFrame(s, ev);
    var t := Step(s, ev);
    OwnerListed(s, ev.surface);
    ConfigureDismisses(s, ev.surface, ev.width, ev.height, Find(s.outputs, s.surfaces[ev.surface].owner));
    forall k | 0 <= k < |t.outputs| ensures t.outputs[k].panel == None {
      ConfigureDismisses(s, ev.surface, ev.width, ev.height, k);
    }
  }

  lemma RemovalAddsNoPanels(s: State, gone: OutputId)
    requires Sound(s) && s.started && NoPanels(s)
    ensures NoPanels(Step(s, OutputGone(gone)))
  {
    hide Core, Remove;
    var i := Find(s.outputs, gone);
    var t := Step(s, OutputGone(gone));
    if i < |s.outputs| {
      RemovalFrame(s, i);
      forall k | 0 <= k < |t.outputs| ensures t.outputs[k].panel == None {
        var m := if k < i then k else k + 1;
        GoneKeepsOthers(s, i, m);
        assert After(m, i) == k;
      }
    }
  }

  /** No output ever has a panel if none is wanted. */
  lemma {:induction false} UnwantedPanelsNever(s: State, events: seq<Event>)
    requires Sound(s) && AllowedRun(s, events) && NoPanels(s)
    ensures NoPanels(Run(s, events))
    decreases |events|
  {
    hide Sound, NoPanels, Step, Allowed;
    if events != [] {
      StepSound(s, events[0]);
      StepAddsNoPanels(s, events[0]);
      UnwantedPanelsNever(Step(s, events[0]), events[1..]);
    }
  }
}
