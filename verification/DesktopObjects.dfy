/** The objects of clients/desktop-shell.c and the pointers between them: every
    handler, working on the pointers, makes exactly the step of the model. */
module DesktopObjects {
  import opened DesktopShell
  import opened Options

  class SurfaceObject {
    const serial: SurfaceId
    const kind: Kind
    var owner: OutputObject

    constructor (serial: SurfaceId, kind: Kind, owner: OutputObject)
      ensures this.serial == serial && this.kind == kind && this.owner == owner
    {
      this.serial, this.kind, this.owner := serial, kind, owner;
    }
  }

  class OutputObject {
    const id: OutputId
    var x: int
    var y: int
    var panel: SurfaceObject?
    var background: SurfaceObject?

    constructor (id: OutputId)
      ensures this.id == id && x == y == 0 && panel == background == null
    {
      this.id := id;
      x, y, panel, background := 0, 0, null, null;
    }

    function Slot(kind: Kind): SurfaceObject?
      reads this
    {
      match kind case Panel => panel case Background => background
    }

    method SetSlot(kind: Kind, s: SurfaceObject?, ghost r: Output, ghost live: map<SurfaceId, SurfaceObject>)
      requires Agrees(this, r, live) && Points(s, Serial(s), live)
      modifies `panel, `background
      ensures Agrees(this, Put(r, kind, Serial(s)), live)
    {
      if kind.Panel? { panel := s; } else { background := s; }
    }

    method MoveTo(x: int, y: int, ghost r: Output, ghost live: map<SurfaceId, SurfaceObject>)
      requires Agrees(this, r, live)
      modifies `x, `y
      ensures Agrees(this, r.(x := x, y := y), live)
    {
      this.x, this.y := x, y;
    }
  }

  function Serial(s: SurfaceObject?): Option<SurfaceId> {
    if s == null then None else Some(s.serial)
  }

  /** An output object and its record agree, and what it points at is live. */
  ghost predicate Agrees(o: OutputObject, r: Output, live: map<SurfaceId, SurfaceObject>)
    reads o
  {
    && o.id == r.id && o.x == r.x && o.y == r.y
    && Points(o.panel, r.panel, live) && Points(o.background, r.background, live)
  }

  ghost predicate Points(s: SurfaceObject?, v: Option<SurfaceId>, live: map<SurfaceId, SurfaceObject>) {
    match v
    case None => s == null
    case Some(x) => x in live && live[x] == s
  }

  /** A live surface is the one recorded, and its owner a listed object. */
  ghost predicate Backs(s: SurfaceObject, x: SurfaceId, r: Surface, outputs: seq<OutputObject>)
    reads s
  {
    s.serial == x && s.owner in outputs && r == Surface(s.kind, s.owner.id)
  }

  lemma AgreesGrow(o: OutputObject, r: Output, live: map<SurfaceId, SurfaceObject>, x: SurfaceId, s: SurfaceObject)
    requires Agrees(o, r, live) && x !in live
    ensures Agrees(o, r, live[x := s])
  {
  }

  lemma AgreesDrop(o: OutputObject, r: Output, live: map<SurfaceId, SurfaceObject>, x: SurfaceId)
    requires Agrees(o, r, live) && r.panel != Some(x) && r.background != Some(x)
    ensures Agrees(o, r, live - {x})
  {
  }

  lemma AgreesSlot(o: OutputObject, r: Output, live: map<SurfaceId, SurfaceObject>, kind: Kind)
    requires Agrees(o, r, live)
    ensures o.id == r.id && Points(o.Slot(kind), Get(r, kind), live)
    ensures o.Slot(kind) == null <==> Get(r, kind) == None
    ensures o.Slot(kind) != null ==> Get(r, kind).value in live && live[Get(r, kind).value] == o.Slot(kind)
  {
  }

  lemma BacksFacts(s: SurfaceObject, x: SurfaceId, r: Surface, outputs: seq<OutputObject>)
    requires Backs(s, x, r, outputs)
    ensures s.serial == x && s.owner in outputs && s.kind == r.kind && s.owner.id == r.owner
  {
  }

  class Desktop {
    /** The list of outputs, the newest first. */
    var outputs: seq<OutputObject>
    const wantPanel: bool
    var shell: bool
    var started: bool
    var created: nat
    /** The surfaces not yet freed. */
    ghost var live: map<SurfaceId, SurfaceObject>
    ghost var model: State

    ghost predicate Valid()
      reads this, outputs, live.Values
    {
      && Core(model)
      && Coupled()
      && model.wantPanel == wantPanel && model.shell == shell && model.started == started && model.created == created
    }

    ghost predicate Coupled()
      reads this, outputs, live.Values
    {
      && |outputs| == |model.outputs|
      && (forall i :: 0 <= i < |outputs| ==> Agrees(outputs[i], model.outputs[i], live))
      && live.Keys == model.surfaces.Keys
      && (forall x :: x in live ==> Backs(live[x], x, model.surfaces[x], outputs))
    }

    constructor (wantPanel: bool)
      ensures Valid() && model == Initial(wantPanel)
    {
      outputs, this.wantPanel, shell, started, created := [], wantPanel, false, false, 0;
      live, model := map[], Initial(wantPanel);
      new;
      InitialSound(wantPanel);
    }

    lemma Apart(i: nat)
      requires Valid() && i < |outputs|
      ensures forall j :: 0 <= j < |outputs| && j != i ==> outputs[j] != outputs[i]
    {
      hide EachOnce;
      forall j | 0 <= j < |outputs| && j != i ensures outputs[j] != outputs[i] {
        hide Linked, Owned, Points;
        assert Agrees(outputs[i], model.outputs[i], live) && Agrees(outputs[j], model.outputs[j], live);
      }
    }

    /** panel_create or background_create, and the pointer to it. */
    method CreateSurface(i: nat, kind: Kind)
      requires Valid() && i < |outputs| && outputs[i].Slot(kind) == null
      modifies this, outputs[i]
      ensures Valid() && model == Create(old(model), i, kind) && outputs == old(outputs)
    {
      hide Core, Agrees, Backs, Points, Create, Put, Get;
      Apart(i);
      AgreesSlot(outputs[i], model.outputs[i], live, kind);
      CreateCore(model, i, kind);
      CreatedFresh(model);
      CreateParts(model, i, kind);
      var s := new SurfaceObject(created, kind, outputs[i]);
      forall j | 0 <= j < |outputs| ensures Agrees(outputs[j], model.outputs[j], live[created := s]) {
        AgreesGrow(outputs[j], model.outputs[j], live, created, s);
      }
      Backed(s, outputs);
      live := live[created := s];
      PointsLive(s, live);
      outputs[i].SetSlot(kind, s, model.outputs[i], live);
      model := Create(model, i, kind);
      created := created + 1;
      assert Coupled();
    }

    /** The destruction of the surface in a slot, if there is one. */
    method DismissSurface(i: nat, kind: Kind)
      requires Valid() && i < |outputs|
      modifies this, outputs[i]
      ensures Valid() && model == Dismiss(old(model), i, kind) && outputs == old(outputs)
    {
      AgreesSlot(outputs[i], model.outputs[i], live, kind);
      if outputs[i].Slot(kind) != null {
        FreeSurface(outputs[i], i, kind);
      }
    }

    /** panel_destroy or background_destroy, and the pointer cleared. */
    method FreeSurface(o: OutputObject, ghost i: nat, kind: Kind)
      requires Valid() && i < |outputs| && outputs[i] == o && o.Slot(kind) != null
      modifies this, o
      ensures Valid() && model == Dismiss(old(model), i, kind) && outputs == old(outputs)
    {
      hide Core, Agrees, Backs, Points, Dismiss, Put, Get;
      Apart(i);
      AgreesSlot(o, model.outputs[i], live, kind);
      DismissCore(model, i, kind);
      ghost var c := Get(model.outputs[i], kind).value;
      DismissParts(model, i, kind);
      PointsNull(live);
      o.SetSlot(kind, null, model.outputs[i], live);
      model := Dismiss(model, i, kind);
      forall j | 0 <= j < |outputs| ensures Agrees(outputs[j], model.outputs[j], live - {c}) {
        AgreesDrop(outputs[j], model.outputs[j], live, c);
      }
      live := live - {c};
      assert Coupled();
    }

    lemma Serials()
      requires Valid()
      ensures forall x :: x in live ==> live[x].serial == x
    {
      forall x | x in live ensures live[x].serial == x {
        BacksFacts(live[x], x, model.surfaces[x], outputs);
      }
    }

    /** One half of the hand-over in output_remove. */
    method HandOverSurface(i: nat, j: nat, kind: Kind)
      requires Valid() && i < |outputs| && j < |outputs| && i != j
      modifies this, outputs[i], outputs[j], live.Values
      ensures Valid() && model == HandOver(old(model), i, j, kind) && outputs == old(outputs) && live == old(live)
    {
      hide Core, Agrees, Backs, Points, HandOver, Put, Get;
      AgreesSlot(outputs[i], model.outputs[i], live, kind);
      AgreesSlot(outputs[j], model.outputs[j], live, kind);
      HandOverNothing(model, i, j, kind);
      if outputs[j].Slot(kind) == null && outputs[i].Slot(kind) != null {
        TakeOver(outputs[i].Slot(kind), i, j, kind);
      }
    }

    lemma KindLinked(s: SurfaceObject, i: nat, kind: Kind)
      requires Valid() && i < |outputs| && outputs[i].Slot(kind) == s
      ensures s.kind == kind && s.owner == outputs[i] && s.serial in live && live[s.serial] == s
    {
      hide Core, Agrees, Backs, Points, Get;
      Serials();
      AgreesSlot(outputs[i], model.outputs[i], live, kind);
      LinkedOf(model, i, kind);
      BacksFacts(s, s.serial, model.surfaces[s.serial], outputs);
      OwnerAt(s, i);
    }

    lemma OwnerAt(s: SurfaceObject, i: nat)
      requires Valid() && s.owner in outputs && i < |outputs| && s.owner.id == model.outputs[i].id
      ensures s.owner == outputs[i]
    {
      hide Linked, Owned, EachOnce, Points, Find;
      var m :| 0 <= m < |outputs| && outputs[m] == s.owner;
      assert Agrees(outputs[m], model.outputs[m], live);
    }

    method TakeOver(s: SurfaceObject, i: nat, j: nat, kind: Kind)
      requires Valid() && i < |outputs| && j < |outputs| && i != j
      requires outputs[i].Slot(kind) == s && outputs[j].Slot(kind) == null
      modifies this, outputs[i], outputs[j], s
      ensures Valid() && model == HandOver(old(model), i, j, kind) && outputs == old(outputs) && live == old(live)
    {
      hide Core, Agrees, Backs, Points, HandOver, Put, Get;
      Apart(i);
      Apart(j);
      Serials();
      AgreesSlot(outputs[i], model.outputs[i], live, kind);
      AgreesSlot(outputs[j], model.outputs[j], live, kind);
      HandOverParts(model, i, j, kind);
      HandOverCore(model, i, j, kind);
      assert s.kind == kind by { KindLinked(s, i, kind); }
      PointsLive(s, live);
      PointsNull(live);
      outputs[j].SetSlot(kind, s, model.outputs[j], live);
      outputs[i].SetSlot(kind, null, model.outputs[i], live);
      s.owner := outputs[j];
      Backed(s, outputs);
      model := HandOver(model, i, j, kind);
      assert Coupled();
    }

    /** output_init */
    method InitOutput(i: nat)
      requires Valid() && i < |outputs| && outputs[i].panel == null && outputs[i].background == null
      modifies this, outputs[i]
      ensures Valid() && model == Init(old(model), i) && outputs == old(outputs)
    {
      hide Core, Agrees, Create;
      if wantPanel {
        AgreesSlot(outputs[i], model.outputs[i], live, Background);
        CreateParts(model, i, Panel);
        CreateSurface(i, Panel);
        AgreesSlot(outputs[i], model.outputs[i], live, Background);
      }
      CreateSurface(i, Background);
    }

    /** wl_list_remove on an output that holds nothing any more */
    method UnlinkOutput(i: nat)
      requires Valid() && i < |outputs| && outputs[i].panel == null && outputs[i].background == null
      modifies this
      ensures Valid() && model == Unlink(old(model), i) && outputs == old(outputs)[..i] + old(outputs)[i + 1..]
    {
      hide Core, Agrees, Backs;
      AgreesSlot(outputs[i], model.outputs[i], live, Panel);
      AgreesSlot(outputs[i], model.outputs[i], live, Background);
      UnlinkCore(model, i);
      forall x | x in live ensures Backs(live[x], x, model.surfaces[x], outputs[..i] + outputs[i + 1..]) {
        StillBacked(x, i);
      }
      outputs := outputs[..i] + outputs[i + 1..];
      model := Unlink(model, i);
      assert Coupled();
    }

    /** An output that holds nothing owns nothing. */
    lemma StillBacked(x: SurfaceId, i: nat)
      requires Valid() && i < |outputs| && outputs[i].panel == null && outputs[i].background == null && x in live
      ensures Backs(live[x], x, model.surfaces[x], outputs[..i] + outputs[i + 1..])
    {
      var m := OwnerOf(model, x);
      hide Linked, Owned, EachOnce, Find;
      AgreesSlot(outputs[m], model.outputs[m], live, model.surfaces[x].kind);
      OwnerAt(live[x], m);
      assert m < i ==> (outputs[..i] + outputs[i + 1..])[m] == outputs[m];
      assert m > i ==> (outputs[..i] + outputs[i + 1..])[m - 1] == outputs[m];
    }

    /** output_destroy */
    method OutputDestroy(i: nat)
      requires Valid() && i < |outputs|
      modifies this, outputs[i]
      ensures Valid() && model == Destroy(old(model), i) && outputs == old(outputs)[..i] + old(outputs)[i + 1..]
    {
      hide Core, Agrees, Dismiss, Unlink;
      DismissedSlot(model, i, Background);
      DismissSurface(i, Background);
      DismissedSlot(model, i, Panel);
      DismissSurface(i, Panel);
      AgreesSlot(outputs[i], model.outputs[i], live, Panel);
      AgreesSlot(outputs[i], model.outputs[i], live, Background);
      UnlinkOutput(i);
    }

    /** The search of output_remove for a clone. */
    method FindClone(i: nat) returns (j: nat)
      requires Valid() && i < |outputs|
      ensures j == Clone(model.outputs, i, 0)
    {
      hide Core;
      j := 0;
      while j < |outputs| && !(outputs[j] != outputs[i] && outputs[j].x == outputs[i].x && outputs[j].y == outputs[i].y)
        invariant j <= |outputs| && forall k :: 0 <= k < j ==> !IsClone(model.outputs, i, k)
      {
        Same(i, j);
        j := j + 1;
      }
      if j < |outputs| { Same(i, j); }
      CloneAt(model.outputs, i, j);
    }

    lemma Same(i: nat, j: nat)
      requires Valid() && i < |outputs| && j < |outputs|
      ensures IsClone(model.outputs, i, j) <==>
              outputs[j] != outputs[i] && outputs[j].x == outputs[i].x && outputs[j].y == outputs[i].y
    {
      hide Core;
      Apart(i);
      assert Agrees(outputs[i], model.outputs[i], live) && Agrees(outputs[j], model.outputs[j], live);
    }

    /** output_remove */
    method OutputRemove(i: nat)
      requires Valid() && i < |outputs|
      modifies this, outputs, live.Values
      ensures Valid() && model == Remove(old(model), i)
    {
      hide Core, Agrees, Destroy, HandOver, Clone;
      AgreesSlot(outputs[i], model.outputs[i], live, Background);
      if outputs[i].background == null {
        OutputDestroy(i);
        return;
      }
      var j := FindClone(i);
      if j < |outputs| {
        HandOverSurface(i, j, Background);
        HandOverSurface(i, j, Panel);
      }
      OutputDestroy(i);
    }

    // ---------- Handlers ----------

    ghost predicate Ready()
      reads this, outputs, live.Values
    {
      Valid() && Sound(model)
    }

    /** global_handler, for the shell */
    method ShellGlobal()
      requires Ready()
      modifies this
      ensures Ready() && model == Step(old(model), Event.ShellGlobal)
    {
      hide Core, Agrees, Backs;
      StepSound(model, Event.ShellGlobal);
      shell := true;
      model := model.(shell := true);
    }

    /** create_output */
    method OutputGlobal(id: OutputId)
      requires Ready() && Find(model.outputs, id) == |model.outputs|
      modifies this
      ensures Ready() && model == Step(old(model), Event.OutputGlobal(id))
    {
      hide Core, Agrees, Backs, Init;
      StepSound(model, Event.OutputGlobal(id));
      var o := AddOutput(id);
      if shell {
        InitOutput(0);
      }
    }

    method AddOutput(id: OutputId) returns (o: OutputObject)
      requires Valid() && Find(model.outputs, id) == |model.outputs|
      modifies `outputs, `model
      ensures Valid() && fresh(o) && outputs == [o] + old(outputs) && o.panel == o.background == null
      ensures model == old(model).(outputs := [Output(id, 0, 0, None, None)] + old(model).outputs)
    {
      hide Core, Agrees, Backs;
      HeadCore(model, Output(id, 0, 0, None, None));
      o := new OutputObject(id);
      AgreesNew(o, live);
      forall x | x in live ensures Backs(live[x], x, model.surfaces[x], [o] + outputs) {
        BacksMore(live[x], x, model.surfaces[x], outputs, o);
      }
      outputs := [o] + outputs;
      model := model.(outputs := [Output(id, 0, 0, None, None)] + model.outputs);
      assert Coupled();
    }

    /** main, after the first roundtrips */
    method FinishStartUp()
      requires Ready() && Allowed(model, Event.FinishStartUp)
      modifies this, outputs
      ensures Ready() && model == Step(old(model), Event.FinishStartUp)
    {
      hide Core, Agrees, Backs, InitFrom;
      StepSound(model, Event.FinishStartUp);
      InitOutputs();
      started := true;
      FlagsCore(model, model.shell, true);
      model := model.(started := true);
    }

    /** The loop over the outputs that came before the shell. */
    method InitOutputs()
      requires Valid()
      requires forall j :: 0 <= j < |model.outputs| && model.outputs[j].background == None ==>
               model.outputs[j].panel == None
      modifies this, outputs
      ensures Valid() && model == InitFrom(old(model), 0)
    {
      hide Core, Coupled, Init;
      Slots();
      ghost var was := model;
      var i := 0;
      while i < |outputs|
        invariant i <= |outputs| && Valid() && outputs == old(outputs)
        invariant |outputs| == |model.outputs|
        invariant forall j :: i <= j < |model.outputs| && model.outputs[j].background == None ==>
            model.outputs[j].panel == None
        invariant InitFrom(model, i) == InitFrom(was, 0)
      {
        Slots();
        if outputs[i].background == null {
          InitCore(model, i);
          InitOutput(i);
        }
        i := i + 1;
      }
    }

    lemma Slots()
      requires Valid()
      ensures |outputs| == |model.outputs|
      ensures forall i :: 0 <= i < |outputs| ==>
                (outputs[i].panel == null <==> model.outputs[i].panel == None)
                && (outputs[i].background == null <==> model.outputs[i].background == None)
    {
      hide Core, Backs;
      forall i | 0 <= i < |outputs|
        ensures outputs[i].panel == null <==> model.outputs[i].panel == None
        ensures outputs[i].background == null <==> model.outputs[i].background == None
      {
        AgreesSlot(outputs[i], model.outputs[i], live, Panel);
        AgreesSlot(outputs[i], model.outputs[i], live, Background);
      }
    }

    /** output_handle_geometry */
    method Geometry(i: nat, x: int, y: int)
      requires Ready() && i < |outputs|
      modifies outputs[i], `model
      ensures Ready() && model == Step(old(model), Event.Geometry(old(model).outputs[i].id, x, y))
    {
      hide Core, Agrees, Backs, Step, Allowed, StartTidy;
      GeometryStep(model, i, x, y);
      Apart(i);
      outputs[i].MoveTo(x, y, model.outputs[i], live);
      model := model.(outputs := model.outputs[i := model.outputs[i].(x := x, y := y)]);
      assert Coupled();
    }

    /** panel_configure and background_configure: a redundant surface is
        dismissed through its owner. */
    method SurfaceConfigure(s: SurfaceObject, width: int, height: int)
      requires Ready() && Allowed(model, Event.Configure(s.serial, width, height))
      requires s.serial in live && live[s.serial] == s
      modifies this, s.owner
      ensures Ready() && model == Step(old(model), Event.Configure(s.serial, width, height))
    {
      hide Core, Agrees, Backs, Dismiss, Linked;
      StepSound(model, Event.Configure(s.serial, width, height));
      if width < 1 || height < 1 {
        ghost var i := OwnerOf(model, s.serial);
        BacksFacts(s, s.serial, model.surfaces[s.serial], outputs);
        OwnerAt(s, i);
        AgreesSlot(outputs[i], model.outputs[i], live, s.kind);
        FreeSurface(s.owner, i, s.kind);
      }
    }

    /** global_handler_remove: the search for the output, and its removal */
    method OutputGone(id: OutputId)
      requires Ready() && Allowed(model, Event.OutputGone(id))
      modifies this, outputs, live.Values
      ensures Ready() && model == Step(old(model), Event.OutputGone(id))
    {
      hide Core, Agrees, Backs, Remove;
      StepSound(model, Event.OutputGone(id));
      var i := FindOutput(id);
      if i < |outputs| {
        OutputRemove(i);
      }
    }

    method FindOutput(id: OutputId) returns (i: nat)
      requires Valid()
      ensures i == Find(model.outputs, id) && |outputs| == |model.outputs|
    {
      hide Core, Agrees, Backs;
      i := 0;
      while i < |outputs| && outputs[i].id != id
        invariant i <= |outputs| && forall k :: 0 <= k < i ==> model.outputs[k].id != id
      {
        AgreesSlot(outputs[i], model.outputs[i], live, Panel);
        i := i + 1;
      }
      if i < |outputs| { AgreesSlot(outputs[i], model.outputs[i], live, Panel); }
      FindFirst(model.outputs, id, i);
    }

    /** desktop_destroy_outputs */
    method CleanUp()
      requires Ready()
      modifies this, outputs
      ensures Ready() && model == Step(old(model), Event.CleanUp) && outputs == []
    {
      hide Core, Agrees, Backs, Destroy;
      StepSound(model, Event.CleanUp);
      ghost var was := model;
      while outputs != []
        invariant Valid() && DestroyAll(model) == DestroyAll(was)
        invariant forall o :: o in outputs ==> o in old(outputs)
        decreases |outputs|
      {
        assert outputs[0] in old(outputs);
        OutputDestroy(0);
      }
    }
  }

  lemma AgreesNew(o: OutputObject, live: map<SurfaceId, SurfaceObject>)
    requires o.x == o.y == 0 && o.panel == o.background == null
    ensures Agrees(o, Output(o.id, 0, 0, None, None), live)
  {
  }

  lemma BacksMore(s: SurfaceObject, x: SurfaceId, r: Surface, outputs: seq<OutputObject>, o: OutputObject)
    requires Backs(s, x, r, outputs)
    ensures Backs(s, x, r, [o] + outputs)
  {
  }

  lemma GeometryStep(s: State, i: nat, x: int, y: int)
    requires Sound(s) && i < |s.outputs|
    ensures Allowed(s, Event.Geometry(s.outputs[i].id, x, y))
    ensures var t := Step(s, Event.Geometry(s.outputs[i].id, x, y));
            Sound(t) && t == s.(outputs := s.outputs[i := s.outputs[i].(x := x, y := y)])
  {
    FindAt(s.outputs, i);
    hide Core;
    StepSound(s, Event.Geometry(s.outputs[i].id, x, y));
  }

  lemma {:induction false} FindFirst(outputs: seq<Output>, id: OutputId, i: nat)
    requires i <= |outputs| && (forall k :: 0 <= k < i ==> outputs[k].id != id)
    requires i < |outputs| ==> outputs[i].id == id
    ensures Find(outputs, id) == i
  {
  }

  lemma DismissedSlot(s: State, i: nat, kind: Kind)
    requires i < |s.outputs|
    ensures var t := Dismiss(s, i, kind);
            && |t.outputs| == |s.outputs| && Get(t.outputs[i], kind) == None
            && forall k :: k != kind ==> Get(t.outputs[i], k) == Get(s.outputs[i], k)
  {
  }

  lemma {:induction false} CloneAt(outputs: seq<Output>, i: nat, j: nat)
    requires i < |outputs| && j <= |outputs| && forall k :: 0 <= k < j ==> !IsClone(outputs, i, k)
    requires j < |outputs| ==> IsClone(outputs, i, j)
    ensures Clone(outputs, i, 0) == j
  {
    var c := Clone(outputs, i, 0);
    assert c < j ==> IsClone(outputs, i, c);
    assert !(c > j);
  }

  lemma HandOverNothing(s: State, i: nat, j: nat, kind: Kind)
    requires i < |s.outputs| && j < |s.outputs| && i != j
    ensures Get(s.outputs[j], kind).Some? || Get(s.outputs[i], kind) == None ==> HandOver(s, i, j, kind) == s
  {
  }

  lemma HandOverParts(s: State, i: nat, j: nat, kind: Kind)
    requires i < |s.outputs| && j < |s.outputs| && i != j
    requires Get(s.outputs[i], kind).Some? && Get(s.outputs[j], kind) == None
    ensures var t, c := HandOver(s, i, j, kind), Get(s.outputs[i], kind);
            && t.outputs == s.outputs[j := Put(s.outputs[j], kind, c)][i := Put(s.outputs[i], kind, None)]
            && t.surfaces == s.surfaces[c.value := Surface(kind, s.outputs[j].id)] && t.created == s.created
            && t.wantPanel == s.wantPanel && t.shell == s.shell && t.started == s.started
  {
  }

  lemma CreateParts(s: State, i: nat, kind: Kind)
    requires i < |s.outputs|
    ensures var t := Create(s, i, kind);
            && t.outputs == s.outputs[i := Put(s.outputs[i], kind, Some(s.created))]
            && t.surfaces == s.surfaces[s.created := Surface(kind, s.outputs[i].id)] && t.created == s.created + 1
            && t.wantPanel == s.wantPanel && t.shell == s.shell && t.started == s.started
  {
  }

  lemma DismissParts(s: State, i: nat, kind: Kind)
    requires Core(s) && i < |s.outputs| && Get(s.outputs[i], kind).Some?
    ensures var t, c := Dismiss(s, i, kind), Get(s.outputs[i], kind).value;
            && t.outputs == s.outputs[i := Put(s.outputs[i], kind, None)]
            && t.surfaces == s.surfaces - {c} && t.created == s.created
            && t.wantPanel == s.wantPanel && t.shell == s.shell && t.started == s.started
            && forall j :: 0 <= j < |t.outputs| ==> t.outputs[j].panel != Some(c) && t.outputs[j].background != Some(c)
  {
    var t, c := Dismiss(s, i, kind), Get(s.outputs[i], kind).value;
    forall j | 0 <= j < |t.outputs| ensures t.outputs[j].panel != Some(c) && t.outputs[j].background != Some(c) {
      hide Core;
      if j != i || kind != Panel { SlotsApart(s, i, kind, j, Panel); }
      if j != i || kind != Background { SlotsApart(s, i, kind, j, Background); }
    }
  }

  lemma Backed(s: SurfaceObject, outputs: seq<OutputObject>)
    requires s.owner in outputs
    ensures Backs(s, s.serial, Surface(s.kind, s.owner.id), outputs)
  {
  }

  lemma PointsLive(s: SurfaceObject, live: map<SurfaceId, SurfaceObject>)
    requires s.serial in live && live[s.serial] == s
    ensures Points(s, Serial(s), live)
  {
  }

  lemma PointsNull(live: map<SurfaceId, SurfaceObject>)
    ensures Points(null, Serial(null), live)
  {
  }
}
