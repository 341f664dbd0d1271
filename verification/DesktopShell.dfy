/** clients/desktop-shell.c: outputs own a panel and a background, which point
    back at their owner and outlive it when another output takes them over. A
    surface is a panel or a background, numbered in the order of creation. */
module DesktopShell {
  import opened Options

  datatype Kind = Panel | Background

  type SurfaceId = nat
  type OutputId = nat

  datatype Surface = Surface(kind: Kind, owner: OutputId)

  datatype Output = Output(id: OutputId, x: int, y: int, panel: Option<SurfaceId>, background: Option<SurfaceId>)

  /** surfaces are the live ones, destroyed logs every destruction. */
  datatype State = State(
    outputs: seq<Output>, surfaces: map<SurfaceId, Surface>, created: nat, destroyed: seq<SurfaceId>,
    wantPanel: bool, shell: bool, started: bool)

  datatype Event =
    | ShellGlobal
    | OutputGlobal(id: OutputId)
    | FinishStartUp
    | Geometry(id: OutputId, x: int, y: int)
    | Configure(surface: SurfaceId, width: int, height: int)
    | OutputGone(id: OutputId)
    | CleanUp

  // ---------- Operations ----------

  function Get(o: Output, kind: Kind): Option<SurfaceId> {
    match kind case Panel => o.panel case Background => o.background
  }

  function Put(o: Output, kind: Kind, v: Option<SurfaceId>): Output {
    match kind case Panel => o.(panel := v) case Background => o.(background := v)
  }

  function Assign(s: State, i: nat, kind: Kind, v: Option<SurfaceId>): State
    requires i < |s.outputs|
  {
    s.(outputs := s.outputs[i := Put(s.outputs[i], kind, v)])
  }

  /** panel_create, background_create */
  function Create(s: State, i: nat, kind: Kind): State
    requires i < |s.outputs|
  {
    var t := Assign(s, i, kind, Some(s.created));
    t.(surfaces := s.surfaces[s.created := Surface(kind, s.outputs[i].id)], created := s.created + 1)
  }

  /** output_init */
  function Init(s: State, i: nat): State
    requires i < |s.outputs|
  {
    Create(if s.wantPanel then Create(s, i, Panel) else s, i, Background)
  }

  /** panel_destroy or background_destroy, and the pointer cleared. */
  function Dismiss(s: State, i: nat, kind: Kind): State
    requires i < |s.outputs|
  {
    match Get(s.outputs[i], kind)
    case None => s
    case Some(x) => Assign(s, i, kind, None).(surfaces := s.surfaces - {x}, destroyed := s.destroyed + [x])
  }

  /** Output j takes a surface over from output i if it has none of that kind. */
  function HandOver(s: State, i: nat, j: nat, kind: Kind): State
    requires i < |s.outputs| && j < |s.outputs| && i != j
  {
    if Get(s.outputs[j], kind).Some? || Get(s.outputs[i], kind) == None then s
    else
      var x := Get(s.outputs[i], kind).value;
      Assign(Assign(s, j, kind, Some(x)), i, kind, None).(surfaces := s.surfaces[x := Surface(kind, s.outputs[j].id)])
  }

  function Unlink(s: State, i: nat): State
    requires i < |s.outputs|
  {
    s.(outputs := s.outputs[..i] + s.outputs[i + 1..])
  }

  /** output_destroy */
  function Destroy(s: State, i: nat): State
    requires i < |s.outputs|
  {
    Unlink(Dismiss(Dismiss(s, i, Background), i, Panel), i)
  }

  /** The first other output at the position of output i, or the number of
      outputs. */
  function Clone(outputs: seq<Output>, i: nat, from: nat): (j: nat)
    requires i < |outputs| && from <= |outputs|
    ensures from <= j <= |outputs|
    ensures j < |outputs| ==> j != i && outputs[j].x == outputs[i].x && outputs[j].y == outputs[i].y
    ensures forall k :: from <= k < j && k != i ==> outputs[k].x != outputs[i].x || outputs[k].y != outputs[i].y
    decreases |outputs| - from
  {
    if from == |outputs| || IsClone(outputs, i, from) then from else Clone(outputs, i, from + 1)
  }

  predicate IsClone(outputs: seq<Output>, i: nat, j: nat)
    requires i < |outputs| && j < |outputs|
  {
    j != i && outputs[j].x == outputs[i].x && outputs[j].y == outputs[i].y
  }

  /** output_remove */
  function Remove(s: State, i: nat): State
    requires i < |s.outputs|
  {
    var j := Clone(s.outputs, i, 0);
    if s.outputs[i].background == None || j == |s.outputs| then Destroy(s, i)
    else Destroy(HandOver(HandOver(s, i, j, Background), i, j, Panel), i)
  }

  /** The first output with that server id, or the number of outputs. */
  function Find(outputs: seq<Output>, id: OutputId): (i: nat)
    ensures i <= |outputs|
    ensures i < |outputs| ==> outputs[i].id == id
    ensures forall k :: 0 <= k < i ==> outputs[k].id != id
  {
    if outputs == [] || outputs[0].id == id then 0 else 1 + Find(outputs[1..], id)
  }

  /** main's loop over the outputs that came before the shell global. */
  function InitFrom(s: State, i: nat): State
    requires i <= |s.outputs|
    decreases |s.outputs| - i
  {
    if i == |s.outputs| then s
    else
      var t := if s.outputs[i].background == None then Init(s, i) else s;
      InitFrom(t, i + 1)
  }

  function DestroyAll(s: State): State
    decreases |s.outputs|
  {
    if s.outputs == [] then s else DestroyAll(Destroy(s, 0))
  }

  /** Server ids are unique, surfaces are addressed while they live, and neither
      a dismissal nor a removal comes before start-up is over. */
  predicate Allowed(s: State, ev: Event) {
    match ev
    case OutputGlobal(id) => Find(s.outputs, id) == |s.outputs|
    case FinishStartUp => s.shell && !s.started
    case Geometry(id, _, _) => Find(s.outputs, id) < |s.outputs|
    case Configure(x, _, _) => s.started && x in s.surfaces
    case OutputGone(_) => s.started
    case _ => true
  }

  function Step(s: State, ev: Event): State
    requires Sound(s) && Allowed(s, ev)
  {
    match ev
    case ShellGlobal => s.(shell := true)
    case OutputGlobal(id) =>
      var t := s.(outputs := [Output(id, 0, 0, None, None)] + s.outputs);
      if s.shell then Init(t, 0) else t
    case FinishStartUp => InitFrom(s, 0).(started := true)
    case Geometry(id, x, y) =>
      var i := Find(s.outputs, id);
      s.(outputs := s.outputs[i := s.outputs[i].(x := x, y := y)])
    case Configure(x, width, height) =>
      if width < 1 || height < 1 then
        OwnerListed(s, x);
        Dismiss(s, Find(s.outputs, s.surfaces[x].owner), s.surfaces[x].kind)
      else s
    case OutputGone(id) =>
      var i := Find(s.outputs, id);
      if i < |s.outputs| then Remove(s, i) else s
    case CleanUp => DestroyAll(s)
  }

  function Initial(wantPanel: bool): State {
    State([], map[], 0, [], wantPanel, false, false)
  }

  // ---------- The invariant ----------

  predicate DistinctIds(outputs: seq<Output>) {
    forall i, j :: 0 <= i < j < |outputs| ==> outputs[i].id != outputs[j].id
  }

  /** The pointer of output i and the back-pointer agree. */
  predicate Linked(s: State, i: nat, kind: Kind)
    requires i < |s.outputs|
  {
    Get(s.outputs[i], kind).Some? ==>
      var x := Get(s.outputs[i], kind).value;
      x in s.surfaces && s.surfaces[x] == Surface(kind, s.outputs[i].id)
  }

  /** The owner of a live surface is listed and points at it. */
  predicate Owned(s: State, x: SurfaceId)
    requires x in s.surfaces
  {
    var i := Find(s.outputs, s.surfaces[x].owner);
    i < |s.outputs| && Get(s.outputs[i], s.surfaces[x].kind) == Some(x)
  }

  /** How often a surface lives or was destroyed. */
  function Times(s: State, x: SurfaceId): nat {
    multiset(s.destroyed)[x] + if x in s.surfaces then 1 else 0
  }

  ghost predicate EachOnce(s: State) {
    forall x: SurfaceId :: Times(s, x) == if x < s.created then 1 else 0
  }

  /** Before start-up is over an output has both surfaces or neither. */
  predicate StartTidy(s: State) {
    s.started || forall i :: 0 <= i < |s.outputs| && s.outputs[i].background == None ==> s.outputs[i].panel == None
  }

  /** Owner pointers are the exact inverse of the outputs' pointers, and nothing
      is destroyed twice or lost. */
  ghost predicate Core(s: State) {
    && DistinctIds(s.outputs)
    && (forall i :: 0 <= i < |s.outputs| ==> Linked(s, i, Panel) && Linked(s, i, Background))
    && (forall x :: x in s.surfaces ==> Owned(s, x))
    && EachOnce(s)
  }

  ghost predicate Sound(s: State) {
    Core(s) && StartTidy(s)
  }

  lemma OwnerListed(s: State, x: SurfaceId)
    requires Sound(s) && x in s.surfaces
    ensures Find(s.outputs, s.surfaces[x].owner) < |s.outputs|
  {
    assert Owned(s, x);
  }

  lemma {:induction false} FindAt(outputs: seq<Output>, i: nat)
    requires DistinctIds(outputs) && i < |outputs|
    ensures Find(outputs, outputs[i].id) == i
  {
  }

  lemma OwnedBy(s: State, x: SurfaceId, i: nat)
    requires DistinctIds(s.outputs) && i < |s.outputs| && x in s.surfaces
    requires s.outputs[i].id == s.surfaces[x].owner && Get(s.outputs[i], s.surfaces[x].kind) == Some(x)
    ensures Owned(s, x)
  {
    FindAt(s.outputs, i);
  }

  /** Two outputs, or two kinds, never share a surface. */
  lemma SlotsApart(s: State, i: nat, k: Kind, j: nat, l: Kind)
    requires Core(s) && i < |s.outputs| && j < |s.outputs| && (i != j || k != l)
    requires Get(s.outputs[i], k).Some?
    ensures Get(s.outputs[j], l) != Get(s.outputs[i], k)
  {
    hide EachOnce, Owned;
    assert Linked(s, i, k) && Linked(s, j, l);
  }

  lemma LinkedAll(s: State)
    requires forall i, k :: 0 <= i < |s.outputs| ==> Linked(s, i, k)
    ensures forall i :: 0 <= i < |s.outputs| ==> Linked(s, i, Panel) && Linked(s, i, Background)
  {
  }

  // ---------- Creating, dismissing, handing over ----------

  predicate SameOutputs(a: seq<Output>, b: seq<Output>) {
    |a| == |b| && forall i :: 0 <= i < |a| ==> b[i].id == a[i].id && b[i].x == a[i].x && b[i].y == a[i].y
  }

  lemma LinkedOf(s: State, i: nat, k: Kind)
    requires Core(s) && i < |s.outputs|
    ensures Linked(s, i, k)
  {
    hide EachOnce, Owned;
    assert Linked(s, i, Panel) && Linked(s, i, Background);
  }

  /** The index of a live surface's owner. */
  function OwnerOf(s: State, x: SurfaceId): (i: nat)
    requires Core(s) && x in s.surfaces
    ensures i < |s.outputs| && s.outputs[i].id == s.surfaces[x].owner
            && Get(s.outputs[i], s.surfaces[x].kind) == Some(x)
  {
    assert Owned(s, x);
    Find(s.outputs, s.surfaces[x].owner)
  }

  lemma CreatedFresh(s: State)
    requires Core(s)
    ensures s.created !in s.surfaces && s.created !in s.destroyed
  {
    assert Times(s, s.created) == 0;
  }

  lemma CreateLinked(s: State, i: nat, kind: Kind, m: nat, k: Kind)
    requires Core(s) && i < |s.outputs| && Get(s.outputs[i], kind) == None
    requires m < |s.outputs|
    ensures |Create(s, i, kind).outputs| == |s.outputs| && Linked(Create(s, i, kind), m, k)
  {
    hide EachOnce, Owned, DistinctIds;
    LinkedOf(s, m, k);
    CreatedFresh(s);
  }

  lemma CreateOwned(s: State, i: nat, kind: Kind, x: SurfaceId)
    requires Core(s) && i < |s.outputs| && Get(s.outputs[i], kind) == None
    requires x in Create(s, i, kind).surfaces
    ensures DistinctIds(Create(s, i, kind).outputs) && Owned(Create(s, i, kind), x)
  {
    hide EachOnce, Find, Linked, Owned;
    if x == s.created { OwnedBy(Create(s, i, kind), x, i); } else { OwnedBy(Create(s, i, kind), x, OwnerOf(s, x)); }
  }

  lemma CreateTimes(s: State, i: nat, kind: Kind, x: SurfaceId)
    requires Core(s) && i < |s.outputs| && Get(s.outputs[i], kind) == None
    ensures var t := Create(s, i, kind); Times(t, x) == if x < t.created then 1 else 0
  {
    hide Owned, DistinctIds;
    CreatedFresh(s);
    assert Times(s, x) == if x < s.created then 1 else 0;
  }

  lemma CreateCore(s: State, i: nat, kind: Kind)
    requires Core(s) && i < |s.outputs| && Get(s.outputs[i], kind) == None
    ensures Core(Create(s, i, kind)) && |Create(s, i, kind).outputs| == |s.outputs|
  {
    hide Create, Linked, Owned, Times, DistinctIds;
    var t := Create(s, i, kind);
    CreateFrame(s, i, kind);
    forall m, k | 0 <= m < |t.outputs| ensures Linked(t, m, k) {
      CreateLinked(s, i, kind, m, k);
    }
    forall x | x in t.surfaces ensures Owned(t, x) {
      CreateOwned(s, i, kind, x);
    }
    forall x: SurfaceId ensures Times(t, x) == if x < t.created then 1 else 0 {
      CreateTimes(s, i, kind, x);
    }
  }

  /** The outputs stay, only slots change. */
  lemma CreateFrame(s: State, i: nat, kind: Kind)
    requires Core(s) && i < |s.outputs| && Get(s.outputs[i], kind) == None
    ensures SameOutputs(s.outputs, Create(s, i, kind).outputs) && DistinctIds(Create(s, i, kind).outputs)
  {
    hide EachOnce, Owned, Linked;
  }

  lemma DismissLinked(s: State, i: nat, kind: Kind, m: nat, k: Kind)
    requires Core(s) && i < |s.outputs|
    requires m < |s.outputs|
    ensures |Dismiss(s, i, kind).outputs| == |s.outputs| && Linked(Dismiss(s, i, kind), m, k)
  {
    hide EachOnce, Owned, DistinctIds;
    LinkedOf(s, m, k);
    if Get(s.outputs[i], kind).Some? && (m != i || k != kind) { SlotsApart(s, i, kind, m, k); }
  }

  lemma DismissOwned(s: State, i: nat, kind: Kind, x: SurfaceId)
    requires Core(s) && i < |s.outputs|
    requires x in Dismiss(s, i, kind).surfaces
    ensures DistinctIds(Dismiss(s, i, kind).outputs) && Owned(Dismiss(s, i, kind), x)
  {
    hide EachOnce, Find, Linked, Owned;
    OwnedBy(Dismiss(s, i, kind), x, OwnerOf(s, x));
  }

  lemma DismissTimes(s: State, i: nat, kind: Kind, x: SurfaceId)
    requires Core(s) && i < |s.outputs|
    ensures var t := Dismiss(s, i, kind); Times(t, x) == if x < t.created then 1 else 0
  {
    hide Owned, DistinctIds;
    LinkedOf(s, i, kind);
    assert Times(s, x) == if x < s.created then 1 else 0;
  }

  lemma DismissCore(s: State, i: nat, kind: Kind)
    requires Core(s) && i < |s.outputs|
    ensures Core(Dismiss(s, i, kind)) && |Dismiss(s, i, kind).outputs| == |s.outputs|
  {
    hide Dismiss, Linked, Owned, Times, DistinctIds;
    var t := Dismiss(s, i, kind);
    DismissFrame(s, i, kind);
    forall m, k | 0 <= m < |t.outputs| ensures Linked(t, m, k) {
      DismissLinked(s, i, kind, m, k);
    }
    forall x | x in t.surfaces ensures Owned(t, x) {
      DismissOwned(s, i, kind, x);
    }
    forall x: SurfaceId ensures Times(t, x) == if x < t.created then 1 else 0 {
      DismissTimes(s, i, kind, x);
    }
  }

  /** The outputs stay, only slots change. */
  lemma DismissFrame(s: State, i: nat, kind: Kind)
    requires Core(s) && i < |s.outputs|
    ensures SameOutputs(s.outputs, Dismiss(s, i, kind).outputs) && DistinctIds(Dismiss(s, i, kind).outputs)
  {
    hide EachOnce, Owned, Linked;
  }

  lemma HandOverLinked(s: State, i: nat, j: nat, kind: Kind, m: nat, k: Kind)
    requires Core(s) && i < |s.outputs| && j < |s.outputs| && i != j
    requires m < |s.outputs|
    ensures |HandOver(s, i, j, kind).outputs| == |s.outputs| && Linked(HandOver(s, i, j, kind), m, k)
  {
    hide EachOnce, Owned, DistinctIds;
    LinkedOf(s, m, k);
    if Get(s.outputs[i], kind).Some? && (m != i || k != kind) { SlotsApart(s, i, kind, m, k); }
  }

  lemma HandOverOwned(s: State, i: nat, j: nat, kind: Kind, x: SurfaceId)
    requires Core(s) && i < |s.outputs| && j < |s.outputs| && i != j
    requires x in HandOver(s, i, j, kind).surfaces
    ensures DistinctIds(HandOver(s, i, j, kind).outputs) && Owned(HandOver(s, i, j, kind), x)
  {
    hide EachOnce, Find, Linked, Owned;
    LinkedOf(s, i, kind);
    var t := HandOver(s, i, j, kind);
    if t != s && Get(s.outputs[i], kind) == Some(x) { OwnedBy(t, x, j); } else { OwnedBy(t, x, OwnerOf(s, x)); }
  }

  lemma HandOverTimes(s: State, i: nat, j: nat, kind: Kind, x: SurfaceId)
    requires Core(s) && i < |s.outputs| && j < |s.outputs| && i != j
    ensures var t := HandOver(s, i, j, kind); Times(t, x) == if x < t.created then 1 else 0
  {
    hide Owned, DistinctIds;
    LinkedOf(s, i, kind);
    assert Times(s, x) == if x < s.created then 1 else 0;
  }

  lemma HandOverCore(s: State, i: nat, j: nat, kind: Kind)
    requires Core(s) && i < |s.outputs| && j < |s.outputs| && i != j
    ensures Core(HandOver(s, i, j, kind)) && |HandOver(s, i, j, kind).outputs| == |s.outputs|
  {
    hide HandOver, Linked, Owned, Times, DistinctIds;
    var t := HandOver(s, i, j, kind);
    HandOverFrame(s, i, j, kind);
    forall m, k | 0 <= m < |t.outputs| ensures Linked(t, m, k) {
      HandOverLinked(s, i, j, kind, m, k);
    }
    forall x | x in t.surfaces ensures Owned(t, x) {
      HandOverOwned(s, i, j, kind, x);
    }
    forall x: SurfaceId ensures Times(t, x) == if x < t.created then 1 else 0 {
      HandOverTimes(s, i, j, kind, x);
    }
  }

  /** The outputs stay, only slots change. */
  lemma HandOverFrame(s: State, i: nat, j: nat, kind: Kind)
    requires Core(s) && i < |s.outputs| && j < |s.outputs| && i != j
    ensures SameOutputs(s.outputs, HandOver(s, i, j, kind).outputs) && DistinctIds(HandOver(s, i, j, kind).outputs)
  {
    hide EachOnce, Owned, Linked;
  }

  lemma UnlinkCore(s: State, i: nat)
    requires Core(s) && i < |s.outputs| && s.outputs[i].panel == None && s.outputs[i].background == None
    ensures Core(Unlink(s, i))
  {
    hide Find, Owned;
    var t := Unlink(s, i);
    forall j, k | 0 <= j < |t.outputs| ensures Linked(t, j, k) {
      hide Core, EachOnce;
      LinkedOf(s, if j < i then j else j + 1, k);
    }
    LinkedAll(t);
    forall x | x in t.surfaces ensures Owned(t, x) {
      hide EachOnce;
      var j := OwnerOf(s, x);
      OwnedBy(t, x, if j < i then j else j - 1);
    }
    assert forall x: SurfaceId :: Times(t, x) == Times(s, x);
  }

  /** A new output at the head of the list. */
  lemma HeadCore(s: State, o: Output)
    requires Core(s) && o.panel == None && o.background == None
    requires forall i :: 0 <= i < |s.outputs| ==> s.outputs[i].id != o.id
    ensures Core(s.(outputs := [o] + s.outputs))
  {
    hide Find, Owned;
    var t := s.(outputs := [o] + s.outputs);
    forall j, k | 0 <= j < |t.outputs| ensures Linked(t, j, k) {
      hide Core, EachOnce;
      if j > 0 { LinkedOf(s, j - 1, k); }
    }
    LinkedAll(t);
    forall x | x in t.surfaces ensures Owned(t, x) {
      hide EachOnce;
      OwnedBy(t, x, OwnerOf(s, x) + 1);
    }
    assert forall x: SurfaceId :: Times(t, x) == Times(s, x);
  }

  lemma MoveCore(s: State, i: nat, x: int, y: int)
    requires Core(s) && i < |s.outputs|
    ensures Core(s.(outputs := s.outputs[i := s.outputs[i].(x := x, y := y)]))
  {
    hide Find, Owned;
    var t := s.(outputs := s.outputs[i := s.outputs[i].(x := x, y := y)]);
    forall j, k | 0 <= j < |t.outputs| ensures Linked(t, j, k) {
      hide Core, EachOnce;
      LinkedOf(s, j, k);
    }
    LinkedAll(t);
    forall z | z in t.surfaces ensures Owned(t, z) {
      hide EachOnce;
      OwnedBy(t, z, OwnerOf(s, z));
    }
    assert forall z: SurfaceId :: Times(t, z) == Times(s, z);
  }

  // ---------- Events ----------

  lemma InitCore(s: State, i: nat)
    requires Core(s) && i < |s.outputs| && s.outputs[i].panel == None && s.outputs[i].background == None
    ensures var t := Init(s, i);
            && Core(t) && |t.outputs| == |s.outputs| && t.outputs[i].background.Some?
            && t.outputs == s.outputs[i := t.outputs[i]]
  {
    hide Core;
    if s.wantPanel { CreateCore(s, i, Panel); CreateCore(Create(s, i, Panel), i, Background); }
    else { CreateCore(s, i, Background); }
  }

  lemma {:induction false} InitFromSound(s: State, i: nat)
    requires Core(s) && i <= |s.outputs|
    requires forall j :: 0 <= j < |s.outputs| && s.outputs[j].background == None ==> s.outputs[j].panel == None
    ensures Core(InitFrom(s, i))
    decreases |s.outputs| - i
  {
    hide Core, Init;
    if i < |s.outputs| {
      if s.outputs[i].background == None { InitCore(s, i); }
      InitFromSound(if s.outputs[i].background == None then Init(s, i) else s, i + 1);
    }
  }

  lemma DestroyCore(s: State, i: nat)
    requires Core(s) && i < |s.outputs|
    ensures Core(Destroy(s, i)) && |Destroy(s, i).outputs| == |s.outputs| - 1
  {
    hide Core;
    DismissCore(s, i, Background);
    DismissCore(Dismiss(s, i, Background), i, Panel);
    UnlinkCore(Dismiss(Dismiss(s, i, Background), i, Panel), i);
  }

  lemma RemoveCore(s: State, i: nat)
    requires Core(s) && i < |s.outputs|
    ensures Core(Remove(s, i))
  {
    hide Core, Destroy, HandOver;
    var j := Clone(s.outputs, i, 0);
    if s.outputs[i].background == None || j == |s.outputs| {
      DestroyCore(s, i);
    } else {
      HandOverCore(s, i, j, Background);
      HandOverCore(HandOver(s, i, j, Background), i, j, Panel);
      DestroyCore(HandOver(HandOver(s, i, j, Background), i, j, Panel), i);
    }
  }

  lemma {:induction false} DestroyAllCore(s: State)
    requires Core(s)
    ensures Core(DestroyAll(s)) && DestroyAll(s).outputs == []
    ensures DestroyAll(s).created == s.created
    decreases |s.outputs|
  {
    hide Core;
    if s.outputs != [] {
      DestroyCore(s, 0);
      DestroyAllCore(Destroy(s, 0));
    }
  }

  /** Main result, one step: every event keeps the pointers inverse and every
      surface destroyed at most once. */
  lemma StepSound(s: State, ev: Event)
    requires Sound(s) && Allowed(s, ev)
    ensures Sound(Step(s, ev))
  {
    hide Core, Init, Remove, Dismiss;
    match ev
    case ShellGlobal => FlagsCore(s, true, s.started);
    case OutputGlobal(id) => OutputGlobalSound(s, id);
    case FinishStartUp => InitFromSound(s, 0); FlagsCore(InitFrom(s, 0), InitFrom(s, 0).shell, true);
    case Geometry(id, x, y) => MoveCore(s, Find(s.outputs, id), x, y);
    case Configure(x, _, _) =>
      OwnerListed(s, x);
      DismissCore(s, Find(s.outputs, s.surfaces[x].owner), s.surfaces[x].kind);
      StartedStays(s, ev);
    case OutputGone(id) =>
      if Find(s.outputs, id) < |s.outputs| { RemoveCore(s, Find(s.outputs, id)); }
      StartedStays(s, ev);
    case CleanUp => DestroyAllCore(s);
  }

  lemma FlagsCore(s: State, shell: bool, started: bool)
    requires Core(s)
    ensures Core(s.(shell := shell, started := started))
  {
    hide Find, Owned;
    var t := s.(shell := shell, started := started);
    forall j, k | 0 <= j < |t.outputs| ensures Linked(t, j, k) {
      hide Core, EachOnce;
      LinkedOf(s, j, k);
    }
    LinkedAll(t);
    forall x | x in t.surfaces ensures Owned(t, x) {
      hide EachOnce;
      OwnedBy(t, x, OwnerOf(s, x));
    }
    assert forall x: SurfaceId :: Times(t, x) == Times(s, x);
  }

  lemma StartedStays(s: State, ev: Event)
    requires Sound(s) && Allowed(s, ev) && s.started && (ev.Configure? || ev.OutputGone?)
    ensures Step(s, ev).started
  {
    hide Core, Find, Clone, IsClone;
    if ev.Configure? { OwnerListed(s, ev.surface); }
  }

  lemma OutputGlobalSound(s: State, id: OutputId)
    requires Sound(s) && Allowed(s, OutputGlobal(id))
    ensures Sound(Step(s, OutputGlobal(id)))
  {
    hide Core, Init;
    var o := Output(id, 0, 0, None, None);
    var t := s.(outputs := [o] + s.outputs);
    HeadCore(s, o);
    if s.shell { InitCore(t, 0); InitStart(t); }
  }

  lemma InitStart(s: State)
    requires |s.outputs| > 0
    ensures Init(s, 0).started == s.started
  {
  }

  ghost predicate AllowedRun(s: State, events: seq<Event>)
    requires Sound(s)
    decreases |events|
  {
    events == [] || (Allowed(s, events[0]) && (StepSound(s, events[0]); AllowedRun(Step(s, events[0]), events[1..])))
  }

  ghost function Run(s: State, events: seq<Event>): State
    requires Sound(s) && AllowedRun(s, events)
    decreases |events|
  {
    if events == [] then s
    else
      StepSound(s, events[0]);
      Run(Step(s, events[0]), events[1..])
  }

  lemma {:induction false} RunSound(s: State, events: seq<Event>)
    requires Sound(s) && AllowedRun(s, events)
    ensures Sound(Run(s, events))
    decreases |events|
  {
    hide Sound;
    if events != [] {
      StepSound(s, events[0]);
      RunSound(Step(s, events[0]), events[1..]);
    }
  }

  /** Main result: through creation, hand-over, dismissal and removal, in any
      order, owner pointers are the exact inverse of the outputs' pointers, and
      no surface is destroyed twice or while it is pointed at. */
  lemma {:induction false} OwnersInverse(s: State, events: seq<Event>, x: SurfaceId, kind: Kind, id: OutputId)
    requires Sound(s) && AllowedRun(s, events)
    ensures var t := Run(s, events);
            && (x in t.surfaces && t.surfaces[x] == Surface(kind, id) <==>
                  exists i :: 0 <= i < |t.outputs| && t.outputs[i].id == id && Get(t.outputs[i], kind) == Some(x))
            && multiset(t.destroyed)[x] <= 1
            && (x in t.surfaces ==> x !in t.destroyed)
  {
    hide Run, AllowedRun, Find, EachOnce;
    RunSound(s, events);
    var t := Run(s, events);
    AtMostDestroyedOnce(t, x);
    if x in t.surfaces { var i := OwnerOf(t, x); }
    forall i | 0 <= i < |t.outputs| && t.outputs[i].id == id && Get(t.outputs[i], kind) == Some(x)
      ensures x in t.surfaces && t.surfaces[x] == Surface(kind, id)
    {
      LinkedOf(t, i, kind);
    }
  }

  lemma AtMostDestroyedOnce(s: State, x: SurfaceId)
    requires Core(s)
    ensures multiset(s.destroyed)[x] <= 1 && (x in s.surfaces ==> x !in s.destroyed)
  {
    assert Times(s, x) <= 1;
  }

  lemma InitialSound(wantPanel: bool)
    ensures Sound(Initial(wantPanel))
  {
  }

  /** After cleaning up, every surface ever created was destroyed exactly once. */
  lemma CleanUpDestroysEachOnce(s: State, x: SurfaceId)
    requires Sound(s)
    ensures multiset(Step(s, CleanUp).destroyed)[x] == if x < s.created then 1 else 0
  {
    DestroyAllCore(s);
    var t := DestroyAll(s);
    assert Times(t, x) == if x < t.created then 1 else 0;
    assert x in t.surfaces ==> Owned(t, x);
  }

  // ---------- Hand-over ----------

  /** What dismissing does to the surfaces. */
  lemma DestroySurfaces(s: State, i: nat)
    requires i < |s.outputs|
    ensures Destroy(s, i).surfaces == s.surfaces - Held(s.outputs[i])
    ensures Destroy(s, i).outputs == s.outputs[..i] + s.outputs[i + 1..]
  {
  }

  function Held(o: Output): set<SurfaceId> {
    (if o.panel.Some? then {o.panel.value} else {}) + (if o.background.Some? then {o.background.value} else {})
  }

  lemma OneHandOver(s: State, i: nat, j: nat, kind: Kind)
    requires i < |s.outputs| && j < |s.outputs| && i != j
    ensures var t, a, b := HandOver(s, i, j, kind), s.outputs[i], s.outputs[j];
            && |t.outputs| == |s.outputs|
            && (forall m :: 0 <= m < |s.outputs| && m != i && m != j ==> t.outputs[m] == s.outputs[m])
            && t.outputs[j] == Put(b, kind, if Get(b, kind).Some? then Get(b, kind) else Get(a, kind))
            && t.outputs[i] == Put(a, kind, if Get(b, kind).Some? then Get(a, kind) else None)
            && (Get(a, kind).Some? && Get(b, kind) == None ==>
                  t.surfaces == s.surfaces[Get(a, kind).value := Surface(kind, b.id)])
            && (Get(a, kind) == None || Get(b, kind).Some? ==> t.surfaces == s.surfaces)
  {
  }

  /** Main result: a removed output's surface outlives it exactly if the output
      has a background and the first other output at its position lacks a surface
      of that kind; it then belongs to that output. So a panel without a
      background beside it is never handed over. */
  lemma {:induction false} SurvivesIff(s: State, i: nat, kind: Kind, x: SurfaceId)
    requires Core(s) && i < |s.outputs| && Get(s.outputs[i], kind) == Some(x)
    ensures var t, j := Remove(s, i), Clone(s.outputs, i, 0);
            && (x in t.surfaces <==>
                  s.outputs[i].background.Some? && j < |s.outputs| && Get(s.outputs[j], kind) == None)
            && (x in t.surfaces ==> t.surfaces[x] == Surface(kind, s.outputs[j].id))
  {
    hide EachOnce, Owned, Destroy, HandOver, Clone;
    LinkedOf(s, i, kind);
    var j := Clone(s.outputs, i, 0);
    DestroySurfaces(s, i);
    if s.outputs[i].background.Some? && j < |s.outputs| {
      SlotsApart(s, i, kind, j, if kind.Panel? then Background else Panel);
      SlotsApart(s, i, kind, i, if kind.Panel? then Background else Panel);
      OneHandOver(s, i, j, Background);
      OneHandOver(HandOver(s, i, j, Background), i, j, Panel);
      DestroySurfaces(HandOver(HandOver(s, i, j, Background), i, j, Panel), i);
    }
  }

  /** The clone is never left without what the removed output had, and no other
      output's surfaces or owners change. */
  lemma {:induction false} CloneKeepsBoth(s: State, i: nat, m: nat)
    requires Core(s) && i < |s.outputs| && m < |s.outputs| && m != i
    ensures var t, j, n := Remove(s, i), Clone(s.outputs, i, 0), if m < i then m else m - 1;
            && |t.outputs| == |s.outputs| - 1
            && (m != j ==> t.outputs[n] == s.outputs[m])
            && (m == j && s.outputs[i].background.Some? ==>
                  && t.outputs[n].background.Some?
                  && (t.outputs[n].panel.Some? <==> s.outputs[i].panel.Some? || s.outputs[m].panel.Some?))
  {
    hide EachOnce, Owned, Linked, Destroy, HandOver, Clone;
    var j := Clone(s.outputs, i, 0);
    DestroySurfaces(s, i);
    if s.outputs[i].background.Some? && j < |s.outputs| {
      OneHandOver(s, i, j, Background);
      OneHandOver(HandOver(s, i, j, Background), i, j, Panel);
      DestroySurfaces(HandOver(HandOver(s, i, j, Background), i, j, Panel), i);
    }
  }
}
