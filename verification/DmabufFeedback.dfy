/** clients/simple-dmabuf-feedback.c: dma-buf feedback accumulates in a pending
    copy, tranche by tranche, and replaces the active copy when it is done. The
    format table is a mapping handed from one copy to the other. A mapping is
    numbered in the order of its creation; a failing mmap is not modelled. */
module DmabufFeedback {
  import opened CInt
  import opened Options

  /** A format code and a 64-bit modifier. */
  datatype Pair = Pair(format: nat, modifier: nat)

  datatype DrmFormat = DrmFormat(format: nat, modifiers: seq<nat>)

  datatype Table = Table(id: nat, entries: seq<Pair>)

  datatype Tranche = Tranche(targetDevice: nat, scanout: bool, formats: seq<DrmFormat>)

  datatype Feedback = Feedback(mainDevice: nat, table: Option<Table>, tranches: seq<Tranche>, pendingTranche: Tranche)

  /** unmapped logs the calls of munmap; leaked is what nothing points to any
      more although it was never unmapped. */
  datatype State = State(
    active: Feedback, pending: Feedback, mapped: nat, unmapped: seq<nat>, leaked: seq<nat>, failed: bool)

  datatype Event =
    | FormatTable(entries: seq<Pair>)
    | MainDevice(device: nat)
    | TargetDevice(device: nat)
    | TrancheFlags(flags: uint32)
    | TrancheFormats(indices: seq<nat>)
    | TrancheDone
    | Done

  // ---------- Format lists ----------

  /** drm_format_array_add_format: the entry of a format, new at the end. */
  function IndexOf(formats: seq<DrmFormat>, format: nat): (i: nat)
    ensures i <= |formats|
    ensures i < |formats| ==> formats[i].format == format
    ensures forall k :: 0 <= k < i ==> formats[k].format != format
  {
    if formats == [] || formats[0].format == format then 0 else 1 + IndexOf(formats[1..], format)
  }

  function WithFormat(formats: seq<DrmFormat>, format: nat): seq<DrmFormat> {
    if IndexOf(formats, format) < |formats| then formats else formats + [DrmFormat(format, [])]
  }

  /** drm_format_add_modifier */
  function WithModifier(f: DrmFormat, modifier: nat): DrmFormat {
    if modifier in f.modifiers then f else f.(modifiers := f.modifiers + [modifier])
  }

  function AddPair(formats: seq<DrmFormat>, p: Pair): seq<DrmFormat> {
    var i, grown := IndexOf(formats, p.format), WithFormat(formats, p.format);
    grown[i := WithModifier(grown[i], p.modifier)]
  }

  function AddAll(formats: seq<DrmFormat>, table: seq<Pair>, indices: seq<nat>): seq<DrmFormat>
    requires InRange(table, indices)
  {
    if indices == [] then formats
    else
      var n := |indices| - 1;
      AddPair(AddAll(formats, table, indices[..n]), table[indices[n]])
  }

  predicate InRange(table: seq<Pair>, indices: seq<nat>) {
    forall j :: 0 <= j < |indices| ==> indices[j] < |table|
  }

  /** The list offers the pair. */
  predicate Offers(formats: seq<DrmFormat>, p: Pair) {
    exists i :: 0 <= i < |formats| && Lists(formats[i], p)
  }

  predicate Lists(f: DrmFormat, p: Pair) {
    f.format == p.format && p.modifier in f.modifiers
  }

  predicate DistinctNats(s: seq<nat>) {
    forall i, j :: 0 <= i < j < |s| ==> s[i] != s[j]
  }

  /** No format is listed twice, and no modifier twice under one format. */
  predicate NoDuplicates(formats: seq<DrmFormat>) {
    && (forall i, j :: 0 <= i < j < |formats| ==> formats[i].format != formats[j].format)
    && (forall i :: 0 <= i < |formats| ==> DistinctNats(formats[i].modifiers))
  }

  lemma WithModifierFacts(f: DrmFormat, modifier: nat)
    requires DistinctNats(f.modifiers)
    ensures DistinctNats(WithModifier(f, modifier).modifiers)
    ensures forall m :: m in WithModifier(f, modifier).modifiers <==> m in f.modifiers || m == modifier
  {
  }

  lemma AddPairKeepsDistinct(formats: seq<DrmFormat>, p: Pair)
    requires NoDuplicates(formats)
    ensures NoDuplicates(AddPair(formats, p))
  {
    var i, grown := IndexOf(formats, p.format), WithFormat(formats, p.format);
    WithModifierFacts(grown[i], p.modifier);
  }

  /** Adding a pair adds that pair and nothing else. */
  lemma AddPairOffers(formats: seq<DrmFormat>, p: Pair, q: Pair)
    requires NoDuplicates(formats)
    ensures Offers(AddPair(formats, p), q) <==> Offers(formats, q) || q == p
  {
    var i, grown, r := IndexOf(formats, p.format), WithFormat(formats, p.format), AddPair(formats, p);
    WithModifierFacts(grown[i], p.modifier);
    assert Lists(r[i], q) <==> (i < |formats| && Lists(formats[i], q)) || q == p;
    forall k | 0 <= k < |formats| && k != i ensures r[k] == formats[k] {}
    if Offers(formats, q) {
      var k :| 0 <= k < |formats| && Lists(formats[k], q);
      assert Lists(r[k], q);
    }
  }

  /** The pairs that indices name in a table. */
  function Named(table: seq<Pair>, indices: seq<nat>): set<Pair>
    requires InRange(table, indices)
  {
    set j | 0 <= j < |indices| :: table[indices[j]]
  }

  /** Adding the pairs that a list of indices names adds exactly those. */
  lemma {:induction false} AddAllOffers(formats: seq<DrmFormat>, table: seq<Pair>, indices: seq<nat>, q: Pair)
    requires NoDuplicates(formats) && InRange(table, indices)
    ensures NoDuplicates(AddAll(formats, table, indices))
    ensures Offers(AddAll(formats, table, indices), q) <==> Offers(formats, q) || q in Named(table, indices)
    decreases |indices|
  {
    if indices != [] {
      hide NoDuplicates, Offers, AddPair;
      var n := |indices| - 1;
      AddAllOffers(formats, table, indices[..n], q);
      AddPairKeepsDistinct(AddAll(formats, table, indices[..n]), table[indices[n]]);
      AddPairOffers(AddAll(formats, table, indices[..n]), table[indices[n]], q);
      NamedLast(table, indices, q);
    }
  }

  lemma NamedLast(table: seq<Pair>, indices: seq<nat>, q: Pair)
    requires InRange(table, indices) && indices != []
    ensures q in Named(table, indices) <==>
            q in Named(table, indices[..|indices| - 1]) || q == table[indices[|indices| - 1]]
  {
    var n := |indices| - 1;
    if q in Named(table, indices) {
      var j :| 0 <= j < |indices| && q == table[indices[j]];
      if j < n { assert q == table[indices[..n][j]]; }
    }
    if q in Named(table, indices[..n]) {
      var j :| 0 <= j < n && q == table[indices[..n][j]];
      assert q == table[indices[j]];
    }
  }

  // ---------- Events ----------

  function EmptyTranche(): Tranche {
    Tranche(0, false, [])
  }

  function Empty(): Feedback {
    Feedback(0, None, [], EmptyTranche())
  }

  function Initial(): State {
    State(Empty(), Empty(), 0, [], [], false)
  }

  /** The table tranche_formats looks into: its own, or else the active one. */
  function TableInForce(s: State): Option<Table> {
    if s.pending.table.Some? then s.pending.table else s.active.table
  }

  /** Indices lie within the table, as the protocol demands. */
  predicate Allowed(s: State, ev: Event) {
    ev.TrancheFormats? && TableInForce(s).Some? ==> InRange(TableInForce(s).value.entries, ev.indices)
  }

  function Ids(t: Option<Table>): seq<nat> {
    if t.Some? then [t.value.id] else []
  }

  function Step(s: State, ev: Event): State
    requires Allowed(s, ev)
  {
    if s.failed then s
    else
      var t := s.pending.pendingTranche;
      match ev
      case FormatTable(entries) =>
        s.(pending := s.pending.(table := Some(Table(s.mapped, entries))), mapped := s.mapped + 1,
           leaked := s.leaked + Ids(s.pending.table))
      case MainDevice(device) => s.(pending := s.pending.(mainDevice := device))
      case TargetDevice(device) => s.(pending := s.pending.(pendingTranche := t.(targetDevice := device)))
      case TrancheFlags(flags) =>
        if Scanout(flags) then s.(pending := s.pending.(pendingTranche := t.(scanout := true))) else s
      case TrancheFormats(indices) =>
        var table := TableInForce(s);
        if table == None then s.(failed := true)
        else
          var formats := AddAll(t.formats, table.value.entries, indices);
          s.(active := if s.pending.table == None then s.active.(table := None) else s.active,
             pending := s.pending.(table := table, pendingTranche := t.(formats := formats)))
      case TrancheDone =>
        s.(pending := s.pending.(tranches := s.pending.tranches + [t], pendingTranche := EmptyTranche()))
      case Done =>
        s.(active := s.pending, pending := Empty(), unmapped := s.unmapped + Ids(s.active.table))
  }

  predicate Scanout(flags: uint32) {
    flags % 2 == 1
  }

  predicate AllowedRun(s: State, events: seq<Event>)
    decreases |events|, 0
  {
    events == []
    || (var n := |events| - 1; AllowedRun(s, events[..n]) && Allowed(Run(s, events[..n]), events[n]))
  }

  function Run(s: State, events: seq<Event>): State
    requires AllowedRun(s, events)
    decreases |events|, 1
  {
    if events == [] then s
    else
      var n := |events| - 1;
      Step(Run(s, events[..n]), events[n])
  }

  // ---------- What a batch announces ----------

  /** The entries of the last table of a batch, or those inherited. */
  function InForce(batch: seq<Event>, inherited: Option<seq<Pair>>): Option<seq<Pair>>
    decreases |batch|
  {
    if batch == [] then inherited
    else
      var n := |batch| - 1;
      if batch[n].FormatTable? then Some(batch[n].entries) else InForce(batch[..n], inherited)
  }

  /** The first event after the last tranche_done of a batch. */
  function SegmentStart(batch: seq<Event>): (k: nat)
    ensures k <= |batch|
    ensures forall i :: k <= i < |batch| ==> !batch[i].TrancheDone?
    ensures k > 0 ==> batch[k - 1].TrancheDone?
  {
    if batch == [] then 0
    else
      var n := |batch| - 1;
      if batch[n].TrancheDone? then |batch| else SegmentStart(batch[..n])
  }

  /** Event i of the batch names the pair, in the table in force at that event. */
  predicate Names(batch: seq<Event>, i: nat, inherited: Option<seq<Pair>>, p: Pair) {
    && i < |batch| && batch[i].TrancheFormats?
    && var table := InForce(batch[..i], inherited);
       table.Some? && exists j :: 0 <= j < |batch[i].indices| && batch[i].indices[j] < |table.value|
                                  && table.value[batch[i].indices[j]] == p
  }

  /** What the batch has said about the tranche it is describing at its end:
      since the last tranche_done, the last target device, whether any flags had
      the scanout bit, and every pair named. */
  ghost predicate Describes(t: Tranche, batch: seq<Event>, inherited: Option<seq<Pair>>) {
    var k := SegmentStart(batch);
    && NoDuplicates(t.formats)
    && t.targetDevice == LastTarget(batch[k..])
    && (t.scanout <==> exists i :: k <= i < |batch| && ScanoutAt(batch, i))
    && (forall p :: Offers(t.formats, p) <==> exists i: nat :: k <= i && Names(batch, i, inherited, p))
  }

  predicate ScanoutAt(batch: seq<Event>, i: nat) {
    i < |batch| && batch[i].TrancheFlags? && Scanout(batch[i].flags)
  }

  function LastTarget(events: seq<Event>): nat
    decreases |events|
  {
    if events == [] then 0
    else
      var n := |events| - 1;
      if events[n].TargetDevice? then events[n].device else LastTarget(events[..n])
  }

  function LastMain(events: seq<Event>): nat
    decreases |events|
  {
    if events == [] then 0
    else
      var n := |events| - 1;
      if events[n].MainDevice? then events[n].device else LastMain(events[..n])
  }

  /** One tranche per tranche_done, in order, each as described up to there. */
  ghost predicate Announces(tranches: seq<Tranche>, batch: seq<Event>, inherited: Option<seq<Pair>>)
    decreases |batch|
  {
    if batch == [] then tranches == []
    else
      var n := |batch| - 1;
      if batch[n].TrancheDone? then
        && tranches != []
        && Announces(tranches[..|tranches| - 1], batch[..n], inherited)
        && Describes(tranches[|tranches| - 1], batch[..n], inherited)
      else Announces(tranches, batch[..n], inherited)
  }

  function Contents(t: Option<Table>): Option<seq<Pair>> {
    if t.Some? then Some(t.value.entries) else None
  }

  predicate NoDone(batch: seq<Event>) {
    forall i :: 0 <= i < |batch| ==> !batch[i].Done?
  }

  /** The batch advertises a table or looks into one. */
  predicate TouchesTable(batch: seq<Event>) {
    exists i :: 0 <= i < |batch| && (batch[i].FormatTable? || batch[i].TrancheFormats?)
  }

  // ---------- Accumulation ----------

  lemma NamesPrefix(batch: seq<Event>, n: nat, i: nat, inherited: Option<seq<Pair>>, p: Pair)
    requires i < n <= |batch|
    ensures Names(batch[..n], i, inherited, p) <==> Names(batch, i, inherited, p)
  {
    hide InForce;
    assert batch[..n][..i] == batch[..i];
  }

  /** An event that is not about the tranche leaves its description alone. */
  lemma DescribesSame(t: Tranche, batch: seq<Event>, inherited: Option<seq<Pair>>)
    requires batch != [] && Describes(t, batch[..|batch| - 1], inherited)
    requires var ev := batch[|batch| - 1];
             !ev.TrancheDone? && !ev.TargetDevice? && !ev.TrancheFormats? && (ev.TrancheFlags? ==> !Scanout(ev.flags))
    ensures Describes(t, batch, inherited)
  {
    hide Offers, NoDuplicates, InForce, Scanout;
    SameSegment(batch);
    SameScanout(batch);
    forall p
      ensures (exists i: nat :: SegmentStart(batch) <= i && Names(batch, i, inherited, p)) <==> Offers(t.formats, p)
    {
      SameNames(batch, inherited, p);
    }
  }

  lemma {:induction false} SameSegment(batch: seq<Event>)
    requires batch != [] && !batch[|batch| - 1].TrancheDone?
    ensures var n, k := |batch| - 1, SegmentStart(batch);
            k == SegmentStart(batch[..n]) && k <= n && batch[k..] == batch[..n][k..] + [batch[n]]
  {
    var n := |batch| - 1;
    assert SegmentStart(batch) == SegmentStart(batch[..n]);
    DropLast(batch, SegmentStart(batch));
  }

  lemma DropLast(batch: seq<Event>, k: nat)
    requires k < |batch|
    ensures batch[k..] == batch[..|batch| - 1][k..] + [batch[|batch| - 1]]
  {
  }

  /** The scanout bits so far, and the last event's. */
  lemma {:induction false} SameScanout(batch: seq<Event>)
    requires batch != [] && !batch[|batch| - 1].TrancheDone?
    ensures var n, k := |batch| - 1, SegmentStart(batch);
            (exists i :: k <= i < |batch| && ScanoutAt(batch, i))
            <==> (exists i :: k <= i < n && ScanoutAt(batch[..n], i)) || ScanoutAt(batch, n)
  {
    hide Scanout;
    var n, k := |batch| - 1, SegmentStart(batch);
    assert forall i :: 0 <= i < n ==> (ScanoutAt(batch[..n], i) <==> ScanoutAt(batch, i));
  }

  /** The pairs named so far, and those the last event names. */
  lemma {:induction false} SameNames(batch: seq<Event>, inherited: Option<seq<Pair>>, p: Pair)
    requires batch != [] && !batch[|batch| - 1].TrancheDone?
    ensures var n, k := |batch| - 1, SegmentStart(batch);
            (exists i: nat :: k <= i && Names(batch, i, inherited, p))
            <==> (exists i: nat :: k <= i && Names(batch[..n], i, inherited, p)) || Names(batch, n, inherited, p)
  {
    hide Names, SegmentStart;
    var n, k := |batch| - 1, SegmentStart(batch);
    if i: nat :| k <= i && Names(batch, i, inherited, p) {
      NamesInside(batch, i, inherited, p);
      if i < n { NamesPrefix(batch, n, i, inherited, p); }
    }
    if i: nat :| k <= i && Names(batch[..n], i, inherited, p) {
      NamesInside(batch[..n], i, inherited, p);
      NamesPrefix(batch, n, i, inherited, p);
    }
    SameSegment(batch);
  }

  lemma NamesInside(batch: seq<Event>, i: nat, inherited: Option<seq<Pair>>, p: Pair)
    requires Names(batch, i, inherited, p)
    ensures i < |batch|
  {
  }

  lemma DescribesFresh(batch: seq<Event>, inherited: Option<seq<Pair>>)
    requires batch != [] ==> batch[|batch| - 1].TrancheDone?
    ensures Describes(EmptyTranche(), batch, inherited)
  {
    hide InForce, Scanout;
    assert batch[SegmentStart(batch)..] == [];
  }

  /** The last event says nothing about formats. */
  lemma {:induction false} PairsKept(batch: seq<Event>, inherited: Option<seq<Pair>>, p: Pair)
    requires batch != [] && !batch[|batch| - 1].TrancheDone? && !batch[|batch| - 1].TrancheFormats?
    ensures var n, k := |batch| - 1, SegmentStart(batch);
            (exists i: nat :: k <= i && Names(batch, i, inherited, p))
            <==> (exists i: nat :: k <= i && Names(batch[..n], i, inherited, p))
  {
    hide InForce, SegmentStart;
    SameNames(batch, inherited, p);
  }

  lemma DescribesTarget(t: Tranche, batch: seq<Event>, inherited: Option<seq<Pair>>)
    requires batch != [] && batch[|batch| - 1].TargetDevice? && Describes(t, batch[..|batch| - 1], inherited)
    ensures Describes(t.(targetDevice := batch[|batch| - 1].device), batch, inherited)
  {
    hide Offers, NoDuplicates, InForce, Scanout, Names, SegmentStart;
    SameSegment(batch);
    SameScanout(batch);
    forall p
      ensures (exists i: nat :: SegmentStart(batch) <= i && Names(batch, i, inherited, p)) <==> Offers(t.formats, p)
    {
      PairsKept(batch, inherited, p);
    }
  }

  lemma DescribesScanout(t: Tranche, batch: seq<Event>, inherited: Option<seq<Pair>>)
    requires batch != [] && Describes(t, batch[..|batch| - 1], inherited)
    requires batch[|batch| - 1].TrancheFlags? && Scanout(batch[|batch| - 1].flags)
    ensures Describes(t.(scanout := true), batch, inherited)
  {
    hide Offers, NoDuplicates, InForce, Scanout, Names, SegmentStart;
    SameSegment(batch);
    SameScanout(batch);
    forall p
      ensures (exists i: nat :: SegmentStart(batch) <= i && Names(batch, i, inherited, p)) <==> Offers(t.formats, p)
    {
      PairsKept(batch, inherited, p);
    }
  }

  lemma DescribesFormats(t: Tranche, batch: seq<Event>, inherited: Option<seq<Pair>>, table: seq<Pair>)
    requires batch != [] && batch[|batch| - 1].TrancheFormats? && Describes(t, batch[..|batch| - 1], inherited)
    requires InForce(batch[..|batch| - 1], inherited) == Some(table) && InRange(table, batch[|batch| - 1].indices)
    ensures Describes(t.(formats := AddAll(t.formats, table, batch[|batch| - 1].indices)), batch, inherited)
  {
    hide Offers, NoDuplicates, Scanout, SegmentStart, AddAll, InForce, Names;
    var n := |batch| - 1;
    SameSegment(batch);
    SameScanout(batch);
    forall p
      ensures (exists i: nat :: SegmentStart(batch) <= i && Names(batch, i, inherited, p))
              <==> Offers(AddAll(t.formats, table, batch[n].indices), p)
    {
      SameNames(batch, inherited, p);
      AddAllOffers(t.formats, table, batch[n].indices, p);
      NamesHere(batch, inherited, table, p);
    }
    AddAllOffers(t.formats, table, batch[n].indices, Pair(0, 0));
  }

  lemma NamesHere(batch: seq<Event>, inherited: Option<seq<Pair>>, table: seq<Pair>, p: Pair)
    requires batch != [] && batch[|batch| - 1].TrancheFormats?
    requires InForce(batch[..|batch| - 1], inherited) == Some(table) && InRange(table, batch[|batch| - 1].indices)
    ensures Names(batch, |batch| - 1, inherited, p) <==> p in Named(table, batch[|batch| - 1].indices)
  {
    hide InForce;
  }

  lemma DescribesNext(t: Tranche, batch: seq<Event>, inherited: Option<seq<Pair>>, table: Option<Table>)
    requires batch != [] && Describes(t, batch[..|batch| - 1], inherited)
    requires Contents(table) == InForce(batch[..|batch| - 1], inherited)
    requires batch[|batch| - 1].TrancheFormats? ==>
             table.Some? && InRange(table.value.entries, batch[|batch| - 1].indices)
    ensures Describes(NextTranche(t, batch[|batch| - 1], table), batch, inherited)
  {
    hide Describes, AddAll, InForce, Scanout;
    match batch[|batch| - 1]
    case TargetDevice(_) => DescribesTarget(t, batch, inherited);
    case TrancheFlags(flags) =>
      if Scanout(flags) { DescribesScanout(t, batch, inherited); } else { DescribesSame(t, batch, inherited); }
    case TrancheFormats(_) => DescribesFormats(t, batch, inherited, table.value.entries);
    case TrancheDone => DescribesFresh(batch, inherited);
    case _ => DescribesSame(t, batch, inherited);
  }

  /** The pending tranche after an event, whatever else the event does. */
  function NextTranche(t: Tranche, ev: Event, table: Option<Table>): Tranche
    requires ev.TrancheFormats? ==> table.Some? && InRange(table.value.entries, ev.indices)
  {
    match ev
    case TargetDevice(device) => t.(targetDevice := device)
    case TrancheFlags(flags) => if Scanout(flags) then t.(scanout := true) else t
    case TrancheFormats(indices) => t.(formats := AddAll(t.formats, table.value.entries, indices))
    case TrancheDone => EmptyTranche()
    case _ => t
  }

  /** The pending copy holds what the batch has announced; the table is with the
      pending copy as soon as the batch touches it. */
  ghost predicate Tracks(s: State, start: State, batch: seq<Event>) {
    var inherited := Contents(start.active.table);
    && Announces(s.pending.tranches, batch, inherited)
    && Describes(s.pending.pendingTranche, batch, inherited)
    && s.pending.mainDevice == LastMain(batch)
    && Contents(TableInForce(s)) == InForce(batch, inherited)
    && (s.pending.table.Some? <==> TouchesTable(batch))
  }

  lemma TouchesNext(batch: seq<Event>)
    requires batch != []
    ensures TouchesTable(batch) <==>
            TouchesTable(batch[..|batch| - 1]) || batch[|batch| - 1].FormatTable? || batch[|batch| - 1].TrancheFormats?
  {
    var n := |batch| - 1;
    assert forall i :: 0 <= i < n ==> batch[..n][i] == batch[i];
  }

  lemma TracksNext(s: State, start: State, batch: seq<Event>)
    requires batch != [] && Tracks(s, start, batch[..|batch| - 1]) && !batch[|batch| - 1].Done?
    requires Allowed(s, batch[|batch| - 1]) && !Step(s, batch[|batch| - 1]).failed
    ensures Tracks(Step(s, batch[|batch| - 1]), start, batch)
  {
    hide Describes, AddAll, Scanout, TouchesTable;
    TouchesNext(batch);
    DescribesNext(s.pending.pendingTranche, batch, Contents(start.active.table), TableInForce(s));
  }

  lemma {:induction false} TracksBatch(start: State, batch: seq<Event>)
    requires start.pending == Empty() && AllowedRun(start, batch) && NoDone(batch) && !Run(start, batch).failed
    ensures Tracks(Run(start, batch), start, batch)
    decreases |batch|
  {
    hide Tracks;
    if batch == [] {
      TracksNothing(start);
    } else {
      var n := |batch| - 1;
      assert !Run(start, batch[..n]).failed;
      TracksBatch(start, batch[..n]);
      TracksNext(Run(start, batch[..n]), start, batch);
    }
  }

  lemma TracksNothing(start: State)
    requires start.pending == Empty()
    ensures Tracks(start, start, [])
  {
    DescribesFresh([], Contents(start.active.table));
  }

  /** Main result: whatever came before, after done the active tranches are those
      announced since the previous done, in order, each with exactly the pairs
      named and no duplicates, and the main device is the batch's last. The
      active copy has a table exactly if the batch touched one. */
  lemma {:induction false} DoneActivates(start: State, batch: seq<Event>)
    requires start.pending == Empty() && NoDone(batch)
    requires AllowedRun(start, batch + [Done]) && !Run(start, batch + [Done]).failed
    ensures var t, inherited := Run(start, batch + [Done]), Contents(start.active.table);
            && Announces(t.active.tranches, batch, inherited)
            && t.active.mainDevice == LastMain(batch)
            && t.active.table.Some? == TouchesTable(batch)
            && (TouchesTable(batch) ==> Contents(t.active.table) == InForce(batch, inherited))
            && t.pending == Empty()
  {
    hide Announces, Describes, TouchesTable, InForce;
    assert (batch + [Done])[..|batch|] == batch;
    var s := Run(start, batch);
    assert Run(start, batch + [Done]) == Step(s, Done);
    TracksBatch(start, batch);
  }

  /** The assert of tranche_formats fails exactly at the first such event with no
      table in the batch before it and none inherited. */
  lemma {:induction false} FailsIff(start: State, batch: seq<Event>)
    requires start.pending == Empty() && AllowedRun(start, batch) && NoDone(batch) && !start.failed
    ensures Run(start, batch).failed <==>
            exists i :: 0 <= i < |batch| && LooksIntoNothing(batch, i, Contents(start.active.table))
    decreases |batch|
  {
    hide Tracks, InForce;
    var inherited := Contents(start.active.table);
    if batch != [] {
      var n := |batch| - 1;
      FailsIff(start, batch[..n]);
      forall i | 0 <= i < n
        ensures LooksIntoNothing(batch[..n], i, inherited) <==> LooksIntoNothing(batch, i, inherited)
      {
        assert batch[..n][..i] == batch[..i];
      }
      var s := Run(start, batch[..n]);
      if !s.failed {
        TracksBatch(start, batch[..n]);
        TracksTable(s, start, batch[..n]);
        assert Run(start, batch).failed <==> LooksIntoNothing(batch, n, inherited);
      }
    }
  }

  predicate LooksIntoNothing(batch: seq<Event>, i: nat, inherited: Option<seq<Pair>>) {
    i < |batch| && batch[i].TrancheFormats? && InForce(batch[..i], inherited) == None
  }

  lemma {:induction false} TracksTable(s: State, start: State, batch: seq<Event>)
    requires Tracks(s, start, batch)
    ensures Contents(TableInForce(s)) == InForce(batch, Contents(start.active.table))
  {
  }

  lemma {:induction false} InForceKept(batch: seq<Event>, inherited: Option<seq<Pair>>)
    requires inherited.Some?
    ensures InForce(batch, inherited).Some?
    decreases |batch|
  {
    if batch != [] { InForceKept(batch[..|batch| - 1], inherited); }
  }

  /** With an active table no batch fails, and if the batch touches a table there
      is an active table again after it. */
  lemma {:induction false} TableKeptAcrossBatches(start: State, batch: seq<Event>)
    requires start.pending == Empty() && !start.failed && start.active.table.Some?
    requires NoDone(batch) && AllowedRun(start, batch + [Done])
    ensures !Run(start, batch + [Done]).failed
    ensures Run(start, batch + [Done]).active.table.Some? <==> TouchesTable(batch)
  {
    hide Announces, TouchesTable, InForce;
    assert (batch + [Done])[..|batch|] == batch;
    FailsIff(start, batch);
    forall i | 0 <= i < |batch| ensures !LooksIntoNothing(batch, i, Contents(start.active.table)) {
      InForceKept(batch[..i], Contents(start.active.table));
    }
    DoneActivates(start, batch);
  }

  // ---------- Who owns the tables ----------

  /** How many hands a mapping is in: unmapped, dropped, or one of the copies'. */
  function Hands(s: State, id: nat): nat {
    multiset(s.unmapped)[id] + multiset(s.leaked)[id]
    + multiset(Ids(s.active.table))[id] + multiset(Ids(s.pending.table))[id]
  }

  /** Each mapping is in exactly one. */
  ghost predicate Accounted(s: State) {
    forall id: nat :: Hands(s, id) == if id < s.mapped then 1 else 0
  }

  /** Whatever the events, no mapping is unmapped twice, used after it was
      unmapped, or owned by both copies. */
  lemma StepAccounted(s: State, ev: Event)
    requires Accounted(s) && Allowed(s, ev)
    ensures Accounted(Step(s, ev))
  {
    hide AddAll, Scanout;
    forall id: nat ensures Hands(Step(s, ev), id) == if id < Step(s, ev).mapped then 1 else 0 {
      assert Hands(s, id) == if id < s.mapped then 1 else 0;
      HandsNext(s, ev, id);
    }
  }

  lemma HandsNext(s: State, ev: Event, id: nat)
    requires Allowed(s, ev)
    ensures Hands(Step(s, ev), id) ==
            Hands(s, id) + if !s.failed && ev.FormatTable? && id == s.mapped then 1 else 0
    ensures Step(s, ev).mapped == s.mapped + if !s.failed && ev.FormatTable? then 1 else 0
  {
    hide AddAll, Scanout, TableInForce;
    match ev
    case TrancheFormats(_) => FormatsHands(s, ev, id);
    case Done => AppendHands(s.unmapped, s.active.table, id);
    case FormatTable(_) => AppendHands(s.leaked, s.pending.table, id);
    case _ =>
  }

  lemma FormatsHands(s: State, ev: Event, id: nat)
    requires Allowed(s, ev) && ev.TrancheFormats?
    ensures Hands(Step(s, ev), id) == Hands(s, id)
  {
    hide AddAll;
  }

  lemma AppendHands(ids: seq<nat>, t: Option<Table>, id: nat)
    ensures multiset(ids + Ids(t))[id] == multiset(ids)[id] + multiset(Ids(t))[id]
  {
  }

  lemma {:induction false} RunAccounted(s: State, events: seq<Event>)
    requires Accounted(s) && AllowedRun(s, events)
    ensures Accounted(Run(s, events))
    decreases |events|
  {
    hide Accounted;
    if events != [] {
      var n := |events| - 1;
      RunAccounted(s, events[..n]);
      StepAccounted(Run(s, events[..n]), events[n]);
    }
  }

  lemma InitialAccounted()
    ensures Accounted(Initial()) && Initial().pending == Empty()
  {
  }

  /** A mapping is dropped exactly when a table arrives while the batch already
      has one, advertised or taken over. */
  lemma LeaksIff(s: State, ev: Event)
    requires Allowed(s, ev)
    ensures Step(s, ev).leaked != s.leaked <==> !s.failed && ev.FormatTable? && s.pending.table.Some?
  {
    hide AddAll, Scanout;
  }

  /** The batch advertises a table although it already has one. */
  predicate SecondTable(batch: seq<Event>, i: nat) {
    i < |batch| && batch[i].FormatTable? && TouchesTable(batch[..i])
  }

  /** Over a batch: a mapping leaks if and only if a table is advertised after
      another one, or after formats that took the inherited table over. */
  lemma {:induction false} BatchLeaksIff(start: State, batch: seq<Event>)
    requires start.pending == Empty() && AllowedRun(start, batch) && NoDone(batch) && !Run(start, batch).failed
    ensures start.leaked <= Run(start, batch).leaked
    ensures Run(start, batch).leaked != start.leaked <==> exists i :: 0 <= i < |batch| && SecondTable(batch, i)
    decreases |batch|
  {
    hide Tracks, TouchesTable;
    if batch != [] {
      var n := |batch| - 1;
      var s := Run(start, batch[..n]);
      assert !s.failed;
      BatchLeaksIff(start, batch[..n]);
      TracksBatch(start, batch[..n]);
      TracksOwner(s, start, batch[..n]);
      LeaksIff(s, batch[n]);
      LeakedGrows(s, batch[n]);
      forall i | 0 <= i < n ensures SecondTable(batch[..n], i) <==> SecondTable(batch, i) {
        assert batch[..n][..i] == batch[..i];
      }
      assert SecondTable(batch, n) <==> batch[n].FormatTable? && TouchesTable(batch[..n]);
    }
  }

  lemma TracksOwner(s: State, start: State, batch: seq<Event>)
    requires Tracks(s, start, batch)
    ensures s.pending.table.Some? <==> TouchesTable(batch)
  {
    hide TouchesTable, Announces, Describes;
  }

  lemma LeakedGrows(s: State, ev: Event)
    requires Allowed(s, ev)
    ensures s.leaked <= Step(s, ev).leaked
  {
    hide AddAll, Scanout;
  }

  /** A batch that neither advertises a table nor looks into one loses the table:
      the next batch that relies on it fails. */
  lemma {:induction false} UntouchedTableLost(start: State, batch: seq<Event>, indices: seq<nat>)
    requires start.pending == Empty() && NoDone(batch) && !TouchesTable(batch)
    requires AllowedRun(start, batch + [Done]) && !Run(start, batch + [Done]).failed
    ensures var t := Run(start, batch + [Done]);
            Allowed(t, TrancheFormats(indices)) && Step(t, TrancheFormats(indices)).failed
  {
    hide Announces, TouchesTable, Run, AllowedRun, InForce;
    DoneActivates(start, batch);
  }

  // ---------- The client ----------

  lemma {:induction false} IndexOfAt(formats: seq<DrmFormat>, format: nat, i: nat)
    requires i <= |formats| && (forall k :: 0 <= k < i ==> formats[k].format != format)
    requires i < |formats| ==> formats[i].format == format
    ensures IndexOf(formats, format) == i
  {
  }

  class Client {
    var active: Feedback
    var pending: Feedback
    var mapped: nat
    var unmapped: seq<nat>
    var failed: bool
    ghost var leaked: seq<nat>

    ghost function View(): State
      reads this
    {
      State(active, pending, mapped, unmapped, leaked, failed)
    }

    constructor ()
      ensures View() == Initial() && Accounted(View())
    {
      active, pending, mapped, unmapped, leaked, failed := Empty(), Empty(), 0, [], [], false;
      new;
      InitialAccounted();
    }

    /** drm_format_array_add_format on the pending tranche */
    method AddFormat(format: nat) returns (i: nat)
      modifies `pending
      ensures pending == old(pending).(pendingTranche := old(pending).pendingTranche.(
                formats := WithFormat(old(pending).pendingTranche.formats, format)))
      ensures i == IndexOf(old(pending).pendingTranche.formats, format)
    {
      i := 0;
      while i < |pending.pendingTranche.formats| && pending.pendingTranche.formats[i].format != format
        invariant i <= |pending.pendingTranche.formats|
        invariant forall k :: 0 <= k < i ==> pending.pendingTranche.formats[k].format != format
      {
        i := i + 1;
      }
      IndexOfAt(pending.pendingTranche.formats, format, i);
      if i == |pending.pendingTranche.formats| {
        SetFormats(pending.pendingTranche.formats + [DrmFormat(format, [])]);
      }
    }

    method SetFormats(formats: seq<DrmFormat>)
      modifies `pending
      ensures pending == old(pending).(pendingTranche := old(pending).pendingTranche.(formats := formats))
    {
      pending := pending.(pendingTranche := pending.pendingTranche.(formats := formats));
    }

    /** drm_format_add_modifier on entry i of the pending tranche */
    method AddModifier(i: nat, modifier: nat)
      requires i < |pending.pendingTranche.formats|
      modifies `pending
      ensures var formats := old(pending).pendingTranche.formats;
              pending == old(pending).(pendingTranche := old(pending).pendingTranche.(
                formats := formats[i := WithModifier(formats[i], modifier)]))
    {
      var f := pending.pendingTranche.formats[i];
      var k := 0;
      while k < |f.modifiers| && f.modifiers[k] != modifier
        invariant k <= |f.modifiers| && modifier !in f.modifiers[..k]
      {
        k := k + 1;
      }
      if k == |f.modifiers| {
        assert f.modifiers[..k] == f.modifiers;
        SetFormats(pending.pendingTranche.formats[i := f.(modifiers := f.modifiers + [modifier])]);
      } else {
        assert pending.pendingTranche.formats[i := f] == pending.pendingTranche.formats;
      }
    }

    method FormatTable(entries: seq<Pair>)
      requires Accounted(View()) && !failed
      modifies this
      ensures Accounted(View()) && View() == Step(old(View()), Event.FormatTable(entries))
    {
      hide Accounted;
      StepAccounted(View(), Event.FormatTable(entries));
      leaked := leaked + Ids(pending.table);
      pending := pending.(table := Some(Table(mapped, entries)));
      mapped := mapped + 1;
    }

    /** tranche_formats: the loop over the indices. */
    method TrancheFormats(indices: seq<nat>)
      requires Accounted(View()) && Allowed(View(), Event.TrancheFormats(indices)) && !failed
      modifies this
      ensures Accounted(View()) && View() == Step(old(View()), Event.TrancheFormats(indices))
    {
      hide Accounted;
      StepAccounted(View(), Event.TrancheFormats(indices));
      if pending.table == None {
        pending := pending.(table := active.table);
        active := active.(table := None);
      }
      if pending.table == None {
        failed := true;
        return;
      }
      AddIndices(pending.table.value.entries, indices);
    }

    method AddOne(p: Pair)
      modifies `pending
      ensures pending == old(pending).(pendingTranche := old(pending).pendingTranche.(
                formats := AddPair(old(pending).pendingTranche.formats, p)))
    {
      var i := AddFormat(p.format);
      AddModifier(i, p.modifier);
    }

    method AddIndices(table: seq<Pair>, indices: seq<nat>)
      requires InRange(table, indices)
      modifies `pending
      ensures pending == old(pending).(pendingTranche := old(pending).pendingTranche.(
                formats := AddAll(old(pending).pendingTranche.formats, table, indices)))
    {
      hide AddPair;
      ghost var was := pending;
      var j := 0;
      while j < |indices|
        invariant j <= |indices|
        invariant pending == was.(pendingTranche := was.pendingTranche.(
                    formats := AddAll(was.pendingTranche.formats, table, indices[..j])))
      {
        assert indices[..j + 1][..j] == indices[..j];
        AddOne(table[indices[j]]);
        j := j + 1;
      }
      assert indices[..j] == indices;
    }

    method MainDevice(device: nat)
      requires Accounted(View()) && !failed
      modifies `pending
      ensures Accounted(View()) && View() == Step(old(View()), Event.MainDevice(device))
    {
      hide Accounted;
      StepAccounted(View(), Event.MainDevice(device));
      pending := pending.(mainDevice := device);
    }

    method TargetDevice(device: nat)
      requires Accounted(View()) && !failed
      modifies `pending
      ensures Accounted(View()) && View() == Step(old(View()), Event.TargetDevice(device))
    {
      hide Accounted;
      StepAccounted(View(), Event.TargetDevice(device));
      pending := pending.(pendingTranche := pending.pendingTranche.(targetDevice := device));
    }

    method TrancheFlags(flags: uint32)
      requires Accounted(View()) && !failed
      modifies `pending
      ensures Accounted(View()) && View() == Step(old(View()), Event.TrancheFlags(flags))
    {
      hide Accounted;
      StepAccounted(View(), Event.TrancheFlags(flags));
      if flags % 2 == 1 {
        pending := pending.(pendingTranche := pending.pendingTranche.(scanout := true));
      }
    }

    method TrancheDone()
      requires Accounted(View()) && !failed
      modifies `pending
      ensures Accounted(View()) && View() == Step(old(View()), Event.TrancheDone)
    {
      hide Accounted;
      StepAccounted(View(), Event.TrancheDone);
      pending := pending.(tranches := pending.tranches + [pending.pendingTranche]);
      pending := pending.(pendingTranche := EmptyTranche());
    }

    /** dmabuf_feedback_done, after the format was picked */
    method Done()
      requires Accounted(View()) && !failed
      modifies `active, `pending, `unmapped
      ensures Accounted(View()) && View() == Step(old(View()), Event.Done)
    {
      hide Accounted;
      StepAccounted(View(), Event.Done);
      if active.table.Some? {
        unmapped := unmapped + [active.table.value.id];
      } else {
        assert unmapped + Ids(active.table) == unmapped;
      }
      active := pending;
      pending := Empty();
    }
  }
}
