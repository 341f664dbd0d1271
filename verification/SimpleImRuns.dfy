/** clients/simple-im.c from start to end: what comes out of whole runs of keys,
    from the normal state through composing and back. */
module SimpleImRuns {
  import opened CInt
  import opened Options
  import opened SimpleIm

  const NORMAL := State(false, [])

  /** Key events one after the other, in whatever state. */
  function Replayed(t: Table, s: State, events: seq<KeyEvent>): Result
    requires WellShaped(t) && Sound(t, s)
    decreases |events|
  {
    if events == [] then Result(s, [])
    else
      StepSound(t, s, events[0].sym, events[0].pressed, events[0].printable);
      var r := Step(t, s, events[0].sym, events[0].pressed, events[0].printable);
      var rest := Replayed(t, r.state, events[1..]);
      Result(rest.state, r.outputs + rest.outputs)
  }

  /** The key does something while composing: released, and not a shift key. */
  predicate Counts(ev: KeyEvent) {
    !ev.pressed && ev.sym != SHIFT_L && ev.sym != SHIFT_R
  }

  function Counted(events: seq<KeyEvent>): (r: seq<KeyEvent>)
    ensures forall ev :: ev in r ==> Counts(ev) && ev in events
  {
    if events == [] then []
    else (if Counts(events[0]) then [events[0]] else []) + Counted(events[1..])
  }

  /** The keymap library gives the shift keys no text. */
  predicate ShiftsTextless(events: seq<KeyEvent>) {
    forall ev :: ev in events && (ev.sym == SHIFT_L || ev.sym == SHIFT_R) ==> !ev.printable
  }

  lemma {:induction false} RequestsAppend(a: seq<Output>, b: seq<Output>)
    ensures Requests(a + b) == Requests(a) + Requests(b)
    decreases |a|
  {
    if a == [] {
      assert a + b == b;
    } else {
      assert (a + b)[1..] == a[1..] + b;
      RequestsAppend(a[1..], b);
    }
  }

  /** A press or a shift key asks for nothing and changes nothing. */
  lemma UncountedQuiet(t: Table, s: State, ev: KeyEvent)
    requires WellShaped(t) && Sound(t, s) && !Counts(ev) && (Ignored(ev.sym) ==> !ev.printable)
    ensures |s.typed| <= 2 && 0 !in s.typed
    ensures var r := Step(t, s, ev.sym, ev.pressed, ev.printable); r.state == s && Requests(r.outputs) == []
  {
    IndexBounded(t, s);
    assert [Forward][1..] == [];
  }

  /** On any table and from any state, presses and shift keys among the events
      change nothing but what is forwarded. */
  lemma {:induction false} OnlyCountedMatter(t: Table, s: State, events: seq<KeyEvent>)
    requires WellShaped(t) && Sound(t, s) && ShiftsTextless(events)
    ensures Replayed(t, s, events).state == Replayed(t, s, Counted(events)).state
    ensures Requests(Replayed(t, s, events).outputs) == Requests(Replayed(t, s, Counted(events)).outputs)
    decreases |events|
  {
    hide WellShaped, Sound, Step, Requests;
    if events != [] {
      var ev, tail := events[0], events[1..];
      assert forall e :: e in tail ==> e in events;
      SoundStart(t, s);
      StepSound(t, s, ev.sym, ev.pressed, ev.printable);
      var r := Step(t, s, ev.sym, ev.pressed, ev.printable);
      OnlyCountedMatter(t, r.state, tail);
      RequestsAppend(r.outputs, Replayed(t, r.state, tail).outputs);
      RequestsAppend(r.outputs, Replayed(t, r.state, Counted(tail)).outputs);
      if Counts(ev) {
        assert Counted(events)[0] == ev && Counted(events)[1..] == Counted(tail);
      } else {
        UncountedQuiet(t, s, ev);
        assert Counted(events) == Counted(tail);
      }
    }
  }

  // ---------- The normal state ----------

  /** The symbols released that have a text. */
  function Texts(events: seq<KeyEvent>): seq<Output> {
    if events == [] then []
    else
      var ev := events[0];
      (if !ev.pressed && ev.printable then [CommitSymbols([ev.sym])] else []) + Texts(events[1..])
  }

  /** Outside a sequence each key with a text commits it, once, when released, and
      nothing else is asked for; a key without one is forwarded both ways. */
  lemma {:induction false} PlainTyping(t: Table, events: seq<KeyEvent>)
    requires WellShaped(t) && forall ev :: ev in events ==> ev.pressed || ev.sym != MULTI_KEY
    ensures Replayed(t, NORMAL, events).state == NORMAL
    ensures Requests(Replayed(t, NORMAL, events).outputs) == Texts(events)
    decreases |events|
  {
    hide WellShaped;
    if events != [] {
      var ev, tail := events[0], events[1..];
      assert forall e :: e in tail ==> e in events;
      PlainTyping(t, tail);
      var r := Step(t, NORMAL, ev.sym, ev.pressed, ev.printable);
      assert ev in events && r.state == NORMAL;
      RequestsAppend(r.outputs, Replayed(t, NORMAL, tail).outputs);
      assert Requests(r.outputs) == r.outputs[..|Requests(r.outputs)|] by {
        assert r.outputs != [] ==> r.outputs[1..] == [];
      }
    }
  }

  /** A key without a text goes on to the application, pressed or released. */
  lemma UnprintableForwarded(t: Table, sym: uint32, pressed: bool)
    requires WellShaped(t) && (pressed || sym != MULTI_KEY)
    ensures Step(t, NORMAL, sym, pressed, false) == Result(NORMAL, [Forward])
  {
  }

  // ---------- A sequence from start to end ----------

  function Symbols(events: seq<KeyEvent>): seq<uint32> {
    if events == [] then [] else [events[0].sym] + Symbols(events[1..])
  }

  /** While composing: the keys that are left of entry i complete it. */
  lemma {:induction false} KeysCommit(t: Table, s: State, events: seq<KeyEvent>, i: nat)
    requires WellShaped(t) && Sorted(t) && PrefixFree(t) && Sound(t, s) && s.composing
    requires events != [] && forall ev :: ev in events ==> Counts(ev)
    requires i < |t| && Keys(t[i].slots) == s.typed + Symbols(events)
    ensures Replayed(t, s, events) == Result(NORMAL, Previews(s.typed, Symbols(events)) + [Commit(t[i].text)])
    decreases |events|
  {
    hide WellShaped, Composed, Keys, Sorted, PrefixFree, Sound, Replayed, Symbols, Previews, Found, Less, Compared;
    var ev, tail := events[0], events[1..];
    var typed := s.typed + [ev.sym];
    assert ev in events && forall e :: e in tail ==> e in events;
    SymbolsSplit(s.typed, events);
    SymbolNonzero(t, i, s.typed + Symbols(events), |s.typed|);
    ComposedOutcome(t, s, ev.sym);
    CountedStep(t, s, events);
    if tail == [] {
      assert typed + [] == typed;
      NothingReplayed(t, NORMAL, tail);
    } else {
      assert Beginning(t, i, typed);
      KeysCommit(t, State(true, typed), tail, i);
    }
  }

  lemma {:induction false} SymbolsSplit(typed: seq<uint32>, events: seq<KeyEvent>)
    requires events != []
    ensures var k, tail := events[0].sym, events[1..];
            && |Symbols(events)| > 0 && Symbols(events)[0] == k
            && typed + Symbols(events) == typed + [k] + Symbols(tail)
            && (tail == [] ==> Symbols(tail) == [] && Previews(typed, Symbols(events)) == [])
            && (tail != [] ==>
                  && Symbols(tail) != []
                  && Previews(typed, Symbols(events)) == [Preedit(typed + [k])] + Previews(typed + [k], Symbols(tail)))
  {
    var k, rest := events[0].sym, Symbols(events[1..]);
    assert Symbols(events) == [k] + rest;
    assert events[1..] != [] ==> |rest| > 0;
    hide Symbols, Previews;
    assert typed + ([k] + rest) == typed + [k] + rest;
    PreviewsSplit(typed, k, rest);
  }

  lemma {:induction false} PreviewsSplit(typed: seq<uint32>, k: uint32, rest: seq<uint32>)
    ensures Previews(typed, [k] + rest) ==
            if rest == [] then [] else [Preedit(typed + [k])] + Previews(typed + [k], rest)
  {
    assert ([k] + rest)[1..] == rest && ([k] + rest)[0] == k;
  }

  lemma {:induction false} NothingReplayed(t: Table, s: State, events: seq<KeyEvent>)
    requires WellShaped(t) && Sound(t, s) && events == []
    ensures Replayed(t, s, events) == Result(s, [])
  {
  }

  lemma {:induction false} CountedStep(t: Table, s: State, events: seq<KeyEvent>)
    requires WellShaped(t) && Sound(t, s) && s.composing && events != [] && Counts(events[0])
    ensures |s.typed| <= 2 && 0 !in s.typed
    ensures var r := Composed(t, s, events[0].sym);
            && Sound(t, r.state)
            && var rest := Replayed(t, r.state, events[1..]);
               Replayed(t, s, events) == Result(rest.state, r.outputs + rest.outputs)
  {
    hide WellShaped, Sound, Composed;
    SoundStart(t, s);
    var ev := events[0];
    StepSound(t, s, ev.sym, ev.pressed, ev.printable);
    assert Step(t, s, ev.sym, ev.pressed, ev.printable) == Composed(t, s, ev.sym);
  }

  lemma SymbolNonzero(t: Table, i: nat, keys: seq<uint32>, k: nat)
    requires i < |t| && Keys(t[i].slots) == keys && k < |keys|
    ensures keys[k] != 0
  {
    assert keys[k] in keys;
  }

  lemma {:induction false} SymbolsCounted(events: seq<KeyEvent>)
    ensures Symbols(Counted(events)) == Released(events)
  {
    if events != [] {
      SymbolsCounted(events[1..]);
      if Counts(events[0]) {
        assert Counted(events)[0] == events[0] && Counted(events)[1..] == Counted(events[1..]);
      } else {
        assert Counted(events) == Counted(events[1..]) && Released(events) == Released(events[1..]);
      }
    }
  }

  /** Main result: from the normal state, on a sorted table in which no entry begins
      another: Multi_key and then the keys of an entry, released amid any presses
      and shift keys, show a preview per key, commit the entry's text, ask for
      nothing else, and end in the normal state. */
  lemma {:induction false} SequenceCommits(t: Table, events: seq<KeyEvent>, i: nat)
    requires WellShaped(t) && Sorted(t) && PrefixFree(t) && ShiftsTextless(events)
    requires i < |t| && Released(events) == [MULTI_KEY] + Keys(t[i].slots)
    ensures var r := Replayed(t, NORMAL, events);
            && r.state == NORMAL
            && Requests(r.outputs) == Previews([], Keys(t[i].slots)) + [Commit(t[i].text)]
  {
    hide Composed, Sorted, PrefixFree;
    var c, keys := Counted(events), Keys(t[i].slots);
    OnlyCountedMatter(t, NORMAL, events);
    SymbolsCounted(events);
    assert c[0] in c && Symbols(c)[0] == c[0].sym;
    MultiStarts(t, c);
    var s := State(true, []);
    assert Symbols(c)[1..] == Symbols(c[1..]);
    assert [] + keys == keys;
    hide WellShaped, Keys;
    KeysCommit(t, s, c[1..], i);
    PreviewsAsked([], keys, t[i].text);
  }

  /** The release of Multi_key asks for nothing and starts an empty sequence. */
  lemma {:induction false} MultiStarts(t: Table, events: seq<KeyEvent>)
    requires WellShaped(t) && events != [] && events[0].sym == MULTI_KEY && !events[0].pressed
    ensures Replayed(t, NORMAL, events) == Replayed(t, State(true, []), events[1..])
  {
  }

  lemma {:induction false} PreviewsAsked(typed: seq<uint32>, keys: seq<uint32>, text: string)
    ensures Requests(Previews(typed, keys) + [Commit(text)]) == Previews(typed, keys) + [Commit(text)]
    decreases |keys|
  {
    if |keys| <= 1 {
      assert [Commit(text)][1..] == [];
      assert [] + [Commit(text)] == [Commit(text)];
    } else {
      var rest := Previews(typed + [keys[0]], keys[1..]);
      var all := Previews(typed, keys) + [Commit(text)];
      assert all[1..] == rest + [Commit(text)];
      PreviewsAsked(typed + [keys[0]], keys[1..], text);
    }
  }

  // ---------- The table that ships ----------

  /** The second key of a pair whose first key broke the sequence off, or its
      release in the normal state. */
  function Alone(ev: KeyEvent): seq<Output> {
    if ev.printable then [CommitSymbols([ev.sym])] else []
  }

  /** Two keys after Multi_key, on a table of pairs. */
  lemma {:induction false} PairReplayed(t: Table, first: KeyEvent, second: KeyEvent)
    requires WellShaped(t) && (forall i :: 0 <= i < |t| ==> |Keys(t[i].slots)| == 2)
    requires Counts(first) && Counts(second) && first.sym != 0 && second.sym != 0 && second.sym != MULTI_KEY
    ensures var a, b, r := first.sym, second.sym, Replayed(t, State(true, []), [first, second]);
            && r.state == NORMAL
            && Requests(r.outputs) ==
               if Found(t, [a], 0, |t|).None? then [CommitSymbols([a])] + Alone(second)
               else if Found(t, [a, b], 0, |t|).None? then [Preedit([a]), CommitSymbols([a, b])]
               else [Preedit([a]), Commit(t[Found(t, [a, b], 0, |t|).value].text)]
  {
    hide Keys, Found, WellShaped, Composed, Replayed, Requests, Sound;
    var s, a, b := State(true, []), first.sym, second.sym;
    SoundStart(t, NORMAL);
    assert [] + [a] == [a] && [a] + [b] == [a, b] && [first, second][1..] == [second];
    FoundOutcome(t, s, a);
    CountedStep(t, s, [first, second]);
    var ra := Composed(t, s, a);
    RequestsAppend(ra.outputs, Replayed(t, ra.state, [second]).outputs);
    OneReplayed(t, ra.state, second);
    SingleRequests();
    if Found(t, [a], 0, |t|).Some? {
      FoundOutcome(t, ra.state, b);
      var whole := Found(t, [a, b], 0, |t|);
      if whole.Some? { SameLengthPrefix([a, b], Keys(t[whole.value].slots)); }
    }
  }

  lemma SingleRequests()
    ensures Requests([]) == []
    ensures forall o: Output :: Requests([o]) == if o == Forward then [] else [o]
  {
    forall o: Output ensures Requests([o]) == if o == Forward then [] else [o] {
      assert [o][1..] == [];
    }
  }

  lemma {:induction false} OneReplayed(t: Table, s: State, ev: KeyEvent)
    requires WellShaped(t) && Sound(t, s)
    ensures |s.typed| <= 2 && 0 !in s.typed
    ensures Replayed(t, s, [ev]) == Step(t, s, ev.sym, ev.pressed, ev.printable)
  {
    StepSound(t, s, ev.sym, ev.pressed, ev.printable);
    hide Step;
    assert [ev][1..] == [];
    var r := Step(t, s, ev.sym, ev.pressed, ev.printable);
    assert r.outputs + [] == r.outputs;
  }

  /** Main result for the table that ships, from the normal state: Multi_key and the
      two keys of an entry commit its text after a preview of the first key, for
      sixteen of the eighteen.  After "s" the sequence is over and the second "s" is
      a key like any other; "a a" comes out as these two symbols. */
  lemma {:induction false} ShippedSequences(events: seq<KeyEvent>, i: nat)
    requires i < 18 && ShiftsTextless(events)
    requires (ShippedWellShaped(); Released(events) == [MULTI_KEY] + Keys(SHIPPED[i].slots))
    ensures WellShaped(SHIPPED) && |SHIPPED| == 18 && |Counted(events)| == 3
    ensures var k, r := Keys(SHIPPED[i].slots), Replayed(SHIPPED, NORMAL, events);
            && |k| == 2 && r.state == NORMAL
            && Requests(r.outputs) ==
               if i == 15 then [CommitSymbols([k[0]])] + Alone(Counted(events)[2])
               else if i == 17 then [Preedit([k[0]]), CommitSymbols(k)]
               else [Preedit([k[0]]), Commit(SHIPPED[i].text)]
  {
    hide SHIPPED, SHIPPED_KEYS, SHIPPED_TEXTS, Keys, Found, WellShaped, Replayed, Released, Symbols, Counted, Requests,
        Sorted;
    ShippedWellShaped();
    NoMultiShipped(i);
    var c, a, b := Counted(events), SHIPPED_KEYS[i].0, SHIPPED_KEYS[i].1;
    OnlyCountedMatter(SHIPPED, NORMAL, events);
    SymbolsCounted(events);
    ThreeSymbols(c, MULTI_KEY, a, b);
    assert c[0] in c && c[1] in c && c[2] in c;
    MultiStarts(SHIPPED, c);
    FirstKeyFoundIff(i);
    ShippedFoundIff(i);
    assert c[1..] == [c[1], c[2]];
    ShippedKeysInRange(i);
    PairReplayed(SHIPPED, c[1], c[2]);
  }

  lemma NoMultiShipped(i: nat)
    requires i < 18
    ensures |SHIPPED_KEYS| == 18 && SHIPPED_KEYS[i].1 != MULTI_KEY
  {
  }

  lemma {:induction false} SymbolsAt(c: seq<KeyEvent>, k: nat)
    ensures |Symbols(c)| == |c|
    ensures k < |c| ==> Symbols(c)[k] == c[k].sym
  {
    if c != [] { SymbolsAt(c[1..], if k == 0 then 0 else k - 1); }
  }

  lemma {:induction false} ThreeSymbols(c: seq<KeyEvent>, a: uint32, b: uint32, d: uint32)
    requires Symbols(c) == [a, b, d]
    ensures |c| == 3 && c[0].sym == a && c[1].sym == b && c[2].sym == d
  {
    hide Symbols;
    SymbolsAt(c, 0);
    SymbolsAt(c, 1);
    SymbolsAt(c, 2);
  }
}
