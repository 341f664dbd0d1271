/** clients/simple-im.c: an input method that composes characters.  Typed key
    symbols are looked up by prefix with a binary search over a table of compose
    sequences. */
module SimpleIm {
  import opened CInt
  import opened Options

  const MULTI_KEY: uint32 := 0xff20
  const SHIFT_L: uint32 := 0xffe1
  const SHIFT_R: uint32 := 0xffe2

  /** Key symbols are below 2^29, so their unsigned difference fits an int. */
  const SYM_LIMIT := 0x2000_0000

  /** A sequence as the table stores it: four slots, zero after the last key. */
  datatype ComposeSeq = ComposeSeq(slots: seq<uint32>, text: string)

  /** The slots before the first zero. */
  function Keys(slots: seq<uint32>): (r: seq<uint32>)
    ensures r <= slots && 0 !in r
    ensures |r| < |slots| ==> slots[|r|] == 0
  {
    if slots == [] || slots[0] == 0 then [] else [slots[0]] + Keys(slots[1..])
  }

  predicate Terminated(slots: seq<uint32>) {
    |slots| == 4 && |Keys(slots)| <= 3 && forall k :: k in slots ==> k < SYM_LIMIT
  }

  // ---------- The comparator ----------

  /** Zero iff a is a prefix of b; otherwise the sign of the first difference. */
  function Compared(a: seq<uint32>, b: seq<uint32>): int {
    if a == [] then 0
    else if b == [] then a[0]
    else if a[0] != b[0] then a[0] - b[0]
    else Compared(a[1..], b[1..])
  }

  /** compare_compose_keys: unsigned differences, returned as int. */
  method CompareComposeKeys(s1: seq<uint32>, s2: seq<uint32>) returns (r: int)
    requires Terminated(s1) && Terminated(s2)
    ensures r == Compared(Keys(s1), Keys(s2))
  {
    ghost var a, b := Keys(s1), Keys(s2);
    var i := 0;
    while s1[i] != 0 && s2[i] != 0
      invariant 0 <= i <= |a| && i <= |b|
      invariant Compared(a[i..], b[i..]) == Compared(a, b)
      decreases 4 - i
    {
      KeyAt(s1, i);
      KeyAt(s2, i);
      if s1[i] != s2[i] {
        return Difference(s1[i], s2[i]);
      }
      assert a[i..][1..] == a[i + 1..] && b[i..][1..] == b[i + 1..];
      i := i + 1;
    }
    KeyAt(s1, i);
    KeyAt(s2, i);
    if s1[i] == s2[i] || s1[i] == 0 {
      return 0;
    }
    r := Difference(s1[i], s2[i]);
  }

  /** The difference of two unsigned words, converted to int. */
  function Difference(x: uint32, y: uint32): (r: int)
    ensures x < SYM_LIMIT && y < SYM_LIMIT ==> r == (x as int) - (y as int)
  {
    var d: int := (x as int) - (y as int);
    ToInt32(ToUint32(d))
  }

  lemma {:induction false} KeyAt(slots: seq<uint32>, i: nat)
    requires Terminated(slots) && i <= |Keys(slots)|
    ensures i < 4
    ensures slots[i] == 0 <==> i == |Keys(slots)|
    ensures i < |Keys(slots)| ==> Keys(slots)[i] == slots[i]
    ensures slots[i] < SYM_LIMIT
  {
    if i < |Keys(slots)| { assert Keys(slots)[i] in Keys(slots); }
    assert slots[i] in slots;
  }

  lemma {:induction false} ComparedZeroIff(a: seq<uint32>, b: seq<uint32>)
    requires 0 !in a
    ensures Compared(a, b) == 0 <==> a <= b
    decreases |a|
  {
    if a != [] && b != [] && a[0] == b[0] {
      ComparedZeroIff(a[1..], b[1..]);
      assert a == [a[0]] + a[1..] && b == [b[0]] + b[1..];
    }
  }

  /** Strict lexicographic order, a proper prefix first. */
  predicate Less(a: seq<uint32>, b: seq<uint32>) {
    b != [] && (a == [] || a[0] < b[0] || (a[0] == b[0] && Less(a[1..], b[1..])))
  }

  /** The comparator is monotone along the order: what binary search needs. */
  lemma {:induction false} ComparedMonotone(a: seq<uint32>, b: seq<uint32>, c: seq<uint32>)
    requires Less(b, c) && 0 !in a
    ensures Compared(a, b) < 0 ==> Compared(a, c) < 0
    ensures Compared(a, c) > 0 ==> Compared(a, b) > 0
    decreases |a|
  {
    if a != [] && b != [] && a[0] == b[0] == c[0] {
      ComparedMonotone(a[1..], b[1..], c[1..]);
    }
  }

  // ---------- The search ----------

  type Table = seq<ComposeSeq>

  predicate WellShaped(t: Table) {
    forall i :: 0 <= i < |t| ==> Terminated(t[i].slots) && Keys(t[i].slots) != []
  }

  predicate Sorted(t: Table) {
    forall i, j :: 0 <= i < j < |t| ==> Less(Keys(t[i].slots), Keys(t[j].slots))
  }

  predicate PrefixFree(t: Table) {
    forall i, j :: 0 <= i < |t| && 0 <= j < |t| && Keys(t[i].slots) <= Keys(t[j].slots) ==> i == j
  }

  predicate Extends(t: Table, i: int, typed: seq<uint32>)
    requires 0 <= i < |t|
  {
    typed <= Keys(t[i].slots)
  }

  /** bsearch over t[low..high]: always probe the middle. */
  function Found(t: Table, typed: seq<uint32>, low: nat, high: nat): (r: Option<nat>)
    requires low <= high <= |t|
    ensures r.Some? ==> low <= r.value < high
    decreases high - low
  {
    if low == high then None
    else
      var mid := (low + high) / 2;
      var c := Compared(typed, Keys(t[mid].slots));
      if c < 0 then Found(t, typed, low, mid)
      else if c > 0 then Found(t, typed, mid + 1, high)
      else Some(mid)
  }

  method BSearch(t: Table, slots: seq<uint32>) returns (r: Option<nat>)
    requires WellShaped(t) && Terminated(slots)
    ensures r == Found(t, Keys(slots), 0, |t|)
  {
    var low, high := 0, |t|;
    while low < high
      invariant 0 <= low <= high <= |t|
      invariant Found(t, Keys(slots), low, high) == Found(t, Keys(slots), 0, |t|)
      decreases high - low
    {
      var mid := (low + high) / 2;
      var c := CompareComposeKeys(slots, t[mid].slots);
      if c < 0 {
        high := mid;
      } else if c > 0 {
        low := mid + 1;
      } else {
        return Some(mid);
      }
    }
    r := None;
  }

  /** On any table, what is found extends the typed keys. */
  lemma {:induction false} FoundExtends(t: Table, typed: seq<uint32>, low: nat, high: nat)
    requires low <= high <= |t| && 0 !in typed
    ensures Found(t, typed, low, high).Some? ==> Extends(t, Found(t, typed, low, high).value, typed)
    decreases high - low
  {
    if low < high {
      var mid := (low + high) / 2;
      ComparedZeroIff(typed, Keys(t[mid].slots));
      FoundExtends(t, typed, low, mid);
      FoundExtends(t, typed, mid + 1, high);
    }
  }

  /** On a sorted table an extending entry lies where the comparison points. */
  lemma {:induction false} SideOf(t: Table, typed: seq<uint32>, mid: nat, i: nat)
    requires Sorted(t) && 0 !in typed && mid < |t| && i < |t| && Extends(t, i, typed)
    ensures Compared(typed, Keys(t[mid].slots)) < 0 ==> i < mid
    ensures Compared(typed, Keys(t[mid].slots)) > 0 ==> i > mid
  {
    hide Compared, Keys;
    ComparedZeroIff(typed, Keys(t[i].slots));
    if mid < i { ComparedMonotone(typed, Keys(t[mid].slots), Keys(t[i].slots)); }
    if i < mid { ComparedMonotone(typed, Keys(t[i].slots), Keys(t[mid].slots)); }
  }

  /** On a sorted table the search finds an entry iff a linear scan would. */
  lemma {:induction false} FoundIff(t: Table, typed: seq<uint32>, low: nat, high: nat)
    requires Sorted(t) && 0 !in typed && low <= high <= |t|
    ensures Found(t, typed, low, high).Some? <==> exists i :: low <= i < high && Extends(t, i, typed)
    decreases high - low
  {
    hide Sorted, Extends, Compared, Keys;
    FoundExtends(t, typed, low, high);
    if low < high {
      var mid := (low + high) / 2;
      forall i | low <= i < high && Extends(t, i, typed)
        ensures Compared(typed, Keys(t[mid].slots)) < 0 ==> i < mid
        ensures Compared(typed, Keys(t[mid].slots)) > 0 ==> i > mid
      {
        SideOf(t, typed, mid, i);
      }
      FoundIff(t, typed, low, mid);
      FoundIff(t, typed, mid + 1, high);
    }
  }

  // ---------- The key handler ----------

  /** typed holds the nonzero slots of compose_seq while composing; what is left
      there afterwards is cleared by the next Multi_key before it is read. */
  datatype State = State(composing: bool, typed: seq<uint32>)

  /** Requests; the texts of single symbols come from the keymap library and
      stand as the symbols themselves. */
  datatype Output =
    | Forward
    | Preedit(shown: seq<uint32>)
    | Commit(text: string)
    | CommitSymbols(symbols: seq<uint32>)

  datatype Result = Result(state: State, outputs: seq<Output>)

  predicate Ignored(sym: uint32) {
    sym == SHIFT_L || sym == SHIFT_R
  }

  /** A released key while composing, after the ignored keys are sorted out. */
  function Composed(t: Table, s: State, sym: uint32): Result
    requires WellShaped(t) && |s.typed| <= 2 && 0 !in s.typed
  {
    var typed := if sym == 0 then s.typed else s.typed + [sym];
    var found := Found(t, typed, 0, |t|);
    if found.None? then Result(State(false, []), [CommitSymbols(s.typed + [sym])])
    else
      var e := t[found.value];
      if e.slots[|s.typed| + 1] == 0 then Result(State(false, []), [Commit(e.text)])
      else Result(State(true, typed), [Preedit(e.slots[..|s.typed| + 1])])
  }

  /** simple_im_key_handler; `printable` is "the symbol has a text". */
  function Step(t: Table, s: State, sym: uint32, pressed: bool, printable: bool): Result
    requires WellShaped(t) && |s.typed| <= 2 && 0 !in s.typed
  {
    if sym == MULTI_KEY && !pressed && !s.composing then Result(State(true, []), [])
    else if s.composing then
      if pressed then Result(s, [])
      else if Ignored(sym) then Result(s, [Forward])
      else Composed(t, s, sym)
    else if !printable then Result(s, [Forward])
    else Result(s, if pressed then [] else [CommitSymbols([sym])])
  }

  /** While composing, the search finds an entry for the typed keys that has more
      of them: the lookup that stored the last key did.  Any table will do. */
  predicate Sound(t: Table, s: State) {
    && 0 !in s.typed
    && (s.composing && s.typed != [] ==> FindsLonger(t, s.typed))
    && (!s.composing ==> s.typed == [])
  }

  predicate FindsLonger(t: Table, typed: seq<uint32>) {
    var found := Found(t, typed, 0, |t|);
    found.Some? && |typed| < |Keys(t[found.value].slots)|
  }

  /** The compose index never exceeds 2. */
  lemma IndexBounded(t: Table, s: State)
    requires WellShaped(t) && Sound(t, s)
    ensures |s.typed| <= 2
  {
    hide Keys, Found;
  }

  predicate Beginning(t: Table, i: int, typed: seq<uint32>)
    requires 0 <= i < |t|
  {
    Extends(t, i, typed) && |typed| < |Keys(t[i].slots)|
  }

  /** Whatever is found decides: the whole entry, or its beginning. */
  lemma {:induction false} FoundOutcome(t: Table, s: State, sym: uint32)
    requires WellShaped(t) && Sound(t, s) && s.composing && sym != 0 && |s.typed| <= 2
    ensures var typed, r := s.typed + [sym], Composed(t, s, sym);
            var found := Found(t, typed, 0, |t|);
            && (found.None? ==> r == Result(State(false, []), [CommitSymbols(typed)]))
            && (found.Some? ==>
                  && Extends(t, found.value, typed)
                  && r == if Keys(t[found.value].slots) == typed
                          then Result(State(false, []), [Commit(t[found.value].text)])
                          else Result(State(true, typed), [Preedit(typed)]))
  {
    var typed := s.typed + [sym];
    var found := Found(t, typed, 0, |t|);
    FoundExtends(t, typed, 0, |t|);
    if found.Some? {
      var slots := t[found.value].slots;
      KeyAt(slots, |typed|);
      assert slots[..|typed|] == Keys(slots)[..|typed|] == typed;
      assert |Keys(slots)| == |typed| ==> Keys(slots) == typed;
    }
  }

  /** A symbol while composing has exactly three outcomes: the keys typed are an
      entry, the proper beginning of one, or neither. */
  lemma ComposedOutcome(t: Table, s: State, sym: uint32)
    requires WellShaped(t) && Sorted(t) && PrefixFree(t)
    requires Sound(t, s) && s.composing && sym != 0
    ensures |s.typed| <= 2
    ensures forall i :: 0 <= i < |t| && Keys(t[i].slots) == s.typed + [sym] ==>
              Composed(t, s, sym) == Result(State(false, []), [Commit(t[i].text)])
    ensures (exists i :: 0 <= i < |t| && Beginning(t, i, s.typed + [sym])) ==>
              Composed(t, s, sym) == Result(State(true, s.typed + [sym]), [Preedit(s.typed + [sym])])
    ensures (forall i :: 0 <= i < |t| ==> !Extends(t, i, s.typed + [sym])) ==>
              Composed(t, s, sym) == Result(State(false, []), [CommitSymbols(s.typed + [sym])])
  {
    IndexBounded(t, s);
    hide Composed, Found, Keys, Sorted;
    var typed := s.typed + [sym];
    FoundIff(t, typed, 0, |t|);
    FoundOutcome(t, s, sym);
    var found := Found(t, typed, 0, |t|);
    forall i | 0 <= i < |t| && Extends(t, i, typed)
      ensures found.Some?
      ensures Keys(t[i].slots) == typed || Keys(t[found.value].slots) == typed ==> i == found.value
    {
      if Keys(t[i].slots) == typed { OneWhole(t, i, found.value, typed); }
      if Keys(t[found.value].slots) == typed { OneWhole(t, found.value, i, typed); }
    }
  }

  /** In a prefix-free table nothing else extends a whole entry. */
  lemma OneWhole(t: Table, i: nat, j: nat, typed: seq<uint32>)
    requires PrefixFree(t) && i < |t| && j < |t| && Keys(t[i].slots) == typed && Extends(t, j, typed)
    ensures i == j
  {
    hide Keys;
    assert Keys(t[i].slots) <= Keys(t[j].slots);
  }

  /** Any key, on any table, sorted or not, leaves at most two keys pending, so
      the next store and the terminator after it stay inside the four slots. */
  lemma StepSound(t: Table, s: State, sym: uint32, pressed: bool, printable: bool)
    requires WellShaped(t) && Sound(t, s)
    ensures |s.typed| <= 2
    ensures Sound(t, Step(t, s, sym, pressed, printable).state)
  {
    IndexBounded(t, s);
    hide Found, Keys;
    if s.composing && !pressed && !Ignored(sym) && sym != 0 {
      FoundOutcome(t, s, sym);
      var typed := s.typed + [sym];
      var found := Found(t, typed, 0, |t|);
      if found.Some? { SameLengthPrefix(typed, Keys(t[found.value].slots)); }
    }
  }

  datatype KeyEvent = KeyEvent(sym: uint32, pressed: bool, printable: bool)

  /** Index and soundness over any run. */
  ghost predicate SoundRun(t: Table, s: State, events: seq<KeyEvent>)
    requires WellShaped(t) && Sound(t, s)
    decreases |events|
  {
    |s.typed| <= 2 && (events == [] || (
      StepSound(t, s, events[0].sym, events[0].pressed, events[0].printable);
      SoundRun(t, Step(t, s, events[0].sym, events[0].pressed, events[0].printable).state, events[1..])))
  }

  lemma {:induction false} EveryRunSound(t: Table, s: State, events: seq<KeyEvent>)
    requires WellShaped(t) && Sound(t, s)
    ensures SoundRun(t, s, events)
    decreases |events|
  {
    IndexBounded(t, s);
    if events != [] {
      StepSound(t, s, events[0].sym, events[0].pressed, events[0].printable);
      EveryRunSound(t, Step(t, s, events[0].sym, events[0].pressed, events[0].printable).state, events[1..]);
    }
  }

  /** Releasing the keys one after the other. */
  function Typing(t: Table, s: State, keys: seq<uint32>): Result
    requires WellShaped(t) && |s.typed| + |keys| <= 3 && 0 !in s.typed && 0 !in keys
    decreases |keys|
  {
    if keys == [] || !s.composing then Result(s, [])
    else
      var r := Composed(t, s, keys[0]);
      var rest := Typing(t, r.state, keys[1..]);
      Result(rest.state, r.outputs + rest.outputs)
  }

  /** The pre-edits shown before the last key of a sequence. */
  function Previews(typed: seq<uint32>, keys: seq<uint32>): seq<Output>
    decreases |keys|
  {
    if |keys| <= 1 then [] else [Preedit(typed + [keys[0]])] + Previews(typed + [keys[0]], keys[1..])
  }

  /** Typing the keys of entry i commits its text, after a preview per key. */
  lemma {:induction false} TypingCommits(t: Table, s: State, keys: seq<uint32>, i: nat)
    requires WellShaped(t) && Sorted(t) && PrefixFree(t) && Sound(t, s)
    requires s.composing && i < |t| && Keys(t[i].slots) == s.typed + keys && keys != [] && 0 !in keys
    ensures Typing(t, s, keys) == Result(State(false, []), Previews(s.typed, keys) + [Commit(t[i].text)])
    decreases |keys|
  {
    hide Composed, Keys, Sorted, PrefixFree;
    var typed := s.typed + [keys[0]];
    ComposedOutcome(t, s, keys[0]);
    if |keys| == 1 {
      assert keys == [keys[0]];
    } else {
      assert s.typed + keys == typed + keys[1..];
      assert Beginning(t, i, typed);
      var next := State(true, typed);
      BeginningFound(t, i, typed);
      TypingCommits(t, next, keys[1..], i);
      PreviewNext(t, s, keys);
    }
  }

  /** In a sorted, prefix-free table the beginning of an entry is found, in an
      entry with more keys. */
  lemma BeginningFound(t: Table, i: nat, typed: seq<uint32>)
    requires Sorted(t) && PrefixFree(t) && i < |t| && Beginning(t, i, typed) && 0 !in typed
    ensures FindsLonger(t, typed)
  {
    hide Keys, Found, Sorted;
    FoundIff(t, typed, 0, |t|);
    FoundExtends(t, typed, 0, |t|);
    var j := Found(t, typed, 0, |t|).value;
    SameLengthPrefix(typed, Keys(t[j].slots));
    if Keys(t[j].slots) == typed { OneWhole(t, j, i, typed); }
  }

  lemma {:induction false} PreviewNext(t: Table, s: State, keys: seq<uint32>)
    requires WellShaped(t) && |s.typed| + |keys| <= 3 && 0 !in s.typed && 0 !in keys && |keys| > 1 && s.composing
    requires var typed := s.typed + [keys[0]];
             Composed(t, s, keys[0]) == Result(State(true, typed), [Preedit(typed)])
    ensures var typed := s.typed + [keys[0]];
            && Typing(t, s, keys).state == Typing(t, State(true, typed), keys[1..]).state
            && Typing(t, s, keys).outputs == [Preedit(typed)] + Typing(t, State(true, typed), keys[1..]).outputs
            && Previews(s.typed, keys) == [Preedit(typed)] + Previews(typed, keys[1..])
  {
    hide Composed;
  }

  /** Presses and shift keys in between do not disturb a sequence. */
  lemma InterludesHarmless(t: Table, s: State, sym: uint32, pressed: bool, printable: bool)
    requires WellShaped(t) && |s.typed| <= 2 && 0 !in s.typed && s.composing && (pressed || Ignored(sym))
    ensures Step(t, s, sym, pressed, printable).state == s
    ensures forall o :: o in Step(t, s, sym, pressed, printable).outputs ==> o == Forward
  {
  }

  /** Key events one after the other, until the sequence ends. */
  function Driven(t: Table, s: State, events: seq<KeyEvent>): Result
    requires WellShaped(t) && Sound(t, s)
    decreases |events|
  {
    if events == [] || !s.composing then Result(s, [])
    else
      StepSound(t, s, events[0].sym, events[0].pressed, events[0].printable);
      var r := Step(t, s, events[0].sym, events[0].pressed, events[0].printable);
      var rest := Driven(t, r.state, events[1..]);
      Result(rest.state, r.outputs + rest.outputs)
  }

  /** The symbols that count: released, and not a shift key. */
  function Released(events: seq<KeyEvent>): seq<uint32> {
    if events == [] then []
    else
      (if events[0].pressed || Ignored(events[0].sym) then [] else [events[0].sym]) + Released(events[1..])
  }

  function Requests(outputs: seq<Output>): seq<Output> {
    if outputs == [] then []
    else (if outputs[0] == Forward then [] else [outputs[0]]) + Requests(outputs[1..])
  }

  /** Main result: any key events, presses and shift keys among them, do exactly
      what releasing the other keys one after the other does. */
  lemma {:induction false} DrivenIsTyping(t: Table, s: State, events: seq<KeyEvent>)
    requires WellShaped(t) && Sound(t, s) && 0 !in Released(events) && |s.typed| + |Released(events)| <= 3
    ensures Driven(t, s, events).state == Typing(t, s, Released(events)).state
    ensures Requests(Driven(t, s, events).outputs) == Typing(t, s, Released(events)).outputs
    decreases |events|
  {
    hide WellShaped, Sound, Composed;
    if events != [] && s.composing {
      var ev := events[0];
      SoundStart(t, s);
      StepSound(t, s, ev.sym, ev.pressed, ev.printable);
      var r := Step(t, s, ev.sym, ev.pressed, ev.printable);
      if ev.pressed || Ignored(ev.sym) {
        InterludesHarmless(t, s, ev.sym, ev.pressed, ev.printable);
        assert Released(events) == Released(events[1..]);
        DrivenIsTyping(t, s, events[1..]);
        RequestsSkip(r.outputs, Driven(t, s, events[1..]).outputs);
      } else {
        ComposedGrows(t, s, ev.sym);
        assert Released(events)[1..] == Released(events[1..]);
        DrivenIsTyping(t, r.state, events[1..]);
        RequestsKeep(r.outputs, Driven(t, r.state, events[1..]).outputs);
      }
    }
  }

  lemma ComposedGrows(t: Table, s: State, sym: uint32)
    requires WellShaped(t) && |s.typed| <= 2 && 0 !in s.typed && sym != 0
    ensures |Composed(t, s, sym).state.typed| <= |s.typed| + 1 && 0 !in Composed(t, s, sym).state.typed
    ensures |Composed(t, s, sym).outputs| == 1 && Composed(t, s, sym).outputs[0] != Forward
  {
    hide Keys, Found;
  }

  lemma {:induction false} RequestsSkip(before: seq<Output>, after: seq<Output>)
    requires forall o :: o in before ==> o == Forward
    ensures Requests(before + after) == Requests(after)
    decreases |before|
  {
    if before == [] {
      assert before + after == after;
    } else {
      assert (before + after)[1..] == before[1..] + after;
      assert before[0] in before && forall o :: o in before[1..] ==> o in before;
      RequestsSkip(before[1..], after);
    }
  }

  lemma {:induction false} RequestsKeep(before: seq<Output>, after: seq<Output>)
    requires |before| == 1 && before[0] != Forward
    ensures Requests(before + after) == before + Requests(after)
  {
    assert (before + after)[1..] == after;
  }

  /** A key without a symbol is stored as the terminator, so the search runs on
      the keys typed before.  On any table it finds what it found for the last
      key, and commits that entry exactly when it has one key left. */
  lemma {:induction false} NoSymbolCommitsIff(t: Table, s: State)
    requires WellShaped(t) && t != [] && Sound(t, s) && s.composing
    ensures |s.typed| <= 2
    ensures var found, r := Found(t, s.typed, 0, |t|), Composed(t, s, 0);
            && found.Some?
            && if |Keys(t[found.value].slots)| == |s.typed| + 1
               then r == Result(State(false, []), [Commit(t[found.value].text)])
               else r.state == s
  {
    IndexBounded(t, s);
    if s.typed == [] { NothingTypedFound(t); }
    hide Keys, Found;
    var i := Found(t, s.typed, 0, |t|).value;
    KeyAt(t[i].slots, |s.typed| + 1);
  }

  /** Before the first key the search stops at its first probe. */
  lemma NothingTypedFound(t: Table)
    requires WellShaped(t) && t != []
    ensures FindsLonger(t, [])
  {
    hide Keys;
    assert Found(t, [], 0, |t|) == Some((0 + |t|) / 2);
  }

  lemma SameLengthPrefix(a: seq<uint32>, b: seq<uint32>)
    requires a <= b
    ensures |a| < |b| || a == b
  {
  }

  // ---------- The object ----------

  /** Storing a symbol in the first free slot appends it to the keys. */
  lemma {:induction false} KeysAppend(slots: seq<uint32>, sym: uint32)
    requires |Keys(slots)| < |slots| && (forall k :: |Keys(slots)| <= k < |slots| ==> slots[k] == 0)
    ensures sym != 0 ==> Keys(slots[|Keys(slots)| := sym]) == Keys(slots) + [sym]
    ensures sym == 0 ==> slots[|Keys(slots)| := sym] == slots
    decreases |slots|
  {
    var n := |Keys(slots)|;
    if n > 0 {
      KeysAppend(slots[1..], sym);
      assert slots[n := sym][1..] == slots[1..][n - 1 := sym];
    } else if |slots| > 1 {
      assert slots[0 := sym][1..] == slots[1..] && slots[1] == 0;
    }
  }

  class InputMethod {
    const table: Table
    var composing: bool
    const slots: array<uint32>
    ghost var outputs: seq<Output>

    ghost predicate Shaped()
      reads this, slots
    {
      && slots.Length == 4
      && (forall k :: 0 <= k < 4 ==> slots[k] < SYM_LIMIT)
      && (composing ==> forall k :: |Keys(slots[..])| <= k < 4 ==> slots[k] == 0)
    }

    /** Between keys, on whatever table: at most two keys are pending. */
    ghost predicate Valid()
      reads this, slots
    {
      Shaped() && WellShaped(table) && Sound(table, View())
    }

    ghost function View(): State
      reads this, slots
    {
      State(composing, if composing then Keys(slots[..]) else [])
    }

    constructor (t: Table)
      requires WellShaped(t)
      ensures Valid() && table == t && View() == State(false, []) && outputs == [] && fresh(slots)
    {
      table := t;
      composing := false;
      slots := new uint32[4](_ => 0);
      outputs := [];
    }

    /** The search for the first free slot, and the store into it: the slot and
        the terminator after it are inside the array. */
    method StoreSymbol(sym: uint32) returns (i: nat)
      requires Valid() && composing && sym < SYM_LIMIT
      modifies slots
      ensures Shaped() && Terminated(slots[..])
      ensures i == |old(View()).typed| && i + 1 < 4 && slots[..i + 1] == old(View()).typed + [sym]
      ensures View().typed == if sym == 0 then old(View()).typed else old(View()).typed + [sym]
    {
      hide Sound, WellShaped, FindsLonger;
      IndexBounded(table, View());
      ghost var before := slots[..];
      i := 0;
      KeyAt(before, 0);
      while slots[i] != 0
        invariant 0 <= i <= |Keys(before)| && slots[..] == before
        decreases |Keys(before)| - i
      {
        KeyAt(before, i);
        i := i + 1;
      }
      KeyAt(before, i);
      KeysAppend(before, sym);
      slots[i] := sym;
      assert slots[..] == before[i := sym];
      assert slots[..i] == Keys(before);
    }

    /** The compose branch, for a released symbol that is not ignored. */
    method Compose(sym: uint32)
      requires Valid() && composing && !Ignored(sym) && sym < SYM_LIMIT
      modifies this, slots
      ensures Valid()
      ensures |old(View()).typed| <= 2
      ensures var r := Composed(table, old(View()), sym);
              View() == r.state && outputs == old(outputs) + r.outputs
    {
      hide Keys, Found, Sound;
      ghost var was := View();
      StepSound(table, was, sym, false, true);
      SoundStart(table, was);
      var i := StoreSymbol(sym);
      var found := BSearch(table, slots[..]);
      if found.Some? {
        var e := table[found.value];
        if e.slots[i + 1] == 0 {
          outputs := outputs + [Commit(e.text)];
          composing := false;
        } else {
          outputs := outputs + [Preedit(e.slots[..i + 1])];
        }
      } else {
        outputs := outputs + [CommitSymbols(slots[..i + 1])];
        composing := false;
      }
      assert View() == Composed(table, was, sym).state;
    }

    /** simple_im_key_handler */
    method HandleKey(sym: uint32, pressed: bool, printable: bool)
      requires Valid() && sym < SYM_LIMIT
      modifies this, slots
      ensures Valid()
      ensures |old(View()).typed| <= 2 && 0 !in old(View()).typed
      ensures var r := Step(table, old(View()), sym, pressed, printable);
              View() == r.state && outputs == old(outputs) + r.outputs
    {
      IndexBounded(table, View());
      SoundStart(table, View());
      hide Sound;
      if sym == MULTI_KEY && !pressed && !composing {
        composing := true;
        slots[0], slots[1], slots[2], slots[3] := 0, 0, 0, 0;
        return;
      }
      if composing {
        if pressed {
          return;
        }
        if sym == SHIFT_L || sym == SHIFT_R {
          outputs := outputs + [Forward];
          return;
        }
        Compose(sym);
        return;
      }
      if !printable {
        outputs := outputs + [Forward];
        return;
      }
      if pressed {
        return;
      }
      outputs := outputs + [CommitSymbols([sym])];
    }
  }

  lemma SoundStart(t: Table, s: State)
    requires Sound(t, s)
    ensures 0 !in s.typed && Sound(t, State(true, [])) && Sound(t, State(false, []))
  {
  }

  // ---------- The table that ships ----------

  /** The two keys of each entry, in the order of the source. */
  const SHIPPED_KEYS: seq<(uint32, uint32)> := [
    (0x22, 0x41), (0x22, 0x4f), (0x22, 0x55), (0x22, 0x61), (0x22, 0x6f), (0x22, 0x75),
    (0x27, 0x41), (0x27, 0x61), (0x2f, 0x4f), (0x2f, 0x6f), (0x3c, 0x33),
    (0x41, 0x41), (0x41, 0x45), (0x4f, 0x43), (0x4f, 0x52),
    (0x73, 0x73), (0x61, 0x65), (0x61, 0x61)
  ]

  const SHIPPED_TEXTS: string :=
    "\U{c4}\U{d6}\U{dc}\U{e4}\U{f6}\U{fc}\U{c1}\U{e1}\U{d8}\U{f8}\U{2665}\U{c5}\U{c6}\U{a9}\U{ae}\U{df}\U{e6}\U{e5}"

  const SHIPPED: Table :=
    seq(18, i requires 0 <= i < 18 =>
      ComposeSeq([SHIPPED_KEYS[i].0, SHIPPED_KEYS[i].1, 0, 0], [SHIPPED_TEXTS[i]]))

  lemma PairKeys(a: uint32, b: uint32)
    requires a != 0 && b != 0
    ensures Keys([a, b, 0, 0]) == [a, b]
  {
    assert [a, b, 0, 0][1..] == [b, 0, 0] && [b, 0, 0][1..] == [0, 0];
    assert Keys([0, 0]) == [];
    assert Keys([b, 0, 0]) == [b];
  }

  lemma PairCompared(a: uint32, b: uint32, c: uint32, d: uint32)
    ensures Compared([a, b], [c, d]) ==
              if a != c then (a as int) - (c as int) else if b != d then (b as int) - (d as int) else 0
  {
    assert [a, b][1..] == [b] && [c, d][1..] == [d] && [b][1..] == [] && [d][1..] == [];
    assert Compared([b], [d]) == if b != d then (b as int) - (d as int) else 0;
  }

  /** Position of a pair in the order of the comparator. */
  function Rank(k: (uint32, uint32)): int {
    k.0 * 0x1000 + k.1
  }

  lemma ShippedCompared(i: nat, j: nat)
    requires i < 18 && j < 18
    ensures |SHIPPED_KEYS| == 18
    ensures Compared(Keys(SHIPPED[i].slots), Keys(SHIPPED[j].slots)) < 0 <==>
            Rank(SHIPPED_KEYS[i]) < Rank(SHIPPED_KEYS[j])
    ensures Compared(Keys(SHIPPED[i].slots), Keys(SHIPPED[j].slots)) > 0 <==>
            Rank(SHIPPED_KEYS[i]) > Rank(SHIPPED_KEYS[j])
  {
    var p, q := SHIPPED_KEYS[i], SHIPPED_KEYS[j];
    PairKeys(p.0, p.1);
    PairKeys(q.0, q.1);
    PairCompared(p.0, p.1, q.0, q.1);
  }

  /** If the entries around i compare the right way, the search lands on i. */
  lemma {:induction false} FoundAmong(t: Table, typed: seq<uint32>, i: nat, low: nat, high: nat)
    requires low <= i < high <= |t| && Compared(typed, Keys(t[i].slots)) == 0
    requires forall j :: low <= j < i ==> Compared(typed, Keys(t[j].slots)) > 0
    requires forall j :: i < j < high ==> Compared(typed, Keys(t[j].slots)) < 0
    ensures Found(t, typed, low, high) == Some(i)
    decreases high - low
  {
    hide Compared, Keys;
    var mid := (low + high) / 2;
    if mid < i { FoundAmong(t, typed, i, mid + 1, high); }
    if i < mid { FoundAmong(t, typed, i, low, mid); }
  }

  lemma RanksAscend(i: nat, j: nat)
    requires i < 15 && j < 18 && i != j
    ensures |SHIPPED_KEYS| == 18
    ensures Rank(SHIPPED_KEYS[i]) < Rank(SHIPPED_KEYS[j]) <==> i < j
    ensures Rank(SHIPPED_KEYS[i]) != Rank(SHIPPED_KEYS[j])
  {
  }

  /** The last three entries: the search is down to them after two probes. */
  lemma LastThree(i: nat)
    requires 15 <= i < 18
    ensures Found(SHIPPED, Keys(SHIPPED[i].slots), 0, 18) == Found(SHIPPED, Keys(SHIPPED[i].slots), 15, 18)
  {
    ShippedCompared(i, 9);
    ShippedCompared(i, 14);
    LastRanks(i);
    hide Found, Compared, Keys, SHIPPED_KEYS, SHIPPED_TEXTS;
    var typed := Keys(SHIPPED[i].slots);
    assert (0 + 18) / 2 == 9 && (10 + 18) / 2 == 14;
    ProbeRight(SHIPPED, typed, 0, 18);
    ProbeRight(SHIPPED, typed, 10, 18);
  }

  lemma LastRanks(i: nat)
    requires 15 <= i < 18
    ensures |SHIPPED_KEYS| == 18
    ensures Rank(SHIPPED_KEYS[i]) > Rank(SHIPPED_KEYS[9]) && Rank(SHIPPED_KEYS[i]) > Rank(SHIPPED_KEYS[14])
  {
  }

  lemma ProbeRight(t: Table, typed: seq<uint32>, low: nat, high: nat)
    requires low < high <= |t| && Compared(typed, Keys(t[(low + high) / 2].slots)) > 0
    ensures Found(t, typed, low, high) == Found(t, typed, (low + high) / 2 + 1, high)
  {
    hide Compared, Keys;
  }

  lemma {:induction false} ProbeLeft(t: Table, typed: seq<uint32>, low: nat, high: nat)
    requires low < high <= |t| && Compared(typed, Keys(t[(low + high) / 2].slots)) < 0
    ensures Found(t, typed, low, high) == Found(t, typed, low, (low + high) / 2)
  {
    hide Compared, Keys;
  }

  /** "s s" probes right of itself, "a a" left of itself. */
  lemma LastThreeFound()
    ensures Found(SHIPPED, Keys(SHIPPED[15].slots), 15, 18) == None
    ensures Found(SHIPPED, Keys(SHIPPED[16].slots), 15, 18) == Some(16)
    ensures Found(SHIPPED, Keys(SHIPPED[17].slots), 15, 18) == None
  {
    ShippedCompared(15, 16);
    ShippedCompared(15, 17);
    ShippedCompared(16, 16);
    ShippedCompared(17, 16);
    ShippedCompared(17, 15);
    assert Rank(SHIPPED_KEYS[15]) > Rank(SHIPPED_KEYS[16]) > Rank(SHIPPED_KEYS[17]);
    hide Compared, Keys, SHIPPED_KEYS, SHIPPED_TEXTS;
    assert (15 + 18) / 2 == 16;
    ProbeRight(SHIPPED, Keys(SHIPPED[15].slots), 15, 18);
    ProbeRight(SHIPPED, Keys(SHIPPED[15].slots), 17, 18);
    ProbeLeft(SHIPPED, Keys(SHIPPED[17].slots), 15, 18);
    ProbeLeft(SHIPPED, Keys(SHIPPED[17].slots), 15, 16);
  }

  /** The table is not sorted, and midpoint probing misses exactly two of its
      entries when their keys are complete. */
  lemma ShippedFoundIff(i: nat)
    requires i < 18
    ensures Found(SHIPPED, Keys(SHIPPED[i].slots), 0, 18) == (if i == 15 || i == 17 then None else Some(i))
    ensures !Sorted(SHIPPED)
  {
    var typed := Keys(SHIPPED[i].slots);
    forall j | 0 <= j < 18
      ensures i < 15 && j < i ==> Compared(typed, Keys(SHIPPED[j].slots)) > 0
      ensures i < 15 && j > i ==> Compared(typed, Keys(SHIPPED[j].slots)) < 0
    {
      ShippedCompared(i, j);
      if i < 15 && i != j { RanksAscend(i, j); }
    }
    if i < 15 {
      ShippedCompared(i, i);
      FoundAmong(SHIPPED, typed, i, 0, 18);
    } else {
      LastThree(i);
      LastThreeFound();
    }
    ShippedUnsorted();
  }

  lemma ShippedUnsorted()
    ensures !Sorted(SHIPPED)
  {
    PairKeys(0x73, 0x73);
    PairKeys(0x61, 0x65);
    assert !Less(Keys(SHIPPED[15].slots), Keys(SHIPPED[16].slots));
  }

  lemma SingleCompared(k: uint32, a: uint32, b: uint32)
    ensures Compared([k], [a, b]) == if k != a then (k as int) - (a as int) else 0
  {
    assert [k][1..] == [] && [a, b][1..] == [b];
  }

  /** One key against an entry: only the first keys are compared. */
  lemma FirstKeyCompared(k: uint32, j: nat)
    requires j < 18
    ensures |SHIPPED_KEYS| == 18
    ensures Compared([k], Keys(SHIPPED[j].slots)) ==
            if k != SHIPPED_KEYS[j].0 then (k as int) - (SHIPPED_KEYS[j].0 as int) else 0
  {
    var p := SHIPPED_KEYS[j];
    PairKeys(p.0, p.1);
    SingleCompared(k, p.0, p.1);
  }

  lemma FirstKeysAscend(i: nat, j: nat)
    requires i <= j < 18 && i < 15
    ensures |SHIPPED_KEYS| == 18
    ensures SHIPPED_KEYS[i].0 <= SHIPPED_KEYS[j].0 && (j >= 15 ==> SHIPPED_KEYS[i].0 < SHIPPED_KEYS[j].0)
  {
  }

  /** Where the comparisons turn from positive to negative once, the search finds
      an entry iff one compares equal. */
  lemma {:induction false} FoundWhereMonotone(t: Table, typed: seq<uint32>, low: nat, high: nat, i: nat)
    requires low <= i < high <= |t| && Compared(typed, Keys(t[i].slots)) == 0
    requires forall j :: low <= j < i ==> Compared(typed, Keys(t[j].slots)) >= 0
    requires forall j :: i < j < high ==> Compared(typed, Keys(t[j].slots)) <= 0
    ensures Found(t, typed, low, high).Some?
    decreases high - low
  {
    hide Compared, Keys;
    var mid := (low + high) / 2;
    if mid < i && Compared(typed, Keys(t[mid].slots)) > 0 { FoundWhereMonotone(t, typed, mid + 1, high, i); }
    if i < mid && Compared(typed, Keys(t[mid].slots)) < 0 { FoundWhereMonotone(t, typed, low, mid, i); }
  }

  /** The first key alone: found for every entry but "s s". */
  lemma FirstKeyFoundIff(i: nat)
    requires i < 18
    ensures |SHIPPED_KEYS| == 18
    ensures Found(SHIPPED, [SHIPPED_KEYS[i].0], 0, 18).Some? <==> i != 15
  {
    var k := SHIPPED_KEYS[i].0;
    forall j | 0 <= j < 18
      ensures i < 15 && j < i ==> Compared([k], Keys(SHIPPED[j].slots)) >= 0
      ensures i < 15 && i < j ==> Compared([k], Keys(SHIPPED[j].slots)) <= 0
    {
      FirstKeyCompared(k, j);
      if j < i < 15 { FirstKeysAscend(j, i); }
      if i < 15 && i < j { FirstKeysAscend(i, j); }
    }
    FirstKeyCompared(k, i);
    if i < 15 {
      FoundWhereMonotone(SHIPPED, [k], 0, 18, i);
    } else {
      LastFirstKeys(i);
    }
  }

  lemma LastFirstKeyValues(i: nat)
    requires 15 <= i < 18
    ensures |SHIPPED_KEYS| == 18
    ensures var k := SHIPPED_KEYS[i].0;
            && k > SHIPPED_KEYS[9].0 && k > SHIPPED_KEYS[14].0
            && if i == 15 then k > SHIPPED_KEYS[16].0 == SHIPPED_KEYS[17].0 else k == SHIPPED_KEYS[16].0
  {
  }

  /** "s" is probed past at entries 9, 14, 16 and 17; "a" is found at entry 16. */
  lemma LastFirstKeys(i: nat)
    requires 15 <= i < 18
    ensures |SHIPPED_KEYS| == 18
    ensures Found(SHIPPED, [SHIPPED_KEYS[i].0], 0, 18) == if i == 15 then None else Some(16)
  {
    hide Compared, Keys, SHIPPED_KEYS, SHIPPED_TEXTS, SHIPPED;
    LastFirstKeyValues(i);
    ShippedWellShaped();
    var k := SHIPPED_KEYS[i].0;
    FirstKeyCompared(k, 9);
    FirstKeyCompared(k, 14);
    FirstKeyCompared(k, 16);
    FirstKeyCompared(k, 17);
    assert (0 + 18) / 2 == 9 && (10 + 18) / 2 == 14 && (15 + 18) / 2 == 16;
    ProbeRight(SHIPPED, [k], 0, 18);
    ProbeRight(SHIPPED, [k], 10, 18);
    if i == 15 {
      ProbeRight(SHIPPED, [k], 15, 18);
      ProbeRight(SHIPPED, [k], 17, 18);
    }
  }

  lemma ShippedKeysInRange(i: nat)
    requires i < |SHIPPED_KEYS|
    ensures 0 < SHIPPED_KEYS[i].0 < SYM_LIMIT && 0 < SHIPPED_KEYS[i].1 < SYM_LIMIT
  {
  }

  lemma ShippedWellShaped()
    ensures |SHIPPED| == 18 && WellShaped(SHIPPED)
    ensures forall i :: 0 <= i < 18 ==> Keys(SHIPPED[i].slots) == [SHIPPED_KEYS[i].0, SHIPPED_KEYS[i].1]
  {
    forall i | 0 <= i < 18
      ensures Terminated(SHIPPED[i].slots) && Keys(SHIPPED[i].slots) == [SHIPPED_KEYS[i].0, SHIPPED_KEYS[i].1]
    {
      ShippedKeysInRange(i);
      PairKeys(SHIPPED_KEYS[i].0, SHIPPED_KEYS[i].1);
    }
  }

  /** Main result for the table that ships: over every run of keys from start-up
      at most two are pending, so no store leaves the slots. */
  lemma {:induction false} ShippedRunsSound(events: seq<KeyEvent>)
    ensures WellShaped(SHIPPED) && Sound(SHIPPED, State(false, []))
    ensures SoundRun(SHIPPED, State(false, []), events)
  {
    ShippedWellShaped();
    EveryRunSound(SHIPPED, State(false, []), events);
  }

  /** A table of pairs: what typing the two keys of an entry does, lookup by
      lookup. */
  lemma {:induction false} TypedPair(t: Table, a: uint32, b: uint32)
    requires WellShaped(t) && a != 0 && b != 0
    requires forall i :: 0 <= i < |t| ==> |Keys(t[i].slots)| == 2
    ensures var first, whole := Found(t, [a], 0, |t|), Found(t, [a, b], 0, |t|);
            Typing(t, State(true, []), [a, b]) ==
            Result(State(false, []),
                   if first.None? then [CommitSymbols([a])]
                   else if whole.None? then [Preedit([a]), CommitSymbols([a, b])]
                   else [Preedit([a]), Commit(t[whole.value].text)])
  {
    hide Keys, Found, WellShaped, Composed;
    var s := State(true, []);
    assert Sound(t, s);
    assert [] + [a] == [a] && [a] + [b] == [a, b];
    FoundOutcome(t, s, a);
    var first := Found(t, [a], 0, |t|);
    assert [a, b][1..] == [b] && [b][1..] == [];
    if first.Some? {
      var next := State(true, [a]);
      assert Sound(t, next);
      FoundOutcome(t, next, b);
      var whole := Found(t, [a, b], 0, |t|);
      if whole.Some? { SameLengthPrefix([a, b], Keys(t[whole.value].slots)); }
      TypedLast(t, next, b);
    }
  }

  /** A last key that ends the sequence, one way or the other. */
  lemma {:induction false} TypedLast(t: Table, s: State, b: uint32)
    requires WellShaped(t) && |s.typed| <= 2 && 0 !in s.typed && b != 0 && s.composing
    requires Composed(t, s, b).state == State(false, [])
    ensures Typing(t, s, [b]) == Composed(t, s, b)
  {
    hide Composed;
    assert [b][1..] == [];
    var r := Composed(t, s, b);
    assert Typing(t, r.state, []) == Result(r.state, []);
    assert r.outputs + [] == r.outputs;
  }

  /** Main result for the table that ships: typing the keys of an entry ends by
      committing its text for every entry but two.  "s s" breaks off at its first
      key, "a a" at its second. */
  lemma ShippedTypedIff(i: nat)
    requires i < 18
    ensures WellShaped(SHIPPED) && |Keys(SHIPPED[i].slots)| == 2
    ensures var k, typing := Keys(SHIPPED[i].slots), Typing(SHIPPED, State(true, []), Keys(SHIPPED[i].slots));
            && typing.state == State(false, [])
            && (Commit(SHIPPED[i].text) in typing.outputs <==> i != 15 && i != 17)
            && typing.outputs == if i == 15 then [CommitSymbols(k[..1])]
                                 else if i == 17 then [Preedit(k[..1]), CommitSymbols(k)]
                                 else [Preedit(k[..1]), Commit(SHIPPED[i].text)]
  {
    hide SHIPPED, SHIPPED_KEYS, SHIPPED_TEXTS, Keys, Found, WellShaped, Typing;
    ShippedWellShaped();
    FirstKeyFoundIff(i);
    ShippedKeysInRange(i);
    ShippedFoundIff(i);
    assert Keys(SHIPPED[i].slots)[..1] == [SHIPPED_KEYS[i].0];
    TypedPair(SHIPPED, SHIPPED_KEYS[i].0, SHIPPED_KEYS[i].1);
  }

  /** The probe that leads to an entry compares towards it. */
  lemma FoundPast(t: Table, typed: seq<uint32>, low: nat, high: nat, i: nat)
    requires low <= high <= |t| && Found(t, typed, low, high) == Some(i)
    ensures low < high
    ensures var mid := (low + high) / 2;
            && (i < mid ==> Compared(typed, Keys(t[mid].slots)) < 0 && Found(t, typed, low, mid) == Some(i))
            && (i > mid ==> Compared(typed, Keys(t[mid].slots)) > 0 && Found(t, typed, mid + 1, high) == Some(i))
  {
    hide Compared, Keys;
  }

  /** Entries 15 and 17 are leaves below entry 16, on the wrong sides of it. */
  lemma {:induction false} ShippedNeverFound(typed: seq<uint32>)
    requires 0 !in typed
    ensures |SHIPPED| == 18 && Found(SHIPPED, typed, 0, 18) != Some(15) && Found(SHIPPED, typed, 0, 18) != Some(17)
  {
    ShippedWellShaped();
    LastKeys();
    hide SHIPPED, SHIPPED_KEYS, SHIPPED_TEXTS, Keys, Found;
    var found := Found(SHIPPED, typed, 0, 18);
    if found == Some(15) || found == Some(17) {
      var i := found.value;
      assert (0 + 18) / 2 == 9 && (10 + 18) / 2 == 14 && (15 + 18) / 2 == 16;
      FoundExtends(SHIPPED, typed, 0, 18);
      FoundPast(SHIPPED, typed, 0, 18, i);
      FoundPast(SHIPPED, typed, 10, 18, i);
      FoundPast(SHIPPED, typed, 15, 18, i);
      PrefixOfPair(typed, SHIPPED_KEYS[i].0, SHIPPED_KEYS[i].1, SHIPPED_KEYS[16].0, SHIPPED_KEYS[16].1);
      assert false;
    }
  }

  lemma LastKeys()
    ensures |SHIPPED_KEYS| == 18
    ensures SHIPPED_KEYS[15].0 > SHIPPED_KEYS[16].0 == SHIPPED_KEYS[17].0 && SHIPPED_KEYS[16].1 > SHIPPED_KEYS[17].1
  {
  }

  /** A prefix of the pair (a, b) against the pair (c, d). */
  lemma {:induction false} PrefixOfPair(typed: seq<uint32>, a: uint32, b: uint32, c: uint32, d: uint32)
    requires typed <= [a, b]
    ensures a > c ==> Compared(typed, [c, d]) >= 0
    ensures a == c && b < d ==> Compared(typed, [c, d]) <= 0
  {
    if |typed| == 1 { assert typed == [a]; SingleCompared(a, c, d); }
    if |typed| == 2 { assert typed == [a, b]; PairCompared(a, b, c, d); }
  }

  lemma ShippedTextsDistinct()
    ensures |SHIPPED| == 18
    ensures forall i :: 0 <= i < 18 && i != 15 ==> SHIPPED[i].text != SHIPPED[15].text
    ensures forall i :: 0 <= i < 18 && i != 17 ==> SHIPPED[i].text != SHIPPED[17].text
  {
    assert forall i :: 0 <= i < 18 ==> SHIPPED[i].text[0] == SHIPPED_TEXTS[i];
  }

  /** Main result for the table that ships: whatever is typed, in whatever state a
      run has reached, these two texts are never composed. */
  lemma ShippedNeverCommits(s: State, sym: uint32, pressed: bool, printable: bool)
    requires WellShaped(SHIPPED) && Sound(SHIPPED, s)
    ensures |s.typed| <= 2 && |SHIPPED| == 18
    ensures var outputs := Step(SHIPPED, s, sym, pressed, printable).outputs;
            Commit(SHIPPED[15].text) !in outputs && Commit(SHIPPED[17].text) !in outputs
  {
    hide SHIPPED, SHIPPED_KEYS, SHIPPED_TEXTS, Keys, Found, WellShaped, Sound, Step;
    IndexBounded(SHIPPED, s);
    SoundStart(SHIPPED, s);
    ShippedTextsDistinct();
    ShippedNeverFound(if sym == 0 then s.typed else s.typed + [sym]);
    CommitsOnlyFound(SHIPPED, s, sym, pressed, printable, SHIPPED[15].text);
    CommitsOnlyFound(SHIPPED, s, sym, pressed, printable, SHIPPED[17].text);
  }

  /** The only text an event commits is that of the entry the search finds. */
  lemma {:induction false} CommitsOnlyFound(t: Table, s: State, sym: uint32, pressed: bool, printable: bool,
      text: string)
    requires WellShaped(t) && |s.typed| <= 2 && 0 !in s.typed
    ensures var found := Found(t, if sym == 0 then s.typed else s.typed + [sym], 0, |t|);
            Commit(text) in Step(t, s, sym, pressed, printable).outputs ==>
              found.Some? && t[found.value].text == text
  {
    hide Keys, Found, WellShaped;
  }
}
