/** clients/keyboard.c against clients/editor.c: the virtual keyboard updates its
    own copy of the surrounding text as it commits, without waiting for the
    editor.  Letters and spaces only; the two processes talk over two FIFO
    channels (the compositor relays in order). */
module KeyboardMirror {
  import opened CInt
  import opened Options
  import opened Utf8
  import opened Editor
  import EditorTheorems

  const SPACE: byte := 0x20

  // ---------- The keyboard ----------

  /** Requests the keyboard sends, and the events the editor gets for them. */
  datatype Request =
    | PreeditStyling(style: nat)
    | PreeditCursor(index: nat)
    | Preedit(serial: uint32, text: Text)
    | CursorPos
    | Commit(serial: uint32, text: Text)

  /** What an editor update brings back: two messages. */
  datatype Echo = Surrounding(text: Text, cursor: int) | State(serial: uint32)

  datatype Keyboard = Keyboard(preedit: Text, style: nat, surrounding: Option<Text>, cursor: int, serial: uint32) {
    /** The surrounding text as the keyboard knows it; NULL stands for nothing. */
    function Mirror(): Text {
      if surrounding.Some? then surrounding.value else []
    }

    function MirrorCursor(): int {
      if surrounding.Some? then cursor else 0
    }

    predicate Sane() {
      0 !in preedit && 0 !in Mirror() && 0 <= MirrorCursor() <= |Mirror()|
    }
  }

  datatype Tap = Letter(glyph: Text) | SpaceBar

  function Typed(tap: Tap): Text {
    match tap
    case Letter(glyph) => glyph
    case SpaceBar => [SPACE]
  }

  /** virtual_keyboard_commit_preedit */
  function PreeditCommitted(k: Keyboard): Keyboard
    requires k.Sane()
  {
    if k.preedit == [] then k
    else
      k.(preedit := [],
         surrounding := Some(k.Mirror()[..k.MirrorCursor()] + k.preedit + k.Mirror()[k.MirrorCursor()..]),
         cursor := k.MirrorCursor() + |k.preedit|)
  }

  function AfterTap(k: Keyboard, tap: Tap): Keyboard
    requires k.Sane() && 0 !in Typed(tap)
  {
    var appended := k.(preedit := k.preedit + Typed(tap));
    match tap
    case Letter(_) => appended
    case SpaceBar => PreeditCommitted(appended)
  }

  function RequestsOf(k: Keyboard, tap: Tap): seq<Request> {
    var preedit := k.preedit + Typed(tap);
    match tap
    case Letter(_) =>
      (if k.style != 0 then [PreeditStyling(k.style)] else [])
      + [PreeditCursor(|preedit|), Preedit(k.serial, preedit)]
    case SpaceBar => [CursorPos, Commit(k.serial, preedit)]
  }

  function AfterEcho(k: Keyboard, echo: Echo): Keyboard {
    match echo
    case Surrounding(text, cursor) => k.(surrounding := Some(text), cursor := cursor)
    case State(serial) => k.(serial := serial)
  }

  class VirtualKeyboard {
    var preedit: Text
    var style: nat
    var surrounding: Option<Text>
    var surroundingCursor: int
    var serial: uint32
    ghost var requests: seq<Request>

    ghost function View(): Keyboard
      reads this
    {
      Keyboard(preedit, style, surrounding, surroundingCursor, serial)
    }

    /** input_method_activate */
    constructor (initialStyle: nat)
      ensures View() == Keyboard([], initialStyle, None, 0, 0) && requests == []
    {
      preedit, style, surrounding, surroundingCursor, serial := [], initialStyle, None, 0, 0;
      requests := [];
    }

    method SendPreedit()
      modifies this`requests
      ensures requests == old(requests) + (if style != 0 then [PreeditStyling(style)] else [])
                          + [PreeditCursor(|preedit|), Preedit(serial, preedit)]
    {
      if style != 0 {
        requests := requests + [PreeditStyling(style)];
      }
      requests := requests + [PreeditCursor(|preedit|)];
      requests := requests + [Preedit(serial, preedit)];
    }

    static method InsertText(text: Text, offset: nat, insert: Text) returns (r: Text)
      requires offset <= |text|
      ensures r == text[..offset] + insert + text[offset..]
    {
      var memory := new byte[|text| + |insert|](_ => 0);
      forall i | 0 <= i < offset { memory[i] := text[i]; }
      forall i | 0 <= i < |insert| { memory[offset + i] := insert[i]; }
      forall i | offset <= i < |text| { memory[i + |insert|] := text[i]; }
      r := memory[..];
    }

    method CommitPreedit()
      requires View().Sane()
      modifies this
      ensures View() == PreeditCommitted(old(View()))
      ensures requests == old(requests) +
                (if old(preedit) == [] then [] else [CursorPos, Commit(serial, old(preedit))])
    {
      if |preedit| == 0 {
        return;
      }
      requests := requests + [CursorPos];
      requests := requests + [Commit(serial, preedit)];
      if surrounding.Some? {
        var inserted := InsertText(surrounding.value, surroundingCursor, preedit);
        surrounding := Some(inserted);
        surroundingCursor := surroundingCursor + |preedit|;
      } else {
        surrounding := Some(preedit);
        surroundingCursor := |preedit|;
        assert [] + preedit + [] == preedit;
      }
      preedit := [];
    }

    /** keyboard_handle_key for a pressed default or space key. */
    method HandleTap(tap: Tap)
      requires View().Sane() && 0 !in Typed(tap)
      modifies this
      ensures View() == AfterTap(old(View()), tap)
      ensures requests == old(requests) + RequestsOf(old(View()), tap)
    {
      match tap
      case Letter(glyph) =>
        preedit := preedit + glyph;
        SendPreedit();
      case SpaceBar =>
        preedit := preedit + [SPACE];
        CommitPreedit();
    }

    /** handle_surrounding_text and handle_commit_state */
    method HandleEcho(echo: Echo)
      modifies this`surrounding, this`surroundingCursor, this`serial
      ensures View() == AfterEcho(old(View()), echo)
    {
      match echo
      case Surrounding(text, cursor) =>
        surrounding := Some(text);
        surroundingCursor := cursor;
      case State(s) => serial := s;
    }
  }

  // ---------- The two processes and their channels ----------

  datatype System = System(keyboard: Keyboard, entry: Entry, toEditor: seq<Request>, toKeyboard: seq<Echo>)

  /** The editor's reaction; styling and cursor of the pre-edit are not part of
      the entry's text, cursor or serials. */
  function Received(e: Entry, r: Request): Entry
    requires e.Sane() && e.pending == NO_PENDING && 0 !in RequestText(r)
  {
    match r
    case Preedit(serial, text) => PreeditStep(e, serial, text, text)
    case Commit(serial, text) => CommitStep(e, serial, text)
    case CursorPos => e.(pending := e.pending.(cursor := 0, anchor := 0))
    case _ => e
  }

  function RequestText(r: Request): Text {
    match r
    case Preedit(_, text) => text
    case Commit(_, text) => text
    case _ => []
  }

  function EchoesOf(updates: seq<Update>): seq<Echo> {
    if updates == [] then []
    else EchoesOf(updates[..|updates| - 1])
         + [Surrounding(updates[|updates| - 1].text, updates[|updates| - 1].cursor),
            State(updates[|updates| - 1].serial)]
  }

  datatype Action = Press(tap: Tap) | DeliverToEditor | DeliverToKeyboard

  /** An entry an input method is typing into: nothing selected, no delete
      pending, and fewer than 2^32 updates since the last reset. */
  ghost predicate Ready(e: Entry) {
    && e.Sane() && e.cursor == e.anchor && e.pending == NO_PENDING
    && EditorTheorems.SerialsTrack(e) && |e.sent| - e.resetAt < TWO_32
  }

  /** The serial was issued at or after the last reset. */
  ghost predicate Current(e: Entry, serial: uint32) {
    exists k :: e.resetAt <= k <= |e.sent| && serial == ToUint32(k)
  }

  ghost predicate RequestFine(e: Entry, r: Request) {
    && 0 !in RequestText(r)
    && (r.Preedit? ==> Current(e, r.serial)) && (r.Commit? ==> Current(e, r.serial))
  }

  ghost predicate EchoFine(e: Entry, echo: Echo) {
    match echo
    case Surrounding(text, cursor) => 0 !in text && 0 <= cursor <= |text|
    case State(serial) => Current(e, serial)
  }

  predicate Answered(r: Request) {
    r.Preedit? || r.Commit?
  }

  /** Text and cursor of the last surrounding-text message in flight. */
  function LastSurrounding(q: seq<Echo>): Option<Echo> {
    if q == [] then None
    else if q[|q| - 1].Surrounding? then Some(q[|q| - 1])
    else LastSurrounding(q[..|q| - 1])
  }

  predicate Agree(k: Keyboard, e: Entry) {
    k.Mirror() == e.text && k.MirrorCursor() == e.cursor
  }

  /** What holds of the two processes between any two actions. */
  ghost predicate Consistent(s: System) {
    && s.keyboard.Sane() && Ready(s.entry) && Current(s.entry, s.keyboard.serial)
    && (forall i :: 0 <= i < |s.toEditor| ==> RequestFine(s.entry, s.toEditor[i]))
    && (forall i :: 0 <= i < |s.toKeyboard| ==> EchoFine(s.entry, s.toKeyboard[i]))
    && (s.toEditor != [] ==> Answered(s.toEditor[|s.toEditor| - 1]))
    && (var last := LastSurrounding(s.toKeyboard);
        if last.Some? then last.value == Surrounding(s.entry.text, s.entry.cursor)
        else s.toEditor == [] ==> Agree(s.keyboard, s.entry))
  }

  /** Activation leaves the keyboard without text and serial; the two messages
      of the editor's first update bring the processes together. */
  lemma FirstUpdateSynchronizes(k: Keyboard, e: Entry)
    requires Ready(e) && 0 !in k.preedit
    ensures var heard := AfterEcho(AfterEcho(k, Surrounding(e.text, e.cursor)), State(e.serial));
            Consistent(System(heard, e, [], [])) && Agree(heard, e)
  {
    assert e.serial == ToUint32(|e.sent|);
  }

  ghost predicate Enabled(s: System, a: Action)
    requires Consistent(s)
  {
    match a
    case Press(tap) => 0 !in Typed(tap)
    case DeliverToEditor => s.toEditor != [] && |s.entry.sent| + 1 - s.entry.resetAt < TWO_32
    case DeliverToKeyboard => s.toKeyboard != []
  }

  ghost function Act(s: System, a: Action): System
    requires Consistent(s) && Enabled(s, a)
  {
    match a
    case Press(tap) =>
      s.(keyboard := AfterTap(s.keyboard, tap), toEditor := s.toEditor + RequestsOf(s.keyboard, tap))
    case DeliverToEditor =>
      var e := Received(s.entry, s.toEditor[0]);
      s.(entry := e, toEditor := s.toEditor[1..],
         toKeyboard := s.toKeyboard + EchoesOf(NewUpdates(s.entry, e)))
    case DeliverToKeyboard =>
      s.(keyboard := AfterEcho(s.keyboard, s.toKeyboard[0]), toKeyboard := s.toKeyboard[1..])
  }

  function NewUpdates(before: Entry, after: Entry): seq<Update> {
    if |before.sent| <= |after.sent| then after.sent[|before.sent|..] else []
  }

  // ---------- One message at the editor ----------

  lemma CurrentAccepted(e: Entry, serial: uint32)
    requires Ready(e) && Current(e, serial)
    ensures Accepts(e, serial)
  {
    var k :| e.resetAt <= k <= |e.sent| && serial == ToUint32(k);
    hide ToUint32;
    EditorTheorems.DifferenceWraps(|e.sent|, k);
    EditorTheorems.DifferenceWraps(|e.sent|, e.resetAt);
    EditorTheorems.InWindow(|e.sent| - k);
    EditorTheorems.InWindow(|e.sent| - e.resetAt);
  }

  lemma CurrentKept(e: Entry, f: Entry, serial: uint32)
    requires Current(e, serial) && f.resetAt == e.resetAt && |f.sent| >= |e.sent|
    ensures Current(f, serial)
  {
  }

  /** A commit is accepted, inserted at the cursor, and answered by exactly one
      update that reports the new text and cursor. */
  lemma CommitReceived(e: Entry, serial: uint32, text: Text)
    requires Ready(e) && Current(e, serial) && 0 !in text && |e.sent| + 1 - e.resetAt < TWO_32
    ensures var f := Received(e, Commit(serial, text));
            && Ready(f) && f.resetAt == e.resetAt
            && f.text == e.text[..e.cursor] + text + e.text[e.cursor..] && f.cursor == e.cursor + |text|
            && f.preedit == None == f.commit
            && f.sent == e.sent + [Update(f.text, f.cursor, f.anchor, f.serial)]
  {
    CurrentAccepted(e, serial);
    EditorTheorems.CommitTracks(e, serial, text);
  }

  /** A pre-edit is accepted and answered too, and leaves text and cursor. */
  lemma PreeditReceived(e: Entry, serial: uint32, text: Text)
    requires Ready(e) && Current(e, serial) && 0 !in text && |e.sent| + 1 - e.resetAt < TWO_32
    ensures var f := Received(e, Preedit(serial, text));
            && Ready(f) && f.resetAt == e.resetAt
            && f.text == e.text && f.cursor == e.cursor
            && f.preedit == Some(text) == f.commit
            && f.sent == e.sent + [Update(f.text, f.cursor, f.anchor, f.serial)]
  {
    CurrentAccepted(e, serial);
    EditorTheorems.PreeditTracks(e, serial, text, text);
  }

  lemma OthersReceived(e: Entry, r: Request)
    requires Ready(e) && !Answered(r)
    ensures 0 !in RequestText(r) && Received(e, r) == e
  {
  }

  lemma OneEcho(u: Update)
    ensures EchoesOf([u]) == [Surrounding(u.text, u.cursor), State(u.serial)]
  {
    assert [u][..0] == [];
  }

  lemma {:induction false} LastSurroundingAppend(q: seq<Echo>, text: Text, cursor: int, serial: uint32)
    ensures LastSurrounding(q + [Surrounding(text, cursor), State(serial)]) == Some(Surrounding(text, cursor))
  {
    var q1 := q + [Surrounding(text, cursor)];
    var q2 := q + [Surrounding(text, cursor), State(serial)];
    assert q2[..|q2| - 1] == q1;
  }

  /** Taking a message from the front changes the last one only if it was it. */
  lemma {:induction false} LastSurroundingTail(q: seq<Echo>)
    requires q != []
    ensures LastSurrounding(q[1..]).Some? ==> LastSurrounding(q) == LastSurrounding(q[1..])
    ensures LastSurrounding(q[1..]).None? ==>
              LastSurrounding(q) == if q[0].Surrounding? then Some(q[0]) else None
  {
    if |q| > 1 && !q[|q| - 1].Surrounding? {
      LastSurroundingTail(q[..|q| - 1]);
      assert q[1..][..|q| - 2] == q[..|q| - 1][1..];
    }
  }

  // ---------- Every action keeps the processes consistent ----------

  lemma PressConsistent(s: System, tap: Tap)
    requires Consistent(s) && 0 !in Typed(tap)
    ensures Consistent(Act(s, Press(tap)))
  {
    var t := Act(s, Press(tap));
    var added := RequestsOf(s.keyboard, tap);
    assert forall i :: 0 <= i < |added| ==> RequestFine(s.entry, added[i]);
    forall i | 0 <= i < |t.toEditor|
      ensures RequestFine(t.entry, t.toEditor[i])
    {
      if i >= |s.toEditor| { assert t.toEditor[i] == added[i - |s.toEditor|]; }
    }
    assert t.toEditor[|t.toEditor| - 1] == added[|added| - 1];
  }

  /** The entry after a delivered request, and the echoes it causes. */
  lemma DeliveredFacts(s: System)
    requires Consistent(s) && Enabled(s, DeliverToEditor)
    ensures var f, r := Received(s.entry, s.toEditor[0]), s.toEditor[0];
            && Ready(f) && f.resetAt == s.entry.resetAt && |f.sent| >= |s.entry.sent|
            && if Answered(r)
               then EchoesOf(NewUpdates(s.entry, f)) == [Surrounding(f.text, f.cursor), State(f.serial)]
               else f == s.entry && EchoesOf(NewUpdates(s.entry, f)) == []
  {
    var e, r := s.entry, s.toEditor[0];
    assert RequestFine(e, r);
    var f := Received(e, r);
    match r
    case Commit(serial, text) => CommitReceived(e, serial, text); AnswerEchoed(e, f);
    case Preedit(serial, text) => PreeditReceived(e, serial, text); AnswerEchoed(e, f);
    case _ => OthersReceived(e, r);
  }

  lemma AnswerEchoed(e: Entry, f: Entry)
    requires f.sent == e.sent + [Update(f.text, f.cursor, f.anchor, f.serial)]
    ensures EchoesOf(NewUpdates(e, f)) == [Surrounding(f.text, f.cursor), State(f.serial)]
  {
    var u := Update(f.text, f.cursor, f.anchor, f.serial);
    assert NewUpdates(e, f) == [u];
    OneEcho(u);
  }

  lemma ChannelsFine(s: System, f: Entry, echoes: seq<Echo>)
    requires Consistent(s) && s.toEditor != []
    requires Ready(f) && f.resetAt == s.entry.resetAt && |f.sent| >= |s.entry.sent|
    requires echoes == [] || echoes == [Surrounding(f.text, f.cursor), State(f.serial)]
    ensures Current(f, s.keyboard.serial)
    ensures forall i :: 0 <= i < |s.toEditor[1..]| ==> RequestFine(f, s.toEditor[1..][i])
    ensures forall i :: 0 <= i < |s.toKeyboard + echoes| ==> EchoFine(f, (s.toKeyboard + echoes)[i])
  {
    hide Ready, RequestFine, EchoFine, Current;
    CurrentKept(s.entry, f, s.keyboard.serial);
    forall i | 0 <= i < |s.toEditor[1..]|
      ensures RequestFine(f, s.toEditor[1..][i])
    {
      FineKept(s.entry, f, s.toEditor[i + 1]);
    }
    forall i | 0 <= i < |s.toKeyboard + echoes|
      ensures EchoFine(f, (s.toKeyboard + echoes)[i])
    {
      if i < |s.toKeyboard| { EchoFineKept(s.entry, f, s.toKeyboard[i]); } else { NewestFine(f); }
    }
  }

  lemma DeliverToEditorConsistent(s: System)
    requires Consistent(s) && Enabled(s, DeliverToEditor)
    ensures Consistent(Act(s, DeliverToEditor))
  {
    DeliveredFacts(s);
    var e, r := s.entry, s.toEditor[0];
    assert RequestFine(e, r);
    var f := Received(e, r);
    var echoes := EchoesOf(NewUpdates(e, f));
    hide Received, EchoesOf, NewUpdates, Ready, RequestFine, EchoFine, Current;
    ChannelsFine(s, f, echoes);
    if Answered(r) {
      LastSurroundingAppend(s.toKeyboard, f.text, f.cursor, f.serial);
    } else {
      assert s.toKeyboard + echoes == s.toKeyboard;
    }
  }

  lemma NewestFine(f: Entry)
    requires Ready(f)
    ensures EchoFine(f, Surrounding(f.text, f.cursor)) && EchoFine(f, State(f.serial))
  {
    assert f.serial == ToUint32(|f.sent|);
  }

  lemma FineKept(e: Entry, f: Entry, r: Request)
    requires RequestFine(e, r) && f.resetAt == e.resetAt && |f.sent| >= |e.sent|
    ensures RequestFine(f, r)
  {
    if Answered(r) { CurrentKept(e, f, r.serial); }
  }

  lemma EchoFineKept(e: Entry, f: Entry, echo: Echo)
    requires EchoFine(e, echo) && f.resetAt == e.resetAt && |f.sent| >= |e.sent|
    ensures EchoFine(f, echo)
  {
    if echo.State? { CurrentKept(e, f, echo.serial); }
  }

  lemma DeliverToKeyboardConsistent(s: System)
    requires Consistent(s) && Enabled(s, DeliverToKeyboard)
    ensures Consistent(Act(s, DeliverToKeyboard))
  {
    assert EchoFine(s.entry, s.toKeyboard[0]);
    LastSurroundingTail(s.toKeyboard);
  }

  /** Any interleaving of key presses and deliveries. */
  lemma ActConsistent(s: System, a: Action)
    requires Consistent(s) && Enabled(s, a)
    ensures Consistent(Act(s, a))
  {
    match a
    case Press(tap) => PressConsistent(s, tap);
    case DeliverToEditor => DeliverToEditorConsistent(s);
    case DeliverToKeyboard => DeliverToKeyboardConsistent(s);
  }

  ghost predicate EnabledRun(s: System, actions: seq<Action>)
    requires Consistent(s)
    decreases |actions|
  {
    actions == [] || (
      && Enabled(s, actions[0])
      && (ActConsistent(s, actions[0]); EnabledRun(Act(s, actions[0]), actions[1..])))
  }

  ghost function Run(s: System, actions: seq<Action>): System
    requires Consistent(s) && EnabledRun(s, actions)
    decreases |actions|
  {
    if actions == [] then s
    else
      ActConsistent(s, actions[0]);
      Run(Act(s, actions[0]), actions[1..])
  }

  /** Main result: whenever both channels are empty, the keyboard's copy is the
      editor's text and cursor, whatever the interleaving was. */
  lemma {:induction false} AgreeWhenQuiet(s: System, actions: seq<Action>)
    requires Consistent(s) && EnabledRun(s, actions)
    ensures Consistent(Run(s, actions))
    ensures var t := Run(s, actions); t.toEditor == [] && t.toKeyboard == [] ==> Agree(t.keyboard, t.entry)
    decreases |actions|
  {
    if actions != [] {
      ActConsistent(s, actions[0]);
      AgreeWhenQuiet(Act(s, actions[0]), actions[1..]);
    }
  }

  // ---------- Without echoes: the optimistic update is exact ----------

  /** The entry after the editor has processed a queue of requests. */
  ghost predicate Settles(e: Entry, q: seq<Request>, f: Entry)
    decreases |q|
  {
    if q == [] then f == e
    else e.Sane() && e.pending == NO_PENDING && 0 !in RequestText(q[0]) && Settles(Received(e, q[0]), q[1..], f)
  }

  /** The keyboard after a run of taps with no echo in between, and what it sent. */
  function AfterTaps(k: Keyboard, taps: seq<Tap>): (r: Keyboard)
    requires k.Sane() && forall i :: 0 <= i < |taps| ==> 0 !in Typed(taps[i])
    ensures r.Sane() && r.serial == k.serial
    decreases |taps|
  {
    if taps == [] then k else AfterTaps(AfterTap(k, taps[0]), taps[1..])
  }

  function SentFor(k: Keyboard, taps: seq<Tap>): seq<Request>
    requires k.Sane() && forall i :: 0 <= i < |taps| ==> 0 !in Typed(taps[i])
    decreases |taps|
  {
    if taps == [] then [] else RequestsOf(k, taps[0]) + SentFor(AfterTap(k, taps[0]), taps[1..])
  }

  function AllTyped(taps: seq<Tap>): Text
    decreases |taps|
  {
    if taps == [] then [] else Typed(taps[0]) + AllTyped(taps[1..])
  }

  lemma {:induction false} SettlesJoin(e: Entry, p: seq<Request>, f: Entry, q: seq<Request>, g: Entry)
    requires Settles(e, p, f) && Settles(f, q, g)
    ensures Settles(e, p + q, g)
    decreases |p|
  {
    if p == [] {
      assert p + q == q;
    } else {
      SettlesJoin(Received(e, p[0]), p[1..], f, q, g);
      assert (p + q)[1..] == p[1..] + q;
    }
  }

  lemma {:induction false} SettlesOne(e: Entry, r: Request)
    requires e.Sane() && e.pending == NO_PENDING && 0 !in RequestText(r)
    ensures Settles(e, [r], Received(e, r))
  {
    assert [r][1..] == [];
  }

  /** One tap: the editor, once it has seen the requests, agrees again; it shows the
      word typed so far as its pre-edit, and none after a space. */
  lemma TapSettles(k: Keyboard, e: Entry, tap: Tap) returns (f: Entry)
    requires k.Sane() && Ready(e) && Current(e, k.serial) && Agree(k, e) && 0 !in Typed(tap)
    requires |e.sent| + 1 - e.resetAt < TWO_32
    ensures Settles(e, RequestsOf(k, tap), f) && Ready(f) && Agree(AfterTap(k, tap), f)
    ensures f.resetAt == e.resetAt && |f.sent| == |e.sent| + 1 && Current(f, k.serial)
    ensures f.preedit == f.commit == if tap.Letter? then Some(k.preedit + Typed(tap)) else None
  {
    var preedit := k.preedit + Typed(tap);
    match tap
    case Letter(_) =>
      f := Received(e, Preedit(k.serial, preedit));
      PreeditReceived(e, k.serial, preedit);
      SettlesOne(e, PreeditCursor(|preedit|));
      SettlesOne(e, Preedit(k.serial, preedit));
      SettlesJoin(e, [PreeditCursor(|preedit|)], e, [Preedit(k.serial, preedit)], f);
      assert [PreeditCursor(|preedit|)] + [Preedit(k.serial, preedit)]
          == [PreeditCursor(|preedit|), Preedit(k.serial, preedit)];
      if k.style != 0 {
        SettlesOne(e, PreeditStyling(k.style));
        SettlesJoin(e, [PreeditStyling(k.style)], e, [PreeditCursor(|preedit|), Preedit(k.serial, preedit)], f);
      } else {
        assert RequestsOf(k, tap) == [PreeditCursor(|preedit|), Preedit(k.serial, preedit)];
      }
      CurrentKept(e, f, k.serial);
    case SpaceBar =>
      f := Received(e, Commit(k.serial, preedit));
      CommitReceived(e, k.serial, preedit);
      SettlesOne(e, CursorPos);
      SettlesOne(e, Commit(k.serial, preedit));
      SettlesJoin(e, [CursorPos], e, [Commit(k.serial, preedit)], f);
      assert [CursorPos] + [Commit(k.serial, preedit)] == [CursorPos, Commit(k.serial, preedit)];
      CurrentKept(e, f, k.serial);
  }

  /** Any run of taps: the keyboard's own update and the editor's commit path end
      in the same text and cursor. */
  lemma {:induction false} TapsSettle(k: Keyboard, e: Entry, taps: seq<Tap>) returns (f: Entry)
    requires k.Sane() && Ready(e) && Current(e, k.serial) && Agree(k, e)
    requires forall i :: 0 <= i < |taps| ==> 0 !in Typed(taps[i])
    requires |e.sent| + |taps| - e.resetAt < TWO_32
    ensures Settles(e, SentFor(k, taps), f) && Agree(AfterTaps(k, taps), f)
    decreases |taps|
  {
    if taps == [] {
      f := e;
    } else {
      var g := TapSettles(k, e, taps[0]);
      f := TapsSettle(AfterTap(k, taps[0]), g, taps[1..]);
      SettlesJoin(e, RequestsOf(k, taps[0]), g, SentFor(AfterTap(k, taps[0]), taps[1..]), f);
    }
  }

  lemma TapKeepsText(k: Keyboard, tap: Tap, rest: Text)
    requires k.Sane() && 0 !in Typed(tap)
    ensures var n := AfterTap(k, tap);
            n.Mirror()[..n.MirrorCursor()] + (n.preedit + rest) + n.Mirror()[n.MirrorCursor()..]
            == k.Mirror()[..k.MirrorCursor()] + (k.preedit + (Typed(tap) + rest)) + k.Mirror()[k.MirrorCursor()..]
  {
    assert k.preedit + (Typed(tap) + rest) == k.preedit + Typed(tap) + rest;
    if tap.SpaceBar? {
      SpliceTwice(k.Mirror(), k.MirrorCursor(), k.preedit + Typed(tap), rest);
    }
  }

  /** Nothing typed is lost or reordered: the copy with the pre-edit spliced in
      is the old copy with everything typed spliced in. */
  lemma {:induction false} NothingLost(k: Keyboard, taps: seq<Tap>)
    requires k.Sane() && forall i :: 0 <= i < |taps| ==> 0 !in Typed(taps[i])
    ensures var r := AfterTaps(k, taps);
            r.Mirror()[..r.MirrorCursor()] + r.preedit + r.Mirror()[r.MirrorCursor()..]
            == k.Mirror()[..k.MirrorCursor()] + (k.preedit + AllTyped(taps)) + k.Mirror()[k.MirrorCursor()..]
    decreases |taps|
  {
    if taps == [] {
      assert k.preedit + [] == k.preedit;
    } else {
      NothingLost(AfterTap(k, taps[0]), taps[1..]);
      TapKeepsText(k, taps[0], AllTyped(taps[1..]));
    }
  }

  // ---------- Words ----------

  /** Letters only gather in the pre-edit. */
  lemma {:induction false} LettersGather(k: Keyboard, letters: seq<Tap>)
    requires k.Sane() && forall i :: 0 <= i < |letters| ==> letters[i].Letter? && 0 !in Typed(letters[i])
    ensures AfterTaps(k, letters) == k.(preedit := k.preedit + AllTyped(letters))
    decreases |letters|
  {
    if letters == [] {
      assert k.preedit + [] == k.preedit;
    } else {
      var n := AfterTap(k, letters[0]);
      LettersGather(n, letters[1..]);
      assert k.preedit + Typed(letters[0]) + AllTyped(letters[1..]) == k.preedit + AllTyped(letters);
    }
  }

  lemma {:induction false} AfterTapsJoin(k: Keyboard, a: seq<Tap>, b: seq<Tap>)
    requires k.Sane() && (forall i :: 0 <= i < |a| ==> 0 !in Typed(a[i]))
    requires forall i :: 0 <= i < |b| ==> 0 !in Typed(b[i])
    ensures AfterTaps(k, a + b) == AfterTaps(AfterTaps(k, a), b)
    decreases |a|
  {
    if a == [] {
      assert a + b == b;
    } else {
      assert (a + b)[1..] == a[1..] + b;
      AfterTapsJoin(AfterTap(k, a[0]), a[1..], b);
    }
  }

  /** A space leaves no pre-edit: all of it is in the copy, with the space. */
  lemma SpaceFlushes(k: Keyboard)
    requires k.Sane()
    ensures var r, c := AfterTap(k, SpaceBar), k.MirrorCursor();
            && r.preedit == [] && r.Mirror() == k.Mirror()[..c] + (k.preedit + [SPACE]) + k.Mirror()[c..]
            && r.MirrorCursor() == c + |k.preedit| + 1
  {
  }

  /** What a keyboard ends with after some taps, a space and letters: everything up
      to the space is in the copy, the letters since are the pre-edit. */
  lemma {:induction false} WordsCommitted(k: Keyboard, first: seq<Tap>, letters: seq<Tap>)
    requires k.Sane() && forall i :: 0 <= i < |first| ==> 0 !in Typed(first[i])
    requires forall i :: 0 <= i < |letters| ==> letters[i].Letter? && 0 !in Typed(letters[i])
    ensures var r, c, words := AfterTaps(k, first + [SpaceBar] + letters), k.MirrorCursor(),
                               k.preedit + AllTyped(first) + [SPACE];
            && r.preedit == AllTyped(letters)
            && r.Mirror() == k.Mirror()[..c] + words + k.Mirror()[c..]
            && r.MirrorCursor() == c + |words|
  {
    hide AfterTap;
    var n, c := AfterTaps(k, first), k.MirrorCursor();
    var s := AfterTap(n, SpaceBar);
    assert AfterTaps(n, [SpaceBar]) == s by { assert [SpaceBar][1..] == []; }
    AfterTapsJoin(k, first, [SpaceBar]);
    AfterTapsJoin(k, first + [SpaceBar], letters);
    SpaceFlushes(n);
    LettersGather(s, letters);
    NothingLost(k, first);
    LengthTyped(k, first);
    assert [] + AllTyped(letters) == AllTyped(letters);
    var words := k.preedit + AllTyped(first) + [SPACE];
    var d := n.MirrorCursor();
    SplicedSpace(n.Mirror()[..d], n.preedit, n.Mirror()[d..], k.Mirror()[..c], k.preedit + AllTyped(first),
                 k.Mirror()[c..]);
    assert k.preedit + AllTyped(first) + [SPACE] == words;
  }

  lemma SplicedSpace(a: Text, p: Text, b: Text, a': Text, q: Text, b': Text)
    requires a + p + b == a' + q + b' && |a| + |p| == |a'| + |q|
    ensures a + (p + [SPACE]) + b == a' + (q + [SPACE]) + b'
  {
    assert a + p == (a + p + b)[..|a| + |p|] && b == (a + p + b)[|a| + |p|..];
    assert a' + q == (a' + q + b')[..|a| + |p|] && b' == (a' + q + b')[|a| + |p|..];
    assert a + (p + [SPACE]) == (a + p) + [SPACE] && a' + (q + [SPACE]) == (a' + q) + [SPACE];
  }

  lemma {:induction false} LengthTyped(k: Keyboard, taps: seq<Tap>)
    requires k.Sane() && forall i :: 0 <= i < |taps| ==> 0 !in Typed(taps[i])
    ensures var r := AfterTaps(k, taps);
            r.MirrorCursor() + |r.preedit| == k.MirrorCursor() + |k.preedit| + |AllTyped(taps)|
    decreases |taps|
  {
    if taps != [] { LengthTyped(AfterTap(k, taps[0]), taps[1..]); }
  }

  /** Main result: of everything tapped, the editor ends with exactly what came up to
      the last space, in order, at the place where its cursor was. */
  lemma WordsReachEditor(k: Keyboard, e: Entry, first: seq<Tap>, letters: seq<Tap>) returns (f: Entry)
    requires k.Sane() && Ready(e) && Current(e, k.serial) && Agree(k, e)
    requires forall i :: 0 <= i < |first| ==> 0 !in Typed(first[i])
    requires forall i :: 0 <= i < |letters| ==> letters[i].Letter? && 0 !in Typed(letters[i])
    requires |e.sent| + |first| + 1 + |letters| - e.resetAt < TWO_32
    ensures Settles(e, SentFor(k, first + [SpaceBar] + letters), f)
    ensures var words := k.preedit + AllTyped(first) + [SPACE];
            f.text == e.text[..e.cursor] + words + e.text[e.cursor..] && f.cursor == e.cursor + |words|
  {
    hide AfterTaps, Settles, Ready, Current, SentFor, AllTyped, Typed;
    assert 0 !in Typed(SpaceBar) by { SpaceFine(); }
    f := TapsSettle(k, e, first + [SpaceBar] + letters);
    WordsCommitted(k, first, letters);
  }

  lemma SpaceFine()
    ensures 0 !in Typed(SpaceBar)
  {
  }

  lemma SpliceTwice(m: Text, c: nat, p: Text, q: Text)
    requires c <= |m|
    ensures var n := m[..c] + p + m[c..];
            n[..c + |p|] + ([] + q) + n[c + |p|..] == m[..c] + (p + q) + m[c..]
  {
    var n := m[..c] + p + m[c..];
    assert n[..c + |p|] == m[..c] + p && n[c + |p|..] == m[c..];
  }
}
