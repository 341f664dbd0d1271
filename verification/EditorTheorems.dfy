/** What holds of the text entry of clients/editor.c over whole runs, and what
    its events undo. */
module EditorTheorems {
  import opened CInt
  import opened Options
  import opened Utf8
  import opened Editor

  // ---------- Well-formed text, cursors on character boundaries ----------

  ghost predicate OnBoundaries(e: Entry) {
    && WellFormed(e.text) && Boundary(e.text, e.cursor) && Boundary(e.text, e.anchor)
    && (e.commit.Some? ==> WellFormed(e.commit.value))
  }

  ghost predicate Good(e: Entry) {
    e.Sane() && OnBoundaries(e)
  }

  predicate NoOffsets(e: Entry) {
    e.pending.cursor == 0 == e.pending.anchor
  }

  /** The pending delete names whole characters of the text as it now is. */
  ghost predicate DeleteFits(e: Entry) {
    var start, end := e.pending.deleteIndex, e.pending.deleteIndex + e.pending.deleteLength;
    end <= |e.text| && end < TWO_32 && Boundary(e.text, start) && Boundary(e.text, end)
  }

  /** What the runs are asked to respect: event texts are well-formed UTF-8, a
      pending delete fits the text at the moment a commit or pre-edit runs it,
      whatever happened in between, and no commit runs with cursor offsets. */
  ghost predicate Admissible(e: Entry, ev: Event) {
    NulFree(ev) && (RunsDelete(e, ev) ==> DeleteFits(e)) &&
    match ev
    case KeyPressed(key, _) => key.Char? ==> WellFormed(key.utf8)
    case Paste(t) => WellFormed(t)
    case CommitString(serial, t) => WellFormed(t) && (Accepts(e, serial) && !e.pending.invalidDelete ==> NoOffsets(e))
    case PreeditString(_, t, c) => WellFormed(c)
    case _ => true
  }

  lemma {:induction false} InsertedGood(e: Entry, t: Text)
    requires e.Sane() && OnBoundaries(e) && 0 !in t && WellFormed(t)
    ensures OnBoundaries(Inserted(e, t, 0, 0))
  {
    hide WellFormed, Boundary;
    SpliceWellFormed(e.text, e.cursor, t);
  }

  lemma {:induction false} DeletedBoundaries(text: Text, index: nat, length: nat, cursor: nat)
    requires WellFormed(text) && index + length <= |text|
    requires Boundary(text, index) && Boundary(text, index + length) && Boundary(text, cursor)
    ensures WellFormed(text[..index] + text[index + length..])
    ensures Boundary(text[..index] + text[index + length..], CursorAfterDelete(cursor, index, length))
  {
    hide WellFormed, Boundary;
    var end := index + length;
    CutWellFormed(text, index, end);
    if end < cursor {
      CutKeepsBoundary(text, index, end, cursor);
      assert CursorAfterDelete(cursor, index, length) == cursor - (end - index);
    } else if index < cursor {
      assert CursorAfterDelete(cursor, index, length) == index;
    } else {
      CutKeepsBoundary(text, index, end, cursor);
      assert CursorAfterDelete(cursor, index, length) == cursor;
    }
  }

  lemma {:induction false} DeletedGood(e: Entry, index: nat, length: nat)
    requires e.Sane() && OnBoundaries(e) && index + length <= |e.text|
    requires Boundary(e.text, index) && Boundary(e.text, index + length)
    ensures OnBoundaries(Deleted(e, index, length))
  {
    hide WellFormed, Boundary;
    DeletedBoundaries(e.text, index, length, e.cursor);
  }

  /** Deleting the character before, or at, the cursor. */
  lemma DeletedPrevGood(e: Entry)
    requires e.Sane() && OnBoundaries(e)
    ensures var p := PrevChar(e.text, e.cursor);
            p.Some? ==>
              && OnBoundaries(Deleted(e, p.value, e.cursor - p.value))
              && NextChar(e.text, p.value) == Some(e.cursor)
  {
    hide WellFormed, Boundary;
    PrevIsNearestBoundary(e.text, e.cursor);
    NextPrevInverse(e.text, e.cursor);
    var p := PrevChar(e.text, e.cursor);
    if p.Some? { DeletedGood(e, p.value, e.cursor - p.value); }
  }

  lemma DeletedNextGood(e: Entry)
    requires e.Sane() && OnBoundaries(e)
    ensures var n := NextChar(e.text, e.cursor);
            n.Some? ==> OnBoundaries(Deleted(e, e.cursor, n.value - e.cursor))
  {
    hide WellFormed, Boundary;
    NextIsNearestBoundary(e.text, e.cursor);
    var n := NextChar(e.text, e.cursor);
    if n.Some? { DeletedGood(e, e.cursor, n.value - e.cursor); }
  }

  lemma WalkedGood(e: Entry, extend: bool)
    requires e.Sane() && OnBoundaries(e)
    ensures OnBoundaries(WithCursor(e, PrevChar(e.text, e.cursor).Or(e.cursor), extend))
    ensures OnBoundaries(WithCursor(e, NextChar(e.text, e.cursor).Or(e.cursor), extend))
    ensures OnBoundaries(WithCursor(e, UpTarget(e.text, e.cursor), extend))
    ensures OnBoundaries(WithCursor(e, DownTarget(e.text, e.cursor), extend))
  {
    hide WellFormed, Boundary, UpTarget, DownTarget, PrevChar, NextChar;
    PrevIsNearestBoundary(e.text, e.cursor);
    NextIsNearestBoundary(e.text, e.cursor);
    MovedGood(e.text, e.cursor);
  }

  lemma CommittedGood(e: Entry)
    requires e.Sane() && OnBoundaries(e)
    ensures OnBoundaries(CommittedAndReset(e))
  {
    if e.commit.Some? {
      InsertedGood(e.(preedit := None, commit := None), e.commit.value);
    }
  }

  lemma {:induction false} MovedGood(text: Text, cursor: nat)
    requires WellFormed(text) && Boundary(text, cursor) && cursor <= |text|
    ensures Boundary(text, UpTarget(text, cursor)) && Boundary(text, DownTarget(text, cursor))
  {
    assert !IsContinuation(RETURN_CHAR);
    var up := UpTarget(text, cursor);
    BoundaryIff(text, up);
    if up != cursor {
      assert exists j :: 0 <= j < cursor && j < |text| && text[j] == RETURN_CHAR;
    }
    var f := FirstReturn(text, cursor);
    if f.Some? {
      AfterReturn(text, f.value);
    }
  }

  lemma {:induction false} AfterReturn(text: Text, i: nat)
    requires WellFormed(text) && i < |text| && text[i] == RETURN_CHAR
    ensures Boundary(text, i + 1)
    decreases |text|
  {
    assert !IsContinuation(RETURN_CHAR);
    CharShape(text);
    var n := CharLength(text);
    if i >= n {
      AfterReturn(text[n..], i - n);
    } else {
      assert Boundary(text[n..], 0);
    }
  }

  lemma KeyStepGood(e: Entry, key: Key, shift: bool)
    requires e.Sane() && OnBoundaries(e) && (key.Char? ==> 0 !in key.utf8 && WellFormed(key.utf8))
    ensures OnBoundaries(KeyStep(e, key, shift))
  {
    hide WellFormed, Boundary, OnBoundaries;
    CommittedGood(e);
    var c := CommittedAndReset(e);
    match key
    case BackSpace => DeletedPrevGood(c);
    case Delete => DeletedNextGood(c);
    case Char(t) => InsertedGood(c, t);
    case Escape =>
    case NoChar =>
    case _ => WalkedGood(c, shift);
  }

  lemma KeysymStepGood(e: Entry, keysym: Keysym, released: bool, shift: bool)
    requires e.Sane() && OnBoundaries(e)
    ensures OnBoundaries(KeysymStep(e, keysym, released, shift))
  {
    hide WellFormed, Boundary, OnBoundaries;
    match keysym
    case SymBackSpace => CommittedGood(e); DeletedPrevGood(CommittedAndReset(e));
    case SymTab => CharWellFormed([TAB_CHAR]); InsertedGood(e, [TAB_CHAR]);
    case SymReturn => CharWellFormed([RETURN_CHAR]); InsertedGood(e, [RETURN_CHAR]);
    case SymOther =>
    case _ => WalkedGood(e, shift);
  }

  lemma SelectionDeletedGood(e: Entry)
    requires e.Sane() && OnBoundaries(e)
    ensures OnBoundaries(SelectionDeleted(e))
  {
    hide WellFormed, Boundary;
    if e.anchor != e.cursor {
      DeletedGood(e, Min(e.anchor, e.cursor), Max(e.anchor, e.cursor) - Min(e.anchor, e.cursor));
    }
  }

  lemma PendingDeletedGood(e: Entry)
    requires e.Sane() && OnBoundaries(e) && (e.pending.deleteLength != 0 ==> DeleteFits(e))
    ensures e.pending.deleteLength != 0 ==>
              DeleteAssertions(e.text, e.pending.deleteIndex, e.pending.deleteLength)
    ensures OnBoundaries(PendingDeleted(e))
  {
    hide WellFormed, Boundary;
    if e.pending.deleteLength != 0 {
      AssertionsMeanInRange(e.text, e.pending.deleteIndex, e.pending.deleteLength);
      DeletedGood(e, e.pending.deleteIndex, e.pending.deleteLength);
    } else {
      SelectionDeletedGood(e);
    }
  }

  lemma CopyCutGood(e: Entry, cut: bool)
    requires e.Sane() && OnBoundaries(e)
    ensures OnBoundaries(CopyCutStep(e, cut)) && CopyCutStep(e, cut).Sane()
  {
    hide WellFormed, Boundary;
    SelectionDeletedGood(e.(selected := e.text[Min(e.cursor, e.anchor)..Max(e.cursor, e.anchor)]));
  }

  lemma CommitGood(e: Entry, serial: uint32, t: Text)
    requires Good(e) && Admissible(e, CommitString(serial, t))
    ensures NoAbort(e, CommitString(serial, t)) && Good(CommitStep(e, serial, t))
  {
    hide WellFormed, Boundary, DeleteAssertions;
    if Accepts(e, serial) && !e.pending.invalidDelete {
      var cleared := e.(preedit := None, commit := None);
      PendingDeletedGood(cleared);
      InsertedGood(PendingDeleted(cleared), t);
    }
  }

  lemma PreeditGood(e: Entry, serial: uint32, t: Text, commit: Text)
    requires Good(e) && Admissible(e, PreeditString(serial, t, commit))
    ensures NoAbort(e, PreeditString(serial, t, commit)) && Good(PreeditStep(e, serial, t, commit))
  {
    hide WellFormed, Boundary, DeleteAssertions;
    if Accepts(e, serial) && !e.pending.invalidDelete {
      PendingDeletedGood(e);
    }
  }

  /** One event keeps the text well formed and cursor and anchor on character
      boundaries, and trips no assertion. */
  lemma StepGood(e: Entry, ev: Event)
    requires Good(e) && Admissible(e, ev)
    ensures NoAbort(e, ev) && Good(Step(e, ev))
  {
    hide WellFormed, Boundary, DeleteFits, AcceptsDelete;
    match ev
    case CommitString(serial, t) => CommitGood(e, serial, t);
    case PreeditString(serial, t, commit) => PreeditGood(e, serial, t, commit);
    case DeleteSurrounding(_, _) =>
    case CursorPosition(_, _) =>
    case KeyPressed(key, shift) => KeyStepGood(e, key, shift);
    case InputKeysym(keysym, released, shift) => KeysymStepGood(e, keysym, released, shift);
    case CopyCut(cut) => CopyCutGood(e, cut);
    case Paste(t) => InsertedGood(e, t);
    case Enter =>
    case Leave => CommittedGood(e);
  }

  /** A key, clipboard or focus event. */
  predicate IsEdit(ev: Event) {
    ev.KeyPressed? || ev.InputKeysym? || ev.CopyCut? || ev.Paste? || ev.Enter? || ev.Leave?
  }

  /** None of them touches a pending delete. */
  lemma EditsKeepPending(e: Entry, ev: Event)
    requires e.Sane() && NulFree(ev) && IsEdit(ev)
    ensures Step(e, ev).pending == e.pending
  {
    hide PrevChar, NextChar, UpTarget, DownTarget;
  }

  /** The run never meets an insane entry, a NUL or a failing assertion. */
  predicate Possible(e: Entry, events: seq<Event>)
    decreases |events|
  {
    e.Sane() &&
    (events == [] || (NulFree(events[0]) && NoAbort(e, events[0]) && Possible(Step(e, events[0]), events[1..])))
  }

  function Run(e: Entry, events: seq<Event>): Entry
    requires Possible(e, events)
    decreases |events|
  {
    if events == [] then e else Run(Step(e, events[0]), events[1..])
  }

  /** Every event of the run is admissible where it happens. */
  ghost predicate AdmissibleRun(e: Entry, events: seq<Event>)
    requires Good(e)
    decreases |events|
  {
    events == [] || (
      && Admissible(e, events[0])
      && (StepGood(e, events[0]); AdmissibleRun(Step(e, events[0]), events[1..])))
  }

  /** Main result: keys, clipboard, focus and input-method events in any order,
      also while a delete is pending: the text stays well formed, the cursors on
      boundaries, and no assertion fails. */
  lemma {:induction false} RunGood(e: Entry, events: seq<Event>)
    requires Good(e) && AdmissibleRun(e, events)
    ensures Possible(e, events) && Good(Run(e, events))
    decreases |events|
  {
    hide OnBoundaries, NoAbort, NulFree, DeleteFits, Step;
    if events != [] {
      StepGood(e, events[0]);
      RunGood(Step(e, events[0]), events[1..]);
    }
  }

  // ---------- What events undo ----------

  lemma SpliceOut(text: Text, i: nat, t: Text)
    requires i <= |text|
    ensures var spliced := text[..i] + t + text[i..];
            spliced[..i] + spliced[i + |t|..] == text
  {
  }

  /** e holds text with c spliced in at i, and the cursor just after c. */
  ghost predicate JustInserted(e: Entry, text: Text, i: nat, c: Text) {
    && e.Sane() && OnBoundaries(e) && e.commit.None? && IsChar(c)
    && i <= |text| && e.text == text[..i] + c + text[i..] && e.cursor == i + |c|
  }

  lemma InsertedIsErased(e: Entry, text: Text, i: nat, c: Text)
    requires JustInserted(e, text, i, c)
    ensures PrevChar(e.text, e.cursor) == Some(i) && NextChar(e.text, i) == Some(e.cursor)
    ensures Erased(Deleted(e, i, |c|), text, i)
  {
    hide WellFormed, Boundary, IsChar, NextChar;
    PrevOfInserted(text, i, c);
    SpliceOut(text, i, c);
    DeletedPrevGood(e);
  }

  lemma BackSpaceErases(e: Entry, text: Text, i: nat, c: Text, shift: bool)
    requires JustInserted(e, text, i, c)
    ensures Erased(KeyStep(e, BackSpace, shift), text, i)
    ensures Erased(KeysymStep(e, SymBackSpace, true, shift), text, i)
  {
    hide WellFormed, Boundary, IsChar;
    InsertedIsErased(CommittedAndReset(e), text, i, c);
  }

  predicate Erased(e: Entry, text: Text, i: int) {
    e.text == text && e.cursor == i == e.anchor
  }

  /** Typing one character and pressing BackSpace, on the hardware keyboard or
      through the input method, gives back the text and the cursor: those from
      before, with a pending pre-edit committed first as every key does. */
  lemma InsertThenBackSpace(e: Entry, c: Text, shift: bool)
    requires Good(e) && IsChar(c) && 0 !in c
    ensures var base := CommittedAndReset(e);
            && Erased(KeyStep(KeyStep(e, Char(c), shift), BackSpace, shift), base.text, base.cursor)
            && Erased(KeysymStep(KeyStep(e, Char(c), shift), SymBackSpace, true, shift), base.text, base.cursor)
    ensures e.commit.None? ==> CommittedAndReset(e).text == e.text && CommittedAndReset(e).cursor == e.cursor
  {
    hide WellFormed, Boundary, IsChar;
    var base, typed := CommittedAndReset(e), KeyStep(e, Char(c), shift);
    CommittedGood(e);
    CharWellFormed(c);
    KeyStepGood(e, Char(c), shift);
    BackSpaceErases(typed, base.text, base.cursor, c, shift);
  }

  /** Left then Right, or Right then Left, returns the cursor. */
  lemma LeftRightInverse(e: Entry, shift: bool)
    requires Good(e)
    ensures var base := CommittedAndReset(e);
            && (base.cursor > 0 ==> KeyStep(KeyStep(e, Left, shift), Right, shift).cursor == base.cursor)
            && (base.cursor < |base.text| ==> KeyStep(KeyStep(e, Right, shift), Left, shift).cursor == base.cursor)
  {
    hide WellFormed, Boundary, PrevChar, NextChar;
    CommittedGood(e);
    var base := CommittedAndReset(e);
    NextPrevInverse(base.text, base.cursor);
    PrevIsNearestBoundary(base.text, base.cursor);
    NextIsNearestBoundary(base.text, base.cursor);
  }

  /** Down after an Up that moved lands just past the Return that Up found, so
      never below where the cursor started. */
  lemma UpThenDown(e: Entry)
    requires e.Sane()
    ensures var base, up := CommittedAndReset(e), KeyStep(e, Up, false);
            var down := KeyStep(up, Down, false);
            up.cursor < base.cursor ==> down.cursor == up.cursor + 1 <= base.cursor
  {
    var base, up := CommittedAndReset(e), KeyStep(e, Up, false);
    if up.cursor < base.cursor {
      assert FirstReturn(base.text, up.cursor) == Some(up.cursor);
    }
  }

  /** Cutting a selection and pasting it back restores the text. */
  lemma CutThenPaste(e: Entry)
    requires e.Sane() && e.cursor != e.anchor
    ensures 0 !in CopyCutStep(e, true).selected && CopyCutStep(e, true).Sane()
    ensures var cut := CopyCutStep(e, true);
            var pasted := Inserted(cut, cut.selected, 0, 0);
            && pasted.text == e.text
            && pasted.cursor == Max(e.cursor, e.anchor) == pasted.anchor
  {
    var start, end := Min(e.cursor, e.anchor), Max(e.cursor, e.anchor);
    var cut := CopyCutStep(e, true);
    CutAndJoin(e.text, start, end);
    assert cut.cursor == start && cut.selected == e.text[start..end];
  }

  lemma CutAndJoin(text: Text, i: nat, j: nat)
    requires i <= j <= |text|
    ensures var cut := text[..i] + text[j..];
            cut[..i] + text[i..j] + cut[i..] == text
  {
    var cut := text[..i] + text[j..];
    assert cut[..i] == text[..i] && cut[i..] == text[j..];
  }

  // ---------- Deleting around the cursor ----------

  /** The unsigned test accepts exactly the ranges inside the text. */
  lemma AcceptsDeleteIff(e: Entry, index: int32, length: uint32)
    requires 0 <= e.cursor <= |e.text| < TWO_31
    ensures AcceptsDelete(e, index, length) <==>
              0 <= e.cursor + index && e.cursor + index + length <= |e.text|
    ensures AcceptsDelete(e, index, length) ==> ToUint32(e.cursor + index) == e.cursor + index
  {
    if e.cursor + index < 0 {
      assert ToUint32(e.cursor + index) == e.cursor + index + TWO_32;
    }
  }

  predicate DeleteInText(e: Entry, index: int32, length: uint32) {
    0 <= e.cursor + index && e.cursor + index + length <= |e.text|
  }

  /** With 2^31 bytes or more after the cursor, the farthest negative index wraps
      to a position inside the text. */
  lemma HugeTextAcceptsNegative(e: Entry)
    requires 0 <= e.cursor <= |e.text| < TWO_32 && |e.text| - e.cursor >= TWO_31
    ensures AcceptsDelete(e, -TWO_31, 0) && !DeleteInText(e, -TWO_31, 0)
  {
  }

  /** With less after the cursor of so long a text, the end of a delete of the
      whole length from its end wraps back into it. */
  lemma HugeTextAcceptsOverlong(e: Entry)
    requires 0 <= e.cursor <= |e.text| < TWO_32 && |e.text| - e.cursor < TWO_31 <= |e.text|
    ensures AcceptsDelete(e, |e.text| - e.cursor, |e.text|) && !DeleteInText(e, |e.text| - e.cursor, |e.text|)
  {
  }

  /** The unsigned test accepts exactly the ranges inside the text if and only if
      the text is shorter than 2^31 bytes. */
  lemma DeleteTestExactIff(e: Entry)
    requires 0 <= e.cursor <= |e.text| < TWO_32
    ensures (forall index: int32, length: uint32 :: AcceptsDelete(e, index, length) <==> DeleteInText(e, index, length))
            <==> |e.text| < TWO_31
  {
    if |e.text| < TWO_31 {
      forall index: int32, length: uint32 ensures AcceptsDelete(e, index, length) <==> DeleteInText(e, index, length) {
        AcceptsDeleteIff(e, index, length);
      }
    } else if |e.text| - e.cursor >= TWO_31 {
      HugeTextAcceptsNegative(e);
    } else {
      HugeTextAcceptsOverlong(e);
    }
  }

  /** An accepted delete, committed on the unchanged text: no assertion trips,
      exactly the range is gone, and the string stands where the cursor was,
      or at the start of the range if the cursor was inside it. */
  lemma DeleteThenCommit(e: Entry, index: int32, length: uint32, serial: uint32, t: Text)
    requires e.Sane() && |e.text| < TWO_31 && NoOffsets(e) && 0 !in t && length > 0
    requires AcceptsDelete(e, index, length) && Accepts(e, serial)
    ensures var a, b, c := e.cursor + index, e.cursor + index + length, e.cursor;
            var d := DeleteStep(e, index, length);
            && 0 <= a <= b <= |e.text|
            && NoAbort(d, CommitString(serial, t))
            && var r := CommitStep(d, serial, t);
               && r.text == (if c <= a then e.text[..c] + t + e.text[c..a] + e.text[b..]
                             else if c <= b then e.text[..a] + t + e.text[b..]
                             else e.text[..a] + e.text[b..c] + t + e.text[c..])
               && r.cursor == r.anchor == (if c <= a then c else if c <= b then a else c - length) + |t|
  {
    hide AcceptsDelete, DeleteAssertions, CommitStep;
    AcceptsDeleteIff(e, index, length);
    var a, c := e.cursor + index, e.cursor;
    AssertionsMeanInRange(e.text, a, length);
    CommitRunsDelete(DeleteStep(e, index, length), serial, t);
    SpliceAfterCut(e.text, a, a + length, c, t);
  }

  lemma CommitRunsDelete(d: Entry, serial: uint32, t: Text)
    requires d.Sane() && 0 !in t && Accepts(d, serial)
    requires d.pending.cursor == 0 == d.pending.anchor
    requires !d.pending.invalidDelete && d.pending.deleteLength != 0
    requires DeleteAssertions(d.text, d.pending.deleteIndex, d.pending.deleteLength)
    ensures var a, b := d.pending.deleteIndex, d.pending.deleteIndex + d.pending.deleteLength;
            b <= |d.text| &&
            var left, at := d.text[..a] + d.text[b..], CursorAfterDelete(d.cursor, a, b - a);
            && 0 <= at <= |left|
            && CommitStep(d, serial, t).text == left[..at] + t + left[at..]
            && CommitStep(d, serial, t).cursor == at + |t| == CommitStep(d, serial, t).anchor
  {
    AssertionsMeanInRange(d.text, d.pending.deleteIndex, d.pending.deleteLength);
  }

  lemma SpliceAfterCut(text: Text, a: nat, b: nat, c: nat, t: Text)
    requires a <= b <= |text| && c <= |text|
    ensures var left, at := text[..a] + text[b..], CursorAfterDelete(c, a, b - a);
            && 0 <= at <= |left|
            && left[..at] + t + left[at..] ==
               if c <= a then text[..c] + t + text[c..a] + text[b..]
               else if c <= b then text[..a] + t + text[b..]
               else text[..a] + text[b..c] + t + text[c..]
  {
    var left := text[..a] + text[b..];
    if c <= a {
      assert left[c..] == text[c..a] + text[b..];
    } else if c > b {
      var at := c - (b - a);
      assert left[..at] == text[..a] + text[b..c];
      assert left[at..] == text[c..];
    }
  }

  /** The entry still waits to run the delete that e accepted. */
  predicate AwaitsDelete(k: Entry, e: Entry, index: int32, length: uint32) {
    var d := DeleteStep(e, index, length).pending;
    && k.pending.deleteIndex == d.deleteIndex && k.pending.deleteLength == d.deleteLength
    && k.pending.invalidDelete == d.invalidDelete
  }

  /** When an accepted delete trips an assertion: nothing clears it when the text
      changes under it, and the commit or pre-edit that runs it does so safely
      exactly if the text still reaches to the end of the range. */
  lemma PendingDeleteAbortsIff(e: Entry, index: int32, length: uint32, k: Entry, serial: uint32, t: Text, c: Text)
    requires 0 <= e.cursor <= |e.text| < TWO_31 && AcceptsDelete(e, index, length) && length > 0
    requires AwaitsDelete(k, e, index, length) && Accepts(k, serial)
    ensures NoAbort(k, CommitString(serial, t)) <==> e.cursor + index + length <= |k.text|
    ensures NoAbort(k, PreeditString(serial, t, c)) <==> e.cursor + index + length <= |k.text|
  {
    hide AcceptsDelete, DeleteAssertions;
    AcceptsDeleteIff(e, index, length);
    AssertionsMeanInRange(k.text, k.pending.deleteIndex, k.pending.deleteLength);
  }

  lemma {:induction false} EditRunKeepsPending(e: Entry, events: seq<Event>)
    requires Possible(e, events) && forall i :: 0 <= i < |events| ==> IsEdit(events[i])
    ensures Run(e, events).pending == e.pending
    decreases |events|
  {
    hide NulFree, NoAbort, Step, IsEdit;
    if events != [] {
      EditsKeepPending(e, events[0]);
      assert forall i :: 0 <= i < |events[1..]| ==> events[1..][i] == events[i + 1];
      EditRunKeepsPending(Step(e, events[0]), events[1..]);
    }
  }

  /** The same over runs: whatever keys, clipboard and focus events come between
      an accepted delete and the commit that answers the state they lead to, the
      commit is safe if and only if the text did not shrink below the range. */
  lemma {:induction false} EditedDeleteAbortsIff(e: Entry, index: int32, length: uint32, events: seq<Event>, t: Text)
    requires e.Sane() && |e.text| < TWO_31 && AcceptsDelete(e, index, length) && length > 0
    requires Possible(DeleteStep(e, index, length), events) && forall i :: 0 <= i < |events| ==> IsEdit(events[i])
    ensures var k := Run(DeleteStep(e, index, length), events);
            NoAbort(k, CommitString(k.serial, t)) <==> e.cursor + index + length <= |k.text|
  {
    hide AcceptsDelete, NoAbort, Possible, Run;
    var d := DeleteStep(e, index, length);
    EditRunKeepsPending(d, events);
    var k := Run(d, events);
    OwnSerialAccepted(k);
    PendingDeleteAbortsIff(e, index, length, k, k.serial, t, t);
  }

  /** A delete that is refused makes the next commit leave the text alone, however
      the text was edited in between, and is forgotten with it. */
  lemma {:induction false} RefusedDeleteIgnoresCommit(e: Entry, index: int32, length: uint32, events: seq<Event>,
      serial: uint32, t: Text)
    requires e.Sane() && 0 !in t && !AcceptsDelete(e, index, length)
    requires Possible(DeleteStep(e, index, length), events) && forall i :: 0 <= i < |events| ==> IsEdit(events[i])
    ensures var k := Run(DeleteStep(e, index, length), events);
            && k.Sane() && NoAbort(k, CommitString(serial, t))
            && CommitStep(k, serial, t).text == k.text && CommitStep(k, serial, t).cursor == k.cursor
            && (Accepts(k, serial) ==> CommitStep(k, serial, t).pending == NO_PENDING)
  {
    hide AcceptsDelete, Accepts, Possible, Run, DeleteAssertions;
    EditRunKeepsPending(DeleteStep(e, index, length), events);
    RunEndsSane(DeleteStep(e, index, length), events);
  }

  lemma {:induction false} RunEndsSane(e: Entry, events: seq<Event>)
    requires Possible(e, events)
    ensures Run(e, events).Sane()
    decreases |events|
  {
    hide NoAbort, NulFree, Step;
    if events != [] { RunEndsSane(Step(e, events[0]), events[1..]); }
  }

  lemma OwnSerialAccepted(k: Entry)
    ensures Accepts(k, k.serial)
  {
  }

  /** Such a run exists: delete the only character, press BackSpace first, and the
      commit that answers the new state trips an assertion. */
  lemma StaleDeleteAborts(e: Entry)
    requires e.Sane() && e.text == [0x61] && e.cursor == 1 == e.anchor && e.commit.None?
    ensures var d := DeleteStep(e, -1, 1);
            var k := KeyStep(d, BackSpace, false);
            && AcceptsDelete(e, -1, 1)
            && k.text == [] && !NoAbort(k, CommitString(k.serial, []))
  {
    var d := DeleteStep(e, -1, 1);
    var c := CommittedAndReset(d);
    assert !IsContinuation(c.text[0]);
    assert PrevChar(c.text, 1) == Some(0);
    assert c.text[..0] + c.text[1..] == [];
  }

  // ---------- Serials ----------

  /** The wrapped serials agree with the number of updates sent. */
  predicate SerialsTrack(e: Entry) {
    && e.serial == ToUint32(|e.sent|)
    && e.resetSerial == ToUint32(e.resetAt) && e.resetAt <= |e.sent|
    && forall k :: 0 <= k < |e.sent| ==> e.sent[k].serial == ToUint32(k + 1)
  }

  lemma UpdatedTracks(e: Entry)
    requires SerialsTrack(e)
    ensures SerialsTrack(Updated(e)) && |Updated(e).sent| == |e.sent| + 1
  {
    var u := Updated(e);
    forall k | 0 <= k < |u.sent|
      ensures u.sent[k].serial == ToUint32(k + 1)
    {
    }
  }

  lemma InsertedTracks(e: Entry, t: Text, c: int, a: int)
    requires e.Sane() && 0 !in t && SerialsTrack(e)
    ensures SerialsTrack(Inserted(e, t, c, a))
  {
    UpdatedTracks(e.(text := e.text[..e.cursor] + t + e.text[e.cursor..],
                     anchor := Placed(e.cursor, |t|, a), cursor := Placed(e.cursor, |t|, c)));
  }

  lemma DeletedTracks(e: Entry, index: nat, length: nat)
    requires e.Sane() && index + length <= |e.text| && SerialsTrack(e)
    ensures SerialsTrack(Deleted(e, index, length))
  {
    var cursor := CursorAfterDelete(e.cursor, index, length);
    UpdatedTracks(e.(text := e.text[..index] + e.text[index + length..], cursor := cursor, anchor := cursor));
  }

  lemma PendingDeletedTracks(e: Entry)
    requires e.Sane() && SerialsTrack(e)
    requires e.pending.deleteLength != 0 ==>
               DeleteAssertions(e.text, e.pending.deleteIndex, e.pending.deleteLength)
    ensures SerialsTrack(PendingDeleted(e))
  {
    if e.pending.deleteLength != 0 {
      DeletedTracks(e, e.pending.deleteIndex, e.pending.deleteLength);
    } else if e.anchor != e.cursor {
      DeletedTracks(e, Min(e.anchor, e.cursor), Max(e.anchor, e.cursor) - Min(e.anchor, e.cursor));
    }
  }

  lemma CommittedTracks(e: Entry)
    requires e.Sane() && SerialsTrack(e)
    ensures SerialsTrack(CommittedAndReset(e))
  {
    var cleared := e.(preedit := None, commit := None);
    if e.commit.Some? { InsertedTracks(cleared, e.commit.value, 0, 0); }
    UpdatedTracks(if e.commit.Some? then Inserted(cleared, e.commit.value, 0, 0) else cleared);
  }

  lemma KeyTracks(e: Entry, key: Key, shift: bool)
    requires e.Sane() && SerialsTrack(e) && (key.Char? ==> 0 !in key.utf8)
    ensures SerialsTrack(KeyStep(e, key, shift))
  {
    CommittedTracks(e);
    var c := CommittedAndReset(e);
    match key
    case BackSpace =>
      var p := PrevChar(c.text, c.cursor);
      if p.Some? { DeletedTracks(c, p.value, c.cursor - p.value); }
    case Delete =>
      var n := NextChar(c.text, c.cursor);
      if n.Some? { DeletedTracks(c, c.cursor, n.value - c.cursor); }
    case Char(t) => InsertedTracks(c, t, 0, 0);
    case _ =>
  }

  lemma KeysymTracks(e: Entry, keysym: Keysym, released: bool, shift: bool)
    requires e.Sane() && SerialsTrack(e)
    ensures SerialsTrack(KeysymStep(e, keysym, released, shift))
  {
    match keysym
    case SymBackSpace =>
      CommittedTracks(e);
      var c := CommittedAndReset(e);
      var p := PrevChar(c.text, c.cursor);
      if p.Some? { DeletedTracks(c, p.value, NextChar(c.text, p.value).value - p.value); }
    case SymTab => InsertedTracks(e, [TAB_CHAR], 0, 0);
    case SymReturn => InsertedTracks(e, [RETURN_CHAR], 0, 0);
    case _ =>
  }

  lemma CommitTracks(e: Entry, serial: uint32, t: Text)
    requires e.Sane() && SerialsTrack(e) && 0 !in t && NoAbort(e, CommitString(serial, t))
    ensures SerialsTrack(CommitStep(e, serial, t))
  {
    hide DeleteAssertions;
    if Accepts(e, serial) && !e.pending.invalidDelete {
      var cleared := e.(preedit := None, commit := None);
      PendingDeletedTracks(cleared);
      InsertedTracks(PendingDeleted(cleared), t, e.pending.cursor, e.pending.anchor);
    }
  }

  lemma PreeditTracks(e: Entry, serial: uint32, t: Text, commit: Text)
    requires e.Sane() && SerialsTrack(e) && NoAbort(e, PreeditString(serial, t, commit))
    ensures SerialsTrack(PreeditStep(e, serial, t, commit))
  {
    hide DeleteAssertions;
    if Accepts(e, serial) && !e.pending.invalidDelete {
      PendingDeletedTracks(e);
      UpdatedTracks(PendingDeleted(e).(preedit := Some(t), commit := Some(commit), pending := NO_PENDING));
    }
  }

  /** Every event keeps the serials tracking the updates: over all runs. */
  lemma StepTracks(e: Entry, ev: Event)
    requires e.Sane() && NulFree(ev) && NoAbort(e, ev) && SerialsTrack(e)
    ensures SerialsTrack(Step(e, ev))
  {
    match ev
    case KeyPressed(key, shift) => KeyTracks(e, key, shift);
    case InputKeysym(keysym, released, shift) => KeysymTracks(e, keysym, released, shift);
    case CopyCut(cut) =>
      var start, end := Min(e.cursor, e.anchor), Max(e.cursor, e.anchor);
      DeletedTracks(e.(selected := e.text[start..end]), start, end - start);
    case Paste(t) => InsertedTracks(e, t, 0, 0);
    case CommitString(serial, t) => CommitTracks(e, serial, t);
    case PreeditString(serial, t, commit) => PreeditTracks(e, serial, t, commit);
    case DeleteSurrounding(_, _) =>
    case CursorPosition(_, _) =>
    case Enter => UpdatedTracks(e);
    case Leave => CommittedTracks(e);
  }

  /** Main result: over every run, of texts in any encoding and with any deletes
      and offsets, the wrapped serials agree with the updates sent. */
  lemma {:induction false} RunTracks(e: Entry, events: seq<Event>)
    requires Possible(e, events) && SerialsTrack(e)
    ensures SerialsTrack(Run(e, events))
    decreases |events|
  {
    hide SerialsTrack, NulFree, NoAbort, Step;
    if events != [] {
      StepTracks(e, events[0]);
      RunTracks(Step(e, events[0]), events[1..]);
    }
  }

  /** An echo of the k-th update is accepted iff it is no older than the reset. */
  predicate JudgedRight(e: Entry, k: int)
    requires 1 <= k <= |e.sent|
  {
    Accepts(e, e.sent[k - 1].serial) <==> k >= e.resetAt
  }

  /** An echo of the k-th update is judged by comparing k with the last reset,
      despite the wrap-around, as long as it is less than 2^32 updates old. */
  lemma SerialWindow(e: Entry, k: nat)
    requires SerialsTrack(e) && |e.sent| - e.resetAt < TWO_32
    requires 1 <= k <= |e.sent| && |e.sent| - k < TWO_32
    ensures JudgedRight(e, k)
  {
    hide ToUint32;
    DifferenceWraps(|e.sent|, k);
    DifferenceWraps(|e.sent|, e.resetAt);
    InWindow(|e.sent| - k);
    InWindow(|e.sent| - e.resetAt);
  }

  lemma InWindow(x: int)
    requires 0 <= x < TWO_32
    ensures ToUint32(x) == x
  {
  }

  lemma DifferenceWraps(s: nat, k: nat)
    requires k <= s
    ensures ToUint32(ToUint32(s) - ToUint32(k)) == ToUint32(s - k)
  {
    assert s == s / TWO_32 * TWO_32 + ToUint32(s);
    assert k == k / TWO_32 * TWO_32 + ToUint32(k);
    WrapShift(ToUint32(s) - ToUint32(k), s / TWO_32 - k / TWO_32);
  }

  lemma {:induction false} WrapShift(x: int, n: int)
    ensures ToUint32(x + n * TWO_32) == ToUint32(x)
    decreases if n < 0 then -n else n
  {
    if n > 0 { WrapShift(x, n - 1); }
    if n < 0 { WrapShift(x, n + 1); }
  }

  /** The window judges every update ever sent correctly iff no more than 2^32
      have been sent in all: a bound since the last reset is not enough, for
      the update exactly 2^32 before the latest carries the same serial. */
  lemma AllEchoesJudgedIff(e: Entry)
    requires SerialsTrack(e) && |e.sent| - e.resetAt < TWO_32
    ensures (forall k :: 1 <= k <= |e.sent| ==> JudgedRight(e, k)) <==> |e.sent| <= TWO_32
  {
    if |e.sent| <= TWO_32 {
      forall k | 1 <= k <= |e.sent|
        ensures JudgedRight(e, k)
      {
        SerialWindow(e, k);
      }
    } else {
      var k := |e.sent| - TWO_32;
      DifferenceWraps(|e.sent|, k);
      assert !JudgedRight(e, k);
    }
  }
}
