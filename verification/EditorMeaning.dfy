/** What the events of clients/editor.c do, said of the text before and after the
    cursor: each result is spelled out, whatever helpers the handlers use. */
module EditorMeaning {
  import opened CInt
  import opened Options
  import opened Utf8
  import opened Editor
  import opened EditorTheorems

  /** The text on both sides of the cursor, and the other end of the selection. */
  datatype View = View(left: Text, right: Text, anchor: int)

  predicate Shows(e: Entry, v: View) {
    e.text == v.left + v.right && e.cursor == |v.left| && e.anchor == v.anchor
  }

  function ViewOf(e: Entry): (v: View)
    requires e.Sane()
    ensures Shows(e, v)
  {
    View(e.text[..e.cursor], e.text[e.cursor..], e.anchor)
  }

  /** The view once a pending commit string stands before the cursor; putting it
      there drops the selection. */
  function Settled(e: Entry): View
    requires e.Sane()
  {
    if e.commit.None? then ViewOf(e)
    else View(e.text[..e.cursor] + e.commit.value, e.text[e.cursor..], e.cursor + |e.commit.value|)
  }

  /** The last update tells the input method exactly what the entry holds. */
  predicate Reported(e: Entry) {
    e.sent != [] && e.sent[|e.sent| - 1] == Update(e.text, e.cursor, e.anchor, e.serial)
  }

  // ---------- The pending pre-edit ----------

  /** A commit and reset: a pending string goes in at the cursor, the last update
      sent reports the outcome, and the serial window starts at that update. */
  lemma CommitsPending(e: Entry)
    requires e.Sane()
    ensures var r := CommittedAndReset(e);
            && Shows(r, Settled(e)) && Reported(r)
            && r.preedit == None && r.commit == None && r.pending == e.pending && r.selected == e.selected
            && r.resetSerial == r.serial == ToUint32(e.serial + if e.commit.Some? then 2 else 1)
            && r.resetAt == |r.sent| == |e.sent| + (if e.commit.Some? then 2 else 1)
            && e.sent <= r.sent
    ensures e.commit.Some? ==>
              var r, c := CommittedAndReset(e), e.commit.value;
              && r.text == e.text[..e.cursor] + c + e.text[e.cursor..]
              && r.cursor == e.cursor + |c| == r.anchor
  {
  }

  /** So does losing the focus; gaining it reports the entry as it is. */
  lemma LeaveCommits(e: Entry)
    requires e.Sane()
    ensures var r := Step(e, Leave);
            && Shows(r, Settled(e)) && Reported(r) && r.resetSerial == r.serial
            && r.preedit == None && r.commit == None
    ensures var r := Step(e, Enter);
            && Shows(r, ViewOf(e)) && Reported(r) && r.resetSerial == r.serial
            && r.preedit == e.preedit && r.commit == e.commit
  {
    CommitsPending(e);
  }

  // ---------- The characters around the cursor ----------

  /** A non-empty well-formed text ends in one character and starts with one, so
      the cases below are all there are. */
  lemma {:induction false} EndsInChars(s: Text)
    requires WellFormed(s) && s != []
    ensures exists l, ch :: IsChar(ch) && s == l + ch && WellFormed(l)
    ensures exists ch, r :: IsChar(ch) && s == ch + r && WellFormed(r)
  {
    hide CharLength;
    var n := CharLength(s);
    CharLengthOfPrefix(s, n);
    assert IsChar(s[..n]) && s == s[..n] + s[n..] && WellFormed(s[n..]);
    LastChar(s);
  }

  lemma {:induction false} LastChar(s: Text)
    requires WellFormed(s) && s != []
    ensures exists l, ch :: IsChar(ch) && s == l + ch && WellFormed(l)
    decreases |s|
  {
    hide CharLength;
    var n := CharLength(s);
    CharLengthOfPrefix(s, n);
    if n == |s| {
      assert s[..n] == s;
      assert IsChar(s) && s == [] + s && WellFormed([]);
    } else {
      LastChar(s[n..]);
      var l, ch :| IsChar(ch) && s[n..] == l + ch && WellFormed(l);
      CharWellFormed(s[..n]);
      JoinWellFormed(s[..n], l);
      assert s == (s[..n] + l) + ch;
    }
  }

  /** The text after the cursor never starts inside a character. */
  lemma RightStartsChar(e: Entry)
    requires Good(e)
    ensures WellFormed(e.text[e.cursor..]) && Settled(e).right == e.text[e.cursor..]
  {
    hide WellFormed, Boundary;
    SplitWellFormed(e.text, e.cursor);
  }

  predicate Continues(s: Text) {
    s != [] && IsContinuation(s[0])
  }

  lemma {:induction false} WellFormedStarts(s: Text)
    requires WellFormed(s)
    ensures !Continues(s)
  {
    CharShape(s);
  }

  /** The character before the end of l + ch is ch, the one at its start too. */
  lemma {:induction false} CharBetween(l: Text, ch: Text, r: Text)
    requires IsChar(ch)
    ensures PrevChar(l + ch + r, |l + ch|) == Some(|l|)
    ensures !Continues(r) ==> NextChar(l + ch + r, |l|) == Some(|l + ch|)
  {
    var s := l + ch + r;
    PrevOfInserted(l + r, |l|, ch);
    assert (l + r)[..|l|] + ch + (l + r)[|l|..] == s;
    CharShape(ch);
    assert forall k :: 0 <= k < |ch| ==> s[|l| + k] == ch[k];
    assert r != [] ==> s[|l + ch|] == r[0];
    if !Continues(r) {
      assert EndChar(s, |l| + 1) == |l + ch|;
    }
  }

  lemma {:induction false} RestStartsChar(ch: Text, r: Text)
    requires IsChar(ch) && WellFormed(ch + r)
    ensures !Continues(r)
  {
    CharLengthAppend(ch, r);
    assert (ch + r)[|ch|..] == r;
    WellFormedStarts(r);
  }

  // ---------- Keys ----------

  /** Typing, from the keyboard, stands after what was pending. */
  lemma TypingInserts(e: Entry, t: Text, shift: bool)
    requires e.Sane() && 0 !in t
    ensures var v, r := Settled(e), Step(e, KeyPressed(Char(t), shift));
            Shows(r, View(v.left + t, v.right, |v.left + t|)) && Reported(r)
  {
    CommitsPending(e);
    var c, v := CommittedAndReset(e), Settled(e);
    assert c.text[..c.cursor] == v.left && c.text[c.cursor..] == v.right;
  }

  /** The keysyms Tab and Return, and pasting, insert before what is pending. */
  lemma KeysymInserts(e: Entry, shift: bool)
    requires e.Sane()
    ensures var v, r := ViewOf(e), Step(e, InputKeysym(SymTab, true, shift));
            Shows(r, View(v.left + [0x09], v.right, |v.left| + 1)) && Reported(r) && r.commit == e.commit
    ensures var v, r := ViewOf(e), Step(e, InputKeysym(SymReturn, true, shift));
            Shows(r, View(v.left + [0x0D], v.right, |v.left| + 1)) && Reported(r) && r.commit == e.commit
  {
  }

  lemma PasteInserts(e: Entry, t: Text)
    requires e.Sane() && 0 !in t
    ensures var v, r := ViewOf(e), Step(e, Paste(t));
            Shows(r, View(v.left + t, v.right, |v.left + t|)) && Reported(r) && r.commit == e.commit
  {
  }

  /** BackSpace, as a key or a released keysym, removes the character before the
      cursor, be it part of the pending string; at the start nothing. */
  lemma BackSpaceRemoves(e: Entry, l: Text, ch: Text, shift: bool)
    requires Good(e) && IsChar(ch) && Settled(e).left == l + ch
    ensures var r, q := Step(e, KeyPressed(BackSpace, shift)), Step(e, InputKeysym(SymBackSpace, true, shift));
            && Shows(r, View(l, Settled(e).right, |l|)) && Reported(r)
            && Shows(q, View(l, Settled(e).right, |l|)) && Reported(q)
  {
    hide WellFormed, Boundary, IsChar, PrevChar, NextChar, Settled, CommittedAndReset, CharLength;
    var c, v := CommittedAndReset(e), Settled(e);
    CommitsPending(e);
    RightStartsChar(e);
    WellFormedStarts(v.right);
    CharBetween(l, ch, v.right);
    SplitViews(c.text, l, ch, v.right);
  }

  lemma SplitViews(s: Text, l: Text, m: Text, r: Text)
    requires s == l + m + r
    ensures s[..|l|] == l && s[|l + m|..] == r && s[..|l|] + s[|l + m|..] == l + r
  {
  }

  lemma BackSpaceAtStart(e: Entry, shift: bool)
    requires e.Sane() && Settled(e).left == []
    ensures var r, q := Step(e, KeyPressed(BackSpace, shift)), Step(e, InputKeysym(SymBackSpace, true, shift));
            Shows(r, Settled(e)) && Shows(q, Settled(e))
  {
    CommitsPending(e);
  }

  /** Delete removes the character after the cursor; at the end nothing. */
  lemma DeleteRemoves(e: Entry, ch: Text, rest: Text, shift: bool)
    requires Good(e) && IsChar(ch) && Settled(e).right == ch + rest
    ensures var r := Step(e, KeyPressed(Delete, shift));
            Shows(r, View(Settled(e).left, rest, |Settled(e).left|)) && Reported(r)
  {
    hide WellFormed, Boundary, IsChar, PrevChar, NextChar, Settled, CommittedAndReset, CharLength;
    var c, v := CommittedAndReset(e), Settled(e);
    CommitsPending(e);
    RightStartsChar(e);
    RestStartsChar(ch, rest);
    CharBetween(v.left, ch, rest);
    assert c.text == v.left + ch + rest;
    SplitViews(c.text, v.left, ch, rest);
  }

  lemma DeleteAtEnd(e: Entry, shift: bool)
    requires e.Sane() && Settled(e).right == []
    ensures Shows(Step(e, KeyPressed(Delete, shift)), Settled(e))
  {
    CommitsPending(e);
  }

  /** The anchor after a move to `cursor`: shift extends the selection. */
  function Anchored(anchor: int, cursor: int, shift: bool): int {
    if shift then anchor else cursor
  }

  /** Left steps over the character before the cursor, Right over the one after. */
  lemma LeftMoves(e: Entry, l: Text, ch: Text, shift: bool)
    requires Good(e) && IsChar(ch)
    ensures Settled(e).left == l + ch ==>
              var v := Settled(e);
              Shows(Step(e, KeyPressed(Left, shift)), View(l, ch + v.right, Anchored(v.anchor, |l|, shift)))
    ensures ViewOf(e).left == l + ch ==>
              var v := ViewOf(e);
              Shows(Step(e, InputKeysym(SymLeft, true, shift)), View(l, ch + v.right, Anchored(v.anchor, |l|, shift)))
  {
    hide WellFormed, Boundary, IsChar, PrevChar, NextChar, Settled, CommittedAndReset, CharLength;
    CommitsPending(e);
    CharBetween(l, ch, Settled(e).right);
    CharBetween(l, ch, ViewOf(e).right);
    assert l + ch + Settled(e).right == l + (ch + Settled(e).right);
    assert l + ch + ViewOf(e).right == l + (ch + ViewOf(e).right);
  }

  lemma RightMoves(e: Entry, ch: Text, rest: Text, shift: bool)
    requires Good(e) && IsChar(ch)
    ensures Settled(e).right == ch + rest ==>
              var v := Settled(e);
              Shows(Step(e, KeyPressed(Right, shift)),
                    View(v.left + ch, rest, Anchored(v.anchor, |v.left + ch|, shift)))
    ensures ViewOf(e).right == ch + rest ==>
              var v := ViewOf(e);
              Shows(Step(e, InputKeysym(SymRight, true, shift)),
                    View(v.left + ch, rest, Anchored(v.anchor, |v.left + ch|, shift)))
  {
    hide WellFormed, Boundary, IsChar, PrevChar, NextChar, Settled, CommittedAndReset, CharLength;
    CommitsPending(e);
    RightStartsChar(e);
    assert ViewOf(e).right == Settled(e).right;
    if Settled(e).right == ch + rest {
      RestStartsChar(ch, rest);
      CharBetween(Settled(e).left, ch, rest);
      CharBetween(ViewOf(e).left, ch, rest);
      assert Settled(e).left + (ch + rest) == Settled(e).left + ch + rest;
      assert ViewOf(e).left + (ch + rest) == ViewOf(e).left + ch + rest;
    }
  }

  /** At the ends a key leaves the selection alone, and a keysym drops it. */
  lemma MovesAtTheEnds(e: Entry, shift: bool)
    requires e.Sane()
    ensures Settled(e).left == [] ==> Shows(Step(e, KeyPressed(Left, shift)), Settled(e))
    ensures Settled(e).right == [] ==> Shows(Step(e, KeyPressed(Right, shift)), Settled(e))
    ensures ViewOf(e).left == [] ==>
              Shows(Step(e, InputKeysym(SymLeft, true, shift)), ViewOf(e).(anchor := Anchored(e.anchor, 0, shift)))
    ensures ViewOf(e).right == [] ==>
              Shows(Step(e, InputKeysym(SymRight, true, shift)),
                    ViewOf(e).(anchor := Anchored(e.anchor, |e.text|, shift)))
  {
    CommitsPending(e);
  }

  /** Up goes to the last Return before the cursor, without one nowhere. */
  lemma UpMoves(e: Entry, l: Text, m: Text, shift: bool)
    requires e.Sane() && 0x0D !in m
    ensures Settled(e).left == l + [0x0D] + m ==>
              var v := Settled(e);
              Shows(Step(e, KeyPressed(Up, shift)), View(l, [0x0D] + m + v.right, Anchored(v.anchor, |l|, shift)))
    ensures Settled(e).left == m ==>
              var v := Settled(e);
              Shows(Step(e, KeyPressed(Up, shift)), v.(anchor := Anchored(v.anchor, |m|, shift)))
    ensures ViewOf(e).left == l + [0x0D] + m ==>
              var v := ViewOf(e);
              Shows(Step(e, InputKeysym(SymUp, true, shift)),
                    View(l, [0x0D] + m + v.right, Anchored(v.anchor, |l|, shift)))
    ensures ViewOf(e).left == m ==>
              var v := ViewOf(e);
              Shows(Step(e, InputKeysym(SymUp, true, shift)), v.(anchor := Anchored(v.anchor, |m|, shift)))
  {
    hide Settled, CommittedAndReset, UpTarget;
    CommitsPending(e);
    UpLands(l, m, Settled(e).right);
    UpLands(l, m, ViewOf(e).right);
  }

  lemma UpLands(l: Text, m: Text, right: Text)
    requires 0x0D !in m
    ensures UpTarget(l + [0x0D] + m + right, |l + [0x0D] + m|) == |l|
    ensures l + [0x0D] + m + right == l + ([0x0D] + m + right)
    ensures UpTarget(m + right, |m|) == |m|
  {
    var s := l + [0x0D] + m + right;
    assert s[|l|] == RETURN_CHAR;
    assert forall k :: 0 <= k < |m| ==> s[|l| + 1 + k] == m[k];
    var t := m + right;
    assert forall k :: 0 <= k < |m| ==> t[k] == m[k];
  }

  /** Down goes past the first Return at or after the cursor, without one nowhere. */
  lemma DownMoves(e: Entry, m: Text, rest: Text, shift: bool)
    requires e.Sane() && 0x0D !in m
    ensures Settled(e).right == m + [0x0D] + rest ==>
              var v := Settled(e);
              Shows(Step(e, KeyPressed(Down, shift)),
                    View(v.left + m + [0x0D], rest, Anchored(v.anchor, |v.left + m| + 1, shift)))
    ensures Settled(e).right == m ==>
              var v := Settled(e);
              Shows(Step(e, KeyPressed(Down, shift)), v.(anchor := Anchored(v.anchor, |v.left|, shift)))
    ensures ViewOf(e).right == m + [0x0D] + rest ==>
              var v := ViewOf(e);
              Shows(Step(e, InputKeysym(SymDown, true, shift)),
                    View(v.left + m + [0x0D], rest, Anchored(v.anchor, |v.left + m| + 1, shift)))
    ensures ViewOf(e).right == m ==>
              var v := ViewOf(e);
              Shows(Step(e, InputKeysym(SymDown, true, shift)), v.(anchor := Anchored(v.anchor, |v.left|, shift)))
  {
    hide Settled, CommittedAndReset, DownTarget;
    CommitsPending(e);
    DownLands(Settled(e).left, m, rest);
    DownLands(ViewOf(e).left, m, rest);
  }

  lemma DownLands(left: Text, m: Text, rest: Text)
    requires 0x0D !in m
    ensures DownTarget(left + (m + [0x0D] + rest), |left|) == |left + m| + 1
    ensures left + (m + [0x0D] + rest) == left + m + [0x0D] + rest
    ensures DownTarget(left + m, |left|) == |left|
  {
    var s := left + (m + [0x0D] + rest);
    assert s[|left + m|] == RETURN_CHAR;
    assert forall k :: 0 <= k < |m| ==> s[|left| + k] == m[k];
    var t := left + m;
    assert forall k :: 0 <= k < |m| ==> t[|left| + k] == m[k];
  }

  /** Everything else does nothing, and keeps the pre-edit. */
  lemma OtherKeysKeep(e: Entry, k: Keysym, shift: bool)
    requires e.Sane()
    ensures Step(e, KeyPressed(Escape, shift)) == e == Step(e, KeyPressed(NoChar, shift))
    ensures Step(e, InputKeysym(SymOther, true, shift)) == e == Step(e, InputKeysym(k, false, shift))
  {
  }

  /** Keys without characters of their own, and the keysyms that move, change no
      byte beyond the pending string. */
  lemma MovesKeepText(e: Entry, shift: bool)
    requires e.Sane()
    ensures forall key :: key in {Left, Right, Up, Down} ==>
              Step(e, KeyPressed(key, shift)).text == Settled(e).left + Settled(e).right
    ensures forall k :: k in {SymLeft, SymRight, SymUp, SymDown} ==>
              var r := Step(e, InputKeysym(k, true, shift)); r.text == e.text && r.commit == e.commit
  {
    hide UpTarget, DownTarget, PrevChar, NextChar, Settled, CommittedAndReset;
    CommitsPending(e);
  }

  // ---------- The clipboard ----------

  /** Copying keeps the text; cutting takes out what it copies. */
  lemma CopyCutTakes(e: Entry, left: Text, selection: Text, right: Text, cut: bool)
    requires e.Sane() && selection != [] && e.text == left + selection + right
    requires Min(e.cursor, e.anchor) == |left| && Max(e.cursor, e.anchor) == |left + selection|
    ensures var r := Step(e, CopyCut(cut));
            && r.selected == selection && r.commit == e.commit
            && (cut ==> Shows(r, View(left, right, |left|)) && Reported(r))
            && (!cut ==> r == e.(selected := selection))
  {
    SplitViews(e.text, left, selection, right);
    assert e.text[|left|..|left + selection|] == selection;
  }

  lemma CopyCutNothing(e: Entry, cut: bool)
    requires e.Sane() && e.cursor == e.anchor
    ensures Step(e, CopyCut(cut)) == e
  {
  }

  // ---------- The input method ----------

  /** The range a commit or pre-edit removes first: a pending delete, or else the
      selection. */
  function RangeStart(e: Entry): int {
    if e.pending.deleteLength != 0 then e.pending.deleteIndex else Min(e.cursor, e.anchor)
  }

  function RangeEnd(e: Entry): int {
    if e.pending.deleteLength != 0 then e.pending.deleteIndex + e.pending.deleteLength else Max(e.cursor, e.anchor)
  }

  /** The view without [start, end), the cursor moved along with its text. */
  function Without(e: Entry, start: int, end: int): View
    requires e.Sane() && 0 <= start <= end <= |e.text|
  {
    if e.cursor <= start then View(e.text[..e.cursor], e.text[e.cursor..start] + e.text[end..], e.cursor)
    else if e.cursor <= end then View(e.text[..start], e.text[end..], start)
    else View(e.text[..start] + e.text[end..e.cursor], e.text[e.cursor..], start + (e.cursor - end))
  }

  /** Accepted, and not cancelled by a refused delete. */
  predicate Heeded(e: Entry, serial: uint32) {
    Accepts(e, serial) && !e.pending.invalidDelete
  }

  lemma PendingDeletedShows(e: Entry)
    requires e.Sane()
    requires e.pending.deleteLength != 0 ==> DeleteAssertions(e.text, e.pending.deleteIndex, e.pending.deleteLength)
    ensures 0 <= RangeStart(e) <= RangeEnd(e) <= |e.text|
    ensures Shows(PendingDeleted(e), Without(e, RangeStart(e), RangeEnd(e)))
  {
    var a, b, c := RangeStart(e), RangeEnd(e), e.cursor;
    if c <= a {
      assert e.text[..a] + e.text[b..] == e.text[..c] + (e.text[c..a] + e.text[b..]);
    } else if c > b {
      assert e.text[..a] + e.text[b..] == e.text[..a] + e.text[b..c] + e.text[c..];
    }
  }

  /** A heeded commit takes the place of the range; the offsets count from its end,
      negative ones from its start. */
  lemma CommitReplaces(e: Entry, serial: uint32, t: Text)
    requires e.Sane() && 0 !in t && Heeded(e, serial) && NoAbort(e, CommitString(serial, t))
    ensures 0 <= RangeStart(e) <= RangeEnd(e) <= |e.text|
    ensures var v, r := Without(e, RangeStart(e), RangeEnd(e)), Step(e, CommitString(serial, t));
            && r.text == v.left + t + v.right && Reported(r)
            && r.cursor == |v.left| + (if e.pending.cursor >= 0 then |t| + e.pending.cursor else 1 + e.pending.cursor)
            && r.anchor == |v.left| + (if e.pending.anchor >= 0 then |t| + e.pending.anchor else 1 + e.pending.anchor)
            && r.preedit == None && r.commit == None && r.pending == NO_PENDING
  {
    hide DeleteAssertions;
    var cleared := e.(preedit := None, commit := None);
    PendingDeletedShows(cleared);
    var d, v := PendingDeleted(cleared), Without(e, RangeStart(e), RangeEnd(e));
    assert d.text[..d.cursor] == v.left && d.text[d.cursor..] == v.right && d.pending == e.pending;
  }

  /** A heeded pre-edit removes the range and waits with its own commit string. */
  lemma PreeditReplaces(e: Entry, serial: uint32, t: Text, c: Text)
    requires e.Sane() && Heeded(e, serial) && NoAbort(e, PreeditString(serial, t, c)) && 0 !in t && 0 !in c
    ensures 0 <= RangeStart(e) <= RangeEnd(e) <= |e.text|
    ensures var v, r := Without(e, RangeStart(e), RangeEnd(e)), Step(e, PreeditString(serial, t, c));
            Shows(r, v) && Reported(r) && r.preedit == Some(t) && r.commit == Some(c) && r.pending == NO_PENDING
  {
    hide DeleteAssertions;
    PendingDeletedShows(e);
  }

  /** What is not heeded changes nothing but the pending parts. */
  lemma UnheededKeeps(e: Entry, serial: uint32, t: Text, c: Text)
    requires e.Sane() && 0 !in t && 0 !in c && !Heeded(e, serial)
    ensures Step(e, CommitString(serial, t)) == if Accepts(e, serial) then e.(pending := NO_PENDING) else e
    ensures Step(e, PreeditString(serial, t, c)) == e.(pending := NO_PENDING)
  {
    hide Accepts, DeleteAssertions;
  }

  /** Composing and then typing on: the range goes, then the pre-edit's commit
      string and the typed text stand in its place, in that order. */
  lemma PreeditThenTyping(e: Entry, serial: uint32, t: Text, c: Text, typed: Text, shift: bool)
    requires e.Sane() && Heeded(e, serial) && NoAbort(e, PreeditString(serial, t, c))
    requires 0 !in t && 0 !in c && 0 !in typed
    ensures 0 <= RangeStart(e) <= RangeEnd(e) <= |e.text| && Step(e, PreeditString(serial, t, c)).Sane()
    ensures var v := Without(e, RangeStart(e), RangeEnd(e));
            var r := Step(Step(e, PreeditString(serial, t, c)), KeyPressed(Char(typed), shift));
            && Shows(r, View(v.left + c + typed, v.right, |v.left + c + typed|))
            && Reported(r) && r.preedit == None && r.commit == None
  {
    PreeditReplaces(e, serial, t, c);
    var p, v := Step(e, PreeditString(serial, t, c)), Without(e, RangeStart(e), RangeEnd(e));
    PreeditSane(e, serial, t, c);
    hide Step, Without, DeleteAssertions, Accepts;
    assert p.text[..p.cursor] == v.left && p.text[p.cursor..] == v.right;
    TypingInserts(p, typed, shift);
    TypingClears(p, typed, shift);
  }

  lemma PreeditSane(e: Entry, serial: uint32, t: Text, c: Text)
    requires e.Sane() && NoAbort(e, PreeditString(serial, t, c)) && 0 !in t && 0 !in c
    ensures Step(e, PreeditString(serial, t, c)).Sane()
  {
    hide DeleteAssertions;
  }

  lemma TypingClears(e: Entry, t: Text, shift: bool)
    requires e.Sane() && 0 !in t
    ensures Step(e, KeyPressed(Char(t), shift)).preedit == None == Step(e, KeyPressed(Char(t), shift)).commit
  {
  }

  /** Announced offsets place cursor and anchor of the next commit. */
  lemma OffsetsThenCommit(e: Entry, o: int32, p: int32, serial: uint32, t: Text)
    requires e.Sane() && 0 !in t && Heeded(e, serial) && e.pending.deleteLength == 0
    ensures var d, a, b := Step(e, CursorPosition(o, p)), Min(e.cursor, e.anchor), Max(e.cursor, e.anchor);
            && d.Sane() && NoAbort(d, CommitString(serial, t))
            && var r := Step(d, CommitString(serial, t));
               && r.text == e.text[..a] + t + e.text[b..]
               && r.cursor == (if o >= 0 then a + |t| + o else a + 1 + o)
               && r.anchor == (if p >= 0 then a + |t| + p else a + 1 + p)
  {
    hide CommitStep, KeyStep, KeysymStep, PreeditStep, CopyCutStep, DeleteAssertions, Inserted;
    CommitReplaces(Step(e, CursorPosition(o, p)), serial, t);
  }
}
