/** clients/editor.c: the text entry.  It keeps a UTF-8 text, a cursor and an
    anchor as byte offsets, the pre-edit and its commit string, the pending
    parts of a commit, and the serials that tell current input-method events
    from stale ones. */
module Editor {
  import opened CInt
  import opened Options
  import opened Utf8

  /** What xkb_keysym_to_utf8 gives for Return (and KP_Enter), and for Tab. */
  const RETURN_CHAR: byte := 0x0D
  const TAB_CHAR: byte := 0x09

  datatype Pending = Pending(cursor: int, anchor: int, deleteIndex: uint32, deleteLength: uint32, invalidDelete: bool)

  const NO_PENDING := Pending(0, 0, 0, 0, false)

  /** The requests of one text_entry_update. */
  datatype Update = Update(text: Text, cursor: int, anchor: int, serial: uint32)

  /** The entry, with two history components: every update sent so far, and how
      many had been sent at the last assignment of reset_serial. */
  datatype Entry = Entry(
    text: Text, cursor: int, anchor: int,
    preedit: Option<Text>, commit: Option<Text>,
    pending: Pending, serial: uint32, resetSerial: uint32,
    selected: Text, sent: seq<Update>, resetAt: nat)
  {
    /** Cursor and anchor inside the text, no NUL inside a C string. */
    predicate Sane() {
      && 0 <= cursor <= |text| && 0 <= anchor <= |text|
      && 0 !in text && (commit.Some? ==> 0 !in commit.value)
    }
  }

  // ---------- Parts of the handlers ----------

  /** text_entry_update */
  function Updated(e: Entry): Entry {
    var serial := ToUint32(e.serial + 1);
    e.(serial := serial, sent := e.sent + [Update(e.text, e.cursor, e.anchor, serial)])
  }

  function Placed(base: int, length: nat, offset: int): int {
    if offset >= 0 then base + length + offset else base + 1 + offset
  }

  /** text_entry_insert_at_cursor */
  function Inserted(e: Entry, t: Text, cursor: int, anchor: int): (r: Entry)
    requires e.Sane() && 0 !in t
    ensures cursor == 0 && anchor == 0 ==> r.Sane()
  {
    Updated(e.(text := e.text[..e.cursor] + t + e.text[e.cursor..],
               anchor := Placed(e.cursor, |t|, anchor),
               cursor := Placed(e.cursor, |t|, cursor)))
  }

  /** The three assertions of text_entry_delete_text. */
  predicate DeleteAssertions(text: Text, index: uint32, length: uint32) {
    && index <= |text|
    && ToUint32(index + length) <= |text|
    && ToUint32(index + length) >= length
  }

  /** Where a cursor goes when [index, index + length) is removed. */
  function CursorAfterDelete(cursor: int, index: int, length: int): int {
    if cursor > index + length then cursor - length
    else if cursor > index then index
    else cursor
  }

  /** text_entry_delete_text */
  function Deleted(e: Entry, index: nat, length: nat): (r: Entry)
    requires e.Sane() && index + length <= |e.text|
    ensures r.Sane()
  {
    var cursor := CursorAfterDelete(e.cursor, index, length);
    Updated(e.(text := e.text[..index] + e.text[index + length..], cursor := cursor, anchor := cursor))
  }

  /** text_entry_delete_selected_text */
  function SelectionDeleted(e: Entry): (r: Entry)
    requires e.Sane()
    ensures r.Sane()
  {
    if e.anchor == e.cursor then e
    else Deleted(e, Min(e.anchor, e.cursor), Max(e.anchor, e.cursor) - Min(e.anchor, e.cursor))
  }

  /** text_entry_commit_and_reset */
  function CommittedAndReset(e: Entry): (r: Entry)
    requires e.Sane()
    ensures r.Sane()
    ensures r.pending == e.pending && r.preedit == None && r.commit == None
  {
    var cleared := e.(preedit := None, commit := None);
    var inserted := if e.commit.Some? then Inserted(cleared, e.commit.value, 0, 0) else cleared;
    var updated := Updated(inserted);
    updated.(resetSerial := updated.serial, resetAt := |updated.sent|)
  }

  function WithCursor(e: Entry, cursor: int, extend: bool): Entry {
    e.(cursor := cursor, anchor := if extend then e.anchor else cursor)
  }

  /** The first Return at or after position i (strstr), if any. */
  function FirstReturn(text: Text, i: nat): (r: Option<nat>)
    requires i <= |text|
    ensures r.Some? ==> i <= r.value < |text| && text[r.value] == RETURN_CHAR
    ensures forall j :: i <= j < (if r.Some? then r.value else |text|) ==> text[j] != RETURN_CHAR
    decreases |text| - i
  {
    if i == |text| then None
    else if text[i] == RETURN_CHAR then Some(i)
    else FirstReturn(text, i + 1)
  }

  /** Up goes to the last Return before the cursor, if there is one. */
  ghost predicate IsUp(text: Text, cursor: int, target: int) {
    if exists j :: 0 <= j < cursor && j < |text| && text[j] == RETURN_CHAR
    then
      && 0 <= target < cursor && target < |text| && text[target] == RETURN_CHAR
      && forall j :: target < j < cursor && j < |text| ==> text[j] != RETURN_CHAR
    else target == cursor
  }

  function UpTarget(text: Text, cursor: nat): (r: nat)
    requires cursor <= |text|
    ensures r <= cursor && IsUp(text, cursor, r)
  {
    LastReturn(text, cursor, cursor)
  }

  function LastReturn(text: Text, i: nat, otherwise: nat): (r: nat)
    requires i <= |text|
    ensures if exists j :: 0 <= j < i && text[j] == RETURN_CHAR
            then r < i && text[r] == RETURN_CHAR && forall j :: r < j < i ==> text[j] != RETURN_CHAR
            else r == otherwise
  {
    if i == 0 then otherwise
    else if text[i - 1] == RETURN_CHAR then i - 1
    else LastReturn(text, i - 1, otherwise)
  }

  /** Just past the first Return at or after the cursor, or the cursor. */
  ghost predicate IsDown(text: Text, cursor: nat, target: nat) {
    if exists j :: cursor <= j < |text| && text[j] == RETURN_CHAR
    then
      && cursor < target <= |text| && text[target - 1] == RETURN_CHAR
      && forall j :: cursor <= j < target - 1 ==> text[j] != RETURN_CHAR
    else target == cursor
  }

  /** Down goes just past the first Return at or after the cursor, if any. */
  function DownTarget(text: Text, cursor: nat): (r: nat)
    requires cursor <= |text|
    ensures cursor <= r <= |text| && IsDown(text, cursor, r)
  {
    var f := FirstReturn(text, cursor);
    if f.Some? then f.value + 1 else cursor
  }

  /** move_up, with its search loop. */
  method MoveUp(text: Text, cursor: nat) returns (target: nat)
    requires cursor <= |text|
    ensures IsUp(text, cursor, target)
    ensures target == UpTarget(text, cursor)
  {
    target := cursor;
    var posr := FirstReturn(text, 0);
    while posr.Some?
      invariant target == cursor
      invariant posr.Some? ==> posr.value < |text| && text[posr.value] == RETURN_CHAR
      invariant posr.Some? && cursor <= posr.value ==> forall j :: 0 <= j < cursor ==> text[j] != RETURN_CHAR
      invariant posr.None? ==> forall j :: 0 <= j < cursor ==> text[j] != RETURN_CHAR
      decreases if posr.Some? then |text| - posr.value else 0
    {
      if cursor > posr.value {
        var next := FirstReturn(text, posr.value + 1);
        if next.None? || !(cursor > next.value) {
          target := posr.value;
          break;
        }
        posr := next;
      } else {
        break;
      }
    }
  }

  /** move_down, with its search loop. */
  method MoveDown(text: Text, cursor: nat) returns (target: nat)
    requires cursor <= |text|
    ensures IsDown(text, cursor, target)
    ensures target == DownTarget(text, cursor)
  {
    target := cursor;
    var posr := FirstReturn(text, 0);
    while posr.Some?
      invariant target == cursor
      invariant posr.Some? ==> posr.value < |text| && text[posr.value] == RETURN_CHAR
      invariant forall j :: cursor <= j < (if posr.Some? then posr.value else |text|) ==> text[j] != RETURN_CHAR
      decreases if posr.Some? then |text| - posr.value else 0
    {
      if cursor <= posr.value {
        target := posr.value + 1;
        break;
      }
      posr := FirstReturn(text, posr.value + 1);
    }
  }

  // ---------- Serials and pending deletes ----------

  /** Not ignored as stale by commit_string and preedit_string. */
  predicate Accepts(e: Entry, serial: uint32) {
    ToUint32(e.serial - serial) <= ToUint32(e.serial - e.resetSerial)
  }

  /** The unsigned range test of text_input_delete_surrounding_text. */
  predicate AcceptsDelete(e: Entry, index: int32, length: uint32) {
    var deleteIndex := ToUint32(e.cursor + index);
    !(deleteIndex > |e.text| || length > |e.text| || ToUint32(deleteIndex + length) > |e.text|)
  }

  // ---------- Events ----------

  datatype Key = BackSpace | Delete | Left | Right | Up | Down | Escape | Char(utf8: Text) | NoChar

  datatype Keysym = SymLeft | SymRight | SymUp | SymDown | SymBackSpace | SymTab | SymReturn | SymOther

  datatype Event =
    | KeyPressed(key: Key, shift: bool)
    | InputKeysym(keysym: Keysym, released: bool, withShift: bool)
    | CopyCut(cut: bool)
    | Paste(pasted: Text)
    | CommitString(commitSerial: uint32, committed: Text)
    | PreeditString(preeditSerial: uint32, shown: Text, commitText: Text)
    | DeleteSurrounding(index: int32, length: uint32)
    | CursorPosition(cursorOffset: int32, anchorOffset: int32)
    | Enter
    | Leave

  predicate NulFree(ev: Event) {
    match ev
    case KeyPressed(key, _) => key.Char? ==> 0 !in key.utf8
    case Paste(t) => 0 !in t
    case CommitString(_, t) => 0 !in t
    case PreeditString(_, t, c) => 0 !in t && 0 !in c
    case _ => true
  }

  /** The event runs a pending delete. */
  predicate RunsDelete(e: Entry, ev: Event) {
    && ((ev.CommitString? && Accepts(e, ev.commitSerial)) || (ev.PreeditString? && Accepts(e, ev.preeditSerial)))
    && !e.pending.invalidDelete && e.pending.deleteLength != 0
  }

  /** The event does not trip an assertion. */
  predicate NoAbort(e: Entry, ev: Event) {
    RunsDelete(e, ev) ==> DeleteAssertions(e.text, e.pending.deleteIndex, e.pending.deleteLength)
  }

  lemma AssertionsMeanInRange(text: Text, index: uint32, length: uint32)
    ensures DeleteAssertions(text, index, length) <==> index + length <= |text| && index + length < TWO_32
  {
  }

  function KeyStep(e: Entry, key: Key, shift: bool): (r: Entry)
    requires e.Sane() && (key.Char? ==> 0 !in key.utf8)
    ensures r.Sane()
  {
    var c := CommittedAndReset(e);
    match key
    case BackSpace =>
      var p := PrevChar(c.text, c.cursor);
      if p.Some? then Deleted(c, p.value, c.cursor - p.value) else c
    case Delete =>
      var n := NextChar(c.text, c.cursor);
      if n.Some? then Deleted(c, c.cursor, n.value - c.cursor) else c
    case Left =>
      var p := PrevChar(c.text, c.cursor);
      if p.Some? then WithCursor(c, p.value, shift) else c
    case Right =>
      var n := NextChar(c.text, c.cursor);
      if n.Some? then WithCursor(c, n.value, shift) else c
    case Up => WithCursor(c, UpTarget(c.text, c.cursor), shift)
    case Down => WithCursor(c, DownTarget(c.text, c.cursor), shift)
    case Escape => e
    case NoChar => e
    case Char(t) => Inserted(c, t, 0, 0)
  }

  function KeysymStep(e: Entry, keysym: Keysym, released: bool, shift: bool): (r: Entry)
    requires e.Sane()
    ensures r.Sane()
  {
    if !released then e
    else
      match keysym
      case SymLeft => WithCursor(e, PrevChar(e.text, e.cursor).Or(e.cursor), shift)
      case SymRight => WithCursor(e, NextChar(e.text, e.cursor).Or(e.cursor), shift)
      case SymUp => WithCursor(e, UpTarget(e.text, e.cursor), shift)
      case SymDown => WithCursor(e, DownTarget(e.text, e.cursor), shift)
      case SymBackSpace =>
        var c := CommittedAndReset(e);
        var p := PrevChar(c.text, c.cursor);
        if p.Some? then Deleted(c, p.value, NextChar(c.text, p.value).value - p.value) else c
      case SymTab => Inserted(e, [TAB_CHAR], 0, 0)
      case SymReturn => Inserted(e, [RETURN_CHAR], 0, 0)
      case SymOther => e
  }

  /** The part commit_string and preedit_string share. */
  function PendingDeleted(e: Entry): (r: Entry)
    requires e.Sane()
    requires e.pending.deleteLength != 0 ==>
               DeleteAssertions(e.text, e.pending.deleteIndex, e.pending.deleteLength)
    ensures r.Sane()
  {
    if e.pending.deleteLength != 0 then Deleted(e, e.pending.deleteIndex, e.pending.deleteLength)
    else SelectionDeleted(e)
  }

  function CommitStep(e: Entry, serial: uint32, t: Text): Entry
    requires e.Sane() && 0 !in t && NoAbort(e, CommitString(serial, t))
  {
    if !Accepts(e, serial) then e
    else if e.pending.invalidDelete then e.(pending := NO_PENDING)
    else
      var cleared := PendingDeleted(e.(preedit := None, commit := None));
      Inserted(cleared, t, e.pending.cursor, e.pending.anchor).(pending := NO_PENDING)
  }

  function PreeditStep(e: Entry, serial: uint32, t: Text, commit: Text): Entry
    requires e.Sane() && NoAbort(e, PreeditString(serial, t, commit))
  {
    if !Accepts(e, serial) || e.pending.invalidDelete then e.(pending := NO_PENDING)
    else Updated(PendingDeleted(e).(preedit := Some(t), commit := Some(commit), pending := NO_PENDING))
  }

  function DeleteStep(e: Entry, index: int32, length: uint32): Entry {
    e.(pending := e.pending.(deleteIndex := ToUint32(e.cursor + index), deleteLength := length,
                             invalidDelete := !AcceptsDelete(e, index, length)))
  }

  function CopyCutStep(e: Entry, cut: bool): Entry
    requires e.Sane()
  {
    if e.cursor == e.anchor then e
    else
      var start, end := Min(e.cursor, e.anchor), Max(e.cursor, e.anchor);
      var copied := e.(selected := e.text[start..end]);
      if cut then Deleted(copied, start, end - start) else copied
  }

  function Step(e: Entry, ev: Event): Entry
    requires e.Sane() && NulFree(ev) && NoAbort(e, ev)
  {
    match ev
    case KeyPressed(key, shift) => KeyStep(e, key, shift)
    case InputKeysym(keysym, released, shift) => KeysymStep(e, keysym, released, shift)
    case CopyCut(cut) => CopyCutStep(e, cut)
    case Paste(t) => Inserted(e, t, 0, 0)
    case CommitString(serial, t) => CommitStep(e, serial, t)
    case PreeditString(serial, t, commit) => PreeditStep(e, serial, t, commit)
    case DeleteSurrounding(index, length) => DeleteStep(e, index, length)
    case CursorPosition(cursor, anchor) => e.(pending := e.pending.(cursor := cursor, anchor := anchor))
    case Enter =>
      var updated := Updated(e);
      updated.(resetSerial := updated.serial, resetAt := |updated.sent|)
    case Leave => CommittedAndReset(e)
  }
}
