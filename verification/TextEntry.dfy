/** The text entry of clients/editor.c as the program keeps it: one object whose
    fields the event handlers overwrite.  Every handler is proved to take the
    entry through the step Editor.Step gives for its event. */
module TextEntry {
  import opened CInt
  import opened Options
  import opened Utf8
  import opened Editor

  class TextEntry {
    var text: Text
    var cursor: int
    var anchor: int
    var preedit: Option<Text>
    var commit: Option<Text>
    var pending: Pending
    var serial: uint32
    var resetSerial: uint32
    var selected: Text
    ghost var sent: seq<Update>
    ghost var resetAt: nat

    ghost function View(): Entry
      reads this
    {
      Entry(text, cursor, anchor, preedit, commit, pending, serial, resetSerial, selected, sent, resetAt)
    }

    /** text_entry_create */
    constructor (initial: Text)
      requires 0 !in initial
      ensures View() == Entry(initial, |initial|, |initial|, None, None, NO_PENDING, 0, 0, [], [], 0)
      ensures View().Sane()
    {
      text, cursor, anchor := initial, |initial|, |initial|;
      preedit, commit, pending := None, None, NO_PENDING;
      serial, resetSerial, selected := 0, 0, [];
      sent, resetAt := [], 0;
    }

    method SendUpdate()
      modifies this
      ensures View() == Updated(old(View()))
    {
      serial := ToUint32(serial + 1);
      sent := sent + [Update(text, cursor, anchor, serial)];
    }

    method InsertAtCursor(t: Text, cursorOffset: int, anchorOffset: int)
      requires View().Sane() && 0 !in t
      modifies this
      ensures View() == Inserted(old(View()), t, cursorOffset, anchorOffset)
    {
      text := text[..cursor] + t + text[cursor..];
      if anchorOffset >= 0 {
        anchor := cursor + |t| + anchorOffset;
      } else {
        anchor := cursor + 1 + anchorOffset;
      }
      if cursorOffset >= 0 {
        cursor := cursor + |t| + cursorOffset;
      } else {
        cursor := cursor + 1 + cursorOffset;
      }
      SendUpdate();
    }

    method DeleteText(index: nat, length: nat)
      requires View().Sane() && index + length <= |text|
      modifies this
      ensures View() == Deleted(old(View()), index, length)
    {
      text := text[..index] + text[index + length..];
      if cursor > index + length {
        cursor := cursor - length;
      } else if cursor > index {
        cursor := index;
      }
      anchor := cursor;
      SendUpdate();
    }

    method DeleteSelectedText()
      requires View().Sane()
      modifies this
      ensures View() == SelectionDeleted(old(View()))
    {
      var startIndex := if anchor < cursor then anchor else cursor;
      var endIndex := if anchor < cursor then cursor else anchor;
      if anchor == cursor {
        return;
      }
      DeleteText(startIndex, endIndex - startIndex);
      anchor := cursor;
    }

    method ResetPreedit()
      modifies this`preedit, this`commit
      ensures View() == old(View()).(preedit := None, commit := None)
    {
      preedit, commit := None, None;
    }

    method CommitAndReset()
      requires View().Sane()
      modifies this
      ensures View() == CommittedAndReset(old(View()))
    {
      var committed := commit;
      ResetPreedit();
      if committed.Some? {
        InsertAtCursor(committed.value, 0, 0);
      }
      SendUpdate();
      resetSerial := serial;
      resetAt := |sent|;
    }

    method DeletePending()
      requires View().Sane()
      requires pending.deleteLength != 0 ==> DeleteAssertions(text, pending.deleteIndex, pending.deleteLength)
      modifies this
      ensures View() == PendingDeleted(old(View()))
    {
      if pending.deleteLength != 0 {
        DeleteText(pending.deleteIndex, pending.deleteLength);
      } else {
        DeleteSelectedText();
      }
    }

    method HandleCommitString(commitSerial: uint32, t: Text)
      requires View().Sane() && 0 !in t && NoAbort(View(), CommitString(commitSerial, t))
      modifies this
      ensures View() == Step(old(View()), CommitString(commitSerial, t))
    {
      if ToUint32(serial - commitSerial) > ToUint32(serial - resetSerial) {
        return;
      }
      if pending.invalidDelete {
        pending := NO_PENDING;
        return;
      }
      ResetPreedit();
      DeletePending();
      InsertAtCursor(t, pending.cursor, pending.anchor);
      pending := NO_PENDING;
    }

    method HandlePreeditString(preeditSerial: uint32, t: Text, commitText: Text)
      requires View().Sane() && 0 !in t && 0 !in commitText
      requires NoAbort(View(), PreeditString(preeditSerial, t, commitText))
      modifies this
      ensures View() == Step(old(View()), PreeditString(preeditSerial, t, commitText))
    {
      if ToUint32(serial - preeditSerial) > ToUint32(serial - resetSerial) {
        pending := NO_PENDING;
        return;
      }
      if pending.invalidDelete {
        pending := NO_PENDING;
        return;
      }
      DeletePending();
      ResetPreedit();
      preedit := Some(t);
      commit := Some(commitText);
      pending := NO_PENDING;
      SendUpdate();
    }

    method HandleDeleteSurrounding(index: int32, length: uint32)
      requires View().Sane()
      modifies this`pending
      ensures View() == Step(old(View()), DeleteSurrounding(index, length))
    {
      var deleteIndex := ToUint32(cursor + index);
      pending := pending.(deleteIndex := deleteIndex, deleteLength := length, invalidDelete := false);
      if deleteIndex > |text| || length > |text| || ToUint32(deleteIndex + length) > |text| {
        pending := pending.(invalidDelete := true);
      }
    }

    method HandleCursorPosition(cursorOffset: int32, anchorOffset: int32)
      requires View().Sane()
      modifies this`pending
      ensures View() == Step(old(View()), CursorPosition(cursorOffset, anchorOffset))
    {
      pending := pending.(cursor := cursorOffset, anchor := anchorOffset);
    }

    method MoveCursor(target: Option<nat>, extend: bool)
      modifies this`cursor, this`anchor
      ensures View() == WithCursor(old(View()), if target.Some? then target.value else old(cursor), extend)
    {
      if target.Some? {
        cursor := target.value;
      }
      if !extend {
        anchor := cursor;
      }
    }

    /** The BackSpace and Delete branches of key_handler. */
    method BackSpaceKey(ghost shift: bool)
      requires View().Sane()
      modifies this
      ensures View() == KeyStep(old(View()), BackSpace, shift)
    {
      CommitAndReset();
      var p := ScanPrevChar(text, cursor);
      if p.Some? {
        DeleteText(p.value, cursor - p.value);
      }
    }

    method DeleteKey(ghost shift: bool)
      requires View().Sane()
      modifies this
      ensures View() == KeyStep(old(View()), Delete, shift)
    {
      CommitAndReset();
      var n := ScanNextChar(text, cursor);
      if n.Some? {
        DeleteText(cursor, n.value - cursor);
      }
    }

    /** key_handler, after the copy, cut and paste bindings. */
    method HandleKey(key: Key, shift: bool)
      requires View().Sane() && (key.Char? ==> 0 !in key.utf8)
      modifies this
      ensures View() == Step(old(View()), KeyPressed(key, shift))
    {
      match key
      case BackSpace => BackSpaceKey(shift);
      case Delete => DeleteKey(shift);
      case Left =>
        CommitAndReset();
        var p := ScanPrevChar(text, cursor);
        if p.Some? {
          MoveCursor(p, shift);
        }
      case Right =>
        CommitAndReset();
        var n := ScanNextChar(text, cursor);
        if n.Some? {
          MoveCursor(n, shift);
        }
      case Up =>
        CommitAndReset();
        var target := MoveUp(text, cursor);
        MoveCursor(Some(target), shift);
      case Down =>
        CommitAndReset();
        var target := MoveDown(text, cursor);
        MoveCursor(Some(target), shift);
      case Escape =>
      case NoChar =>
      case Char(t) =>
        CommitAndReset();
        InsertAtCursor(t, 0, 0);
    }

    /** The BackSpace branch of text_input_keysym. */
    method EraseBeforeCursor(ghost shift: bool)
      requires View().Sane()
      modifies this
      ensures View() == KeysymStep(old(View()), SymBackSpace, true, shift)
    {
      CommitAndReset();
      var start := ScanPrevChar(text, cursor);
      if start.Some? {
        var end := ScanNextChar(text, start.value);
        DeleteText(start.value, end.value - start.value);
      }
    }

    /** text_input_keysym */
    method HandleKeysym(keysym: Keysym, released: bool, shift: bool)
      requires View().Sane()
      modifies this
      ensures View() == Step(old(View()), InputKeysym(keysym, released, shift))
    {
      if !released {
        return;
      }
      match keysym
      case SymLeft =>
        var p := ScanPrevChar(text, cursor);
        MoveCursor(p, shift);
      case SymRight =>
        var n := ScanNextChar(text, cursor);
        MoveCursor(n, shift);
      case SymUp =>
        var target := MoveUp(text, cursor);
        MoveCursor(Some(target), shift);
      case SymDown =>
        var target := MoveDown(text, cursor);
        MoveCursor(Some(target), shift);
      case SymBackSpace => EraseBeforeCursor(shift);
      case SymTab => InsertAtCursor([TAB_CHAR], 0, 0);
      case SymReturn => InsertAtCursor([RETURN_CHAR], 0, 0);
      case SymOther =>
    }

    method HandleCopyCut(cut: bool)
      requires View().Sane()
      modifies this
      ensures View() == Step(old(View()), CopyCut(cut))
    {
      if cursor != anchor {
        var startIndex, endIndex := Min(cursor, anchor), Max(cursor, anchor);
        selected := text[startIndex..endIndex];
        if cut {
          DeleteText(startIndex, endIndex - startIndex);
        }
      }
    }

    method HandlePaste(pasted: Text)
      requires View().Sane() && 0 !in pasted
      modifies this
      ensures View() == Step(old(View()), Paste(pasted))
    {
      InsertAtCursor(pasted, 0, 0);
    }

    method HandleEnter()
      requires View().Sane()
      modifies this
      ensures View() == Step(old(View()), Enter)
    {
      SendUpdate();
      resetSerial := serial;
      resetAt := |sent|;
    }

    method HandleLeave()
      requires View().Sane()
      modifies this
      ensures View() == Step(old(View()), Leave)
    {
      CommitAndReset();
    }
  }
}
