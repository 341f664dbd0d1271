# Algorithms and protocols of the Weston clients, verified

A Dafny model of the parts of Weston's demo clients that keep state over long
event runs or compute something intricate, and proofs of what they promise.
`dafny verify dfyconfig.toml` checks everything.

Every client is modelled twice where it changes state: as a value with a `Step`
function over its events, about which the invariants and theorems are proved
for all runs, and as a class with the client's fields and loops, whose methods
are proved to make exactly that step. What an event means is stated apart from
`Step`, on the text around the cursor, on the surface as the compositor shows
it, or over runs (`EditorMeaning`, `EglMeaning`, `SimpleImRuns`, `DesktopRuns`).
Automatic induction is off: every induction is written out. C's `uint32_t`
arithmetic wraps explicitly (`CInt`), doubles and floats are reals, and requests
to the compositor, to Vulkan or to the drawing library are logged or passed as
parameters.

| part | files | subject |
|---|---|---|
| text | Utf8, Editor, EditorTheorems, EditorMeaning, TextEntry | the editor's buffer, cursors, pending deletes and wrapping serial window |
| keyboard | KeyboardLayout, KeyboardMirror | key hit test against key drawing; the keyboard's optimistic copy of the editor's text over two FIFO channels |
| input method | SimpleIm, SimpleImRuns | compose sequences looked up by prefix with a binary search |
| painting | Bounce, Painting, Transforms, SimpleDamage, Constraints, ShmPainting | the bouncing ball, the eight buffer transforms, damage and the picture shown under all of them, three pool buffers behaving as one canvas |
| buffers | SimpleShm, SimpleEgl, EglMeaning, DmabufVulkan, DmabufFeedback | a growing and pruned buffer list, the cached buffer geometry, fences and semaphores, double-buffered feedback |
| shell | DesktopShell, DesktopRuns, DesktopObjects, IviCommand | ownership hand-over between outputs, who gets a panel and a background, tokenising in place |
| animation | Resizor | convergence and wake-ups of two springs |

## What the code does differently

Each of these is a theorem with the exact condition, or a concrete run:

- The serial window judges every update ever sent correctly iff at most 2^32
  updates were sent in all; fewer than 2^32 since the last reset is not enough
  (`AllEchoesJudgedIff`).
- An accepted surrounding-text delete is kept when the text changes under it;
  the commit that runs it trips an assertion iff the text got too short for the
  range (`PendingDeleteAbortsIff`, `EditedDeleteAbortsIff`).
- The unsigned test of such a delete is exact iff the text is shorter than 2^31
  bytes (`DeleteTestExactIff`).
- The loop that bounces the ball reverses the velocity once per turn, although
  one turn may reflect at both walls; the direction is right iff the number of
  walls passed is 0 or 1 modulo 4 on one side, 1 or 2 on the other
  (`DirectionRightIff`).
- A key press that animates a maximized window sets a target and arms no frame
  callback (`AwakeKeptIff`, `MaximizedKeyStalls`).
- The compose table that is shipped is not sorted; two of its eighteen entries
  cannot be typed (`ShippedTypedIff`, `ShippedNeverCommits`). A key without a
  symbol can complete a sequence (`NoSymbolCommitsIff`).
- While the size stays, each redraw that follows a configure adds two buffers to
  the list of simple-shm and nothing removes one (`GrowsByTwoPerUpdate`), so the
  list is not bounded (`RepeatedSizeGrows`).
- The trail of lines is torn by a locked pointer and by one that passes the
  coordinate -1, which reads as "no pen" (`TrailConnectedIff`,
  `LockedDrawKeepsPenIff`, `UnlockedDrawKeepsTidyIff`).
- After the fractional scale goes back to zero an old viewport destination stays
  in force (`StaleDestinationIff`).
- The teardown of a Vulkan buffer destroys one semaphore twice iff the buffer is
  idle and has a release semaphore (`TeardownDestroysOnceIff`).
- A feedback batch without a table and without formats loses the format table
  (`UntouchedTableLost`); a second table in a batch is never unmapped
  (`BatchLeaksIff`).
- A panel whose output has no background is destroyed with the output even if a
  clone could take it over (`SurvivesIff`).

## Model

| member | source | states |
|---|---|---|
| Utf8.BoundaryIff | clients/editor.c:97-121 | on well-formed UTF-8 (section 4 of RFC 3629) the test of the top two bits finds exactly the character boundaries |
| Utf8.NextIsNearestBoundary | clients/editor.c:115-121 | the next-character walk ends at the nearest boundary to the right, and fails exactly at the end of the text |
| Utf8.PrevIsNearestBoundary | clients/editor.c:105-113 | the previous-character walk ends at the nearest boundary to the left, and fails exactly at the start |
| Utf8.NextPrevInverse | clients/editor.c:105-121 | next and previous character are inverse on boundaries |
| Utf8.PrevOfInserted | clients/editor.c:105-113 | after one character was spliced in, the walk back from its end returns to its start, whatever surrounds it |
| Utf8.SplitWellFormed | clients/editor.c:97-121 | a cut at a boundary leaves two well-formed texts |
| Utf8.JoinWellFormed | clients/editor.c:914-942 | joined well-formed texts are well formed, with a boundary at the seam |
| Utf8.SpliceWellFormed | clients/editor.c:914-942 | splicing a well-formed text in at a boundary keeps the text well formed and its end a boundary |
| Utf8.CutWellFormed | clients/editor.c:1073-1100 | removing the text between two boundaries keeps the rest well formed |
| Utf8.CutKeepsBoundary | clients/editor.c:1073-1100 | a boundary outside a removed range is one after the removal |
| Utf8.ScanEndChar | clients/editor.c:97-103 | the byte loop computes the specified end of the character |
| Utf8.ScanPrevChar | clients/editor.c:105-113 | the backward byte loop computes the specified previous character |
| Utf8.ScanNextChar | clients/editor.c:115-121 | the forward byte loop computes the specified next character |
| Editor.MoveUp | clients/editor.c:123-144 | the search loop ends at the last Return before the cursor, or stays if there is none |
| Editor.MoveDown | clients/editor.c:146-162 | the search loop ends just past the first Return at or after the cursor, or stays |
| Editor.UpTarget | clients/editor.c:123-144 | the value the event model uses for Up is the last Return before the cursor |
| Editor.DownTarget | clients/editor.c:146-162 | the value the event model uses for Down is just past the first Return at or after the cursor |
| Editor.AssertionsMeanInRange | clients/editor.c:1079-1081 | the three unsigned assertions of the deletion hold exactly for a range inside the text whose end does not wrap |
| EditorTheorems.StepGood | clients/editor.c:389-474 | every key, keysym, commit, pre-edit, delete, cut or paste event, also while a surrounding-text delete is pending, keeps the text well formed, cursor and anchor on boundaries inside it, and trips no assertion, if a delete that is run fits the text at that moment |
| EditorTheorems.RunGood | clients/editor.c:1395-1491 | the same over every run of such events |
| EditorTheorems.InsertThenBackSpace | clients/editor.c:1395-1491 | typing one character and pressing BackSpace, on either keyboard path, restores text and cursor, after any pending pre-edit was committed |
| EditorTheorems.LeftRightInverse | clients/editor.c:1440-1461 | Left then Right, and Right then Left, return the cursor wherever the first one moved, pre-edit pending or not |
| EditorTheorems.UpThenDown | clients/editor.c:123-162 | Down after an Up that moved lands just past the Return that Up found |
| EditorTheorems.CutThenPaste | clients/editor.c:620-660 | cutting a selection and pasting it back restores the text |
| EditorTheorems.AcceptsDeleteIff | clients/editor.c:281-304 | for texts below 2^31 bytes the unsigned test accepts a range iff it lies in the text, in unbounded integers |
| EditorTheorems.DeleteTestExactIff | clients/editor.c:281-304 | below 2^32 bytes the test is exact for every range if and only if the text is shorter than 2^31 bytes |
| EditorTheorems.HugeTextAcceptsNegative | clients/editor.c:281-304 | with 2^31 bytes or more after the cursor, a range that starts before the text is accepted |
| EditorTheorems.HugeTextAcceptsOverlong | clients/editor.c:281-304 | in other texts of 2^31 bytes or more, a range that ends far behind the text is accepted |
| EditorTheorems.DeleteThenCommit | clients/editor.c:188-225 | an accepted nonempty delete followed by a commit on the unchanged text trips no assertion, removes exactly the range, and splices the string at the adjusted cursor |
| EditorTheorems.RefusedDeleteIgnoresCommit | clients/editor.c:202-206 | after a refused delete and any edits the next accepted commit leaves text and cursor alone and forgets the delete |
| EditorTheorems.PendingDeleteAbortsIff | clients/editor.c:1079-1081 | an accepted delete that is still pending is run without tripping an assertion if and only if the text still reaches to the end of its range |
| EditorTheorems.EditedDeleteAbortsIff | clients/editor.c:209-222 | the same over every run of key, clipboard and focus events between the delete and the commit that answers the state they lead to |
| EditorTheorems.StaleDeleteAborts | clients/editor.c:1079-1081 | such a run exists: a concrete one trips an assertion |
| EditorTheorems.StepTracks | clients/editor.c:886-976 | every event keeps the serial equal to the wrapped number of updates sent, and the reset serial that of the last reset |
| EditorTheorems.RunTracks | clients/editor.c:886-976 | the same over every run that meets no failing assertion, of texts in any encoding |
| EditorTheorems.SerialWindow | clients/editor.c:196-200 | despite wrap-around, an echo less than 2^32 updates old is accepted iff it was issued at or after the last reset |
| EditorTheorems.AllEchoesJudgedIff | clients/editor.c:249-254 | with fewer than 2^32 updates since the reset, every update ever sent is judged correctly iff at most 2^32 were sent in all |
| EditorMeaning.CommitsPending | clients/editor.c:958-976 | a commit and reset puts the pending string in at the cursor, moves cursor and anchor behind it, reports exactly that in the last update, and starts the serial window there |
| EditorMeaning.LeaveCommits | clients/editor.c:476-509 | so does losing the focus; gaining it reports the entry as it is and starts the serial window |
| EditorMeaning.EndsInChars | clients/editor.c:97-121 | a non-empty well-formed text starts and ends with one whole character, so the cases of the key rows are exhaustive |
| EditorMeaning.TypingInserts | clients/editor.c:1480-1487 | a typed text stands behind the pending string, before what followed the cursor |
| EditorMeaning.KeysymInserts | clients/editor.c:460-473 | the keysyms Tab and Return insert one byte at the cursor, before what is pending |
| EditorMeaning.PasteInserts | clients/editor.c:600-618 | so does a paste, and neither touches the pending string |
| EditorMeaning.BackSpaceRemoves | clients/editor.c:1422-1430 | BackSpace, as a key or a keysym, removes the character before the cursor, be it part of the pending string, and reports it |
| EditorMeaning.DeleteRemoves | clients/editor.c:1431-1439 | Delete removes the character behind the cursor, keeps what is before it with the pending string, and reports it |
| EditorMeaning.BackSpaceAtStart | clients/editor.c:436-454 | at the start BackSpace only commits what is pending |
| EditorMeaning.DeleteAtEnd | clients/editor.c:1431-1439 | at the end Delete only commits what is pending |
| EditorMeaning.LeftMoves | clients/editor.c:1440-1450 | Left steps before the character in front of the cursor, for keys behind the pending string; without shift the anchor follows, with it the anchor stays |
| EditorMeaning.RightMoves | clients/editor.c:1451-1461 | Right steps behind the character after the cursor; the anchor likewise |
| EditorMeaning.MovesAtTheEnds | clients/editor.c:400-417 | at the ends a key leaves the selection alone and a keysym without shift drops it |
| EditorMeaning.UpMoves | clients/editor.c:1462-1469 | Up goes before the last Return in front of the cursor, without one nowhere |
| EditorMeaning.DownMoves | clients/editor.c:1470-1477 | Down goes behind the next Return, without one nowhere |
| EditorMeaning.OtherKeysKeep | clients/editor.c:1478-1482 | Escape, keys without text, other keysyms and keysyms not released change nothing, and do not commit what is pending |
| EditorMeaning.MovesKeepText | clients/editor.c:400-434 | no movement changes a byte beyond the pending string |
| EditorMeaning.CopyCutTakes | clients/editor.c:620-652 | copying takes exactly the selection, cutting also removes it and reports that |
| EditorMeaning.CommitReplaces | clients/editor.c:188-225 | an accepted commit takes the place of the pending delete or else of the selection; its offsets count from its end, negative ones from its start |
| EditorMeaning.PreeditReplaces | clients/editor.c:240-279 | an accepted pre-edit removes that range, moves the cursor along, reports it, and waits with its own commit string |
| EditorMeaning.UnheededKeeps | clients/editor.c:188-206 | a stale or cancelled commit or pre-edit changes nothing but what was pending |
| EditorMeaning.PreeditThenTyping | clients/editor.c:240-279 | composing and then typing on leaves the pre-edit's commit string and the typed text, in this order, where the range was |
| EditorMeaning.OffsetsThenCommit | clients/editor.c:306-316 | announced offsets place cursor and anchor of the next commit, each its own |
| TextEntry.TextEntry.constructor | clients/editor.c:697-722 | a new entry holds the initial text with the cursor at its end |
| TextEntry.TextEntry.SendUpdate | clients/editor.c:886-912 | an update advances the serial modulo 2^32 and reports the text and cursors |
| TextEntry.TextEntry.InsertAtCursor | clients/editor.c:914-942 | the field updates make exactly the insertion of the event model |
| TextEntry.TextEntry.DeleteText | clients/editor.c:1073-1100 | the deletion with its cursor adjustments is that of the event model |
| TextEntry.TextEntry.DeleteSelectedText | clients/editor.c:1102-1114 | the selection, in either direction, is removed |
| TextEntry.TextEntry.CommitAndReset | clients/editor.c:959-976 | the pending commit string goes in and the reset serial moves up |
| TextEntry.TextEntry.HandleCommitString | clients/editor.c:188-225 | the handler makes exactly the modelled step |
| TextEntry.TextEntry.HandlePreeditString | clients/editor.c:240-279 | the handler makes exactly the modelled step |
| TextEntry.TextEntry.HandleDeleteSurrounding | clients/editor.c:281-304 | the handler makes exactly the modelled step |
| TextEntry.TextEntry.HandleCursorPosition | clients/editor.c:306-316 | the handler makes exactly the modelled step |
| TextEntry.TextEntry.HandleKey | clients/editor.c:1395-1491 | every key branch makes exactly the modelled step |
| TextEntry.TextEntry.HandleKeysym | clients/editor.c:389-474 | every keysym branch makes exactly the modelled step |
| TextEntry.TextEntry.HandleCopyCut | clients/editor.c:620-652 | copying keeps, cutting removes, exactly the selection |
| TextEntry.TextEntry.HandlePaste | clients/editor.c:600-618 | the pasted text goes in at the cursor |
| TextEntry.TextEntry.HandleEnter | clients/editor.c:476-492 | entering sends an update and starts the serial window there |
| TextEntry.TextEntry.HandleLeave | clients/editor.c:494-509 | leaving commits and resets |
| KeyboardLayout.DrawKeys | clients/keyboard.c:392-400 | the drawing loop draws every key at the rectangle of its cell |
| KeyboardLayout.OffsetIsCell | clients/keyboard.c:392-400 | in a filled layout the row and column counters are the linear offset split into rows |
| KeyboardLayout.FindKey | clients/keyboard.c:693-699 | the subtracting loop finds the key that owns the linear cell |
| KeyboardLayout.KeyAt | clients/keyboard.c:666-702 | the key under the pointer, inside the panel, is the only key whose drawn rectangle contains the point |
| KeyboardLayout.KeyTouched | clients/keyboard.c:704-733 | the same for touch, which truncates the position first |
| KeyboardLayout.CellAt | clients/keyboard.c:691-692 | the linear cell computed through doubles and truncation is row times columns plus column |
| KeyboardLayout.OwnerIsOnlyKey | clients/keyboard.c:693-699 | the owner of a point's cell is the only key drawn at the point |
| KeyboardLayout.RectanglesPartitionPanel | clients/keyboard.c:392-400 | a point is in the panel iff exactly one drawn rectangle contains it, and outside none does |
| KeyboardLayout.ShippedLayoutsFilled | clients/keyboard.c:103-245 | the normal, numeric and arabic tables fill their rows exactly |
| KeyboardMirror.VirtualKeyboard.InsertText | clients/keyboard.c:413-425 | splices a string at a byte offset |
| KeyboardMirror.VirtualKeyboard.CommitPreedit | clients/keyboard.c:427-456 | sends the pre-edit as a commit and splices it into the keyboard's own copy |
| KeyboardMirror.VirtualKeyboard.HandleTap | clients/keyboard.c:558-591 | a letter or space key changes the copy and sends the requests as modelled |
| KeyboardMirror.VirtualKeyboard.HandleEcho | clients/keyboard.c:757-839 | surrounding text replaces the copy, commit state the serial |
| KeyboardMirror.FirstUpdateSynchronizes | clients/editor.c:790-813 | after activation the editor's first update brings both processes into agreement |
| KeyboardMirror.CommitReceived | clients/editor.c:188-225 | a commit with a current serial goes in at the cursor, ends the pre-edit, and is answered by exactly one update with the new text and cursor |
| KeyboardMirror.PreeditReceived | clients/editor.c:240-279 | a pre-edit with a current serial is shown, answered by one update, and leaves text and cursor alone |
| KeyboardMirror.ActConsistent | clients/keyboard.c:427-456 | any press or delivery on either channel keeps the two processes consistent |
| KeyboardMirror.AgreeWhenQuiet | clients/keyboard.c:757-770 | over every interleaving, whenever both channels are empty the keyboard's copy equals the editor's text and cursor |
| KeyboardMirror.TapSettles | clients/keyboard.c:558-591 | one tap: once the editor has seen the requests it agrees with the optimistic update again; after a letter it shows the whole word so far as its pre-edit, after a space none |
| KeyboardMirror.TapsSettle | clients/keyboard.c:558-591 | any run of taps gives the same text and cursor through the optimistic update as through the editor's commit path |
| KeyboardMirror.NothingLost | clients/keyboard.c:522-535 | everything typed stays in the copy or the pre-edit, once and in order |
| KeyboardMirror.LettersGather | clients/keyboard.c:522-535 | letters change nothing but the pre-edit, which gathers them in order |
| KeyboardMirror.SpaceFlushes | clients/keyboard.c:427-456 | a space puts the whole pre-edit and itself into the copy at its cursor |
| KeyboardMirror.WordsCommitted | clients/keyboard.c:522-535 | after any taps, a space and letters, everything up to the space is in the copy and the letters since are the pre-edit |
| KeyboardMirror.WordsReachEditor | clients/keyboard.c:558-591 | the editor then holds exactly what was tapped up to the last space, in order, where its cursor was |
| Bounce.FoldMeaning | clients/simple-damage.c:217-258 | the triangle-wave fold lies in the arena and is the raw position, or its mirror image, moved by whole periods |
| Bounce.FoldReflectLow | clients/simple-damage.c:239-240 | reflecting at the low wall does not change the fold |
| Bounce.FoldReflectHigh | clients/simple-damage.c:241-242 | reflecting at the high wall does not change the fold |
| Bounce.Reflect | clients/simple-damage.c:237-245 | the loop terminates for ax1 < ax2, at the fold of the raw position, with the velocity's magnitude kept and its sign reversed as often as the distance to the first wall holds periods, rounded up |
| Bounce.TurnFolds | clients/simple-damage.c:237-245 | one turn of the loop keeps the fold |
| Bounce.TurnReversesOnce | clients/simple-damage.c:237-245 | one turn accounts for exactly one reversal |
| Bounce.TurnApproaches | clients/simple-damage.c:237-245 | every turn reduces the number of walls still to hit |
| Bounce.SingleOvershootReversesOnce | clients/simple-damage.c:237-245 | overshooting one wall by less than the arena reverses the velocity exactly once |
| Bounce.ReversalsFromCrossings | clients/simple-damage.c:237-245 | the number of reversals is half the number of walls passed: rounded up below the arena, rounded down and one more above it |
| Bounce.DirectionRightIff | clients/simple-damage.c:237-245 | for every position the direction comes out right iff the walls passed are 0 or 1 modulo 4 below the arena, 1 or 2 above it |
| Bounce.CrossingsGiveDirection | clients/simple-damage.c:237-245 | the walls passed are even on the rising branches of the fold and odd on the falling ones, so their parity is the right direction |
| Bounce.DoubleReflectionReversesOnce | clients/simple-damage.c:237-245 | overshooting the low wall by one to two arenas hits two walls but reverses once |
| Bounce.DegenerateArenaNeverSettles | clients/simple-damage.c:237-245 | with an empty or one-point arena the loop is never left |
| Painting.PaintBox | clients/simple-damage.c:421-430 | exactly the box is filled, all writes in bounds |
| Painting.PaintCircle | clients/simple-damage.c:432-442 | exactly the pixels whose centre lies in the disc are filled, all writes in bounds |
| Painting.DiscExtent | clients/simple-damage.c:432-442 | pixels of the disc lie within the radius of its centre on each axis |
| Painting.IndexOfCell | clients/simple-damage.c:421-442 | row-major indices identify their row and column |
| Transforms.Corners | clients/simple-damage.c:444-496 | for each transform the surface corner that lands at the buffer's origin and the one that lands at the end of its first row |
| Transforms.PlaceIsTurns | clients/simple-damage.c:444-496 | each transform is 0 to 3 copies of one quarter turn, after one mirroring for the flipped ones; point and buffer size |
| Transforms.PlaceUnplace | clients/simple-damage.c:444-496 | the compositor's map is its inverse both ways, and surface and buffer rectangle are each other's image |
| Transforms.PlaceKeepsDistance | clients/simple-damage.c:444-496 | no transform changes a distance |
| SimpleDamage.BallInBuffer | clients/simple-damage.c:444-496 | for all transforms and scales the disc and the border beside it lie inside the buffer |
| SimpleDamage.SurfaceCovered | clients/simple-damage.c:640-680 | the surface-coordinate damage rectangle, mapped to the buffer, covers every pixel near the transformed centre |
| SimpleDamage.DiscCovered | clients/simple-damage.c:631-680 | both kinds of damage cover every pixel of the disc, for all transforms and scales |
| SimpleDamage.DifferenceIsDamaged | clients/simple-damage.c:617-680 | a pixel that differs between two frames lies in the damage of the old or of the new ball |
| SimpleDamage.ConsecutiveFramesDamaged | clients/simple-damage.c:617-680 | the same for two whole buffers, as consecutive redraws leave them |
| SimpleDamage.DamageTight | clients/simple-damage.c:631-680 | the damage reaches nowhere farther from the ball's centre, on either axis, than one surface pixel beyond its radius |
| SimpleDamage.OnSurfacePlaced | clients/simple-damage.c:444-496 | drawing at the point where the compositor shows a pixel gives that pixel, for all transforms and scales |
| SimpleDamage.PixelsOnSurface | clients/simple-damage.c:514-616 | a pixel is in the buffer iff the compositor shows it on the window |
| SimpleDamage.DiscSeen | clients/simple-damage.c:617-652 | a pixel is in the disc drawn iff it is shown within the ball's radius of the ball |
| SimpleDamage.InteriorSeen | clients/simple-damage.c:617-629 | a pixel is translucent iff it is shown inside the borders of the window |
| SimpleDamage.FrameSeen | clients/simple-damage.c:617-652 | under every transform and scale the compositor shows the same picture: the green disc of the ball at the ball's place, on the translucent inside of the white border |
| SimpleDamage.FirstFrameWaits | clients/simple-damage.c:223-228 | the first frame takes the time and moves nothing |
| SimpleDamage.AdvancedMeaning | clients/simple-damage.c:217-258 | n milliseconds later, over a wrap of the clock or not, each coordinate has moved by its own speed times the seconds, folded into its own arena, and is untouched by walls it did not reach |
| SimpleDamage.BackgroundPainted | clients/simple-damage.c:617-629 | the four border boxes and the inside leave no old pixel |
| SimpleDamage.FramePainted | clients/simple-damage.c:617-652 | background and disc together show the frame |
| SimpleDamage.Travel | clients/simple-damage.c:237-245 | one coordinate's loop gives the closed form |
| SimpleDamage.Window.NextBuffer | clients/simple-damage.c:378-419 | the first idle buffer of the two |
| SimpleDamage.Window.AdvanceGame | clients/simple-damage.c:217-258 | the ball moves to the fold of its raw position on both axes and stays in the arena |
| SimpleDamage.Window.Paint | clients/simple-damage.c:617-652 | the buffer shows exactly the frame, whatever it held before |
| SimpleDamage.Window.Redraw | clients/simple-damage.c:514-707 | the picked buffer shows the advanced ball, the damage is that of the ball before and after, and the other buffer is untouched |
| Constraints.OffsetsApart | clients/constraints.c:620-646 | the three pictures in the pool do not overlap |
| Constraints.Surface.BufferRelease | clients/constraints.c:505-511 | a release frees exactly that buffer |
| Constraints.Surface.Note | clients/constraints.c:147-283 | the pointer handlers record the line and the flags as modelled |
| Constraints.Surface.GetBuffer | clients/constraints.c:531-596 | the buffer returned is free and shows the one canvas; none is returned iff all are held; no held picture changes |
| Constraints.Surface.Paint | clients/constraints.c:668-698 | a drawing on the current buffer is the same drawing on the canvas, and no held picture changes |
| Constraints.Surface.DrawPending | clients/constraints.c:700-727 | the pending reset and line are drawn once, in order |
| Constraints.Surface.Redraw | clients/constraints.c:700-727 | with a free buffer exactly what a single canvas would do, without one nothing; pictures the compositor holds stay |
| Constraints.EventsKeepPen | clients/constraints.c:147-271 | no pointer event takes the pen off the end of the trail |
| Constraints.DrawConnectedIff | clients/constraints.c:668-727 | a redraw tears the trail iff it draws a line while the pen is off the end of the trail and no fill is due |
| Constraints.UnlockedDrawKeepsTidyIff | clients/constraints.c:668-686 | a redraw with the pointer not locked takes the pen off the trail iff the trail ended at the coordinate -1 and the pointer moved on |
| Constraints.StepTidy | clients/constraints.c:261-271 | motion to any coordinates but -1, leaving and unlocked redraws keep the pending line attached to the trail |
| Constraints.TrailConnectedIff | clients/constraints.c:668-727 | over every run, locked or not and at any position, the trail is connected iff no redraw draws a line while the pen is off its end |
| Constraints.TrailConnected | clients/constraints.c:668-686 | however motion and redraws interleave, an unlocked pointer that is never at -1 leaves a connected trail, also outside the surface |
| Constraints.EveryRunConnected | clients/constraints.c:745-783 | the same from start-up |
| Constraints.MinusOneTearsTrail | clients/constraints.c:671 | a concrete run through the coordinate -1 whose trail is torn |
| Constraints.LockedDrawKeepsPenIff | clients/constraints.c:668-686 | a redraw with the pointer locked does not tear the trail itself, and leaves the pen at its end iff it draws no line or one that goes nowhere |
| Constraints.LockingTearsTrail | clients/constraints.c:147-161 | a concrete run with a locked pointer whose trail is torn |
| Constraints.FillHides | clients/constraints.c:668-698 | on the canvas a fill hides everything drawn before it and a stroke goes on top |
| Constraints.PolylineDrawn | clients/constraints.c:668-727 | from start-up, and again whenever the pointer left, the surface is filled once and then shows exactly the polyline through the places the pointer is redrawn at, in order |
| Constraints.LeavingStartsOver | clients/constraints.c:243-259 | leaving lifts the pen and wipes the surface at the next redraw |
| Constraints.MotionsCoalesce | clients/constraints.c:261-271 | of several motions before a redraw only the last counts |
| Constraints.LockedShowsOneLine | clients/constraints.c:147-161 | while locked each redraw wipes the surface and shows one line from the resting pen by the latest relative motion |
| Constraints.LockingRests | clients/constraints.c:167-189 | locking puts the pen where the pointer was |
| SimpleShm.PrunedExactly | clients/simple-shm.c:211-222 | pruning keeps exactly the held buffers of whatever size and those of the current size, each as often as before |
| SimpleShm.PrunedFacts | clients/simple-shm.c:211-222 | what pruning leaves is held or fits, with the mappings intact and as many buffers of the current size as before |
| SimpleShm.RedrawLeavesNoStale | clients/simple-shm.c:691-725 | after a redraw every free buffer fits the window, and no held buffer was dropped |
| SimpleShm.RedrawnLength | clients/simple-shm.c:691-725 | a redraw leaves all buffers of the current size, the held ones of other sizes, and two more of the current size iff a configure is due |
| SimpleShm.GrowsByTwoPerUpdate | clients/simple-shm.c:371-407 | over every run in which the size stays, the buffers of it never get fewer and grow by two with each redraw that follows a configure |
| SimpleShm.PreparedFits | clients/simple-shm.c:490-507 | after pruning and extension every free buffer fits the window and at least two of its size exist |
| SimpleShm.NoBufferMeansTwoHeld | clients/simple-shm.c:505-508 | finding no buffer means the compositor holds at least two of the current size |
| SimpleShm.PickedFits | clients/simple-shm.c:490-524 | the picked buffer was free, has exactly the window's dimensions, and its mapping exactly their size |
| SimpleShm.StepSound | clients/simple-shm.c:371-407 | configure, release and redraw keep every mapping at its buffer's size, and two buffers of the current size unless an update is due |
| SimpleShm.RunSound | clients/simple-shm.c:691-725 | the same over every run |
| SimpleShm.EveryRedrawFits | clients/simple-shm.c:691-725 | in every run a redraw either picks a free buffer of exactly the window's dimensions and mapped size, or finds at least two of the current size held by the compositor |
| SimpleShm.LeavingFullscreenRestores | clients/simple-shm.c:371-407 | whatever happens while fullscreen or maximized, a configure without a size that ends it restores the last windowed size |
| SimpleShm.RepeatedSizeGrows | clients/simple-shm.c:371-407 | so n configures to the same size, each with a redraw and a release, leave 2 n buffers more: the list is not bounded |
| SimpleShm.ConfiguredSizeDrawn | clients/simple-shm.c:371-407 | after a configure with a size, fullscreen, maximized or neither, whatever the compositor holds, the next redraw draws into a mapped buffer of exactly that size |
| SimpleShm.UnsizedConfigureKeeps | clients/simple-shm.c:371-407 | a configure without a size keeps the size while fullscreen or maximized, and restores the windowed one otherwise |
| SimpleShm.ReleaseFrees | clients/simple-shm.c:224-230 | a release frees that buffer and no other |
| SimpleShm.Window.AllocBuffer | clients/simple-shm.c:172-182 | a new buffer of the window's size at the head of the list |
| SimpleShm.Window.ToplevelConfigure | clients/simple-shm.c:371-407 | sizes and flags change exactly as modelled |
| SimpleShm.Window.BufferRelease | clients/simple-shm.c:224-230 | exactly that buffer becomes free |
| SimpleShm.Window.PruneOldReleasedBuffers | clients/simple-shm.c:211-222 | unlinking while walking leaves exactly the buffers that are held or fit |
| SimpleShm.Window.PickFreeBuffer | clients/simple-shm.c:195-209 | the first free buffer of the list |
| SimpleShm.Window.ExtendList | clients/simple-shm.c:496-503 | two buffers are added exactly when an update is due |
| SimpleShm.Window.MapBuffer | clients/simple-shm.c:236-278 | an unmapped buffer gets a mapping of the window's size |
| SimpleShm.Window.Redraw | clients/simple-shm.c:691-725 | the redraw is the modelled step on the picked buffer |
| ShmPainting.PaintPixels | clients/simple-shm.c:526-570 | the pointer walk writes exactly the cells outside the padding, each with its own pixel value, in bounds |
| ShmPainting.PatternMoves | clients/simple-shm.c:553-559 | the pattern moves: outside the ring one column left in 16 ms, in it one row up in 32 ms, inside towards the centre in 64 ms |
| ShmPainting.DiagonalsClear | clients/simple-shm.c:561-563 | the top byte is zero within six pixels of the two diagonals and all ones elsewhere |
| SimpleEgl.LargestScale | clients/simple-egl.c:348-360 | the scale is at least 1, no entered output's is larger, and it is one of theirs unless it is 1 |
| SimpleEgl.InitialSound | clients/simple-egl.c:1405-1425 | the start-up state is coherent |
| SimpleEgl.StepSound | clients/simple-egl.c:1219-1293 | every event keeps the cached geometry equal to a fresh computation and to what was sent, or sets the dirty flag |
| SimpleEgl.RunSound | clients/simple-egl.c:1219-1293 | the same over every run |
| SimpleEgl.ReachableCoherent | clients/simple-egl.c:380-469 | in every reachable state with the flag clear, cached transform, scale and buffer size equal a fresh computation and the values last sent |
| SimpleEgl.LeavingFullscreenRestores | clients/simple-egl.c:587-621 | whatever happens while fullscreen or maximized, a configure without a size that ends it restores the last windowed size |
| SimpleEgl.UnenteredIrrelevant | clients/simple-egl.c:1270-1293 | adding or removing an output that is not entered leaves the geometry coherent, so it needs no flag |
| SimpleEgl.RedrawClean | clients/simple-egl.c:905-916 | after a redraw the flag is clear and the cache coherent |
| SimpleEgl.ShownAtLogicalSize | clients/simple-egl.c:380-469 | with the flag clear, the corners of the buffer, turned back by the compositor's map and divided by the scale sent, span the logical size, or the viewport does; exactly if the fractional scale went away while a viewport destination is set, that destination is shown |
| SimpleEgl.EveryRunShowsLogicalSize | clients/simple-egl.c:380-469 | from start-up, for every run with positive scales, a frame drawn with the flag clear shows at the logical size |
| SimpleEgl.StaleDestinationIff | clients/simple-egl.c:463-466 | over every run from start-up: the destination sent earlier is shown instead of the logical size exactly if the last scale preferred is zero and some update was made under a positive one |
| SimpleEgl.DestinationCanBeStale | clients/simple-egl.c:463-466 | a concrete run with a scale of zero that leaves an old viewport destination |
| EglMeaning.SurfaceFillsBuffer | clients/simple-egl.c:380-469 | with the flag clear and no fractional scale the map of the transform, times the scale, carries the logical rectangle exactly onto the buffer |
| EglMeaning.FractionalBufferFits | clients/simple-egl.c:411-424 | under a fractional scale each side of the buffer has just enough whole pixels for the side the transform lays along it, or for the shorter one if a square is shown |
| EglMeaning.OldestDecides | clients/simple-egl.c:362-378 | over every run in which the oldest entered output stays, the transform told is the one last announced for it, whatever other outputs do |
| EglMeaning.SharpestDecides | clients/simple-egl.c:348-360 | the scale told is the largest announced by an entered output, at least 1, and 1 under a fractional scale |
| EglMeaning.EnteringQueues | clients/simple-egl.c:634-656 | an entered output goes behind those entered before; a new one starts with transform normal and scale 1 |
| EglMeaning.DroppingUnlinks | clients/simple-egl.c:658-676 | leaving or removing takes out that output and keeps the others in their order |
| EglMeaning.ConfiguredSizeShown | clients/simple-egl.c:587-621 | after a configure with a size, fullscreen, maximized or neither, the next frame shows at that size, or at the square of its smaller side |
| EglMeaning.UnsizedConfigureKeeps | clients/simple-egl.c:587-621 | a configure without a size keeps the size while fullscreen or maximized, and restores the windowed one otherwise |
| EglMeaning.NativeFollows | clients/simple-egl.c:471-530 | the native window is created at the size of a fresh computation, after any run |
| SimpleEgl.Window.constructor | clients/simple-egl.c:1405-1425 | the fields start as modelled |
| SimpleEgl.Window.ComputeBufferScale | clients/simple-egl.c:348-360 | the loop's accumulator ends at the largest scale |
| SimpleEgl.Window.ComputeBufferTransform | clients/simple-egl.c:362-378 | the loop breaks at the oldest entered output |
| SimpleEgl.Window.UpdateBufferGeometry | clients/simple-egl.c:380-469 | sending only what changed, the cache and what was sent end at the fresh values |
| SimpleEgl.Window.DestroyWindowOutput | clients/simple-egl.c:658-676 | search and unlink remove exactly that output and set the flag iff it was entered |
| SimpleEgl.Window.OutputAdded | clients/simple-egl.c:1270-1284 | the handler makes exactly the modelled step |
| SimpleEgl.Window.OutputRemoved | clients/simple-egl.c:1286-1293 | the handler makes exactly the modelled step |
| SimpleEgl.Window.OutputGeometry | clients/simple-egl.c:1219-1234 | the handler makes exactly the modelled step |
| SimpleEgl.Window.OutputScale | clients/simple-egl.c:1252-1261 | the handler makes exactly the modelled step |
| SimpleEgl.Window.SurfaceEnter | clients/simple-egl.c:634-656 | the handler makes exactly the modelled step |
| SimpleEgl.Window.SurfaceLeave | clients/simple-egl.c:805-812 | the handler makes exactly the modelled step |
| SimpleEgl.Window.PreferredScale | clients/simple-egl.c:819-826 | the handler makes exactly the modelled step |
| SimpleEgl.Window.Configure | clients/simple-egl.c:587-621 | the handler makes exactly the modelled step |
| SimpleEgl.Window.InitGl | clients/simple-egl.c:471-530 | the pending update is made before the native window gets its size |
| SimpleEgl.Window.Redraw | clients/simple-egl.c:905-916 | the redraw makes exactly the modelled step and leaves the flag clear |
| DmabufVulkan.NextBuffer | clients/simple-dmabuf-vulkan.c:1131-1139 | the first idle buffer |
| DmabufVulkan.InitialSound | clients/simple-dmabuf-vulkan.c:1041-1110 | buffers start idle, without fences and semaphores |
| DmabufVulkan.StepSound | clients/simple-dmabuf-vulkan.c:1312-1435 | every redraw and release keeps: busy iff the release object is set, idle implies both semaphore fields equal, busy implies no fence, every fence imported at most once, every semaphore destroyed at most once and only when the frame waiting on it was released, nothing lost |
| DmabufVulkan.RunSound | clients/simple-dmabuf-vulkan.c:1312-1435 | the same over every run |
| DmabufVulkan.EveryRunKeepsTrack | clients/simple-dmabuf-vulkan.c:1312-1435 | after any run from start-up: busy iff the release object is set, idle buffers have equal semaphore fields, no fence imported and no semaphore destroyed twice, a destroyed one's frame was released, every other one is still held |
| DmabufVulkan.HandlerAssertsHold | clients/simple-dmabuf-vulkan.c:1319-1344 | for every live release object, its listener's buffer holds it, is busy and has no fence: both asserts of the handlers hold |
| DmabufVulkan.DestroyedOnlyAfterRelease | clients/simple-dmabuf-vulkan.c:1312-1358 | a step destroys at most one semaphore, which was alive and whose frame was released before that step |
| DmabufVulkan.AbortsIff | clients/simple-dmabuf-vulkan.c:1392-1404 | live release objects are one per busy buffer, and redraw aborts iff there are as many as buffers |
| DmabufVulkan.StepBusyIff | clients/simple-dmabuf-vulkan.c:1392-1435 | with and without explicit synchronization a buffer is busy after an event iff that was the redraw that drew into it, or it was busy and this was not its release |
| DmabufVulkan.BusyUntilReleased | clients/simple-dmabuf-vulkan.c:1131-1139 | over every run a busy buffer that is not released stays busy, and no frame is drawn into it |
| DmabufVulkan.TeardownTimes | clients/simple-dmabuf-vulkan.c:233-262 | how often teardown destroys each semaphore ever created: once if it was destroyed before, else once per field of its buffer that holds it, and at least once |
| DmabufVulkan.TeardownDestroysOnceIff | clients/simple-dmabuf-vulkan.c:233-262 | teardown leaves no semaphore, and destroys none twice iff no idle buffer has a release semaphore |
| DmabufVulkan.TeardownDestroysTwice | clients/simple-dmabuf-vulkan.c:258-262 | a concrete run of two frames whose teardown destroys a semaphore twice |
| DmabufVulkan.Window.constructor | clients/simple-dmabuf-vulkan.c:1041-1110 | four idle buffers |
| DmabufVulkan.Window.NextIdle | clients/simple-dmabuf-vulkan.c:1131-1139 | the loop finds the first idle buffer |
| DmabufVulkan.Window.WaitForFence | clients/simple-dmabuf-vulkan.c:1365-1390 | a new semaphore takes the fence over |
| DmabufVulkan.Window.Redraw | clients/simple-dmabuf-vulkan.c:1392-1435 | the field updates, in their order, make exactly the modelled step |
| DmabufVulkan.Window.FencedRelease | clients/simple-dmabuf-vulkan.c:1312-1335 | the handler makes exactly the modelled step and its asserts hold |
| DmabufVulkan.Window.ImmediateRelease | clients/simple-dmabuf-vulkan.c:1337-1358 | the handler makes exactly the modelled step and its asserts hold |
| DmabufVulkan.Window.BufferRelease | clients/simple-dmabuf-vulkan.c:221-227 | without explicit synchronization a release only makes the buffer idle |
| DmabufFeedback.AddPairKeepsDistinct | clients/simple-dmabuf-feedback.c:211-242 | adding a pair keeps formats and modifiers free of duplicates |
| DmabufFeedback.AddPairOffers | clients/simple-dmabuf-feedback.c:211-242 | adding a pair adds that pair and nothing else |
| DmabufFeedback.AddAllOffers | clients/simple-dmabuf-feedback.c:1161-1168 | a list of indices adds exactly the pairs they name in the table |
| DmabufFeedback.DoneActivates | clients/simple-dmabuf-feedback.c:1313-1352 | after done the active tranches are those announced since the previous done, in order, each with its last target device, its scanout bit, exactly the pairs named in the table in force, and no duplicates; the active copy has a table iff the batch touched one |
| DmabufFeedback.TracksBatch | clients/simple-dmabuf-feedback.c:1073-1258 | at every point of a batch the pending copy holds exactly what was announced so far |
| DmabufFeedback.FailsIff | clients/simple-dmabuf-feedback.c:1152-1157 | the assert on the table fails iff some formats event comes with no table in the batch before it and none inherited |
| DmabufFeedback.TableKeptAcrossBatches | clients/simple-dmabuf-feedback.c:1152-1155 | with an active table no batch fails, and there is one again afterwards iff the batch touched it |
| DmabufFeedback.UntouchedTableLost | clients/simple-dmabuf-feedback.c:1349-1351 | a batch with neither a table nor formats loses the table, so the next one that relies on it fails |
| DmabufFeedback.StepAccounted | clients/simple-dmabuf-feedback.c:244-294 | every event keeps each mapping in exactly one place: unmapped once, the active copy, the pending copy, or dropped |
| DmabufFeedback.RunAccounted | clients/simple-dmabuf-feedback.c:244-294 | the same over every run |
| DmabufFeedback.LeaksIff | clients/simple-dmabuf-feedback.c:1073-1084 | an event drops a mapping without unmapping it iff it is a table that arrives while the batch already has one |
| DmabufFeedback.BatchLeaksIff | clients/simple-dmabuf-feedback.c:1073-1084 | over a batch a mapping leaks iff a table is advertised after another one, or after formats that took the inherited table over |
| DmabufFeedback.Client.AddFormat | clients/simple-dmabuf-feedback.c:211-227 | the search and growth loop finds or appends the format |
| DmabufFeedback.Client.AddModifier | clients/simple-dmabuf-feedback.c:229-242 | the search and growth loop adds the modifier once |
| DmabufFeedback.Client.FormatTable | clients/simple-dmabuf-feedback.c:1073-1084 | the handler makes exactly the modelled step |
| DmabufFeedback.Client.MainDevice | clients/simple-dmabuf-feedback.c:1086-1110 | the handler makes exactly the modelled step |
| DmabufFeedback.Client.TargetDevice | clients/simple-dmabuf-feedback.c:1112-1124 | the handler makes exactly the modelled step |
| DmabufFeedback.Client.TrancheFlags | clients/simple-dmabuf-feedback.c:1126-1136 | the handler makes exactly the modelled step |
| DmabufFeedback.Client.TrancheFormats | clients/simple-dmabuf-feedback.c:1138-1169 | taking the table over and looping over the indices make exactly the modelled step |
| DmabufFeedback.Client.TrancheDone | clients/simple-dmabuf-feedback.c:1242-1258 | the handler makes exactly the modelled step |
| DmabufFeedback.Client.Done | clients/simple-dmabuf-feedback.c:1349-1351 | the active copy is released and replaced |
| SimpleIm.CompareComposeKeys | clients/simple-im.c:363-380 | the comparison loop computes the first difference, zero when the first sequence is exhausted |
| SimpleIm.ComparedZeroIff | clients/simple-im.c:363-380 | the comparator says equal iff the typed keys are a prefix |
| SimpleIm.ComparedMonotone | clients/simple-im.c:363-380 | the comparator is monotone along the order of the table |
| SimpleIm.BSearch | clients/simple-im.c:420-422 | midpoint probing computes the specified search |
| SimpleIm.FoundExtends | clients/simple-im.c:420-422 | on any table what is found extends the typed keys |
| SimpleIm.FoundIff | clients/simple-im.c:420-422 | on a sorted table the search finds an entry iff a linear scan finds one extending the typed keys |
| SimpleIm.IndexBounded | clients/simple-im.c:416-418 | in every sound state, on any table, at most two keys are pending |
| SimpleIm.ComposedOutcome | clients/simple-im.c:416-468 | a symbol completes an entry, continues one, or breaks off, exactly as the keys typed are an entry, the beginning of one, or neither |
| SimpleIm.StepSound | clients/simple-im.c:398-470 | on any table, sorted or not, every key leaves at most two keys pending, for which the search finds an entry with more |
| SimpleIm.EveryRunSound | clients/simple-im.c:398-470 | the same over every run, so no store leaves the four slots |
| SimpleIm.TypingCommits | clients/simple-im.c:398-470 | typing the keys of an entry commits its text after a preview per key |
| SimpleIm.InterludesHarmless | clients/simple-im.c:402-414 | presses and shift keys in between do not disturb a sequence |
| SimpleIm.DrivenIsTyping | clients/simple-im.c:398-470 | any key events, presses and shift keys among them, do exactly what releasing the other keys one after the other does |
| SimpleIm.NoSymbolCommitsIff | clients/simple-im.c:416-436 | on any table a key without a symbol repeats the last search, and commits the entry found iff that entry has one key left |
| SimpleIm.ShippedRunsSound | clients/simple-im.c:83-102 | the shipped table is well shaped, and over every run on it at most two keys are pending |
| SimpleIm.ShippedFoundIff | clients/simple-im.c:83-102 | the shipped table is not sorted, and the complete keys of every entry but "s s" and "a a" are found |
| SimpleIm.ShippedTypedIff | clients/simple-im.c:83-102 | typing the keys of an entry of the shipped table ends by committing its text iff it is neither of these: "s s" breaks off at the first key, "a a" at the second |
| SimpleIm.ShippedNeverCommits | clients/simple-im.c:83-102 | no key in any reachable state commits the texts of these two entries |
| SimpleImRuns.OnlyCountedMatter | clients/simple-im.c:398-414 | on any table and from any state, presses and shift keys among the events change nothing but what is forwarded |
| SimpleImRuns.PlainTyping | clients/simple-im.c:472-485 | outside a sequence each key with a text commits it once, when released, and nothing else is asked for |
| SimpleImRuns.UnprintableForwarded | clients/simple-im.c:472-475 | a key without a text is forwarded, pressed or released |
| SimpleImRuns.KeysCommit | clients/simple-im.c:398-470 | while composing, releasing the keys that are left of an entry shows a preview each and commits its text |
| SimpleImRuns.SequenceCommits | clients/simple-im.c:390-470 | from the normal state, on a sorted prefix-free table: Multi_key and the keys of an entry, released amid any presses and shift keys, show a preview per key, commit its text, ask for nothing else, and end in the normal state |
| SimpleImRuns.PairReplayed | clients/simple-im.c:390-470 | what two keys after Multi_key do on a table of pairs, lookup by lookup |
| SimpleImRuns.ShippedSequences | clients/simple-im.c:83-102 | on the table that ships, from the normal state: sixteen of eighteen entries commit their text after a preview; after "s" the sequence is over and the second "s" is a key like any other; "a a" comes out as these two symbols |
| SimpleIm.InputMethod.StoreSymbol | clients/simple-im.c:416-418 | the symbol goes into the first free slot |
| SimpleIm.InputMethod.constructor | clients/simple-im.c:493-558 | a new input method is in its normal state, on any well-shaped table |
| SimpleIm.InputMethod.Compose | clients/simple-im.c:416-468 | the compose branch makes exactly the modelled step |
| SimpleIm.InputMethod.HandleKey | clients/simple-im.c:382-485 | the key handler makes exactly the modelled step |
| IviCommand.TokensAreTheWords | clients/ivi-shell-user-interface.c:1083-1089 | the tokens are exactly the maximal runs of other characters between spaces, in order |
| IviCommand.CountVersusTokens | clients/ivi-shell-user-interface.c:1075-1079 | the count is the number of tokens, plus one iff the command ends in a space |
| IviCommand.CountArguments | clients/ivi-shell-user-interface.c:1075-1079 | the counting loop computes that count |
| IviCommand.StrTok | clients/ivi-shell-user-interface.c:1083-1088 | each call terminates the next word in place and leaves the rest intact |
| IviCommand.ParseCommand | clients/ivi-shell-user-interface.c:1068-1092 | for every non-empty command argv is filled in bounds with exactly the words in order, each a string of its own, and NULL after them |
| IviCommand.CreateLaunchers | clients/ivi-shell-user-interface.c:1024-1066 | the group-flushing loops create every launcher exactly once, in list order |
| DesktopShell.Clone | clients/desktop-shell.c:1453-1463 | the first other output at the same position |
| DesktopShell.Find | clients/desktop-shell.c:1521-1527 | the first output with a server id |
| DesktopShell.InitialSound | clients/desktop-shell.c:1628-1638 | the empty desktop is sound |
| DesktopShell.StepSound | clients/desktop-shell.c:1400-1529 | creation, start-up, moves, dismissal, removal and clean-up keep owner pointers the exact inverse of the outputs' pointers and every surface destroyed at most once and never lost |
| DesktopShell.RunSound | clients/desktop-shell.c:1400-1529 | the same over every run |
| DesktopShell.OwnersInverse | clients/desktop-shell.c:1400-1529 | after any run a live surface is owned by an output iff that output points at it, and no surface is destroyed twice or while it lives |
| DesktopShell.SurvivesIff | clients/desktop-shell.c:1441-1493 | a removed output's panel or background survives iff the output has a background and the first other output at its position lacks one of that kind; it then belongs to that output |
| DesktopShell.CloneKeepsBoth | clients/desktop-shell.c:1465-1490 | that output ends up with a background, and with a panel iff either had one; no other output changes |
| DesktopShell.CleanUpDestroysEachOnce | clients/desktop-shell.c:1331-1339 | after clean-up every surface ever created was destroyed exactly once |
| DesktopShell.HandOverCore | clients/desktop-shell.c:1478-1490 | one hand-over keeps the pointers inverse |
| DesktopShell.DismissCore | clients/desktop-shell.c:587-604 | one dismissal keeps the pointers inverse and destroys the surface once |
| DesktopShell.CreateCore | clients/desktop-shell.c:1227-1235 | one creation keeps the pointers inverse |
| DesktopShell.RemoveCore | clients/desktop-shell.c:1441-1493 | a removal keeps the pointers inverse |
| DesktopRuns.StartUpFurnishes | clients/desktop-shell.c:1651-1656 | after start-up every output has a live background; one that had none before has a live panel iff panels are wanted, and one that had is unchanged |
| DesktopRuns.LoopFurnishes | clients/desktop-shell.c:1654-1656 | the loop furnishes the outputs it passes that have no background, and no other |
| DesktopRuns.NewOutputFurnished | clients/desktop-shell.c:1418-1439 | an output announced after the shell global is furnished at once, one before it not; it goes to the head of the list, at the origin |
| DesktopRuns.ShellGlobalNoted | clients/desktop-shell.c:1495-1506 | the shell global is only noted, and the removal of an unknown output ignored |
| DesktopRuns.GeometryMoves | clients/desktop-shell.c:1341-1361 | only the named output moves, to the position given |
| DesktopRuns.ConfigureDismisses | clients/desktop-shell.c:587-604 | a configure to nothing destroys exactly that surface and clears exactly the pointer to it; any other keeps all |
| DesktopRuns.GoneKeepsOthers | clients/desktop-shell.c:1441-1493 | a removal takes out that output; every other keeps its place and what it had, and gains at most what the removed one had |
| DesktopRuns.LacksOnlyDismissed | clients/desktop-shell.c:1400-1529 | over every run from the empty desktop: once start-up is over an output lacks its background, or its panel if panels are wanted, only if the compositor dismissed one it owned |
| DesktopRuns.UnwantedPanelsNever | clients/desktop-shell.c:1400-1416 | over every run no output has a panel if none is wanted |
| DesktopObjects.Desktop.constructor | clients/desktop-shell.c:1628-1638 | an empty desktop |
| DesktopObjects.Desktop.CreateSurface | clients/desktop-shell.c:1227-1279 | a new surface object, its owner pointer and the pointer to it |
| DesktopObjects.Desktop.FreeSurface | clients/desktop-shell.c:1217-1225 | the surface is freed and no pointer to it remains |
| DesktopObjects.Desktop.HandOverSurface | clients/desktop-shell.c:1478-1490 | pointer and owner pointer move to the other output as modelled |
| DesktopObjects.Desktop.InitOutput | clients/desktop-shell.c:1400-1416 | the output gets a background, and a panel if wanted |
| DesktopObjects.Desktop.OutputDestroy | clients/desktop-shell.c:1318-1329 | the output is unlinked and what it still holds is freed |
| DesktopObjects.Desktop.FindClone | clients/desktop-shell.c:1453-1463 | the loop finds the first other output at the same position |
| DesktopObjects.Desktop.OutputRemove | clients/desktop-shell.c:1441-1493 | the pointer updates make exactly the modelled removal |
| DesktopObjects.Desktop.ShellGlobal | clients/desktop-shell.c:1495-1506 | the handler makes exactly the modelled step |
| DesktopObjects.Desktop.OutputGlobal | clients/desktop-shell.c:1418-1439 | the handler makes exactly the modelled step |
| DesktopObjects.Desktop.FinishStartUp | clients/desktop-shell.c:1654-1656 | the loop initializes exactly the outputs without a background |
| DesktopObjects.Desktop.Geometry | clients/desktop-shell.c:1341-1361 | only the position of that output changes |
| DesktopObjects.Desktop.SurfaceConfigure | clients/desktop-shell.c:587-604 | a 0x0 configure frees the surface through its owner pointer, any other changes nothing here |
| DesktopObjects.Desktop.OutputGone | clients/desktop-shell.c:1514-1529 | the search and the removal make exactly the modelled step |
| DesktopObjects.Desktop.CleanUp | clients/desktop-shell.c:1331-1339 | all outputs and their surfaces are destroyed |
| Resizor.Spring.Update | clients/resizor.c:63-74 | whatever the previous position was, 19/20 of the distance to the target is left |
| Resizor.SpringAfterFrames | clients/resizor.c:63-74 | after n frames exactly (19/20)^n of each distance is left |
| Resizor.NoOvershoot | clients/resizor.c:63-74 | the size never passes its target and never moves away from it |
| Resizor.ArmedAgainIff | clients/resizor.c:76-113 | the callback is armed again after frame n + 1 iff the larger initial distance, contracted n times, is at least 0.1 |
| Resizor.StopsLinearly | clients/resizor.c:84-113 | the chain of frame callbacks stops within a number of frames linear in the larger initial distance |
| Resizor.StopsLogarithmically | clients/resizor.c:84-113 | a distance below 2^m tenths takes at most 14 m + 1 frames |
| Resizor.FourteenHalve | clients/resizor.c:63-74 | fourteen frames at least halve a distance |
| Resizor.KeyResizes | clients/resizor.c:154-209 | Left makes the window narrower by 200, Right wider, Up lower, Down higher, but none below 400 smaller and none above 1000 larger; n frames later it is that much nearer to exactly this target |
| Resizor.DraggingStays | clients/resizor.c:230-349 | dragging moves the size with the pointer and the button stops the animation at the allocated size; the frames that follow leave both alone |
| Resizor.AwakeKeptIff | clients/resizor.c:84-113 | an event leaves a moving spring without a callback iff it runs the callback on a maximized window |
| Resizor.NeverStalls | clients/resizor.c:84-113 | over every run on a window that is not maximized a moving spring has a callback armed |
| Resizor.MaximizedKeyStalls | clients/resizor.c:154-209 | a concrete key press on a maximized window that sets a target and arms nothing |
| Resizor.Resizor.FrameCallback | clients/resizor.c:84-113 | the callback makes exactly the modelled frame |
| Resizor.Resizor.KeyHandler | clients/resizor.c:154-209 | the key handler makes exactly the modelled step |
| Resizor.Resizor.LockedPointerMotion | clients/resizor.c:230-251 | the handler makes exactly the modelled step |
| Resizor.Resizor.LeftButtonPressed | clients/resizor.c:305-349 | the handler makes exactly the modelled step |

## Left out

- Rounding of floats and doubles: positions, springs, transforms and scales are reals.
- Texts of 2^32 bytes or more, and memory exhaustion anywhere.
- Editor cursor placement by pointer and touch, which goes through the text layout; a commit that runs with cursor_position offsets in StepGood (the handler itself is modelled); styling, language and direction events.
- The keyboard's delete, Enter, Tab, arrow and pre-edit BackSpace keys: its delete sends an offset the editor reads differently, so the mirror theorem covers letters and the space bar.
- EditorTheorems.StepGood: events carry well-formed UTF-8, and a pending delete that is run names whole characters of the text at that moment; EditedDeleteAbortsIff says exactly when the range has become too long for the text.
- KeyboardMirror.ActConsistent: fewer than 2^32 updates between a reset and the echo that answers it, and the editor's own keyboard and pointer are idle.
- KeyboardLayout.KeyAt: points outside the panel, which the handlers accept and map to a neighbouring row or to no key.
- The viewport and rotating-transform modes of simple-damage, its opaque region.
- SimpleDamage.DifferenceIsDamaged: window sides over twice border plus radius; smaller windows make the arena empty (DegenerateArenaNeverSettles).
- Cairo drawing: a fill and a stroke are abstract functions on pictures; wl_fixed offsets of a locked pointer are taken as whole numbers.
- Failing mmap and buffer creation in simple-shm and simple-dmabuf-feedback; paint_format; a redraw with no free buffer ends the client in simple-shm and simple-damage.
- The text that key symbols spell (xkb): commits and previews of typed symbols carry the symbols.
- SimpleIm.FoundIff: sorted tables only, as a binary search needs them.
- SimpleIm.TypingCommits: sorted, prefix-free tables only; ShippedTypedIff treats the table that ships, which is not sorted.
- SimpleImRuns.SequenceCommits: the same; ShippedSequences treats the table that ships.
- In simple-egl the wait for the first configure, swap damage and the opaque region; outputs are entered at most once at a time.
- Vulkan rendering, acquire fences and buffer creation; a fence descriptor is a token that is never reused, where the system reuses descriptor numbers after they are closed.
- The choice of format in dmabuf_feedback_done with its two asserts, device nodes, and buffers reallocated for a new format.
- DesktopShell.StepSound: no panel or background is dismissed and no output removed before start-up is over; painting, launchers, clock, lock dialog and cursors are left out.
- simple-im's other half, the forwarding of modifiers and the keymap; ivi-shell's icons and surfaces.
- Registry binding, EGL, GBM and DRM setup, option parsing, and all other demo clients.
