# Editing engine and session protocol, modelled

This project models the parts of the editor that are hardest to get right, and
proves what they promise.

- **The document** (`DocModel`, `Document`, `Splices`, `DocHistory`,
  `DocCarets`, `DocEdits`, `Points`): a text with undo groups made of coalesced
  splices, a capped history, a save point, edits that are not the user's, and the
  window of edits handed to an incremental parser.
- **The editing substrate** (`Ranges`, `Anchors`, `CoreModel`, `Travel`, `Editor`):
  frozen line ranges, a locked prefix, atomic blocks, line anchors with tags and
  a cached streaming tail, all shifted in step by every edit and shifted again
  by undo and redo.
- **The view** (`View`, `Effects`, `ViewRuns`, `ViewCarets`, `Faces`, `FaceRuns`,
  `FrozenText`, `FrozenCommands`, `Blocks`, `TypedRuns`, `TypedReturns`,
  `EditorView`): the guarded editing commands.
- **Streaming** (`Chunks`, `ChunkPlaces`, `ChunkDraft`, `ChunkTail`,
  `EditorStream`): where a chunk of agent text goes, and what it leaves alone.
- **The session** (`LogModel`, `EventLog`, `Forwarders`, `Turns`, `QueueDriver`,
  `QueueReplies`, `SerialDriver`, `SerialReplies`, `EchoModel`, `EchoSources`,
  `Echo`, `Codec`, `WireForms`): a trimmed log with stable positions, two prompt
  drivers, the reconciler of user turns, and the wire form of events.
- **Two lexers** (`KeyLexer`, `KeyShapes`, `Keybinds`, `Utf8`, `Scalars`,
  `Inline`, `InlineShapes`, `Highlight`, `LineShapes`): key sequences with counts, and
  markdown highlighting.

A text is a sequence of characters whose only line break is `\n`. What the
source updates in place is a class here: each method says which value-level
function its new state is, and the lemmas are about those functions. `Lines`
holds the line structure of a text.

Some promises hold only under a condition that the source does not mention. Each
is stated with that condition, shown to be exact or with a concrete input outside
it that fails:

- frozen text keeps its visible form if and only if no line break is typed right
  after a frozen line whose visible text ends in a carriage return, which the
  break then hides (`FrozenText`, `FrozenCommands`);
- the insert guard keeps line breaks out of atomic blocks if and only if none is
  put at the start of a longer block that begins with an empty line, where the
  start of the line is also its end (`Blocks`);
- bulk insert shows what typing shows if and only if no carriage return lands
  right before an existing line break with something typed after it
  (`TypedReturns`); anchors and cached tail agree if and only if the run does not
  open the caret line at its start and break again, or nothing is pinned there
  (`TypedRuns`);
- writing and reading an event again is stable if and only if its `kind` is a
  string (`Codec`);
- an edit that is not the user's commutes with undo and redo if it does not cut
  into recorded text (`DocHistory`);
- a delete that is not the user's leaves the lock where it belongs if and only if
  the lock did not end inside the lines taken away (`Travel`).

Where a comment and the code differ, the model follows the code: deleting a last
line that has text leaves a blank line (`Effects`), and an emphasis may be empty
(`InlineShapes`).

The event log's comments speak of a floor over all live forwarders, while the
server registers only the latest one with the log. The model lets any number be
protected and any be released while it goes on sending, so it covers both.

## Model

The first rows are the results: lemmas over all inputs, runs or reachable states.
From `Documents.Document.constructor` on, the rows tie each loop
and each method of an object to the value-level function the results are about.

| member | source | states |
|---|---|---|
| Splices.CoalescingIsInvisible | src/document.rs:115-161 | for any sequence of primitive edits in one group, the coalesced list redoes and undoes to the same texts as the uncoalesced one and hands out the same line-break-carrying shifts, in the same order |
| Splices.CoalescedUndoRestores | src/document.rs:293-328 | undoing the coalesced record of any edit sequence restores the text it started from |
| Splices.CoalesceIsComposition | src/document.rs:115-161 | a merged splice is the composition of the two it stands for, fits where the first did, and neither touches a line break |
| Splices.UndoInvertsGroup | src/document.rs:747-784 | walking a recorded group backwards undoes it, whatever the splices |
| Splices.RecordKeepsLineShifts | src/document.rs:747-784 | recording one more splice, merged or not, changes no line shift of a later undo or redo |
| Points.AdvancePointIsPoint | src/document.rs:84-98 | advancing a point over inserted text gives the row and byte column the new text really has there, multi-byte characters included |
| DocHistory.HistoryIsSnapshots | src/document.rs:692-817 | over every run of grouped edits, saves, undo, redo, eviction and non-undoable edits the document shows what a list of whole-text snapshots with a position would show |
| DocHistory.SavePointIsSafe | src/document.rs:836-875 | an unmodified document is the last saved or loaded text, and undo plus redo depth stays within the cap, over every such run |
| DocHistory.LandingOnTheSavePoint | src/document.rs:791-817 | a history step clears `modified` exactly when it lands on the snapshot marked saved, which is then the text on disk |
| DocHistory.DiskIsLastSaved | src/document.rs:836-875 | the saved snapshot the reference history carries is the text of the last save in the run |
| DocHistory.InsertNoUndoCommutes | src/document.rs:531-609 | a non-undoable insert, made with the user group open or not, that spares every recorded splice commutes with closing the group and any undo/redo sequence: the walk ends on the same history depth with the insert at its place in the text of that depth |
| DocHistory.DeleteNoUndoCommutes | src/document.rs:549-609 | the same for a non-undoable delete |
| DocHistory.AheadSpares | src/document.rs:576-609 | an edit before every recorded start spares everything recorded and has the same place at every depth |
| DocHistory.BehindSpares | src/document.rs:576-609 | an edit with every recorded splice before it spares everything recorded and keeps its distance from the end of the text at every depth |
| DocHistory.AnInsertInsideARunStraysUndo | src/document.rs:531-609 | what sparing excludes: an insert inside a typed run, after which undoing the run takes the insert and leaves a character of the run |
| DocHistory.RemapKeepsOrder | src/document.rs:576-592 | shifted starts stay in order and in the text; those in deleted text come to where it was |
| DocHistory.SkippingIsExact | src/document.rs:576-609 | skipping an entry by its highest start gives the same entry as remapping every splice of it |
| DocHistory.StepRefines | src/document.rs:293-328 | every single document operation is matched by one step of the snapshot history |
| DocCarets.HistoryHandsBackItsCarets | src/document.rs:791-817 | over every run in which undo and redo happen with no group open, an undo hands back the caret the group it undoes was opened at, a redo the caret the group it redoes was closed at |
| DocCarets.WalksKeepTheTrail | src/document.rs:791-817 | and no sequence of undo and redo changes those carets |
| DocEdits.TakenEditIsExact | src/document.rs:348-384 | a taken edit describes exactly the change since the previous take: byte offsets and (row, byte column) points before and after, for all mutators |
| DocEdits.EditIsHandedOver | src/document.rs:348-384 | an edit is handed over if and only if there was exactly one replacement of text, and no history step, since the previous hand-over |
| DocEdits.HistoryYieldsNoEdit | src/document.rs:797-800 | after an undo or redo no edit is handed out until the window is taken, whatever follows |
| Scalars.ByteLenIsEncoded | src/document.rs:84-98 | byte lengths are those of the UTF-8 encoding (section 3 of RFC 3629) |
| DocEdits.EditOfDescribes | src/document.rs:332-369 | the edit computed before a replacement describes the replacement |
| Ranges.ShiftInsertOpensGap | src/editor.rs:716-738 | shifting a sorted list for inserted lines opens a gap of exactly those lines in the set of frozen lines |
| Ranges.ShiftInsertSorted | src/editor.rs:716-738 | and leaves the list sorted, disjoint and without empty ranges |
| Ranges.ShiftDeleteClosesGap | src/editor.rs:788-801 | shifting for a delete across unfrozen lines closes the gap in the set of frozen lines |
| Ranges.NormalizeSorts | src/editor.rs:2374-2389 | normalizing restores the list invariant whatever the list |
| Ranges.MergeIsCanonical | src/editor.rs:536-562 | merging gives sorted ranges that do not even touch |
| Ranges.MergeCovers | src/editor.rs:536-562 | and covers the same lines |
| Ranges.AddCovers | src/editor.rs:462-479 | adding a range covers its lines and the old ones, no others |
| Ranges.CanonicalIsUnique | src/editor.rs:462-479 | the canonical list of a set of lines is unique |
| Ranges.CloseOpens | src/editor.rs:716-839 | deleting the lines an insert brought gives back the same set of frozen lines |
| Ranges.ShiftInsertInsideLine | src/editor.rs:716-735 | a break put inside a frozen line moves the range down whole if it begins with that line, else the range keeps its lines and its last text drops out |
| Ranges.NormalizeCovers | src/editor.rs:2374-2389 | normalizing a list in order of its starts covers the same lines |
| Anchors.RunKeepsProper | src/editor.rs:42-135 | over every run of allocations and shifts no two anchors share a line and ids only grow |
| Anchors.IdsAreNeverReused | src/editor.rs:43-52 | an id handed out is one never live before, and a dropped id never comes back |
| Travel.InsertsCarry | src/editor.rs:713-766 | an insert, guarded or not, carries every anchor, tag and the cached tail with the character that begins its line; an empty line keeps its place |
| Travel.DeletesCarry | src/editor.rs:788-839 | a delete drops what is pinned to lines that start at its edge or inside it, if it takes a line break, and carries the rest with the character that begins the line |
| Travel.SpliceShifts | src/editor.rs:536-562 | undo and redo do the same for what each splice takes out and then for what it puts in |
| Travel.LockFollowsInsert | src/editor.rs:737-741 | after an insert that is not the user the locked lines are the ones locked before, and of the new lines those above a locked line |
| Travel.LockFollowsDelete | src/editor.rs:811-813 | after a delete that is not the user the lines left are locked if they were, if and only if the lock did not end strictly inside the lines taken away with lines standing before them |
| Travel.ADeleteCanUnlock | src/editor.rs:811-813 | it happens: a concrete delete after which an untouched locked line is unlocked |
| CoreModel.DeleteGuardsAgree | src/editor.rs:3857-3884 | the range-overlap delete guard equals the per-character guard for every range, past the end included |
| ViewRuns.EveryDepthShowsItsFace | src/editor.rs:1295-1525 | for every run of guarded commands in undo groups, each retained depth keeps the text and set of frozen lines it had when first reached, and the lock never moves |
| ViewRuns.WalkingShowsEveryFace | src/editor.rs:1509-1525 | an undo or redo from such a state shows exactly the neighbouring depth and keeps the property, so any sequence of them does |
| ViewRuns.CommandIsSound | src/editor.rs:1209-1525 | every view command only does what the guards allow, whatever its arguments |
| ViewCarets.CommandCarets | src/editor.rs:1262-1273 | after a command that is an undo step of its own, undo puts the caret back where it was before and redo where the command left it, on the last character of the line at the furthest |
| ViewCarets.SessionCarets | src/editor.rs:1295-1304 | the same for an insert session, whatever is done in it: where it was started and where it ended |
| ViewCarets.HistoryCaretLands | src/editor.rs:1509-1525 | where the view puts a caret the history hands back |
| ViewCarets.CommandGroups | src/editor.rs:1254-1304 | which commands leave an undo group open |
| Effects.TypeCharEffect | src/editor.rs:1306-1321 | a character goes in at the caret if it is let in and the caret passes it; else nothing changes |
| Effects.InsertStrEffect | src/editor.rs:1331-1350 | a run on an editable line goes in at the caret as it is |
| Effects.InsertStrElsewhere | src/editor.rs:1331-1350 | elsewhere it is what typing its characters one by one does |
| Effects.PasteStrEffect | src/editor.rs:1356-1366 | a paste does to text and caret what inserting the run does |
| Effects.BackspaceEffect | src/editor.rs:1368-1379 | the one character before the caret goes if it may, and the caret is where it was; else nothing changes |
| Effects.DeleteBackEffect | src/editor.rs:1384-1392 | the n characters before the caret go, no more than its line has |
| Effects.DeleteUnderEffect | src/editor.rs:1407-1428 | the character under the caret goes; the caret stays, on the last character unless in insert mode |
| Effects.DeleteSelectionEffect | src/editor.rs:1209-1238 | the text between the two carets goes, the character under them if they are one |
| Effects.ReplaceCharEffect | src/editor.rs:1435-1455 | the visible character under the caret is replaced in place and the caret stays; one that kept a carriage return and a line break apart comes back before the carriage return |
| Effects.ToggleCharEffect | src/editor.rs:866-898 | the same for a character anywhere that is no line break |
| Effects.OpenLineEffect | src/editor.rs:1474-1497 | a line is opened at the visible end of the caret line, or at its start |
| Effects.DeleteLineEffect | src/editor.rs:1457-1472 | the line list without the caret line, except that a last line with text leaves a blank; the caret at the start of what took its place |
| Effects.ALastLineLeavesABlank | src/document.rs:611-635 | the comment says a last line without a line break disappears; one with text leaves a blank line |
| FaceRuns.PrimRetells | src/editor.rs:613-839 | each guarded primitive action keeps the record of what every depth showed |
| Faces.SpliceShows | src/editor.rs:536-562 | replaying one splice either way moves the frozen lines back or forth exactly |
| FrozenText.EditKeepsFrozenTexts | src/editor.rs:613-839 | a guarded edit leaves the ordered visible texts of the frozen lines unchanged if and only if no line break is put right after a frozen line whose visible text ends in a carriage return |
| FrozenText.EditKeepsLockedPrefix | src/editor.rs:613-839 | a guarded edit leaves the locked prefix and its text unchanged |
| FrozenCommands.CommandsCannotTouchFrozenText | src/editor.rs:1209-1497 | every view command other than undo and redo keeps the lock and the locked text, and the ordered visible texts of the frozen lines if and only if it puts no line break at the visible end of a frozen caret line that ends in a carriage return |
| FrozenCommands.TypeRunShows | src/editor.rs:1331-1350 | a run typed character by character changes what is shown exactly if it holds a break and starts at such an end, whatever the guard rejects of it |
| Blocks.GuardIsExact | src/editor.rs:605-640 | the insert guard lets in anything on an editable line past the lock, and on a frozen one exactly a line break at its start or visible end that no block has lines on both sides of |
| Blocks.CommandsKeepBlocks | src/editor.rs:605-640 | every view command other than undo and redo keeps the atomic blocks sorted, disjoint and wholly frozen, if and only if it puts no line break at the start of a longer block that begins with an empty line |
| Blocks.InsertKeepsBlocks | src/editor.rs:740-752 | the same for one character the guard lets in: it splits no block, with that one exception |
| Blocks.DeleteKeepsBlocks | src/editor.rs:802-810 | a permitted delete moves blocks as wholes and leaves their lines frozen |
| Blocks.ABlockCanBeOpened | src/editor.rs:605-640 | the exception is real: a break the guard lets in that ends up inside a block |
| FrozenText.ACrCanBeHidden | src/editor.rs:613-640 | the exception is real: a concrete document where it happens |
| FrozenText.EditKeepsSorted | src/editor.rs:716-839 | no edit, guarded or not, unsorts the frozen list |
| FrozenText.ReplayKeepsSorted | src/editor.rs:536-562 | nor does replaying any list of shifts, which ends canonical |
| TypedReturns.SurfaceAgreesExactly | src/editor.rs:1331-1350 | on an editable caret line bulk insert equals typing the run, for text, caret, frozen ranges, lock and blocks, if and only if the caret is not right before a line break with a carriage return in the run that something else follows |
| TypedRuns.BulkIsFold | src/editor.rs:1331-1350 | the agreement, whenever no carriage return is typed right before a line break |
| TypedRuns.MarksAgreeExactly | src/editor.rs:698-711 | whatever the run, carriage returns included, anchors, tags and cached tail agree if and only if the run does not start with a break at column 0 of a line with text and break again later, or nothing is pinned to that line |
| TypedReturns.StrandedDiffers | src/editor.rs:1306-1321 | the failing family: what follows such a carriage return is typed before it |
| TypedReturns.AStrandedReturn | src/editor.rs:1306-1321 | a concrete text, caret and run of that family |
| ChunkPlaces.SentenceGoesOn | src/editor.rs:2018-2051 | if the turn is in the middle of a sentence on its open last line, told by its last mark before closing markup and white space, and the chunk does not begin with a line break, the chunk goes right behind the last visible character of that line, whatever a tool call put below it, unless the floor forbids |
| ChunkPlaces.ChunkGoesBehind | src/editor.rs:2053-2089 | otherwise it goes to the start of the line after the one the turn ends on, to the end of the text if another turn has that line, to the visible end if there is none |
| ChunkPlaces.FirstChunkGoesLast | src/editor.rs:2053-2067 | the first chunk of a turn goes to the end of the text |
| ChunkPlaces.FinishedIsSentenceEnd | src/editor.rs:2034-2049 | what counts as the end of a sentence, character by character |
| ChunkPlaces.ChunkIsRemembered | src/editor.rs:1906-1913 | after a chunk the cached line is the one its last character is on, open unless that is a line break |
| ChunkDraft.DraftSurvives | src/editor.rs:1827-1914 | any sequence of floored chunks leaves the draft intact at the end of the text, on its own line, unfrozen and untagged, with caret and selection on their characters, while every chunk line is frozen and tagged as it arrives |
| ChunkDraft.ChunkAbove | src/editor.rs:1827-1914 | one floored chunk goes in strictly above the floor, or at it followed by a line break of its own, and claims exactly its lines |
| ChunkDraft.OwnFloor | src/editor.rs:1827-1868 | the top of the draft is always a floor good enough |
| ChunkDraft.NoDraftNoLine | src/editor.rs:1827-1868 | without a draft, what is typed next starts a line if and only if the chunk went in above the end or closed its line |
| ChunkTail.CacheAgreesWithScan | src/editor.rs:393-405 | over any run of chunks, other turns, edits, splices, undo and redo, a cached line that passes validation is the highest with the tag: cache and reverse scan give the same tail |
| ChunkTail.ChunkIsTail | src/editor.rs:1906-1913 | after a chunk the cached line is the highest with its tag |
| Travel.HistoryForgetsTail | src/editor.rs:536-562 | undo and redo forget the cached line |
| ChunkTail.PrimKeepsCache | src/editor.rs:755-838 | no edit or history step makes the cached line wrong |
| Chunks.TagLinesTags | src/editor.rs:1899-1905 | tagging a span replaces the tags of its lines and no others |
| LogModel.CompactKeepsPositions | src/event_log.rs:267-327 | trimming and marking drops only positions below the floor, leaves one marker, moves no survivor and not the tip |
| LogModel.CompactBounds | src/bin/yalda-session-server/main.rs:542-573 | without a floor the log ends at its cap or below; with one, what is left above it is what the floor protects and the marker |
| LogModel.CompactIsFaithful | src/bin/yalda-session-server/main.rs:542-573 | the log keeps being the end of the history, with a marker whose turn covers every dropped event |
| LogModel.OmissionsAreMarked | src/event_log.rs:339-352 | what a cursor resolves to leaves nothing out, or begins with the marker |
| Forwarders.EveryForwarderIsServed | src/bin/yalda-session-server/main.rs:3669-3768 | over every run of pushes, flushes and trims with the least sent position as floor, a protected forwarder has sent every event from its attach point on exactly once and in order, and no released one skips anything without a marker |
| Forwarders.ReconnectServes | src/event_log.rs:339-352 | over every run, a client that comes back with a cursor from before a respawn, or with a position no longer resident, is sent the whole resident log; with one of the live generation exactly the positions from the acknowledged one on |
| Forwarders.MarkerIsExact | src/event_log.rs:297-327 | over every run, the marker carries the highest turn among the events no longer held, or zero |
| LogModel.CompactDropsExactly | src/bin/yalda-session-server/main.rs:542-573 | compaction drops down to three quarters of the cap or to the floor, whichever is lower, and nothing from a log within its cap or its floor |
| Forwarders.ReconnectsAreMarked | src/bin/yalda-session-server/main.rs:2068-2081 | over every run, a resolved stream that omits an event begins with the marker |
| Forwarders.WakeAndFlushCatchUp | src/bin/yalda-session-server/main.rs:3698-3722 | taking the latest snapshot and flushing it reaches the tip |
| QueueDriver.QueueingDriverIsSafe | src/acp_channel.rs:3379-3510 | whatever agent, clock and user do: counts 1, 2, 3, ...; at most MAX_RETRIES + 1 sends of a prompt, none after a cancel that went out while it was in flight; first sends in order of submission; each accepted prompt settled once when the loop ends |
| SerialDriver.SequentialDriverIsSafe | src/acp_channel.rs:3512-3622 | the same for the sequential driver, and each prompt goes out only once the one before has settled |
| QueueReplies.EveryEventIsAnswered | src/acp_channel.rs:3379-3505 | for every run and every next event, what goes out is a function of what happened and what was said: a response settles its prompt; a failure that may pass is retried if no cancel went out and the prompt was sent at most MAX_RETRIES times, else it settles failed, or cancelled after a cancel; the loop ends exactly when the intake is closed and all has settled |
| QueueReplies.TransientFailureIsRetried | src/acp_channel.rs:3430-3453 | a transient failure leaves the prompt unsettled through whatever happens to others, and with no cancel in between the end of its backoff sends it once more |
| SerialReplies.EveryEventIsAnswered | src/acp_channel.rs:3512-3622 | the same for the sequential driver, cancels that wait to be heard included |
| Turns.NoResend | src/acp_channel.rs:3423-3452 | what the trace predicate means: after a cancel with the prompt in flight no later emission sends it |
| Turns.CountAt | src/acp_channel.rs:3468-3474 | what it means that counts go up: each settled turn has the number of turns settled before, plus one |
| Turns.SentBefore | src/acp_channel.rs:3404-3415 | what submission order means: the prompt before is sent before |
| KeyLexer.IncrementalIsBatch | src/keybind.rs:262-311 | feeding keys one at a time gives the actions, counts, pending prefix and count that lexing the whole stream gives |
| KeyLexer.FeedingIsLexing | src/keybind.rs:157-201 | the same from any pending prefix; the re-feeding of broken prefixes terminates |
| KeyLexer.NoKeyLost | src/keybind.rs:262-311 | every key comes out once and in order, or is pending |
| KeyLexer.DigitRun | src/keybind.rs:270-281 | a digit run is one count: its decimal value, or the largest machine word |
| KeyShapes.KeyActs | src/keybind.rs:262-311 | a key bound on its own acts with the count typed before it and uses it up; an unbound one leaves it; a leading zero is such a key |
| KeyShapes.CountThenKey | src/keybind.rs:270-281 | digits and a key: the action with their number as its count |
| KeyShapes.SequenceActs | src/keybind.rs:157-201 | a bound sequence is pending until its last key and then acts with the count |
| KeyShapes.BrokenSequence | src/keybind.rs:290-311 | a sequence that breaks off gives up its first key, drops the count, and reads the rest afresh |
| EchoModel.EchoesAddNothing | src/agent_transcript.rs:119-172 | over any live run with every echo matched and at most 64 outstanding, exactly the submits are inserted, each under the turn after the last settled one, and replay mode is never entered |
| EchoModel.OrderDoesNotMatter | src/agent_transcript.rs:222-266 | two such runs that differ only in where the echoes stand give the same transcript |
| EchoModel.ReplayThenLive | src/acp_channel.rs:506-543 | a direct replay of n user messages, then m live turns, numbers them 1..n, n+1..n+m |
| EchoSources.SubmitAlwaysInserts | src/agent_transcript.rs:119-137 | every submit makes one row under the current turn, in every state |
| EchoSources.ForeignTurns | src/agent_transcript.rs:150-186 | live, an announcement that matches no submit makes one row, a second source of the same turn none, whatever was streamed between, and after the turn has ended the same text makes a row again |
| EchoSources.ReplayedTurns | src/agent_transcript.rs:160-172 | in a replay every announcement opens a turn, equal texts included |
| EchoSources.RememberedEcho | src/agent_transcript.rs:145-149 | the echo of a remembered submit makes no row and uses up one of its kind |
| EchoSources.LatestAreRemembered | src/agent_transcript.rs:126-133 | however many submits there are, the last 64 are remembered |
| EchoSources.ChunksAreAttributed | src/acp_channel.rs:506-527 | what is streamed belongs to the replayed turn while one is open, else to the turn after the last settled one |
| Codec.DecodeAfterEncode | src/agent_event.rs:304-495 | decoding what was encoded gives it back, for every known kind and any order of the fields |
| Codec.DecodeEncodeDecode | src/agent_event.rs:383-495 | for an object with exactly one `kind`, writing and reading again changes nothing if and only if that `kind` is a string |
| Codec.ANumericKind | src/agent_event.rs:444-495 | the failing family is inhabited: a numeric `kind` comes back as the empty string |
| Codec.LegacyStartIsNested | src/agent_event.rs:464-519 | a flat tool record with a second `kind` decodes to the call its nested form decodes to |
| Codec.LegacyUpdateIsNested | src/agent_event.rs:464-519 | the same for tool updates |
| WireForms.TurnForms | src/agent_event.rs:229-300 | the records themselves, key by key: openings, chunks and user messages |
| WireForms.NoteForms | src/agent_event.rs:276-300 | notices and compaction markers |
| WireForms.OutcomeForms | src/agent_event.rs:140-166 | every way a turn ends |
| WireForms.PayloadForms | src/agent_event.rs:253-285 | modes, models, commands and nested tool payloads |
| WireForms.FlatForms | src/agent_event.rs:253-275 | plans and usage lie flat beside their tag |
| WireForms.LaterTagIsKept | src/agent_event.rs:444-495 | a record with a tag not in the vocabulary is kept whole under its tag |
| Highlight.LineLosesNothing | src/md_highlight.rs:78-280 | unstripped and without syntax colouring, the segments of a line concatenate back to it, inside and outside fences |
| Highlight.LineCutsAreBoundaries | src/md_highlight.rs:78-280 | of a valid UTF-8 line every segment is valid UTF-8: every cut is at a character boundary, stripped or not |
| Highlight.ResumingIsBatch | src/md_highlight.rs:54-68 | highlighting in two parts with the carried fence state gives the batch result |
| Highlight.FenceAgrees | src/md_highlight.rs:167-212 | the state carried without highlighting is the one highlighting returns |
| LineShapes.HeadingIsShown | src/md_highlight.rs:282-304 | one to six # and a space make a heading of that level, stripped to its text |
| LineShapes.NoHeading | src/md_highlight.rs:282-304 | more than six, or no space, make none |
| LineShapes.FencedBlockIsCode | src/md_highlight.rs:78-158 | between two fence lines everything is code as it stands, and the text after them goes on as if they were not there |
| LineShapes.FenceLanguage | src/md_highlight.rs:125-150 | the language is the word behind the marker |
| LineShapes.RuleIsExact | src/md_highlight.rs:306-313 | which lines are rules |
| LineShapes.RuleIsShown | src/md_highlight.rs:223-229 | a rule is shown as one |
| LineShapes.QuoteIsShown | src/md_highlight.rs:237-257 | a quote shows its bar unless stripped, and all of it slanted |
| LineShapes.BulletIsShown | src/md_highlight.rs:259-280 | a bullet item shows its marker, stripped to a round bullet |
| LineShapes.NumberIsShown | src/md_highlight.rs:259-280 | a numbered item keeps its number |
| LineShapes.PlainIsShown | src/md_highlight.rs:214-280 | a line that begins with a letter is plain text, tokenized |
| Scalars.ValidIsEncoded | src/md_highlight.rs:326-340 | a text is well formed UTF-8 exactly if it is the encoding of some scalar values |
| Scalars.EncodedIsValid | src/md_highlight.rs:326-340 | and the other way round |
| Inline.TokensLoseNothing | src/md_highlight.rs:326-435 | tokenizing loses nothing |
| Inline.TokensAreValid | src/md_highlight.rs:326-435 | every slice of a valid text is valid |
| Inline.StripDropsMarkup | src/md_highlight.rs:326-435 | stripping keeps segments and styles, each text a part of the unstripped one |
| InlineShapes.SpanIsExact | src/md_highlight.rs:346-427 | a span is found at a place if and only if one stands there: code, bold, emphasis, strike or link by its marker and the first unescaped one that closes it, bold before emphasis |
| InlineShapes.CutAtFirst | src/md_highlight.rs:326-435 | the text is plain up to the first span, then comes the span, then the rest |
| InlineShapes.StripTakesMarkers | src/md_highlight.rs:326-435 | stripping takes off exactly the markers of each segment and nothing else |
| InlineShapes.OneSingleCloses | src/md_highlight.rs:467-490 | the single scanner finds the first unescaped marker, passing over pairs |
| InlineShapes.OneDoubleCloses | src/md_highlight.rs:452-465 | the double scanner finds the first unescaped pair |
| InlineShapes.AnEmptyEmphasis | src/md_highlight.rs:467-470 | the comment forbids an empty emphasis; two underscores make one |
| Inline.FindsFirstUnescaped | src/md_highlight.rs:437-450 | the scanner stops no later than the first target that an even number of backslashes precedes |
| Inline.FoundIsUnescaped | src/md_highlight.rs:437-450 | and what it stops at is such a target |
| Inline.FindsFirstDouble | src/md_highlight.rs:452-465 | likewise for a doubled marker |
| Documents.Document.constructor | src/document.rs:238-264 | a loaded document is unmodified, with an empty history and the save point at depth 0 |
| Documents.Document.NotePendingEdit | src/document.rs:348-369 | updates the pending window as the value-level note does |
| Documents.Document.TakePendingEdit | src/document.rs:375-384 | hands out the window and resets it |
| Documents.Document.RecordSpliceBefore | src/document.rs:293-328 | records a splice in the open group, coalescing it when it may; outside a group the save point is lost |
| Documents.Document.DropRedo | src/document.rs:692-699 | drops the redo stack, and the save point if it was there |
| Documents.Document.InsertStrAtChar | src/document.rs:522-529 | the whole new document after a user insert, clamped into the text |
| Documents.Document.InsertChar | src/document.rs:479-486 | the same at a caret, for one character |
| Documents.Document.InsertStr | src/document.rs:512-518 | the same at a caret, for a run |
| Documents.Document.DeleteChars | src/document.rs:499-509 | the whole new document after a user delete, clamped; nothing for an empty range |
| Documents.Document.DeleteChar | src/document.rs:488-496 | deletes the one character at a caret |
| Documents.Document.DeleteLine | src/document.rs:617-641 | deletes the range `dd` removes |
| Documents.Document.ReplaceLineText | src/document.rs:644-658 | replaces the visible text of a line, keeping its line break |
| Documents.Document.ShiftRecordedSplices | src/document.rs:576-609 | remaps every recorded splice of the open group and both stacks |
| Documents.Document.InsertStrAtCharNoUndo | src/document.rs:539-547 | an insert the history does not record but is shifted for |
| Documents.Document.DeleteRangeNoUndo | src/document.rs:551-562 | a delete the history does not record but is shifted for |
| Documents.Document.BeginUndoGroup | src/document.rs:670-683 | opens a group unless one is open, and says which |
| Documents.Document.EndUndoGroup | src/document.rs:704-713 | pushes a non-empty group and drops an empty one |
| Documents.Document.PushEntry | src/document.rs:718-727 | pushes a group and evicts past the cap, the save point moving along |
| Documents.Document.ApplySplices | src/document.rs:747-784 | walks a group through the rope and returns its line shifts |
| Documents.Document.WalkHistory | src/document.rs:791-817 | one undo or redo: text, stacks, save point, caret to restore and shifts |
| Documents.Document.MarkSaved | src/document.rs:836-875 | a save, mid-group or not |
| Ranges.PartitionPoint | src/editor.rs:2359-2369 | the binary search finds the first range that ends past a line |
| Ranges.RangeContaining | src/editor.rs:2359-2362 | finds the range holding a line exactly when some range does |
| Ranges.RangesOverlap | src/editor.rs:2366-2369 | tells whether any line of a span is covered |
| Anchors.LineAnchorStore.AllocateFor | src/editor.rs:43-52 | returns the anchor on the line, a fresh id if there was none; both maps stay inverse |
| Anchors.LineAnchorStore.ShiftForInsert | src/editor.rs:58-86 | the descending in-place shift equals the shift of the whole map, and the maps stay inverse |
| Anchors.LineAnchorStore.ShiftForDelete | src/editor.rs:99-135 | the tail-only shift equals the full rebuild, with the same dropped set, and the maps stay inverse |
| Editors.EditorCore.ShiftFrozenAt | src/editor.rs:716-766 | frozen ranges, lock, blocks, anchors and cached tail all move for inserted lines; the frozen list stays sorted |
| Editors.EditorCore.ShiftFrozenForDeleteAt | src/editor.rs:788-839 | the same for deleted lines, with the tags of dropped anchors forgotten |
| Editors.EditorCore.ShiftForInsert | src/editor.rs:675-689 | shifts for an insert at a caret, from the next line on at or past the visible end |
| Editors.EditorCore.ShiftForTypedInsert | src/editor.rs:698-711 | shifts for a typed run, its first break landing after the characters before it |
| Editors.EditorCore.ShiftForDelete | src/editor.rs:770-782 | shifts for a delete of characters |
| Editors.EditorCore.AddFrozenLines | src/editor.rs:462-479 | freezes lines, merging what touches |
| Editors.EditorCore.IsFrozenLine | src/editor.rs:589-591 | equals linear membership |
| Editors.EditorCore.CanInsertCharAt | src/editor.rs:613-640 | the insert guard, atomic blocks included |
| Editors.EditorCore.CanDeleteRange | src/editor.rs:647-672 | the delete guard |
| Editors.EditorCore.ApplyAnchorShifts | src/editor.rs:536-562 | replays a history step and rejoins what it split |
| Editors.EditorCore.ProgrammaticInsert | src/editor.rs:843-852 | a non-undoable insert with everything shifted |
| Editors.EditorCore.ProgrammaticDelete | src/editor.rs:855-864 | a non-undoable delete with everything shifted |
| EditorViews.EditorView.InsertChar | src/editor.rs:1306-1321 | types one character under the guard |
| EditorViews.EditorView.InsertStr | src/editor.rs:1331-1350 | inserts a run in bulk, or character by character on a frozen or locked line |
| EditorViews.EditorView.PasteStr | src/editor.rs:1356-1366 | pastes as one undo step or into the open group |
| EditorViews.EditorView.DeleteChars | src/editor.rs:1283-1293 | deletes exactly the range the guard validated |
| EditorViews.EditorView.Backspace | src/editor.rs:1368-1379 | deletes the character before the clamped caret |
| EditorViews.EditorView.DeleteBackInLine | src/editor.rs:1384-1392 | deletes up to n characters before the caret on its line |
| EditorViews.EditorView.DeleteUnderCaret | src/editor.rs:1407-1428 | deletes the character under the caret; outside insert mode the caret stays on a character |
| EditorViews.EditorView.ReplaceCharAtCursor | src/editor.rs:1435-1455 | replaces the character under the caret as one undo step |
| EditorViews.EditorView.DeleteCurrentLine | src/editor.rs:1457-1472 | deletes the line as one undo step |
| EditorViews.EditorView.OpenLineBelow | src/editor.rs:1474-1486 | opens a line below and stays in the group |
| EditorViews.EditorView.OpenLineAbove | src/editor.rs:1488-1497 | opens a line above and stays in the group |
| EditorViews.EditorView.DeleteSelection | src/editor.rs:1209-1238 | deletes the selection, one character if it is empty |
| EditorViews.EditorView.HistoryStep | src/editor.rs:1510-1525 | undo and redo: document step, replayed shifts, clamped caret |
| EditorViews.EditorView.BeginInsert | src/editor.rs:1295-1298 | opens an insert session |
| EditorViews.EditorView.EndInsert | src/editor.rs:1300-1304 | closes it |
| EditorStreams.Editor.AppendLlmChunkFloored | src/editor.rs:1827-1914 | the whole new editor after a chunk |
| EditorStreams.Editor.FindLlmInsertionPoint | src/editor.rs:2053-2089 | the insertion point: after the turn, at the end of the text if another turn follows |
| EditorStreams.Editor.ContinuationRejoinPoint | src/editor.rs:2018-2051 | the end of the open line when the chunk goes on with its sentence |
| EditorStreams.Editor.LastLineWithMeta | src/editor.rs:393-405 | the reverse scan finds the highest tagged line, if there is one |
| EditorStreams.Editor.SpliceInsert | src/editor.rs:1695-1724 | a programmatic insert that keeps caret and selection on their characters |
| EditorStreams.Editor.LineTaggedOtherTurn | src/editor.rs:2094-2103 | tells whether a line carries another tag |
| EventLogs.EventLog.Push | src/event_log.rs:240-246 | appends at the tip position |
| EventLogs.EventLog.Trim | src/event_log.rs:297-327 | drops the front down to the low-water mark, never past the floor, and reports the highest turn dropped |
| EventLogs.EventLog.Prepend | src/event_log.rs:267-276 | puts the marker on the last dropped position |
| EventLogs.EventLog.Compact | src/bin/yalda-session-server/main.rs:542-573 | trims and leaves a marker; the tip does not move |
| EventLogs.EventLog.ResolveCursor | src/event_log.rs:339-352 | a tail exactly for a cursor of this generation within the resident range |
| EventLogs.EventLog.TailFrom | src/event_log.rs:184-186 | everything from an index on |
| QueueDriver.QueueingDriver.Drive | src/acp_channel.rs:3393-3505 | the select loop |
| QueueDriver.QueueingDriver.TripAll | src/acp_channel.rs:3480-3496 | a cancel trips the flag of every prompt in flight and prunes dead handles |
| QueueDriver.QueueingDriver.Failure | src/acp_channel.rs:3423-3460 | an error: cancelled, retried after a backoff, or failed |
| SerialDriver.SequentialDriver.Drive | src/acp_channel.rs:3512-3622 | the sequential loop |
| SerialDriver.SequentialDriver.Take | src/acp_channel.rs:3512-3519 | takes the next prompt, dropping cancels that queued while idle |
| SerialDriver.SequentialDriver.HandleFailure | src/acp_channel.rs:3561-3599 | an error: cancelled, retried in place, or failed |
| Keybinds.KeySequenceMatcher.Feed | src/keybind.rs:157-201 | what one key does to a pending prefix |
| Keybinds.KeybindManager.FeedKey | src/keybind.rs:262-311 | the recursive feeding loop |
| Keybinds.KeybindManager.ProcessKey | src/keybind.rs:247-251 | feeds a key and hands out the first action of the queue |
| Keybinds.KeybindManager.NextQueuedAction | src/keybind.rs:256-260 | hands out queued actions in order, each with its count |
| Keybinds.KeybindManager.TakeCount | src/keybind.rs:317-322 | the count of the action handed out, once; else the one being typed |
| Echoes.UserTurnReconciler.Reconcile | src/agent_transcript.rs:119-172 | the decision and the new queue |
| Echoes.UserTurnReconciler.NoteTurnProgressed | src/agent_transcript.rs:184-186 | a boundary forgets the last insertion and nothing else |
| Echoes.ReplayTurns.AdvanceUserBoundary | src/acp_channel.rs:528-535 | a replayed boundary opens the next turn |
| Echoes.ReplayTurns.FinishReplay | src/acp_channel.rs:539-542 | the replay cursor folds into the live counter |
| Codec.Serialize | src/agent_event.rs:383-414 | writes the tag first and then every field once |
| Codec.FlatPayload | src/agent_event.rs:502-519 | the entries without the first `kind`, the last of duplicates winning |
| Highlight.HighlightLines | src/md_highlight.rs:54-68 | the batch loop |
| Highlight.QuotePrefixLen | src/md_line.rs:60-70 | the length of a quote prefix |
| Inline.ScanUnescaped | src/md_highlight.rs:437-450 | the scanning loop |
| Inline.ScanDouble | src/md_highlight.rs:452-465 | the scanning loop for doubled markers |
| Inline.ScanSingle | src/md_highlight.rs:467-490 | the scanning loop for single markers |
| Inline.TokenizeInline | src/md_highlight.rs:326-435 | the tokenizing loop |

## Left out

- Files with CR LF line endings and the write to disk: a save is a step that records the text.
- Edits recorded with no undo group open, and undo or redo while a group is open.
- The wrap-around of the edit counter, and machine widths of line and character counts.
- The incremental parser, syntax colouring, the rope and JSON text themselves: a rope is a sequence of characters, an object an ordered list of entries, a syntax colourer a function parameter.
- Encodings of tool calls, tool updates, plans, usage, model lists and command lists: parameters that are assumed to be inverse pairs.
- The multi-key timeout: keys are fed without one.
- Sockets, write timeouts, WAL files and process handling around the log and the drivers; responses, errors, cancels and timers are events that may come in any order.
- Native steering beside the prompt drivers, which also counts turns.
- Editors.EditorCore.CanInsertCharAt: requires the atomic blocks to be sorted and disjoint, because a binary search over any other list has no promised result; `Blocks` shows what keeps them so.
- EditorViews.EditorView.InsertChar: requires the same of the blocks, and so do the other inserting commands; all of them keep the blocks sorted.
- EditorViews.EditorView.HistoryStep: does not say that atomic blocks stay sorted, which the source leaves to the next call of its block detector.
- Documents.Document.constructor: does not model the conversion of CR LF files on load.
- Documents.Document.MarkSaved: does not model the write to disk and its failure.
- ChunkDraft.DraftSurvives: needs a non-empty draft; what happens without one is NoDraftNoLine.
- DocHistory.InsertNoUndoCommutes: the condition is sufficient; equal characters can hide the damage of an edit inside recorded text, so it is not claimed necessary.
- Line-wise and extending selections, motions, and the projection of frozen lines to character ranges: they add only easy members.
- The subscriber's high-water eviction: a released forwarder stands for it.
