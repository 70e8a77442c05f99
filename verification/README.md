# Verification model of workstation-cli

workstation-cli is a terminal multiplexer: a daemon owns PTYs, and TUI clients subscribe to screens and drive a
workspace of offices, desks and tabs. This project models its five hard parts in Dafny 4.11 and proves what they keep.
`dafny verify dfyconfig.toml` checks everything.

| part | files |
|---|---|
| PTY output splitter, OSC 7 paths, reader thread | `Passthrough`, `Osc7`, `PtyReader`, `Streams` |
| push protocol: framing, diff and patch, push loop, graphics, subscribers, PTY sizes | `Framing`, `Screens`, `ScreenDiff`, `ClientScreen`, `PushChannel`, `Subscribers` |
| workspace: keys, modes, jumps, renames, double Esc | `Keys`, `RenameEditor`, `Jump`, `Workspace`, `WorkspaceRuns`, `WorkspaceLaws`, `TreeLaws`, `Shortcuts`, `Dialogs`, `ContentEsc`, `App` |
| runs that mix keys and mouse events | `MixedRuns`, `MixedEsc`, `StrandedDialogs`, `HitAreas` |
| layout arithmetic and mouse: tab bar, clicks and wheel, panel and caret | `Topbar`, `Mouse`, `Clicks`, `TerminalPanel` |
| process-tree walk | `ProcessTree` |
| shared | `Basics`, `Utf8` |

How it is built. Code that the source writes as loops and field updates is written that way here (`SplitPassthrough`,
`PtyOutput`, `PushSession`, `DaemonProvider`, `PtyProvider`, `BufReader`, `RenameState`, `TabBar`, `App`, the drawing
and search loops), and each such method is proved against a function of its inputs or old state. The theorems are about
those functions: the splitter's factoring, the push pipeline's runs, the workspace state machine's runs. For the
workspace the state machine is `Workspace.Step`; `App.App.EventLoop` proves that the object with the source's fields
follows it over every safe run, and `App.RunClient` what that means from the client's start; `App.App.MixedLoop` and
`App.RunMixedClient` do so for runs with the mouse.

The main theorems:

- every byte string has exactly one factoring into text, escape pairs, control strings and an unfinished tail, and the
  splitter's three outputs are read off it (`FactorsUniquely`, `SplitInvertsPrint`); said without the machine, any output
  is a list of pieces in their own bytes, and the three streams are what the pieces mean (`EveryOutputIsPieces`,
  `StreamsAreAsMeant`), down to the directory that a shell's report sets (`ReportSetsDirectory`);
- in every keyboard run with redraws between keys the workspace stays valid: nothing empty, every index in range, at
  most one mode open, dialog indices in range (`RedrawnRunsAreSafe`, `Run`);
- over all timed interleavings of keys, loop passes and pastes, the key bytes sent plus the Esc held back are exactly
  what was typed, tab by tab and in order, without the double Escs (`NothingLostOrReordered`), and what a program is sent
  for a key is what xterm's tables read as that key (`ProgramGetsKey`);
- every row of the documented tables of keys and of mouse actions does what it says, to the last field, with the keys
  that quit and those that do nothing characterised exactly (`Shortcuts`, `Clicks`);
- in every run that mixes keys and mouse events with redraws between them, every index stays in range exactly when no
  rename is committed to a place that has gone, and what leaves a dialog in place is known input by input
  (`MixedRunIsFineIff`, `MixedStepKeepsSound`, `SteadyCommitsInPlace`);
- over all timed runs that mix keys and mouse events the key bytes are still sent in order and complete, each to the tab
  it was typed in except for an Esc, which goes to the tab that is active when it is sent (`MixedNothingLost`);
- in every reachable state of the push pipeline the last frame sent agrees with the last screen sampled, the worker's
  cache with it once the channel is drained, which draws are served from the cache is known exactly, and graphics
  commands are conserved (`WorkerCatchesUp`, `DrawIsServedIff`, `GraphicsConserved`);
- the split of the PTY output into reads cannot be observed exactly when every cut falls outside a sequence
  (`CutsAreUnseenIff`);
- subscriber counts are exact over all interleavings (`CountsAreExact`), a child that is started gets the size last asked
  of its instance (`ChildStartsAtLastAsked`), any message interleaving decodes to what was
  sent (`DecodesWhatWasSent`), and the process walk is exact and terminates exactly without cycles
  (`CollectDescendants`, `TerminatesIff`).

## Where the code and its documentation or intent part

The model follows the code. Each of these is a lemma with the exact condition or the input.

- src/passthrough.rs:12-13 says that only APC and OSC 7 are removed from the emulator's bytes; every OSC is
  (`IdentityIffNoStrings`).
- src/passthrough.rs:40-42 says that a string cut by a chunk boundary is emitted as normal bytes. The first half is
  dropped, and the second is read on its own, as text where it holds no ESC (`CutInsideApc`).  A cut goes unnoticed,
  whatever follows, exactly when the machine is in its normal state there: not after a lone ESC, nor anywhere in an
  APC or OSC (`CutIsUnseenIff`, and `CutsAreUnseenIff` for a whole sequence of reads).
- src/passthrough.rs:193-194 says that percent-decoding leaves multi-byte UTF-8 intact. It keeps a path exactly when
  the path is ASCII (`PathIntactIffAscii`).
- `spawn` records a size without resizing a live PTY, so that the resize that follows is skipped
  (`ResizeTakesEffectIff`, `SpawnThenResizeIsLost`).
- A tab closed and spawned again while drawn escapes its subscriber count: both clients may then resize
  (`RespawnEscapesTheCount`).  So does a tab that two clients spawn at the same time, since a spawn request looks for the
  tab and puts it in as two steps (`SpawnRaceEscapesTheCount`).  The guard keeps resizing to a tab's sole viewer exactly
  when it has at most one viewer or its present instance has at least two subscribers (`SoleViewerResizesIff`; within
  one instance `OnlySoleSubscriberResizes`).
- The tab bar's scroll loop does not count its own left arrow, so that the active tab can be left undrawn
  (`ArrowHidesActive`, `ActiveIsDrawnIff`); in a bar too narrow for the columns it reserves the new-tab button lies past
  the border (`ButtonIsInsideIff`).
- docs/KEYBOARD_SHORTCUTS.md promises Jump labels from letters only, an Esc that enters Jump Mode anywhere, the sidebar or
  the bar in focus after a label, two focus keys in Jump Mode and Alt with 1 to 9.  Labels include digits
  (`LabelsAreUsable`), the terminal takes two Escs (`JumpModeOpensIff`) and keeps the focus when a label is chosen from it
  (`LabelReachesTarget`), Right and Down switch the focus too (`JumpArrows`), and Alt with 0 goes to the first tab
  (`AltDigitSwitches`).
- A press on a row of the list of desks does not count how far the list has been scrolled: it selects the desk under the
  pointer exactly when the list has not been scrolled (`ShownDeskIsSelectedIff`).
- A frame that was under way when the window was resized is cached for the new size, and served for it exactly when its
  height is the new one: a change of width alone shows the old frame (`OldFrameIsServedIff`).
- On a screen without lines, which is what a client without a daemon shows, the caret falls below the panel
  (`CaretInsideIff`).
- Several keys may be handled before a redraw, so that a jump label can name a tab that is gone, and the next index
  panics (`FreshClientMeetsStaleHit` has keys that do it in the default workspace).  Jump Mode is safe exactly when every
  tab that has a label exists (`JumpModeIsSafeIff`), and clicks when the tab of every area does (`ClicksAreSafeIff`).
  Right after a draw they do; an event or a mouse event keeps every tab that the draw recorded exactly when the desk it
  selects has tabs enough, which `TabsAfterEvent` and `TabsAfterMouse` work out before it (`EventKeepsHitsIff`,
  `MouseKeepsHitsIff`).
- A client without its daemon quits on `q` and `Q` before any dialog sees the key (src/client/input.rs:24-31), so that a
  name with either letter cannot be typed (`DialogEdits`, `TypingExtendsTheNameIff`), nor an office of such a name
  confirmed for deletion (`ConfirmingDeletesIff`).
- The mouse is not held back by the modes.  A press that opens the selector, or a double click that opens the rename
  dialog, can leave two modes open (`MouseKeepsExclusiveIff`).  A dialog then outlives its place when an office is
  chosen, deleted or created, or a desk deleted, over it, and Enter panics: `KeyStrandsDialogIff` is the condition for
  every key, `SwitchStrandsDialogIff` and `DeletionStrandsDialogIff` two cases of it.  Every client gets there, from
  whatever workspace it starts in and with whatever office onboarding creates (`AnySidebarStrandsDialog`,
  `ClientStartsAtSidebar`).
- An Esc that is held back follows the mouse to whatever tab it activates (`MouseRedirectsEscIff`, and over whole runs
  `ReaddressesIff` and `StayingSendsHome`), and a single click on a desk does not spawn its tab (`MouseKeepsLiveIff`).
- A paste overtakes an Esc that is held back (`PasteInOrderIff`).
- Deleting an office before the current one makes the next office current, unless the current one was the last
  (`RemovingAnOffice`).
- A saved workspace is used as it is: the client starts valid exactly when the file had no empty office and no active
  tab out of range (`StartsValidIff`).  The default workspace is used only when that file cannot be read or has no
  office: with no file at all, onboarding writes one first, and the client exits if it is cancelled
  (src/main.rs:143-155).

## Model

| member | source | states |
|---|---|---|
| Passthrough.SplitPassthrough | src/passthrough.rs:43-165 | the byte loop's three outputs are the in-order text, rewrapped APC bodies and OSC 7 paths of the input's factoring |
| Passthrough.FactorsUniquely | src/passthrough.rs:71-149 | every byte string is printed by exactly one well-formed factoring into text, pairs, complete strings and an unfinished tail, and that is the one the machine computes |
| Passthrough.SplitInvertsPrint | src/passthrough.rs:43-165 | printing any well-formed token list, with any terminators and unfinished tail, and splitting it returns its parts |
| Passthrough.NormalIsStable | src/passthrough.rs:71-164 | splitting the emulator's bytes again returns them unchanged and extracts nothing |
| Passthrough.ApcsAreStable | src/passthrough.rs:50-60 | splitting the concatenated APC sequences again returns the same list, with no bytes for the emulator |
| Passthrough.IdentityIffNoStrings | src/passthrough.rs:62-69 | the emulator gets the chunk unchanged exactly when it holds no control string, finished or not: every OSC is dropped, not only OSC 7 |
| Passthrough.CleanCut | src/passthrough.rs:151-162 | a cut where the machine is in its normal state splits the three output streams at the cut |
| Streams.StreamsAreAsMeant | src/passthrough.rs:43-165 | whatever text, escapes, graphics and commands a program writes, with any of their terminators, the emulator gets the text and escapes, each graphics command goes out rewrapped, and each OSC 7 report gives its path |
| Streams.UnendedIsDropped | src/passthrough.rs:151-164 | at the end of a read a lone ESC still goes to the emulator, and a command that has not ended leaves nothing |
| Streams.EveryOutputIsPieces | src/passthrough.rs:71-149 | any bytes at all are such pieces and such an ending |
| Streams.ReportSetsDirectory | src/providers/pty_provider.rs:190-206 | a report `ESC ]7;file://host/path` with any bytes of the path percent-encoded and any terminator sets exactly that directory and shows nothing |
| PtyReader.PtyOutput.OnRead | src/providers/pty_provider.rs:190-206 | one read feeds the emulator, extends the graphics queue, and sets the working directory to the last path reported |
| PtyReader.PtyOutput.ReaderLoop | src/providers/pty_provider.rs:184-212 | the reader thread does so for every chunk in order |
| PtyReader.PtyOutput.TakePendingGraphics | src/providers/pty_provider.rs:389-395 | hands over the whole graphics queue and leaves it empty |
| PtyReader.ChunkingIndependent | src/providers/pty_provider.rs:184-211 | if every cut falls in the normal state, chunked reading gives the same emulator bytes, graphics and directory as one read |
| PtyReader.CutIsUnseenIff | src/passthrough.rs:151-162 | two reads do what one read of both does, for every state and every continuation, exactly when the cut falls in the normal state |
| PtyReader.CutsAreUnseenIff | src/providers/pty_provider.rs:184-211 | no cut of a sequence of reads can be observed exactly when every one of them is in the normal state |
| PtyReader.CutInsideApc | src/passthrough.rs:36-42 | an APC cut anywhere in its body is not extracted: the first half is dropped, and the second half is read on its own, as text where it holds no ESC |
| Osc7.PercentDecodeLoop | src/passthrough.rs:195-211 | the index loop computes percent decoding, an escape being taken only when two more bytes follow |
| Osc7.DecodesEveryEncoding | src/passthrough.rs:193-211 | any way of escaping a byte string, in which literal percent signs are escaped, decodes to those bytes as characters |
| Osc7.HexDigitIff | src/passthrough.rs:213-221 | a byte is read as a digit exactly when it is the hexadecimal digit, of either case, for that value |
| Osc7.StrayPercentStays | src/passthrough.rs:199-209 | a percent sign without two digits after it stays |
| Osc7.PathIntactIffAscii | src/passthrough.rs:193-211 | a path without escapes survives exactly when it is ASCII |
| Osc7.ParseOsc7Exact | src/passthrough.rs:171-191 | a body yields a path exactly when it is UTF-8, begins with `7;` and goes on with a `file:` URI that has a slash, or with a slash |
| Osc7.ReadsReport | src/passthrough.rs:174-184 | a report of an encoded path on any host yields that path |
| Utf8.DecodeIsInverse | src/passthrough.rs:172 | `str::from_utf8` accepts exactly the encodings (section 3 of RFC 3629), and returns the text encoded |
| Utf8.EncodesByTable | src/passthrough.rs:172 | a character's bytes are those of the table of section 3 of RFC 3629 |
| Utf8.EncodedPrefixIsBoundary | src/client/app.rs:122-135 | the encoded length of a prefix is a character boundary of the whole text's encoding |
| Framing.LengthSurvivesIff | src/providers/daemon_provider/mod.rs:257-260 | a payload length survives the four-byte header exactly when it is below 2^32 |
| Framing.LowestByteFirst | src/providers/daemon_provider/mod.rs:257-260 | the four header bytes are the length modulo 2^32, lowest byte first, and are read so |
| Framing.WireForms | src/daemon/service.rs:260-283 | a frame is a zero byte, its length and the payload; a line ends with a newline |
| Framing.EncodeFrame | src/providers/daemon_provider/mod.rs:257-260 | the buffer sent is the zero byte, the length and the payload |
| Framing.ReadItem | src/daemon/service.rs:260-296 | one turn of the reader takes the first item off the stream and nothing more, or reports how the stream ended |
| Framing.RequestLoop | src/daemon/service.rs:259-296 | the request loop handles exactly the decodable items of the stream in order, and ends as the stream does |
| Framing.DecodesWhatWasSent | src/daemon/service.rs:259-296 | any interleaving of frames under 2^32 bytes and lines not starting with a zero byte decodes to exactly the payloads sent, in order |
| Framing.ConsumesOnlyWhatItReads | src/daemon/service.rs:267-287 | on any stream, the items read print back to the bytes consumed, and the loop stops at the end or inside a frame |
| Framing.UndecodableSkipsItself | src/daemon/service.rs:275-278 | an undecodable payload consumes its own frame only |
| Framing.BufReader.Take | src/daemon/service.rs:269-272 | takes exactly the bytes asked for, or none when the stream is too short |
| Framing.BufReader.ReadLine | src/daemon/service.rs:282-283 | takes the bytes up to and including the newline, or to the end of the stream |
| ScreenDiff.ComputeChanged | src/daemon/service.rs:664-697 | the loop lists each line position that differs, with the new line or the blank that clears a removed one |
| ScreenDiff.ApplyChanged | src/providers/daemon_provider/worker.rs:209-218 | the loop sets each listed line, growing the screen with empty lines as needed |
| ScreenDiff.PatchInvertsDiff | src/daemon/service.rs:664-697 | patching the changes onto the previous lines gives the new lines, then a blank row for each removed one |
| ScreenDiff.NoChangesIffEqual | src/daemon/service.rs:668-704 | the list is empty exactly when the two screens have the same lines |
| ScreenDiff.LineLimitIsExact | src/daemon/service.rs:673 | diff and patch are inverse on all screens of up to n lines exactly when n is at most 65536 |
| ScreenDiff.LongScreenWraps | src/daemon/service.rs:673 | beyond that bound, which the 16-bit row count of `get_screen` keeps, a change to line 65536 is patched into line 0 |
| PushChannel.PushSession.constructor | src/daemon/service.rs:530-554 | a subscription sends a full frame at once and remembers it as the last one sent |
| PushChannel.PushSession.OnResize | src/daemon/service.rs:588-591 | a resize sets the size and forgets the last frame sent |
| PushChannel.PushSession.Sample | src/daemon/service.rs:657-738 | one pass suppresses an unchanged screen, or sends it whole and remembers it |
| PushChannel.PushSession.SendGraphics | src/daemon/service.rs:740-762 | once the frame is written, the graphics queued by then follow it and the queue is empty |
| ClientScreen.DaemonProvider.OnMessage | src/providers/daemon_provider/worker.rs:180-232 | screens replace the cache, recorded for the size subscribed to, diffs patch a present one, graphics extend the queue |
| ClientScreen.DaemonProvider.CachedScreen | src/providers/daemon_provider/mod.rs:229-245 | serves the cached screen for the size it was recorded for, if it has that many lines |
| ClientScreen.DaemonProvider.GetScreen | src/providers/daemon_provider/mod.rs:361-430 | from the cache, marking a bell as heard, or else fetched, counted, and recorded if it has the height asked for |
| ClientScreen.DaemonProvider.Resize | src/providers/daemon_provider/mod.rs:296-317 | drops the cache unless the size is the present one |
| ClientScreen.DaemonProvider.SendSize | src/providers/daemon_provider/worker.rs:103-122 | the worker tells the daemon the size asked for once it is another one |
| ClientScreen.DaemonProvider.Scroll | src/providers/daemon_provider/mod.rs:432-453 | scrolling fetches and records a screen at once, whatever its height |
| ClientScreen.BellRingsOnce | src/providers/daemon_provider/mod.rs:371-381 | a screen served from the cache is served again without its bell |
| ClientScreen.FetchedIsServedIff | src/providers/daemon_provider/mod.rs:390-404 | a fetched screen is served from then on exactly when it has the height asked for, and for that size alone |
| ClientScreen.ResizingDropsTheCacheIff | src/providers/daemon_provider/mod.rs:269-317 | nothing cached survives a spawn or a resize to another size; a resize to the same size does nothing |
| ClientScreen.FrameIsServedIff | src/providers/daemon_provider/worker.rs:180-196 | a full frame is served exactly at the size the worker last told the daemon and at its own height; its directory, if any, becomes the one reported |
| ClientScreen.ScrollIsServedIff | src/providers/daemon_provider/mod.rs:432-453 | what scrolling fetched is served for the size last asked for exactly when it has that height |
| ClientScreen.NoAnswerShowsNothing | src/providers/daemon_provider/mod.rs:405-430 | without a cached screen and an answer an empty screen is shown and nothing is recorded |
| ClientScreen.DaemonProvider.TakePendingGraphics | src/client/app.rs:920-923 | the client takes the whole queue and leaves it empty |
| PushChannel.SendsIff | src/daemon/service.rs:663-723 | a pass sends a frame exactly when a resize forced one, a line, cursor, shape, title or focus flag changed, or the bell rang |
| PushChannel.StepKeepsInv | src/daemon/service.rs:533-737 | every step keeps: the last frame sent agrees with the last sample, the channel ends in it, and graphics are accounted for |
| PushChannel.RunKeepsInv | src/daemon/service.rs:559-763 | so does every run |
| PushChannel.WorkerCatchesUp | src/providers/daemon_provider/worker.rs:181-196 | in every reachable state the last frame sent agrees with the last sample; once the channel is drained so does the last frame received, and the worker's cache unless the client dropped or replaced it since |
| PushChannel.CacheCatchesUp | src/providers/daemon_provider/worker.rs:181-196 | after a screen is delivered, events that leave the cache alone end, with the channel drained, in a cache that agrees with the last sample |
| PushChannel.DrawIsServedIff | src/providers/daemon_provider/mod.rs:229-245 | drained and up to date with the sizes sent, a draw is served the last sample exactly at the size told to the daemon and at the sample's height |
| PushChannel.OldFrameIsServedIff | src/providers/daemon_provider/worker.rs:103-194 | a frame sampled before a resize is served at the new size exactly when its height is the new one |
| PushChannel.SizeIsSentIff | src/providers/daemon_provider/worker.rs:103-122 | the worker sends the size asked for exactly when it has both sides and is another than the last one sent |
| PushChannel.PassInTwoSteps | src/daemon/service.rs:657-762 | a pass sends the screen and then all graphics that have come by then, or neither |
| PushChannel.GenerationMovesIff | src/providers/daemon_provider/worker.rs:180-205 | the counter that tells the UI to draw moves on by one exactly when a frame or a fetched screen has come |
| PushChannel.GraphicsConserved | src/client/app.rs:911-945 | emitted, client queue, frames in flight and daemon queue together are the APCs intercepted so far, in order |
| PushChannel.ResizeForcesFrame | src/daemon/service.rs:588-591 | after the push loop has read a resize the next sample is sent, however little has changed |
| PushChannel.DiffRefinesFullFrame | src/providers/daemon_provider/worker.rs:197-226 | an incremental frame leaves an agreeing cache where a full frame would, up to blank rows |
| Subscribers.PtyProvider.EnsureRunning | src/providers/pty_provider.rs:244-293 | respawns an exited or absent child at the recorded size, at least one by one |
| Subscribers.PtyProvider.Spawn | src/providers/pty_provider.rs:303-306 | records the size and ensures a child runs, without resizing a live one |
| Subscribers.PtyProvider.Resize | src/providers/pty_provider.rs:308-332 | skips the size already recorded, else records it and resizes the live PTY |
| Subscribers.SpawnStartsAt | src/providers/pty_provider.rs:244-306 | a child that is started gets the size asked for, each side at least one; a running one keeps its size |
| Subscribers.RecordsLastAsked | src/daemon/service.rs:312-607 | in every run the size on record of an instance is the one last asked of it, or 24 by 80 |
| Subscribers.ChildStartsAtLastAsked | src/providers/pty_provider.rs:244-293 | in every run a child that is started gets the size last asked of its instance, each side at least one |
| Subscribers.ResizeTakesEffectIff | src/providers/pty_provider.rs:308-313 | a resize leaves a live PTY at the size asked for unless that size was recorded but never applied |
| Subscribers.SpawnThenResizeIsLost | src/providers/pty_provider.rs:303-313 | spawning a live tab at a new size and then resizing to it changes nothing |
| Subscribers.StepKeepsInv | src/daemon/service.rs:303-512 | every step of the connections keeps each instance's counter equal to the number of its subscribers |
| Subscribers.CountsAreExact | src/daemon/service.rs:502-512 | over all interleavings of close, subscribe, resize, exit and the three steps of a spawn, each counter is the number of connections in push mode on its instance |
| Subscribers.OnlySoleSubscriberResizes | src/daemon/service.rs:588-607 | a push-mode resize of the instance subscribed to goes through only for its sole subscriber |
| Subscribers.RespawnEscapesTheCount | src/daemon/service.rs:474-483 | after a close and respawn the first client is not counted, and both may resize |
| Subscribers.SpawnRaceEscapesTheCount | src/daemon/service.rs:312-341 | two connections that both find no such tab leave two instances, and again both may resize |
| Subscribers.SoleViewerResizesIff | src/daemon/service.rs:597-604 | in every reachable state only a tab's sole viewer may resize it exactly when it has at most one viewer, or its present instance at least two subscribers |
| ProcessTree.BuildChildren | src/daemon/spawn.rs:262-288 | the map lists each parent's children in directory order |
| ProcessTree.CollectDescendants | src/daemon/spawn.rs:290-301 | without a visited set, returns each proper descendant once and nothing else, given one parent per pid and no cycle at the root |
| ProcessTree.ExpandKeepsFrontier | src/daemon/spawn.rs:292-299 | expanding the top of the stack finds only processes not seen before |
| ProcessTree.TerminatesIff | src/daemon/spawn.rs:292-300 | the loop ends exactly when the root is not its own descendant |
| Keys.KeysArePrefixFree | src/client/input.rs:436-506 | without modifiers no key's bytes begin another's, the escape character apart, and equal bytes mean the same key or the same character |
| Keys.ProgramReadsKey | src/client/input.rs:436-506 | every key's bytes are what xterm's tables, the five low bits of Ctrl, UTF-8 and the Alt prefix read as that key; the keys without bytes are exactly those that have no such reading |
| RenameEditor.CharOffsetIsEncodedLength | src/client/app.rs:122-135 | a character's byte index is the summed encoded length of the characters before it |
| RenameEditor.CharOffsetCuts | src/client/app.rs:122-135 | that index is a boundary, and cuts the buffer into the encodings of the two halves |
| RenameEditor.RenameState.constructor | src/client/app.rs:64-71 | the dialog opens on the text with the cursor at its end |
| RenameEditor.RenameState.InsertChar | src/client/app.rs:93-97 | inserts the character at the cursor and moves past it |
| RenameEditor.RenameState.Backspace | src/client/app.rs:99-107 | removes the character before the cursor, if any |
| RenameEditor.RenameState.Delete | src/client/app.rs:109-116 | removes the character under the cursor, if any |
| RenameEditor.RenameState.MoveLeft | src/client/app.rs:77-79 | moves one character left, stopping at the start |
| RenameEditor.RenameState.MoveRight | src/client/app.rs:81-83 | moves one character right, stopping at the end |
| RenameEditor.RenameState.Run | src/client/app.rs:77-135 | over any run of edits the buffer is the encoding of the edited characters, the cursor stays in range, and no byte index is off a boundary |
| RenameEditor.RenameState.PopupSlices | src/client/ui/overlay.rs:129-134 | the popup's three slices are the encodings of the text before, at and after the cursor |
| RenameEditor.EditsAround | src/client/app.rs:77-116 | what each edit does to the text before and after the cursor |
| RenameEditor.ErasesText | src/client/app.rs:99-107 | as many backspaces as characters erase a text before the cursor |
| RenameEditor.BackspaceUndoesInsert | src/client/app.rs:93-107 | backspace undoes an insertion |
| RenameEditor.DeleteIsMoveRightBackspace | src/client/app.rs:81-116 | delete is a step right and a backspace |
| RenameEditor.TypingInserts | src/client/app.rs:93-97 | typing a text puts it, in order, at the cursor |
| Jump.LabelsAreUsable | src/client/jump.rs:4-17 | the labels are distinct alphanumeric keys, and exactly those not reserved for the focus |
| Jump.VisibleDesks | src/client/jump.rs:19-31 | the visible desks are consecutive, exist, and are never none while there are desks |
| Jump.VisibleIff | src/client/jump.rs:19-31 | a desk is visible exactly when it exists and stands in the rows between the borders, from the clamped offset on |
| Jump.JumpTargets | src/client/jump.rs:33-104 | the loops fill the slots in each focus's order, up to the number of labels |
| Jump.Interleave | src/client/jump.rs:76-100 | the balanced loop gives the i-th slot to the kind and index that alternation from a tab prescribes |
| Jump.TargetsKeepOrder | src/client/jump.rs:33-104 | each tab and desk that fits has its slot, and each kind keeps its order |
| Jump.TargetsAreSound | src/client/jump.rs:33-104 | never more targets than labels, none twice, and all visible ones when they fit |
| Jump.ContentIsBalanced | src/client/jump.rs:76-100 | in Content every prefix holds as many tabs as desks, or one more, until a kind runs out |
| WorkspaceLaws.LabelReachesTarget | src/client/app.rs:1058-1102 | in Jump Mode with fresh hits, pressing the i-th label reaches the i-th target: the desk is selected or the tab active, the focus follows, the mode closes |
| WorkspaceLaws.LabelIsNoCommand | src/client/input.rs:172-222 | no label is a key that Jump Mode takes as a command |
| WorkspaceLaws.StaleHitIsReachable | src/main.rs:481-550 | keys handled in one batch: closing a tab on the bar and pressing the label of the last tab drawn reaches an index out of range |
| WorkspaceLaws.FreshClientMeetsStaleHit | src/main.rs:481-550 | in the default workspace, with two tabs drawn, the keys x, Esc and b meet it |
| WorkspaceLaws.BarDraws | src/client/ui/topbar.rs:31-138 | what the tab bar settles on and records is what the state machine takes a draw to leave |
| Clicks.RowSelectsDesk | src/client/mouse.rs:71-92 | a press on the j-th row of the list selects the j-th desk; twice, it spawns it and focuses the terminal |
| Clicks.ShownDeskIsSelectedIff | src/client/mouse.rs:74-75 | it selects the desk under the pointer exactly when the list has not been scrolled |
| Clicks.TerminalIsTold | src/client/mouse.rs:12-56 | over the terminal a program that tracks the mouse is told the button and the cell inside the border, in decimal; otherwise the wheel scrolls three lines |
| Clicks.DecimalSpells | src/client/mouse.rs:30-55 | decimal digits spell their number, without leading zeros |
| Clicks.DoubleIff | src/client/mouse.rs:76-82 | a press is the second of a double click exactly on the same cell within 400 milliseconds |
| Clicks.ButtonsAndWheel | src/client/mouse.rs:62-68 | the selector's button opens the list on the current office; the wheel walks the desks or turns the bar by one |
| Clicks.PlusOpensTab | src/client/mouse.rs:95-103 | a press on the bar's button appends a numbered tab, activates and spawns it |
| Mouse.ClickKeepsExclusiveIff | src/client/mouse.rs:58-147 | a press leaves at most one mode open exactly when it opens the selector or the rename dialog over no other mode |
| Mouse.MouseKeepsExclusiveIff | src/client/mouse.rs:6-202 | so for every mouse event, by what its press aims at |
| StrandedDialogs.KeyStrandsDialogIff | src/client/app.rs:1029-1051 | a key leaves Enter to commit a rename out of range exactly when there is a name and the key has put desks or offices in place among which the target is not |
| StrandedDialogs.SwitchStrandsDialogIff | src/client/input.rs:129-133 | an office chosen over a rename dialog strands it exactly when that office has not the desk, or not the tab, that it holds |
| StrandedDialogs.DeletionStrandsDialogIff | src/client/input.rs:74-86 | an office deleted over a rename dialog strands it exactly when the office that becomes current has not the desk or tab that it holds, or the office's index is gone |
| StrandedDialogs.AnySidebarStrandsDialog | src/client/app.rs:1036-1042 | from any workspace with the sidebar focused, and for every office that onboarding may create: n pressed as often as that office has desks, r, a press on the selector and the creation end where Enter renames a desk that is not there |
| StrandedDialogs.ClientStartsAtSidebar | src/client/app.rs:383-501 | every client starts in such a workspace |
| HitAreas.JumpModeIsSafeIff | src/client/app.rs:1058-1102 | in Jump Mode no key indexes out of range exactly when every tab that has a label exists |
| HitAreas.TargetsExistIff | src/client/jump.rs:33-46 | with labels enough, that is when every tab that the last draw recorded exists |
| HitAreas.ClicksAreSafeIff | src/client/mouse.rs:95-134 | in the bar as drawn, no click indexes out of range exactly when the tab of every area that has a cell exists |
| HitAreas.HandleKeyLeaves | src/client/input.rs:17-434 | a key leaves the hits as drawn, and selects a desk with the number of tabs worked out before it |
| HitAreas.EventLeaves | src/main.rs:381-550 | so does every event of the main loop but a draw |
| HitAreas.MouseLeaves | src/client/mouse.rs:6-202 | so does every mouse event |
| HitAreas.EventKeepsHitsIff | src/main.rs:481-550 | a draw makes every recorded tab exist; any other event leaves it so exactly when the desk selected then has tabs enough |
| HitAreas.MouseKeepsHitsIff | src/client/mouse.rs:6-202 | so for every mouse event |
| MixedRuns.HandleKeyKeeps | src/client/input.rs:17-434 | with any modes open, a key that meets no stale hit and no stale commit keeps the tree sound; a dialog's place survives it exactly when it is among what the key puts in place |
| MixedRuns.MouseKeepsSound | src/client/mouse.rs:6-202 | so does every mouse event, which never strands a dialog |
| MixedRuns.StepKeepsSound | src/main.rs:381-550 | so for every event of the main loop |
| MixedRuns.MixedStepKeepsSound | src/main.rs:481-550 | so for every input of a mixed run |
| MixedRuns.MixedRunIsFineIff | src/main.rs:481-550 | with redraws between inputs, a mixed run keeps every index in range exactly when no rename in it is committed to a place that has gone |
| MixedEsc.MixedNothingLost | src/client/input.rs:295-329 | over all timed runs of keys, loop passes, pastes and mouse events, bytes sent and the Esc held back are exactly what was typed, in order, without the double Escs, and to the tab it was typed in but for an Esc |
| MixedEsc.MixedJumpModeOpensIff | src/client/input.rs:306-325 | after any such run an Esc opens Jump Mode exactly when it completes a double one |
| MixedEsc.InputKeepsAccount | src/client/mouse.rs:6-202 | every input keeps the account, an Esc held back being taken along |
| MixedEsc.ReaddressesIff | src/client/input.rs:300-304 | an input changes the tab of a key exactly when it leads away from an Esc that is held back |
| MixedEsc.StayingSendsHome | src/client/app.rs:373-381 | a run that never does sends every key to the tab it was typed in |
| MixedRuns.SteadyCommitsInPlace | src/client/app.rs:1029-1051 | a run whose inputs each leave the open dialog in place commits in place |
| Mouse.OnMouse | src/client/mouse.rs:6-202 | every mouse event that does not hit the area of a tab that is gone keeps the tree sound: nothing empty, current indices in range |
| Mouse.ShownIsNotStale | src/client/mouse.rs:106-113 | with the hit areas of the last draw, no press does |
| Mouse.AimsAtTabs | src/client/mouse.rs:104-134 | a press that activates a tab names one that exists |
| Mouse.ClickActivatesTab | src/client/mouse.rs:95-134 | a single click in the i-th hit area makes exactly the i-th tab shown active, spawns it and focuses the bar |
| Mouse.MouseKeepsLiveIff | src/client/mouse.rs:71-92 | a mouse event leaves the active tab spawned, except a single click on a desk whose tab had not been |
| Mouse.MouseIsQuiet | src/client/mouse.rs:6-202 | no mouse event sends key bytes or touches the Esc held back |
| Mouse.MouseRedirectsEscIff | src/client/mouse.rs:6-202 | an Esc held back through any mouse event is sent to the tab that the event leads to, which is worked out beforehand; it reaches its own tab exactly when they are the same |
| Mouse.TabAfterIsActive | src/client/mouse.rs:71-165 | the tab that a click or a turn of the wheel leads to is the one active after it |
| Mouse.WheelStaysOnTabs | src/client/mouse.rs:148-199 | the wheel never scrolls the bar past the last tab |
| Mouse.WheelPastActiveIsUndone | src/client/mouse.rs:159-199 | a step of the wheel past the active tab is undone by the next draw |
| App.App.HandleMouse | src/client/mouse.rs:6-202 | the handler does what the model of mouse events says, and remembers the last press |
| WorkspaceLaws.RemovingAnOffice | src/client/input.rs:77-84 | the other offices survive in order; the current one stays current only before the deleted one, or as the last |
| WorkspaceLaws.WhitespaceIs | src/client/app.rs:1031 | what is trimmed is Unicode's white space |
| WorkspaceLaws.TrimTrims | src/client/app.rs:1031 | trimming removes white space from both ends and nothing else |
| WorkspaceLaws.ActiveTabIsSpawned | src/main.rs:368-375 | from the start and in every safe run the active tab has been spawned since it was last closed |
| Shortcuts.SidebarUp | docs/KEYBOARD_SHORTCUTS.md:27 | Up selects the desk above and spawns its tab, or does nothing at the top but turn the bar back |
| Shortcuts.SidebarDown | docs/KEYBOARD_SHORTCUTS.md:27 | Down likewise |
| Shortcuts.SidebarNewDesk | docs/KEYBOARD_SHORTCUTS.md:28 | `n` appends a numbered desk with one tab, selects and spawns it |
| Shortcuts.SidebarKeys | docs/KEYBOARD_SHORTCUTS.md:29-33 | `x` asks before closing, `r` renames, `o` lists offices, `s` opens settings, Enter goes to the terminal |
| Shortcuts.PanelKeys | docs/KEYBOARD_SHORTCUTS.md:34-35 | on both panels Esc enters Jump Mode and `q` quits |
| Shortcuts.TopbarLeft | docs/KEYBOARD_SHORTCUTS.md:41 | Left activates and spawns the tab before, if there is one |
| Shortcuts.TopbarRight | docs/KEYBOARD_SHORTCUTS.md:41 | Right likewise the tab after |
| Shortcuts.TopbarTabs | docs/KEYBOARD_SHORTCUTS.md:42-43 | `n` appends a numbered tab; `x` ends and removes the active one, unless it is the only one |
| Shortcuts.TopbarKeys | docs/KEYBOARD_SHORTCUTS.md:44-45 | `r` renames the tab, Enter goes to the terminal |
| Shortcuts.ContentScrolls | docs/KEYBOARD_SHORTCUTS.md:54-55 | Shift and a page key scroll five lines back or forth |
| Shortcuts.AltDigitSwitches | docs/KEYBOARD_SHORTCUTS.md:93 | Alt and a digit go to the tab of that number, its program being told if it asked |
| Shortcuts.JumpArrows | src/client/input.rs:193-215 | in Jump Mode the arrows lead to the panel on their side, and Esc leaves |
| Shortcuts.JumpCommands | src/client/input.rs:174-192 | in Jump Mode `q` quits, `r` renames or restarts by focus, and `c` opens copy mode in the terminal |
| Shortcuts.LabelTells | src/client/app.rs:1058-1102 | a label spawns its tab; from the terminal, the program left and the one reached are told if they asked |
| Shortcuts.UnusedLabelLeaves | src/client/app.rs:1058-1102 | a label that stands for nothing leaves Jump Mode |
| Shortcuts.CopyModeKeys | src/client/input.rs:33-45 | each key of copy mode scrolls by its lines, or leaves |
| Shortcuts.SelectorKeys | docs/KEYBOARD_SHORTCUTS.md:107-112 | the list of offices moves within its ends, renames, asks before deleting, and ends with a new office |
| Shortcuts.SelectorEnters | docs/KEYBOARD_SHORTCUTS.md:109 | Enter makes the office current at its remembered desk, or its last, and spawns the tab |
| Shortcuts.SettingsKeys | src/client/input.rs:145-169 | the list of themes moves within its ends; Enter applies |
| Shortcuts.DeskDeleteKeys | src/client/input.rs:47-60 | confirming ends the desk's programs in order, removes it, and selects and spawns the next or the last |
| Shortcuts.OfficeDeleteKeys | src/client/input.rs:62-90 | the typed name grows and shrinks at its end; Enter deletes if it matches and another office is left |
| Shortcuts.RenameKeys | src/client/input.rs:224-267 | Esc gives the rename up, and a key that edits nothing changes nothing |
| Shortcuts.QuitsExactlyOn | src/client/input.rs:24-434 | exactly which keys quit, in every state |
| Shortcuts.UnlistedKeysDoNothing | src/client/input.rs:17-434 | a key in none of the tables changes nothing |
| Shortcuts.PassTellsOfFocus | src/client/app.rs:972-993 | a program that asked is told once when the focus has moved into or out of the terminal |
| Shortcuts.PassSendsOldEsc | src/client/app.rs:373-381 | a pass sends an Esc exactly when it has been held back for 300 milliseconds |
| Shortcuts.DrawRecords | src/main.rs:481-500 | a draw records the rows of the list and consecutive tabs that exist, from at most the active one; none in copy mode |
| Shortcuts.OnboardingEnds | src/main.rs:324-351 | nothing else happens while onboarding is up; when it ends, its office is the last one and current, with its tab spawned |
| Shortcuts.StartsWhereSaved | src/client/app.rs:383-436 | the client starts in the saved office and at its desk, or the last ones there are, with that tab spawned |
| WorkspaceRuns.HandleKeyKeepsValid | src/client/input.rs:17-434 | a key keeps the workspace valid: nothing empty, indices in range, at most one mode, dialog indices in range |
| WorkspaceRuns.PlainKeyKeepsValid | src/client/input.rs:269-434 | so do the keys that no mode intercepts |
| WorkspaceRuns.JumpKeyKeepsValid | src/client/input.rs:171-222 | so do the keys of Jump Mode that do not meet a stale hit |
| WorkspaceRuns.OfficeDeleteKeyKeepsValid | src/client/input.rs:62-90 | so do the keys of the office deletion dialog |
| WorkspaceRuns.RenameKeyKeepsValid | src/client/app.rs:1029-1051 | so do the keys of the rename dialog: committing never indexes out of range |
| WorkspaceRuns.StepKeepsValid | src/main.rs:381-550 | so does every event of the main loop |
| WorkspaceRuns.Run | src/client/input.rs:17-434 | so does every safe run |
| WorkspaceRuns.RedrawnRunsAreSafe | src/client/app.rs:680-834 | every keyboard run with a redraw between keys is safe |
| WorkspaceRuns.ChosenIsListed | src/client/jump.rs:33-46 | a label stands for a visible desk or for a tab, of the selected desk, that the last draw showed |
| WorkspaceRuns.OnboardedKeepsValid | src/main.rs:324-351 | finishing onboarding adds the new office and enters it |
| Workspace.StartsValidIff | src/client/app.rs:383-436 | the client starts valid exactly when every saved office has a desk and every desk's active tab exists |
| TreeLaws.ClosingATab | src/client/desk.rs:32-55 | closing the active tab keeps the others in order and activates the next one, or the last |
| TreeLaws.ClosingUndoesOpeningIff | src/client/desk.rs:26-55 | closing a tab just opened gives the tabs back, and the desk exactly when its last tab was active |
| TreeLaws.RemovingADesk | src/client/app.rs:792-800 | removing a desk keeps the others in order and selects the next one, or the last |
| TreeLaws.RemovingUndoesAdding | src/client/app.rs:733-805 | removing the desk just added gives the workspace back with its last desk selected |
| TreeLaws.UpUndoesDownIff | src/client/app.rs:820-834 | down and up come back to the same workspace, except from the last of several desks |
| TreeLaws.SwitchingBackRestoresIff | src/client/app.rs:721-731 | each office remembers its desk: there and back restores the workspace exactly when the other office's remembered desk exists |
| TreeLaws.RenamingSetsOneName | src/client/app.rs:1029-1051 | committing gives the target the trimmed text unless that is empty, and renames nothing else |
| Dialogs.DialogGetsTheKey | src/client/input.rs:17-31 | with only the rename dialog open, the client ignores a repeated Esc, quits on the emergency exit, and hands every other key to the dialog |
| Dialogs.KeysAroundCursor | src/client/input.rs:229-262 | which key makes which edit: Backspace, Delete, Left, Right and a character around a character at the cursor |
| Dialogs.KeysToTheEnds | src/client/input.rs:249-258 | Home and End move the cursor to the ends |
| Dialogs.KeysAtTheEnds | src/client/input.rs:229-248 | at the ends, the keys that would go beyond do nothing |
| Dialogs.TypingAndErasingIff | src/client/input.rs:224-267 | typing a text and as many Backspaces restores everything, exactly when the client does not quit on the way |
| Dialogs.DialogEdits | src/client/input.rs:224-267 | over any run of keys handled by the client that neither commit nor cancel, it quits exactly at the first emergency exit, and up to there only the dialog's text changes, as the reference editor's does |
| Dialogs.TypingExtendsTheNameIff | src/client/input.rs:224-267 | opening the dialog, typing and pressing Enter sets the trimmed name followed by the text, unless the daemon is away and the text has a q or Q: exactly then the client quits with the tree untouched |
| Dialogs.ConfirmingDeletesIff | src/client/input.rs:62-90 | typing a text and Enter into the confirmation deletes the office exactly when the text is its name, it is not the only one, and the client did not quit on a q or Q |
| ContentEsc.NothingLostOrReordered | src/client/input.rs:295-329 | over all timed interleavings, bytes sent and the Esc held back are exactly what was typed for each tab, in order, without the double Escs |
| ContentEsc.JumpModeOpensIff | src/client/input.rs:306-325 | an Esc opens Jump Mode exactly when it follows, within 300 ms, an Esc that did not itself open it |
| ContentEsc.StepKeepsLedger | src/client/app.rs:373-381 | every key, loop pass and paste keeps the account of what was sent and what is held back |
| ContentEsc.OtherKeysSendNothing | src/client/input.rs:33-293 | keys not typed into the terminal send no key bytes to it |
| ContentEsc.KeyDelivers | src/client/input.rs:300-304 | a key other than Esc first sends the Esc held back, then its own bytes, both to the tab it was typed in |
| ContentEsc.ProgramGetsKey | src/client/input.rs:414-431 | what a key appends to the log for its tab is what a program reads as that key, after the Esc held back; nothing if there is no way to tell it |
| ContentEsc.EscPrefixIsAlt | src/client/input.rs:465-470 | Esc and a key send what Alt with the key sends, exactly where the key is encodable and Alt has no other use |
| ContentEsc.PasteInOrderIff | src/main.rs:540-547 | a paste keeps its place among the keys only when no Esc is held back |
| App.App.constructor | src/client/app.rs:383-501 | starts with the saved workspace clamped at the current office, or a default one |
| App.App.SelectDesk | src/client/app.rs:680-696 | selects the desk, clamped, in the list and in the office |
| App.App.SwitchOffice | src/client/app.rs:721-731 | enters an existing office at its remembered desk and spawns its tab |
| App.App.NewDesk | src/client/app.rs:733-748 | adds a numbered desk, selects it and spawns its tab |
| App.App.RequestCloseDesk | src/client/app.rs:750-755 | asks for confirmation unless the desk is the only one |
| App.App.CloseDeskAt | src/client/app.rs:766-805 | closes the desk's PTYs, removes it, and selects and spawns what takes its place |
| App.App.Nav | src/client/app.rs:820-834 | moves the selection, clamped, and spawns only when it moved |
| App.App.NewTab | src/client/desk.rs:26-30 | appends a numbered tab and activates it |
| App.App.CloseTab | src/client/desk.rs:32-55 | closes the active tab's PTY and removes the tab, unless it is the only one |
| App.App.RestartActivePty | src/client/app.rs:843-866 | closes and spawns the active tab's PTY |
| App.App.PtySendFocusEvent | src/client/app.rs:1000-1012 | reports a focus change only in Content, to a program that asked for it |
| App.App.BeginRenameDesk | src/client/app.rs:1014-1017 | opens the dialog on the desk's name |
| App.App.BeginRenameTab | src/client/app.rs:1020-1027 | opens the dialog on the active tab's name |
| App.App.CommitRename | src/client/app.rs:1029-1051 | closes the dialog and sets the trimmed name, unless it is empty |
| App.App.HandleJumpSelection | src/client/app.rs:1058-1102 | reaches the label's target, reporting focus out and in, and leaves Jump Mode |
| App.App.CopyModeKey | src/client/input.rs:33-45 | scrolls or leaves copy mode |
| App.App.DeskDeleteKey | src/client/input.rs:48-60 | confirms or drops the desk deletion |
| App.App.OfficeDeleteKey | src/client/input.rs:63-90 | edits the typed name, and deletes the office only if it matches and is not the only one |
| App.App.SelectorKey | src/client/input.rs:93-142 | moves in the list, enters, renames or deletes an office, or starts onboarding |
| App.App.SettingsKey | src/client/input.rs:145-169 | moves in the list of themes, applies one or closes |
| App.App.JumpModeKey | src/client/input.rs:172-222 | commands first, then arrows and labels |
| App.App.RenameModeKey | src/client/input.rs:225-267 | edits the buffer in place, commits or cancels |
| App.App.EscKey | src/client/input.rs:306-329 | holds a first Esc back, opens Jump Mode on a second in time |
| App.App.AltDigit | src/client/input.rs:332-347 | switches to an existing tab, reporting focus out of the old and into the new |
| App.App.SidebarKey | src/client/input.rs:350-374 | the sidebar's keys |
| App.App.TopbarKey | src/client/input.rs:375-413 | the tab bar's keys |
| App.App.ContentKey | src/client/input.rs:414-431 | scrolls back or forwards the key's bytes |
| App.App.HandleKey | src/client/input.rs:17-434 | the new fields and the quit flag are those of the state machine's step |
| App.App.SyncFocusEvents | src/client/app.rs:972-993 | reports a focus change into or out of Content once |
| App.App.FlushPendingContentEsc | src/client/app.rs:373-381 | sends the Esc held back once it is 300 ms old |
| App.App.EventLoop | src/main.rs:381-569 | over any safe run the object is where the state machine is, and valid; in its own log the active tab stays spawned, and what was sent and is held back is what was typed |
| App.RunClient | src/main.rs:368-569 | so from the client's start, with the active tab spawned throughout |
| App.App.OnInput | src/main.rs:481-550 | one input, of the keyboard or the mouse: fields, recorded rectangles and last press are those of the model of mixed runs |
| App.App.MixedLoop | src/main.rs:381-569 | over any run with the mouse whose indices stay in range the object is where the model is; in its own log what was sent and is held back is what was typed |
| App.RunMixedClient | src/main.rs:368-569 | so from the client's start |
| Topbar.LastVisible | src/client/ui/topbar.rs:43-56 | the inner loop finds the last tab that fits from the scroll position |
| Topbar.TabBar.ScrollIntoView | src/client/ui/topbar.rs:31-61 | ends, with the first scroll position from the old one that shows the active tab or has come up to it |
| Topbar.TabBar.Draw | src/client/ui/topbar.rs:24-138 | scrolls, then records hit areas for consecutive tabs, as many as fit, and the button after them |
| Topbar.AreasAreApart | src/client/ui/topbar.rs:111-119 | hit areas are ordered and disjoint, before the button and inside the bar |
| Topbar.TabsStandInOrder | src/client/ui/topbar.rs:93-138 | on the first row inside the border, tabs as wide as their labels with a column between, then the button |
| Topbar.AreaIsInside | src/client/ui/topbar.rs:133-138 | every area stays inside the bar's border and before the button, and so does the button where there is an area |
| Topbar.ButtonIsInsideIff | src/client/ui/topbar.rs:66-90 | the button is inside the border exactly when the bar has room for the columns reserved for it and the arrow |
| Topbar.SettledIsSettledAt | src/client/ui/topbar.rs:31-61 | the first position that shows the active tab or reaches it is the one worked out from the state before the draw |
| Topbar.ActiveIsDrawnIff | src/client/ui/topbar.rs:31-90 | the active tab has an area exactly when, from the position worked out before the draw, it fits with the arrow and the labels as drawn |
| Topbar.UnscrolledActiveIsDrawn | src/client/ui/topbar.rs:42-61 | with nothing scrolled and no spinners, a tab found to fit is drawn |
| Topbar.ArrowHidesActive | src/client/ui/topbar.rs:68-73 | in a scrolled bar just wide enough, the active tab is not drawn |
| Topbar.ClickReachesTab | src/client/mouse.rs:95-135 | a click in the i-th area activates exactly the i-th tab shown; a double click on the active one renames it |
| Topbar.OnlyItsAreaActivates | src/client/mouse.rs:104-134 | a press activates a tab only from inside that tab's area |
| TerminalPanel.DrawRow | src/client/ui/terminal.rs:81-161 | the cell walk fills the row with each visible cell, blanks for the columns it covers, and background to the end, and touches nothing else |
| TerminalPanel.DrawPanel | src/client/ui/terminal.rs:74-170 | every panel row shows its line, bottom-aligned, and nothing outside the panel changes |
| TerminalPanel.PlacedAtPrefix | src/client/ui/terminal.rs:82-153 | a visible cell is at the column where the widths before it end |
| TerminalPanel.LastLineOnLastRowIff | src/client/ui/terminal.rs:55-79 | the last line is on the last row exactly when the screen is not taller than the panel |
| TerminalPanel.CaretMeetsCursorCellIff | src/client/ui/terminal.rs:219-234 | the caret's column is the cursor cell's exactly when the cell index is inside the panel, or zero-width cells make up the rest |
| TerminalPanel.CaretMeetsCursorCell | src/emulators/alacritty_emulator.rs:173-182 | so it does on every row whose zero-width cells follow wide ones or end the row, and on every row with no more cells than the panel asked for |
| TerminalPanel.CaretIsOnCursorCell | src/client/ui/terminal.rs:219-234 | where it does, the buffer cell under the caret is where the walk drew the cursor's cell |
| TerminalPanel.CaretInsideIff | src/client/ui/terminal.rs:220-234 | the caret is inside the panel exactly when the screen has lines |
| TerminalPanel.CaretShows | src/client/ui/terminal.rs:245-268 | the caret's character: its cell's, or the wide one's before it, or a space |
| TerminalPanel.CaretRow | src/client/ui/terminal.rs:219-234 | a cursor below the screen is drawn on its last line |
| TerminalPanel.DrawCaret | src/client/ui/terminal.rs:236-282 | the caret replaces one cell only, repeating the cursor cell's character |

## Left out

- Serde, MessagePack and JSON: payloads are opaque; an undecodable one is a parameter of the request loop.
- Several subscriptions of one tab take graphics from one queue; the push pipeline is that of one subscription.
- The log keeps the reports of a program's mouse tracking apart from key bytes; both are written to the same PTY.
- The terminal emulator: a screen is an arbitrary grid given to the push loop and the panel.
- PTYs, shells, signals, /proc and file reading, clocks and sockets that fail: their answers are parameters, and
  writes in the push pipeline succeed.
- Reading inside the push loop's `select!` (src/daemon/service.rs:565-583): a dropped half-read can lose bytes, so
  push-mode input is modelled as whole messages, and subscribing leaves the request loop.
- `read_response` (src/providers/daemon_provider/mod.rs:78-80) discards what follows a JSON reply in the same chunk.
- The single worker thread, unique tab identifiers and a cache that is always newest are not claimed: the source does
  not keep them.
- Offices, desks and tabs are values in `App`: Rust owns them by value, so no aliasing is lost. A tab's provider is
  its identifier in a log of what reached its PTY; working directories inherited by new tabs are not modelled.
- What a draw decides for the sidebar list (height and offset) is a parameter of a loop pass; for the tab bar,
  `BarDraws` ties the parameter to `Topbar`.
- Keys typed on the onboarding screen, toasts, colours, saving, spinners and chat views: they do not touch what is
  modelled. Suspending with Ctrl+Z changes no field.
- Where the layout engine puts the panels: their rectangles are fields that a draw sets to any value, except that
  `ClickReachesTab` assumes them apart.
- What the emulator libraries put in a row: `CaretMeetsCursorCell` takes the two shapes that src/emulators hands on.
- The panel's scrollbar and title.
- The worker's reconnecting: `PushChannel` is one subscription, on which every size sent arrives.
- Widths and columns are unbounded, where the source has 16 bits; the panel's two casts to 16 bits are modelled.
- Prefix-freeness is proved for unmodified keys only: Ctrl makes keys coincide on purpose, and Alt adds an Esc.
