# Duckway session management, verified

This project models the parts of Duckway where state, protocol and arithmetic meet: the terminal
interface `ducklord` (`cmd/ducklord`), the client that hands a host over to it (`cmd/client`), and the
command parser they share (`internal/cccommand`). Each model follows the code branch by branch; what
the code is for is proved about the model, over all inputs or all runs.

`dafny verify dfyconfig.toml` checks everything. Code that changes state is a class or a method with
its loops, proved against a function of the old state; the theorems are lemmas about those functions.
All lemmas carry `{:induction false}`: every induction is spelled out.

| file | what it models |
|---|---|
| `AttachOutput.dfy`, `AttachRuns.dfy`, `AttachResizes.dfy` | PTY output against resizes in flight: chunks, barriers, buffering, waiting requests, every run of one attach |
| `Utf8.dfy`, `KeyboardInput.dfy`, `Keys.dfy` | the incremental keyboard tokenizer, its reader loop, and the keys it gives back |
| `ReplayFence.dfy`, `TypeAhead.dfy` | the single replay slot and the fence that holds keyboard bytes |
| `Integration.dfy` | the hand-over from the standalone to the integrated Ducklion daemon |
| `Sessions.dfy`, `HostInventory.dfy`, `InventoryRuns.dfy` | authoritative host inventories, the layout, and counting notifications |
| `Ordering.dfy`, `Organization.dfy`, `SessionRows.dfy`, `DragOrder.dfy` | stable sorting, the organized session list, its rows, and drag reordering |
| `ProjectImport.dfy` | project import with backups and rollback |
| `Promotion.dfy` | replacing the executable with hard links and renames |
| `RuneText.dfy`, `Quoting.dfy`, `QuotingLosses.dfy`, `CommandLines.dfy`, `NewArguments.dfy` | printing and splitting command lines, the `!new` argument parser |
| `Tokens.dfy`, `CellText.dfy`, `HistoryView.dfy`, `FrameCache.dfy` | cell widths with embedded escapes, the transfer history window, the row-diff frame cache |

## What the proofs found

- **Integration.** An error exit can leave the host marked Integrated: the final marker write renames the
  file and then fails to sync the directory, and the restore can then neither stop the new daemon nor
  replace the marker. `Integration.Integrate` proves this to be the only way, and
  `Integration.StrandedExample` gives one.
- **Saved state.** The activity state is renamed into place before its directory is synced, so a failed
  save can leave the disk ahead of memory. `ProjectImport.CommitImport` and `DragOrder.MoveBefore` say
  exactly when, with an instance each in `DiskAheadExample`; the state in memory never changes on a failure.
- **Inventory.** A live inventory older than the last one accepted from a client can be accepted after an
  update exactly when that update named another instance within the same connection generation, the last one
  had a revision above zero, and no other live alias of its instance has shown a revision as high
  (`InventoryRuns.OlderInventoryAcceptedIff`).
- **Replay slot.** The pane-prefix timer (`cmd/ducklord/main.go:2530-2532`) sends without looking at `queued`.
  Over every run the event loop hangs if and only if it fires with bytes to send while a replay is queued
  (`ReplayFence.RunBlocksIff`, with a run in `ReplayFence.TimerBlocksExample`).
- **Quoting.** An argument with a carriage return and nothing else that needs quoting is printed bare and
  then split, and a byte that is not valid UTF-8 comes back as U+FFFD. `QuotingLosses.RoundTripIff` shows these to
  be the only losses.
- **Keyboard.** Only the bare prefix `ESC [ <` and an unterminated mouse report of more than 64 bytes are
  decided too early (`KeyboardInput.StableIffNotHasty`). The events are independent of how the input is read
  exactly when no such prefix in it is followed by another byte (`KeyboardInput.ChunkingIsInvisibleIff`).
- **New arguments.** An empty positional word is accepted before the slug and rejected after it
  (`NewArguments.EmptyWordExample`), so order matters exactly for lists with an empty word
  (`NewArguments.OrderDoesNotMatterIff`).
- **Drag.** A row dropped on itself moves behind the other rows of its group (`DragOrder.LandsBehindGroup`).

## Model

| member | source | states |
|---|---|---|
| AttachOutput.AttachLoop.ApplyAttachOutput | cmd/ducklord/main.go:6667-6687 | output extends the framebuffer log, creating the terminal if there is none, and moves generation and offset |
| AttachOutput.AttachLoop.ApplyOrderedChunk | cmd/ducklord/main.go:6689-6722 | continuity test, split at a barrier inside the chunk, resize due before it or at its end: the new view and pending resize are the specified transition |
| AttachOutput.AttachLoop.DrainBuffered | cmd/ducklord/main.go:6724-6733 | buffered chunks are applied in order up to the end of the attach |
| AttachOutput.AttachLoop.RequestResize | cmd/ducklord/main.go:2238-2273 | a resize waits for the initial replay and for a resize in flight or pending, otherwise it is sent |
| AttachOutput.AttachLoop.EndAttach | cmd/ducklord/main.go:2388-2410 | ending an attach clears buffer, barrier and requests and moves on to a new id |
| AttachOutput.AttachLoop.HandleChunk | cmd/ducklord/main.go:3258-3292 | a chunk is ignored, buffered with back-pressure at 256 KiB, or applied, and may start a waiting resize |
| AttachOutput.AttachLoop.HandleResult | cmd/ducklord/main.go:3029-3067 | an answer sets or performs the resize, releases the buffer, and starts a waiting resize |
| AttachRuns.WeaveBytes | cmd/ducklord/main.go:6689-6722 | the reference log holds every byte exactly once and in order, whatever resizes it holds |
| AttachRuns.WeaveResizes | cmd/ducklord/main.go:6699-6722 | in the reference log each resize is preceded by exactly the bytes before its barrier and followed by exactly the others |
| AttachRuns.ChunkWeaves | cmd/ducklord/main.go:6689-6722 | a continuous chunk extends the log by the reference log of its own bytes, with a pending resize at its barrier or still pending |
| AttachRuns.AcceptedIsGaplessPrefix | cmd/ducklord/main.go:6690-6698 | what passes the continuity test is exactly the leading gapless part of the stream; nothing after a gap is applied |
| AttachRuns.ChunkingIsInvisible | cmd/ducklord/main.go:6689-6733 | for every chunking of a gapless stream the log is the bytes before the barrier, one resize, the bytes after it, or only the bytes with the resize still pending |
| AttachRuns.StepKeeps | cmd/ducklord/main.go:3258-3292 | every read, answer and resize request keeps the invariant of the attach |
| AttachRuns.EveryRun | cmd/ducklord/main.go:2238-2273 | in every run: a request in flight and a pending barrier never coexist, the buffer stays under 256 KiB plus one read and is counted right, processed then buffered chunks are the received ones, the view is the reference log of what was accepted |
| AttachRuns.EveryRunShowsGaplessPrefix | cmd/ducklord/main.go:6690-6698 | in every run the bytes shown are those of the leading gapless chunks processed |
| AttachRuns.EveryRunPlacesResizes | cmd/ducklord/main.go:3029-3067 | in every run each accepted resize whose barrier is reached stands in the log exactly at its barrier |
| AttachRuns.ViewIsIndependentOfReads | cmd/ducklord/main.go:11532-11546 | two runs that accepted the same bytes and the same barriers show the same framebuffer |
| AttachResizes.RequestIsKept | cmd/ducklord/main.go:2238-2273 | a request is sent if nothing stands in its way, with its size, and otherwise remembered with its size |
| AttachResizes.SentIff | cmd/ducklord/main.go:2248-2258 | it is sent exactly when no request is in flight or waits for its barrier and the initial replay has been shown |
| AttachResizes.NoCallNoRequest | cmd/ducklord/main.go:2242-2245 | without a resize call nothing is asked for or remembered |
| AttachResizes.NoRequestIsForgotten | cmd/ducklord/main.go:3057-3063 | over every run of a live attach, a wanted size that is still the size of the pane has been answered, or is in flight or waiting |
| AttachResizes.SignalIsServed | cmd/ducklord/main.go:2238-2273 | so is the size of every signal |
| AttachResizes.EveryRunIsPatient | cmd/ducklord/main.go:3258-3292 | over every run, while a request waits there is a resize in flight, a pending barrier or an unfinished replay |
| AttachResizes.EveryRunShowsReplayFirst | cmd/ducklord/main.go:2248-2253 | over every run no resize is on its way before the initial replay has been shown |
| AttachResizes.ReplayEndsWithResize | cmd/ducklord/main.go:3279-3286 | the read that reaches the end of the replay asks for the initial resize |
| AttachResizes.GapEndsTheWait | cmd/ducklord/main.go:6690-6698 | a gap in the output drops the barrier, and the request that waited for it is sent |
| AttachResizes.OnlyContinuationIsShown | cmd/ducklord/main.go:6690-6698 | output is refused exactly for its offset, its length or its generation, and then not shown |
| AttachResizes.OverdueResizeComesFirst | cmd/ducklord/main.go:6709-6716 | a resize whose barrier has been passed comes before the next output |
| AttachResizes.AnswerResizes | cmd/ducklord/main.go:3046-3048 | an answer at the current offset resizes the framebuffer to the size asked for, at once |
| KeyboardInput.TakeEvent | cmd/ducklord/main.go:11412-11471 | the event and the rest are the pending bytes; nothing is taken when no event is complete |
| KeyboardInput.NextProgress | cmd/ducklord/main.go:11412-11471 | every event takes at least one byte, and at most 64 are withheld |
| KeyboardInput.NextStable | cmd/ducklord/main.go:11412-11471 | a decision that is not hasty is the same however much input follows |
| KeyboardInput.StableIffNotHasty | cmd/ducklord/main.go:11440-11450 | the decisions that later input can overturn are exactly the bare mouse prefix and the overlong report |
| KeyboardInput.DrainConserves | cmd/ducklord/main.go:11394-11409 | draining loses and reorders nothing and leaves at most 64 bytes |
| KeyboardInput.FeedConserves | cmd/ducklord/main.go:11394-11409 | over any sequence of reads the events and the rest are the input |
| KeyboardInput.FeedIsDrain | cmd/ducklord/main.go:11394-11409 | without hasty decisions feeding read by read equals draining everything at once |
| KeyboardInput.RechunkingIsInvisible | cmd/ducklord/main.go:11394-11409 | two chunkings of the same bytes give the same events |
| KeyboardInput.PlainInputIgnoresChunking | cmd/ducklord/main.go:11394-11409 | when no mouse prefix in the input is followed by another byte, every way to read it gives the events of one drain |
| KeyboardInput.ChunkingIsInvisibleIff | cmd/ducklord/main.go:11394-11409 | the events are the same for every way to read the input exactly under that condition |
| KeyboardInput.SplitBehindPrefix | cmd/ducklord/main.go:11426-11450 | a read that ends right behind the first mouse prefix is the chunking that changes the events |
| Utf8.EncodedIsValid | cmd/ducklord/main.go:11420-11424 | every Unicode scalar value is encoded as one valid rune |
| Utf8.ValidIsEncoded | cmd/ducklord/main.go:11420-11424 | and every valid rune is the encoding of one |
| Keys.KeyIsNext | cmd/ducklord/main.go:11412-11471 | a typed character, a character with Alt, an arrow, a page key, a mouse report of any length or an Escape before a control byte is the next event, whole, whatever follows |
| Keys.KeysComeBack | cmd/ducklord/main.go:11394-11471 | what a terminal sends for any keys gives exactly one event per key and no rest |
| Keys.KeysStay | cmd/ducklord/main.go:11394-11471 | further input changes nothing about the keys already sent |
| Keys.PartOfKeyWaits | cmd/ducklord/main.go:11419-11450 | a key that has arrived in part waits for the rest, but for exactly the two hasty decisions |
| ReplayFence.WorkspaceInputReplay.ReleaseWorkspacePlacement | cmd/ducklord/main.go:294-309 | the fence is lowered, its bytes go whole into a free slot, and a taken slot keeps both |
| ReplayFence.WorkspaceInputReplay.RetryWorkspacePlacement | cmd/ducklord/main.go:311-315 | the release is retried only with a focused matching writer, nothing open and the slot free |
| ReplayFence.WorkspaceInputReplay.AcceptControl | cmd/ducklord/main.go:319-330 | a writer is accepted exactly when it may be, matches the pane and the output takes focus; it then takes focus and releases the fence |
| ReplayFence.WorkspaceInputReplay.HandleInput | cmd/ducklord/main.go:3299-3324 | the slot is consumed before the keyboard; the bytes are handled or appended behind the fence |
| ReplayFence.WorkspaceInputReplay.SendFromTimer | cmd/ducklord/main.go:2524-2533 | the unguarded send of the timer fills the slot, or hangs when it has bytes and a replay is queued |
| ReplayFence.StepKeeps | cmd/ducklord/main.go:2454-2511 | every event keeps the slot in step with `queued` and a lowered fence empty, and hangs exactly if it is the timer with bytes to send and a replay queued |
| ReplayFence.RunBlocksIff | cmd/ducklord/main.go:2524-2533 | over every run the loop hangs if and only if the timer fires with bytes to send while a replay is queued; no guarded send ever blocks |
| ReplayFence.TimerBlocksExample | cmd/ducklord/main.go:2524-2533 | a local replay and then the timer, from the empty state, hang the loop |
| ReplayFence.OlderBytesFirst | cmd/ducklord/main.go:2470-2473 | with a focused matching writer and nothing open, a turn that starts with older bytes fenced or queued has exactly them in the slot |
| ReplayFence.SlotIsNext | cmd/ducklord/main.go:287-292 | a queued replay is what the next input handles, whole |
| ReplayFence.SlotIsKept | cmd/ducklord/main.go:287-309 | no other event touches a queued replay or handles bytes |
| ReplayFence.EveryRun | cmd/ducklord/main.go:279-339 | in every run, whatever a turn does after its retry, the slot is full exactly when `queued` is set, a lowered fence holds nothing, and bytes leave the fence whole and in arrival order |
| ReplayFence.NeverOvertaken | cmd/ducklord/main.go:2470-2518 | in every run, the input of a turn that starts with a focused matching writer, nothing open and older bytes fenced or queued handles exactly those, never a newer keyboard byte |
| ReplayFence.EveryReleaseComesNext | cmd/ducklord/main.go:294-309 | in every run the first bytes handled after a release of the fence are exactly the released ones |
| TypeAhead.DefersIff | cmd/ducklord/main.go:3299-3324 | exactly when keyboard bytes go behind the fence |
| TypeAhead.InputDecides | cmd/ducklord/main.go:3299-3324 | what does not is handled, a queued replay before the keyboard, and only what does joins the fenced bytes |
| TypeAhead.NoKeyPassesTheFence | cmd/ducklord/main.go:332-339 | over every run no key is handled past the fence during a hand-over |
| TypeAhead.TypedAheadComesFirst | cmd/ducklord/main.go:294-330 | after any typing during a hand-over the accepted writer gets all of it, in order, before any newer key |
| TypeAhead.RetryOpensIff | cmd/ducklord/main.go:311-315 | a turn opens the fence exactly when the writer is ready and the slot is free |
| TypeAhead.WriterOpensIff | cmd/ducklord/main.go:319-330 | an accepted writer opens it unless older bytes are fenced and the slot is taken |
| TypeAhead.ReplayIsRouted | cmd/ducklord/main.go:3304-3310 | bytes fenced for the PTY reach the focused pane, others cost it its focus as navigation |
| TypeAhead.FencedReplayHolds | cmd/ducklord/main.go:3566-3574 | a replay that raises the fence is handled first, and then every key, a shortcut too, is held |
| TypeAhead.RaisedFenceHolds | cmd/ducklord/main.go:3370-3371 | a raised fence holds the next key behind what it held, or behind nothing if that was discarded |
| TypeAhead.LoweredFencePasses | cmd/ducklord/main.go:2425-2430 | a lowered fence holds nothing and the next key is handled |
| TypeAhead.ShortcutsPassTheNextFence | cmd/ducklord/main.go:294-309 | that bytes are meant for the PTY holds for one fence only |
| TypeAhead.ReleaseForgetsRoute | cmd/ducklord/main.go:294-309 | an opened fence forgets for whom it held bytes |
| TypeAhead.ClearedKeepsFocus | cmd/ducklord/main.go:2425-2430 | after clearing, the next input does not cost the pane its focus |
| Integration.InventoriesAgreeIff | cmd/client/ducklion_integration.go:152-161 | equal sorted inventories mean equal sessions with generations, epochs and writers, whatever order they are listed in, and conversely for distinct ids |
| Integration.SameInventoryIff | cmd/client/ducklion_integration.go:152-172 | equal inventories mean the same sessions with the same channel, handle, generation, epoch and writer, and conversely for distinct ids |
| Integration.VerifiesIff | cmd/client/ducklion_integration.go:163-190 | what a verified attempt has shown: the instance, the same sessions, and for every running one the runtime of its generation; and that this is enough |
| Integration.DaemonsLiveIff | cmd/client/main.go:161-166 | when daemons live after starts and stops, and that the new one needs a marker that lets it serve |
| Integration.VerifyInventory | cmd/client/ducklion_integration.go:163-190 | verification succeeds exactly when some attempt shows the instance, the inventory and every running session's runtime generation |
| Integration.RestoreStandalone | cmd/client/ducklion_integration.go:192-208 | a completed restore leaves mode Standalone with only the standalone daemon; otherwise it says exactly when an Integrated marker stays |
| Integration.TakeOver | cmd/client/ducklion_integration.go:85-110 | after the old daemon stopped: success exactly when marked, started, verified and committed; every failure restores; no state of the trace has two daemons |
| Integration.Integrate | cmd/client/ducklion_integration.go:23-110 | with any step failing: never two daemons alive, success exactly when everything was verified, leaves Integrated and follows an attempt that showed the same sessions field by field, refusals touch nothing, and an error exit leaves Integrated exactly in the stranding case |
| Integration.StrandedExample | cmd/client/ducklion_integration.go:104-110 | a plan that fails and leaves the host marked Integrated |
| HostInventory.CountNew | cmd/ducklord/main.go:5317-5336 | the loop over categories computes the increments above the baseline and records the new counters |
| HostInventory.Inventory.NotificationDeltas | cmd/ducklord/main.go:5311-5336 | deltas and observed counters of one session |
| HostInventory.Inventory.MayAccept | cmd/ducklord/main.go:5338-5363 | acceptance by configuration, generation, revision, row ownership and newest alias |
| HostInventory.Inventory.ApplySessionUpdate | cmd/ducklord/main.go:5338-5484 | the new rows, layout, sync record and counters, or no change if rejected |
| InventoryRuns.LiveRows | cmd/ducklord/main.go:5402-5480 | a live update replaces exactly the rows of its own client, as a multiset |
| InventoryRuns.LiveLayout | cmd/ducklord/main.go:5389-5473 | after a live update the layout holds of that instance exactly what runs in it, and keeps everything else |
| InventoryRuns.QuietUpdate | cmd/ducklord/main.go:5338-5384 | rejected and non-live updates drop no row, prune nothing and count nothing |
| InventoryRuns.RowsAreAuthoritative | cmd/ducklord/main.go:5338-5484 | after any sequence of updates each client's rows are those of its last accepted live update |
| InventoryRuns.GenerationNeverDecreases | cmd/ducklord/main.go:5347-5350 | the generation shown for a client never goes back |
| InventoryRuns.RevisionNeverDecreases | cmd/ducklord/main.go:5347-5350 | nor does the inventory, while the client keeps its instance within a generation |
| InventoryRuns.OlderUpdateAcceptedIff | cmd/ducklord/main.go:5347-5350 | an accepted update lets an older update be accepted afterwards exactly when it changes the instance within the generation and the one before it had a revision above zero |
| InventoryRuns.OlderInventoryAcceptedIff | cmd/ducklord/main.go:5347-5363 | it lets an older live inventory follow exactly when, besides, no other live alias of that instance has shown a revision as high |
| InventoryRuns.OlderInventoryAfterInstanceChange | cmd/ducklord/main.go:5347-5350 | three updates after which an older inventory is shown |
| InventoryRuns.UnknownHostIsRejected | cmd/ducklord/main.go:5339-5346 | a host that is not configured gets nothing in |
| InventoryRuns.MixedInventoryIsRejected | cmd/ducklord/main.go:5351-5357 | an inventory with a row of another host or instance is rejected as a whole |
| InventoryRuns.FirstInventoryIsShown | cmd/ducklord/main.go:5338-5480 | the first inventory of a configured host is accepted and shown, row for row |
| InventoryRuns.ResendIsAccepted | cmd/ducklord/main.go:5347-5363 | an update sent again is accepted again and changes no row |
| InventoryRuns.EveryRunHearsConfigured | cmd/ducklord/main.go:5338-5364 | over every run only configured hosts have been heard, and each can connect anew |
| InventoryRuns.LiveRowsAreOrdered | cmd/ducklord/main.go:5675-5688 | after a live update the rows are ordered by group, host and name |
| Sessions.KeyTellsApart | cmd/ducklord/main.go:11202-11207 | the key tells the sessions of a host apart |
| InventoryRuns.DeltaIsIncrement | cmd/ducklord/main.go:5311-5336 | for counters that do not decrease the delta of a known session is its increment, and zero at first sighting |
| InventoryRuns.KnownIsOwn | cmd/ducklord/main.go:5394-5401 | the counters a client is known by are those of its own rows |
| InventoryRuns.EventsAreCountedOnce | cmd/ducklord/main.go:5389-5423 | over every run the deltas of a category sum to its last value minus its value at first sighting |
| Organization.RankAll | cmd/ducklord/main.go:6007-6025 | the ranks follow first occurrence in the saved order, new entries are appended, and a change is reported exactly when something was appended |
| Organization.SessionList.ApplyOrder | cmd/ducklord/main.go:5990-6070 | the saved orders are extended, the rows are the stable sort by the code's comparison, the result tells whether an order changed |
| Organization.LessIsStrictWeak | cmd/ducklord/main.go:6051-6068 | the comparison is a strict weak order |
| Organization.RankLessIsLess | cmd/ducklord/main.go:6051-6068 | the comparison of rank maps is the comparison of keys |
| Organization.ArrangedIsSorted | cmd/ducklord/main.go:5990-6070 | the rows are permuted and sorted, the saved orders only grow at the end, and every row's group and identity is in them |
| Organization.GroupsAreContiguous | cmd/ducklord/main.go:6051-6068 | the rows of a group are next to one another |
| Organization.SecondCallChangesNothing | cmd/ducklord/main.go:5990-6070 | a second call reports no change and, with the same group selected, moves no row |
| Organization.SelectedGroupStays | cmd/ducklord/main.go:5994-6002 | the selected group survives the arranging when rows of one key are of one group |
| Organization.UnreadNeverMovesSelectedRows | cmd/ducklord/main.go:6056-6058 | changing unread flags leaves every line in its group and every row of the selected group on its line |
| Organization.UnreadComeFirst | cmd/ducklord/main.go:6056-6058 | in a group that is not selected, promoted unread rows come first |
| Organization.RowsFollowSavedOrder | cmd/ducklord/main.go:6059-6067 | rows that unread promotion does not part follow the saved order, those without an identity last |
| Organization.SameGroupIff | cmd/ducklord/main.go:5698-5715 | which rows share a group in each mode |
| SessionRows.ListRows | cmd/ducklord/main.go:5749-5786 | the rows are the sections of the labelled groups in order of first occurrence |
| SessionRows.EachSessionListedOnce | cmd/ducklord/main.go:5749-5786 | each session of a labelled uncollapsed group is listed exactly once under its group, nothing else is, and each labelled group has one heading |
| SessionRows.UnlabelledIff | cmd/ducklord/main.go:5717-5731 | with named custom groups the only unlabelled sessions are those of a nameless host in host mode |
| SessionRows.HeadingShowsGroup | cmd/ducklord/main.go:5717-5731 | a heading shows the name of its custom group, or the host or kind itself |
| SessionRows.ListingFollowsArrangement | cmd/ducklord/main.go:5749-5786 | after arranging, the list shows the sessions from top to bottom in their order |
| DragOrder.MoveBefore | cmd/ducklord/main.go:5862-5947 | which drops are refused, that memory changes only after a successful save, what is saved, and that the moved row is selected |
| DragOrder.DiskAheadExample | cmd/ducklord/main.go:5930-5933 | a drop that is reported as not saved, with the new order on disk |
| DragOrder.DropIsAcceptedIff | cmd/ducklord/main.go:5862-5893 | exactly when a drop is carried out |
| DragOrder.DropKeepsMemberships | internal/ducklord/activity_state.go:199-206 | a drop leaves memberships of existing groups only, as a save demands |
| DragOrder.FindDropIndex | cmd/ducklord/main.go:5909-5925 | the search finds the first occurrence of the target, the end if it is missing, or the place behind the group |
| DragOrder.DropKeepsOthers | cmd/ducklord/main.go:5902-5929 | the other identities keep their order and the moved one is there exactly once |
| DragOrder.LandsBefore | cmd/ducklord/main.go:5910-5916 | dropped on a row in the order, the identity takes the place right before it |
| DragOrder.LandsBehindGroup | cmd/ducklord/main.go:5917-5925 | otherwise it goes right behind the last other session of the group, or to the end exactly if there is none |
| DragOrder.OnlyMovedChangesGroup | cmd/ducklord/main.go:5894-5901 | in custom mode the moved session joins the target group; no other session changes groups |
| DragOrder.MovedRowIsShownBefore | cmd/ducklord/main.go:5926-5935 | on screen the moved row precedes its target with only rows of these two identities between, if they share a group and unread rank |
| ProjectImport.ImportedName | cmd/ducklord/project_transfer_ui.go:115-129 | the search ends for every finite set of names: with the name itself if free, otherwise with the first free candidate |
| ProjectImport.CandidateInjective | cmd/ducklord/project_transfer_ui.go:121-127 | different numbers give different names, which is why the search ends |
| ProjectImport.CandidatesAre | cmd/ducklord/project_transfer_ui.go:121-127 | the first candidates, spelled out |
| ProjectImport.BackUp | cmd/ducklord/project_transfer_ui.go:157-184 | the backups hold what the notebooks held; it fails exactly when one is unreadable |
| ProjectImport.SaveAll | cmd/ducklord/project_transfer_ui.go:192-203 | saving stops at the first failure and touches only the notebooks of the transfer |
| ProjectImport.Rollback | cmd/ducklord/project_transfer_ui.go:185-191 | every notebook whose restore succeeds is as it was, also when listed twice |
| ProjectImport.CommitImport | cmd/ducklord/project_transfer_ui.go:131-209 | all or nothing: success exactly when everything is valid, saved and committed, then with the project under the first free name; a clean rollback restores every notebook, an unclean one every notebook whose restore takes effect; memory never changes on failure; and when the disk runs ahead |
| ProjectImport.ChosenIdIsFree | cmd/ducklord/project_transfer_ui.go:139-141 | the project keeps its id unless it has none or it is taken, and the id is free |
| ProjectImport.ImportedNotes | cmd/ducklord/project_transfer_ui.go:192-203 | after an import every notebook of the transfer holds its own text, the last one given for it |
| ProjectImport.TakesEffectIff | internal/ducklord/notes.go:107-127 | a save or restore that fails after the rename has taken effect all the same |
| ProjectImport.DiskAheadExample | cmd/ducklord/project_transfer_ui.go:204-206 | an import that reports an error and rolls back cleanly, with the project on disk |
| Promotion.PromoteBinary | cmd/ducklord/update.go:246-265 | the states after each system call; with a staged download each of them holds the complete old file or the new one with its backup, and the last one the download on success and the old file on an error |
| Promotion.EveryStepIsSound | cmd/ducklord/update.go:246-265 | after a crash at any step the executable is the complete old file, or the new one with the old under `.previous`; errors leave the old one live |
| Promotion.SucceedsIff | cmd/ducklord/update.go:246-265 | leftovers of earlier crashes never stand in the way |
| Promotion.StagingIsLeftIff | cmd/ducklord/update.go:255-262 | a promotion leaves its staging name behind exactly when `.previous` was a link to the executable already |
| Promotion.StagingIsCleaned | cmd/ducklord/update.go:255-260 | a backup that cannot be recorded is removed again unless that fails too |
| Promotion.NamesAre | cmd/ducklord/update.go:247-248 | the names of the backup and its staging file |
| Promotion.AttemptIsSafe | cmd/ducklord/update.go:246-265 | one update leaves the version that was live, or the download with that version under `.previous` |
| Promotion.AlwaysRunnable | cmd/ducklord/update.go:246-265 | after every history of updates, failures and crashes the executable is one complete version |
| Quoting.FormatGitCommand | cmd/client/main.go:779-785 | the loop prints `git` and the quoted arguments joined by spaces, byte by byte |
| Quoting.SplitCommandLine | cmd/ducklord/main.go:1414-1466 | the scan over runes, with quotes and escapes and broken bytes replaced, computes the specified fields or error |
| Quoting.RunesOfEscaped | cmd/client/main.go:79-79 | escaping the bytes of an argument escapes its runes: no quote is created in, and no rune torn by, broken text |
| Quoting.RoundTrip | cmd/client/main.go:72-80 | when no argument loses a carriage return, splitting a printed command gives back `git` and the arguments with broken bytes replaced |
| RuneText.MendedIff | cmd/ducklord/main.go:1420-1448 | going over the runes leaves exactly valid UTF-8 alone |
| QuotingLosses.RoundTripIff | cmd/ducklord/main.go:1414-1466 | the arguments come back exactly when every one is valid UTF-8 and every one with a carriage return also needs quotes |
| QuotingLosses.CarriageReturnExample | cmd/client/main.go:72-80 | valid text that is split at a carriage return |
| QuotingLosses.BrokenByteExample | cmd/ducklord/main.go:1420-1448 | a broken byte that comes back as U+FFFD |
| CommandLines.WordsComeApart | cmd/ducklord/main.go:1414-1466 | bare words between any blanks, with blanks before and behind, split into exactly the words |
| CommandLines.DoubleQuotedIsOneField | cmd/ducklord/main.go:1433-1447 | text in double quotes without a quote or backslash is one field |
| CommandLines.EscapedRuneJoins | cmd/ducklord/main.go:1421-1430 | outside single quotes a backslash makes the next rune part of the field |
| CommandLines.BlanksPart | cmd/ducklord/main.go:1442-1447 | a blank ends the field, and further blanks do nothing |
| CommandLines.TrailingBackslash | cmd/ducklord/main.go:1457-1459 | a backslash at the end of a good line is an unfinished escape |
| CommandLines.OpenQuote | cmd/ducklord/main.go:1460-1462 | a quote behind a good line that is not closed is an unterminated quote |
| CommandLines.PlainLineSplits | cmd/ducklord/main.go:1414-1466 | a line without quotes and backslashes always splits |
| CommandLines.SpecialIs | cmd/client/main.go:76-76 | the characters that make the printer quote |
| NewArguments.ParseNewArgs | internal/cccommand/validate.go:155-198 | the loop computes the specified result or error |
| NewArguments.PrintThenParse | internal/cccommand/validate.go:155-198 | parsing the canonical printing of any valid arguments gives them back |
| NewArguments.ReparseIsStable | internal/cccommand/validate.go:155-198 | printing and re-parsing any accepted input gives the same result |
| NewArguments.AcceptedIff | internal/cccommand/validate.go:155-198 | which groups of options and words are accepted, and as what |
| NewArguments.OrderDoesNotMatter | internal/cccommand/validate.go:155-198 | rearranged groups without empty words are accepted alike, with the same result |
| NewArguments.OrderDoesNotMatterIff | internal/cccommand/validate.go:155-198 | every rearrangement of an accepted list gives its result exactly when it holds no empty word |
| NewArguments.EmptyWordExample | internal/cccommand/validate.go:183-190 | an empty word is skipped before the slug and refused behind it |
| NewArguments.FirstBadWordDecides | internal/cccommand/validate.go:158-190 | an unknown option or a second word is refused with its own error, whatever follows |
| NewArguments.BadOptionIsRefused | internal/cccommand/validate.go:160-181 | an option given twice or without a value is refused with its own error |
| NewArguments.IncompleteIsRefused | internal/cccommand/validate.go:191-198 | a list without a slug, or with both a directory and a project, is refused at the end |
| NewArguments.BlanksAre | internal/cccommand/validate.go:168-168 | which of the first characters make a value blank |
| NewArguments.AcceptedAreGroups | internal/cccommand/validate.go:155-198 | every accepted input is a list of such groups |
| CellText.CellWidth | cmd/ducklord/main.go:8718-8730 | the loop computes the width over escapes, runes and broken bytes |
| CellText.KeepPrefix | cmd/ducklord/main.go:8741-8758 | the loop keeps exactly the longest run of whole tokens within the limit |
| CellText.CellTruncate | cmd/ducklord/main.go:8732-8763 | the loop keeps a prefix, the ellipsis and a reset if there was an escape |
| CellText.TokenSurvivesCut | cmd/ducklord/main.go:8704-8716 | cutting after a token neither creates nor destroys an escape or a rune |
| CellText.WidthOfText | cmd/ducklord/main.go:8718-8730 | width is additive when what follows starts with a byte that continues neither rune nor escape |
| Tokens.WidthOfCut | cmd/ducklord/main.go:8718-8730 | width is additive across a cut between tokens |
| Tokens.FittingIsLongest | cmd/ducklord/main.go:8732-8763 | no longer run of whole tokens would fit in front of the ellipsis |
| CellText.TruncateFits | cmd/ducklord/main.go:8732-8763 | truncated text never exceeds its cells |
| CellText.TruncateIdempotent | cmd/ducklord/main.go:8732-8763 | truncating twice changes nothing |
| CellText.TruncateShape | cmd/ducklord/main.go:8732-8763 | text that fits is left alone, other text keeps a prefix, the ellipsis and, if it has an escape, a reset |
| CellText.EscapesAreSeen | cmd/ducklord/main.go:8759-8763 | colours are ended in text with ESC [ in it, and not in text without |
| CellText.EscapeSequenceIs | cmd/ducklord/main.go:8704-8716 | ESC [, any digits, semicolons and colons, and m are one token without width |
| CellText.RuneTakes | cmd/ducklord/main.go:8718-8730 | every other character takes the cells the tables give it |
| CellText.BrokenByteTakesOne | cmd/ducklord/main.go:8718-8730 | a broken byte takes one cell |
| CellText.PadWidth | cmd/ducklord/main.go:8765-8767 | text that fits is padded to exactly the cells it is given |
| CellText.TruncateThenPad | cmd/ducklord/main.go:8765-8767 | truncated and padded text is exactly as wide as asked |
| HistoryView.Reach | cmd/ducklord/project_files.go:1226-1243 | the window around the selected item fits, is maximal, and holds it exactly when it fits |
| HistoryView.HistoryLines | cmd/ducklord/project_files.go:1170-1252 | what is shown without a history and for a batch without items; otherwise header, the widest window of items, paths and error, at most rows-2 lines with room for the selected item, which is whole exactly then, and no item cut |
| HistoryView.PathsAreShown | cmd/ducklord/project_files.go:1193-1217 | all lines of the paths are shown when they fit, otherwise up to two, and when the endpoints are |
| HistoryView.ErrorIsShownIff | cmd/ducklord/project_files.go:1248-1250 | the error of the batch is shown exactly when there is one and a line is left |
| HistoryView.ItemShows | cmd/ducklord/project_files.go:1116-1136 | an item that does not fit on a line has its destination on a second and its error on a third |
| HistoryView.TakeLine | cmd/ducklord/project_files.go:1149-1162 | a line takes at least one rune and then as many as fit |
| HistoryView.PathLines | cmd/ducklord/project_files.go:1138-1168 | the pieces put together are the path, and each fits its line or is one rune |
| FrameCache.Changes | cmd/ducklord/frame_output.go:36-50 | painting only the lines that differ, each padded by its cell width, gives a full repaint |
| FrameCache.ShortTextLeavesTheRest | cmd/ducklord/frame_output.go:45-45 | a short text leaves the cells behind it, which is why lines are padded |
| FrameCache.FrameOutput.Write | cmd/ducklord/frame_output.go:23-62 | the cache stays in agreement with the terminal, a successful write shows the full new frame, a failed one empties the cache |
| FrameCache.WriteAll | cmd/ducklord/frame_output.go:23-62 | over every sequence of successful and failed writes the terminal shows the last frame whenever its write did not fail |

## Left out

- Generation-0 attach chunks, which skip the continuity test: an attach is opened with a non-zero generation.
- The initial terminal size, the output manager and the view flags beside the framebuffer: a resize is a log entry with the size it was given.
- A resize answer below the offset of its request: the remote side answers with the offset at which the PTY changed.
- The escape timeout of the keyboard reader: a lone escape waits for more input.
- What a local handler does with the bytes it is given, and pane-prefix matching: when the timer has bytes to send, which takes a pending suffix and a pane-prefix replay, is up to the run.
- Integration.Integrate: starts from a host where at most the daemon named by the marker is alive; a daemon that dies by itself is considered only between a failed verification and the restore.
- Integration.InventoriesAgreeIff: for duplicate session ids only one direction, because Go's sort may order equal ids either way.
- Admission state of a quiesced daemon, locks, processes and sockets: a step succeeds or fails.
- HostInventory.Inventory.ApplySessionUpdate: does not model unread and updated flags, notification delivery or the organization order, which follows separately; the layout is the set of identities it references.
- The polling refresh, which replaces rows without counting events.
- The workspace preview order and quick sorting.
- Identities in the saved order that do not validate, and an organization mode outside the three.
- The selection after a drag other than the selected row, and the messages shown.
- ProjectImport.CommitImport: does not model the remapping of pane ids or the size limits of a save.
- Promotion: directories, permissions and durability of a rename after power loss.
- CellText: the width of a rune is a parameter that is 1 for the ellipsis and the space.
- HistoryView.HistoryLines: the text of the lines.
- FrameCache.FrameOutput.Write: the terminal modes set around a write; the layout of a frame and the cells a text shows are parameters, and writing a whole frame shows its layout.
- Rendering, colours, mouse regions, menus, SSH, HTTP, clipboard, sounds, shell completion and configuration.
