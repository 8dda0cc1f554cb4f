# Verified models of SDRIAK's core

Six parts of the program, each modelled in Dafny and proved against what it is for.

- **Rectangle packer** (`skyline.dfy`, `skyline_waste.dfy`, `waste_overflow.dfy`, `rect_packer.dfy`). A skyline of corners is the
  specification; the packer relinks nodes in place. The free list, the active list and the two extra nodes hold every
  node exactly once, placed rectangles never overlap, and a position is chosen as low as any in the target, not just
  among the corners.
- **Configuration store** (`json.dfy`, `merge.dfy`, `config_edit.dfy`, `config_values.dfy`, `config_access.dfy`,
  `config_manager.dfy`, `shared_file.dfy`, `autosaver.dfy`, `autosaver_history.dfy`, `autosaver_progress.dfy`). The three-way merge and its laws; edits through an access
  or a section; one manager's loads, saves and shutdown; several processes over one file; the background saver's
  wake-ups and registrations.
- **Drawing** (`draw_commands.dfy`, `draw_list.dfy`, `draw_splitter.dfy`, `circle_segments.dfy`, `arc_sampler.dfy`,
  `adler32.dfy`). Commands are merged and channels spliced without changing what is rendered; the arc sampler writes the
  points it reserved; the blocked checksum equals the one of section 2.2 of RFC 1950.
- **Signal processing** (`stream.dfy`, `pipeline.dfy`, `chain.dfy`). The two-lock hand-off between a writer and a
  reader, a row of processors that are stopped and started at any time, and the chain that rewires processors while they
  run.
- **Remote interface** (`remote_codec.dfy`, `remote_widgets.dfy`, `remote_nesting.dfy`, `remote_grammar.dfy`, `remote_list.dfy`). Recorder,
  serializer, parser, validator and interpreter agree on one grammar.
- **Server sessions** (`server.dfy`, `server_handlers.dfy`, `server_heartbeat.dfy`). Who is the client, who is pending,
  and who may give commands, in every interleaving of the accept thread, the sessions' workers and the heartbeat.

`options.dfy` holds the option type they share. `dafny verify dfyconfig.toml` checks everything.

Concurrency is modelled as steps: one step is one critical section, or one atomic access outside any. A theorem about
every run quantifies over every sequence of steps. Where an object of the original is updated in place, a class carries
its fields and its methods are proved against the functions that the steps use.

Some statements come with the condition under which they hold, because they do not hold without it:

- The packer's waste of a window is right exactly when what it counts ahead of the window does no harm and the area fits
  32 bits (`WasteOverflow.ReportedIsWaste`); best fit chooses the least waste exactly when that of all candidates fits, or
  that of none (`WasteOverflow.LeastTotalExactly`), and always in a target of less than 2^31 units.
- Drawing leaves out exactly what lies inside closed popups and tables if and only if none of the same kind is nested
  inside one, but at the very end (`RemoteNesting.DrawnExactly`).
- Merging is independent of order exactly when the two edits are compatible key by key (`ThreeWayMerge.MergeCommutes`).
- A save keeps the keys of others exactly when the process has a baseline and merges key by key
  (`SharedFile.CommitKeepsKeyExactly`); the owner's own value survives its save exactly when it stands against what the
  commit found (`SharedFile.OwnValueStandsExactly`).
- A remote list survives storing and loading exactly when none of its strings is longer than 65535 bytes, since the
  length is stored in 16 bits (`RemoteCodec.ListRoundTrip`).
- An arc without a step is defined exactly when its circle's segment count is not 0 (`ArcSampler.Path.ArcToFast`,
  `CircleSegments.SharedData.NoSegmentsExactly`).
- The heartbeat closes a client exactly when it finds it rejected, closed or late (`ServerHeartbeat.HeartbeatDecides`), and
  a new client is spared exactly when it was never turned down before (`ServerHeartbeat.NewClientIsHealthy`).
- The heartbeat ends the streaming of a client it did not look at exactly when a promotion came in between and the new
  client streams by then (`ServerHeartbeat.HeartbeatAndSuccessor`).
- Starting or stopping a processor inside a temporary stop leaves it sound exactly when the call changes nothing
  (`Processors.Processor.Start`, `Processors.Processor.Stop`); the end of a temporary stop ends the program exactly when
  it finds a worker (`Processors.Processor.TempStart`).
- A chain is in order after a processor has joined exactly when that was stopped or is switched on in a running chain
  (`Chains.Chain.AddBlock`).

Two statements hold of more inputs than their source suggests: the checksum is right for every 32-bit start value, not
only for reduced ones, and the count of points an arc reserves is the least any walk with that step can have.

## Model

| member | source | states |
|---|---|---|
| RectPacker.Context.constructor | core/src/imgui/imstb_rectpack.h:262-292 | a fresh target: the skyline is flat from 0 to the sentinel at `width`, every node is on exactly one list, and widths are quantised unless there is a node for every column |
| RectPacker.Context.SetupAllowOutOfMem | core/src/imgui/imstb_rectpack.h:242-260 | switching the quantisation on or off keeps the packing and the lists |
| RectPacker.FindMinY | core/src/imgui/imstb_rectpack.h:295-349 | the height found is the least one clear of the skyline over the whole window; the waste is the 32-bit sum the walk adds up, equal to the area left below if and only if the window is counted right and that area is below 2^31, and to the unbounded sum if and only if that is |
| RectPacker.FindLeftAligned | core/src/imgui/imstb_rectpack.h:369-395 | the walk over the corners ends with the best corner of all that fit: lowest, then first (bottom left) or of least waste as reported in 32 bits (best fit) |
| RectPacker.FindRightAligned | core/src/imgui/imstb_rectpack.h:414-445 | the second walk ends with the position of least reported waste, and of those the leftmost, among all lowest windows that start or end at a corner |
| RectPacker.Search | core/src/imgui/imstb_rectpack.h:351-451 | the position found is lowest over every x, not just corners (bottom left: also leftmost; best fit: of least reported waste); nothing found means no window leaves room |
| RectPacker.Context.FindBestPos | core/src/imgui/imstb_rectpack.h:351-451 | the same on the packer's own lists, with the width rounded up to the alignment; if the area of the target is below 2^31 best fit's choice truly wastes least; lists and skyline are untouched |
| RectPacker.AlignedIsLeast | core/src/imgui/imstb_rectpack.h:356-359 | the aligned width is the least multiple of the alignment not below the width |
| RectPacker.Context.LinkIn | core/src/imgui/imstb_rectpack.h:468-487 | the new node is put before the first corner not left of the rectangle; each node is still on exactly one list |
| RectPacker.Context.FreeCovered | core/src/imgui/imstb_rectpack.h:489-497 | every corner the rectangle covers goes to the free list, and no other |
| RectPacker.Context.Stitch | core/src/imgui/imstb_rectpack.h:453-527 | taking a node, relinking and freeing leaves exactly the skyline with the rectangle's columns raised |
| RectPacker.Context.PackRectangle | core/src/imgui/imstb_rectpack.h:453-527 | packed at the lowest clear height (bottom left: leftmost such place; best fit: of least reported waste, which is the least area if the target's is below 2^31), standing on the floor or on a box, relinked as the source does, and added to the boxes, which stay apart; refused only if no node is free or no window leaves room, and then nothing changes |
| RectPacker.Context.NeverOutOfNodes | core/src/imgui/imstb_rectpack.h:262-292 | with a node for every column the free list is never empty |
| RectPacker.Context.PackInOrder | core/src/imgui/imstb_rectpack.h:570-582 | one pass gives every non-empty, not refused rectangle a box of its own |
| RectPacker.Context.PackRects | core/src/imgui/imstb_rectpack.h:558-598 | the array comes back in its own order with sizes unchanged, `was_packed` is set exactly for those not refused (empty ones count), the result says whether all are; earlier boxes stay; taller rectangles, and of one height wider ones, have their turn first; with a node for every column a rectangle is refused only if no window leaves room on the skyline of its turn |
| RectPacker.LargeTargetPacked | core/src/imgui/imstb_rectpack.h:295-451 | on a target of 65535 by 65535, from its initialisation: best fit puts the second rectangle where more is wasted, as the waste there leaves 32 bits |
| RectPacker.PackedRectsAreApart | core/src/imgui/imstb_rectpack.h:558-598 | over any number of calls: packed rectangles lie inside the target and overlap neither each other nor earlier ones |
| RectPacker.BackInOrder | core/src/imgui/imstb_rectpack.h:563-591 | sorting by height and then by tag restores the order the caller gave |
| RectPacker.Sort | core/src/imgui/imstb_rectpack.h:529-550 | a sort by the packer's comparisons permutes the array into order |
| Skyline.TopIsLeastBound | core/src/imgui/imstb_rectpack.h:295-349 | the clear height of a window is the least bound of the skyline over it |
| Skyline.CornersSuffice | core/src/imgui/imstb_rectpack.h:369-393 | a height that no corner window beats is beaten by no window at all |
| Skyline.CornersSufficeLeft | core/src/imgui/imstb_rectpack.h:369-393 | and one strictly beaten by no corner further left is beaten by no window further left |
| Skyline.PlacedIsSkyline | core/src/imgui/imstb_rectpack.h:468-503 | after relinking the corners still start at 0, ascend strictly and end at the sentinel |
| Skyline.PlacedHeights | core/src/imgui/imstb_rectpack.h:468-503 | column by column: the rectangle's columns end at its top, all others keep their height, except what is left of the segment it starts in when it is narrower than the window |
| Skyline.BoxOnTop | core/src/imgui/imstb_rectpack.h:453-527 | a box on top of the skyline overlaps no earlier box, and all boxes stay below the new skyline |
| Skyline.TightStaysTight | core/src/imgui/imstb_rectpack.h:468-503 | raising exactly the rectangle's columns keeps the skyline no higher than the boxes require, which is part of the packer's valid state while widths are not rounded |
| Skyline.TopIsCarried | core/src/imgui/imstb_rectpack.h:295-349 | on such a skyline the clear height of a window is the floor or the top of a box in it |
| SkylineWaste.ScanFindsTop | core/src/imgui/imstb_rectpack.h:295-349 | the walk ends with the clear height, wherever the window starts |
| SkylineWaste.TotalIsWaste | core/src/imgui/imstb_rectpack.h:295-349 | the sum the walk adds up is never less than the area left below the window, and is that area if and only if the columns counted ahead of the window do no harm; so for every window that starts at a corner or above height 0 |
| WasteOverflow.ReportedIsWaste | core/src/imgui/imstb_rectpack.h:295-349 | kept in 32 bits, it is that area if and only if the window is counted right and the area is below 2^31 |
| WasteOverflow.WalkFitsExactly | core/src/imgui/imstb_rectpack.h:324-345 | no product and no sum of the walk leaves 32 bits if and only if the area is below 2^31, for every window that starts at a corner or above height 0 |
| WasteOverflow.SmallTargetFits | core/src/imgui/imstb_rectpack.h:324-345 | nor for any window at all, if the area of the target is below 2^31 |
| SkylineWaste.MoreMayBeReported | core/src/imgui/imstb_rectpack.h:330-342 | a window that starts inside a stretch of height 0 for which twice the area is reported |
| WasteOverflow.LeastTotalExactly | core/src/imgui/imstb_rectpack.h:371-445 | best fit's choice has the least sum if and only if the sums of all candidates are below 2^31, or those of none |
| WasteOverflow.LeastTotalIsLeastArea | core/src/imgui/imstb_rectpack.h:371-445 | and then it wastes the least area of the lowest windows that start at a corner, or end at one and are counted right |
| WasteOverflow.SmallTargetWastesLeast | core/src/imgui/imstb_rectpack.h:371-445 | so it does whenever the area of the target is below 2^31 |
| WasteOverflow.LargeTarget | core/src/imgui/imstb_rectpack.h:295-445 | a skyline on which it does not: of two windows it can only choose the one that wastes more, whose sum wraps around to less than 0 |
| Skyline.CornersAreFew | core/src/imgui/imstb_rectpack.h:262-292 | an ascending skyline of a target has at most one corner per column and the sentinel |
| ThreeWayMerge.MergeLocalChanges | core/src/config.cpp:277-309 | the loops over baseline and local keys compute the merge |
| ThreeWayMerge.MergedField | core/src/config.cpp:277-309 | what each key of the merged object is, by cases of before, local and disk |
| ThreeWayMerge.MergeOntoBaseline | core/src/config.cpp:277-309 | merge(b, l, b) = l |
| ThreeWayMerge.MergeOntoLocal | core/src/config.cpp:277-309 | merge(b, l, l) = l |
| ThreeWayMerge.MergeIsIdempotent | core/src/config.cpp:277-309 | merge(b, l, merge(b, l, d)) = merge(b, l, d) |
| ThreeWayMerge.MergeCommutes | core/src/config.cpp:277-309 | for two edits of one baseline the order of merging does not matter if and only if they are compatible, key by key |
| ThreeWayMerge.UntouchedKeyKeepsDisk | core/src/config.cpp:277-309 | a key the local edit left alone ends as it is on disk |
| ThreeWayMerge.UncontestedKeyTakesLocal | core/src/config.cpp:277-309 | a key nobody else changed ends with the local value, removals included |
| ThreeWayMerge.KeepsDiskKeyExactly | core/src/config.cpp:277-309 | merging keeps what any object on disk has under a key if and only if the edit left the key alone and the merge goes key by key, or nothing was edited |
| ThreeWayMerge.KeepsNoKeyExactly | core/src/config.cpp:277-309 | onto a document that is no object, if and only if the process does not hold the key either |
| ThreeWayMerge.StandsExactly | core/src/config.cpp:285-306 | a local value survives what the file holds in its place if and only if nobody else changed it or it replaces whatever is there, at every depth |
| ThreeWayMerge.LocalStandsExactly | core/src/config.cpp:277-309 | the same for one key of two documents |
| ConfigEdit.MaterializedIsIdentity | core/src/config.h:471-486 | materialising a section changes the document if and only if the path was not one of objects |
| ConfigEdit.WriteTouchesOnePlace | core/src/config.h:410-441 | writing a key of a section leaves every path that diverges from it as it was |
| ConfigAccess.EditAccess.Materialize | core/src/config.h:471-486 | walks the path, turning whatever is in the way into objects; the changed flag is raised exactly when the document changes |
| ConfigAccess.EditAccess.Set | core/src/config.h:410-417 | afterwards the key holds the value, everything else is as before, and reporting no change means none was made |
| ConfigAccess.EditAccess.Ensure | core/src/config.h:86-102 | a value that may stand in for the default stays, anything else becomes the default; nothing else changes, and a change is reported exactly when the default was written |
| ConfigValues.IntegerSurvivesExactly | core/src/config.h:41-66 | a stored value stands in for an integer default if and only if it is held as an integer within the limits of the type, signed or not |
| ConfigValues.OtherTypesExactly | core/src/config.h:44-53 | for any other default exactly the values of its own kind, and for a float every number |
| ConfigValues.Limits | core/src/config.h:55-75 | the limits are those of two's complement |
| ConfigValues.EqualButRepaired | core/src/config.h:41-66 | a stored value equal to the default is repaired if and only if a float stands where an integer should |
| ConfigAccess.EditAccess.Erase | core/src/config.h:428-441 | the key is gone and nothing else changes, or nothing changes |
| ConfigAccess.EditAccess.Reset | core/src/config.h:325-330 | the document is the given one; no change is reported if it already was |
| ConfigManagerModel.ReachableManagers | core/src/config.cpp:576-721 | every run of edits, loads, saves and shutdown steps keeps the invariant: a clean manager with a valid baseline equals it, and a closed one is clean |
| ConfigManagerModel.ClosedIsFinal | core/src/config.cpp:752-808 | nothing that happens after closing changes the manager |
| ConfigManagerModel.SetValueSurvivesRebase | core/src/config.cpp:629-650 | a value changed while a load or save was under way is there after the rebase, at any depth |
| ConfigManagerModel.RemovedKeySurvivesRebase | core/src/config.cpp:694-719 | what was removed meanwhile, a key or anything above it, stays removed |
| ConfigManagerModel.SaveKeepsEdits | core/src/config.cpp:670-721 | over every run between the snapshot of a save and its end: what was set or removed meanwhile, at any depth, is set or removed afterwards and unsaved; what was left alone is the file's; nothing is unsaved if and only if nothing was edited |
| ConfigManagerModel.LoadKeepsEdits | core/src/config.cpp:576-654 | the same for a load |
| ConfigManagerModel.PathChanges | core/src/config.cpp:546-574 | a new path is taken over and drops the baseline; the same path changes nothing |
| ConfigManagerModel.BusyOnlyIfWanted | core/src/config.cpp:576-692 | a load or save begins if and only if the manager is open, or closing and allowed to, and there is something to load or save |
| ConfigManagerModel.FailedSaveRepeats | core/src/config.cpp:692-692 | a failed save has changed nothing and can be tried again |
| ConfigManagerModel.ShutdownCompletes | core/src/config.cpp:752-808 | shutting down saves what is unsaved once more and then closes, and closes no sooner |
| ConfigManagerModel.ConfigManager.SetPath | core/src/config.cpp:546-574 | refused once closing; a new path drops the baseline and leaves the document dirty unless it is null; the same path changes nothing |
| ConfigManagerModel.ConfigManager.FinishLoad | core/src/config.cpp:629-654 | at every path a value set while the file was read is still there and a removed one still absent; without edits the document read is taken over, otherwise it gives what was left alone; the edits, and what could not be put on file, are unsaved |
| ConfigManagerModel.ConfigManager.FinishSave | core/src/config.cpp:694-721 | at every path a value set while the file was written is still there and a removed one still absent, and unsaved; what was left alone comes from the committed document; without edits that document is adopted and nothing is unsaved |
| ConfigManagerModel.ConfigManager.Release | core/src/config.cpp:810-827 | a modified access raises revision and dirty flag |
| ConfigManagerModel.ConfigManager.CloseIfClean | core/src/config.cpp:779-796 | closes if and only if nothing is unsaved |
| SharedFile.CommitKeepsKeyExactly | core/src/config.cpp:311-339 | a save keeps a key of every object on disk if and only if the process has a baseline, left the key alone and merges key by key, or changed nothing |
| SharedFile.RebasesKeepKey | core/src/config.cpp:694-719 | that condition is enough for rebasing onto any one document |
| SharedFile.CommitOutcome | core/src/config.cpp:311-354 | after a commit that can write the file holds the merged document; one that cannot leaves it alone, and goes well only if there was nothing to write |
| SharedFile.LoadAdoptsFile | core/src/config.cpp:594-654 | a process that loads undisturbed holds what is in the file, as its baseline too |
| SharedFile.KeptByStep | core/src/config.cpp:311-354 | each step of any process keeps the bookkeeping of the owner's key, and no step but the owner's commit changes it on disk |
| SharedFile.OnlyTheOwnerChangesTheKey | core/src/config.cpp:311-354 | no load or save of others changes a key that only its owner edits, if they meet that condition whenever they merge; of the owner nothing is assumed |
| SharedFile.SavedKeyIsNeverLost | core/src/config.cpp:670-721 | after any run, a save of the owner with no concurrent edit puts its live value on disk, where it stays until the owner's next commit; it is the value from before the save if and only if that stood against what the commit found, and so always with a baseline from the file |
| SharedFile.OwnValueStandsExactly | core/src/config.cpp:330-333 | a commit puts the saved value of a key on disk if and only if there is no baseline or the value stands against the file |
| SharedFile.SavingWithoutABaselineLosesKeys | core/src/config.cpp:318-330 | a run outside the condition: a process that saves before it ever loaded drops others' keys |
| SharedFile.SavingNoObjectLosesKeys | core/src/config.cpp:277-309 | another: a process whose document stopped being an object |
| SharedFile.DefaultsGiveWayToTheFile | core/src/config.cpp:602-607 | and a run in which the owner's own value gives way: its default was its baseline because the file could not be locked |
| AutoSaver.NoticeKept | core/src/config.cpp:420-427 | edits and notifications keep the invariant of flags, registrations and uses |
| AutoSaver.LifecycleKept | core/src/config.cpp:364-418 | enabling and disabling, in every interleaving, keep it |
| AutoSaver.ScanningKept | core/src/config.cpp:462-500 | waking, scanning, saving and flushing keep it |
| AutoSaver.RunKept | core/src/config.cpp:364-505 | so does every run |
| AutoSaver.DirtyManagersAreCovered | core/src/config.cpp:364-505 | no wake-up is lost: a dirty registered manager has the flag raised, a notification on its way, or is still ahead in or failed in the scan, and a worker is alive |
| AutoSaverHistory.DirtyExactly | core/src/config.cpp:556-721 | in every run a manager is dirty if and only if some change of it is unsaved: an edit, a path under which it is not saved, or a default that could not be written, since which no path change dropped it and no save or load that began after it succeeded |
| AutoSaverHistory.SavesHaveTheirThread | core/src/config.cpp:462-500 | only the thread that began a save ends it, and a scan saves dirty managers only |
| AutoSaverProgress.ScanSavesAll | core/src/config.cpp:462-500 | the worker, once notified, gets by itself to where every registered manager is saved and it waits again |
| AutoSaverProgress.FlushSavesAll | core/src/config.cpp:429-436 | so does a flush that nobody disturbs, on its own thread |
| AutoSaverProgress.EditNotifies | core/src/config.cpp:420-427 | an edit of an enabled manager notifies the worker, and of another it does not |
| AutoSaverProgress.EnableCompletes | core/src/config.cpp:364-384 | enabling registers the manager, notifies and has a worker running |
| AutoSaverProgress.DisableCompletes | core/src/config.cpp:386-418 | disabling takes off that registration and no other, and ends the worker with the last one |
| AutoSaverProgress.OthersComplete | core/src/config.cpp:576-721 | a caller's save or load that goes well leaves the manager clean; one that fails leaves it dirty, or as it was |
| AutoSaverProgress.ExclusiveFromStart | core/src/config.cpp:462-472 | in every run no two threads use the manager behind one registration at a time |
| AutoSaverProgress.EnterOrPass | core/src/config.cpp:462-472 | a scan enters a registration that is free and passes over one that was given up |
| AutoSaver.DisabledManagersAreUnused | core/src/config.cpp:386-418 | after disabling has returned no registration leads to the manager and no saver thread uses it |
| AutoSaver.DisabledUntilEnabled | core/src/config.cpp:386-418 | a caller that went through the life-cycle mutex may rely on that until the manager is enabled again |
| AutoSaver.UsedMeansUnderWay | core/src/config.cpp:386-418 | in use with the flag lowered means that somebody is still at disabling it |
| AutoSaver.FlagLoweredTooSoon | core/src/config.cpp:747-750 | a caller that only finds the flag lowered returns while the worker may be inside the manager: such a run |
| DrawCommands.RenderedIsFilled | core/src/imgui/imgui_draw.cpp:450-525 | a contiguous command buffer renders its indices in order, each under the header of its command, with callbacks in between |
| DrawCommands.JoinedMarks | core/src/imgui/imgui_draw.cpp:488-498 | merging two commands with one header changes nothing that is rendered |
| DrawCommands.RebasedFollows | core/src/imgui/imgui_draw.cpp:1756-1760 | rebuilding offsets behind another buffer keeps what is rendered and contiguity |
| DrawCommands.GraftedFollows | core/src/imgui/imgui_draw.cpp:1739-1760 | so does moving a channel's first command into the last one before it |
| DrawLists.DrawList.AddDrawCmd | core/src/imgui/imgui_draw.cpp:450-460 | a command with the current header at the end of the indices; the clip rectangle is never inverted |
| DrawLists.DrawList.PopUnusedDrawCmd | core/src/imgui/imgui_draw.cpp:464-471 | drops nothing but an empty trailing command |
| DrawLists.DrawList.AddCallback | core/src/imgui/imgui_draw.cpp:473-487 | exactly one call is added, under the current header, and a fresh command follows it |
| DrawLists.DrawList.TryMergeDrawCmds | core/src/imgui/imgui_draw.cpp:495-506 | folding the last two commands changes nothing that is drawn |
| DrawLists.DrawList.OnChangedClipRect | core/src/imgui/imgui_draw.cpp:510-531 | a new clip rectangle never touches what was drawn under the old one |
| DrawLists.DrawList.OnChangedTextureID | core/src/imgui/imgui_draw.cpp:533-554 | the same for the texture |
| DrawLists.DrawList.PushClipRect | core/src/imgui/imgui_draw.cpp:583-600 | the new clip is the wanted one within the current one, never inverted; nothing drawn changes |
| DrawLists.ClippedExactly | core/src/imgui/imgui_draw.cpp:583-600 | an intersected clip rectangle holds exactly the points of both rectangles, when they meet, and otherwise no more than an edge; another is the one asked for |
| DrawLists.DrawList.PopClipRect | core/src/imgui/imgui_draw.cpp:607-612 | the one pushed before, or the full screen |
| DrawLists.DrawList.PushTexture | core/src/imgui/imgui_draw.cpp:614-619 | the texture on top of the stack is the current one |
| DrawLists.DrawList.PopTexture | core/src/imgui/imgui_draw.cpp:621-626 | the one pushed before, or none |
| DrawLists.DrawList.PrimReserve | core/src/imgui/imgui_draw.cpp:631-654 | so many indices more, under the current header, and the write pointer at the first of them |
| DrawLists.DrawList.PrimUnreserve | core/src/imgui/imgui_draw.cpp:657-665 | takes back reserved indices from the end |
| DrawLists.DrawList.Prim | core/src/imgui/imgui_draw.cpp:631-681 | reserving for the worst case, writing and giving back draws exactly the indices written |
| DrawSplitter.Splitter.Split | core/src/imgui/imgui_draw.cpp:1689-1717 | channel 0 goes on with the list, the others start empty, whatever they held before |
| DrawSplitter.Splitter.SetCurrentChannel | core/src/imgui/imgui_draw.cpp:1790-1812 | no channel's drawing changes; the list is ready to draw with the current header |
| DrawSplitter.Splitter.Relocate | core/src/imgui/imgui_draw.cpp:1728-1761 | the first pass leaves one contiguous buffer across all channels |
| DrawSplitter.Splitter.Gather | core/src/imgui/imgui_draw.cpp:1762-1774 | the second pass appends commands and indices in channel order |
| DrawSplitter.Splitter.Merge | core/src/imgui/imgui_draw.cpp:1719-1788 | the list then holds the channels' drawings one after the other, every index under the header it was drawn with, offsets contiguous and counts adding up to the index buffer |
| DrawSplitter.MergedRenders | core/src/imgui/imgui_draw.cpp:1719-1788 | what the merged buffer renders is what its channels would render one by one |
| DrawSplitter.Perform | core/src/imgui/imgui_draw.cpp:583-665 | any drawing call extends the current channel's drawing and no other |
| DrawSplitter.DrawInChannels | core/src/imgui/imgui_draw.cpp:1689-1812 | split, any calls in any order of channels, merge: each channel's calls in order, channel by channel |
| ArcSampler.Path.ArcToFast | core/src/imgui/imgui_draw.cpp:1058-1148 | for every radius, sample range and step: without a step it divides by the circle's segment count, and is defined if and only if that is not 0; then it writes exactly the points reserved, each from inside the table, from the first sample to the last, no gap exceeding the clamped step, in both directions |
| ArcSampler.Path.WriteSteps | core/src/imgui/imgui_draw.cpp:1070-1147 | the points of an arc with a step: reserved, and as many written |
| ArcSampler.StepIs | core/src/imgui/imgui_draw.cpp:1066-1071 | the step by cases: as wanted, at most a quarter; else as many whole steps as segments fit the circle, from one to a quarter |
| ArcSampler.TruncWraps | core/src/imgui/imgui_draw.cpp:1095-1104 | a remainder has the sign of the sample, and a negative one is one turn short of the table entry |
| CircleSegments.SharedData.NoSegmentsExactly | core/src/imgui/imgui_draw.cpp:572-580 | a positive radius has segment count 0 if and only if its rounded radius is 0, or is one whose count of 256 or 512 was cut down to a byte, or the table was never filled |
| CircleSegments.SharedData.RadiiWithoutSegments | core/src/imgui/imgui_draw.cpp:572-580 | two such radii: 0.0000005, and 63 with a bound on the error that asks for 511 segments or more |
| CircleSegments.LostInAByte | core/src/imgui/imgui_draw.cpp:396-396 | a clamped even count is lost in a byte exactly when it is 256 or 512 |
| CircleSegments.SharedData.SetCircleTessellationMaxError | core/src/imgui/imgui_draw.cpp:386-399 | every entry of the table is filled for the new bound, or is already |
| ArcSampler.Path.WriteForward | core/src/imgui/imgui_draw.cpp:1106-1118 | the loop towards a later sample, whose index never leaves the table |
| ArcSampler.Path.WriteBackward | core/src/imgui/imgui_draw.cpp:1120-1132 | the loop towards an earlier one |
| ArcSampler.WalkIsLongEnough | core/src/imgui/imgui_draw.cpp:1076-1093 | no walk with that step has fewer points, so the number reserved is the least there is |
| ArcSampler.PlanOf | core/src/imgui/imgui_draw.cpp:1076-1093 | after the shortened first move, whole steps and one last gap within the step remain |
| Adler32.Adler32 | core/src/imgui/imgui_draw.cpp:4016-4045 | the blocked form with deferred modulo equals the reference of section 2.2 of RFC 1950, for every buffer and every 32-bit start value |
| Adler32.AbsorbBlock | core/src/imgui/imgui_draw.cpp:4023-4040 | the unrolled loop and the rest add one whole block, and no sum leaves 32 bits |
| Adler32.BlockFits | core/src/imgui/imgui_draw.cpp:4018-4042 | bound of both sums over a block of 5552 bytes, or of fewer after an unreduced start |
| Adler32.RawReduces | core/src/imgui/imgui_draw.cpp:4041-4041 | reducing at the end of a block equals reducing at every byte |
| Adler32.ReferenceInClosedForm | core/src/imgui/imgui_draw.cpp:4016-4045 | the first sum adds up the bytes, the second every byte as often as there are bytes from it on, both modulo 65521 |
| StreamProtocol.RunKept | core/src/dsp/stream.h:44-128 | in every interleaving the right to move the buffers is in exactly one of four places |
| StreamProtocol.BlocksAreReadInOrder | core/src/dsp/stream.h:44-114 | the blocks read are a prefix of those written, each once and in order, at most one behind; while the reader holds one the buffers cannot be swapped |
| StreamProtocol.NeverStuck | core/src/dsp/stream.h:44-114 | writer or reader can always take a step, and every step that is possible while one of them waits brings the end of its wait nearer |
| StreamBuffers.Stream.Fill | core/src/dsp/stream.h:137-138 | writing into the write buffer changes nothing the reader sees |
| StreamBuffers.Stream.SwapBuffers | core/src/dsp/stream.h:44-60 | the block handed over is what was in the write buffer; the buffers change places, or nothing happens when stopped |
| StreamBuffers.Stream.AnnounceData | core/src/dsp/stream.h:62-69 | the second section of a swap keeps the protocol |
| StreamBuffers.Stream.Read | core/src/dsp/stream.h:71-77 | a block is taken, or -1 when stopped |
| StreamBuffers.Stream.ClearReady | core/src/dsp/stream.h:90-95 | the first section of a flush |
| StreamBuffers.Stream.FreeSwap | core/src/dsp/stream.h:97-103 | the second one gives the buffers free |
| Pipeline.StreamsKept | core/src/dsp/processor.h:7-38 | a processor's run keeps both its streams' protocols, only takes from its input and only sends to its output |
| Pipeline.SettledKept | core/src/dsp/processor.h:7-38 | what a processor has sent is its result for each block it has taken, which may depend on all before, in order, less those lost |
| Pipeline.PassedThroughOneMore | core/src/dsp/processor.h:7-38 | losses and maps of two stages in a row are those of one composed stage |
| Pipeline.SentIsRow | core/src/dsp/processor.h:7-38 | at any place of a row of processors, what was sent there is what those before it make of the source |
| Pipeline.OutputIsRow | core/src/dsp/processor.h:7-38 | in every run the sink has read, at most one block behind, what the processors make of the source's blocks, whatever they remember, with at most one lost per stop |
| Pipeline.RowIsComposedMap | core/src/dsp/processor.h:7-38 | processors that map single blocks make of the source the composed map of some of its blocks |
| Pipeline.OutputIsComposedMap | core/src/dsp/processor.h:7-38 | for such processors the sink reads the composed map of a prefix of the source's blocks, with at most one lost per processor stop |
| Pipeline.LossesKept | core/src/dsp/block.h:75-94 | a stop costs at most one block, on the worker's way out |
| Pipeline.StoppedWorkersEnd | core/src/dsp/block.h:66-94 | with both stop flags up the worker can always go on, and every step brings it nearer its end, so joining it ends |
| Pipeline.ControllerMoves | core/src/dsp/block.h:71-94 | what stopping and starting do to the flags a worker sees: both are raised before the join and cleared after it |
| Pipeline.StopCompletes | core/src/dsp/block.h:71-94 | wherever the worker is when it is stopped, it ends, the flags are cleared, and it can be started again |
| Pipeline.EndsGoOn | core/src/dsp/stream.h:44-103 | the source waits only for its stream to be free, the sink only for a block |
| Processors.Processor.Start | core/src/dsp/block.h:26-34 | running, with a worker; the program ends if and only if it did not run but had one; from a sound state it goes on, and the state is sound afterwards if and only if it ran already or was not in a temporary stop |
| Processors.Processor.Stop | core/src/dsp/block.h:36-44 | not running; its worker is gone if it ran; from a sound state there is none, and the state is sound afterwards if and only if it was stopped already or was not in a temporary stop |
| Processors.Processor.TempStop | core/src/dsp/block.h:55-62 | only the outermost call stops the worker |
| Processors.Processor.TempStart | core/src/dsp/block.h:46-53 | only the outermost end starts the worker again, and only if the temporary stop had stopped it; the program ends if and only if there is a worker by then |
| Processors.Processor.StopInsideTemporaryStop | core/src/dsp/block.h:36-53 | stopped inside a temporary stop, a processor ends stopped but with a worker |
| Processors.Processor.StartInsideTemporaryStop | core/src/dsp/block.h:26-34 | started inside one, it has a worker while its inputs may be exchanged |
| Processors.Processor.RestartInsideTemporaryStop | core/src/dsp/block.h:26-62 | stopped and started inside a temporary stop, a processor has a worker when that ends, and the program ends with it |
| Processors.Processor.SetInput | core/src/dsp/processor.h:57-66 | the input is exchanged while no worker exists, is the only one registered, and the worker runs afterwards exactly if it did before |
| Chains.BeforeIsLastEnabled | core/src/dsp/chain.h:163-171 | the signal before a place comes from the last enabled processor before it, or is the chain's input |
| Chains.EnabledWired | core/src/dsp/chain.h:62-90 | enabling a processor needs just its own input and its successor's, or the output, set |
| Chains.DisabledWired | core/src/dsp/chain.h:93-118 | disabling needs just its successor's input, or the output, set |
| Chains.Chain.SetInput | core/src/dsp/chain.h:20-30 | the new input reaches the first enabled processor, or the output; the wiring stays canonical |
| Chains.Chain.AddBlock | core/src/dsp/chain.h:32-45 | a known processor is refused; a new one joins behind all others; the chain is in order afterwards if and only if the newcomer was stopped or is switched on in a running chain, and whatever ran goes on running |
| Chains.Chain.RunningNewcomer | core/src/dsp/chain.h:32-45 | one that runs joins a stopped chain disabled, and goes on running |
| Chains.Chain.RemoveBlock | core/src/dsp/chain.h:47-61 | an unknown processor is refused; a known one leaves stopped, the others in order |
| Chains.Chain.EnableBlock | core/src/dsp/chain.h:62-90 | an unknown processor is refused; otherwise the wiring is the one list and switches call for, it runs exactly if the chain does, and a new output is told |
| Chains.Chain.DisableBlock | core/src/dsp/chain.h:93-118 | the same for switching off |
| Chains.Chain.EnableAllBlocks | core/src/dsp/chain.h:131-135 | all enabled, wired and running as the chain does |
| Chains.Chain.DisableAllBlocks | core/src/dsp/chain.h:138-142 | none enabled, and the output is the input |
| Chains.Chain.Start | core/src/dsp/chain.h:144-151 | exactly the enabled processors run |
| Chains.Chain.Stop | core/src/dsp/chain.h:153-160 | none runs |
| RemoteCodec.ElemRoundTrip | core/src/gui/smgui.cpp:273-314 | an element is read back as it was, whatever follows it, if and only if it is not a string of more than 65535 bytes |
| RemoteCodec.ListRoundTrip | core/src/gui/smgui.cpp:316-400 | so a list comes back if and only if it holds no such string |
| RemoteCodec.Int32RoundTrip | core/src/gui/smgui.cpp:291-294 | 32-bit integers survive their four bytes |
| RemoteCodec.EncodedAllSize | core/src/gui/smgui.cpp:403-422 | the bytes of a list are as many as its computed size |
| RemoteCodec.StoreItem | core/src/gui/smgui.cpp:344-386 | writes the element's bytes and no others beyond the room given, or reports that there is no room |
| RemoteWidgets.TableAgrees | core/src/gui/smgui.cpp:449-506 | the argument kinds recorded, validated and read when drawing are the same for every widget, and each is drawn as itself |
| RemoteWidgets.FittingFieldIsShown | core/src/gui/smgui.cpp:158-170 | a text field is shown with its own text and size exactly as sent when they fit the local buffer |
| RemoteWidgets.ShownExactly | core/src/gui/smgui.cpp:148-163 | in any case with the longest start of its text that has no zero byte and leaves room for one, and with a size within the buffer's |
| RemoteWidgets.TakesSyncExactly | core/src/gui/smgui.cpp:514-901 | a request for a synchronous update is used up by what can be pressed or edited, by columns and by labels |
| RemoteGrammar.FramesAreAccepted | core/src/gui/smgui.cpp:424-506 | every sequence of well-formed frames is accepted |
| RemoteGrammar.AcceptedAreFrames | core/src/gui/smgui.cpp:424-506 | and nothing else is |
| RemoteGrammar.AfterEndIsAccepted | core/src/gui/smgui.cpp:181-208 | what lies behind the end of a closed popup or table is a well-formed list |
| RemoteGrammar.RecordedIsAccepted | core/src/gui/smgui.cpp:514-901 | whatever widget calls are recorded, the list is accepted |
| RemoteGrammar.DrawnAsRecorded | core/src/gui/smgui.cpp:67-227 | drawing a recorded list makes recorded calls with the same arguments and in the same order; they are those that lie inside no popup or table drawn and closed if and only if every search for an end stops at the matching one |
| RemoteGrammar.SentAndDrawn | core/src/gui/smgui.cpp:316-400 | the same after storing and loading again |
| RemoteGrammar.TableInTableDrawn | core/src/gui/smgui.cpp:193-201 | a table inside a closed table: what follows the inner end is drawn, the outer end too |
| RemoteNesting.MatchByDepth | core/src/gui/smgui.cpp:181-201 | what lies inside a popup or table, by nesting depth, ends at the matching end |
| RemoteNesting.VisibleExactly | core/src/gui/smgui.cpp:181-201 | the calls to be drawn are exactly those that lie inside none that is drawn and stays closed |
| RemoteNesting.SkipsExactly | core/src/gui/smgui.cpp:184-198 | the search for the first end stops at the matching one if and only if no popup or table of the kind begins before it, or nothing follows |
| RemoteNesting.DrawnExactly | core/src/gui/smgui.cpp:67-227 | the calls drawn are the calls to be drawn if and only if every search made stops right |
| RemoteList.DrawList.Record | core/src/gui/smgui.cpp:514-901 | appends one frame; a request for a synchronous update is used up by the widgets that take one; an accepted list stays accepted |
| RemoteList.DrawList.GetSize | core/src/gui/smgui.cpp:413-422 | the sum of the item sizes |
| RemoteList.DrawList.Store | core/src/gui/smgui.cpp:388-401 | writes exactly the list's bytes if they fit, and reports it if not |
| RemoteList.DrawList.CheckTypes | core/src/gui/smgui.cpp:424-444 | holds exactly if enough elements are left and each has its kind |
| RemoteList.DrawList.Validate | core/src/gui/smgui.cpp:446-506 | holds exactly of the lists of the grammar |
| RemoteList.DrawList.Load | core/src/gui/smgui.cpp:316-342 | the elements read, and the length consumed if all could be read and the list is valid, or -1 |
| RemoteList.DrawList.Draw | core/src/gui/smgui.cpp:67-227 | on an accepted list, whatever the user does and whichever popups open: every step read is one, every argument has its kind, the calls are the list's; a diff is reported if and only if a frame drawn was pressed or given a value of its kind, and is the last such frame's name, value and sync flag; each value given is in its place, every other element is as before, and the list stays valid |
| ServerSessions.SessionSlots.PromoteSession | core/src/server.cpp:567-581 | succeeds for the client itself and for the pending session unless an open client streams; the old client is retired |
| ServerSessions.PushedState.Flush | core/src/server.cpp:818-839 | a client that was up to date but for the marked values is up to date afterwards, and no mark is left |
| ServerSessions.Kept | core/src/server.cpp:369-942 | every step, in every interleaving of accept thread, workers and heartbeat, keeps the invariant |
| ServerSessions.ReachableServers | core/src/server.cpp:369-942 | each session is in at most one slot; the client has finished a compatible hello and answered its own challenge if a password is asked for; what it was not sent is marked |
| ServerSessions.OnlyTheClientCommands | core/src/server.cpp:607-692 | a session gets a command past the gate if and only if it is the client then |
| ServerSessions.StreamingKeepsTheSlot | core/src/server.cpp:567-581 | over any run in which the client is open and streams throughout, it remains the client |
| ServerSessions.StepKeepsTheSlot | core/src/server.cpp:567-581 | no single step takes the place of an open client that streams |
| ServerSessions.ClientChanges | core/src/server.cpp:567-581 | the client changes only by promoting the pending session, which retires the old one, or by the heartbeat after closing it |
| ServerSessions.PendingReaped | core/src/server.cpp:876-895 | a pending session is closed if and only if it was rejected, is closed or took too long; a healthy one stays, and no other session is touched |
| ServerSessions.NewcomerTurnedAway | core/src/server.cpp:368-424 | a newcomer is turned away if and only if there is an open client when it arrives and the source runs when the control lock is had; otherwise it becomes the pending session |
| ServerHandlers.Server.HandleHello | core/src/server.cpp:514-559 | undisturbed, the handler of a hello does exactly what its steps do one after the other: turned down, waiting for the answer to a fresh challenge, or the client |
| ServerHandlers.Server.BecomeClient | core/src/server.cpp:584-591 | promoted with everything reset and every value sent, or turned down with nothing else changed |
| ServerHandlers.Server.CommandHandler | core/src/server.cpp:607-733 | the handler of a command does what its steps do: nothing for a session in no slot, the answer to the challenge before the handshake is over, the command and a flush after it |
| ServerHandlers.Server.FlushPushedState | core/src/server.cpp:818-839 | an open client is sent exactly what is marked; without one the marks stay |
| ServerHandlers.Server.PublishNewcomer | core/src/server.cpp:408-424 | publishing a newcomer is its step: it becomes pending and takes the place of another newcomer only |
| ServerHandlers.Server.TakeRetiredSessions | core/src/server.cpp:866-874 | all retired sessions are taken at once, and nothing else changes |
| ServerHandlers.Server.ReapPendingSession | core/src/server.cpp:876-895 | the pending session is closed if it was rejected, is closed already or took too long; no other is touched |
| ServerHandlers.Server.CloseSession | core/src/server.cpp:935-942 | the session is closed, and a client that has taken over meanwhile is left alone |
| ServerHandlers.Server.SetInputSampleRate | core/src/server.cpp:860-864 | recording a sample rate is its step: the value, and its mark |
| ServerHandlers.Server.SetTuningLimits | core/src/server.cpp:851-857 | so is recording tuning limits |
| ServerHandlers.HelloKeeps | core/src/server.cpp:514-559 | a hello, whatever it holds, ends with the lock free and the invariant intact |
| ServerHandlers.CommandKeeps | core/src/server.cpp:607-733 | so does a command |
| ServerHandlers.HelloOutcome | core/src/server.cpp:514-559 | a hello is turned down if incompatible, unable to answer or no longer wanted; else it is asked the challenge and displaces nobody, or takes over unless an open client streams; no other session is touched |
| ServerHandlers.AnswerOutcome | core/src/server.cpp:618-664 | before its handshake is over a session can only answer its own challenge: rightly and it takes over unless an open client streams, wrongly and it is turned down |
| ServerHandlers.ClientCommandOutcome | core/src/server.cpp:666-733 | the client's commands start and stop the source and, unless malformed, leave it with every value sent and no mark |
| ServerHandlers.FlushOutcome | core/src/server.cpp:818-839 | a flush sends an open client what is marked and nothing else |
| ServerHandlers.RecordedIsSent | core/src/server.cpp:818-864 | what a source module records is marked, and the next flush sends it to an open client |
| ServerHeartbeat.NeverTheClientAgain | core/src/server.cpp:567-581 | a client that was displaced never is the client again |
| ServerHeartbeat.HeartbeatAndSuccessor | core/src/server.cpp:898-937 | from the heartbeat's look at the client to its stopping of the source: the client is still the one it saw if and only if no promotion succeeded, and another open client's streaming is ended if and only if one did and that client streams by then |
| ServerHeartbeat.SuccessorIsStopped | core/src/server.cpp:898-937 | a run from the start in which that happens |
| ServerHeartbeat.HeartbeatDecides | core/src/server.cpp:898-937 | in every run: a session the heartbeat looked at is closed before its next decision if and only if it was rejected, closed or late then; such a one is not the client any more and what ran was stopped, and otherwise the heartbeat changed neither |
| ServerHeartbeat.HealthyClientStaysOpen | core/src/server.cpp:898-937 | a client that is open and not rejected, to which no write fails, whose connection stays and which answers in time, is never closed |
| ServerHeartbeat.NewClientIsHealthy | core/src/server.cpp:567-581 | a new client is such a one if and only if it is open and was never turned down |
| ServerHeartbeat.TurnedDownThenPromoted | core/src/server.cpp:618-664 | a run from the start with one that was: a wrong answer, then the right one, and the heartbeat gives the new client up |
| ServerHeartbeat.ConnectionsFail | core/src/server.cpp:442-446 | a failure marks its session as rejected, a disconnect closes it, and nothing else changes |
| ServerHeartbeat.HeartbeatGoesOn | core/src/server.cpp:866-942 | each step of the heartbeat takes it further, to the next round |
| ServerHeartbeat.HeartbeatNeverStuck | core/src/server.cpp:866-942 | and it has one to take whenever the control lock is free |

## Left out

- JSON numbers are compared by value; how a stored number is held is a parameter of `ConfigAccess.EditAccess.Ensure`.
  Reading typed values without changing the document.
- File names, temporary files, Windows retries and lock files: a commit either happens as a whole or not at all.
- Where the original adds up more waste than 32 bits hold, which C leaves undefined, the sum is taken to wrap around. The
  revision counter's 64-bit wrap-around, and `int` overflow of sizes, sample ranges and rectangle counts.
- Runs over one shared file in which a process changes its path; one process and its path changes are in `config_manager.dfy`.
- The autosaver's destructor; the two reads of the enabled flag on the way to a notification are one step. The saver is
  modelled on values, with every thread's position in the state, since its properties are about interleavings.
- RectPacker.Context.NeverOutOfNodes: says nothing for fewer nodes than columns, where the widths are quantised but the
  skyline is not.
- RectPacker.Sort: a selection sort stands for `qsort`; nothing proved depends on the order of equal rectangles. A target of
  no columns or no nodes is excluded, as the original divides by their number. The nodes and the two extra ones live in one
  array, and a link is an index into it.
- Vertices, texture coordinates and colours of a draw list. The branch that splits large meshes by vertex offset is dead,
  as indices have 32 bits. Coordinates are reals; the clip rectangle of the full screen is assumed not to be inverted.
- ArcSampler.Path.ArcToFast: the points of the table are opaque values, radii are reals, and the formula for the number of
  segments is any function of the error and the radius.
- The fixed row of `pipeline.dfy` is not rewired, and a wait with a time limit reads like one without.
- Chains.Chain.AddBlock: says nothing of a newcomer inside a temporary stop.
- Processors with several inputs, and hierarchical blocks.
- RemoteList.DrawList.Draw: strings are the bytes sent, not cut at a zero byte, except in text fields. What the widgets draw,
  and the width flag passed between them, are not modelled, nor is the branch for elements that are no steps, which a valid
  list never reaches.
- On the server's side, giving a reported value back to the widget of that name.
- Sockets, compression, key derivation and the rendering of menus: connections open and close, writes fail and heartbeats
  time out as steps of their own, and the right answer to a challenge is a function that is not looked into.
- Joining a dropped session's worker: the worker may still take steps, which find it in no slot.
- Fonts, geometry, themes, tuner, waterfall, decoders and modules.
