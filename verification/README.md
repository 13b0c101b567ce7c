# A verified model of a soundboard's library, hotkeys and upgrade

The program is a soundboard. It keeps its sound library in an SQLite database that a scanner
refreshes root by root, answers global hotkeys from a table in that database, serves every library
request from one worker thread, and upgrades older installations from a single JSON file. This
project models those four parts and proves what each of them promises, for every input, every run
and, for the upgrade, every crash.

`dafny verify dfyconfig.toml` checks the whole project.

## The parts

**The library store.** `Tables` holds every table of the database as a field of one value, with the
invariant `Ok`: unique keys and foreign keys, parent links that agree with paths, an exact closure
table, presence closed under parents, no row older than the active generation. A transaction is a
method on the open `Connection` that works on a private copy and commits it or leaves the database
alone; each equals a function from the old tables to the new ones, and the theorems are about those
functions.

- `FolderScan`, `RootScan`, `Cascade`, `Finish`, `FinishEffects`: registering folders, begin, batch,
  cancel, finish and remove, with cascading deletes written out. `RawBatches`: when any batch is refused, whoever
  wrote it.
- `Legacy`, `Conversion`: what a finish does to imported tabs and to customised folders that are gone.
  `FinishedTabs`: where every tab after a finish comes from. `UpgradedTabs`: a tab's way from the upgrade through
  the first finish.
- `Staging`: a scan in progress shows no row of its own and reveals no sound. Some columns are written at once
  all the same, and a cancel does not restore them: a sound's standalone flag, a folder's name and position, and
  the list of roots with their positions. `Standalone` and `Labels` say exactly what a run of scan steps makes of
  each; `Labels` also shows that the scanner's own batches leave folder names, positions and sibling order alone.
- `ScanRuns`: every database the scan interface can reach, and when a scanner is superseded.
- `Visibility`: which sounds are live, shown by a folder and listed. `Listings`: count, page, position and
  neighbour queries describe one list. `Siblings`: ordering folders by hand.
- `ScanRoots`, `ScanOrder`, `ScanBatch`, `ScanFiles`, `ScanVisit`, `Refresh`: from the configured folders to a
  finished refresh through row-bounded batches.
- `Counterexamples`: small libraries on which properties one might expect fail.

**Hotkeys.** `Hotkeys` is the table, its conflict check and the three commands; `HotkeyCommands` what each
command does, in its own fields; `HotkeyRuns` commands whose checks and commits interleave with one another and
with changes of the library; `HotkeyWalk` the paged projection; `HotkeyGroup` what a press plays.

**The worker's queue.** `RequestQueue`: three bounded lanes with search coalescing.

**The upgrade.** `Disk` is a directory on a journaling file system; `Upgrade` the upgrade as one
file operation per step, so that an error, a kill or a power loss can come between any two;
`UpgradeSafety` its theorems over all runs; `FirstStart` those of a start without config or library;
`UpgradeRun` the same procedures as straight code, proved to end where the steps end; `ImportOrder` the
import's two buffers of sounds and hotkeys.

## Where the code does less than one would hope

These are properties one might expect that the code does not have. The first lemma named is the exact
condition; one with an input where the property fails follows it.

- A batch takes the standalone flag off the sounds it names at once, and cancelling the scan does not
  give it back (`Standalone.RunLiveExactly`, `Counterexamples.HiddenAndCancelled`).
- A batch renames and moves the folders it names at once, and cancelling does not undo it; a folder has the
  label of the last row for it (`Labels.RunLabelsExactly`, `Counterexamples.RenamedAndCancelled`).
- A begin puts its root on the list, or moves it there, at once, and cancelling does not undo it: a refresh
  brings back a root that was removed meanwhile (`Labels.RunRootsExactly`, `Counterexamples.RemovedRootReturns`).
- A refresh that is cancelled just before its last batch of files is probed takes the visit for complete,
  and the finish deletes what was not pushed (`ScanVisit.VisitExactly`, `Counterexamples.CancelledRefreshErases`).
- A stale scanner is turned away only if its generation does not follow the root's largest when the next
  scan begins (`ScanRuns.SupersededOverRuns`, `ScanRuns.StaleScannerAccepted`).
- Moving a folder one step is an adjacent swap only if its neighbours' positions fit around the two
  ranks it writes (`Siblings.MoveIsSwapExactly`, `Siblings.MoveMisses`).
- A finish is refused when the id of a tab it has to make is taken (`FinishedTabs.FinishRefusedExactly`,
  `Counterexamples.FinishRefused`); a freshly upgraded library is always in that state for a legacy tab
  whose folder is missing (`Finish.UpgradedFinishExactly`).
- Sparse overrides reproduce a legacy tab's membership only if earlier overrides of the folder agree
  (`Finish.FinishPreservesMembership`, `Counterexamples.OverrideWins`).
- Hotkey commands whose checks and commits interleave can share a control's or tab's chord, and so can a
  sound that becomes live again; they do not if and only if every commit would still pass its check and no
  revived sound has such a chord (`HotkeyRuns.InterleavedExactly`, `Hotkeys.InterleavedShare`,
  `HotkeyRuns.RevivedShares`).
- The import flushes sounds and hotkeys by separate counts, and a hotkey whose sound is still buffered is
  refused; a document's sounds are imported if and only if their ids and paths are distinct, their
  volumes and durations fit, and its hotkey batches end where sound batches end (`ImportOrder.ImportSounds`, `ImportOrder.MisalignedImport`).
- A start that is refused can still write: identifying a library without the program's application id puts
  it in (`UpgradeSafety.StartRefusedExactly`, `UpgradeSafety.RefusedAndMarked`).
- A first start creates the library under its own name. If it ends before the library is marked ready, every
  later start is refused (`FirstStart.FirstStartExactly`, `FirstStart.KilledFirstStart`).

## Model

| member | source | states |
|---|---|---|
| `FolderScan.EnsureScanFolder` | src/app/library_store.rs:2225-2286 | registers every component of a folder's path from the left, carrying the parent's row id, and returns the id the last component is found under; an empty path is refused |
| `FolderScan.EnsureFolderKeeps` | src/app/library_store.rs:2225-2286 | registering a folder keeps the whole invariant, closure table included, adds only rows of its own path and leaves every folder of the path present at the scanned generation |
| `FolderScan.ClosureIsParentWalk` | src/app/library_store.rs:2265-2283 | a closure row (a, d, depth) exists if and only if following depth parent links from d reaches a |
| `RootScan.BeginRootScan` | src/app/library_store.rs:2168-2208 | a begin upserts the root and records a generation, or fails without a change; it fails if and only if the active generation, a presence row or a location of the root carries the largest 64-bit number |
| `RootScan.BeginRefusedExactly` | src/app/library_store.rs:2181-2200 | a begin is refused if and only if its root's active generation, one of its presence rows or one of its locations is at 9223372036854775807; an unknown root never is |
| `RootScan.BeginScanFresh` | src/app/library_store.rs:2168-2208 | the generation handed out exceeds the active one and every row of the root, so a scan starts with no rows of its own; the invariant is kept |
| `RootScan.InsertScanSound` | src/app/library_store.rs:2288-2366 | a sound is inserted with all its columns or found by path, stops being standalone and gets its locations; a number beyond its column, a volume above 100, a taken public id, a foreign root or an unknown folder is an error |
| `RootScan.ApplyRootScanBatch` | src/app/library_store.rs:2368-2398 | all rows of a batch or none, and none for a generation that is not the recorded one |
| `RawBatches.BatchRefusedExactly` | src/app/library_store.rs:2210-2398 | any batch is refused if and only if its generation is not the recorded one, a folder row has no path or another root, a sound row does not fit its columns or has the public id of another path, or a location is another root's or in a folder neither there nor on the way to one of the batch's |
| `RawBatches.SoundRefusal` | src/app/library_store.rs:2288-2366 | which error a refused sound row is answered with: number, volume or public id, then the first bad location's own |
| `RawBatches.MadeOnTheWay` | src/app/library_store.rs:2232-2262 | a folder made on the way to a row's own has the name of its last component and position 0, the row's own has the row's name and position |
| `RootScan.CancelRootScan` | src/app/library_store.rs:2662-2690 | a cancel of the recorded generation removes exactly its rows; any other cancel does nothing |
| `Cascade.RemoveScannedRoot` | src/app/library_store.rs:2692-2712 | removing a root in one transaction, with its foreign-key cascades |
| `Cascade.RemoveRootExact` | src/app/library_store.rs:2692-2712 | no row of the root is left, the invariant holds, and exactly the scanned sounds with no other location and no manual membership are deleted |
| `Cascade.RemoveRootCascades` | src/app/library_store.rs:2692-2712 | every other table loses exactly the rows that refer to a removed folder or sound, and every remaining row is unchanged |
| `Staging.ApplyBatchStages` | src/app/library_store.rs:2225-2398 | a batch that succeeds keeps the invariant and every folder's root, path and parent; it writes presence and location rows of its own root and generation, new folders, new sounds that are not standalone and, of existing rows, only folder names and positions and standalone flags, which it takes off |
| `Staging.CancelStages` | src/app/library_store.rs:2662-2690 | a cancel touches only rows of its own root and generation and keeps the invariant |
| `Staging.StagingInvisible` | src/app/library_store.rs:2168-2398 | snapshot isolation of rows: no interleaving of begins, batches and cancels of any roots, stale ones included, changes root generations, which folders are on show, their effective sounds, liveness by membership or shown location, tabs, preferences or hotkeys, and none sets a standalone flag, on an old sound or a new one |
| `ScanRuns.SupersededOverRuns` | src/app/library_store.rs:2168-2223 | whatever scan calls of any root fall between two begins of a root, its own cancel, finish and removal included, the first scanner's generation is accepted after the second if and only if it follows the root's largest generation then, or the root was gone and it is 1 |
| `ScanRuns.RivalsByRows` | src/app/library_store.rs:2168-2223 | while the scan goes on, whatever its own batches and calls for other roots do, the first scanner is turned away if and only if some row of the root carries its generation |
| `ScanRuns.EndedReissues` | src/app/library_store.rs:2168-2223 | after the scan's own cancel its generation is always handed out again, after its finish never, after its root's removal exactly when it was 1 |
| `ScanRuns.StaleScannerAccepted` | src/app/library_store.rs:2168-2223 | two begins in a row hand out the same generation, so a stale scanner is not always rejected |
| `Standalone.BatchHidesExactly` | src/app/library_store.rs:2330-2333 | after a batch, and still after its cancel, a live sound is live if and only if rows keep it live or the batch did not name its file |
| `Standalone.RunLiveExactly` | src/app/library_store.rs:2288-2333 | over any run of begins, batches and cancels a sound is live afterwards if and only if it was live before and rows keep it so or no applied batch named its file; nothing is ever revealed |
| `Counterexamples.HiddenAndCancelled` | src/app/library_store.rs:2330-2333 | a live standalone sound is scanned, the scan is cancelled, and the sound is gone from the library |
| `Labels.BatchLabelsExactly` | src/app/library_store.rs:2247-2251 | after a batch, and still after its cancel, every folder has the name and position of the last row for its path; so labels are unchanged if and only if those rows repeat them |
| `Labels.RunLabelsExactly` | src/app/library_store.rs:2247-2251 | over any run an existing folder ends with the name and position of the last row for it among the applied batches of its root, or its old ones |
| `Counterexamples.RenamedAndCancelled` | src/app/library_store.rs:2247-2251 | a folder on show keeps the name and position a cancelled scan gave it |
| `Labels.BeginPositionExactly` | src/app/library_store.rs:2168-2208 | a begin puts its root on the list at its position, and its cancel leaves it there; the list is unchanged if and only if the path was a root with that position |
| `Labels.RunRootsExactly` | src/app/library_store.rs:2168-2208 | over any run of staging steps every root has the position of the last begin that named it, and is on the list if it was or a begin named it |
| `Counterexamples.RemovedRootReturns` | src/app/library_store.rs:3847-3866 | in any library, a removed root that a refresh begins and cancels is on the list again |
| `Labels.ScannerInvisible` | src/app/commands/library.rs:95-162 | with the scanner's own batches over a scanned tree, an unfinished scan changes nothing on show: neither rows nor folder names and positions nor the order of siblings; it reveals no sound and hides only standalone ones it has named |
| `Labels.RunTidy` | src/app/commands/library.rs:95-162 | over all scan calls, removals at any time included, with the scanner's own batches every location lies in a folder present at its generation and every folder is named after its path |
| `ScanRuns.ReachableClosure` | src/app/library_store.rs:2225-2286 | in every state reachable through begin, batch, cancel, finish and remove: closure rows are exactly the parent walks, presence is closed under them, and a folder is hidden exactly when some folder on its parent walk is |
| `Listings.PagesAreListing` | src/app/library_store.rs:3661-3762 | the first n pages of any scope concatenate to the listing's prefix, and all pages to the whole list of the counted length |
| `Listings.PositionIsIndex` | src/app/library_store.rs:4434-4553 | the rank query answers i exactly when the sound is at index i of the list |
| `Listings.AdjacentIsOffset` | src/app/library_store.rs:4555-4649 | the neighbour lookup at i plus k is the list at that place, none outside it, and an error only beyond the 64-bit range |
| `Listings.QueriesAgree` | src/app/library_store.rs:3597-3762 | count, page, position and neighbour lookup agree on every listed sound in all three scopes |
| `Listings.StagingKeepsListings` | src/app/library_store.rs:2368-2398 | manual-tab and folder listings, of any root known or not, are the same after any staging run, under every search |
| `Listings.StagingKeepsLive` | src/app/library_store.rs:3403-3414 | the general listing over a staging run, under every search: exactly the rows that are kept live, with the keys they had, and no staged row |
| `Visibility.LiveExactly` | src/app/library_store.rs:3403-3414 | a sound is live if and only if it is standalone, in a manual tab, or located under a root at its active generation outside every hidden folder and everything below one |
| `Visibility.EffectiveExactly` | src/app/library_store.rs:3634-3649 | a folder shows exactly the sounds located in or below it and those included, less those excluded |
| `Visibility.ListingExactly` | src/app/library_store.rs:3597-3762 | a listing has exactly the rows of its scope that match the search, each once, by position and then by public id |
| `Visibility.SearchNarrows` | src/app/library_store.rs:3597-3762 | in every scope, the listing under a search is the whole listing with the rows that do not match left out, in the same order |
| `Legacy.ReconcilePreservesMembership` | src/app/library_store.rs:2554-2660 | a present folder's effective sounds are what its legacy tabs ask for, however many tabs it has, if and only if its earlier overrides agree, and always when it had none |
| `Legacy.AbsentBecomesManual` | src/app/library_store.rs:2622-2660 | a legacy tab whose folder is absent becomes a manual tab with its id, name, position and memberships |
| `Conversion.ConvertedIdInjective` | src/app/library_store.rs:2490-2552 | two folders converted at one generation get different tab ids |
| `Conversion.ConvertKeeps` | src/app/library_store.rs:2464-2552 | converting disappearing customised folders keeps the invariant and adds only tabs and memberships |
| `Conversion.ConversionPreservesListing` | src/app/library_store.rs:2464-2552 | the tab made from a disappearing folder lists, under every search, the folder's sounds in the folder's order |
| `Finish.FinishRootScan` | src/app/library_store.rs:2400-2462 | a finish is one transaction: all effects, or an error and none; an unrecorded generation is reported and ignored; what the effects are is told by the rows below |
| `Finish.FinishKeeps` | src/app/library_store.rs:2400-2462 | a finish makes exactly this root's generation active, strictly raising it, ends the scan and keeps the invariant |
| `Finish.DoomedVanished` | src/app/library_store.rs:2420-2438 | the folder cascade of a finish takes exactly the folders absent from the new generation, because presence is closed under parents |
| `Finish.FinishRows` | src/app/library_store.rs:2418-2445 | which folders, presence rows, closure rows and locations a finish leaves, told from the state before it |
| `Finish.FinishLosesNothing` | src/app/library_store.rs:2418-2445 | with every staged location in a present folder, a finish deletes no live folder and no just-scanned location, and no row of another root |
| `Finish.FinishConvertsListing` | src/app/library_store.rs:2400-2552 | conversion preserves meaning: a customised folder on show that the new generation lacks becomes a manual tab listing, under every search, exactly what the folder listed just before the finish, in the same order |
| `FinishEffects.OneFolderConverts` | src/app/library_store.rs:2464-2552 | a library on which the conversion happens: the finish succeeds and the customised folder on show is gone |
| `Finish.FinishPreservesMembership` | src/app/library_store.rs:2554-2660 | after the first finish a present folder shows what its legacy tabs ask for, exactly the tab's members when it has one, if and only if earlier overrides agree |
| `Counterexamples.OverrideWins` | src/app/library_store.rs:2576-2621 | a finish after which a folder does not show the one sound that it and its legacy tab both have, because an earlier override excludes it |
| `Finish.FinishMakesManualTab` | src/app/library_store.rs:2622-2660 | after a finish an absent folder's legacy tab is a manual tab with its members at their positions |
| `Finish.FinishFailsExactly` | src/app/library_store.rs:2490-2660 | a verified finish fails if and only if, in the tables before it, a tab already has the id of an absent folder's legacy tab, or a tab or such a legacy tab has the id a disappearing customised folder's tab will get |
| `FinishedTabs.FinishRefusedExactly` | src/app/library_store.rs:2490-2660 | the same in the tables' own fields: the ids held by tabs, wanted by homeless legacy tabs, and spelt `converted-folder-` with a folder and a generation |
| `Counterexamples.FinishRefused` | src/app/library_store.rs:2622-2660 | a library as an upgrade leaves it, whose one legacy tab has lost its folder: the first finish is refused |
| `Finish.UpgradedFinishExactly` | src/app/legacy_migration.rs:905-911 | in a freshly upgraded library the first finish of a root succeeds if and only if every legacy tab of that root has its folder present |
| `FinishEffects.ReconcileOnce` | src/app/library_store.rs:2554-2660 | reconciling settles a root's legacy tabs for good: doing it again at any generation changes nothing |
| `FinishEffects.FinishCustom` | src/app/library_store.rs:2559-2575 | a surviving folder keeps its preference and overrides, unless it takes over legacy tabs; then it gets the name and position of one of them and stays as hidden as it was |
| `FinishEffects.FinishKeepsTab` | src/app/library_store.rs:2630-2660 | a manual tab that owns no legacy tab's id comes through a finish with exactly its members |
| `FinishEffects.FinishMergesTab` | src/app/library_store.rs:2645-2652 | a manual tab with the id of a legacy tab of the root takes in that tab's members at the legacy tab's positions, and keeps its other members where they stood |
| `UpgradedTabs.FinalizeExact` | src/app/legacy_migration.rs:905-911 | the end of an upgrade makes every legacy tab a manual tab too, unless one has its id |
| `UpgradedTabs.UpgradedTabStays` | src/app/legacy_migration.rs:905-911 | from the upgrade through the first finish an imported tab lists, under every search, the legacy tab's members in the legacy tab's order |
| `FinishedTabs.TabAfterFinish` | src/app/library_store.rs:2464-2660 | every manual tab after a finish was there before, unchanged, or stands for a homeless legacy tab of the root with its id, name and position, or for a customised folder that is gone |
| `FinishedTabs.FolderLeavesTab` | src/app/library_store.rs:2464-2552 | every customised folder that is gone leaves a tab, named like the folder, after all tabs there were, with exactly the folder's sounds |
| `FinishedTabs.ConvertedInOrder` | src/app/library_store.rs:2470-2505 | the tabs of one finish stand in the order of their folders' row ids, without a gap |
| `FinishedTabs.AbsentInOrder` | src/app/library_store.rs:2630-2644 | the tabs made for homeless legacy tabs get their row ids in the order of the legacy ones |
| `FinishedTabs.LegacyAfterFinish` | src/app/library_store.rs:2654-2657 | a finish uses up exactly the root's own legacy tabs with their members |
| `FinishEffects.ConvertedTabPlace` | src/app/library_store.rs:2470-2505 | a converted folder's tab goes by the folder's name and comes after every tab there was |
| `FinishEffects.FinishDemotes` | src/app/library_store.rs:2439-2455 | a finish takes a hotkey away exactly when its sound is neither live nor located anywhere afterwards; every other hotkey row is untouched |
| `Siblings.ReorderFolder` | src/app/library_store.rs:2917-2984 | the reorder transaction, row by row |
| `Siblings.ReorderExact` | src/app/library_store.rs:2917-2984 | the sibling listing becomes the remove-and-insert of the old one, positions equal ranks, and no other preference changes |
| `Siblings.ReorderChangesExactly` | src/app/library_store.rs:2917-2984 | a reorder changes something if and only if the folder is on show and not already at the index, or at the end for an index beyond it |
| `Siblings.SiblingsExactly` | src/app/library_store.rs:2938-2958 | the siblings are exactly the folders on show under the same parent, by place and then row id |
| `Siblings.MoveFolder` | src/app/library_store.rs:2986-3065 | the one-step move, its refusal of other directions and its silence at either end |
| `Siblings.MoveChangesExactly` | src/app/library_store.rs:2986-3065 | a move is refused exactly for a direction other than one up or down, and changes something if and only if the folder is on show and has a neighbour on that side |
| `Siblings.MoveIsSwapExactly` | src/app/library_store.rs:3057-3062 | a move is an adjacent swap if and only if the pair's outer neighbours fit around the two ranks it writes |
| `Siblings.MoveOnRanks` | src/app/library_store.rs:2986-3065 | where positions equal ranks, as after a reorder, a move is an adjacent swap and keeps positions equal to ranks |
| `Siblings.MoveAfterScan` | src/app/commands/library.rs:137-148 | straight after a scan, which gives every folder position 0, a move is a swap if and only if the pair is the last two siblings |
| `Siblings.MoveMisses` | src/app/library_store.rs:3057-3062 | of three freshly scanned siblings, moving the first down does not swap it with the second |
| `ScanRoots.FilterRoots` | src/app/audio/scanner.rs:39-85 | the greedy filter over the sorted configured folders |
| `ScanRoots.KeptExactly` | src/app/audio/scanner.rs:60-85 | a folder is kept if and only if it cannot be resolved or lies in no earlier owner |
| `ScanRoots.OneOwnerEach` | src/app/audio/scanner.rs:39-85 | the owners form an antichain that covers every resolvable folder, so no canonical path is walked from two of them |
| `ScanRoots.KeptOutermost` | src/app/audio/scanner.rs:39-85 | exactly the folders that cannot be resolved or lie in no other one are walked; of several names of one folder the least counts |
| `ScanOrder.EnsureRegisters` | src/app/library_store.rs:2225-2286 | registering a folder makes its whole path present and gives the last folder the row's name and position |
| `ScanOrder.EnsureIdle` | src/app/library_store.rs:2225-2286 | registering a folder again changes nothing |
| `ScanOrder.PutSoundsCommute` | src/app/library_store.rs:2288-2398 | inserting sounds commutes with growing the folder tree |
| `ScanBatch.SubmitScanBatch` | src/app/library_store.rs:1136-1169 | an oversized batch is refused before it reaches the database |
| `ScanBatch.StoreScanBatch.constructor` | src/app/commands/library.rs:57-66 | a new batch is valid and empty |
| `ScanBatch.StoreScanBatch.ResetFor` | src/app/commands/library.rs:68-75 | a reset batch is valid, empty and aimed at the new root |
| `ScanBatch.StoreScanBatch.Flush` | src/app/commands/library.rs:77-93 | after a flush nothing is pending and the database is the settled one; a refused flush leaves the database alone |
| `ScanBatch.StoreScanBatch.PushFile` | src/app/commands/library.rs:95-162 | the row counter stays exact and within the store's limit, and however a push splits the rows, the settled database is the earlier settled one with this file scanned into it |
| `ScanBatch.SettleStep` | src/app/commands/library.rs:95-162 | applying the pending rows with one more file equals applying them and then scanning that file alone |
| `ScanBatch.BatchFails` | src/app/library_store.rs:2288-2398 | the scanner's own batches are refused if and only if a row does not fit the columns or a sound to be inserted has the public id of another path, in the table or in an earlier row |
| `ScanFiles.EnsurePlain` | src/app/library_store.rs:2232-2262 | folders a scan creates are named after the last component of their path and have position 0 |
| `ScanFiles.ScanFileScans` | src/app/library_store.rs:2225-2366 | one file adds one location, in its own folder, present at the generation, presence rows for its own path only, and a sound row with the file's fields and its place in the walk, or takes the standalone flag off the known one |
| `ScanFiles.ScanEachExact` | src/app/library_store.rs:2225-2398 | a run of files keeps every scan in progress, changes nothing on show and stages exactly its files, each in its own present folder |
| `ScanFiles.ScanEachFailsExactly` | src/app/library_store.rs:2288-2366 | a run of files fails if and only if one has no begun root, does not fit its columns, or is new with the public id of another path, in the table or earlier in the run |
| `Refresh.BeginScans` | src/app/commands/library.rs:408-432 | one scan is begun for each distinct configured root, numbered in order; it fails if and only if some root's generations are used up, and then the scans already begun are cancelled and nothing on show has changed, but their roots are on the list in their new places |
| `Refresh.DeduplicatedExactly` | src/app/commands/library.rs:409-415 | each root once, in the order in which the roots first come |
| `Refresh.VisitFiles` | src/app/commands/library.rs:434-499 | the visitor gathers, probes and pushes in batches under the cancellation flag; it fails exactly when a cancellation is noticed or a file it gets to cannot be scanned, and the database always holds a prefix of the files as if scanned one by one |
| `ScanVisit.VisitExactly` | src/app/commands/library.rs:165-188 | every file is pushed if and only if the flag stays down throughout; the visit ends unnoticed without its last batch if and only if the flag goes up just as that batch is about to be probed; any other cancellation is noticed |
| `Refresh.BuildBatch` | src/app/commands/library.rs:165-188 | a batch is probed up to the first file that the flag overtakes |
| `Refresh.ProcessPending` | src/app/commands/library.rs:457-481 | probed files are pushed in order until the flag is up or a push fails |
| `Counterexamples.CancelledRefreshErases` | src/app/commands/library.rs:477-520 | a walk of one file, cancelled as that file is being probed, counts as complete with nothing pushed, and a finish then leaves the root no location |
| `Refresh.CancelAll` | src/app/commands/library.rs:500-507 | abandoning a refresh changes nothing on show, reveals nothing, and leaves none of its scans in progress; the sounds and the list of roots stay as they were at that moment |
| `Refresh.FinishAll` | src/app/commands/library.rs:509-520 | the finish loop stops at the first scan that fails to finish or has been superseded; the ones before it are exact, the others untouched |
| `Refresh.RefreshSounds` | src/app/commands/library.rs:379-520 | refresh is exact: a completed one leaves every root with exactly the files pushed, each in its own folder, and nothing older; an abandoned one, exactly when it is cancelled in time, a root's generations are used up or a file it gets to is refused, all three read off the input, leaves everything on show as it was but for the list of roots and the standalone sounds it scanned, both told exactly |
| `Refresh.OneBatchIsAll` | src/app/commands/library.rs:77-162 | batch boundaries do not matter: one unbounded batch leaves the same database as the bounded ones, or fails when they do |
| `Hotkeys.SetHotkeyBinding` | src/app/library_store.rs:4311-4425 | the store's checks, then delete and insert in one transaction |
| `Hotkeys.DeleteHotkeyBinding` | src/app/library_store.rs:4427-4432 | deletes one row and tells whether there was one |
| `Hotkeys.CommitHotkeyBinding` | src/app/commands/hotkeys.rs:44-68 | sets the chord or, without one, deletes the row, then projects; a projection that fails is reported after the change has been committed |
| `Hotkeys.ExecuteCommand` | src/app/commands/hotkeys.rs:70-112 | a command that nothing interrupts: target, chord, conflict check, commit; a refusal changes nothing, and a failing projection is told apart from it; what the change is, the rows of HotkeyCommands tell |
| `HotkeyCommands.CommandSucceedsExactly` | src/app/commands/hotkeys.rs:44-169 | a command succeeds if and only if its control or tab exists, its chord parses, and no row but its own has the chord in use; so a row never stands in its own way |
| `HotkeyCommands.CommandClears` | src/app/commands/hotkeys.rs:60-112 | a command without a chord takes exactly its owner's row in its scope out of the table |
| `HotkeyCommands.CommandSets` | src/app/commands/hotkeys.rs:60-112 | a command with a chord leaves its owner one row in its scope, with the command's scope, the canonical chord and the id of the row there was; no other owner's row changes |
| `HotkeyCommands.SetBindingExactly` | src/app/library_store.rs:4311-4425 | which records the store takes, which row they become and which rows they replace |
| `Hotkeys.ExecuteWrites` | src/app/commands/hotkeys.rs:44-112 | a successful command writes one row for its owner and scope and removes no row of another owner |
| `Hotkeys.ExecuteSucceedsExactly` | src/app/commands/hotkeys.rs:142-169 | a command is refused if and only if its target is unknown, its chord does not parse or its chord conflicts |
| `Hotkeys.ExecuteKeeps` | src/app/commands/hotkeys.rs:15-42 | a command never meets a uniqueness failure, keeps the table well formed and control and tab chords exclusive, and with sharing off keeps chords free of overlap |
| `Hotkeys.RunKeeps` | src/app/commands/hotkeys.rs:15-169 | the same over every run of commands, with liveness fixed |
| `Hotkeys.InterleavedShare` | src/app/commands/hotkeys.rs:172-186 | two commands that check before either commits share a chord that each alone would have been refused |
| `HotkeyRuns.CommitExclusiveExactly` | src/app/commands/hotkeys.rs:44-68 | a commit keeps control and tab chords exclusive if and only if the conflict check passes at the time of the commit |
| `HotkeyRuns.CommitNoOverlapExactly` | src/app/commands/hotkeys.rs:44-68 | a commit leaves chords free of overlap if and only if no row that stays answers the chord in a scope that meets the new one |
| `HotkeyRuns.InterleavedExactly` | src/app/commands/hotkeys.rs:44-169 | over every run of separate checks, commits and changes of the library, chords are exclusive throughout if and only if every commit would still pass its check and no change revives a sound with a control's or tab's chord |
| `HotkeyRuns.InterleavedDisjointExactly` | src/app/commands/hotkeys.rs:44-169 | over every such run chords are free of overlap throughout if and only if no commit and no revived sound overlaps a row that answers its chord |
| `HotkeyRuns.ReviveExactly` | src/app/library_store.rs:4261-4309 | a change that gives no row a chord shares a control or tab chord, or makes chords overlap, exactly through a sound that becomes live |
| `HotkeyRuns.RevivedShares` | src/app/library_store.rs:4261-4309 | a control takes the chord of a sound that is not live; put on a manual tab, the sound is live and shares it |
| `HotkeyRuns.FinishLoses` | src/app/library_store.rs:2439-2455 | a finish gives no row a chord |
| `HotkeyRuns.CheckedIsClear` | src/app/commands/hotkeys.rs:142-169 | a check that passes, sharing allowed or not, means that a commit at that moment is clear |
| `HotkeyRuns.CheckPendsExactly` | src/app/commands/hotkeys.rs:70-169 | a check changes no row and leaves something to commit under the conditions of a successful command, and only then |
| `HotkeyRuns.CheckThenCommit` | src/app/commands/hotkeys.rs:44-112 | a check and its commit with nothing between them are the uninterrupted command |
| `HotkeyRuns.CommitOnce` | src/app/commands/hotkeys.rs:44-68 | whatever comes of a commit, nothing of its command is left to commit and no other command is touched |
| `Hotkeys.FinalizeStarts` | src/app/legacy_migration.rs:912-923 | the upgrade activates exactly the chords no other legacy row has, so the table starts without sharing |
| `Hotkeys.PressDispatch` | src/app/commands/hotkeys.rs:296-303 | a binding id names a tab exactly when its row is that tab's hotkey |
| `HotkeyWalk.ProjectBindings` | src/app/hotkeys/projection.rs:83-109 | the walk over pages ends with every chord's representative in id order, whatever the page boundaries |
| `HotkeyWalk.OneRowPerChord` | src/app/library_store.rs:4109-4155 | a chord with an eligible binding has exactly one row, the first by control, then tab, then sound, then id, spelt out; other chords have none |
| `HotkeyGroup.UnsharedPress` | src/app/hotkeys/group.rs:45-99 | without overlap and with tab hotkeys on, a press plays the only binding in scope or finds none; it is never ambiguous or refused for sharing |
| `HotkeyGroup.UnsharedPressAnywhere` | src/app/hotkeys/group.rs:45-99 | without overlap and with tab hotkeys off, a press plays if and only if one binding has the chord, and is ambiguous otherwise |
| `HotkeyGroup.SelectExactly` | src/app/hotkeys/group.rs:45-99 | every answer to a press and exactly when it is given, and which candidate Random, Same and Next play |
| `HotkeyGroup.GroupPlayable` | src/app/library_store.rs:1808-1810 | candidates of one scope are distinct sounds, from the unique index on sound and scope |
| `HotkeyGroup.FairRotation` | src/app/hotkeys/group.rs:88-98 | from any cursor, n presses in Next mode play each of n candidates exactly once; in Same mode every press repeats the first |
| `RequestQueue.SharedQueue.constructor` | src/app/library_store.rs:532-548 | a new queue is open and empty |
| `RequestQueue.SharedQueue.PushRequest` | src/app/library_store.rs:551-633 | a push: closed, stale, coalesced, full or queued, and what the sender is told, lane by lane and with the capacities 16, 64 and 2 |
| `RequestQueue.PushExactly` | src/app/library_store.rs:551-633 | an open queue takes a request that is not void as the last of its lane if and only if fewer than 16, 64 or 2 wait there once its owner's older searches are gone; lanes are told by the kind of request |
| `RequestQueue.SharedQueue.TryPop` | src/app/library_store.rs:654-661 | control before visible before maintenance |
| `RequestQueue.SharedQueue.PopRequest` | src/app/library_store.rs:635-652 | a pop that returns nothing means closed and empty |
| `RequestQueue.SharedQueue.Close` | src/app/library_store.rs:663-668 | closing keeps what is waiting |
| `RequestQueue.RunSafe` | src/app/library_store.rs:550-669 | over all runs: lanes within capacity and first in first out, waiting searches are their owner's newest, and every request is served, waiting, rejected, or a search dropped for a newer one |
| `RequestQueue.RejectedExactly` | src/app/library_store.rs:551-633 | over all runs, a request is rejected if and only if it finds the queue closed, or its lane full, at the moment it is sent |
| `RequestQueue.RunGenerationsRise` | src/app/library_store.rs:559-587 | between any two points of a run no owner's recorded generation goes back |
| `RequestQueue.ClosedDrains` | src/app/library_store.rs:635-669 | a closed queue refuses pushes and serves all that waits, in lane order, before it answers with nothing |
| `UpgradeRun.EnsureBackup` | src/app/legacy_migration.rs:731-796 | copy, sync, compare, rename, sync; an existing backup must be the same file |
| `UpgradeRun.MigrateLegacyDatabase` | src/app/legacy_migration.rs:977-1053 | the library is built under a scratch name and published complete, synced and checked against the source; an import that refuses leaves no library |
| `UpgradeRun.SaveConfig` | src/app/config/persistence.rs:169-236 | write a temporary file, sync it, rename it, sync the directory; then the config is of version 8 and holds the settings given |
| `UpgradeRun.MigrateLegacyConfig` | src/app/legacy_migration.rs:1248-1263 | the confirmed upgrade, run without interruption, ends where its steps end |
| `UpgradeRun.CompleteLegacySettingsCutover` | src/app/legacy_migration.rs:1169-1192 | the resumed upgrade, run without interruption, ends where its steps end: the library is identified, and marked if need be, before anything is compared |
| `UpgradeRun.DatabaseIdentity` | src/app/legacy_migration.rs:1055-1135 | only a ready library has an identity; one without the application id gets it, and nothing else changes |
| `UpgradeRun.InitializeEmptyLibrary` | src/app/legacy_migration.rs:1341-1365 | an empty library is created, marked ready and synced under its own name, unless one is there |
| `UpgradeRun.PrepareStartupStorage` | src/app/bootstrap.rs:652-711 | what a start decides; it creates what a first start needs and resumes a cutover on the spot; it refuses if and only if config and library do not fit together, and then changes no file but for the mark of a library it has identified |
| `UpgradeSafety.CrashSafe` | src/app/legacy_migration.rs:731-796 | if every directory a crash could leave is safe, the one it does leave is |
| `Disk.CrashLoses` | src/app/legacy_migration.rs:731-796 | what makes the syncs matter: a crash may leave a file that was not synced holding anything, or take its name away while the directory is not synced |
| `UpgradeSafety.GoKeeps` | src/app/legacy_migration.rs:731-1053 | every step keeps every crash outcome safe, and none is refused unless the import refuses the original's settings or rows |
| `UpgradeSafety.StepGuards` | src/app/legacy_migration.rs:731-1192 | on any disk, a step goes on if and only if the file it is about to publish or overwrite is the one it has checked |
| `UpgradeSafety.SyncsLast` | src/app/legacy_migration.rs:731-1053 | after each sync of a directory a crash leaves every name as it is, and after each sync of a file its contents |
| `UpgradeSafety.RefusalCleans` | src/app/legacy_migration.rs:731-1053 | a refusal removes the scratch file of its step and nothing else |
| `UpgradeSafety.ResumeAgrees` | src/app/legacy_migration.rs:342-386 | resume is confluent: settings read back after a crash equal those the import hands over |
| `UpgradeSafety.UpgradeIsSafe` | src/app/legacy_migration.rs:731-1263 | over all runs with errors, kills, power losses and restarts: the original bytes are in the config or its backup, a library is complete and ready if it is there at all, an upgraded config means a published library and is of version 8 with the original's migrated settings, without its control hotkeys, and the next start does not fail |
| `UpgradeSafety.UpgradeCompletes` | src/app/bootstrap.rs:652-711 | however often it was interrupted, a start that is confirmed and left alone reaches the original's settings, migrated and without control hotkeys, at version 8, the ready library and the backup if the import takes the document; otherwise it is refused with the original in place and no library |
| `UpgradeSafety.FinishIsSteps` | src/app/legacy_migration.rs:731-1263 | left alone, an upgrade comes to its end by the steps of a run, after a bounded number of them |
| `UpgradeSafety.RetryIsRestart` | src/app/bootstrap.rs:652-711 | starting again after a refusal comes to the same as ending the program first |
| `UpgradeSafety.MisalignedUpgrade` | src/app/legacy_migration.rs:201-206 | a legacy document of 513 sounds, all but the first with a hotkey, never gets past a refusal |
| `UpgradeSafety.StartRefusedExactly` | src/app/bootstrap.rs:652-711 | on any disk, a start is refused if and only if its two files do not fit together (a current config must load); then the disk is unchanged if and only if the library was marked or not ready or the config is current or unreadable, and otherwise only the mark is new |
| `UpgradeSafety.StartWrites` | src/app/bootstrap.rs:652-711 | what an accepted start leaves on any disk: a library is marked and otherwise as it was, a current config is untouched, a legacy one has become its own settings, a missing one the defaults |
| `UpgradeSafety.StampOnly` | src/app/legacy_migration.rs:1122-1129 | marking a library changes its mark and no other file |
| `UpgradeSafety.RefusedAndMarked` | src/app/bootstrap.rs:657-664 | a migrated library without its mark and no config: the start is refused and the library file has changed |
| `FirstStart.FirstStartExactly` | src/app/bootstrap.rs:657-676 | over all runs with errors, kills, power losses and restarts from an empty directory, or one whose library is missing: a config there was is untouched, a new one holds the default settings at version 8 and comes only after a ready library of the program's own, and a start left alone completes if and only if no unready or foreign library is in the way |
| `FirstStart.StuckForever` | src/app/legacy_migration.rs:1341-1365 | while an unready library is in the way, no start, confirmation, error or kill changes a file |
| `FirstStart.BackupBlocks` | src/app/bootstrap.rs:759-780 | beside a current config and a backup a missing library is never created anew: no start, confirmation, error or kill changes a file |
| `FirstStart.KilledFirstStart` | src/app/legacy_migration.rs:1341-1365 | a first start killed right after creating the library leaves one that every later start refuses |
| `UpgradeSafety.RefusalsChangeNothing` | src/app/legacy_migration.rs:977-1010 | a migration over a library, or beside a backup that differs from the config, is refused and changes nothing |
| `ImportOrder.ImportSounds` | src/app/legacy_migration.rs:187-222 | a document's sounds and hotkeys are imported if and only if ids and paths are distinct, volumes and durations fit their columns, and every sound that completes 512 hotkeys also completes 512 sounds |
| `ImportOrder.ImportState.PushSound` | src/app/legacy_migration.rs:187-209 | a push buffers a sound and its hotkey and flushes each full buffer, sounds first; it fails exactly when a flush does |
| `ImportOrder.ImportState.FlushHotkeys` | src/app/library_store.rs:3343-3369 | a batch of hotkeys is stored if and only if every owner is a stored sound and no row is there twice |
| `ImportOrder.MisalignedImport` | src/app/legacy_migration.rs:201-206 | 513 sounds, all but the first with a hotkey, cannot be imported, because a full hotkey batch names a buffered sound |

## Left out

- SQLite itself: locking, pragmas, indexes, planning and full-text matching. A search is any predicate on the search name, a transaction any atomic change.
- Schema version steps of the database and the JSON version ladder; the ladder is an arbitrary function that may refuse.
- The parsing of a streamed legacy document, its folder and tab rows, SHA-256 (a document stands for its bytes and their checksum) and file permissions. Random ids are taken to be new.
- Integer widths other than the 64-bit limits of generations, pages and position lookups; sound counts and folder positions are unbounded.
- `insert_folders` and the other bulk loaders, which accept parents that disagree with paths; `restore_legacy_backup`.
- Candidate files of the upgrade have one name each; an earlier attempt's file is removed first.
- Threads and condition variables: a queue method is one step, a pop that blocks has not happened yet, and a library call is one step.
- Refresh.RefreshSounds: roots have non-empty paths, no path comes twice under one root, and every location is in a present folder at the start, which every run of the scanner keeps (Labels.RunTidy); nothing else touches the database during one refresh.
- Refresh.VisitFiles: the walk is a given sequence of entries, and the probes of a batch come one after the other where the code runs two at a time; what a probe finds is part of the file.
- Loudness analysis and gain: their columns are one value that is copied.
- UpgradeSafety.UpgradeCompletes: completion is relative to the import accepting the document; ImportOrder.Accepts decides its sounds and their hotkeys, and folders, tabs and control hotkeys stay abstract.
- UpgradeRun.MigrateLegacyConfig: does not compare the library's random id with the one the import reported, so the mismatch error is missing.
- ScanRoots.OneOwnerEach: canonical paths are given, and sorting is assumed where the antichain is proved.
- Hotkeys.RunKeeps: liveness is fixed during a run of whole commands; HotkeyRuns.InterleavedExactly has it change.
- Hotkeys.ExecuteCommand: nothing runs between its check and its commit; HotkeyRuns.InterleavedExactly covers the other case.
- User edits of tabs, memberships, preferences and sounds beyond folder order, the GTK interface, tray, MPRIS, sockets, engine and PipeWire.
