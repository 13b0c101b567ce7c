/**
 The names and places of folders, and the list of roots, while scans are in progress. The scanner's
 own batches leave folder labels alone; a batch in general rewrites them at once, as a begin does the
 list of roots, and here is exactly how, over any run.
 */
module Labels {
  import opened Wrappers
  import opened Ordering
  import opened Tables
  import opened FolderScan
  import opened RootScan
  import opened Cascade
  import opened Staging
  import opened Standalone
  import opened ScanOrder
  import opened ScanBatch
  import opened ScanFiles
  import opened Finish
  import opened ScanRuns
  import Refresh
  import Siblings

  /** With names, positions and folders on show unchanged, every sibling listing is unchanged. */
  lemma SameSiblingOrder(db: Db, next: Db, target: nat)
    requires SameView(db, next) && SameLabels(db.folders, next.folders) && OnShow(db, target)
    ensures Siblings.SiblingOrder(next, target) == Siblings.SiblingOrder(db, target)
  {
    hide LiveByRows, Effective, Sort;
    forall f ensures f in Siblings.Siblings(next, target) <==> f in Siblings.Siblings(db, target) {
      assert OnShow(next, f) <==> OnShow(db, f);
    }
    assert Siblings.Siblings(next, target) == Siblings.Siblings(db, target);
  }

  // ---- the scanner's own batches -----------------------------------------------------------------------

  /** A batch as the scanner writes it: plain folder rows, and every sound in one of those folders. */
  ghost predicate Proper(call: Call) {
    call.Stage? && call.step.Batch? ==>
      && Plain(call.step.path, call.step.folders)
      && Anchored(call.step.path, call.step.folders, call.step.sounds)
  }

  lemma {:induction false} PutFoldersPlain(db: Db, root: nat, path: string, generation: nat, rows: seq<FolderRow>,
                                           n: nat)
    requires Plain(path, rows) && n <= |rows| && PutFolders(db, root, path, generation, rows, n).Success?
    ensures PlainTree(db.folders) ==> PlainTree(PutFolders(db, root, path, generation, rows, n).value.folders)
  {
    hide PlainTree, EnsurePrefix;
    if n > 0 && PlainTree(db.folders) {
      PutFoldersPlain(db, root, path, generation, rows, n - 1);
      EnsurePlain(PutFolders(db, root, path, generation, rows, n - 1).value, root, path, generation,
                  rows[n - 1].path, |rows[n - 1].path|);
    }
  }

  lemma {:induction false} PutFoldersPresence(db: Db, root: nat, path: string, generation: nat, rows: seq<FolderRow>,
                                              n: nat)
    requires Ok(db) && root in db.roots && db.roots[root].active <= generation
    requires n <= |rows| && PutFolders(db, root, path, generation, rows, n).Success?
    ensures db.presence <= PutFolders(db, root, path, generation, rows, n).value.presence
  {
    hide Ok, EnsureFolder, Ensured, Stages;
    if n > 0 {
      var prior := PutFolders(db, root, path, generation, rows, n - 1).value;
      PutFoldersPresence(db, root, path, generation, rows, n - 1);
      PutFoldersStages(db, root, path, generation, rows, n - 1);
      StagesRoots(db, prior, root, generation);
      EnsureFolderKeeps(prior, root, generation, rows[n - 1]);
    }
  }

  /** Locations put in folders present at the generation keep every location in a present folder. */
  lemma {:induction false} PutSoundsPresent(db: Db, root: nat, path: string, generation: nat, rows: seq<SoundRow>,
                                            n: nat)
    requires StagedPresent(db) && n <= |rows| && PutSounds(db, root, path, generation, rows, n).Success?
    requires forall i :: 0 <= i < n ==>
      |rows[i].locations| == 1 && LocationPresent(db, root, generation, rows[i].locations[0])
    ensures var next := PutSounds(db, root, path, generation, rows, n).value;
      StagedPresent(next) && next.folders == db.folders && next.presence == db.presence
  {
    hide StagedPresent, InsertSound, LocationPresent;
    if n > 0 {
      var prior := PutSounds(db, root, path, generation, rows, n - 1).value;
      PutSoundsPresent(db, root, path, generation, rows, n - 1);
      assert LocationPresent(prior, root, generation, rows[n - 1].locations[0]) by {
        SamePresent(db, prior, root, generation, rows[n - 1].locations[0]);
      }
      InsertPresent(prior, root, path, generation, rows[n - 1]);
    }
  }

  ghost predicate LocationPresent(db: Db, root: nat, generation: nat, row: LocationRow) {
    row.folder.Some? && FolderAt(db.folders, root, row.folder.value).Some? ==>
      Presence(FolderAt(db.folders, root, row.folder.value).value, generation) in db.presence
  }

  lemma SamePresent(db: Db, next: Db, root: nat, generation: nat, row: LocationRow)
    requires next.folders == db.folders && next.presence == db.presence && LocationPresent(db, root, generation, row)
    ensures LocationPresent(next, root, generation, row)
  {}

  lemma InsertPresent(db: Db, root: nat, path: string, generation: nat, row: SoundRow)
    requires StagedPresent(db) && |row.locations| == 1 && LocationPresent(db, root, generation, row.locations[0])
    requires InsertSound(db, root, path, generation, row).Success?
    ensures var next := InsertSound(db, root, path, generation, row).value;
      StagedPresent(next) && next.folders == db.folders && next.presence == db.presence
  {
    hide FolderAt, PutSound;
    var (sounds, id) := PutSound(db.sounds, row).value;
    OneLocation(db.(sounds := sounds), id, root, path, generation, row);
  }

  /** A proper batch keeps locations in present folders and folders named after their paths. */
  lemma BatchKeepsPresent(db: Db, path: string, generation: nat, folders: seq<FolderRow>, sounds: seq<SoundRow>)
    requires Ok(db) && Plain(path, folders) && Anchored(path, folders, sounds)
    requires ApplyBatch(db, path, generation, folders, sounds).Success?
    ensures var next := ApplyBatch(db, path, generation, folders, sounds).value;
      && (StagedPresent(db) ==> StagedPresent(next))
      && (PlainTree(db.folders) ==> PlainTree(next.folders))
  {
    hide TreeState, SoundsOk, LocationsOk, TabsOk, LegacyOk, CustomOk, OwnersOk, RootAt, PutFolders, PutSounds,
         Registered, Stages, StagedPresent, PlainTree, Plain, LocationPresent;
    RootOf(db, path, generation);
    var root := RootAt(db.roots, path).value;
    PlainFoldersPut(db, root, path, generation, folders, |folders|);
    var tree := PutFolders(db, root, path, generation, folders, |folders|).value;
    PutFoldersStages(db, root, path, generation, folders, |folders|);
    PutFoldersPresence(db, root, path, generation, folders, |folders|);
    PutFoldersPlain(db, root, path, generation, folders, |folders|);
    BatchRegisters(db, root, path, generation, folders, |folders|);
    SoundsFolders(tree, root, path, generation, sounds, |sounds|);
    if StagedPresent(db) {
      assert StagedPresent(tree) by { MorePresent(db, tree); }
      forall i | 0 <= i < |sounds| ensures LocationPresent(tree, root, generation, sounds[i].locations[0]) {
        AnchoredPresent(tree, path, root, generation, folders, sounds, i);
      }
      PutSoundsPresent(tree, root, path, generation, sounds, |sounds|);
    }
  }

  lemma MorePresent(db: Db, next: Db)
    requires StagedPresent(db) && next.locations == db.locations && db.presence <= next.presence
    ensures StagedPresent(next)
  {}

  lemma AnchoredPresent(db: Db, path: string, root: nat, generation: nat, folders: seq<FolderRow>,
                        sounds: seq<SoundRow>, i: nat)
    requires Anchored(path, folders, sounds) && i < |sounds|
    requires forall j :: 0 <= j < |folders| ==> Registered(db, root, generation, folders[j])
    ensures LocationPresent(db, root, generation, sounds[i].locations[0])
  {
    hide Registered, FolderAt;
    var row := sounds[i].locations[0];
    if row.folder.Some? {
      var j :| 0 <= j < |folders| && folders[j] == RowOf(path, row.folder.value);
      RegisteredPresent(db, root, generation, folders[j]);
    }
  }

  lemma RegisteredPresent(db: Db, root: nat, generation: nat, row: FolderRow)
    requires Registered(db, root, generation, row) && row.path != []
    ensures FolderAt(db.folders, root, row.path).Some?
    ensures Presence(FolderAt(db.folders, root, row.path).value, generation) in db.presence
  {
    hide FolderAt;
    assert row.path[..|row.path|] == row.path;
  }

  lemma {:induction false} SoundsFolders(db: Db, root: nat, path: string, generation: nat, rows: seq<SoundRow>, n: nat)
    requires n <= |rows| && PutSounds(db, root, path, generation, rows, n).Success?
    ensures PutSounds(db, root, path, generation, rows, n).value.folders == db.folders
  {
    hide InsertSound;
    if n > 0 {
      SoundsFolders(db, root, path, generation, rows, n - 1);
      InsertFolders(PutSounds(db, root, path, generation, rows, n - 1).value, root, path, generation, rows[n - 1]);
    }
  }

  lemma InsertFolders(db: Db, root: nat, path: string, generation: nat, row: SoundRow)
    requires InsertSound(db, root, path, generation, row).Success?
    ensures InsertSound(db, root, path, generation, row).value.folders == db.folders
  {
    hide PutSound, PutLocations;
    var (sounds, id) := PutSound(db.sounds, row).value;
    LocationsFolders(db.(sounds := sounds), id, root, path, generation, row.locations, |row.locations|);
  }

  lemma {:induction false} LocationsFolders(db: Db, sound: nat, root: nat, path: string, generation: nat,
                                            rows: seq<LocationRow>, n: nat)
    requires n <= |rows| && PutLocations(db, sound, root, path, generation, rows, n).Success?
    ensures PutLocations(db, sound, root, path, generation, rows, n).value.folders == db.folders
  {
    hide FolderAt;
    if n > 0 { LocationsFolders(db, sound, root, path, generation, rows, n - 1); }
  }

  // ---- runs of the scan interface ------------------------------------------------------------------------

  /** Every location in a present folder, every folder named after its path. */
  ghost predicate Tidy(db: Db) {
    StagedPresent(db) && PlainTree(db.folders)
  }

  lemma FewerFolders(folders: map<nat, Folder>, next: map<nat, Folder>)
    requires PlainTree(folders) && forall f :: f in next ==> f in folders && next[f] == folders[f]
    ensures PlainTree(next)
  {}

  lemma FinishTidy(db: Db, path: string, generation: nat)
    requires Ok(db) && Tidy(db) && Verified(db, path, generation) && FinishScan(db, path, generation).Success?
    ensures Tidy(FinishScan(db, path, generation).value)
  {
    hide Ok, FinishScan, StagedPresent, PlainTree, RootAt;
    FinishRows(db, path, generation);
    FinishLosesNothing(db, path, generation);
    FewerFolders(db.folders, FinishScan(db, path, generation).value.folders);
  }

  /** Removing a root takes the presence rows of its own folders only, and their locations with them. */
  lemma RemoveTidy(db: Db, path: string)
    requires Ok(db) && Tidy(db)
    ensures Tidy(RemoveRoot(db, path))
  {
    hide TreeState, RootsOk, SoundsOk, TabsOk, LegacyOk, CustomOk, OwnersOk, RemoveRoot, PlainTree, PrefsSurvive,
         OverridesSurvive, ClosureSurvives, MembersSurvive, BindingsSurvive;
    RemoveRootExact(db, path);
    RemoveRootCascades(db, path);
    FewerFolders(db.folders, RemoveRoot(db, path).folders);
  }

  lemma BeginTidy(db: Db, path: string, position: int)
    requires Tidy(db)
    ensures Tidy(BeginScan(db, path, position).0)
  {
    hide PlainTree;
  }

  lemma CancelFolders(db: Db, path: string, generation: nat)
    ensures CancelScan(db, path, generation).folders == db.folders
  {}

  lemma AfterTidy(db: Db, call: Call)
    requires Ok(db) && Tidy(db) && Proper(call)
    ensures Ok(After(db, call)) && Tidy(After(db, call))
  {
    hide Ok, StagedPresent, PlainTree, Plain, Anchored, ApplyBatch, CancelScan, BeginScan, FinishScan, RemoveRoot;
    AfterKeeps(db, call);
    match call {
      case Stage(Begin(p, position)) => BeginTidy(db, p, position);
      case Stage(Batch(p, g, folders, sounds)) =>
        if ApplyBatch(db, p, g, folders, sounds).Success? { BatchKeepsPresent(db, p, g, folders, sounds); }
      case Stage(Cancel(p, g)) =>
        if Verified(db, p, g) {
          Refresh.CancelPresent(db, p, g);
          CancelFolders(db, p, g);
        }
      case End(p, g) =>
        if Verified(db, p, g) && FinishScan(db, p, g).Success? { FinishTidy(db, p, g); }
      case Remove(p) => RemoveTidy(db, p);
    }
  }

  /**
   Whatever scan calls are made, removals at any time included, as long as the batches are the
   scanner's own every location lies in a folder present at its generation and every folder is
   named after its path. So a finish never loses a scanned row.
   */
  lemma {:induction false} RunTidy(db: Db, calls: seq<Call>)
    requires Ok(db) && Tidy(db) && forall i :: 0 <= i < |calls| ==> Proper(calls[i])
    ensures Ok(AfterAll(db, calls)) && Tidy(AfterAll(db, calls))
    decreases |calls|
  {
    hide Ok, Tidy, After, Proper;
    if calls != [] {
      AfterTidy(db, calls[0]);
      RunTidy(After(db, calls[0]), calls[1..]);
    }
  }

  /** Staging steps as scan calls. */
  function Staged(steps: seq<Staging>): seq<Call>
    decreases |steps|
  {
    if steps == [] then [] else [Stage(steps[0])] + Staged(steps[1..])
  }

  lemma {:induction false} StagedRuns(db: Db, steps: seq<Staging>)
    ensures AfterAll(db, Staged(steps)) == Run(db, steps)
    ensures |Staged(steps)| == |steps| && forall i :: 0 <= i < |steps| ==> Staged(steps)[i] == Stage(steps[i])
    decreases |steps|
  {
    hide Perform;
    if steps != [] {
      StagedRuns(Perform(db, steps[0]), steps[1..]);
      assert Staged(steps)[0] == Stage(steps[0]) && Staged(steps)[1..] == Staged(steps[1..]);
    }
  }

  /**
   A scan in progress is invisible, folder names, positions and sibling order included, when the
   batches are the scanner's own and the tree was scanned by them. It reveals no sound, and hides
   only sounds it has named that nothing but their standalone flag kept live.
   */
  lemma ScannerInvisible(db: Db, steps: seq<Staging>)
    requires Ok(db) && Tidy(db) && forall i :: 0 <= i < |steps| ==> Proper(Stage(steps[i]))
    ensures var next := Run(db, steps);
      && Ok(next) && SameView(db, next) && SameLabels(db.folders, next.folders)
      && (forall f :: OnShow(db, f) ==> Siblings.SiblingOrder(next, f) == Siblings.SiblingOrder(db, f))
      && (forall s :: Live(next, s) <==> Live(db, s) && Kept(db, steps, s))
  {
    hide Ok, Kept, Live, Run, SameLabels, StagedPresent, PlainTree, Proper, AfterAll, LiveByRows, Effective, OnShow;
    StagingInvisible(db, steps);
    StagedRuns(db, steps);
    RunTidy(db, Staged(steps));
    PlainLabels(db.folders, Run(db, steps).folders);
    forall f | OnShow(db, f) ensures Siblings.SiblingOrder(Run(db, steps), f) == Siblings.SiblingOrder(db, f) {
      SameSiblingOrder(db, Run(db, steps), f);
    }
    forall s ensures Live(Run(db, steps), s) <==> Live(db, s) && Kept(db, steps, s) { RunLiveExactly(db, steps, s); }
  }

  // ---- batches in general ----------------------------------------------------------------------------------

  /** The last of the first `n` rows for this path. */
  function LastRow(rows: seq<FolderRow>, n: nat, path: Path): Option<FolderRow>
    requires n <= |rows|
  {
    if n == 0 then None else if rows[n - 1].path == path then Some(rows[n - 1]) else LastRow(rows, n - 1, path)
  }

  /** The folder's name and position are those of the batch's last row for its path, or as they were. */
  ghost predicate Relabelled(folders: map<nat, Folder>, next: map<nat, Folder>, root: nat, rows: seq<FolderRow>,
                             n: nat, f: nat)
    requires n <= |rows| && f in folders && f in next
  {
    match LastRow(rows, n, folders[f].path)
    case Some(row) =>
      if folders[f].root == root then next[f].name == row.name && next[f].position == row.position
      else next[f].name == folders[f].name && next[f].position == folders[f].position
    case None => next[f].name == folders[f].name && next[f].position == folders[f].position
  }

  lemma {:induction false} OtherRootLabels(db: Db, root: nat, generation: nat, row: FolderRow, n: nat, f: nat)
    requires n <= |row.path| && f in db.folders && db.folders[f].root != root
    ensures var next := EnsurePrefix(db, root, generation, row, n).folders; f in next && next[f] == db.folders[f]
  {
    hide FolderAt, LinkUp;
    if n > 0 { OtherRootLabels(db, root, generation, row, n - 1, f); }
  }

  lemma FolderAtIs(folders: map<nat, Folder>, f: nat)
    requires TreeOk(folders) && f in folders
    ensures FolderAt(folders, folders[f].root, folders[f].path) == Some(f) && folders[f].path != []
  {
    assert ParentOk(folders, f);
    assert f in FolderIds(folders, folders[f].root, folders[f].path);
  }

  lemma EnsureLabels(db: Db, root: nat, generation: nat, row: FolderRow, f: nat)
    requires Ok(db) && root in db.roots && db.roots[root].active <= generation && f in db.folders
    ensures var next := EnsureFolder(db, root, generation, row).folders;
      && f in next && next[f].root == db.folders[f].root && next[f].path == db.folders[f].path
      && (if db.folders[f].root == root && db.folders[f].path == row.path
          then next[f].name == row.name && next[f].position == row.position
          else next[f].name == db.folders[f].name && next[f].position == db.folders[f].position)
  {
    hide FolderAt, EnsurePrefix, Ensured, RowsOk, ClosureExact, PresenceOk, PresenceNew, FolderRootsOk, TreeOk;
    var next := EnsureFolder(db, root, generation, row);
    EnsureFolderKeeps(db, root, generation, row);
    if db.folders[f].root == root {
      FolderAtIs(next.folders, f);
      EnsurePrefixLast(db, root, generation, row, |row.path|, db.folders[f].path);
    } else {
      OtherRootLabels(db, root, generation, row, |row.path|, f);
    }
  }

  lemma {:induction false} PutFoldersLabels(db: Db, root: nat, path: string, generation: nat, rows: seq<FolderRow>,
                                            n: nat, f: nat)
    requires Ok(db) && root in db.roots && db.roots[root].active <= generation && f in db.folders
    requires n <= |rows| && PutFolders(db, root, path, generation, rows, n).Success?
    ensures var next := PutFolders(db, root, path, generation, rows, n).value.folders;
      && f in next && next[f].root == db.folders[f].root && next[f].path == db.folders[f].path
      && Relabelled(db.folders, next, root, rows, n, f)
  {
    hide Ok, EnsureFolder, Stages;
    if n > 0 {
      var prior := PutFolders(db, root, path, generation, rows, n - 1).value;
      PutFoldersLabels(db, root, path, generation, rows, n - 1, f);
      PutFoldersStages(db, root, path, generation, rows, n - 1);
      StagesRoots(db, prior, root, generation);
      EnsureLabels(prior, root, generation, rows[n - 1], f);
    }
  }

  /** Folder `f` keeps its label when the batch has no row for its path, or the last one repeats the label. */
  predicate LabelKept(folders: map<nat, Folder>, root: nat, rows: seq<FolderRow>, f: nat)
    requires f in folders
  {
    folders[f].root == root && LastRow(rows, |rows|, folders[f].path).Some? ==>
      var row := LastRow(rows, |rows|, folders[f].path).value;
      row.name == folders[f].name && row.position == folders[f].position
  }

  /**
   Exactly when a batch leaves the names and positions of folders alone: when its last row for the
   path of each existing folder of the root repeats that folder's name and position. Cancelling the
   scan does not restore them.
   */
  lemma BatchLabelsExactly(db: Db, path: string, generation: nat, folders: seq<FolderRow>, sounds: seq<SoundRow>)
    requires Ok(db) && ApplyBatch(db, path, generation, folders, sounds).Success?
    ensures RootAt(db.roots, path).Some?
    ensures var next := ApplyBatch(db, path, generation, folders, sounds).value;
            var root := RootAt(db.roots, path).value;
      && (forall f :: f in db.folders ==>
            f in next.folders && Relabelled(db.folders, next.folders, root, folders, |folders|, f))
      && (SameLabels(db.folders, next.folders) <==>
            forall f :: f in db.folders ==> LabelKept(db.folders, root, folders, f))
      && CancelScan(next, path, generation).folders == next.folders
  {
    hide TreeState, SoundsOk, LocationsOk, TabsOk, LegacyOk, CustomOk, OwnersOk, RootAt, PutFolders, PutSounds,
         LastRow, CancelScan;
    RootOf(db, path, generation);
    var root := RootAt(db.roots, path).value;
    var next := ApplyBatch(db, path, generation, folders, sounds).value;
    var tree := PutFolders(db, root, path, generation, folders, |folders|).value;
    SoundsFolders(tree, root, path, generation, sounds, |sounds|);
    CancelFolders(next, path, generation);
    forall f | f in db.folders
      ensures f in next.folders && Relabelled(db.folders, next.folders, root, folders, |folders|, f)
    {
      PutFoldersLabels(db, root, path, generation, folders, |folders|, f);
    }
  }

  // ---- runs of batches and begins ----------------------------------------------------------------------------

  /** What the step, if it is an applied batch of this root, writes for the folder. */
  function StepRow(db: Db, step: Staging, rootPath: string, path: Path): Option<FolderRow> {
    if step.Batch? && step.path == rootPath
      && ApplyBatch(db, step.path, step.generation, step.folders, step.sounds).Success?
    then LastRow(step.folders, |step.folders|, path) else None
  }

  /** The last row for the folder among the applied batches of the run. */
  function LastWrite(db: Db, steps: seq<Staging>, rootPath: string, path: Path): Option<FolderRow>
    decreases |steps|
  {
    if steps == [] then None
    else match LastWrite(Perform(db, steps[0]), steps[1..], rootPath, path)
         case Some(row) => Some(row)
         case None => StepRow(db, steps[0], rootPath, path)
  }

  /** The folder is the one it was, with the row's name and position if there is a row. */
  predicate Carries(folder: Folder, next: Folder, row: Option<FolderRow>) {
    && next.root == folder.root && next.parent == folder.parent && next.path == folder.path
    && match row
       case None => next.name == folder.name && next.position == folder.position
       case Some(r) => next.name == r.name && next.position == r.position
  }

  lemma StepLabels(db: Db, step: Staging, f: nat)
    requires Ok(db) && f in db.folders
    ensures db.folders[f].root in db.roots
    ensures var rootPath := db.roots[db.folders[f].root].path;
            var next := Perform(db, step);
      && Ok(next) && f in next.folders && Carries(db.folders[f], next.folders[f],
        StepRow(db, step, rootPath, db.folders[f].path))
      && db.folders[f].root in next.roots && next.roots[db.folders[f].root].path == rootPath
  {
    hide Ok, ApplyBatch, BeginScan, CancelScan, LastRow, RootAt, LiveByRows, Effective, OnShow, StagesSounds;
    RootOfFolder(db, f);
    PerformInvisible(db, step);
    match step {
      case Begin(path, position) => Refresh.BeginTables(db, path, position);
      case Batch(path, generation, folders, sounds) =>
        if ApplyBatch(db, path, generation, folders, sounds).Success? {
          BatchLabelsExactly(db, path, generation, folders, sounds);
        }
      case Cancel(path, generation) => CancelFolders(db, path, generation);
    }
  }

  lemma RootOfFolder(db: Db, f: nat)
    requires Ok(db) && f in db.folders
    ensures db.folders[f].root in db.roots
    ensures RootAt(db.roots, db.roots[db.folders[f].root].path) == Some(db.folders[f].root)
  {
    hide TreeOk, ClosureExact, PresenceOk, PresenceNew, SoundsOk, LocationsOk, TabsOk, LegacyOk, CustomOk, OwnersOk,
         RootAt;
    RootAtFinds(db.roots, db.folders[f].root);
  }

  /**
   What a run of staging steps makes of an existing folder: it has the name and position of the last
   row for it among the applied batches of its root, cancelled or not, and its old ones if there is none.
   */
  lemma {:induction false} RunLabelsExactly(db: Db, steps: seq<Staging>, f: nat)
    requires Ok(db) && f in db.folders
    ensures db.folders[f].root in db.roots && f in Run(db, steps).folders
    ensures Carries(db.folders[f], Run(db, steps).folders[f],
      LastWrite(db, steps, db.roots[db.folders[f].root].path, db.folders[f].path))
    decreases |steps|
  {
    hide Ok, Perform, StepRow;
    RootOfFolder(db, f);
    if steps != [] {
      StepLabels(db, steps[0], f);
      RunLabelsExactly(Perform(db, steps[0]), steps[1..], f);
    }
  }

  // ---- the roots listing --------------------------------------------------------------------------------------

  /**
   A begin writes the list of roots at once, and a cancel does not take it back: the list is unchanged
   if and only if the path was a root with this very position. A path that was no root is one now.
   */
  lemma BeginPositionExactly(db: Db, path: string, position: int)
    requires Ok(db)
    ensures var (next, generation) := BeginScan(db, path, position);
      && RootRow(next.roots, path) == Some(Root(path, position, ActiveOf(db.roots, path)))
      && (next.roots == db.roots <==>
            RootRow(db.roots, path).Some? && RootRow(db.roots, path).value.position == position)
      && CancelScan(next, path, generation).roots == next.roots
  {
    hide TreeState, SoundsOk, LocationsOk, TabsOk, LegacyOk, CustomOk, OwnersOk, RootsOk, Generations;
    BeginRow(db, path, position, path);
  }

  /** The position of the last begin of this root that was carried out. */
  function LastBegin(db: Db, steps: seq<Staging>, path: string): Option<int>
    decreases |steps|
  {
    if steps == [] then None
    else match LastBegin(Perform(db, steps[0]), steps[1..], path)
         case Some(position) => Some(position)
         case None =>
           if steps[0].Begin? && steps[0].path == path && TryBegin(db, path, steps[0].position).Success?
           then Some(steps[0].position) else None
  }

  lemma StepRoots(db: Db, step: Staging, path: string)
    requires Ok(db)
    ensures RootRow(Perform(db, step).roots, path) ==
      if step.Begin? && step.path == path && TryBegin(db, path, step.position).Success?
      then Some(Root(path, step.position, ActiveOf(db.roots, path))) else RootRow(db.roots, path)
  {
    hide Ok, ApplyBatch, BeginScan, CancelScan, RootRow, StagesTree, StagesPresence, StagesSounds, StagesLocations;
    match step {
      case Begin(p, position) =>
        OkRoots(db);
        BeginRow(db, p, position, path);
      case Batch(p, generation, folders, sounds) =>
        if ApplyBatch(db, p, generation, folders, sounds).Success? {
          ApplyBatchStages(db, p, generation, folders, sounds);
        }
      case Cancel(p, generation) => CancelRoots(db, p, generation);
    }
  }

  lemma CancelRoots(db: Db, path: string, generation: nat)
    ensures CancelScan(db, path, generation).roots == db.roots
  {}

  /**
   The list of roots after any run of staging steps: a root that a begin of the run named is on it, at
   the position of the last such begin, with the active generation it had or 0; every other row is as
   it was. Nothing in the run takes a root off the list.
   */
  lemma {:induction false} RunRootsExactly(db: Db, steps: seq<Staging>, path: string)
    requires Ok(db)
    ensures RootRow(Run(db, steps).roots, path) ==
      match LastBegin(db, steps, path)
      case None => RootRow(db.roots, path)
      case Some(position) => Some(Root(path, position, ActiveOf(db.roots, path)))
    decreases |steps|
  {
    hide Ok, Perform, SameView, RootRow;
    if steps != [] {
      StepRoots(db, steps[0], path);
      PerformInvisible(db, steps[0]);
      RunRootsExactly(Perform(db, steps[0]), steps[1..], path);
    }
  }
}
