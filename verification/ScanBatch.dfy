/**
 The scanner's row-bounded batches. Whatever the batch boundaries, a run of files leaves the
 database as registering and inserting them one at a time would.
 */
module ScanBatch {
  import opened Wrappers
  import opened Ordering
  import opened Tables
  import opened FolderScan
  import opened RootScan
  import opened Staging
  import opened ScanOrder

  /** A visited audio file; `folder` is its parent below the root, [] for a file in the root itself. */
  datatype File = File(root: string, path: string, folder: Path, relativePath: string,
                       publicId: string, searchName: string, details: Details)

  function RowOf(root: string, folder: Path): FolderRow
    requires folder != []
  {
    FolderRow(root, folder, folder[|folder| - 1], 0)
  }

  function SoundOf(root: string, file: File, position: int): SoundRow {
    SoundRow(file.publicId, file.searchName, file.path, position, file.details,
             [LocationRow(root, if file.folder == [] then None else Some(file.folder), file.relativePath)])
  }

  /** One file on its own: register its folder, then insert its sound and location. */
  function ScanFile(db: Db, root: nat, path: string, generation: nat, file: File, position: int)
    : Result<Db, LibraryError>
  {
    var placed := if file.folder == [] then db else EnsureFolder(db, root, generation, RowOf(path, file.folder));
    InsertSound(placed, root, path, generation, SoundOf(path, file, position))
  }

  // ---- appending a file to a batch --------------------------------------------------------------

  lemma {:induction false} PutFoldersPrefix(db: Db, root: nat, path: string, generation: nat,
                                            rows: seq<FolderRow>, more: seq<FolderRow>, n: nat)
    requires n <= |rows|
    ensures PutFolders(db, root, path, generation, rows + more, n) == PutFolders(db, root, path, generation, rows, n)
  {
    hide PutFolder;
    if n > 0 { PutFoldersPrefix(db, root, path, generation, rows, more, n - 1); }
  }

  lemma {:induction false} PutSoundsPrefix(db: Db, root: nat, path: string, generation: nat,
                                           rows: seq<SoundRow>, more: seq<SoundRow>, n: nat)
    requires n <= |rows|
    ensures PutSounds(db, root, path, generation, rows + more, n) == PutSounds(db, root, path, generation, rows, n)
  {
    hide InsertSound;
    if n > 0 { PutSoundsPrefix(db, root, path, generation, rows, more, n - 1); }
  }

  /** Folder rows as the scanner writes them: a function of the path alone. */
  ghost predicate Plain(path: string, rows: seq<FolderRow>) {
    forall i :: 0 <= i < |rows| ==> rows[i].path != [] && rows[i] == RowOf(path, rows[i].path)
  }

  lemma {:induction false} BatchRegisters(db: Db, root: nat, path: string, generation: nat, rows: seq<FolderRow>,
                                          n: nat)
    requires Ok(db) && root in db.roots && db.roots[root].active <= generation
    requires Plain(path, rows) && n <= |rows| && PutFolders(db, root, path, generation, rows, n).Success?
    ensures forall i :: 0 <= i < n ==>
      Registered(PutFolders(db, root, path, generation, rows, n).value, root, generation, rows[i])
  {
    hide Ok, Registered, EnsureFolder, StagesTree, StagesPresence, StagesSounds, StagesLocations;
    if n > 0 {
      var prior := PutFolders(db, root, path, generation, rows, n - 1).value;
      BatchRegisters(db, root, path, generation, rows, n - 1);
      PutFoldersStages(db, root, path, generation, rows, n - 1);
      EnsureRegisters(prior, root, generation, rows[n - 1]);
      forall i | 0 <= i < n - 1
        ensures Registered(EnsureFolder(prior, root, generation, rows[n - 1]), root, generation, rows[i])
      {
        EnsureKeepsRegistered(prior, root, generation, rows[i], rows[n - 1]);
      }
    }
  }

  /** The folder list after a file is pushed. */
  function WithFolder(path: string, folders: seq<FolderRow>, folder: Path): seq<FolderRow> {
    if folder == [] || RowOf(path, folder) in folders then folders else folders + [RowOf(path, folder)]
  }

  lemma SettleKnown(tree: Db, settled: Db, root: nat, path: string, generation: nat, sounds: seq<SoundRow>,
                    row: FolderRow)
    requires PutSounds(tree, root, path, generation, sounds, |sounds|) == Success(settled)
    requires Registered(tree, root, generation, row) && TreeState(settled)
    ensures EnsureFolder(settled, root, generation, row) == settled
  {
    hide TreeState, PutSounds, EnsurePrefix, FindsAlike;
    FindsSelf(tree, root);
    PutSoundsCommute(tree, tree, root, path, generation, sounds, |sounds|);
    EnsureIdle(settled, root, generation, row, |row.path|);
  }

  lemma FindsSelf(db: Db, root: nat)
    ensures FindsAlike(db, db, root)
  {}

  lemma SettleNew(tree: Db, settled: Db, root: nat, path: string, generation: nat, sounds: seq<SoundRow>,
                  row: FolderRow)
    requires Ok(tree) && root in tree.roots && tree.roots[root].active <= generation
    requires PutSounds(tree, root, path, generation, sounds, |sounds|) == Success(settled)
    ensures PutSounds(EnsureFolder(tree, root, generation, row), root, path, generation, sounds, |sounds|)
         == Success(EnsureFolder(settled, root, generation, row))
  {
    hide Ok, PutSounds, EnsurePrefix, FindsAlike, Ensured;
    var grown := EnsureFolder(tree, root, generation, row);
    EnsureFolderKeeps(tree, root, generation, row);
    TreeFinds(tree, grown, root);
    FindsSelf(tree, root);
    PutSoundsCommute(tree, tree, root, path, generation, sounds, |sounds|);
    PutSoundsCommute(tree, grown, root, path, generation, sounds, |sounds|);
    EnsurePrefixIgnores(tree, settled, root, generation, row, |row.path|);
  }

  /**
   Adding a file to the pending rows and applying them gives the same database as applying them
   first and then scanning the file on its own.
   */
  lemma SettleStep(db: Db, path: string, generation: nat, folders: seq<FolderRow>, sounds: seq<SoundRow>,
                   settled: Db, file: File, position: int)
    requires Ok(db) && Plain(path, folders)
    requires ApplyBatch(db, path, generation, folders, sounds) == Success(settled)
    ensures RootAt(db.roots, path).Some?
    ensures ApplyBatch(db, path, generation, WithFolder(path, folders, file.folder),
      sounds + [SoundOf(path, file, position)])
         == ScanFile(settled, RootAt(db.roots, path).value, path, generation, file, position)
  {
    hide Ok, PutFolders, PutSounds, InsertSound, EnsureFolder, Registered, Plain, Stages;
    var root := RootAt(db.roots, path).value;
    ApplyBatchStages(db, path, generation, folders, sounds);
    var tree := PutFolders(db, root, path, generation, folders, |folders|).value;
    PutFoldersStages(db, root, path, generation, folders, |folders|);
    StagesRoots(db, tree, root, generation);
    var sound := SoundOf(path, file, position);
    AppendSound(tree, root, path, generation, sounds, sound);
    if file.folder != [] {
      var row := RowOf(path, file.folder);
      if row in folders {
        BatchRegisters(db, root, path, generation, folders, |folders|);
        OkTree(settled);
        SettleKnown(tree, settled, root, path, generation, sounds, row);
      } else {
        SettleNew(tree, settled, root, path, generation, sounds, row);
        AppendFolder(db, root, path, generation, folders, row);
        AppendSound(EnsureFolder(tree, root, generation, row), root, path, generation, sounds, sound);
      }
    }
  }

  lemma StagesRoots(db: Db, next: Db, root: nat, generation: nat)
    requires Stages(db, next, root, generation)
    ensures next.roots == db.roots && next.scans == db.scans
  {}

  lemma AppendSound(db: Db, root: nat, path: string, generation: nat, sounds: seq<SoundRow>, sound: SoundRow)
    ensures var rows := sounds + [sound];
      PutSounds(db, root, path, generation, rows, |rows|) ==
        match PutSounds(db, root, path, generation, sounds, |sounds|)
        case Failure(e) => Failure(e)
        case Success(prior) => InsertSound(prior, root, path, generation, sound)
  {
    hide InsertSound;
    PutSoundsPrefix(db, root, path, generation, sounds, [sound], |sounds|);
  }

  lemma AppendFolder(db: Db, root: nat, path: string, generation: nat, folders: seq<FolderRow>, row: FolderRow)
    requires row.rootPath == path && row.path != []
    requires PutFolders(db, root, path, generation, folders, |folders|).Success?
    ensures var rows := folders + [row];
      PutFolders(db, root, path, generation, rows, |rows|)
        == Success(EnsureFolder(PutFolders(db, root, path, generation, folders, |folders|).value,
                                root, generation, row))
  {
    hide EnsureFolder;
    PutFoldersPrefix(db, root, path, generation, folders, [row], |folders|);
  }

  /** The database once the pending rows are applied; nothing pending, nothing to apply. */
  function SettledBy(db: Db, path: string, generation: nat, folders: seq<FolderRow>, sounds: seq<SoundRow>)
    : Result<Db, LibraryError>
  {
    if folders == [] && sounds == [] then Success(db) else ApplyBatch(db, path, generation, folders, sounds)
  }

  lemma EmptyBatch(db: Db, path: string, generation: nat)
    requires Ok(db) && Verified(db, path, generation)
    ensures RootAt(db.roots, path).Some? && ApplyBatch(db, path, generation, [], []) == Success(db)
  {
    hide TreeState, SoundsOk, LocationsOk, TabsOk, LegacyOk, CustomOk, OwnersOk, RootAt;
  }

  lemma PushSettles(db: Db, path: string, generation: nat, folders: seq<FolderRow>, sounds: seq<SoundRow>,
                    file: File, position: int)
    requires Ok(db) && Verified(db, path, generation) && Plain(path, folders)
    requires SettledBy(db, path, generation, folders, sounds).Success?
    ensures RootAt(db.roots, path).Some?
    ensures SettledBy(db, path, generation, WithFolder(path, folders, file.folder),
      sounds + [SoundOf(path, file, position)])
         == ScanFile(SettledBy(db, path, generation, folders, sounds).value, RootAt(db.roots, path).value,
                     path, generation, file, position)
  {
    hide Ok, ApplyBatch, ScanFile, Verified;
    EmptyBatch(db, path, generation);
    var settled := SettledBy(db, path, generation, folders, sounds).value;
    SettleStep(db, path, generation, folders, sounds, settled, file, position);
  }

  /** A flush keeps the invariant and every scan in progress. */
  lemma FlushKeeps(db: Db, path: string, generation: nat, folders: seq<FolderRow>, sounds: seq<SoundRow>)
    requires Ok(db) && SettledBy(db, path, generation, folders, sounds).Success?
    ensures var next := SettledBy(db, path, generation, folders, sounds).value;
      Ok(next) && next.scans == db.scans && next.roots == db.roots
  {
    hide Ok, ApplyBatch, Stages;
    if folders != [] || sounds != [] {
      ApplyBatchStages(db, path, generation, folders, sounds);
      StagesRoots(db, SettledBy(db, path, generation, folders, sounds).value, RootAt(db.roots, path).value, generation);
    }
  }

  // ---- when a batch fails ------------------------------------------------------------------------

  /** Every pending sound has one location, in the root itself or in a pending folder. */
  ghost predicate Anchored(path: string, folders: seq<FolderRow>, sounds: seq<SoundRow>) {
    forall i :: 0 <= i < |sounds| ==>
      && |sounds[i].locations| == 1 && sounds[i].locations[0].rootPath == path
      && (sounds[i].locations[0].folder.None? || Pending(path, folders, sounds[i].locations[0].folder.value))
  }

  ghost predicate Pending(path: string, folders: seq<FolderRow>, folder: Path) {
    folder != [] && RowOf(path, folder) in folders
  }

  /** The sound table alone, sound after sound. */
  function PutAll(sounds: map<nat, Sound>, rows: seq<SoundRow>, n: nat): Option<map<nat, Sound>>
    requires n <= |rows|
  {
    if n == 0 then Some(sounds)
    else match PutAll(sounds, rows, n - 1)
         case None => None
         case Some(prior) => (match PutSound(prior, rows[n - 1]) case None => None case Some(put) => Some(put.0))
  }

  lemma {:induction false} PutAllStops(sounds: map<nat, Sound>, rows: seq<SoundRow>, more: seq<SoundRow>)
    ensures PutAll(sounds, rows, |rows|).None? ==> PutAll(sounds, rows + more, |rows + more|).None?
    decreases |more|
  {
    hide PutSound;
    if more == [] {
      assert rows + more == rows;
    } else {
      var x := more[|more| - 1];
      assert rows + more == (rows + more[..|more| - 1]) + [x];
      PutAllStops(sounds, rows, more[..|more| - 1]);
      PutAllPrefix(sounds, rows + more[..|more| - 1], [x], |rows + more| - 1);
    }
  }

  lemma {:induction false} PutAllPrefix(sounds: map<nat, Sound>, rows: seq<SoundRow>, more: seq<SoundRow>, n: nat)
    requires n <= |rows|
    ensures PutAll(sounds, rows + more, n) == PutAll(sounds, rows, n)
  {
    hide PutSound;
    if n > 0 { PutAllPrefix(sounds, rows, more, n - 1); }
  }

  /** Where every location finds its folder, only the sound table can refuse a row. */
  lemma {:induction false} PutSoundsAs(db: Db, root: nat, path: string, generation: nat, rows: seq<SoundRow>, n: nat)
    requires n <= |rows|
    requires forall i :: 0 <= i < n ==>
      && |rows[i].locations| == 1 && rows[i].locations[0].rootPath == path
      && (rows[i].locations[0].folder.Some? ==> FolderAt(db.folders, root, rows[i].locations[0].folder.value).Some?)
    ensures PutSounds(db, root, path, generation, rows, n).Success? <==> PutAll(db.sounds, rows, n).Some?
    ensures PutSounds(db, root, path, generation, rows, n).Success? ==>
      && PutSounds(db, root, path, generation, rows, n).value.sounds == PutAll(db.sounds, rows, n).value
      && PutSounds(db, root, path, generation, rows, n).value.folders == db.folders
  {
    hide FolderAt, PutSound;
    if n > 0 {
      PutSoundsAs(db, root, path, generation, rows, n - 1);
      if PutSounds(db, root, path, generation, rows, n - 1).Success? {
        OneInsert(PutSounds(db, root, path, generation, rows, n - 1).value, root, path, generation, rows[n - 1]);
      }
    }
  }

  lemma OneInsert(db: Db, root: nat, path: string, generation: nat, row: SoundRow)
    requires |row.locations| == 1 && row.locations[0].rootPath == path
    requires row.locations[0].folder.Some? ==> FolderAt(db.folders, root, row.locations[0].folder.value).Some?
    ensures var inserted := InsertSound(db, root, path, generation, row);
      && (inserted.Success? <==> PutSound(db.sounds, row).Some?)
      && (inserted.Success? ==> inserted.value.sounds == PutSound(db.sounds, row).value.0
                                && inserted.value.folders == db.folders)
  {
    hide FolderAt, PutSound;
    if PutSound(db.sounds, row).Some? {
      var (sounds, id) := PutSound(db.sounds, row).value;
      var start := db.(sounds := sounds);
      assert PutLocations(start, id, root, path, generation, row.locations, 0) == Success(start);
    }
  }

  lemma {:induction false} PlainFoldersPut(db: Db, root: nat, path: string, generation: nat, rows: seq<FolderRow>,
                                           n: nat)
    requires Plain(path, rows) && n <= |rows|
    ensures PutFolders(db, root, path, generation, rows, n).Success?
  {
    hide EnsureFolder;
    if n > 0 { PlainFoldersPut(db, root, path, generation, rows, n - 1); }
  }

  /** Of the scanner's own batches only the sound table can refuse a row. */
  lemma BatchPuts(db: Db, path: string, generation: nat, folders: seq<FolderRow>, sounds: seq<SoundRow>)
    requires Ok(db) && Verified(db, path, generation) && Plain(path, folders) && Anchored(path, folders, sounds)
    ensures ApplyBatch(db, path, generation, folders, sounds).Failure? <==> PutAll(db.sounds, sounds, |sounds|).None?
  {
    hide TreeState, SoundsOk, LocationsOk, TabsOk, LegacyOk, CustomOk, OwnersOk, RootAt,
         PutFolders, PutSounds, PutAll, Registered, Stages, Plain;
    RootOf(db, path, generation);
    var root := RootAt(db.roots, path).value;
    PlainFoldersPut(db, root, path, generation, folders, |folders|);
    var tree := PutFolders(db, root, path, generation, folders, |folders|).value;
    PutFoldersStages(db, root, path, generation, folders, |folders|);
    BatchRegisters(db, root, path, generation, folders, |folders|);
    forall i | 0 <= i < |sounds| && sounds[i].locations[0].folder.Some?
      ensures FolderAt(tree.folders, root, sounds[i].locations[0].folder.value).Some?
    {
      var p := sounds[i].locations[0].folder.value;
      var j :| 0 <= j < |folders| && folders[j] == RowOf(path, p);
      RegisteredFound(tree, root, generation, folders[j]);
    }
    PutSoundsAs(tree, root, path, generation, sounds, |sounds|);
  }

  /** The row's path is neither in the table nor in an earlier row, so it would be inserted. */
  predicate Inserts(sounds: map<nat, Sound>, rows: seq<SoundRow>, i: nat)
    requires i < |rows|
  {
    SoundAt(sounds, rows[i].path).None? && forall j :: 0 <= j < i ==> rows[j].path != rows[i].path
  }

  /** A sound of another path has the row's public id: one in the table, or one an earlier row inserts. */
  predicate IdTaken(sounds: map<nat, Sound>, rows: seq<SoundRow>, i: nat)
    requires i < |rows|
  {
    || SoundNamed(sounds, rows[i].publicId).Some?
    || exists j :: 0 <= j < i && Inserts(sounds, rows, j) && rows[j].publicId == rows[i].publicId
  }

  /** A position or duration that is no 64-bit number, or a volume above 100. */
  predicate BeyondColumns(row: SoundRow) {
    || row.position > 9_223_372_036_854_775_807 || row.details.volume > 100
    || (row.details.duration.Some? && row.details.duration.value > 9_223_372_036_854_775_807)
  }

  predicate Refuses(sounds: map<nat, Sound>, rows: seq<SoundRow>, n: nat)
    requires n <= |rows|
  {
    exists i :: 0 <= i < n && (BeyondColumns(rows[i]) || (Inserts(sounds, rows, i) && IdTaken(sounds, rows, i)))
  }

  /** The paths and ids of the table once the first `n` rows are in. */
  ghost predicate Holding(sounds: map<nat, Sound>, next: map<nat, Sound>, rows: seq<SoundRow>, n: nat)
    requires n <= |rows|
  {
    && (forall p :: SoundAt(next, p).Some? <==>
          SoundAt(sounds, p).Some? || exists j :: 0 <= j < n && rows[j].path == p)
    && (forall id :: SoundNamed(next, id).Some? <==>
          SoundNamed(sounds, id).Some? || exists j :: 0 <= j < n && Inserts(sounds, rows, j) && rows[j].publicId == id)
  }

  lemma PutSoundHolds(sounds: map<nat, Sound>, row: SoundRow)
    requires PutSound(sounds, row).Some?
    ensures var next := PutSound(sounds, row).value.0;
      && (forall p :: SoundAt(next, p).Some? <==> SoundAt(sounds, p).Some? || p == row.path)
      && (forall id :: SoundNamed(next, id).Some? <==>
            SoundNamed(sounds, id).Some? || (SoundAt(sounds, row.path).None? && id == row.publicId))
  {
    var (next, made) := PutSound(sounds, row).value;
    assert made in next && forall s :: s in sounds ==>
      s in next && next[s].path == sounds[s].path && next[s].publicId == sounds[s].publicId;
    forall p ensures SoundAt(next, p).Some? <==> SoundAt(sounds, p).Some? || p == row.path {
      assert SoundAt(sounds, p).Some? ==> SoundAt(sounds, p).value in SoundIdsAt(next, p);
      assert p == row.path ==> made in SoundIdsAt(next, p);
    }
    forall id ensures SoundNamed(next, id).Some? <==>
      SoundNamed(sounds, id).Some? || (SoundAt(sounds, row.path).None? && id == row.publicId)
    {
      assert SoundNamed(sounds, id).Some? ==> SoundNamed(sounds, id).value in SoundIdsNamed(next, id);
      assert SoundAt(sounds, row.path).None? && id == row.publicId ==> made in SoundIdsNamed(next, id);
      assert SoundNamed(next, id).Some? && SoundNamed(next, id).value in sounds ==>
        SoundNamed(next, id).value in SoundIdsNamed(sounds, id);
    }
  }

  lemma {:induction false} PutAllExactly(sounds: map<nat, Sound>, rows: seq<SoundRow>, n: nat)
    requires n <= |rows|
    ensures PutAll(sounds, rows, n).None? <==> Refuses(sounds, rows, n)
    ensures PutAll(sounds, rows, n).Some? ==> Holding(sounds, PutAll(sounds, rows, n).value, rows, n)
  {
    hide PutSound, SoundAt, SoundNamed, Inserts;
    if n > 0 {
      PutAllExactly(sounds, rows, n - 1);
      if PutAll(sounds, rows, n - 1).Some? {
        var prior := PutAll(sounds, rows, n - 1).value;
        NextRefused(sounds, prior, rows, n - 1);
        if PutSound(prior, rows[n - 1]).Some? {
          PutSoundHolds(prior, rows[n - 1]);
          NextHolding(sounds, prior, PutSound(prior, rows[n - 1]).value.0, rows, n);
        }
      }
    }
  }

  lemma NextRefused(sounds: map<nat, Sound>, prior: map<nat, Sound>, rows: seq<SoundRow>, n: nat)
    requires n < |rows| && Holding(sounds, prior, rows, n)
    ensures PutSound(prior, rows[n]).None? <==>
      BeyondColumns(rows[n]) || (Inserts(sounds, rows, n) && IdTaken(sounds, rows, n))
    ensures SoundAt(prior, rows[n].path).None? <==> Inserts(sounds, rows, n)
  {
    hide SoundAt, SoundNamed;
  }

  lemma NextHolding(sounds: map<nat, Sound>, prior: map<nat, Sound>, next: map<nat, Sound>, rows: seq<SoundRow>, n: nat)
    requires 0 < n <= |rows| && Holding(sounds, prior, rows, n - 1)
    requires forall p :: SoundAt(next, p).Some? <==> SoundAt(prior, p).Some? || p == rows[n - 1].path
    requires forall id :: SoundNamed(next, id).Some? <==>
      SoundNamed(prior, id).Some? || (SoundAt(prior, rows[n - 1].path).None? && id == rows[n - 1].publicId)
    ensures Holding(sounds, next, rows, n)
  {
    hide SoundAt, SoundNamed, Inserts;
    assert SoundAt(prior, rows[n - 1].path).None? <==> Inserts(sounds, rows, n - 1) by {
      NextRefused(sounds, prior, rows, n - 1);
    }
  }

  /**
   The scanner's own batches are refused if and only if a row does not fit the columns or a sound to be
   inserted has the public id of another path: one in the table, or one inserted by an earlier row.
   */
  lemma BatchFails(db: Db, path: string, generation: nat, folders: seq<FolderRow>, sounds: seq<SoundRow>)
    requires Ok(db) && Verified(db, path, generation) && Plain(path, folders) && Anchored(path, folders, sounds)
    ensures ApplyBatch(db, path, generation, folders, sounds).Failure? <==> Refuses(db.sounds, sounds, |sounds|)
  {
    hide Ok, Verified, Plain, Anchored, ApplyBatch, PutAll, Refuses;
    BatchPuts(db, path, generation, folders, sounds);
    PutAllExactly(db.sounds, sounds, |sounds|);
  }

  lemma RootOf(db: Db, path: string, generation: nat)
    requires Ok(db) && Verified(db, path, generation)
    ensures RootAt(db.roots, path).Some? && db.roots[RootAt(db.roots, path).value].active < generation
  {
    hide TreeState, SoundsOk, LocationsOk, TabsOk, LegacyOk, CustomOk, OwnersOk, RootAt;
  }

  lemma RegisteredFound(db: Db, root: nat, generation: nat, row: FolderRow)
    requires Registered(db, root, generation, row) && row.path != []
    ensures FolderAt(db.folders, root, row.path).Some?
  {
    hide FolderAt;
  }

  /** A batch that would be refused is still refused with another file added. */
  lemma FailureStays(db: Db, path: string, generation: nat, folders: seq<FolderRow>, sounds: seq<SoundRow>,
                     wider: seq<FolderRow>, sound: SoundRow)
    requires Ok(db) && Verified(db, path, generation)
    requires Plain(path, folders) && Anchored(path, folders, sounds)
    requires Plain(path, wider) && Anchored(path, wider, sounds + [sound])
    requires SettledBy(db, path, generation, folders, sounds).Failure?
    ensures SettledBy(db, path, generation, wider, sounds + [sound]).Failure?
  {
    hide Ok, Verified, Plain, Anchored, ApplyBatch, PutAll;
    BatchPuts(db, path, generation, folders, sounds);
    BatchPuts(db, path, generation, wider, sounds + [sound]);
    PutAllStops(db.sounds, sounds, [sound]);
  }

  lemma PushAnchored(path: string, folders: seq<FolderRow>, sounds: seq<SoundRow>, file: File, position: int)
    requires Plain(path, folders) && Anchored(path, folders, sounds)
    ensures var wider := WithFolder(path, folders, file.folder);
      Plain(path, wider) && Anchored(path, wider, sounds + [SoundOf(path, file, position)])
  {}

  lemma EmptyPending(path: string)
    ensures Plain(path, []) && Anchored(path, [], [])
  {}

  // ---- the batch object ---------------------------------------------------------------------------

  function FolderRows(folders: seq<FolderRow>): nat {
    if folders == [] then 0 else FolderRows(folders[..|folders| - 1]) + MaxOne(|folders[|folders| - 1].path|)
  }

  function MaxOne(n: nat): nat {
    if n == 0 then 1 else n
  }

  function SoundRows(sounds: seq<SoundRow>): nat {
    if sounds == [] then 0 else SoundRows(sounds[..|sounds| - 1]) + 1 + |sounds[|sounds| - 1].locations|
  }

  lemma RowsGrow(folders: seq<FolderRow>, sounds: seq<SoundRow>, root: string, file: File, position: int)
    ensures FolderRows([]) == 0 && SoundRows([]) == 0
    ensures SoundRows(sounds + [SoundOf(root, file, position)]) == SoundRows(sounds) + 2
    ensures file.folder != [] ==>
      FolderRows(folders + [RowOf(root, file.folder)]) == FolderRows(folders) + |file.folder|
  {
    assert (sounds + [SoundOf(root, file, position)])[..|sounds|] == sounds;
    if file.folder != [] {
      assert (folders + [RowOf(root, file.folder)])[..|folders|] == folders;
    }
  }

  /** A sound and its location, and a row per component of a folder that is not pending yet. */
  ghost function OwnRows(folders: seq<FolderRow>, root: string, file: File): nat {
    2 + if file.folder == [] || RowOf(root, file.folder) in folders then 0 else |file.folder|
  }

  /** The store's front door: an oversized batch is refused before it reaches the database. */
  method SubmitScanBatch(c: Connection, path: string, generation: nat, folders: seq<FolderRow>, sounds: seq<SoundRow>)
    returns (r: Option<LibraryError>)
    modifies c
    ensures FolderRows(folders) + SoundRows(sounds) > 512 ==> r == Some(InvalidData) && c.db == old(c.db)
    ensures FolderRows(folders) + SoundRows(sounds) <= 512 ==>
      match ApplyBatch(old(c.db), path, generation, folders, sounds)
      case Failure(e) => r == Some(e) && c.db == old(c.db)
      case Success(next) => r == None && c.db == next
  {
    if FolderRows(folders) + SoundRows(sounds) > MAX_BATCH_ROWS {
      return Some(InvalidData);
    }
    r := ApplyRootScanBatch(c, path, generation, folders, sounds);
  }

  class StoreScanBatch {
    var root: string
    var generation: nat
    var folders: seq<FolderRow>
    var folderPaths: set<Path>
    var sounds: seq<SoundRow>
    var rows: nat

    /** The row counter is exact and within the store's limit, and the path set mirrors the folder rows. */
    ghost predicate Valid()
      reads this
    {
      && rows == FolderRows(folders) + SoundRows(sounds) <= 512
      && Plain(root, folders) && Anchored(root, folders, sounds)
      && (forall p :: p in folderPaths <==> p != [] && RowOf(root, p) in folders)
    }

    /** What the database will be once the pending rows are applied. */
    ghost function Settled(db: Db): Result<Db, LibraryError>
      reads this
    {
      SettledBy(db, root, generation, folders, sounds)
    }

    /** The batch writes into a scan in progress. */
    ghost predicate Scanning(db: Db)
      reads this
    {
      Ok(db) && Verified(db, root, generation)
    }

    constructor ()
      ensures Valid() && folders == [] && sounds == [] && root == "" && generation == 0
    {
      root, generation, folders, folderPaths, sounds, rows := "", 0, [], {}, [], 0;
    }

    method ResetFor(root: string, generation: nat)
      modifies this
      ensures Valid() && folders == [] && sounds == [] && this.root == root && this.generation == generation
    {
      this.root, this.generation := root, generation;
      folders, folderPaths, sounds, rows := [], {}, [], 0;
    }

    /** After a flush nothing is pending; a refused flush leaves the database alone. */
    method Flush(c: Connection) returns (r: Option<LibraryError>)
      requires Valid()
      modifies this, c
      ensures root == old(root) && generation == old(generation)
      ensures match old(Settled(c.db))
        case Failure(e) => r == Some(e) && c.db == old(c.db)
        case Success(next) =>
          && r == None && c.db == next && Valid() && folders == [] && sounds == []
          && Settled(c.db) == Success(next)
    {
      hide ApplyBatch, Anchored, Plain;
      EmptyPending(root);
      if folders == [] && sounds == [] {
        return None;
      }
      var takenFolders, takenSounds := folders, sounds;
      folders, sounds := [], [];
      r := SubmitScanBatch(c, root, generation, takenFolders, takenSounds);
      if r.Some? {
        return r;
      }
      folderPaths := {};
      rows := 0;
      return None;
    }

    /**
     Refuses only a folder too deep for any batch, or a pending batch that fails. Otherwise,
     however the push splits the rows into transactions, the settled database is the previous
     settled database with this one file scanned into it. The pending rows are flushed first exactly
     when they and the file's own, its folder's included if that is not pending yet, exceed 512.
     */
    method PushFile(c: Connection, file: File, position: int) returns (r: Option<LibraryError>)
      requires Valid() && Scanning(c.db)
      modifies this, c
      ensures root == old(root) && generation == old(generation)
      ensures 2 + |file.folder| > 512 ==>
        r == Some(InvalidData) && c.db == old(c.db) && Valid() && Settled(c.db) == old(Settled(c.db))
      ensures Scanning(c.db) && c.db.scans == old(c.db.scans) && c.db.roots == old(c.db.roots)
      ensures c.db == old(c.db) || old(Settled(c.db)) == Success(c.db)
      ensures 2 + |file.folder| <= 512 && old(rows) + OwnRows(old(folders), root, file) <= 512 ==>
        r == None && c.db == old(c.db) && sounds == old(sounds) + [SoundOf(root, file, position)]
      ensures 2 + |file.folder| <= 512 < old(rows) + OwnRows(old(folders), root, file) && r == None ==>
        old(Settled(c.db)) == Success(c.db) && sounds == [SoundOf(root, file, position)]
      ensures 2 + |file.folder| <= 512 ==>
        && (old(Settled(c.db)).Success? ==> r == None)
        && (r == None ==> Valid() && RootAt(c.db.roots, root).Some?)
        && (r == None ==>
              match old(Settled(c.db))
              case Failure(_) => Settled(c.db).Failure?
              case Success(settled) =>
                Settled(c.db) == ScanFile(settled, RootAt(c.db.roots, root).value, root, generation, file, position))
    {
      hide ApplyBatch, Ok, ScanFile, FolderRows, SoundRows, SoundOf, RootAt, SettledBy, Plain, Anchored;
      var folderRows := |file.folder|;
      var known := file.folder != [] && file.folder in folderPaths;
      var rowsAfterFlush := 2 + folderRows;
      if rowsAfterFlush > MAX_BATCH_ROWS {
        return Some(InvalidData);
      }
      var required := if known then 2 else rowsAfterFlush;
      if rows + required > MAX_BATCH_ROWS {
        if old(Settled(c.db)).Success? {
          FlushKeeps(old(c.db), root, generation, folders, sounds);
        }
        var failed := Flush(c);
        if failed.Some? {
          return failed;
        }
      }
      ghost var pending, ready := folders, sounds;
      RowsGrow(folders, sounds, root, file, position);
      PushAnchored(root, folders, sounds, file, position);
      RootOf(c.db, root, generation);
      if Settled(c.db).Success? {
        PushSettles(c.db, root, generation, folders, sounds, file, position);
      } else {
        FailureStays(c.db, root, generation, folders, sounds, WithFolder(root, folders, file.folder),
          SoundOf(root, file, position));
      }
      if file.folder != [] && file.folder !in folderPaths {
        folderPaths := folderPaths + {file.folder};
        folders := folders + [RowOf(root, file.folder)];
        rows := rows + folderRows;
      }
      assert folders == WithFolder(root, pending, file.folder);
      sounds := sounds + [SoundOf(root, file, position)];
      rows := rows + 2;
      return None;
    }
  }
}
