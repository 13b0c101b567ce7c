/**
 Batches in general, not only the scanner's own: exactly when one is refused, and the folders it makes
 on the way to the ones it names.
 */
module RawBatches {
  import opened Wrappers
  import opened Ordering
  import opened Tables
  import opened FolderScan
  import opened RootScan
  import opened Staging
  import opened ScanOrder
  import opened ScanBatch

  // ---- the folders of a batch -------------------------------------------------------------------------

  lemma PathIdIsPrefix(folders: map<nat, Folder>, root: nat, path: Path, n: nat, f: nat)
    requires n <= |path| && f in PathIds(folders, root, path, n)
    ensures f in folders && folders[f].root == root && folders[f].path != [] && folders[f].path <= path
  {
    PathIdsSound(folders, root, path, n, f);
    PathIdNotRoot(folders, root, path, n, f);
  }

  lemma {:induction false} PathIdNotRoot(folders: map<nat, Folder>, root: nat, path: Path, n: nat, f: nat)
    requires n <= |path| && f in PathIds(folders, root, path, n)
    ensures f in folders && folders[f].path != []
  {
    hide FolderAt;
    if f in PathIds(folders, root, path, n - 1) { PathIdNotRoot(folders, root, path, n - 1, f); }
  }

  /** Registering a folder makes the folders on its path, and finds every other one where it was. */
  lemma EnsureFinds(db: Db, root: nat, generation: nat, row: FolderRow, p: Path)
    requires Ok(db) && root in db.roots && db.roots[root].active <= generation
    ensures var next := EnsureFolder(db, root, generation, row);
      FolderAt(next.folders, root, p).Some? <==> FolderAt(db.folders, root, p).Some? || (p != [] && p <= row.path)
  {
    hide Ok, EnsureFolder, PathIds, Grows, Stages;
    var next := EnsureFolder(db, root, generation, row);
    EnsureFolderKeeps(db, root, generation, row);
    EnsureFolderStages(db, root, generation, row);
    GrownFinds(db, next, root, generation, p);
    if p != [] && p <= row.path {
      assert p == row.path[..|p|];
    }
    if FolderAt(next.folders, root, p).Some? && FolderAt(next.folders, root, p).value !in db.folders {
      PathIdIsPrefix(next.folders, root, row.path, |row.path|, FolderAt(next.folders, root, p).value);
    }
  }

  /** A folder that was there is still found, and a found old one was found before. */
  lemma GrownFinds(db: Db, next: Db, root: nat, generation: nat, p: Path)
    requires Ok(next) && Stages(db, next, root, generation)
    ensures FolderAt(db.folders, root, p).Some? ==> FolderAt(next.folders, root, p) == FolderAt(db.folders, root, p)
    ensures FolderAt(next.folders, root, p).Some? && FolderAt(next.folders, root, p).value in db.folders ==>
      FolderAt(db.folders, root, p).Some?
  {
    hide RowsOk, ClosureExact, PresenceOk, PresenceNew, StagesPresence, StagesSounds, StagesLocations;
    if FolderAt(db.folders, root, p).Some? {
      assert FolderAt(db.folders, root, p).value in FolderIds(next.folders, root, p);
    }
    if FolderAt(next.folders, root, p).Some? && FolderAt(next.folders, root, p).value in db.folders {
      assert FolderAt(next.folders, root, p).value in FolderIds(db.folders, root, p);
    }
  }

  /** Some folder row of another root, or without a path. */
  ghost predicate BadFolder(path: string, rows: seq<FolderRow>, n: nat)
    requires n <= |rows|
  {
    exists i :: 0 <= i < n && (rows[i].rootPath != path || rows[i].path == [])
  }

  /** The folder is there already or lies on the way to one of the batch's. */
  ghost predicate Reachable(folders: map<nat, Folder>, root: nat, rows: seq<FolderRow>, n: nat, p: Path)
    requires n <= |rows|
  {
    || (exists f :: f in folders && folders[f].root == root && folders[f].path == p)
    || (p != [] && exists i :: 0 <= i < n && p <= rows[i].path)
  }

  lemma {:induction false} PutFoldersExactly(db: Db, root: nat, path: string, generation: nat, rows: seq<FolderRow>,
                                             n: nat)
    requires n <= |rows|
    ensures PutFolders(db, root, path, generation, rows, n).Failure? <==> BadFolder(path, rows, n)
  {
    hide EnsureFolder;
    if n > 0 { PutFoldersExactly(db, root, path, generation, rows, n - 1); }
  }

  lemma FoundIs(folders: map<nat, Folder>, root: nat, p: Path)
    ensures FolderAt(folders, root, p).Some? <==>
      exists f :: f in folders && folders[f].root == root && folders[f].path == p
  {
    if f :| f in folders && folders[f].root == root && folders[f].path == p {
      assert f in FolderIds(folders, root, p);
    }
  }

  lemma {:induction false} PutFoldersFind(db: Db, root: nat, path: string, generation: nat, rows: seq<FolderRow>,
                                          n: nat, p: Path)
    requires Ok(db) && root in db.roots && db.roots[root].active <= generation
    requires n <= |rows| && PutFolders(db, root, path, generation, rows, n).Success?
    ensures FolderAt(PutFolders(db, root, path, generation, rows, n).value.folders, root, p).Some?
      <==> Reachable(db.folders, root, rows, n, p)
  {
    hide Ok, EnsureFolder, FolderAt, Stages;
    FoundIs(db.folders, root, p);
    if n > 0 {
      var prior := PutFolders(db, root, path, generation, rows, n - 1).value;
      PutFoldersFind(db, root, path, generation, rows, n - 1, p);
      PutFoldersStages(db, root, path, generation, rows, n - 1);
      StagesRoots(db, prior, root, generation);
      EnsureFinds(prior, root, generation, rows[n - 1], p);
    }
  }

  // ---- the sounds of a batch ----------------------------------------------------------------------------

  /** A location of another root, or in a folder that is not there. */
  ghost predicate BadLocation(folders: map<nat, Folder>, root: nat, path: string, row: LocationRow) {
    row.rootPath != path || (row.folder.Some? && FolderAt(folders, root, row.folder.value).None?)
  }

  lemma {:induction false} PutLocationsExactly(db: Db, sound: nat, root: nat, path: string, generation: nat,
                                               rows: seq<LocationRow>, n: nat)
    requires n <= |rows|
    ensures var put := PutLocations(db, sound, root, path, generation, rows, n);
      && (put.Failure? <==> exists j :: 0 <= j < n && BadLocation(db.folders, root, path, rows[j]))
      && (put.Success? ==> put.value.folders == db.folders && put.value.sounds == db.sounds)
  {
    hide FolderAt;
    if n > 0 { PutLocationsExactly(db, sound, root, path, generation, rows, n - 1); }
  }

  ghost predicate BadLocations(folders: map<nat, Folder>, root: nat, path: string, row: SoundRow) {
    exists j :: 0 <= j < |row.locations| && BadLocation(folders, root, path, row.locations[j])
  }

  lemma InsertExactly(db: Db, root: nat, path: string, generation: nat, row: SoundRow)
    ensures var inserted := InsertSound(db, root, path, generation, row);
      && (inserted.Failure? <==> PutSound(db.sounds, row).None? || BadLocations(db.folders, root, path, row))
      && (inserted.Success? ==> inserted.value.folders == db.folders
                                && inserted.value.sounds == PutSound(db.sounds, row).value.0)
  {
    hide PutSound, PutLocations, BadLocation;
    if PutSound(db.sounds, row).Some? {
      var (sounds, id) := PutSound(db.sounds, row).value;
      PutLocationsExactly(db.(sounds := sounds), id, root, path, generation, row.locations, |row.locations|);
    }
  }

  lemma {:induction false} PutSoundsExactly(db: Db, root: nat, path: string, generation: nat, rows: seq<SoundRow>,
                                            n: nat)
    requires n <= |rows|
    ensures var put := PutSounds(db, root, path, generation, rows, n);
      && (put.Failure? <==>
            PutAll(db.sounds, rows, n).None? || exists i :: 0 <= i < n && BadLocations(db.folders, root, path, rows[i]))
      && (put.Success? ==> put.value.folders == db.folders && put.value.sounds == PutAll(db.sounds, rows, n).value)
  {
    hide PutSound, InsertSound, BadLocations;
    if n > 0 {
      PutSoundsExactly(db, root, path, generation, rows, n - 1);
      if PutSounds(db, root, path, generation, rows, n - 1).Success? {
        InsertExactly(PutSounds(db, root, path, generation, rows, n - 1).value, root, path, generation, rows[n - 1]);
      }
    }
  }

  lemma {:induction false} FirstBadLocation(db: Db, sound: nat, root: nat, path: string, generation: nat,
                                            rows: seq<LocationRow>, n: nat, j: nat)
    requires j < n <= |rows| && BadLocation(db.folders, root, path, rows[j])
    requires forall i :: 0 <= i < j ==> !BadLocation(db.folders, root, path, rows[i])
    ensures PutLocations(db, sound, root, path, generation, rows, n)
         == Failure(if rows[j].rootPath != path then InvalidData else Database)
  {
    hide FolderAt;
    if n == j + 1 {
      PutLocationsExactly(db, sound, root, path, generation, rows, j);
    } else {
      FirstBadLocation(db, sound, root, path, generation, rows, n - 1, j);
    }
  }

  /** Some sound has this path. */
  ghost predicate Known(sounds: map<nat, Sound>, path: string) {
    exists s :: s in sounds && sounds[s].path == path
  }

  /** A number beyond its column. */
  ghost predicate TooLarge(row: SoundRow) {
    || row.position > 9_223_372_036_854_775_807
    || (row.details.duration.Some? && row.details.duration.value > 9_223_372_036_854_775_807)
  }

  /** A volume the table does not take, or the public id of another path. */
  ghost predicate NotTaken(sounds: map<nat, Sound>, row: SoundRow) {
    || row.details.volume > 100
    || (!Known(sounds, row.path) && exists s :: s in sounds && sounds[s].publicId == row.publicId)
  }

  lemma PutSoundRefused(sounds: map<nat, Sound>, row: SoundRow)
    ensures PutSound(sounds, row).None? <==> TooLarge(row) || NotTaken(sounds, row)
    ensures Oversized(row) <==> TooLarge(row)
  {
    SoundsThere(sounds, row);
  }

  /**
   What a refused sound row is answered: bad data for a number beyond its column, then a database error
   for a volume the table does not take or a public id of another path, then the first bad location's own
   error, bad data for another root and a database error for a folder that is not there.
   */
  lemma SoundRefusal(db: Db, root: nat, path: string, generation: nat, row: SoundRow)
    ensures var inserted := InsertSound(db, root, path, generation, row);
      && (TooLarge(row) ==> inserted == Failure(InvalidData))
      && (!TooLarge(row) && NotTaken(db.sounds, row) ==> inserted == Failure(Database))
      && (!TooLarge(row) && !NotTaken(db.sounds, row) ==> forall j: nat :: FirstBad(db.folders, root, path, row, j) ==>
            inserted == Failure(if row.locations[j].rootPath != path then InvalidData else Database))
  {
    hide BadLocation, PutLocations, PutSound, TooLarge, NotTaken, Oversized;
    PutSoundRefused(db.sounds, row);
    if PutSound(db.sounds, row).Some? {
      var (sounds, id) := PutSound(db.sounds, row).value;
      forall j: nat | FirstBad(db.folders, root, path, row, j)
        ensures InsertSound(db, root, path, generation, row)
             == Failure(if row.locations[j].rootPath != path then InvalidData else Database)
      {
        FirstBadLocation(db.(sounds := sounds), id, root, path, generation, row.locations, |row.locations|, j);
      }
    }
  }

  ghost predicate FirstBad(folders: map<nat, Folder>, root: nat, path: string, row: SoundRow, j: nat) {
    && j < |row.locations| && BadLocation(folders, root, path, row.locations[j])
    && forall i :: 0 <= i < j ==> !BadLocation(folders, root, path, row.locations[i])
  }

  lemma SoundsThere(sounds: map<nat, Sound>, row: SoundRow)
    ensures SoundAt(sounds, row.path).Some? <==> Known(sounds, row.path)
    ensures SoundNamed(sounds, row.publicId).Some? <==> exists s :: s in sounds && sounds[s].publicId == row.publicId
  {
    if s :| s in sounds && sounds[s].path == row.path { assert s in SoundIdsAt(sounds, row.path); }
    if s :| s in sounds && sounds[s].publicId == row.publicId { assert s in SoundIdsNamed(sounds, row.publicId); }
  }

  // ---- the batch ------------------------------------------------------------------------------------------

  /** Some location of the batch is another root's, or in a folder neither there nor on the way to one of its own. */
  ghost predicate Misplaced(folders: map<nat, Folder>, root: nat, path: string, rows: seq<FolderRow>,
                            sounds: seq<SoundRow>)
  {
    exists i, j :: 0 <= i < |sounds| && 0 <= j < |sounds[i].locations|
      && var location := sounds[i].locations[j];
         location.rootPath != path
         || (location.folder.Some? && !Reachable(folders, root, rows, |rows|, location.folder.value))
  }

  /**
   Exactly when a batch is refused, whoever wrote it: its generation is not the recorded one, a folder
   row has no path or another root, a sound row does not fit its columns or has the public id of
   another path, or a location is another root's or in a folder that is not there.
   */
  lemma BatchRefusedExactly(db: Db, path: string, generation: nat, folders: seq<FolderRow>, sounds: seq<SoundRow>)
    requires Ok(db)
    ensures ApplyBatch(db, path, generation, folders, sounds).Failure? <==>
      || path !in db.scans || db.scans[path] != generation || BadFolder(path, folders, |folders|)
      || Refuses(db.sounds, sounds, |sounds|)
      || exists root :: root in db.roots && db.roots[root].path == path
           && Misplaced(db.folders, root, path, folders, sounds)
  {
    hide TreeState, SoundsOk, LocationsOk, TabsOk, LegacyOk, CustomOk, OwnersOk, RootAt, PutFolders, PutSounds,
         BadFolder, Refuses, Misplaced, RootsOk;
    if Verified(db, path, generation) {
      RootOf(db, path, generation);
      var root := RootAt(db.roots, path).value;
      OnlyRoot(db, path, root);
      PutFoldersExactly(db, root, path, generation, folders, |folders|);
      if PutFolders(db, root, path, generation, folders, |folders|).Success? {
        SoundsRefused(db, root, path, generation, folders, sounds);
      }
    }
  }

  lemma OnlyRoot(db: Db, path: string, root: nat)
    requires Ok(db) && RootAt(db.roots, path) == Some(root)
    ensures forall r :: r in db.roots && db.roots[r].path == path ==> r == root
    ensures root in db.roots && db.roots[root].path == path
  {
    hide TreeState, SoundsOk, LocationsOk, TabsOk, LegacyOk, CustomOk, OwnersOk;
  }

  lemma SoundsRefused(db: Db, root: nat, path: string, generation: nat, folders: seq<FolderRow>, sounds: seq<SoundRow>)
    requires Ok(db) && root in db.roots && db.roots[root].active <= generation
    requires PutFolders(db, root, path, generation, folders, |folders|).Success?
    ensures var tree := PutFolders(db, root, path, generation, folders, |folders|).value;
      PutSounds(tree, root, path, generation, sounds, |sounds|).Failure? <==>
        Refuses(db.sounds, sounds, |sounds|) || Misplaced(db.folders, root, path, folders, sounds)
  {
    hide Ok, PutFolders, PutSounds, PutAll, Refuses, Reachable, FolderAt, Stages;
    var tree := PutFolders(db, root, path, generation, folders, |folders|).value;
    PutFoldersStages(db, root, path, generation, folders, |folders|);
    PutSoundsExactly(tree, root, path, generation, sounds, |sounds|);
    PutAllExactly(db.sounds, sounds, |sounds|);
    forall p ensures FolderAt(tree.folders, root, p).Some? <==> Reachable(db.folders, root, folders, |folders|, p) {
      PutFoldersFind(db, root, path, generation, folders, |folders|, p);
    }
  }

  // ---- folders made on the way ------------------------------------------------------------------------------

  /**
   The folders a row makes lie on its path. The one it names has its name and position, those above it
   the name of their last component and position 0.
   */
  lemma {:induction false} MadeOnTheWay(db: Db, root: nat, generation: nat, row: FolderRow, n: nat, f: nat)
    requires n <= |row.path|
    requires f in EnsurePrefix(db, root, generation, row, n).folders && f !in db.folders
    ensures var made := EnsurePrefix(db, root, generation, row, n).folders[f];
      && made.root == root && made.path != [] && made.path <= row.path && |made.path| <= n
      && (if made.path == row.path then made.name == row.name && made.position == row.position
          else made.name == made.path[|made.path| - 1] && made.position == 0)
  {
    hide FolderAt, LinkUp;
    if n > 0 {
      var prior := EnsurePrefix(db, root, generation, row, n - 1);
      if f in prior.folders {
        MadeOnTheWay(db, root, generation, row, n - 1, f);
      }
      StepMakes(prior, root, generation, row, n, f);
    }
  }

  lemma StepMakes(db: Db, root: nat, generation: nat, row: FolderRow, n: nat, f: nat)
    requires 1 <= n <= |row.path| && f in EnsureStep(db, root, generation, row, n).folders
    ensures var made := EnsureStep(db, root, generation, row, n).folders[f];
      if f in db.folders then
        && made.root == db.folders[f].root && made.path == db.folders[f].path
        && ((made.name == db.folders[f].name && made.position == db.folders[f].position)
            || (n == |row.path| && made.path == row.path && made.name == row.name && made.position == row.position))
      else
        && made.root == root && made.path == row.path[..n]
        && (if n == |row.path| then made.name == row.name && made.position == row.position
            else made.name == row.path[n - 1] && made.position == 0)
  {
    hide LinkUp;
  }
}
