/**
 What a whole scan stages: a location for every visited file, in the folder it lies in, and
 nothing else at the scanned generations.
 */
module ScanFiles {
  import opened Wrappers
  import opened Ordering
  import opened Tables
  import opened FolderScan
  import opened RootScan
  import opened Staging
  import opened Standalone
  import opened ScanOrder
  import opened ScanBatch
  import opened Finish

  /** The files one at a time, each into the scan of its own root. */
  function ScanEach(db: Db, generations: map<string, nat>, files: seq<File>, n: nat): Result<Db, LibraryError>
    requires n <= |files|
  {
    if n == 0 then Success(db)
    else match ScanEach(db, generations, files, n - 1)
         case Failure(e) => Failure(e)
         case Success(prior) => ScanOne(prior, generations, files[n - 1], n - 1)
  }

  function ScanOne(db: Db, generations: map<string, nat>, file: File, position: int): Result<Db, LibraryError> {
    if file.root !in generations || 2 + |file.folder| > MAX_BATCH_ROWS then Failure(InvalidData)
    else match RootAt(db.roots, file.root)
         case None => Failure(Database)
         case Some(root) => ScanFile(db, root, file.root, generations[file.root], file, position)
  }

  /** Every listed root has a scan in progress at its generation. */
  ghost predicate Begun(db: Db, generations: map<string, nat>) {
    forall r :: r in generations ==>
      && Verified(db, r, generations[r])
      && RootAt(db.roots, r).Some?
      && db.roots[RootAt(db.roots, r).value].active < generations[r]
  }

  // ---- one file -------------------------------------------------------------------------------

  /** The folder column of a file's location. */
  function FolderOf(folders: map<nat, Folder>, root: nat, file: File): Option<nat> {
    if file.folder == [] then None else FolderAt(folders, root, file.folder)
  }

  /** The folder the file lies in, if it is not the root itself, is present at the generation. */
  ghost predicate FolderPresent(folders: map<nat, Folder>, presence: set<Presence>, root: nat, generation: nat,
                                file: File) {
    file.folder != [] ==>
      && FolderAt(folders, root, file.folder).Some?
      && Presence(FolderAt(folders, root, file.folder).value, generation) in presence
  }

  /** A scanned file's sound has a location at the generation, in the file's own folder, which is present. */
  ghost predicate Located(db: Db, root: nat, generation: nat, file: File) {
    && SoundAt(db.sounds, file.path).Some?
    && var k := LocationKey(SoundAt(db.sounds, file.path).value, root, generation);
       && k in db.locations
       && db.locations[k] == Location(FolderOf(db.folders, root, file), file.relativePath)
       && FolderPresent(db.folders, db.presence, root, generation, file)
  }

  /** The presence rows a file adds belong to folders on its own path, at the generation. */
  ghost predicate PresentFor(presence: set<Presence>, next: set<Presence>, folders: map<nat, Folder>,
                             root: nat, generation: nat, folder: Path) {
    forall p :: p in next && p !in presence ==>
      && p.generation == generation && p.folder in folders
      && folders[p.folder].root == root && folders[p.folder].path <= folder
  }

  /** Every folder is named after the last component of its path and has position 0. */
  ghost predicate PlainTree(folders: map<nat, Folder>) {
    forall f :: f in folders ==>
      folders[f].path != [] && folders[f].name == folders[f].path[|folders[f].path| - 1] && folders[f].position == 0
  }

  /** Folders that were there keep their names and positions. */
  ghost predicate SameLabels(folders: map<nat, Folder>, next: map<nat, Folder>) {
    forall f :: f in folders ==> f in next && next[f].name == folders[f].name && next[f].position == folders[f].position
  }

  /** On trees named after their paths, same paths mean same labels. */
  lemma PlainLabels(folders: map<nat, Folder>, next: map<nat, Folder>)
    requires PlainTree(folders) && PlainTree(next) && StagesTree(folders, next)
    ensures SameLabels(folders, next)
  {}

  lemma {:induction false} EnsurePlain(db: Db, root: nat, path: string, generation: nat, folder: Path, n: nat)
    requires folder != [] && n <= |folder| && PlainTree(db.folders)
    ensures PlainTree(EnsurePrefix(db, root, generation, RowOf(path, folder), n).folders)
  {
    hide FolderAt, LinkUp, PlainTree;
    if n > 0 {
      EnsurePlain(db, root, path, generation, folder, n - 1);
      StepPlain(EnsurePrefix(db, root, generation, RowOf(path, folder), n - 1), root, path, generation, folder, n);
    }
  }

  lemma StepPlain(db: Db, root: nat, path: string, generation: nat, folder: Path, n: nat)
    requires 1 <= n <= |folder| && PlainTree(db.folders)
    ensures PlainTree(EnsureStep(db, root, generation, RowOf(path, folder), n).folders)
  {
    hide LinkUp;
  }

  /** The tables after one file: one location written, its folder present, its sound in the table. */
  ghost predicate ScannedOne(db: Db, next: Db, root: nat, generation: nat, file: File, position: int) {
    && Ok(next) && Stages(db, next, root, generation)
    && FindsAlike(db, next, root) && PresentFor(db.presence, next.presence, next.folders, root, generation, file.folder)
    && (PlainTree(db.folders) ==> PlainTree(next.folders))
    && SoundAt(next.sounds, file.path).Some?
    && var s := SoundAt(next.sounds, file.path).value;
       var k := LocationKey(s, root, generation);
       && next.sounds.Keys == db.sounds.Keys + {s}
       && next.locations == db.locations[k := Location(FolderOf(next.folders, root, file), file.relativePath)]
       && FolderPresent(next.folders, next.presence, root, generation, file)
       && db.presence <= next.presence
       && next.sounds == db.sounds[s := ScannedSound(db.sounds, s, file, position)]
  }

  /** A new sound takes everything from the file and its place in the walk; a known one only stops being standalone. */
  function ScannedSound(sounds: map<nat, Sound>, s: nat, file: File, position: int): Sound {
    if s in sounds then sounds[s].(standalone := false)
    else Sound(file.publicId, file.searchName, file.path, position, file.details, false)
  }

  lemma PlaceFolder(db: Db, root: nat, path: string, generation: nat, file: File)
    requires Ok(db) && root in db.roots && db.roots[root].active <= generation
    ensures var placed :=
              if file.folder == [] then db else EnsureFolder(db, root, generation, RowOf(path, file.folder));
      && Ok(placed) && Stages(db, placed, root, generation) && FindsAlike(db, placed, root)
      && placed.sounds == db.sounds && placed.locations == db.locations && db.presence <= placed.presence
      && FolderPresent(placed.folders, placed.presence, root, generation, file)
      && PresentFor(db.presence, placed.presence, placed.folders, root, generation, file.folder)
      && (PlainTree(db.folders) ==> PlainTree(placed.folders))
  {
    hide Ok, FindsAlike, PlainTree, EnsurePrefix, StagesTree, StagesPresence, StagesSounds, StagesLocations, Ensured,
         FolderAt;
    if file.folder == [] {
      FindsSelf(db, root);
      StagesSelf(db, root, generation);
    } else {
      var row := RowOf(path, file.folder);
      EnsureFolderStages(db, root, generation, row);
      EnsureFolderKeeps(db, root, generation, row);
      EnsureRegisters(db, root, generation, row);
      TreeFinds(db, EnsureFolder(db, root, generation, row), root);
      assert row.path[..|row.path|] == row.path;
      EnsuredFor(db, EnsureFolder(db, root, generation, row), root, generation, file.folder);
      if PlainTree(db.folders) { EnsurePlain(db, root, path, generation, file.folder, |file.folder|); }
    }
  }

  lemma EnsuredFor(db: Db, next: Db, root: nat, generation: nat, path: Path)
    requires Ensured(db, next, root, generation, path, |path|)
    ensures PresentFor(db.presence, next.presence, next.folders, root, generation, path)
  {
    hide PathIds;
    forall p | p in next.presence && p !in db.presence
      ensures p.generation == generation && p.folder in next.folders
        && next.folders[p.folder].root == root && next.folders[p.folder].path <= path
    {
      assert p in PresentAt(PathIds(next.folders, root, path, |path|), generation);
      PathIdsSound(next.folders, root, path, |path|, p.folder);
      assert path[..|path|] == path;
    }
  }

  lemma InsertOne(db: Db, root: nat, path: string, generation: nat, file: File, position: int)
    requires SoundsOk(db.sounds)
    requires InsertSound(db, root, path, generation, SoundOf(path, file, position)).Success?
    ensures var next := InsertSound(db, root, path, generation, SoundOf(path, file, position)).value;
      && SoundAt(next.sounds, file.path).Some?
      && var s := SoundAt(next.sounds, file.path).value;
      && next.sounds.Keys == db.sounds.Keys + {s}
      && next == db.(sounds := next.sounds, locations := next.locations)
      && next.locations
         == db.locations[LocationKey(s, root, generation) :=
                         Location(FolderOf(db.folders, root, file), file.relativePath)]
      && (file.folder != [] ==> FolderOf(db.folders, root, file).Some?)
      && next.sounds == db.sounds[s := ScannedSound(db.sounds, s, file, position)]
  {
    hide FolderAt, SoundNamed;
    var row := SoundOf(path, file, position);
    PutSoundUnique(db.sounds, row);
    var (sounds, id) := PutSound(db.sounds, row).value;
    SoundAtIs(sounds, id);
    OneLocation(db.(sounds := sounds), id, root, path, generation, row);
  }

  lemma SoundAtIs(sounds: map<nat, Sound>, id: nat)
    requires SoundsOk(sounds) && id in sounds
    ensures SoundAt(sounds, sounds[id].path) == Some(id)
  {
    assert id in SoundIdsAt(sounds, sounds[id].path);
  }

  lemma OneLocation(db: Db, sound: nat, root: nat, path: string, generation: nat, row: SoundRow)
    requires |row.locations| == 1
    ensures PutLocations(db, sound, root, path, generation, row.locations, 1)
         == PutLocation(db, sound, root, path, generation, row.locations[0])
  {
    assert PutLocations(db, sound, root, path, generation, row.locations, 0) == Success(db);
  }

  lemma ScanFileStages(db: Db, root: nat, path: string, generation: nat, file: File, position: int)
    requires Ok(db) && root in db.roots && db.roots[root].active <= generation
    requires ScanFile(db, root, path, generation, file, position).Success?
    ensures var next := ScanFile(db, root, path, generation, file, position).value;
      Ok(next) && Stages(db, next, root, generation)
  {
    hide Ok, EnsureFolder, InsertSound, Stages, FindsAlike, FolderPresent, PresentFor, PlainTree;
    PlaceFolder(db, root, path, generation, file);
    var placed := if file.folder == [] then db else EnsureFolder(db, root, generation, RowOf(path, file.folder));
    assert placed.roots == db.roots by { StagesRoots(db, placed, root, generation); }
    InsertSoundStages(placed, root, path, generation, SoundOf(path, file, position));
    StagesTransitive(db, placed, ScanFile(db, root, path, generation, file, position).value, root, generation);
  }

  lemma ScanFileScans(db: Db, root: nat, path: string, generation: nat, file: File, position: int)
    requires Ok(db) && root in db.roots && db.roots[root].active <= generation
    requires ScanFile(db, root, path, generation, file, position).Success?
    ensures ScannedOne(db, ScanFile(db, root, path, generation, file, position).value, root, generation, file, position)
  {
    hide Ok, Stages, EnsureFolder, InsertSound, FindsAlike, FolderPresent, PresentFor, PlainTree, FolderOf, SoundAt,
         ScannedSound, ScannedOne, SoundOf;
    var next := ScanFile(db, root, path, generation, file, position).value;
    PlaceFolder(db, root, path, generation, file);
    var placed := if file.folder == [] then db else EnsureFolder(db, root, generation, RowOf(path, file.folder));
    OkSounds(placed);
    InsertOne(placed, root, path, generation, file, position);
    ScanFileStages(db, root, path, generation, file, position);
    StagedFinds(db, next, root, generation, root);
    Assemble(db, placed, next, root, generation, file, position);
  }

  /** A folder placed, then a sound and its location put. */
  lemma Assemble(db: Db, placed: Db, next: Db, root: nat, generation: nat, file: File, position: int)
    requires Ok(next) && Stages(db, next, root, generation) && FindsAlike(db, next, root)
    requires placed.sounds == db.sounds && placed.locations == db.locations && db.presence <= placed.presence
    requires FolderPresent(placed.folders, placed.presence, root, generation, file)
    requires PresentFor(db.presence, placed.presence, placed.folders, root, generation, file.folder)
    requires PlainTree(db.folders) ==> PlainTree(placed.folders)
    requires SoundAt(next.sounds, file.path).Some?
    requires var s := SoundAt(next.sounds, file.path).value;
      && next.sounds.Keys == placed.sounds.Keys + {s}
      && next == placed.(sounds := next.sounds, locations := next.locations)
      && next.locations
         == placed.locations[LocationKey(s, root, generation) :=
                             Location(FolderOf(placed.folders, root, file), file.relativePath)]
      && next.sounds == placed.sounds[s := ScannedSound(placed.sounds, s, file, position)]
    ensures ScannedOne(db, next, root, generation, file, position)
  {
    hide Ok, Stages, FindsAlike, FolderPresent, PresentFor, PlainTree, FolderOf, SoundAt, ScannedSound;
  }

  // ---- all files --------------------------------------------------------------------------------

  ghost predicate PresentIn(db: Db, f: nat, root: nat, generation: nat) {
    f in db.folders && db.folders[f].root == root && Presence(f, generation) in db.presence
  }

  /** Some folder on the way to one of the root's first `n` files. */
  ghost predicate Visited(rootPath: string, path: Path, files: seq<File>, n: nat)
    requires n <= |files|
  {
    exists i :: 0 <= i < n && files[i].root == rootPath && path <= files[i].folder
  }

  /**
   At the generation, the root's locations are those of its first `n` files and no others, and no
   folder is present but those on the way to one of them.
   */
  ghost predicate StagedExactly(db: Db, rootPath: string, root: nat, generation: nat, files: seq<File>, n: nat)
    requires n <= |files|
  {
    && (forall i :: 0 <= i < n && files[i].root == rootPath ==> Located(db, root, generation, files[i]))
    && (forall k :: k in db.locations && k.root == root && k.generation == generation ==>
          k.sound in db.sounds
          && exists i :: 0 <= i < n && files[i].root == rootPath && db.sounds[k.sound].path == files[i].path)
    && (forall f :: PresentIn(db, f, root, generation) ==> Visited(rootPath, db.folders[f].path, files, n))
  }

  /** A walk yields every path of a root once; two roots may reach the same path through links. */
  ghost predicate DistinctPaths(files: seq<File>) {
    forall i, j :: 0 <= i < j < |files| ==> files[i].root != files[j].root || files[i].path != files[j].path
  }

  /** A located file stays located when another file is scanned. */
  lemma LocatedStays(db: Db, next: Db, root: nat, generation: nat, scanned: File, position: int, r: nat, g: nat,
                     file: File)
    requires Ok(db) && ScannedOne(db, next, root, generation, scanned, position)
      && (scanned.path != file.path || root != r)
    requires Located(db, r, g, file) && r in db.roots
    ensures Located(next, r, g, file)
  {
    hide PlainTree, TreeState, RootsOk, LocationsOk, TabsOk, LegacyOk, CustomOk, OwnersOk, FolderAt, SoundsOk,
         StagesPresence, StagesLocations, StagesTree;
    var s := SoundAt(db.sounds, file.path).value;
    SoundAtIs(next.sounds, s);
    if file.folder != [] {
      StagedFinds(db, next, root, generation, r);
      var f := FolderAt(db.folders, r, file.folder).value;
      assert FolderAt(next.folders, r, file.folder) == Some(f);
    }
  }

  lemma StagedFinds(db: Db, next: Db, root: nat, generation: nat, r: nat)
    requires Stages(db, next, root, generation) && Ok(next)
    ensures FindsAlike(db, next, r)
  {
    hide RowsOk, ClosureExact, PresenceOk, PresenceNew, StagesPresence, StagesSounds, StagesLocations;
    forall p, id | FolderAt(db.folders, r, p) == Some(id) ensures FolderAt(next.folders, r, p) == Some(id) {
      assert id in FolderIds(next.folders, r, p);
    }
  }

  lemma ScannedIsLocated(db: Db, next: Db, root: nat, generation: nat, file: File, position: int)
    requires ScannedOne(db, next, root, generation, file, position)
    ensures Located(next, root, generation, file)
  {
    hide PlainTree, Ok, Stages, FindsAlike, FolderAt;
  }

  lemma StagedExactlyStep(db: Db, next: Db, scannedRoot: nat, scannedGeneration: nat,
                          rootPath: string, root: nat, generation: nat, files: seq<File>, n: nat)
    requires n < |files| && DistinctPaths(files) && Ok(db) && root in db.roots
    requires ScannedOne(db, next, scannedRoot, scannedGeneration, files[n], n)
    requires files[n].root == rootPath <==> scannedRoot == root
    requires scannedRoot == root ==> scannedGeneration == generation
    requires StagedExactly(db, rootPath, root, generation, files, n)
    ensures StagedExactly(next, rootPath, root, generation, files, n + 1)
  {
    hide PlainTree, Ok, Located, FindsAlike, FolderAt, StagesTree, StagesPresence, StagesLocations;
    forall i | 0 <= i < n + 1 && files[i].root == rootPath ensures Located(next, root, generation, files[i]) {
      if i < n {
        LocatedStays(db, next, scannedRoot, scannedGeneration, files[n], n, root, generation, files[i]);
      } else {
        ScannedIsLocated(db, next, root, generation, files[n], n);
      }
    }
    forall k | k in next.locations && k.root == root && k.generation == generation
      ensures k.sound in next.sounds
        && exists i :: 0 <= i < n + 1 && files[i].root == rootPath && next.sounds[k.sound].path == files[i].path
    {
      StagedExactlyKey(db, next, scannedRoot, scannedGeneration, rootPath, root, generation, files, n, k);
    }
    StagedFolders(db, next, scannedRoot, scannedGeneration, rootPath, root, generation, files, n);
  }

  lemma StagedFolders(db: Db, next: Db, scannedRoot: nat, scannedGeneration: nat,
                      rootPath: string, root: nat, generation: nat, files: seq<File>, n: nat)
    requires n < |files| && Ok(db) && ScannedOne(db, next, scannedRoot, scannedGeneration, files[n], n)
    requires files[n].root == rootPath <==> scannedRoot == root
    requires StagedExactly(db, rootPath, root, generation, files, n)
    ensures forall f :: PresentIn(next, f, root, generation) ==> Visited(rootPath, next.folders[f].path, files, n + 1)
  {
    hide PlainTree, TreeOk, FolderRootsOk, ClosureExact, PresenceNew, RowsOk, Located, FindsAlike, FolderAt,
         StagesPresence, StagesLocations, StagesSounds, SoundAt, Visited;
    forall f | PresentIn(next, f, root, generation) ensures Visited(rootPath, next.folders[f].path, files, n + 1) {
      VisitedGrows(rootPath, next.folders[f].path, files, n);
      assert Presence(f, generation) !in db.presence || PresentIn(db, f, root, generation);
    }
  }

  lemma VisitedGrows(rootPath: string, path: Path, files: seq<File>, n: nat)
    requires n < |files|
    ensures Visited(rootPath, path, files, n) ==> Visited(rootPath, path, files, n + 1)
    ensures files[n].root == rootPath && path <= files[n].folder ==> Visited(rootPath, path, files, n + 1)
  {}

  lemma StagedExactlyKey(db: Db, next: Db, scannedRoot: nat, scannedGeneration: nat,
                         rootPath: string, root: nat, generation: nat, files: seq<File>, n: nat, k: LocationKey)
    requires n < |files| && ScannedOne(db, next, scannedRoot, scannedGeneration, files[n], n)
    requires files[n].root == rootPath <==> scannedRoot == root
    requires StagedExactly(db, rootPath, root, generation, files, n)
    requires k in next.locations && k.root == root && k.generation == generation
    ensures k.sound in next.sounds
      && exists i :: 0 <= i < n + 1 && files[i].root == rootPath && next.sounds[k.sound].path == files[i].path
  {
    hide PlainTree, Ok, Located, FindsAlike, FolderAt, StagesTree, StagesPresence, StagesLocations;
    if k in db.locations {
      var i :| 0 <= i < n && files[i].root == rootPath && db.sounds[k.sound].path == files[i].path;
      assert next.sounds[k.sound].path == files[i].path;
    } else {
      assert files[n].root == rootPath && next.sounds[k.sound].path == files[n].path;
    }
  }

  /** The scanned root is a root of the library, with its scan in progress. */
  lemma ScanOneScans(db: Db, generations: map<string, nat>, file: File, position: int)
    requires Ok(db) && Begun(db, generations) && ScanOne(db, generations, file, position).Success?
    ensures file.root in generations && RootAt(db.roots, file.root).Some?
    ensures var next := ScanOne(db, generations, file, position).value;
            var root := RootAt(db.roots, file.root).value;
      && ScannedOne(db, next, root, generations[file.root], file, position)
      && Begun(next, generations) && SameView(db, next)
  {
    hide PlainTree, Ok, SameView, FolderAt, FindsAlike, PresentFor, FolderPresent, StagesTree, StagesPresence,
         StagesSounds,
         StagesLocations, ScanFile, RootAt;
    var root := RootAt(db.roots, file.root).value;
    ScanFileScans(db, root, file.root, generations[file.root], file, position);
    StagedSameView(db, ScanOne(db, generations, file, position).value, root, generations[file.root]);
  }

  /** The scans of all listed roots hold exactly the first `n` files. */
  ghost predicate AllStaged(db: Db, generations: map<string, nat>, files: seq<File>, n: nat)
    requires n <= |files|
  {
    forall r :: r in generations ==>
      RootAt(db.roots, r).Some? && StagedExactly(db, r, RootAt(db.roots, r).value, generations[r], files, n)
  }

  lemma AllStagedStep(db: Db, next: Db, generations: map<string, nat>, files: seq<File>, n: nat)
    requires n < |files| && DistinctPaths(files) && Ok(db) && next.roots == db.roots
    requires files[n].root in generations && RootAt(db.roots, files[n].root).Some?
    requires ScannedOne(db, next, RootAt(db.roots, files[n].root).value, generations[files[n].root], files[n], n)
    requires AllStaged(db, generations, files, n)
    ensures AllStaged(next, generations, files, n + 1)
  {
    hide Ok, ScannedOne, DistinctPaths, StagedExactly;
    forall r | r in generations
      ensures RootAt(next.roots, r).Some? && StagedExactly(next, r, RootAt(next.roots, r).value, generations[r],
        files, n + 1)
    {
      StagedExactlyStep(db, next, RootAt(db.roots, files[n].root).value, generations[files[n].root],
                        r, RootAt(db.roots, r).value, generations[r], files, n);
    }
  }

  lemma StagedPresentStep(db: Db, next: Db, root: nat, generation: nat, file: File, position: int)
    requires ScannedOne(db, next, root, generation, file, position) && StagedPresent(db)
    ensures StagedPresent(next)
  {
    hide PlainTree, Ok, Stages, FindsAlike, FolderAt, PresentFor;
  }

  /**
   A run of files keeps every scan in progress and changes nothing on show. It names folders after
   their paths and gives them position 0. It stages exactly its
   files, each in its own folder, and every staged location lies in a folder present there.
   */
  lemma {:induction false} ScanEachExact(db: Db, generations: map<string, nat>, files: seq<File>, n: nat)
    requires n <= |files| && Ok(db) && Begun(db, generations)
    requires ScanEach(db, generations, files, n).Success?
    ensures var next := ScanEach(db, generations, files, n).value;
      && Ok(next) && Begun(next, generations) && SameView(db, next)
      && next.roots == db.roots && next.scans == db.scans
      && (StagedPresent(db) ==> StagedPresent(next))
      && (PlainTree(db.folders) ==> PlainTree(next.folders))
      && (DistinctPaths(files) && AllStaged(db, generations, files, 0) ==> AllStaged(next, generations, files, n))
  {
    hide Ok, Begun, SameView, ScanOne, StagedPresent, PlainTree, DistinctPaths, StagedExactly, AllStaged, RootAt,
         FindsAlike, PresentFor, FolderPresent, StagesTree, StagesPresence, StagesSounds, StagesLocations, SoundAt;
    if n == 0 {
      SameViewSelf(db);
    } else {
      var prior := ScanEach(db, generations, files, n - 1).value;
      var next := ScanEach(db, generations, files, n).value;
      ScanEachExact(db, generations, files, n - 1);
      ScanOneScans(prior, generations, files[n - 1], n - 1);
      SameViewTransitive(db, prior, next);
      var root := RootAt(prior.roots, files[n - 1].root).value;
      if StagedPresent(prior) {
        StagedPresentStep(prior, next, root, generations[files[n - 1].root], files[n - 1], n - 1);
      }
      if DistinctPaths(files) && AllStaged(db, generations, files, 0) {
        AllStagedStep(prior, next, generations, files, n - 1);
      }
    }
  }

  // ---- when a file cannot be scanned ----------------------------------------------------------------

  /** The sound rows of the first `n` files. */
  function FileRows(files: seq<File>, n: nat): seq<SoundRow>
    requires n <= |files|
  {
    if n == 0 then [] else FileRows(files, n - 1) + [SoundOf(files[n - 1].root, files[n - 1], n - 1)]
  }

  lemma {:induction false} FileRowsAt(files: seq<File>, n: nat, i: nat)
    requires i < n <= |files|
    ensures |FileRows(files, n)| == n && FileRows(files, n)[i] == SoundOf(files[i].root, files[i], i)
  {
    hide SoundOf;
    if n > 1 { FileRowsAt(files, n - 1, if i < n - 1 then i else 0); }
  }

  lemma {:induction false} FileRowsCount(files: seq<File>, n: nat)
    requires n <= |files|
    ensures |FileRows(files, n)| == n
  {
    if n > 0 { FileRowsAt(files, n, 0); }
  }

  /** A file of a root that is not being scanned, or too deep for any batch. */
  predicate Unscannable(roots: set<string>, file: File) {
    file.root !in roots || 2 + |file.folder| > MAX_BATCH_ROWS
  }

  /**
   Some file has no scan, lies too deep, or has a sound the table refuses: numbers beyond its columns,
   or the public id of another path.
   */
  predicate FilesRefused(sounds: map<nat, Sound>, roots: set<string>, files: seq<File>, n: nat)
    requires n <= |files|
  {
    FileRowsCount(files, n);
    (exists i :: 0 <= i < n && Unscannable(roots, files[i])) || Refuses(sounds, FileRows(files, n), n)
  }

  lemma ScanOnePuts(db: Db, generations: map<string, nat>, file: File, position: int)
    requires Ok(db) && Begun(db, generations)
    ensures var next := ScanOne(db, generations, file, position);
            var put := PutSound(db.sounds, SoundOf(file.root, file, position));
      && (next.Success? <==> !Unscannable(generations.Keys, file) && put.Some?)
      && (next.Success? ==> next.value.sounds == put.value.0)
  {
    hide Ok, PutSound, RootAt, EnsureFolder, InsertSound, FolderAt, FindsAlike, PlainTree, PresentFor, Stages;
    if !Unscannable(generations.Keys, file) {
      var root, generation := RootAt(db.roots, file.root).value, generations[file.root];
      BegunRoot(db, generations, file.root);
      PlaceFolder(db, root, file.root, generation, file);
      var placed := if file.folder == [] then db else EnsureFolder(db, root, generation, RowOf(file.root, file.folder));
      OneInsert(placed, root, file.root, generation, SoundOf(file.root, file, position));
    }
  }

  lemma BegunRoot(db: Db, generations: map<string, nat>, path: string)
    requires Begun(db, generations) && path in generations
    ensures RootAt(db.roots, path).Some? && RootAt(db.roots, path).value in db.roots
    ensures db.roots[RootAt(db.roots, path).value].active < generations[path]
  {}

  lemma {:induction false} ScanEachPuts(db: Db, generations: map<string, nat>, files: seq<File>, n: nat)
    requires n <= |files| && Ok(db) && Begun(db, generations)
    ensures |FileRows(files, n)| == n
    ensures var next, put := ScanEach(db, generations, files, n), PutAll(db.sounds, FileRows(files, n), n);
      && (next.Success? <==> (forall i :: 0 <= i < n ==> !Unscannable(generations.Keys, files[i])) && put.Some?)
      && (next.Success? ==> next.value.sounds == put.value)
  {
    hide Ok, Begun, SameView, ScanOne, PutSound, SoundOf, StagedPresent, PlainTree, DistinctPaths, AllStaged, RootAt,
         Unscannable;
    if n > 0 {
      ScanEachPuts(db, generations, files, n - 1);
      PutAllPrefix(db.sounds, FileRows(files, n - 1), [SoundOf(files[n - 1].root, files[n - 1], n - 1)], n - 1);
      if ScanEach(db, generations, files, n - 1).Success? {
        ScanEachExact(db, generations, files, n - 1);
        ScanOnePuts(ScanEach(db, generations, files, n - 1).value, generations, files[n - 1], n - 1);
      }
    }
  }

  /** Exactly when a run of files cannot be scanned, read off the files and the sounds before the run. */
  lemma ScanEachFailsExactly(db: Db, generations: map<string, nat>, files: seq<File>, n: nat)
    requires n <= |files| && Ok(db) && Begun(db, generations)
    ensures ScanEach(db, generations, files, n).Failure? <==> FilesRefused(db.sounds, generations.Keys, files, n)
  {
    hide Ok, Begun, ScanEach, PutAll, Refuses, Unscannable;
    ScanEachPuts(db, generations, files, n);
    PutAllExactly(db.sounds, FileRows(files, n), n);
  }

  /** None of the first `n` files has this path. */
  predicate Unvisited(files: seq<File>, n: nat, path: string)
    requires n <= |files|
  {
    forall i | 0 <= i < n :: files[i].path != path
  }

  lemma ScannedFlag(db: Db, next: Db, root: nat, generation: nat, file: File, position: int, s: nat)
    requires ScannedOne(db, next, root, generation, file, position) && s in db.sounds
    ensures s in next.sounds && next.sounds[s].path == db.sounds[s].path
    ensures next.sounds[s].standalone <==> db.sounds[s].standalone && file.path != db.sounds[s].path
  {
    hide PlainTree, TreeState, RootsOk, LocationsOk, TabsOk, LegacyOk, CustomOk, OwnersOk, Stages, FindsAlike,
         PresentFor, FolderPresent, FolderOf;
  }

  /** Scanning files takes the standalone flag off their own sounds and off no other. */
  lemma {:induction false} ScanEachFlag(db: Db, generations: map<string, nat>, files: seq<File>, n: nat, s: nat)
    requires n <= |files| && Ok(db) && Begun(db, generations) && s in db.sounds
    requires ScanEach(db, generations, files, n).Success?
    ensures var next := ScanEach(db, generations, files, n).value;
      && s in next.sounds && next.sounds[s].path == db.sounds[s].path
      && (next.sounds[s].standalone <==> db.sounds[s].standalone && Unvisited(files, n, db.sounds[s].path))
  {
    hide Ok, Begun, SameView, ScanOne, StagedPresent, PlainTree, DistinctPaths, AllStaged, RootAt, ScannedOne;
    if n > 0 {
      var prior := ScanEach(db, generations, files, n - 1).value;
      ScanEachFlag(db, generations, files, n - 1, s);
      ScanEachExact(db, generations, files, n - 1);
      ScanOneScans(prior, generations, files[n - 1], n - 1);
      ScannedFlag(prior, ScanEach(db, generations, files, n).value, RootAt(prior.roots, files[n - 1].root).value,
                  generations[files[n - 1].root], files[n - 1], n - 1, s);
    }
  }

  lemma {:induction false} ScanEachStops(db: Db, generations: map<string, nat>, files: seq<File>, k: nat, n: nat)
    requires k <= n <= |files| && ScanEach(db, generations, files, k).Failure?
    ensures ScanEach(db, generations, files, n).Failure?
  {
    hide ScanOne;
    if k < n { ScanEachStops(db, generations, files, k, n - 1); }
  }
}
