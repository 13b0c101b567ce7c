/**
 The staging half of a root rescan: begin, batches and cancel, and removing a root.
 Each transaction is a function from the old tables to the new ones (or an error that
 leaves them alone) and a method that performs it on the open connection.
 */
module RootScan {
  import opened Wrappers
  import opened Ordering
  import opened Tables
  import opened FolderScan

  datatype LocationRow = LocationRow(rootPath: string, folder: Option<Path>, relativePath: string)

  datatype SoundRow = SoundRow(publicId: string, searchName: string, path: string, position: int, details: Details,
                               locations: seq<LocationRow>)

  // ---- begin -------------------------------------------------------------------

  /** Every generation the root's own row, its presence rows or its locations mention. */
  function Generations(db: Db, root: nat): set<nat>
    requires root in db.roots
  {
    {db.roots[root].active}
    + (set p | p in db.presence && p.folder in db.folders && db.folders[p.folder].root == root :: p.generation)
    + (set k | k in db.locations && k.root == root :: k.generation)
  }

  function UpsertRoot(roots: map<nat, Root>, path: string, position: int): (r: (map<nat, Root>, nat))
    ensures r.1 in r.0 && r.0[r.1].path == path && r.0[r.1].position == position
  {
    match RootAt(roots, path)
    case Some(id) => (roots[id := roots[id].(position := position)], id)
    case None => var id := NextId(roots.Keys); (roots[id := Root(path, position, 0)], id)
  }

  function BeginScan(db: Db, path: string, position: int): (Db, nat) {
    var (roots, root) := UpsertRoot(db.roots, path, position);
    var next := db.(roots := roots);
    var generation := NextId(Generations(next, root));
    (next.(scans := db.scans[path := generation]), generation)
  }

  /** A generation past the largest 64-bit number is an error, and then nothing is written. */
  function TryBegin(db: Db, path: string, position: int): Result<(Db, nat), LibraryError> {
    if BeginScan(db, path, position).1 > I64_MAX then Failure(InvalidData) else Success(BeginScan(db, path, position))
  }

  method BeginRootScan(c: Connection, path: string, position: int) returns (r: Result<nat, LibraryError>)
    modifies c
    ensures match TryBegin(old(c.db), path, position)
      case Failure(e) => r == Failure(e) && c.db == old(c.db)
      case Success((next, generation)) => r == Success(generation) && c.db == next
    ensures old(Ok(c.db)) ==> (r.Failure? <==> old(Exhausted(c.db, path)))
  {
    hide Ok, Exhausted, Generations;
    if Ok(c.db) {
      BeginRefusedExactly(c.db, path, position);
    }
    var tx := new Transaction(c);
    var (roots, root) := UpsertRoot(tx.db.roots, path, position);
    tx.db := tx.db.(roots := roots);
    var generation := NextId(Generations(tx.db, root));
    if generation > I64_MAX {
      return Failure(InvalidData);
    }
    tx.db := tx.db.(scans := tx.db.scans[path := generation]);
    tx.Commit(c);
    return Success(generation);
  }

  predicate Verified(db: Db, path: string, generation: nat) {
    path in db.scans && db.scans[path] == generation
  }

  lemma UpsertedRoots(db: Db, path: string, position: int)
    requires RootsOk(db.roots, db.scans)
    ensures var (roots, root) := UpsertRoot(db.roots, path, position);
      && roots.Keys == db.roots.Keys + {root}
      && (forall r :: r in db.roots ==> roots[r].path == db.roots[r].path && roots[r].active == db.roots[r].active)
      && (root !in db.roots ==> roots[root].active == 0 && forall r :: r in db.roots ==> db.roots[r].path != path)
      && (forall a, b :: a in roots && b in roots && roots[a].path == roots[b].path ==> a == b)
      && RootAt(roots, path) == Some(root)
  {
    var (roots, root) := UpsertRoot(db.roots, path, position);
    if root !in db.roots {
      forall r | r in db.roots ensures db.roots[r].path != path {
        assert r !in RootIds(db.roots, path);
      }
    }
    assert root in RootIds(roots, path);
  }

  /** The row of the roots listing for this path. */
  function RootRow(roots: map<nat, Root>, path: string): Option<Root> {
    match RootAt(roots, path) case None => None case Some(id) => Some(roots[id])
  }

  /** A root's active generation, or that of a root about to be inserted. */
  function ActiveOf(roots: map<nat, Root>, path: string): nat {
    match RootRow(roots, path) case None => 0 case Some(row) => row.active
  }

  /** A begin writes its own root's row, which it inserts if need be, and no other. */
  lemma BeginRow(db: Db, path: string, position: int, other: string)
    requires RootsOk(db.roots, db.scans)
    ensures RootRow(BeginScan(db, path, position).0.roots, other)
         == if other == path then Some(Root(path, position, ActiveOf(db.roots, path))) else RootRow(db.roots, other)
  {
    hide Generations, RootsOk;
    UpsertedRoots(db, path, position);
    var next := UpsertRoot(db.roots, path, position).0;
    assert BeginScan(db, path, position).0.roots == next;
    if other != path {
      assert RootIds(next, other) == RootIds(db.roots, other);
    }
  }

  lemma RootAtFinds(roots: map<nat, Root>, r: nat)
    requires UniqueRoots(roots)
    requires r in roots
    ensures RootAt(roots, roots[r].path) == Some(r)
  {
    assert r in RootIds(roots, roots[r].path);
  }

  /**
   The generation handed out is above the active one and above every row of the root,
   so the new scan starts with no rows of its own.
   */
  lemma BeginScanFresh(db: Db, path: string, position: int)
    requires Ok(db)
    ensures var (next, generation) := BeginScan(db, path, position);
      && Ok(next)
      && Verified(next, path, generation)
      && RootAt(next.roots, path).Some?
      && var root := RootAt(next.roots, path).value;
      && next.roots[root].active < generation
      && (forall p :: p in next.presence && next.folders[p.folder].root == root ==> p.generation < generation)
      && (forall k :: k in next.locations && k.root == root ==> k.generation < generation)
  {
    hide Ok, RootsOk, UpsertRoot, RootAt, Generations;
    var (next, generation) := BeginScan(db, path, position);
    var (roots, root) := UpsertRoot(db.roots, path, position);
    OkRoots(db);
    UpsertedRoots(db, path, position);
    BeginScanGeneration(db.(roots := roots), root);
    BegunRootsOk(db, path, position, generation);
    BeginScanKeeps(db, next);
    OkPresence(db);
  }

  lemma BegunRootsOk(db: Db, path: string, position: int, generation: nat)
    requires RootsOk(db.roots, db.scans)
    requires var (roots, root) := UpsertRoot(db.roots, path, position); roots[root].active < generation
    ensures RootsOk(UpsertRoot(db.roots, path, position).0, db.scans[path := generation])
  {
    hide UpsertRoot, RootAt;
    UpsertedRoots(db, path, position);
    var (roots, root) := UpsertRoot(db.roots, path, position);
    forall p | p in db.scans && p != path ensures RootAt(roots, p).Some? {
      RootAtFinds(roots, RootAt(db.roots, p).value);
    }
  }

  lemma OkPresence(db: Db)
    requires Ok(db)
    ensures forall p :: p in db.presence ==> p.folder in db.folders
  {
    hide TreeOk, ClosureExact, RowsOk;
  }

  /**
   The root has used up its generations: the active one, or that of one of its presence rows or
   locations, is 2^63 - 1, the largest number a column holds.
   */
  ghost predicate ExhaustedRoot(db: Db, root: nat)
    requires root in db.roots
  {
    || db.roots[root].active >= 9_223_372_036_854_775_807
    || (exists p :: p in db.presence && p.folder in db.folders && db.folders[p.folder].root == root
          && p.generation >= 9_223_372_036_854_775_807)
    || (exists k :: k in db.locations && k.root == root && k.generation >= 9_223_372_036_854_775_807)
  }

  ghost predicate Exhausted(db: Db, path: string) {
    exists root :: root in db.roots && db.roots[root].path == path && ExhaustedRoot(db, root)
  }

  lemma ExhaustedReaches(db: Db, root: nat)
    requires root in db.roots
    ensures NextId(Generations(db, root)) > I64_MAX <==> ExhaustedRoot(db, root)
  {
    var keys := Generations(db, root);
    NextIdAbove(keys, I64_MAX);
    assert db.roots[root].active in keys;
    forall p | p in db.presence && p.folder in db.folders && db.folders[p.folder].root == root
      ensures p.generation in keys {}
    forall k | k in db.locations && k.root == root ensures k.generation in keys {}
  }

  lemma NextIdAbove(keys: set<nat>, bound: nat)
    requires keys != {}
    ensures NextId(keys) > bound <==> exists k :: k in keys && k >= bound
  {}

  /** A begin is refused if and only if its root has used up its generations. */
  lemma BeginRefusedExactly(db: Db, path: string, position: int)
    requires Ok(db)
    ensures TryBegin(db, path, position).Failure? <==> Exhausted(db, path)
  {
    hide TreeOk, ClosureExact, PresenceOk, PresenceNew, SoundsOk, TabsOk, LegacyOk, CustomOk, OwnersOk, Generations;
    UpsertedRoots(db, path, position);
    var (roots, root) := UpsertRoot(db.roots, path, position);
    ExhaustedReaches(db.(roots := roots), root);
  }

  lemma BeginScanGeneration(db: Db, root: nat)
    requires root in db.roots
    ensures var generation := NextId(Generations(db, root));
      && db.roots[root].active < generation
      && (forall p :: p in db.presence && p.folder in db.folders && db.folders[p.folder].root == root
            ==> p.generation < generation)
      && (forall k :: k in db.locations && k.root == root ==> k.generation < generation)
  {
    var all := Generations(db, root);
    assert db.roots[root].active in all;
    forall p | p in db.presence && p.folder in db.folders && db.folders[p.folder].root == root
      ensures p.generation in all {}
    forall k | k in db.locations && k.root == root ensures k.generation in all {}
  }

  lemma BeginScanKeeps(db: Db, next: Db)
    requires Ok(db) && RootsOk(next.roots, next.scans)
    requires next == db.(roots := next.roots, scans := next.scans)
    requires forall r :: r in db.roots ==> r in next.roots && next.roots[r].active == db.roots[r].active
    ensures Ok(next)
  {
    hide TreeOk, ClosureExact, PresenceOk, RootsOk, SoundsOk, TabsOk, LegacyOk, CustomOk, OwnersOk;
  }

  // ---- a scanned sound -----------------------------------------------------------

  /** A number of the row is too large for its column, which is noticed before the insert. */
  predicate Oversized(row: SoundRow) {
    row.position > I64_MAX || (row.details.duration.Some? && row.details.duration.value > I64_MAX)
  }

  /** The row fits the table's columns, known sound or not. */
  predicate InColumns(row: SoundRow) {
    !Oversized(row) && row.details.volume <= MAX_VOLUME
  }

  /** INSERT ... ON CONFLICT(path) DO NOTHING, then standalone = 0; a taken public id aborts. */
  function PutSound(sounds: map<nat, Sound>, row: SoundRow): Option<(map<nat, Sound>, nat)> {
    if !InColumns(row) then None
    else match SoundAt(sounds, row.path)
    case Some(id) => Some((sounds[id := sounds[id].(standalone := false)], id))
    case None =>
      if SoundNamed(sounds, row.publicId).Some? then None
      else
        var id := NextId(sounds.Keys);
        Some((sounds[id := Sound(row.publicId, row.searchName, row.path, row.position, row.details, false)], id))
  }

  function PutLocation(db: Db, sound: nat, root: nat, path: string, generation: nat, row: LocationRow)
    : Result<Db, LibraryError>
  {
    if row.rootPath != path then Failure(InvalidData)
    else
      var folder := match row.folder { case None => None case Some(p) => FolderAt(db.folders, root, p) };
      if row.folder.Some? && folder.None? then Failure(Database)
      else Success(db.(locations :=
             db.locations[LocationKey(sound, root, generation) := Location(folder, row.relativePath)]))
  }

  function PutLocations(db: Db, sound: nat, root: nat, path: string, generation: nat,
                        rows: seq<LocationRow>, n: nat): Result<Db, LibraryError>
    requires n <= |rows|
  {
    if n == 0 then Success(db)
    else match PutLocations(db, sound, root, path, generation, rows, n - 1)
         case Failure(e) => Failure(e)
         case Success(prior) => PutLocation(prior, sound, root, path, generation, rows[n - 1])
  }

  function InsertSound(db: Db, root: nat, path: string, generation: nat, row: SoundRow): Result<Db, LibraryError> {
    match PutSound(db.sounds, row)
    case None => Failure(if Oversized(row) then InvalidData else Database)
    case Some((sounds, id)) =>
      PutLocations(db.(sounds := sounds), id, root, path, generation, row.locations, |row.locations|)
  }

  method InsertScanSound(tx: Transaction, root: nat, path: string, generation: nat, row: SoundRow)
    returns (r: Option<LibraryError>)
    modifies tx
    ensures match InsertSound(old(tx.db), root, path, generation, row)
      case Failure(e) => r == Some(e)
      case Success(next) => r == None && tx.db == next
  {
    var put := PutSound(tx.db.sounds, row);
    if put.None? {
      return Some(if Oversized(row) then InvalidData else Database);
    }
    var (sounds, id) := put.value;
    tx.db := tx.db.(sounds := sounds);
    ghost var start := tx.db;
    for index := 0 to |row.locations|
      invariant PutLocations(start, id, root, path, generation, row.locations, index) == Success(tx.db)
    {
      var step := PutLocation(tx.db, id, root, path, generation, row.locations[index]);
      if step.Failure? {
        LocationFailureStops(start, id, root, path, generation, row.locations, index + 1, |row.locations|);
        return Some(step.error);
      }
      tx.db := step.value;
    }
    return None;
  }

  lemma {:induction false} LocationFailureStops(db: Db, sound: nat, root: nat, path: string, generation: nat,
                                                rows: seq<LocationRow>, k: nat, n: nat)
    requires k <= n <= |rows| && PutLocations(db, sound, root, path, generation, rows, k).Failure?
    ensures PutLocations(db, sound, root, path, generation, rows, n)
         == PutLocations(db, sound, root, path, generation, rows, k)
  {
    if k < n {
      LocationFailureStops(db, sound, root, path, generation, rows, k, n - 1);
    }
  }

  // ---- a batch -------------------------------------------------------------------

  function PutFolder(db: Db, root: nat, path: string, generation: nat, row: FolderRow): Result<Db, LibraryError> {
    if row.rootPath != path || row.path == [] then Failure(InvalidData)
    else Success(EnsureFolder(db, root, generation, row))
  }

  function PutFolders(db: Db, root: nat, path: string, generation: nat, rows: seq<FolderRow>, n: nat)
    : Result<Db, LibraryError>
    requires n <= |rows|
  {
    if n == 0 then Success(db)
    else match PutFolders(db, root, path, generation, rows, n - 1)
         case Failure(e) => Failure(e)
         case Success(prior) => PutFolder(prior, root, path, generation, rows[n - 1])
  }

  function PutSounds(db: Db, root: nat, path: string, generation: nat, rows: seq<SoundRow>, n: nat)
    : Result<Db, LibraryError>
    requires n <= |rows|
  {
    if n == 0 then Success(db)
    else match PutSounds(db, root, path, generation, rows, n - 1)
         case Failure(e) => Failure(e)
         case Success(prior) => InsertSound(prior, root, path, generation, rows[n - 1])
  }

  function ApplyBatch(db: Db, path: string, generation: nat, folders: seq<FolderRow>, sounds: seq<SoundRow>)
    : Result<Db, LibraryError>
  {
    if !Verified(db, path, generation) then Failure(InvalidData)
    else match RootAt(db.roots, path)
         case None => Failure(Database)
         case Some(root) =>
           match PutFolders(db, root, path, generation, folders, |folders|)
           case Failure(e) => Failure(e)
           case Success(prior) => PutSounds(prior, root, path, generation, sounds, |sounds|)
  }

  /** All rows of the batch, or none of them. */
  method ApplyRootScanBatch(c: Connection, path: string, generation: nat, folders: seq<FolderRow>,
                            sounds: seq<SoundRow>)
    returns (r: Option<LibraryError>)
    modifies c
    ensures match ApplyBatch(old(c.db), path, generation, folders, sounds)
      case Failure(e) => r == Some(e) && c.db == old(c.db)
      case Success(next) => r == None && c.db == next
  {
    hide EnsureFolder, InsertSound;
    if !Verified(c.db, path, generation) {
      return Some(InvalidData);
    }
    var tx := new Transaction(c);
    var found := RootAt(tx.db.roots, path);
    if found.None? {
      return Some(Database);
    }
    var root := found.value;
    ghost var start := tx.db;
    for index := 0 to |folders|
      invariant c.db == old(c.db)
      invariant PutFolders(start, root, path, generation, folders, index) == Success(tx.db)
    {
      var folder := folders[index];
      if folder.rootPath != path {
        FolderFailureStops(start, root, path, generation, folders, index + 1, |folders|);
        return Some(InvalidData);
      }
      var ensured := EnsureScanFolder(tx, root, generation, folder);
      if ensured.Failure? {
        FolderFailureStops(start, root, path, generation, folders, index + 1, |folders|);
        return Some(ensured.error);
      }
    }
    ghost var middle := tx.db;
    for index := 0 to |sounds|
      invariant c.db == old(c.db)
      invariant PutSounds(middle, root, path, generation, sounds, index) == Success(tx.db)
    {
      var failed := InsertScanSound(tx, root, path, generation, sounds[index]);
      if failed.Some? {
        SoundFailureStops(middle, root, path, generation, sounds, index + 1, |sounds|);
        return failed;
      }
    }
    tx.Commit(c);
    return None;
  }

  lemma {:induction false} FolderFailureStops(db: Db, root: nat, path: string, generation: nat,
                                              rows: seq<FolderRow>, k: nat, n: nat)
    requires k <= n <= |rows| && PutFolders(db, root, path, generation, rows, k).Failure?
    ensures PutFolders(db, root, path, generation, rows, n) == PutFolders(db, root, path, generation, rows, k)
  {
    hide PutFolder;
    if k < n {
      FolderFailureStops(db, root, path, generation, rows, k, n - 1);
    }
  }

  lemma {:induction false} SoundFailureStops(db: Db, root: nat, path: string, generation: nat,
                                             rows: seq<SoundRow>, k: nat, n: nat)
    requires k <= n <= |rows| && PutSounds(db, root, path, generation, rows, k).Failure?
    ensures PutSounds(db, root, path, generation, rows, n) == PutSounds(db, root, path, generation, rows, k)
  {
    hide InsertSound;
    if k < n {
      SoundFailureStops(db, root, path, generation, rows, k, n - 1);
    }
  }

  // ---- cancel and remove -----------------------------------------------------------

  function PresentFolders(db: Db, root: nat, generation: nat): set<Presence> {
    set p | p in db.presence && p.generation == generation && p.folder in db.folders
      && db.folders[p.folder].root == root
  }

  function CancelScan(db: Db, path: string, generation: nat): Db {
    match RootAt(db.roots, path)
    case None => db
    case Some(root) =>
      db.(locations := map k | k in db.locations && !(k.root == root && k.generation == generation) :: db.locations[k],
          presence := db.presence - PresentFolders(db, root, generation),
          scans := db.scans - {path})
  }

  method CancelRootScan(c: Connection, path: string, generation: nat) returns (r: Result<bool, LibraryError>)
    modifies c
    ensures !Verified(old(c.db), path, generation) ==> r == Success(false) && c.db == old(c.db)
    ensures Verified(old(c.db), path, generation) && RootAt(old(c.db.roots), path).None?
      ==> r == Failure(Database) && c.db == old(c.db)
    ensures Verified(old(c.db), path, generation) && RootAt(old(c.db.roots), path).Some?
      ==> r == Success(true) && c.db == CancelScan(old(c.db), path, generation)
  {
    if !Verified(c.db, path, generation) {
      return Success(false);
    }
    var tx := new Transaction(c);
    var found := RootAt(tx.db.roots, path);
    if found.None? {
      return Failure(Database);
    }
    var root := found.value;
    tx.db := tx.db.(locations :=
      map k | k in tx.db.locations && !(k.root == root && k.generation == generation) :: tx.db.locations[k]);
    tx.db := tx.db.(presence := tx.db.presence - PresentFolders(tx.db, root, generation));
    tx.db := tx.db.(scans := tx.db.scans - {path});
    tx.Commit(c);
    return Success(true);
  }
}
