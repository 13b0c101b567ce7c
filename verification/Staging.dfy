/**
 Snapshot isolation of a rescan: presence and location rows are written at the scanned generation
 only, so the rows the active generation shows do not change until the scan finishes. What batches
 and begins write outside it is in `Standalone` and `Labels`.
 */
module Staging {
  import opened Wrappers
  import opened Ordering
  import opened Tables
  import opened FolderScan
  import opened RootScan

  /**
   `next` differs from `db` only in rows of `root` at `generation`, in new folders and sounds, in the
   names and positions of folders, and in standalone flags taken off.
   */
  ghost predicate Stages(db: Db, next: Db, root: nat, generation: nat) {
    && next == db.(folders := next.folders, presence := next.presence, closure := next.closure,
                   sounds := next.sounds, locations := next.locations)
    && StagesTree(db.folders, next.folders)
    && StagesPresence(next.folders, db.presence, next.presence, root, generation)
    && StagesSounds(db.sounds, next.sounds)
    && StagesLocations(db.locations, next.locations, root, generation)
  }

  ghost predicate StagesTree(folders: map<nat, Folder>, next: map<nat, Folder>) {
    forall f :: f in folders ==>
      && f in next
      && next[f].root == folders[f].root
      && next[f].parent == folders[f].parent
      && next[f].path == folders[f].path
  }

  ghost predicate StagesPresence(folders: map<nat, Folder>, presence: set<Presence>, next: set<Presence>,
                                 root: nat, generation: nat) {
    forall p: Presence :: (p in presence) != (p in next)
      ==> p.generation == generation && p.folder in folders && folders[p.folder].root == root
  }

  /** Standalone flags only go off, and a new sound has it off. */
  ghost predicate StagesSounds(sounds: map<nat, Sound>, next: map<nat, Sound>) {
    && (forall s :: s in sounds ==>
          && s in next && next[s].(standalone := false) == sounds[s].(standalone := false)
          && (next[s].standalone ==> sounds[s].standalone))
    && (forall s :: s in next && s !in sounds ==> !next[s].standalone)
  }

  ghost predicate StagesLocations(locations: map<LocationKey, Location>, next: map<LocationKey, Location>,
                                  root: nat, generation: nat) {
    forall k: LocationKey :: !(k.root == root && k.generation == generation)
      ==> (k in locations <==> k in next) && (k in locations ==> next[k] == locations[k])
  }

  lemma StagesTransitive(a: Db, b: Db, c: Db, root: nat, generation: nat)
    requires Stages(a, b, root, generation) && Stages(b, c, root, generation)
    ensures Stages(a, c, root, generation)
  {
    assert StagesPresence(c.folders, a.presence, c.presence, root, generation) by {
      hide StagesSounds, StagesLocations;
    }
    assert StagesSounds(a.sounds, c.sounds) by { hide StagesTree, StagesPresence, StagesLocations; }
    assert StagesLocations(a.locations, c.locations, root, generation) by {
      hide StagesTree, StagesPresence, StagesSounds;
    }
  }

  // ---- folders of a batch ----------------------------------------------------------

  lemma EnsureFolderStages(db: Db, root: nat, generation: nat, row: FolderRow)
    requires Ok(db) && root in db.roots && db.roots[root].active <= generation
    ensures var next := EnsureFolder(db, root, generation, row);
      Ok(next) && Stages(db, next, root, generation) && next.sounds == db.sounds && next.locations == db.locations
  {
    hide Ok, EnsureFolder, Ensured;
    var next := EnsureFolder(db, root, generation, row);
    EnsureFolderKeeps(db, root, generation, row);
    EnsuredPresence(db, next, root, generation, row.path);
  }

  lemma EnsuredPresence(db: Db, next: Db, root: nat, generation: nat, path: Path)
    requires Ensured(db, next, root, generation, path, |path|)
    ensures StagesPresence(next.folders, db.presence, next.presence, root, generation)
  {
    forall p | (p in db.presence) != (p in next.presence)
      ensures p.generation == generation && p.folder in next.folders && next.folders[p.folder].root == root
    {
      assert p in PresentAt(PathIds(next.folders, root, path, |path|), generation);
      PathIdsSound(next.folders, root, path, |path|, p.folder);
    }
  }

  /** A successful run of folder rows keeps the invariant and touches no sound. */
  lemma {:induction false} PutFoldersStages(db: Db, root: nat, path: string, generation: nat,
                                            rows: seq<FolderRow>, n: nat)
    requires Ok(db) && root in db.roots && db.roots[root].active <= generation
    requires n <= |rows| && PutFolders(db, root, path, generation, rows, n).Success?
    ensures var next := PutFolders(db, root, path, generation, rows, n).value;
      Ok(next) && Stages(db, next, root, generation) && next.sounds == db.sounds && next.locations == db.locations
  {
    hide Ok, EnsureFolder, StagesTree, StagesPresence, StagesSounds, StagesLocations;
    if n == 0 {
      StagesSelf(db, root, generation);
    } else {
      var prior := PutFolders(db, root, path, generation, rows, n - 1).value;
      PutFoldersStages(db, root, path, generation, rows, n - 1);
      EnsureFolderStages(prior, root, generation, rows[n - 1]);
      StagesTransitive(db, prior, EnsureFolder(prior, root, generation, rows[n - 1]), root, generation);
    }
  }

  lemma StagesSelf(db: Db, root: nat, generation: nat)
    ensures Stages(db, db, root, generation)
  {}

  // ---- sounds of a batch -----------------------------------------------------------

  lemma PutSoundKeeps(db: Db, root: nat, generation: nat, row: SoundRow)
    requires Ok(db) && PutSound(db.sounds, row).Some?
    ensures var (sounds, id) := PutSound(db.sounds, row).value;
      && id in sounds && sounds[id].path == row.path
      && Ok(db.(sounds := sounds)) && Stages(db, db.(sounds := sounds), root, generation)
  {
    hide TreeState, PutSound, SoundsOk, StagesSounds;
    PutSoundUnique(db.sounds, row);
    SoundsGrow(db, PutSound(db.sounds, row).value.0, root, generation);
  }

  lemma SoundsGrow(db: Db, sounds: map<nat, Sound>, root: nat, generation: nat)
    requires Ok(db) && SoundsOk(sounds) && StagesSounds(db.sounds, sounds)
    ensures Ok(db.(sounds := sounds)) && Stages(db, db.(sounds := sounds), root, generation)
  {
    hide TreeState, RowsOk, SoundsOk;
    MoreSounds(db, sounds);
  }

  lemma MoreSounds(db: Db, sounds: map<nat, Sound>)
    requires Ok(db) && SoundsOk(sounds) && db.sounds.Keys <= sounds.Keys
    ensures Ok(db.(sounds := sounds))
  {
    hide TreeOk, FolderRootsOk, ClosureExact, PresenceOk, PresenceNew, RootsOk, SoundsOk;
  }

  lemma PutSoundUnique(sounds: map<nat, Sound>, row: SoundRow)
    requires SoundsOk(sounds) && PutSound(sounds, row).Some?
    ensures var (next, id) := PutSound(sounds, row).value;
      && SoundsOk(next) && next.Keys == sounds.Keys + {id} && StagesSounds(sounds, next)
      && (forall s :: s in sounds && s != id ==> next[s] == sounds[s])
      && next[id].path == row.path && !next[id].standalone
  {
    hide SoundAt, SoundNamed, StagesSounds;
    PutSoundKeys(sounds, row);
    var id := PutSound(sounds, row).value.1;
    if SoundAt(sounds, row.path).None? {
      NewSoundDiffers(sounds, row);
    }
    assert StagesSounds(sounds, PutSound(sounds, row).value.0) by { PutSoundStages(sounds, row); }
  }

  lemma PutSoundKeys(sounds: map<nat, Sound>, row: SoundRow)
    requires PutSound(sounds, row).Some?
    ensures var (next, id) := PutSound(sounds, row).value;
      && next.Keys == sounds.Keys + {id} && (forall s :: s in sounds && s != id ==> next[s] == sounds[s])
      && next[id].path == row.path && !next[id].standalone
  {
    hide SoundNamed;
  }

  lemma NewSoundDiffers(sounds: map<nat, Sound>, row: SoundRow)
    requires SoundAt(sounds, row.path).None? && SoundNamed(sounds, row.publicId).None?
    ensures forall s :: s in sounds ==> sounds[s].path != row.path && sounds[s].publicId != row.publicId
  {
    forall s | s in sounds ensures sounds[s].path != row.path && sounds[s].publicId != row.publicId {
      assert s !in SoundIdsAt(sounds, row.path);
      assert s !in SoundIdsNamed(sounds, row.publicId);
    }
  }

  lemma PutSoundStages(sounds: map<nat, Sound>, row: SoundRow)
    requires PutSound(sounds, row).Some?
    ensures StagesSounds(sounds, PutSound(sounds, row).value.0)
  {
    hide SoundNamed;
  }

  lemma PutLocationKeeps(db: Db, sound: nat, root: nat, path: string, generation: nat, row: LocationRow)
    requires Ok(db) && sound in db.sounds && root in db.roots && db.roots[root].active <= generation
    requires PutLocation(db, sound, root, path, generation, row).Success?
    ensures var next := PutLocation(db, sound, root, path, generation, row).value;
      && Ok(next) && Stages(db, next, root, generation) && next == db.(locations := next.locations)
  {
    hide TreeOk, FolderRootsOk, ClosureExact, PresenceOk, PresenceNew, RootsOk, SoundsOk, TabsOk, LegacyOk, CustomOk,
         OwnersOk;
  }

  lemma {:induction false} PutLocationsKeeps(db: Db, sound: nat, root: nat, path: string, generation: nat,
                                             rows: seq<LocationRow>, n: nat)
    requires Ok(db) && sound in db.sounds && root in db.roots && db.roots[root].active <= generation
    requires n <= |rows| && PutLocations(db, sound, root, path, generation, rows, n).Success?
    ensures var next := PutLocations(db, sound, root, path, generation, rows, n).value;
      && Ok(next) && Stages(db, next, root, generation) && next == db.(locations := next.locations)
  {
    hide Ok, PutLocation, StagesTree, StagesPresence, StagesSounds, StagesLocations;
    if n == 0 {
      StagesSelf(db, root, generation);
    } else {
      var prior := PutLocations(db, sound, root, path, generation, rows, n - 1).value;
      PutLocationsKeeps(db, sound, root, path, generation, rows, n - 1);
      PutLocationKeeps(prior, sound, root, path, generation, rows[n - 1]);
      StagesTransitive(db, prior, PutLocation(prior, sound, root, path, generation, rows[n - 1]).value, root,
        generation);
    }
  }

  lemma InsertSoundStages(db: Db, root: nat, path: string, generation: nat, row: SoundRow)
    requires Ok(db) && root in db.roots && db.roots[root].active <= generation
    requires InsertSound(db, root, path, generation, row).Success?
    ensures var next := InsertSound(db, root, path, generation, row).value;
      Ok(next) && Stages(db, next, root, generation)
  {
    hide Ok, PutSound, PutLocations, StagesTree, StagesPresence, StagesSounds, StagesLocations;
    PutSoundKeeps(db, root, generation, row);
    var (sounds, id) := PutSound(db.sounds, row).value;
    PutLocationsKeeps(db.(sounds := sounds), id, root, path, generation, row.locations, |row.locations|);
    StagesTransitive(db, db.(sounds := sounds), InsertSound(db, root, path, generation, row).value, root, generation);
  }

  lemma {:induction false} PutSoundsStages(db: Db, root: nat, path: string, generation: nat,
                                           rows: seq<SoundRow>, n: nat)
    requires Ok(db) && root in db.roots && db.roots[root].active <= generation
    requires n <= |rows| && PutSounds(db, root, path, generation, rows, n).Success?
    ensures var next := PutSounds(db, root, path, generation, rows, n).value;
      Ok(next) && Stages(db, next, root, generation)
  {
    hide Ok, InsertSound, StagesTree, StagesPresence, StagesSounds, StagesLocations;
    if n == 0 {
      StagesSelf(db, root, generation);
    } else {
      var prior := PutSounds(db, root, path, generation, rows, n - 1).value;
      PutSoundsStages(db, root, path, generation, rows, n - 1);
      InsertSoundStages(prior, root, path, generation, rows[n - 1]);
      StagesTransitive(db, prior, InsertSound(prior, root, path, generation, rows[n - 1]).value, root, generation);
    }
  }

  /** A batch that succeeds keeps the invariant and writes only its own root and generation. */
  lemma ApplyBatchStages(db: Db, path: string, generation: nat, folders: seq<FolderRow>, sounds: seq<SoundRow>)
    requires Ok(db) && ApplyBatch(db, path, generation, folders, sounds).Success?
    ensures var next := ApplyBatch(db, path, generation, folders, sounds).value;
      && RootAt(db.roots, path).Some?
      && var root := RootAt(db.roots, path).value;
      && db.roots[root].active < generation
      && Ok(next) && Stages(db, next, root, generation)
  {
    hide TreeState, SoundsOk, LocationsOk, TabsOk, LegacyOk, CustomOk, OwnersOk,
         PutFolders, PutSounds, StagesTree, StagesPresence, StagesSounds, StagesLocations;
    var root := RootAt(db.roots, path).value;
    var prior := PutFolders(db, root, path, generation, folders, |folders|).value;
    PutFoldersStages(db, root, path, generation, folders, |folders|);
    PutSoundsStages(prior, root, path, generation, sounds, |sounds|);
    StagesTransitive(db, prior, PutSounds(prior, root, path, generation, sounds, |sounds|).value, root, generation);
  }

  // ---- cancel --------------------------------------------------------------------------

  lemma CancelStages(db: Db, path: string, generation: nat)
    requires Ok(db) && Verified(db, path, generation)
    ensures var next := CancelScan(db, path, generation);
      && RootAt(db.roots, path).Some?
      && var root := RootAt(db.roots, path).value;
      && db.roots[root].active < generation
      && Ok(next) && Stages(db.(scans := db.scans - {path}), next, root, generation)
      && next.folders == db.folders && next.sounds == db.sounds
  {
    hide TreeOk, ClosureExact, PresenceOk, PresenceNew, RootsOk, LocationsOk, SoundsOk, TabsOk, LegacyOk, CustomOk,
         OwnersOk;
    CancelScans(db, path, generation);
    CancelPresence(db, RootAt(db.roots, path).value, generation);
    CancelLocations(db, RootAt(db.roots, path).value, generation);
  }

  lemma CancelScans(db: Db, path: string, generation: nat)
    requires RootsOk(db.roots, db.scans) && Verified(db, path, generation)
    ensures RootAt(db.roots, path).Some? && db.roots[RootAt(db.roots, path).value].active < generation
    ensures RootsOk(db.roots, db.scans - {path})
  {}

  lemma CancelLocations(db: Db, root: nat, generation: nat)
    requires LocationsOk(db.locations, db.sounds, db.roots, db.folders)
    requires PresenceNew(db.folders, db.presence, db.roots)
    ensures LocationsOk(map k | k in db.locations && !(k.root == root && k.generation == generation) :: db.locations[k],
                        db.sounds, db.roots, db.folders)
    ensures PresenceNew(db.folders, db.presence - PresentFolders(db, root, generation), db.roots)
  {}

  lemma CancelPresence(db: Db, root: nat, generation: nat)
    requires TreeOk(db.folders) && PresenceOk(db.folders, db.presence)
    ensures PresenceOk(db.folders, db.presence - PresentFolders(db, root, generation))
  {
    var next := db.presence - PresentFolders(db, root, generation);
    forall p | p in next ensures ParentPresent(db.folders, next, p) {
      assert ParentPresent(db.folders, db.presence, p) && ParentOk(db.folders, p.folder);
    }
  }

  // ---- what a user can see --------------------------------------------------------------

  ghost predicate SameRoots(roots: map<nat, Root>, next: map<nat, Root>) {
    forall r :: r in roots ==> r in next && next[r].path == roots[r].path && next[r].active == roots[r].active
  }

  /** Folder `f` is on show at its root's active generation. */
  ghost predicate OnShow(db: Db, f: nat) {
    && f in db.folders && db.folders[f].root in db.roots
    && Presence(f, db.roots[db.folders[f].root].active) in db.presence
  }

  /**
   What the queries show, apart from what begins and batches write at once (standalone flags that go
   off, names and positions of folders, the list of roots and their positions): root generations,
   folders on show and their effective sounds, sounds live by their rows, manual and legacy tabs,
   preferences, overrides and hotkeys. No standalone flag goes on, and no new sound has one.
   */
  ghost predicate SameView(db: Db, next: Db) {
    && SameRoots(db.roots, next.roots)
    && StagesTree(db.folders, next.folders)
    && StagesSounds(db.sounds, next.sounds)
    && next.tabs == db.tabs && next.memberships == db.memberships
    && next.prefs == db.prefs && next.overrides == db.overrides && next.bindings == db.bindings
    && next.legacyTabs == db.legacyTabs && next.legacyMemberships == db.legacyMemberships
    && (forall s :: LiveByRows(next, s) <==> LiveByRows(db, s))
    && (forall f :: OnShow(next, f) <==> OnShow(db, f))
    && (forall f :: OnShow(db, f) ==>
          var active := db.roots[db.folders[f].root].active;
          Effective(next, f, active) == Effective(db, f, active))
  }

  lemma SameViewTransitive(a: Db, b: Db, c: Db)
    requires SameView(a, b) && SameView(b, c)
    ensures SameView(a, c)
  {
    hide LiveByRows, Effective;
  }

  /** A folder row that was there before has exactly the ancestors it had before. */
  lemma OldAncestors(db: Db, next: Db, a: nat, d: nat)
    requires TreeState(db) && TreeState(next) && StagesTree(db.folders, next.folders) && d in db.folders
    ensures Link(a, d) in next.closure <==> Link(a, d) in db.closure
  {
    hide FolderRootsOk, PresenceOk, PresenceNew;
    if AncestorOrSelf(next.folders, a, d) && a !in db.folders {
      var n := |next.folders[a].path|;
      assert ParentOk(next.folders, a);
      assert db.folders[d].path[..n] == next.folders[a].path;
      PrefixFolderExists(db.folders, d, n);
    }
  }

  lemma StagedHidden(db: Db, next: Db, root: nat, generation: nat, f: nat)
    requires Ok(db) && Ok(next) && Stages(db, next, root, generation) && f in db.folders
    ensures HiddenFolder(next, f) <==> HiddenFolder(db, f)
  {
    hide TreeState, SoundsOk, RootsOk, LocationsOk, TabsOk, LegacyOk, CustomOk, OwnersOk,
         StagesPresence, StagesSounds, StagesLocations;
    forall l: Link | l.descendant == f ensures l in next.closure <==> l in db.closure {
      OldAncestors(db, next, l.ancestor, f);
      assert l == Link(l.ancestor, f);
    }
  }

  lemma StagedShown(db: Db, next: Db, root: nat, generation: nat, k: LocationKey)
    requires Ok(db) && Ok(next) && Stages(db, next, root, generation)
    requires root in db.roots && db.roots[root].active < generation
    ensures (k in next.locations && Shown(next, k)) <==> (k in db.locations && Shown(db, k))
  {
    hide TreeState, RootsOk, SoundsOk, TabsOk, LegacyOk, CustomOk, OwnersOk, HiddenFolder,
         StagesTree, StagesPresence, StagesSounds;
    if !(k.root == root && k.generation == generation) && k in db.locations && db.locations[k].folder.Some? {
      StagedHidden(db, next, root, generation, db.locations[k].folder.value);
    }
  }

  lemma StagedLive(db: Db, next: Db, root: nat, generation: nat)
    requires Ok(db) && Ok(next) && Stages(db, next, root, generation)
    requires root in db.roots && db.roots[root].active < generation
    ensures forall s :: LiveByRows(next, s) <==> LiveByRows(db, s)
  {
    hide Ok, Shown, StagesTree, StagesPresence, StagesSounds, StagesLocations;
    forall k ensures (k in next.locations && Shown(next, k)) <==> (k in db.locations && Shown(db, k)) {
      StagedShown(db, next, root, generation, k);
    }
  }

  lemma StagedOnShow(db: Db, next: Db, root: nat, generation: nat, f: nat)
    requires Ok(db) && Ok(next) && Stages(db, next, root, generation)
    requires root in db.roots && db.roots[root].active < generation
    ensures OnShow(next, f) <==> OnShow(db, f)
  {
    hide TreeOk, ClosureExact, PresenceNew, RowsOk, StagesSounds, StagesLocations;
  }

  lemma StagedPhysical(db: Db, next: Db, root: nat, generation: nat, f: nat, g: nat)
    requires Ok(db) && Ok(next) && Stages(db, next, root, generation)
    requires f in db.folders && !(db.folders[f].root == root && g == generation)
    ensures Physical(next, f, g) == Physical(db, f, g)
  {
    hide TreeState, RootsOk, SoundsOk, TabsOk, LegacyOk, CustomOk, OwnersOk, StagesPresence, StagesSounds;
    forall k | k in db.locations && k.root == db.folders[f].root && k.generation == g && db.locations[k].folder.Some?
      ensures Link(f, db.locations[k].folder.value) in next.closure <==>
        Link(f, db.locations[k].folder.value) in db.closure
    {
      OldAncestors(db, next, f, db.locations[k].folder.value);
    }
  }

  /** Writing rows of a generation above the active one changes nothing a user can see. */
  lemma StagedSameView(db: Db, next: Db, root: nat, generation: nat)
    requires Ok(db) && Ok(next) && Stages(db, next, root, generation)
    requires root in db.roots && db.roots[root].active < generation
    ensures SameView(db, next)
  {
    hide Ok, LiveByRows, Physical, OnShow, StagesTree, StagesPresence, StagesSounds, StagesLocations;
    StagedLive(db, next, root, generation);
    forall f ensures OnShow(next, f) <==> OnShow(db, f) {
      StagedOnShow(db, next, root, generation, f);
    }
    StagedEffective(db, next, root, generation);
  }

  lemma StagedEffective(db: Db, next: Db, root: nat, generation: nat)
    requires Ok(db) && Ok(next) && Stages(db, next, root, generation)
    requires root in db.roots && db.roots[root].active < generation
    ensures forall f :: OnShow(db, f) ==>
      var active := db.roots[db.folders[f].root].active;
      Effective(next, f, active) == Effective(db, f, active)
  {
    hide Ok, Physical, StagesTree, StagesPresence, StagesSounds, StagesLocations;
    forall f | OnShow(db, f)
      ensures var active := db.roots[db.folders[f].root].active;
        Effective(next, f, active) == Effective(db, f, active)
    {
      StagedPhysical(db, next, root, generation, f, db.roots[db.folders[f].root].active);
      assert Overridden(next, f, Include) == Overridden(db, f, Include);
      assert Overridden(next, f, Exclude) == Overridden(db, f, Exclude);
    }
  }

  // ---- whole runs of the staging protocol ------------------------------------------------

  datatype Staging =
    | Begin(path: string, position: int)
    | Batch(path: string, generation: nat, folders: seq<FolderRow>, sounds: seq<SoundRow>)
    | Cancel(path: string, generation: nat)

  function Perform(db: Db, step: Staging): Db {
    match step
    case Begin(path, position) =>
      (match TryBegin(db, path, position)
       case Success((next, _)) => next
       case Failure(_) => db)
    case Batch(path, generation, folders, sounds) =>
      (match ApplyBatch(db, path, generation, folders, sounds)
       case Success(next) => next
       case Failure(_) => db)
    case Cancel(path, generation) =>
      if Verified(db, path, generation) then CancelScan(db, path, generation) else db
  }

  function Run(db: Db, steps: seq<Staging>): Db
    decreases |steps|
  {
    if steps == [] then db else Run(Perform(db, steps[0]), steps[1..])
  }

  lemma SameViewSelf(db: Db)
    ensures SameView(db, db)
  {
    hide LiveByRows, Effective;
  }

  lemma BeginSameView(db: Db, path: string, position: int)
    requires Ok(db)
    ensures SameView(db, BeginScan(db, path, position).0)
  {
    hide TreeOk, ClosureExact, PresenceOk, PresenceNew, SoundsOk, TabsOk, LegacyOk, CustomOk, OwnersOk,
         Generations, LiveByRows, Effective, OnShow;
    UpsertedRoots(db, path, position);
    var next := BeginScan(db, path, position).0;
    assert next == db.(roots := next.roots, scans := next.scans);
    BeginFrame(db, next);
  }

  lemma BeginFrame(db: Db, next: Db)
    requires next == db.(roots := next.roots, scans := next.scans) && SameRoots(db.roots, next.roots)
    requires FolderRootsOk(db.folders, db.roots)
    requires LocationsOk(db.locations, db.sounds, db.roots, db.folders)
    ensures SameView(db, next)
  {
    forall f, g ensures Effective(next, f, g) == Effective(db, f, g) {
      assert Physical(next, f, g) == Physical(db, f, g);
      assert Overridden(next, f, Include) == Overridden(db, f, Include);
      assert Overridden(next, f, Exclude) == Overridden(db, f, Exclude);
    }
    forall s ensures LiveByRows(next, s) <==> LiveByRows(db, s) {
      forall k | k in db.locations ensures Shown(next, k) <==> Shown(db, k) {
        forall f ensures HiddenFolder(next, f) <==> HiddenFolder(db, f) {}
      }
    }
  }

  lemma PerformInvisible(db: Db, step: Staging)
    requires Ok(db)
    ensures Ok(Perform(db, step)) && SameView(db, Perform(db, step))
  {
    hide Ok, SameView, ApplyBatch, CancelScan, BeginScan, Stages;
    SameViewSelf(db);
    match step {
      case Begin(path, position) =>
        BeginScanFresh(db, path, position);
        BeginSameView(db, path, position);
      case Batch(path, generation, folders, sounds) =>
        if ApplyBatch(db, path, generation, folders, sounds).Success? {
          ApplyBatchStages(db, path, generation, folders, sounds);
          StagedSameView(db, ApplyBatch(db, path, generation, folders, sounds).value,
                         RootAt(db.roots, path).value, generation);
        }
      case Cancel(path, generation) =>
        if Verified(db, path, generation) {
          CancelSameView(db, path, generation);
        }
    }
  }

  lemma CancelSameView(db: Db, path: string, generation: nat)
    requires Ok(db) && Verified(db, path, generation)
    ensures Ok(CancelScan(db, path, generation)) && SameView(db, CancelScan(db, path, generation))
  {
    hide Stages, CancelScan, TreeState, SoundsOk, LocationsOk, TabsOk, LegacyOk, CustomOk, OwnersOk,
         LiveByRows, Effective, OnShow, StagesTree, StagesSounds;
    var next := CancelScan(db, path, generation);
    var unlocked := db.(scans := db.scans - {path});
    CancelStages(db, path, generation);
    UnlockSameView(db, path);
    StagedSameView(unlocked, next, RootAt(db.roots, path).value, generation);
    SameViewTransitive(db, unlocked, next);
  }

  lemma UnlockSameView(db: Db, path: string)
    requires Ok(db)
    ensures Ok(db.(scans := db.scans - {path})) && SameView(db, db.(scans := db.scans - {path}))
  {
    hide TreeOk, ClosureExact, PresenceOk, PresenceNew, SoundsOk, TabsOk, LegacyOk, CustomOk, OwnersOk;
    BeginFrame(db, db.(scans := db.scans - {path}));
  }

  /**
   Snapshot isolation: any interleaving of begins, batches and cancels, for any roots and with
   stale generations allowed, neither reveals a staged row nor hides a row on show.
   */
  lemma {:induction false} StagingInvisible(db: Db, steps: seq<Staging>)
    requires Ok(db)
    ensures Ok(Run(db, steps)) && SameView(db, Run(db, steps))
    decreases |steps|
  {
    hide Ok, SameView, Perform;
    if steps == [] {
      SameViewSelf(db);
    } else {
      PerformInvisible(db, steps[0]);
      StagingInvisible(Perform(db, steps[0]), steps[1..]);
      SameViewTransitive(db, Perform(db, steps[0]), Run(db, steps));
    }
  }

  // ---- superseded scanners ------------------------------------------------------------------

  /** Some row of the root carries the generation. */
  ghost predicate HasRows(db: Db, root: nat, generation: nat) {
    || (exists p | p in db.presence && p.folder in db.folders && db.folders[p.folder].root == root
          :: p.generation == generation)
    || (exists k :: k in db.locations && k.root == root && k.generation == generation)
  }

  lemma NextIdIs(keys: set<nat>, top: nat)
    requires top in keys && forall k :: k in keys ==> k <= top
    ensures NextId(keys) == top + 1
  {}

  lemma GenerationsMember(db: Db, root: nat, g: nat)
    requires root in db.roots
    ensures g in Generations(db, root) <==> g == db.roots[root].active || HasRows(db, root, g)
  {}

  lemma NoRows(db: Db, root: nat, generation: nat)
    requires Ok(db)
    requires forall p :: p in db.presence && p.folder in db.folders && db.folders[p.folder].root == root ==>
      p.generation < generation
    requires forall k :: k in db.locations && k.root == root ==> k.generation < generation
    ensures !HasRows(db, root, generation)
  {}

  /** The generation handed out is one above a generation the root has. */
  lemma FreshGeneration(db: Db, path: string, position: int)
    requires Ok(db)
    ensures var (begun, generation) := BeginScan(db, path, position);
      && RootAt(begun.roots, path).Some?
      && var root := RootAt(begun.roots, path).value;
      && generation >= 1 && generation - 1 in Generations(begun, root)
      && (forall g :: g in Generations(begun, root) ==> g < generation)
  {
    hide TreeState, SoundsOk, LocationsOk, TabsOk, LegacyOk, CustomOk, OwnersOk, Generations;
    UpsertedRoots(db, path, position);
    var (roots, root) := UpsertRoot(db.roots, path, position);
    var unscanned := db.(roots := roots);
    var begun := BeginScan(db, path, position).0;
    assert Generations(begun, root) == Generations(unscanned, root) by { SameGenerations(begun, unscanned, root); }
    GenerationsMember(unscanned, root, unscanned.roots[root].active);
    NextIdMember(Generations(unscanned, root));
  }

  lemma SameGenerations(left: Db, right: Db, root: nat)
    requires root in left.roots && left.roots == right.roots && left.presence == right.presence
    requires left.folders == right.folders && left.locations == right.locations
    ensures Generations(left, root) == Generations(right, root)
  {}

  lemma NextIdMember(keys: set<nat>)
    requires keys != {}
    ensures NextId(keys) - 1 in keys
  {}

  lemma BeginAgain(db: Db, path: string, root: nat, again: int)
    requires RootAt(db.roots, path) == Some(root)
    ensures root in db.roots
    ensures forall g :: Verified(BeginScan(db, path, again).0, path, g) <==> g == NextId(Generations(db, root))
  {
    hide Generations, RootAt;
    var roots := UpsertRoot(db.roots, path, again).0;
    forall g ensures g in Generations(db.(roots := roots), root) <==> g in Generations(db, root) {
      GenerationsMember(db.(roots := roots), root, g);
      GenerationsMember(db, root, g);
      RowsIgnoreRoots(db, roots, root, g);
    }
    assert Generations(db.(roots := roots), root) == Generations(db, root);
  }

  lemma RowsIgnoreRoots(db: Db, roots: map<nat, Root>, root: nat, g: nat)
    ensures HasRows(db.(roots := roots), root, g) <==> HasRows(db, root, g)
  {}

  lemma StagedRows(db: Db, next: Db, root: nat, generation: nat, g: nat)
    requires Ok(db) && Ok(next) && Stages(db, next, root, generation) && root in db.roots
    ensures next.roots == db.roots
    ensures g != generation ==> (HasRows(next, root, g) <==> HasRows(db, root, g))
  {
    hide TreeOk, FolderRootsOk, ClosureExact, PresenceNew, RowsOk, StagesSounds;
    if g != generation {
      assert HasRows(next, root, g) ==> HasRows(db, root, g) by {
        forall p | p in next.presence && p.generation == g ensures p in db.presence {}
        forall k: LocationKey | k in next.locations && k.root == root && k.generation == g ensures k in db.locations {}
      }
      assert HasRows(db, root, g) ==> HasRows(next, root, g) by {
        forall p | p in db.presence && p.generation == g ensures p in next.presence {}
        forall k: LocationKey | k in db.locations && k.root == root && k.generation == g ensures k in next.locations {}
      }
    }
  }
}
