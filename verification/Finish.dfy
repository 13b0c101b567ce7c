/**
 Finishing a rescan: legacy tabs are reconciled, disappearing customised folders are
 converted, the generation becomes active, and everything older is deleted.
 */
module Finish {
  import opened Wrappers
  import opened Ordering
  import opened Tables
  import opened FolderScan
  import opened RootScan
  import opened Cascade
  import opened Staging
  import opened Listings
  import opened Legacy
  import opened Conversion

  /** Folders of the root that the new generation does not have. */
  function Vanished(db: Db, root: nat, generation: nat): set<nat> {
    set f | f in db.folders && db.folders[f].root == root && Presence(f, generation) !in db.presence
  }

  /** The root's rows of every other generation. */
  function OldPresence(db: Db, root: nat, generation: nat): set<Presence> {
    set p | p in db.presence && p.generation != generation && p.folder in db.folders
      && db.folders[p.folder].root == root
  }

  /** UPDATE roots, DELETE FROM sound_locations, DELETE FROM folder_presence. */
  function Switch(db: Db, root: nat, generation: nat): Db
    requires root in db.roots
  {
    db.(roots := db.roots[root := db.roots[root].(active := generation)],
        locations := map k | k in db.locations && !(k.root == root && k.generation != generation) :: db.locations[k],
        presence := db.presence - OldPresence(db, root, generation))
  }

  function Activate(db: Db, root: nat, generation: nat): Db
    requires root in db.roots
  {
    var switched := Switch(db, root, generation);
    DropFolders(switched, Vanished(switched, root, generation))
  }

  const GONE: string := "sound is no longer in the active library"

  /** An active binding whose sound is neither live nor located anywhere, not even in a staged scan. */
  predicate Stale(db: Db, b: string)
    requires b in db.bindings
  {
    var binding := db.bindings[b];
    && binding.normalized.Some?
    && binding.owner.SoundOwner?
    && !Live(db, binding.owner.sound)
    && (forall k | k in db.locations :: k.sound != binding.owner.sound)
  }

  function Demote(db: Db): Db {
    db.(bindings := map b | b in db.bindings ::
      if Stale(db, b) then db.bindings[b].(normalized := None, issue := Some(GONE)) else db.bindings[b])
  }

  function FinishScan(db: Db, path: string, generation: nat): Result<Db, LibraryError> {
    match Reconcile(db, path, generation)
    case Failure(e) => Failure(e)
    case Success(reconciled) =>
      match RootAt(reconciled.roots, path)
      case None => Failure(Database)
      case Some(root) =>
        match Convert(reconciled, root, reconciled.roots[root].active, generation)
        case Failure(e) => Failure(e)
        case Success(converted) =>
          var demoted := Demote(Activate(converted, root, generation));
          Success(demoted.(scans := demoted.scans - {path}))
  }

  /** One transaction: an error anywhere in it leaves the database as it was. */
  method FinishRootScan(c: Connection, path: string, generation: nat) returns (r: Result<bool, LibraryError>)
    modifies c
    ensures !Verified(old(c.db), path, generation) ==> r == Success(false) && c.db == old(c.db)
    ensures Verified(old(c.db), path, generation) ==>
      match FinishScan(old(c.db), path, generation)
      case Failure(e) => r == Failure(e) && c.db == old(c.db)
      case Success(next) => r == Success(true) && c.db == next
  {
    hide Reconcile, Convert, Activate, Demote;
    if !Verified(c.db, path, generation) {
      return Success(false);
    }
    var tx := new Transaction(c);
    var reconciled := Reconcile(tx.db, path, generation);
    if reconciled.Failure? {
      return Failure(reconciled.error);
    }
    tx.db := reconciled.value;
    var found := RootAt(tx.db.roots, path);
    if found.None? {
      return Failure(Database);
    }
    var root := found.value;
    var converted := Convert(tx.db, root, tx.db.roots[root].active, generation);
    if converted.Failure? {
      return Failure(converted.error);
    }
    tx.db := converted.value;
    tx.db := Activate(tx.db, root, generation);
    tx.db := Demote(tx.db);
    tx.db := tx.db.(scans := tx.db.scans - {path});
    tx.Commit(c);
    return Success(true);
  }

  // ---- activation --------------------------------------------------------------------------

  lemma SwitchKeeps(db: Db, root: nat, generation: nat)
    requires Ok(db) && root in db.roots && db.roots[root].active < generation
    requires db.roots[root].path in db.scans && db.scans[db.roots[root].path] == generation
    ensures var next := Switch(db, root, generation);
      Ok(next.(scans := next.scans - {db.roots[root].path}))
  {
    hide TreeOk, ClosureExact, PresenceOk, RootsOk, SoundsOk, TabsOk, LegacyOk, CustomOk, OwnersOk;
    SwitchPresence(db, root, generation);
    SwitchRoots(db, root, generation);
  }

  lemma SwitchPresence(db: Db, root: nat, generation: nat)
    requires TreeOk(db.folders) && PresenceOk(db.folders, db.presence)
    ensures PresenceOk(db.folders, db.presence - OldPresence(db, root, generation))
  {
    var next := db.presence - OldPresence(db, root, generation);
    forall p | p in next ensures ParentPresent(db.folders, next, p) {
      assert ParentPresent(db.folders, db.presence, p) && ParentOk(db.folders, p.folder);
    }
  }

  lemma SwitchRoots(db: Db, root: nat, generation: nat)
    requires RootsOk(db.roots, db.scans) && root in db.roots
    ensures var roots := db.roots[root := db.roots[root].(active := generation)];
      RootsOk(roots, db.scans - {db.roots[root].path})
  {
    var roots := db.roots[root := db.roots[root].(active := generation)];
    forall p | p in db.scans ensures RootAt(roots, p).Some? {
      RootAtFinds(roots, RootAt(db.roots, p).value);
    }
  }

  /** Nothing present hangs below a vanished folder, so the cascade takes no live folder with it. */
  lemma {:induction false} DoomedVanished(db: Db, root: nat, generation: nat, d: nat)
    requires TreeOk(db.folders) && PresenceOk(db.folders, db.presence)
    ensures Doomed(db.folders, d, Vanished(db, root, generation)) <==> d in Vanished(db, root, generation)
    decreases if d in db.folders then |db.folders[d].path| else 0
  {
    if d in db.folders {
      assert ParentOk(db.folders, d);
      if db.folders[d].parent.Some? {
        DoomedVanished(db, root, generation, db.folders[d].parent.value);
        if Presence(d, generation) in db.presence {
          assert ParentPresent(db.folders, db.presence, Presence(d, generation));
        }
      }
    }
  }

  lemma VanishedIsErased(db: Db, root: nat, generation: nat)
    requires TreeOk(db.folders) && PresenceOk(db.folders, db.presence)
    ensures DropFolders(db, Vanished(db, root, generation)) == EraseFolders(db, Vanished(db, root, generation))
  {
    hide Doomed, EraseFolders;
    forall d ensures Doomed(db.folders, d, Vanished(db, root, generation)) <==> d in Vanished(db, root, generation) {
      DoomedVanished(db, root, generation, d);
    }
    assert DoomedSet(db.folders, Vanished(db, root, generation)) == Vanished(db, root, generation);
  }

  /** Every staged location names no folder, or a folder present at its generation. */
  ghost predicate StagedPresent(db: Db) {
    forall k :: k in db.locations && db.locations[k].folder.Some?
      ==> Presence(db.locations[k].folder.value, k.generation) in db.presence
  }

  /**
   The rows activation leaves. The root keeps exactly the folders present at the new generation
   and no row of another generation; other roots keep everything. When every staged location
   names a present folder, no location of the new generation is lost.
   */
  ghost predicate Activated(db: Db, next: Db, root: nat, generation: nat)
    requires root in db.roots
  {
    && (forall f :: f in next.folders <==>
          f in db.folders && (db.folders[f].root == root ==> Presence(f, generation) in db.presence))
    && (forall f :: f in next.folders ==> next.folders[f] == db.folders[f])
    && (forall f, g :: Presence(f, g) in next.presence <==>
          Presence(f, g) in db.presence && f in next.folders && (db.folders[f].root == root ==> g == generation))
    && (forall l :: l in next.closure <==>
          l in db.closure && l.ancestor in next.folders && l.descendant in next.folders)
    && (forall k :: k in next.locations <==>
          k in db.locations && (k.root == root ==> k.generation == generation)
          && (db.locations[k].folder.Some? ==> db.locations[k].folder.value in next.folders))
    && (forall k :: k in next.locations ==> next.locations[k] == db.locations[k])
    && (forall f :: f in next.prefs <==> f in db.prefs && f in next.folders)
    && (forall f :: f in next.prefs ==> next.prefs[f] == db.prefs[f])
    && (forall o :: o in next.overrides <==> o in db.overrides && o.folder in next.folders)
    && (forall o :: o in next.overrides ==> next.overrides[o] == db.overrides[o])
    && next.sounds == db.sounds && next.tabs == db.tabs && next.memberships == db.memberships
    && next.roots == db.roots[root := Root(db.roots[root].path, db.roots[root].position, generation)]
  }

  lemma ActivateRows(db: Db, root: nat, generation: nat)
    requires Ok(db) && root in db.roots
    ensures Activated(db, Activate(db, root, generation), root, generation)
  {
    hide DropFolders, TreeOk, FolderRootsOk, PresenceNew, RootsOk, SoundsOk, TabsOk, LegacyOk, OwnersOk;
    var switched := Switch(db, root, generation);
    SwitchPresence(db, root, generation);
    VanishedIsErased(switched, root, generation);
    ActivateErased(db, switched, root, generation);
  }

  lemma ActivateErased(db: Db, switched: Db, root: nat, generation: nat)
    requires PresenceOk(db.folders, db.presence) && ClosureExact(db.folders, db.closure)
    requires CustomOk(db.prefs, db.overrides, db.folders, db.sounds)
    requires LocationsOk(db.locations, db.sounds, db.roots, db.folders)
    requires root in db.roots && switched == Switch(db, root, generation)
    ensures Activated(db, EraseFolders(switched, Vanished(switched, root, generation)), root, generation)
  {}

  // ---- the whole of finish ---------------------------------------------------------------------

  /** The stages of a successful finish. */
  ghost predicate FinishSteps(db: Db, path: string, generation: nat, root: nat, reconciled: Db, converted: Db,
                              next: Db) {
    && Reconcile(db, path, generation) == Success(reconciled)
    && RootAt(db.roots, path) == Some(root) && root in db.roots
    && reconciled.roots == db.roots && converted.roots == db.roots
    && Convert(reconciled, root, db.roots[root].active, generation) == Success(converted)
    && var demoted := Demote(Activate(converted, root, generation));
       next == demoted.(scans := demoted.scans - {path})
  }

  lemma FinishStages(db: Db, path: string, generation: nat)
    returns (root: nat, reconciled: Db, converted: Db)
    requires Ok(db) && FinishScan(db, path, generation).Success?
    ensures FinishSteps(db, path, generation, root, reconciled, converted, FinishScan(db, path, generation).value)
    ensures Ok(reconciled) && Ok(converted)
    ensures reconciled == db.(prefs := reconciled.prefs, overrides := reconciled.overrides, tabs := reconciled.tabs,
                              memberships := reconciled.memberships, legacyTabs := reconciled.legacyTabs,
                              legacyMemberships := reconciled.legacyMemberships)
    ensures converted == reconciled.(tabs := converted.tabs, memberships := converted.memberships)
  {
    hide Ok, Reconcile, Convert, Activate, Demote;
    reconciled := Reconcile(db, path, generation).value;
    ReconcileKeeps(db, path, generation);
    root := RootAt(db.roots, path).value;
    converted := Convert(reconciled, root, db.roots[root].active, generation).value;
    ConvertKeeps(reconciled, root, db.roots[root].active, generation);
  }

  lemma DemoteKeeps(db: Db)
    requires Ok(db)
    ensures Ok(Demote(db))
  {
    hide Stale, TreeOk, FolderRootsOk, ClosureExact, PresenceOk, PresenceNew, RootsOk, LocationsOk, SoundsOk, TabsOk,
         LegacyOk, CustomOk;
  }

  lemma ActivateKeeps(db: Db, root: nat, generation: nat)
    requires Ok(db) && root in db.roots && db.roots[root].active < generation
    requires db.roots[root].path in db.scans && db.scans[db.roots[root].path] == generation
    ensures var next := Activate(db, root, generation);
      Ok(next.(scans := next.scans - {db.roots[root].path}))
  {
    hide Ok, DoomedSet;
    var switched := Switch(db, root, generation);
    var unlocked := switched.(scans := switched.scans - {db.roots[root].path});
    SwitchKeeps(db, root, generation);
    assert Vanished(unlocked, root, generation) == Vanished(switched, root, generation);
    DropFoldersKeeps(unlocked, Vanished(switched, root, generation));
  }

  /**
   A finish that succeeds keeps the invariant, makes exactly this root's generation active,
   strictly raising it, and ends the scan; every other root keeps its generation.
   */
  lemma FinishKeeps(db: Db, path: string, generation: nat)
    requires Ok(db) && Verified(db, path, generation) && FinishScan(db, path, generation).Success?
    ensures var next := FinishScan(db, path, generation).value;
      && Ok(next) && path !in next.scans
      && RootAt(db.roots, path).Some?
      && var root := RootAt(db.roots, path).value;
      && db.roots[root].active < generation
      && next.roots == db.roots[root := db.roots[root].(active := generation)]
  {
    hide TreeState, SoundsOk, LocationsOk, TabsOk, LegacyOk, CustomOk, OwnersOk, FinishScan, Reconcile, Convert,
         Stale, DropFolders;
    var next := FinishScan(db, path, generation).value;
    var root, reconciled, converted := FinishStages(db, path, generation);
    ActivateKeeps(converted, root, generation);
    ActivateRows(converted, root, generation);
    var activated := Activate(converted, root, generation);
    DemoteKeeps(activated.(scans := activated.scans - {path}));
    DemoteUnlock(activated, path);
  }

  lemma DemoteUnlock(db: Db, path: string)
    ensures Demote(db.(scans := db.scans - {path})) == Demote(db).(scans := db.scans - {path})
  {
    var left, right := Demote(db.(scans := db.scans - {path})), Demote(db);
    forall b | b in db.bindings ensures left.bindings[b] == right.bindings[b] {
      assert Stale(db.(scans := db.scans - {path}), b) <==> Stale(db, b) by { StaleUnlock(db, path, b); }
    }
  }

  lemma StaleUnlock(db: Db, path: string, b: string)
    requires b in db.bindings
    ensures Stale(db.(scans := db.scans - {path}), b) <==> Stale(db, b)
  {
    var unlocked := db.(scans := db.scans - {path});
    forall s ensures LiveByRows(unlocked, s) <==> LiveByRows(db, s) {
      forall k | k in db.locations ensures Shown(unlocked, k) <==> Shown(db, k) {
        forall f ensures HiddenFolder(unlocked, f) <==> HiddenFolder(db, f) {}
      }
    }
  }

  // ---- what a listing becomes ----------------------------------------------------------------------

  /** Activation, demotion and unlocking leave manual tabs and sounds alone. */
  lemma FinishTabs(db: Db, path: string, generation: nat, root: nat, reconciled: Db, converted: Db, next: Db)
    requires FinishSteps(db, path, generation, root, reconciled, converted, next) && Ok(converted)
    ensures next.tabs == converted.tabs && next.memberships == converted.memberships && next.sounds == converted.sounds
  {
    hide Ok, Reconcile, Convert, Activate;
    ActivateRows(converted, root, generation);
  }

  lemma ManualListingAgrees(left: Db, right: Db, publicId: string, q: Search)
    requires left.tabs == right.tabs && left.memberships == right.memberships && left.sounds == right.sounds
    requires SoundsOk(left.sounds)
    ensures Listing(left, ManualTab(publicId), q) == Listing(right, ManualTab(publicId), q)
  {
    hide Sort, SoundsOk, TabNamed;
    assert ScopeKeys(left, ManualTab(publicId), q) == ScopeKeys(right, ManualTab(publicId), q);
  }

  /** Reconciling touches the overrides of present folders only. */
  lemma ReconcileLeavesAbsent(db: Db, path: string, generation: nat, f: nat)
    requires f in db.folders && Presence(f, generation) !in db.presence
    requires Reconcile(db, path, generation).Success?
    ensures var next := Reconcile(db, path, generation).value;
      && (forall s :: Override(f, s) in next.overrides <==> Override(f, s) in db.overrides)
      && (forall s :: Override(f, s) in next.overrides ==>
           next.overrides[Override(f, s)] == db.overrides[Override(f, s)])
      && (f in next.prefs <==> f in db.prefs) && (f in db.prefs ==> next.prefs[f] == db.prefs[f])
  {
    hide AbsentTaken, Missing, Surplus, ReconcileTabs, ReconcileMemberships, LegacyPref;
    assert f !in Targets(db, path, generation) by {
      assert TabsFor(db, path, generation, f) == {};
    }
  }

  lemma SameEffective(left: Db, right: Db, f: nat, g: nat)
    requires left.folders == right.folders && left.closure == right.closure && left.locations == right.locations
    requires forall s :: Override(f, s) in left.overrides <==> Override(f, s) in right.overrides
    requires forall s :: Override(f, s) in left.overrides ==>
      left.overrides[Override(f, s)] == right.overrides[Override(f, s)]
    ensures Effective(left, f, g) == Effective(right, f, g)
  {
    hide Physical, Effective;
    SamePhysical(left, right, f, g);
    forall s ensures s in Effective(left, f, g) <==> s in Effective(right, f, g) {
      EffectiveBy(left, f, g, s);
      EffectiveBy(right, f, g, s);
    }
  }

  lemma SameCustomised(left: Db, right: Db, f: nat)
    requires f in left.prefs ==> f in right.prefs
    requires forall s :: Override(f, s) in left.overrides ==> Override(f, s) in right.overrides
    ensures Customised(left, f) ==> Customised(right, f)
  {
    if o :| o in left.overrides && o.folder == f {
      assert o == Override(f, o.sound);
    }
  }

  /**
   Conversion preserves meaning. A folder that was on show, carries preferences or overrides and
   is missing from the new generation gets a manual tab that lists, under every search, exactly
   the sounds the folder listed just before, in the same order.
   */
  lemma FinishConvertsListing(db: Db, path: string, generation: nat, folder: Path, q: Search)
    requires Ok(db) && Verified(db, path, generation) && FinishScan(db, path, generation).Success?
    requires SelectedFolder(db, path, folder).Some?
    requires var f := SelectedFolder(db, path, folder).value;
      Presence(f, generation) !in db.presence && (f in db.prefs || exists o :: o in db.overrides && o.folder == f)
    ensures var next := FinishScan(db, path, generation).value;
            var f := SelectedFolder(db, path, folder).value;
      && Ok(next)
      && Listing(next, ManualTab("converted-folder-" + Decimal(f) + "-" + Decimal(generation)), q)
         == Listing(db, FolderScope(path, folder), q)
  {
    hide Ok, FinishScan, Reconcile, Convert, Activate, Demote, Listing, ConvertedId, Customised, Effective, Decimal;
    var next := FinishScan(db, path, generation).value;
    var f := SelectedFolder(db, path, folder).value;
    assert Customised(db, f) by { CustomisedIs(db, f); }
    assert ConvertedId(f, generation) == "converted-folder-" + Decimal(f) + "-" + Decimal(generation) by {
      ConvertedIdIs(f, generation);
    }
    var root, reconciled, converted := FinishStages(db, path, generation);
    var active := db.roots[root].active;
    FinishKeeps(db, path, generation);
    ReconcileLeavesAbsent(db, path, generation, f);
    SameCustomised(db, reconciled, f);
    SameEffective(db, reconciled, f, active);
    assert f in Disappearing(reconciled, root, active, generation);
    ConversionPreservesListing(reconciled, root, active, generation, f, q);
    FinishTabs(db, path, generation, root, reconciled, converted, next);
    OkSounds(next);
    OkSounds(db);
    ManualListingAgrees(next, converted, ConvertedId(f, generation), q);
    SameFolderSort(db, reconciled, f, active, q);
    FolderListing(db, path, folder, q);
  }

  lemma CustomisedIs(db: Db, f: nat)
    ensures Customised(db, f) <==> f in db.prefs || exists o :: o in db.overrides && o.folder == f
  {}

  lemma ConvertedIdIs(f: nat, generation: nat)
    ensures ConvertedId(f, generation) == "converted-folder-" + Decimal(f) + "-" + Decimal(generation)
  {
    hide Decimal;
  }

  lemma SameFolderSort(left: Db, right: Db, f: nat, g: nat, q: Search)
    requires left.sounds == right.sounds && Effective(left, f, g) == Effective(right, f, g)
    ensures FolderKeys(left, f, g, q) == FolderKeys(right, f, g, q)
  {
    hide Effective;
  }

  lemma FolderListing(db: Db, path: string, folder: Path, q: Search)
    requires SoundsOk(db.sounds) && SelectedFolder(db, path, folder).Some?
    ensures RootAt(db.roots, path).Some?
    ensures var keys := FolderKeys(db, SelectedFolder(db, path, folder).value,
      db.roots[RootAt(db.roots, path).value].active, q);
      Distinct(keys) && Listing(db, FolderScope(path, folder), q) == Sort(keys)
  {
    hide Sort, FolderKeys, SoundsOk, SelectedFolder;
    ScopeKeysDistinct(db, FolderScope(path, folder), q);
    assert SelectedFolder(db, path, folder).Some? ==>
      RootAt(db.roots, path).Some? by { SelectedRoot(db, path, folder); }
  }

  lemma SelectedRoot(db: Db, path: string, folder: Path)
    ensures SelectedFolder(db, path, folder).Some? ==> RootAt(db.roots, path).Some?
  {}

  // ---- staged rows become the active rows ---------------------------------------------------------------

  /** Activation of the finished scan, told from the state before it. */
  lemma FinishRows(db: Db, path: string, generation: nat)
    requires Ok(db) && Verified(db, path, generation) && FinishScan(db, path, generation).Success?
    ensures RootAt(db.roots, path).Some?
    ensures var next := FinishScan(db, path, generation).value;
            var root := RootAt(db.roots, path).value;
      && (forall f :: f in next.folders <==>
            f in db.folders && (db.folders[f].root == root ==> Presence(f, generation) in db.presence))
      && (forall f :: f in next.folders ==> next.folders[f] == db.folders[f])
      && (forall f, g :: Presence(f, g) in next.presence <==>
            Presence(f, g) in db.presence && f in next.folders && (db.folders[f].root == root ==> g == generation))
      && (forall l :: l in next.closure <==>
            l in db.closure && l.ancestor in next.folders && l.descendant in next.folders)
      && (forall k :: k in next.locations <==>
            k in db.locations && (k.root == root ==> k.generation == generation)
            && (db.locations[k].folder.Some? ==> db.locations[k].folder.value in next.folders))
      && (forall k :: k in next.locations ==> next.locations[k] == db.locations[k])
      && next.sounds == db.sounds
  {
    hide Ok, FinishScan, Reconcile, Convert, Activate;
    var next := FinishScan(db, path, generation).value;
    var root, reconciled, converted := FinishStages(db, path, generation);
    ActivateRows(converted, root, generation);
    var activated := Activate(converted, root, generation);
    assert next.folders == activated.folders && next.presence == activated.presence && next.closure == activated.closure
        && next.locations == activated.locations && next.sounds == activated.sounds;
  }

  /**
   The deletes of a finish never reach a just-scanned row: with every staged location in a
   present folder, the root's locations afterwards are exactly the staged ones, and the other
   roots' are untouched.
   */
  lemma FinishLosesNothing(db: Db, path: string, generation: nat)
    requires Ok(db) && Verified(db, path, generation) && FinishScan(db, path, generation).Success?
    requires StagedPresent(db)
    ensures RootAt(db.roots, path).Some?
    ensures var next := FinishScan(db, path, generation).value;
            var root := RootAt(db.roots, path).value;
      && StagedPresent(next)
      && (forall k :: k in next.locations <==> k in db.locations && (k.root == root ==> k.generation == generation))
      && (forall k :: k in next.locations ==> next.locations[k] == db.locations[k])
      && (forall f :: f in db.folders && db.folders[f].root == root ==>
            (f in next.folders <==> Presence(f, generation) in db.presence))
  {
    hide FinishScan, TreeState, RootsOk, SoundsOk, TabsOk, LegacyOk, CustomOk, OwnersOk, RootAt;
    FinishRows(db, path, generation);
  }

  lemma FinishPhysical(db: Db, path: string, generation: nat, f: nat)
    requires Ok(db) && Verified(db, path, generation) && FinishScan(db, path, generation).Success?
    requires StagedPresent(db) && Presence(f, generation) in db.presence
    requires RootAt(db.roots, path).Some? && f in db.folders && db.folders[f].root == RootAt(db.roots, path).value
    ensures Physical(FinishScan(db, path, generation).value, f, generation) == Physical(db, f, generation)
  {
    hide FinishScan, TreeState, RootsOk, SoundsOk, TabsOk, LegacyOk, CustomOk, OwnersOk, RootAt;
    FinishRows(db, path, generation);
  }

  /** The overrides of a folder that stays are those reconciling gave it. */
  lemma FinishOverrides(db: Db, path: string, generation: nat, f: nat)
    requires Ok(db) && Verified(db, path, generation) && FinishScan(db, path, generation).Success?
    requires Presence(f, generation) in db.presence && f in db.folders
    ensures Reconcile(db, path, generation).Success?
    ensures var next := FinishScan(db, path, generation).value;
            var reconciled := Reconcile(db, path, generation).value;
      && (forall s :: Override(f, s) in next.overrides <==> Override(f, s) in reconciled.overrides)
      && (forall s :: Override(f, s) in next.overrides ==>
           next.overrides[Override(f, s)] == reconciled.overrides[Override(f, s)])
  {
    hide Ok, FinishScan, Reconcile, Convert, Activate;
    var next := FinishScan(db, path, generation).value;
    var root, reconciled, converted := FinishStages(db, path, generation);
    ActivateRows(converted, root, generation);
    var activated := Activate(converted, root, generation);
    assert next.overrides == activated.overrides;
  }

  /**
   Sparse overrides preserve legacy membership. After the first finished scan a present folder
   shows exactly what its legacy tabs ask of it, the sounds of its tab when it has one, if and only
   if the overrides it had before agree; in particular whenever it had none.
   */
  lemma FinishPreservesMembership(db: Db, path: string, generation: nat, f: nat)
    requires Ok(db) && Verified(db, path, generation) && FinishScan(db, path, generation).Success?
    requires StagedPresent(db) && f in Targets(db, path, generation)
    ensures var next := FinishScan(db, path, generation).value;
      && OnShow(next, f)
      && next.roots[next.folders[f].root].active == generation
      && ((forall s :: s in Effective(next, f, generation) <==> Wanted(db, path, generation, f, s))
            <==> OverridesAgree(db, path, generation, f))
      && ((forall o :: o in db.overrides ==> o.folder != f) ==> OverridesAgree(db, path, generation, f))
      && (forall t :: TabsFor(db, path, generation, f) == {t} ==>
            (Effective(next, f, generation) == MembersOf(db, t) <==> OverridesAgree(db, path, generation, f)))
  {
    hide Ok, FinishScan, Reconcile, Effective, MembersOf, OverridesAgree, Wanted, Physical;
    var t :| t in TabsFor(db, path, generation, f);
    assert Target(db, path, generation, t) == Some(f);
    FinishOverrides(db, path, generation, f);
    FinishPhysical(db, path, generation, f);
    FinishKeeps(db, path, generation);
    FinishRows(db, path, generation);
    ReconcileFrame(db, path, generation);
    SameEffectiveBy(FinishScan(db, path, generation).value, Reconcile(db, path, generation).value, f, generation);
    ReconcilePreservesMembership(db, path, generation, f);
    forall t | TabsFor(db, path, generation, f) == {t}
      ensures Effective(FinishScan(db, path, generation).value, f, generation) == MembersOf(db, t)
        <==> OverridesAgree(db, path, generation, f)
    {
      SoleTabShows(db, path, generation, f, t, Effective(FinishScan(db, path, generation).value, f, generation));
    }
  }

  lemma SoleTabShows(db: Db, path: string, generation: nat, f: nat, t: nat, shown: set<nat>)
    requires TabsFor(db, path, generation, f) == {t}
    ensures shown == MembersOf(db, t) <==> forall s :: s in shown <==> Wanted(db, path, generation, f, s)
  {
    hide TabsFor, Wanted, MembersOf;
    forall s ensures Wanted(db, path, generation, f, s) <==> s in MembersOf(db, t) {
      SoleTab(db, path, generation, f, t, s);
    }
  }

  lemma ReconcileFrame(db: Db, path: string, generation: nat)
    requires Reconcile(db, path, generation).Success?
    ensures var next := Reconcile(db, path, generation).value;
      forall f, g :: Physical(next, f, g) == Physical(db, f, g)
  {
    hide AbsentTaken, ReconcilePrefs, ReconcileOverrides, ReconcileTabs, ReconcileMemberships, Physical;
    var next := Reconcile(db, path, generation).value;
    forall f, g ensures Physical(next, f, g) == Physical(db, f, g) {
      SamePhysical(db, next, f, g);
    }
  }

  lemma SameEffectiveBy(left: Db, right: Db, f: nat, g: nat)
    requires Physical(left, f, g) == Physical(right, f, g)
    requires forall s :: Override(f, s) in left.overrides <==> Override(f, s) in right.overrides
    requires forall s :: Override(f, s) in left.overrides ==>
      left.overrides[Override(f, s)] == right.overrides[Override(f, s)]
    ensures Effective(left, f, g) == Effective(right, f, g)
  {
    hide Physical, Effective;
    forall s ensures s in Effective(left, f, g) <==> s in Effective(right, f, g) {
      EffectiveBy(left, f, g, s);
      EffectiveBy(right, f, g, s);
    }
  }

  /** A legacy tab whose folder is gone is a manual tab afterwards, with its members at their positions. */
  lemma FinishMakesManualTab(db: Db, path: string, generation: nat, t: nat)
    requires Ok(db) && Verified(db, path, generation) && FinishScan(db, path, generation).Success?
    requires t in AbsentKeys(db, path, generation)
    ensures t in db.legacyTabs
    ensures var next := FinishScan(db, path, generation).value;
            var made := TabNamed(next.tabs, db.legacyTabs[t].publicId);
      && Ok(next) && made.Some? && made.value !in db.tabs
      && next.tabs[made.value] == Tab(db.legacyTabs[t].publicId, db.legacyTabs[t].name, db.legacyTabs[t].position)
      && (forall s :: Member(made.value, s) in next.memberships <==> Member(t, s) in db.legacyMemberships)
      && (forall s :: Member(t, s) in db.legacyMemberships
            ==> next.memberships[Member(made.value, s)] == db.legacyMemberships[Member(t, s)])
  {
    hide Ok, FinishScan, Reconcile, Activate, AbsentKeys, TabNamed;
    var next := FinishScan(db, path, generation).value;
    var root, reconciled, converted := FinishStages(db, path, generation);
    FinishKeeps(db, path, generation);
    AbsentBecomesManual(db, path, generation, t);
    FinishTabs(db, path, generation, root, reconciled, converted, next);
    var made := TabNamed(reconciled.tabs, db.legacyTabs[t].publicId).value;
    ConvertAdds(reconciled, root, db.roots[root].active, generation);
    ConvertedLookup(next, made, db.legacyTabs[t].publicId);
  }

  lemma ConvertAdds(db: Db, root: nat, active: nat, generation: nat)
    requires Convert(db, root, active, generation).Success?
    ensures var next := Convert(db, root, active, generation).value;
      && (forall t :: t in db.tabs ==> t in next.tabs && next.tabs[t] == db.tabs[t])
      && (forall t, s :: t in db.tabs ==>
            (Member(t, s) in next.memberships <==> Member(t, s) in db.memberships)
            && (Member(t, s) in db.memberships ==> next.memberships[Member(t, s)] == db.memberships[Member(t, s)]))
  {
    hide ConversionTaken, Converted, FolderKeys, ConvertedPosition, SourceOf, ConvertedTabAt;
  }

  // ---- when finish fails ------------------------------------------------------------------------------------

  lemma FinishGuards(db: Db, path: string, generation: nat)
    requires Ok(db) && Verified(db, path, generation)
    ensures RootAt(db.roots, path).Some?
    ensures FinishScan(db, path, generation).Failure? <==>
      (AbsentTaken(db, path, generation)
       || var root := RootAt(db.roots, path).value;
          ConversionTaken(Reconcile(db, path, generation).value, root, db.roots[root].active, generation))
  {
    hide TreeState, SoundsOk, LocationsOk, TabsOk, LegacyOk, CustomOk, OwnersOk,
         AbsentTaken, ConversionTaken, Activate, Demote, ReconcilePrefs, ReconcileOverrides, ReconcileTabs,
         ReconcileMemberships, ConvertedTabs, ConvertedMemberships;
  }

  /** A legacy tab of the root whose folder the new generation lacks has this id. */
  predicate AbsentHas(db: Db, path: string, generation: nat, publicId: string) {
    exists t :: t in AbsentKeys(db, path, generation) && t in db.legacyTabs && db.legacyTabs[t].publicId == publicId
  }

  /** The tab a disappearing folder would become finds its id taken. */
  predicate ConvertedTaken(db: Db, path: string, root: nat, active: nat, generation: nat) {
    exists f :: f in Disappearing(db, root, active, generation)
      && (TabNamed(db.tabs, ConvertedId(f, generation)).Some?
           || AbsentHas(db, path, generation, ConvertedId(f, generation)))
  }

  lemma LeavesCustomised(db: Db, path: string, generation: nat, f: nat)
    requires Reconcile(db, path, generation).Success? && f in db.folders && Presence(f, generation) !in db.presence
    ensures Customised(Reconcile(db, path, generation).value, f) <==> Customised(db, f)
  {
    hide Reconcile, Customised;
    ReconcileLeavesAbsent(db, path, generation, f);
    SameCustomised(db, Reconcile(db, path, generation).value, f);
    SameCustomised(Reconcile(db, path, generation).value, db, f);
  }

  lemma SameDisappearing(db: Db, path: string, root: nat, active: nat, generation: nat)
    requires Ok(db) && Reconcile(db, path, generation).Success?
    ensures Disappearing(Reconcile(db, path, generation).value, root, active, generation)
         == Disappearing(db, root, active, generation)
  {
    hide Ok, Reconcile, Customised;
    ReconcileKeeps(db, path, generation);
    forall f | f in db.folders && Presence(f, generation) !in db.presence
      ensures Customised(Reconcile(db, path, generation).value, f) <==> Customised(db, f)
    {
      LeavesCustomised(db, path, generation, f);
    }
  }

  /** The ids manual tabs have once the absent legacy tabs are among them. */
  lemma ReconciledNames(db: Db, path: string, generation: nat, publicId: string)
    requires Reconcile(db, path, generation).Success?
    ensures TabNamed(Reconcile(db, path, generation).value.tabs, publicId).Some?
      <==> TabNamed(db.tabs, publicId).Some? || AbsentHas(db, path, generation, publicId)
  {
    hide AbsentTaken, ReconcilePrefs, ReconcileOverrides, ReconcileMemberships, Absent, AbsentKeys, AbsentTabAt;
    var tabs := ReconcileTabs(db, path, generation);
    assert Reconcile(db, path, generation).value.tabs == tabs;
    if TabNamed(db.tabs, publicId).Some? {
      assert TabNamed(db.tabs, publicId).value in TabIds(tabs, publicId);
    }
    if AbsentHas(db, path, generation, publicId) {
      var t :| t in AbsentKeys(db, path, generation) && t in db.legacyTabs && db.legacyTabs[t].publicId == publicId;
      var made := AbsentTabId(db, path, generation, t);
      assert made in TabIds(tabs, publicId);
    }
    if TabNamed(tabs, publicId).Some? {
      var id := TabNamed(tabs, publicId).value;
      if id in db.tabs {
        assert id in TabIds(db.tabs, publicId);
      } else {
        AbsentTabSource(db, path, generation, id);
      }
    }
  }

  /** A tab the reconcile adds has the id of an absent legacy tab. */
  lemma AbsentTabSource(db: Db, path: string, generation: nat, id: nat)
    requires NextId(db.tabs.Keys) <= id < NextId(db.tabs.Keys) + |Absent(db, path, generation)|
    ensures AbsentHas(db, path, generation, AbsentTabAt(db, path, generation, id).publicId)
  {
    hide Absent, AbsentKeys;
    AbsentRows(db, path, generation);
    assert Absent(db, path, generation)[id - NextId(db.tabs.Keys)] in Elements(Absent(db, path, generation));
  }

  /**
   A verified finish fails if and only if some tab it has to make finds its id taken: a manual tab
   has the id of a legacy tab whose folder is absent, or the id of a customised folder that is
   disappearing, or such a legacy tab has that folder's id. All of it can be read off the tables
   before the call.
   */
  lemma FinishFailsExactly(db: Db, path: string, generation: nat)
    requires Ok(db) && Verified(db, path, generation)
    ensures RootAt(db.roots, path).Some?
    ensures var root := RootAt(db.roots, path).value;
      FinishScan(db, path, generation).Failure? <==>
        AbsentTaken(db, path, generation) || ConvertedTaken(db, path, root, db.roots[root].active, generation)
  {
    hide Ok, AbsentTaken, FinishScan, Reconcile, Disappearing, AbsentHas, ConvertedId, TabNamed;
    FinishGuards(db, path, generation);
    ReconcileSucceeds(db, path, generation);
    var root := RootAt(db.roots, path).value;
    if !AbsentTaken(db, path, generation) {
      var next := Reconcile(db, path, generation).value;
      SameDisappearing(db, path, root, db.roots[root].active, generation);
      forall f ensures TabNamed(next.tabs, ConvertedId(f, generation)).Some? <==>
        TabNamed(db.tabs, ConvertedId(f, generation)).Some?
          || AbsentHas(db, path, generation, ConvertedId(f, generation))
      {
        ReconciledNames(db, path, generation, ConvertedId(f, generation));
      }
    }
  }

  lemma ReconcileSucceeds(db: Db, path: string, generation: nat)
    ensures Reconcile(db, path, generation).Success? <==> !AbsentTaken(db, path, generation)
  {}

  function FinalizedKeys(db: Db): map<nat, Key> {
    map t | t in db.legacyTabs && TabNamed(db.tabs, db.legacyTabs[t].publicId).None? :: Key(0, Id(t))
  }

  function FinalizedTab(db: Db, id: nat): Tab
    requires NextId(db.tabs.Keys) <= id < NextId(db.tabs.Keys) + |Sort(FinalizedKeys(db))|
  {
    SortElements(FinalizedKeys(db));
    var t := Sort(FinalizedKeys(db))[id - NextId(db.tabs.Keys)];
    assert t in Elements(Sort(FinalizedKeys(db)));
    Tab(db.legacyTabs[t].publicId, db.legacyTabs[t].name, db.legacyTabs[t].position)
  }

  /** The upgrade's INSERT OR IGNORE: every legacy tab is a manual tab until the first scan. */
  function FinalizeTabs(db: Db): map<nat, Tab> {
    db.tabs + map id: nat | NextId(db.tabs.Keys) <= id < NextId(db.tabs.Keys) + |Sort(FinalizedKeys(db))|
                :: FinalizedTab(db, id)
  }

  lemma FinalizeCoversLegacy(db: Db, t: nat)
    requires t in db.legacyTabs
    ensures TabNamed(FinalizeTabs(db), db.legacyTabs[t].publicId).Some?
  {
    hide Sort;
    var publicId := db.legacyTabs[t].publicId;
    if TabNamed(db.tabs, publicId).Some? {
      assert TabNamed(db.tabs, publicId).value in TabIds(FinalizeTabs(db), publicId);
    } else {
      SortElements(FinalizedKeys(db));
      assert t in Elements(Sort(FinalizedKeys(db)));
      var i :| 0 <= i < |Sort(FinalizedKeys(db))| && Sort(FinalizedKeys(db))[i] == t;
      assert FinalizeTabs(db)[NextId(db.tabs.Keys) + i] == FinalizedTab(db, NextId(db.tabs.Keys) + i);
      assert NextId(db.tabs.Keys) + i in TabIds(FinalizeTabs(db), publicId);
    }
  }

  /**
   A consequence of both. In a freshly upgraded library every legacy tab is also a manual tab, so
   the first scan of a root can finish exactly when the new generation has the folder of every
   legacy tab of that root; one missing folder aborts it, and the aborted finish changes nothing.
   */
  lemma UpgradedFinishExactly(imported: Db, path: string, generation: nat)
    requires var db := imported.(tabs := FinalizeTabs(imported));
      && Ok(db) && Verified(db, path, generation)
      && (forall f, r :: f in db.folders && r in db.roots && db.folders[f].root == r && db.roots[r].path == path
            ==> Presence(f, db.roots[r].active) !in db.presence)
    ensures var db := imported.(tabs := FinalizeTabs(imported));
      FinishScan(db, path, generation).Success? <==>
        (forall t :: t in LegacyOf(db, path) ==> Target(db, path, generation, t).Some?)
  {
    var db := imported.(tabs := FinalizeTabs(imported));
    hide Ok, Target, FinalizeTabs, FinishScan, Reconcile;
    FinishGuards(db, path, generation);
    forall t | t in LegacyOf(db, path) ensures TabNamed(db.tabs, db.legacyTabs[t].publicId).Some? {
      FinalizeCoversLegacy(imported, t);
    }
    assert AbsentTaken(db, path, generation)
      <==> exists t :: t in LegacyOf(db, path) && Target(db, path, generation, t).None? by {
      forall t | t in LegacyOf(db, path) && Target(db, path, generation, t).None?
        ensures t in AbsentKeys(db, path, generation) {}
    }
    if !AbsentTaken(db, path, generation) {
      ReconcileTree(db, path, generation);
      var root := RootAt(db.roots, path).value;
      assert Disappearing(Reconcile(db, path, generation).value, root, db.roots[root].active, generation) == map[];
    }
  }

  lemma ReconcileTree(db: Db, path: string, generation: nat)
    requires !AbsentTaken(db, path, generation)
    ensures Reconcile(db, path, generation).Success?
    ensures var next := Reconcile(db, path, generation).value;
      next.folders == db.folders && next.presence == db.presence && next.roots == db.roots
  {}
}
