/**
 ON DELETE CASCADE, written out. Deleting folders deletes everything below them along
 parent links and every row that names one of them; likewise for sounds and roots.
 */
module Cascade {
  import opened Wrappers
  import opened Tables
  import opened FolderScan
  import opened RootScan

  /** `d` is in `dead` or some folder above it is, following parent links. */
  predicate Doomed(folders: map<nat, Folder>, d: nat, dead: set<nat>)
    decreases if d in folders then |folders[d].path| else 0
  {
    d in folders && (d in dead ||
      match folders[d].parent
      case None => false
      case Some(p) => p in folders && |folders[p].path| < |folders[d].path| && Doomed(folders, p, dead))
  }

  function DoomedSet(folders: map<nat, Folder>, dead: set<nat>): set<nat> {
    set d | d in folders && Doomed(folders, d, dead)
  }

  /** The rows of every table that survive when exactly the folders in `gone` do not. */
  function EraseFolders(db: Db, gone: set<nat>): Db {
    db.(folders := map f | f in db.folders && f !in gone :: db.folders[f],
        presence := (set p | p in db.presence && p.folder !in gone),
        closure := map l | l in db.closure && l.ancestor !in gone && l.descendant !in gone :: db.closure[l],
        locations := map k | k in db.locations
                       && (db.locations[k].folder.Some? ==> db.locations[k].folder.value !in gone) :: db.locations[k],
        prefs := map f | f in db.prefs && f !in gone :: db.prefs[f],
        overrides := map o | o in db.overrides && o.folder !in gone :: db.overrides[o])
  }

  /** DELETE FROM folders, with its cascades. */
  function DropFolders(db: Db, dead: set<nat>): Db {
    EraseFolders(db, DoomedSet(db.folders, dead))
  }

  function DropSounds(db: Db, gone: set<nat>): Db {
    db.(sounds := map s | s in db.sounds && s !in gone :: db.sounds[s],
        locations := map k | k in db.locations && k.sound !in gone :: db.locations[k],
        memberships := map m | m in db.memberships && m.sound !in gone :: db.memberships[m],
        overrides := map o | o in db.overrides && o.sound !in gone :: db.overrides[o],
        legacyMemberships := map m | m in db.legacyMemberships && m.sound !in gone :: db.legacyMemberships[m],
        bindings := map b | b in db.bindings
                      && !(db.bindings[b].owner.SoundOwner? && db.bindings[b].owner.sound in gone) :: db.bindings[b])
  }

  function FoldersOf(db: Db, root: nat): set<nat> {
    set f | f in db.folders && db.folders[f].root == root
  }

  /** DELETE FROM roots, with its cascades to folders and locations. */
  function DropRoot(db: Db, root: nat): Db {
    var next := DropFolders(db, FoldersOf(db, root));
    next.(roots := map r | r in db.roots && r != root :: db.roots[r],
          locations := map k | k in next.locations && k.root != root :: next.locations[k])
  }

  /** Whatever hangs below a vanishing folder vanishes too. */
  ghost predicate Downward(folders: map<nat, Folder>, gone: set<nat>) {
    forall f :: f in folders && f !in gone && folders[f].parent.Some? ==> folders[f].parent.value !in gone
  }

  lemma DoomedDownward(folders: map<nat, Folder>, dead: set<nat>)
    requires TreeOk(folders)
    ensures Downward(folders, DoomedSet(folders, dead))
  {
    forall f | f in folders && f !in DoomedSet(folders, dead) && folders[f].parent.Some?
      ensures folders[f].parent.value !in DoomedSet(folders, dead)
    {
      assert ParentOk(folders, f);
      assert !Doomed(folders, f, dead);
    }
  }

  lemma EraseTree(db: Db, gone: set<nat>)
    requires TreeOk(db.folders) && Downward(db.folders, gone)
    ensures TreeOk(EraseFolders(db, gone).folders)
  {
    var next := EraseFolders(db, gone).folders;
    forall f | f in next ensures ParentOk(next, f) {
      assert ParentOk(db.folders, f);
    }
  }

  lemma EraseClosure(db: Db, gone: set<nat>)
    requires ClosureExact(db.folders, db.closure)
    ensures ClosureExact(EraseFolders(db, gone).folders, EraseFolders(db, gone).closure)
  {
    var next := EraseFolders(db, gone);
    forall a, d ensures Link(a, d) in next.closure <==> AncestorOrSelf(next.folders, a, d) {
      assert Link(a, d) in db.closure <==> AncestorOrSelf(db.folders, a, d);
    }
  }

  lemma ErasePresence(db: Db, gone: set<nat>)
    requires PresenceOk(db.folders, db.presence) && Downward(db.folders, gone)
    ensures PresenceOk(EraseFolders(db, gone).folders, EraseFolders(db, gone).presence)
  {
    var next := EraseFolders(db, gone);
    forall p | p in next.presence ensures ParentPresent(next.folders, next.presence, p) {
      assert ParentPresent(db.folders, db.presence, p);
    }
  }

  lemma EraseKeeps(db: Db, gone: set<nat>)
    requires Ok(db) && Downward(db.folders, gone)
    ensures Ok(EraseFolders(db, gone))
  {
    hide Downward, TreeOk, ClosureExact, PresenceOk, RootsOk, SoundsOk, TabsOk, LegacyOk, OwnersOk;
    EraseTree(db, gone);
    EraseClosure(db, gone);
    ErasePresence(db, gone);
  }

  lemma DropFoldersKeeps(db: Db, dead: set<nat>)
    requires Ok(db)
    ensures Ok(DropFolders(db, dead))
  {
    hide EraseFolders, DoomedSet;
    DoomedDownward(db.folders, dead);
    EraseKeeps(db, DoomedSet(db.folders, dead));
  }

  lemma DropSoundsKeeps(db: Db, gone: set<nat>)
    requires Ok(db)
    ensures Ok(DropSounds(db, gone))
  {
    hide TreeOk, FolderRootsOk, ClosureExact, PresenceOk, PresenceNew, RootsOk, SoundsOk, TabsOk, LegacyOk;
    DropSoundsUnique(db, gone);
  }

  lemma DropSoundsUnique(db: Db, gone: set<nat>)
    requires RowsOk(db)
    ensures var next := DropSounds(db, gone);
      && SoundsOk(next.sounds)
      && TabsOk(next.tabs, next.memberships, next.sounds)
      && LegacyOk(next.legacyTabs, next.legacyMemberships, next.sounds)
  {
    hide RootsOk, LocationsOk, CustomOk, OwnersOk;
  }

  /** No folder of another root sits below a folder of this one. */
  lemma {:induction false} DoomedSameRoot(db: Db, root: nat, d: nat)
    requires TreeOk(db.folders)
    ensures Doomed(db.folders, d, FoldersOf(db, root)) <==> d in FoldersOf(db, root)
    decreases if d in db.folders then |db.folders[d].path| else 0
  {
    if d in db.folders {
      assert ParentOk(db.folders, d);
      if db.folders[d].parent.Some? {
        DoomedSameRoot(db, root, db.folders[d].parent.value);
      }
    }
  }

  lemma DropRootIsErase(db: Db, root: nat)
    requires TreeOk(db.folders)
    ensures DropFolders(db, FoldersOf(db, root)) == EraseFolders(db, FoldersOf(db, root))
  {
    hide Doomed, EraseFolders;
    forall d ensures Doomed(db.folders, d, FoldersOf(db, root)) <==> d in FoldersOf(db, root) {
      DoomedSameRoot(db, root, d);
    }
    assert DoomedSet(db.folders, FoldersOf(db, root)) == FoldersOf(db, root);
  }

  // Rows go with the folder or sound they refer to, and stay as they were otherwise.

  ghost predicate Restricts<K(!new), V>(table: map<K, V>, next: map<K, V>) {
    forall k :: k in next ==> k in table && next[k] == table[k]
  }

  ghost predicate PrefsSurvive(prefs: map<nat, Pref>, next: map<nat, Pref>, folders: map<nat, Folder>) {
    Restricts(prefs, next) && forall f :: f in prefs ==> (f in next <==> f in folders)
  }

  ghost predicate OverridesSurvive(overrides: map<Override, Action>, next: map<Override, Action>,
                                   folders: map<nat, Folder>, sounds: map<nat, Sound>) {
    Restricts(overrides, next) && forall o :: o in overrides ==>
      (o in next <==> o.folder in folders && o.sound in sounds)
  }

  ghost predicate ClosureSurvives(closure: map<Link, nat>, next: map<Link, nat>, folders: map<nat, Folder>) {
    Restricts(closure, next) && forall l :: l in closure ==>
      (l in next <==> l.ancestor in folders && l.descendant in folders)
  }

  ghost predicate PresenceSurvives(presence: set<Presence>, next: set<Presence>, folders: map<nat, Folder>) {
    next <= presence && forall p :: p in presence ==> (p in next <==> p.folder in folders)
  }

  ghost predicate MembersSurvive(members: map<Member, int>, next: map<Member, int>, sounds: map<nat, Sound>) {
    Restricts(members, next) && forall m :: m in members ==> (m in next <==> m.sound in sounds)
  }

  ghost predicate BindingsSurvive(bindings: map<string, Binding>, next: map<string, Binding>, sounds: map<nat, Sound>) {
    Restricts(bindings, next) && forall b :: b in bindings ==>
      (b in next <==> (bindings[b].owner.SoundOwner? ==> bindings[b].owner.sound in sounds))
  }

  /** What survives dropping a root: the rows of the other roots, unchanged. */
  ghost predicate WithoutRoot(db: Db, next: Db, root: nat) {
    && next.roots.Keys == db.roots.Keys - {root}
    && (forall r :: r in next.roots ==> next.roots[r] == db.roots[r])
    && (forall f :: f in next.folders <==> f in db.folders && db.folders[f].root != root)
    && (forall f :: f in next.folders ==> next.folders[f] == db.folders[f])
    && (forall p :: p in next.presence <==> p in db.presence && p.folder in next.folders)
    && (forall k :: k in next.locations <==> k in db.locations && k.root != root)
    && (forall k :: k in next.locations ==> next.locations[k] == db.locations[k])
    && PrefsSurvive(db.prefs, next.prefs, next.folders)
    && OverridesSurvive(db.overrides, next.overrides, next.folders, db.sounds)
    && ClosureSurvives(db.closure, next.closure, next.folders)
    && next.sounds == db.sounds && next.scans == db.scans && next.tabs == db.tabs
    && next.memberships == db.memberships && next.bindings == db.bindings
    && next.legacyTabs == db.legacyTabs && next.legacyMemberships == db.legacyMemberships
  }

  lemma DropRootRows(db: Db, root: nat)
    requires TreeOk(db.folders) && PresenceOk(db.folders, db.presence)
    requires LocationsOk(db.locations, db.sounds, db.roots, db.folders)
    requires ClosureExact(db.folders, db.closure) && CustomOk(db.prefs, db.overrides, db.folders, db.sounds)
    ensures WithoutRoot(db, DropRoot(db, root), root)
  {
    hide DropFolders, TreeOk;
    DropRootIsErase(db, root);
    ErasedRows(db, FoldersOf(db, root));
    assert DropRoot(db, root).folders == EraseFolders(db, FoldersOf(db, root)).folders;
  }

  lemma ErasedRows(db: Db, gone: set<nat>)
    requires ClosureExact(db.folders, db.closure) && CustomOk(db.prefs, db.overrides, db.folders, db.sounds)
    ensures var next := EraseFolders(db, gone);
      && PrefsSurvive(db.prefs, next.prefs, next.folders)
      && OverridesSurvive(db.overrides, next.overrides, next.folders, db.sounds)
      && ClosureSurvives(db.closure, next.closure, next.folders)
  {
    forall l | l in db.closure ensures l.ancestor in db.folders && l.descendant in db.folders {
      assert l == Link(l.ancestor, l.descendant);
    }
  }

  lemma DropRootKeeps(db: Db, root: nat)
    requires Ok(db) && root in db.roots && db.roots[root].path !in db.scans
    ensures Ok(DropRoot(db, root)) && WithoutRoot(db, DropRoot(db, root), root)
  {
    hide PrefsSurvive, OverridesSurvive, ClosureSurvives;
    var middle := DropFolders(db, FoldersOf(db, root));
    var next := DropRoot(db, root);
    assert next == middle.(roots := next.roots, locations := next.locations);
    DropFoldersKeeps(db, FoldersOf(db, root));
    DropRootRows(db, root);
    DropRootFinal(db, middle, next, root);
  }

  lemma DropRootFinal(db: Db, middle: Db, next: Db, root: nat)
    requires RootsOk(db.roots, db.scans) && Ok(middle) && WithoutRoot(db, next, root)
    requires next == middle.(roots := next.roots, locations := next.locations)
    requires middle.roots == db.roots && middle.locations.Keys <= db.locations.Keys
    requires forall k :: k in db.locations && k.root != root ==>
      k in middle.locations && middle.locations[k] == db.locations[k]
    requires root in db.roots && db.roots[root].path !in db.scans
    ensures Ok(next)
  {
    hide ClosureExact, PresenceOk, TreeOk, RootsOk, SoundsOk, TabsOk, LegacyOk, CustomOk, OwnersOk, WithoutRoot,
         LocationsOk, PresenceNew, FolderRootsOk, PrefsSurvive, OverridesSurvive, ClosureSurvives;
    DropRootLocations(db, middle, next, root);
    DropRootScans(db.roots, next.roots, db.scans, root);
    DropRootGenerations(db, middle, next, root);
  }

  lemma DropRootLocations(db: Db, middle: Db, next: Db, root: nat)
    requires WithoutRoot(db, next, root) && LocationsOk(middle.locations, middle.sounds, middle.roots, middle.folders)
    requires middle.roots == db.roots && middle.locations.Keys <= db.locations.Keys
    requires forall k :: k in db.locations && k.root != root ==>
      k in middle.locations && middle.locations[k] == db.locations[k]
    ensures LocationsOk(next.locations, middle.sounds, next.roots, middle.folders)
    ensures next.scans == db.scans
    ensures next.roots.Keys == db.roots.Keys - {root} && forall r :: r in next.roots ==> next.roots[r] == db.roots[r]
  {
    hide PrefsSurvive, OverridesSurvive, ClosureSurvives;
  }

  lemma DropRootGenerations(db: Db, middle: Db, next: Db, root: nat)
    requires WithoutRoot(db, next, root) && next.folders == middle.folders && middle.roots == db.roots
    requires FolderRootsOk(middle.folders, middle.roots) && PresenceNew(middle.folders, middle.presence, middle.roots)
    ensures FolderRootsOk(middle.folders, next.roots) && PresenceNew(middle.folders, middle.presence, next.roots)
  {
    hide PrefsSurvive, OverridesSurvive, ClosureSurvives;
  }

  lemma DropRootScans(roots: map<nat, Root>, next: map<nat, Root>, scans: map<string, nat>, root: nat)
    requires RootsOk(roots, scans)
    requires next.Keys == roots.Keys - {root} && forall r :: r in next ==> next[r] == roots[r]
    requires root in roots && roots[root].path !in scans
    ensures RootsOk(next, scans)
  {
    forall p | p in scans ensures RootAt(next, p).Some? {
      RootAtFinds(next, RootAt(roots, p).value);
    }
  }

  // ---- remove_root ------------------------------------------------------------------

  /** Scanned sounds that nothing refers to any more. */
  function Orphans(db: Db): set<nat> {
    set s | s in db.sounds && !db.sounds[s].standalone
      && (forall k | k in db.locations :: k.sound != s)
      && (forall m | m in db.memberships :: m.sound != s)
  }

  function RemoveRoot(db: Db, path: string): Db {
    var cleared := db.(scans := db.scans - {path});
    var dropped := match RootAt(db.roots, path) { case Some(root) => DropRoot(cleared, root) case None => cleared };
    DropSounds(dropped, Orphans(dropped))
  }

  method RemoveScannedRoot(c: Connection, path: string) returns (changed: bool)
    modifies c
    ensures c.db == RemoveRoot(old(c.db), path)
    ensures changed == RootAt(old(c.db.roots), path).Some?
  {
    var tx := new Transaction(c);
    var found := RootAt(tx.db.roots, path);
    tx.db := tx.db.(scans := tx.db.scans - {path});
    if found.Some? {
      tx.db := DropRoot(tx.db, found.value);
    }
    tx.db := DropSounds(tx.db, Orphans(tx.db));
    tx.Commit(c);
    return found.Some?;
  }

  lemma ClearScanKeeps(db: Db, path: string)
    requires Ok(db)
    ensures Ok(db.(scans := db.scans - {path}))
  {
    hide TreeOk, FolderRootsOk, ClosureExact, PresenceOk, PresenceNew, SoundsOk, LocationsOk, TabsOk, LegacyOk,
         CustomOk, OwnersOk;
  }

  /**
   Removing a root keeps the invariant, leaves no row of that root behind, and deletes
   exactly the scanned sounds that have no location and no manual membership left.
   */
  lemma RemoveRootExact(db: Db, path: string)
    requires Ok(db)
    ensures var next := RemoveRoot(db, path);
      && Ok(next)
      && RootAt(next.roots, path).None? && path !in next.scans
      && (forall r :: r in next.roots <==> r in db.roots && db.roots[r].path != path)
      && (forall f :: f in next.folders <==> f in db.folders && db.folders[f].root in next.roots)
      && (forall k :: k in next.locations <==> k in db.locations && k.root in next.roots)
      && (forall s :: s in next.sounds <==>
            s in db.sounds && (db.sounds[s].standalone
              || (exists k :: k in db.locations && k.sound == s && k.root in next.roots)
              || (exists m :: m in db.memberships && m.sound == s)))
  {
    hide Ok, DropRoot, DropSounds, Orphans;
    var cleared := db.(scans := db.scans - {path});
    ClearScanKeeps(db, path);
    var found := RootAt(db.roots, path);
    var dropped := match found { case Some(root) => DropRoot(cleared, root) case None => cleared };
    RemoveRootDropped(db, cleared, path);
    DropSoundsKeeps(dropped, Orphans(dropped));
    DropSoundsFrame(dropped, Orphans(dropped));
    RemoveRootOrphans(db, dropped, path);
  }

  lemma DropSoundsFrame(db: Db, gone: set<nat>)
    ensures var next := DropSounds(db, gone);
      next.roots == db.roots && next.folders == db.folders && next.scans == db.scans
  {}

  /** Every table loses exactly the rows whose folder or sound is gone; what remains is unchanged. */
  ghost predicate RowsSurvive(db: Db, next: Db) {
    && Restricts(db.roots, next.roots) && Restricts(db.folders, next.folders) && Restricts(db.sounds, next.sounds)
    && Restricts(db.locations, next.locations)
    && PrefsSurvive(db.prefs, next.prefs, next.folders)
    && OverridesSurvive(db.overrides, next.overrides, next.folders, next.sounds)
    && ClosureSurvives(db.closure, next.closure, next.folders)
    && PresenceSurvives(db.presence, next.presence, next.folders)
    && MembersSurvive(db.memberships, next.memberships, next.sounds)
    && MembersSurvive(db.legacyMemberships, next.legacyMemberships, next.sounds)
    && BindingsSurvive(db.bindings, next.bindings, next.sounds)
    && next.tabs == db.tabs && next.legacyTabs == db.legacyTabs
  }

  lemma RestrictsTwice<K(!new), V>(a: map<K, V>, b: map<K, V>, c: map<K, V>)
    requires Restricts(a, b) && Restricts(b, c)
    ensures Restricts(a, c)
  {}

  lemma MembersTwice(a: map<Member, int>, b: map<Member, int>, c: map<Member, int>, sounds: map<nat, Sound>,
                     next: map<nat, Sound>)
    requires MembersSurvive(a, b, sounds) && MembersSurvive(b, c, next) && Restricts(sounds, next)
    ensures MembersSurvive(a, c, next)
  {}

  lemma CustomTwice(a: Db, b: Db, c: Db)
    requires Restricts(a.folders, b.folders) && Restricts(b.folders, c.folders)
    requires Restricts(a.sounds, b.sounds) && Restricts(b.sounds, c.sounds)
    requires PrefsSurvive(a.prefs, b.prefs, b.folders) && PrefsSurvive(b.prefs, c.prefs, c.folders)
    requires OverridesSurvive(a.overrides, b.overrides, b.folders, b.sounds)
    requires OverridesSurvive(b.overrides, c.overrides, c.folders, c.sounds)
    ensures PrefsSurvive(a.prefs, c.prefs, c.folders) && OverridesSurvive(a.overrides, c.overrides, c.folders, c.sounds)
  {}

  lemma TreeTwice(a: Db, b: Db, c: Db)
    requires Restricts(a.folders, b.folders) && Restricts(b.folders, c.folders)
    requires ClosureSurvives(a.closure, b.closure, b.folders) && ClosureSurvives(b.closure, c.closure, c.folders)
    requires PresenceSurvives(a.presence, b.presence, b.folders) && PresenceSurvives(b.presence, c.presence, c.folders)
    ensures ClosureSurvives(a.closure, c.closure, c.folders) && PresenceSurvives(a.presence, c.presence, c.folders)
  {}

  lemma BindingsTwice(a: map<string, Binding>, b: map<string, Binding>, c: map<string, Binding>,
                      sounds: map<nat, Sound>, next: map<nat, Sound>)
    requires BindingsSurvive(a, b, sounds) && BindingsSurvive(b, c, next) && Restricts(sounds, next)
    ensures BindingsSurvive(a, c, next)
  {}

  lemma SurviveTwice(a: Db, b: Db, c: Db)
    requires RowsSurvive(a, b) && RowsSurvive(b, c)
    ensures RowsSurvive(a, c)
  {
    hide Restricts, PrefsSurvive, OverridesSurvive, ClosureSurvives, PresenceSurvives, MembersSurvive, BindingsSurvive;
    RestrictsTwice(a.roots, b.roots, c.roots);
    RestrictsTwice(a.folders, b.folders, c.folders);
    RestrictsTwice(a.sounds, b.sounds, c.sounds);
    RestrictsTwice(a.locations, b.locations, c.locations);
    CustomTwice(a, b, c);
    TreeTwice(a, b, c);
    MembersTwice(a.memberships, b.memberships, c.memberships, b.sounds, c.sounds);
    MembersTwice(a.legacyMemberships, b.legacyMemberships, c.legacyMemberships, b.sounds, c.sounds);
    BindingsTwice(a.bindings, b.bindings, c.bindings, b.sounds, c.sounds);
  }

  /** What refers to sounds is in order. */
  lemma OkReferences(db: Db)
    requires Ok(db)
    ensures (forall m :: m in db.memberships ==> m.sound in db.sounds)
         && (forall m :: m in db.legacyMemberships ==> m.sound in db.sounds)
         && (forall f :: f in db.prefs ==> f in db.folders)
         && (forall o :: o in db.overrides ==> o.folder in db.folders && o.sound in db.sounds)
         && OwnersOk(db.bindings, db.sounds)
         && (forall p :: p in db.presence ==> p.folder in db.folders)
         && (forall l :: l in db.closure ==> l.ancestor in db.folders && l.descendant in db.folders)
  {
    hide TreeOk, FolderRootsOk, PresenceNew, RootsOk, SoundsOk, LocationsOk;
    forall l | l in db.closure ensures l.ancestor in db.folders && l.descendant in db.folders {
      assert l == Link(l.ancestor, l.descendant);
    }
  }

  lemma DropSoundsSurvive(db: Db, gone: set<nat>)
    requires Ok(db)
    ensures RowsSurvive(db, DropSounds(db, gone)) && DropSounds(db, gone).scans == db.scans
  {
    hide Ok;
    OkReferences(db);
  }

  lemma WithoutRootSurvive(db: Db, next: Db, root: nat)
    requires Ok(db) && WithoutRoot(db, next, root)
    ensures RowsSurvive(db, next) && next.scans == db.scans
  {
    hide Ok, PrefsSurvive, OverridesSurvive, ClosureSurvives;
    OkReferences(db);
  }

  lemma SurviveSelf(db: Db)
    requires Ok(db)
    ensures RowsSurvive(db, db)
  {
    hide Ok;
    OkReferences(db);
  }

  /** The cascades of a removal: what refers to a removed folder or sound goes, and nothing else changes. */
  lemma RemoveRootCascades(db: Db, path: string)
    requires Ok(db)
    ensures RowsSurvive(db, RemoveRoot(db, path)) && RemoveRoot(db, path).scans == db.scans - {path}
  {
    hide Ok, DropRoot, RowsSurvive, DropSounds, WithoutRoot;
    var cleared := db.(scans := db.scans - {path});
    ClearScanKeeps(db, path);
    RemoveRootDropped(db, cleared, path);
    SurviveSelf(cleared);
    var found := RootAt(db.roots, path);
    var dropped := match found { case Some(root) => DropRoot(cleared, root) case None => cleared };
    if found.Some? {
      DropRootKeeps(cleared, found.value);
      WithoutRootSurvive(cleared, dropped, found.value);
    }
    DropSoundsSurvive(dropped, Orphans(dropped));
    SurviveTwice(cleared, dropped, DropSounds(dropped, Orphans(dropped)));
    ScansApart(db, path, DropSounds(dropped, Orphans(dropped)));
  }

  lemma ScansApart(db: Db, path: string, next: Db)
    requires RowsSurvive(db.(scans := db.scans - {path}), next)
    ensures RowsSurvive(db, next)
  {
    hide Restricts, PrefsSurvive, OverridesSurvive, ClosureSurvives, PresenceSurvives, MembersSurvive, BindingsSurvive;
  }

  ghost predicate DroppedPath(db: Db, dropped: Db, path: string) {
    && dropped.sounds == db.sounds && dropped.memberships == db.memberships && path !in dropped.scans
    && (forall r :: r in dropped.roots <==> r in db.roots && db.roots[r].path != path)
    && (forall r :: r in dropped.roots ==> dropped.roots[r] == db.roots[r])
    && (forall f :: f in dropped.folders <==> f in db.folders && db.folders[f].root in dropped.roots)
    && (forall k :: k in dropped.locations <==> k in db.locations && k.root in dropped.roots)
  }

  lemma RemoveRootOrphans(db: Db, dropped: Db, path: string)
    requires DroppedPath(db, dropped, path)
    ensures var next := DropSounds(dropped, Orphans(dropped));
      && (forall k :: k in next.locations <==> k in db.locations && k.root in next.roots)
      && (forall s :: s in next.sounds <==>
            s in db.sounds && (db.sounds[s].standalone
              || (exists k :: k in db.locations && k.sound == s && k.root in next.roots)
              || (exists m :: m in db.memberships && m.sound == s)))
      && RootAt(next.roots, path).None?
  {
    hide Orphans;
    forall s ensures s in Orphans(dropped) <==>
      s in db.sounds && !(db.sounds[s].standalone
        || (exists k :: k in dropped.locations && k.sound == s)
        || (exists m :: m in db.memberships && m.sound == s))
    {
      OrphanMeans(dropped, s);
    }
  }

  lemma OrphanMeans(db: Db, s: nat)
    ensures s in Orphans(db) <==>
      s in db.sounds && !(db.sounds[s].standalone
        || (exists k :: k in db.locations && k.sound == s)
        || (exists m :: m in db.memberships && m.sound == s))
  {}

  lemma RemoveRootDropped(db: Db, cleared: Db, path: string)
    requires Ok(db) && cleared == db.(scans := db.scans - {path}) && Ok(cleared)
    ensures var found := RootAt(db.roots, path);
            var dropped := match found { case Some(root) => DropRoot(cleared, root) case None => cleared };
      Ok(dropped) && DroppedPath(db, dropped, path)
  {
    hide Ok, DropRoot, DroppedPath;
    match RootAt(db.roots, path) {
      case None => NoRootDropped(db, cleared, path);
      case Some(root) =>
        DropRootKeeps(cleared, root);
        RootDropped(db, cleared, DropRoot(cleared, root), path, root);
    }
  }

  lemma NoRootDropped(db: Db, cleared: Db, path: string)
    requires Ok(db) && cleared == db.(scans := db.scans - {path}) && RootAt(db.roots, path).None?
    ensures DroppedPath(db, cleared, path)
  {
    hide TreeOk, ClosureExact, PresenceOk, PresenceNew, SoundsOk, TabsOk, LegacyOk, CustomOk, OwnersOk;
    forall r | r in db.roots ensures db.roots[r].path != path {
      assert r !in RootIds(db.roots, path);
    }
  }

  lemma RootDropped(db: Db, cleared: Db, dropped: Db, path: string, root: nat)
    requires Ok(db) && cleared == db.(scans := db.scans - {path}) && RootAt(db.roots, path) == Some(root)
    requires WithoutRoot(cleared, dropped, root)
    ensures DroppedPath(db, dropped, path)
  {
    hide TreeOk, ClosureExact, PresenceOk, PresenceNew, SoundsOk, TabsOk, LegacyOk, CustomOk, OwnersOk,
         PrefsSurvive, OverridesSurvive, ClosureSurvives, RootAt;
  }
}
