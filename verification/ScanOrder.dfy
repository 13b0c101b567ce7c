/**
 Why batch boundaries do not matter: registering a folder twice is registering it once, and
 registering folders commutes with inserting sounds.
 */
module ScanOrder {
  import opened Wrappers
  import opened Ordering
  import opened Tables
  import opened FolderScan
  import opened RootScan
  import opened Staging

  // ---- folders commute with sounds -----------------------------------------------------------

  /** `db` with the folder, presence and closure tables of `tree`. */
  function Graft(db: Db, tree: Db): Db {
    db.(folders := tree.folders, presence := tree.presence, closure := tree.closure)
  }

  lemma {:induction false} EnsurePrefixIgnores(db: Db, other: Db, root: nat, generation: nat, row: FolderRow, n: nat)
    requires n <= |row.path|
    requires other.folders == db.folders && other.presence == db.presence && other.closure == db.closure
    ensures EnsurePrefix(other, root, generation, row, n) == Graft(other, EnsurePrefix(db, root, generation, row, n))
  {
    hide UpsertFolder, LinkUp, RowId, ParentAt;
    if n > 0 {
      EnsurePrefixIgnores(db, other, root, generation, row, n - 1);
    }
  }

  /** Every folder found in `db` is found under the same row id in `next`. */
  ghost predicate FindsAlike(db: Db, next: Db, root: nat) {
    forall p, id :: FolderAt(db.folders, root, p) == Some(id) ==> FolderAt(next.folders, root, p) == Some(id)
  }

  lemma GrowsFindsAlike(db: Db, next: Db, root: nat)
    requires Grows(db, next) && TreeOk(next.folders)
    ensures FindsAlike(db, next, root)
  {
    forall p, id | FolderAt(db.folders, root, p) == Some(id) ensures FolderAt(next.folders, root, p) == Some(id) {
      assert id in FolderIds(next.folders, root, p);
    }
  }

  lemma {:induction false} PutLocationsCommute(db: Db, next: Db, sound: nat, root: nat, path: string, generation: nat,
                                               rows: seq<LocationRow>, n: nat)
    requires n <= |rows| && next == Graft(db, next) && FindsAlike(db, next, root)
    requires PutLocations(db, sound, root, path, generation, rows, n).Success?
    ensures PutLocations(next, sound, root, path, generation, rows, n)
         == Success(Graft(PutLocations(db, sound, root, path, generation, rows, n).value, next))
    ensures Graft(PutLocations(db, sound, root, path, generation, rows, n).value, db)
         == PutLocations(db, sound, root, path, generation, rows, n).value
  {
    hide FolderAt;
    if n > 0 {
      PutLocationsCommute(db, next, sound, root, path, generation, rows, n - 1);
    }
  }

  lemma InsertSoundCommutes(db: Db, next: Db, root: nat, path: string, generation: nat, row: SoundRow)
    requires next == Graft(db, next) && FindsAlike(db, next, root)
    requires InsertSound(db, root, path, generation, row).Success?
    ensures InsertSound(next, root, path, generation, row)
         == Success(Graft(InsertSound(db, root, path, generation, row).value, next))
    ensures Graft(InsertSound(db, root, path, generation, row).value, db)
         == InsertSound(db, root, path, generation, row).value
  {
    hide PutSound, PutLocations;
    var (sounds, id) := PutSound(db.sounds, row).value;
    PutLocationsCommute(db.(sounds := sounds), next.(sounds := sounds), id, root, path, generation, row.locations,
      |row.locations|);
  }

  lemma {:induction false} PutSoundsCommute(db: Db, next: Db, root: nat, path: string, generation: nat,
                                            rows: seq<SoundRow>, n: nat)
    requires n <= |rows| && next == Graft(db, next) && FindsAlike(db, next, root)
    requires PutSounds(db, root, path, generation, rows, n).Success?
    ensures PutSounds(next, root, path, generation, rows, n)
         == Success(Graft(PutSounds(db, root, path, generation, rows, n).value, next))
    ensures Graft(PutSounds(db, root, path, generation, rows, n).value, db)
         == PutSounds(db, root, path, generation, rows, n).value
  {
    hide InsertSound;
    if n > 0 {
      PutSoundsCommute(db, next, root, path, generation, rows, n - 1);
      var prior := PutSounds(db, root, path, generation, rows, n - 1).value;
      InsertSoundCommutes(prior, Graft(prior, next), root, path, generation, rows[n - 1]);
    }
  }

  // ---- registering again changes nothing --------------------------------------------------------

  /** Every folder on the row's path is present at the generation, and the last is named and placed as the row says. */
  ghost predicate Registered(db: Db, root: nat, generation: nat, row: FolderRow) {
    && (forall n :: 1 <= n <= |row.path| ==>
          FolderAt(db.folders, root, row.path[..n]).Some?
          && Presence(FolderAt(db.folders, root, row.path[..n]).value, generation) in db.presence)
    && (row.path != [] ==>
          FolderAt(db.folders, root, row.path).Some?
          && var last := db.folders[FolderAt(db.folders, root, row.path).value];
             last.name == row.name && last.position == row.position)
  }

  lemma LinkUpIdle(folders: map<nat, Folder>, closure: map<Link, nat>, id: nat, parent: Option<nat>)
    requires TreeOk(folders) && ClosureExact(folders, closure) && id in folders && folders[id].parent == parent
    ensures LinkUp(closure, id, parent) == closure
  {
    assert ParentOk(folders, id);
    assert Link(id, id) in closure <==> AncestorOrSelf(folders, id, id);
    if parent.Some? {
      var above := Inherited(closure, id, parent.value);
      forall l | l in above ensures l in closure {
        assert l == Link(l.ancestor, id);
        assert Link(l.ancestor, parent.value) in closure <==> AncestorOrSelf(folders, l.ancestor, parent.value);
        assert folders[l.ancestor].path <= folders[parent.value].path <= folders[id].path;
        assert Link(l.ancestor, id) in closure <==> AncestorOrSelf(folders, l.ancestor, id);
      }
      assert above + closure == closure;
    }
  }

  lemma StepIdle(db: Db, root: nat, generation: nat, row: FolderRow, n: nat)
    requires TreeState(db) && Registered(db, root, generation, row) && 1 <= n <= |row.path|
    ensures EnsureStep(db, root, generation, row, n) == db
  {
    hide FolderAt, LinkUp, ClosureExact, PresenceOk, PresenceNew, FolderRootsOk;
    var path := row.path[..n];
    var id := FolderAt(db.folders, root, path).value;
    assert ParentOk(db.folders, id);
    assert path[..n - 1] == row.path[..n - 1];
    assert n == |row.path| ==> path == row.path;
    ParentIs(db.folders, root, path, id);
    LinkUpIdle(db.folders, db.closure, id, ParentAt(db.folders, root, path));
  }

  lemma ParentIs(folders: map<nat, Folder>, root: nat, path: Path, id: nat)
    requires TreeOk(folders) && path != [] && FolderAt(folders, root, path) == Some(id)
    ensures ParentAt(folders, root, path) == folders[id].parent
  {
    assert ParentOk(folders, id);
    if |path| > 1 {
      assert folders[id].parent.value in FolderIds(folders, root, path[..|path| - 1]);
    }
  }

  lemma {:induction false} EnsureIdle(db: Db, root: nat, generation: nat, row: FolderRow, n: nat)
    requires TreeState(db) && Registered(db, root, generation, row) && n <= |row.path|
    ensures EnsurePrefix(db, root, generation, row, n) == db
  {
    hide TreeState, Registered, EnsureStep;
    if n > 0 {
      EnsureIdle(db, root, generation, row, n - 1);
      StepIdle(db, root, generation, row, n);
    }
  }

  /** The folder row a step leaves at its path. */
  lemma {:induction false} EnsurePrefixLast(db: Db, root: nat, generation: nat, row: FolderRow, n: nat, p: Path)
    requires n <= |row.path| && (p != row.path || n == |row.path|)
    requires FolderAt(EnsurePrefix(db, root, generation, row, n).folders, root, p).Some?
    ensures var next := EnsurePrefix(db, root, generation, row, n).folders;
            var id := FolderAt(next, root, p).value;
      if p == row.path && p != [] then next[id].name == row.name && next[id].position == row.position
      else id in db.folders ==> next[id].name == db.folders[id].name && next[id].position == db.folders[id].position
  {
    hide FolderAt, EnsureStep, PathIds;
    if n > 0 {
      var prior := EnsurePrefix(db, root, generation, row, n - 1);
      EnsurePrefixAdds(db, root, generation, row, n - 1);
      LastStep(prior, root, generation, row, n, p);
      if p != row.path && FolderAt(prior.folders, root, p).Some? {
        EnsurePrefixLast(db, root, generation, row, n - 1, p);
      }
    }
  }

  lemma LastStep(db: Db, root: nat, generation: nat, row: FolderRow, n: nat, p: Path)
    requires 1 <= n <= |row.path| && (p != row.path || n == |row.path|)
    requires FolderAt(EnsureStep(db, root, generation, row, n).folders, root, p).Some?
    ensures var next := EnsureStep(db, root, generation, row, n).folders;
            var id := FolderAt(next, root, p).value;
      if p == row.path then next[id].name == row.name && next[id].position == row.position
      else if FolderAt(db.folders, root, p).Some? then
        id == FolderAt(db.folders, root, p).value && next[id].name == db.folders[id].name
        && next[id].position == db.folders[id].position
      else id !in db.folders
  {
    var path := row.path[..n];
    var parent := ParentAt(db.folders, root, path);
    var next := EnsureStep(db, root, generation, row, n).folders;
    UpsertPlaces(db.folders, root, parent, row, n);
    PlacedLookups(db.folders, next, RowId(db.folders, root, path), root, path, parent);
    assert n == |row.path| ==> path == row.path;
  }

  lemma EnsureRegisters(db: Db, root: nat, generation: nat, row: FolderRow)
    requires Ok(db) && root in db.roots && db.roots[root].active <= generation
    ensures Registered(EnsureFolder(db, root, generation, row), root, generation, row)
  {
    hide Ok, FolderAt, EnsurePrefix, PathIds;
    EnsurePrefixAdds(db, root, generation, row, |row.path|);
    var next := EnsureFolder(db, root, generation, row);
    forall n | 1 <= n <= |row.path|
      ensures Presence(FolderAt(next.folders, root, row.path[..n]).value, generation) in next.presence
    {
      PathIdsMember(next.folders, root, row.path, |row.path|, n);
    }
    assert row.path[..|row.path|] == row.path;
    if row.path != [] {
      EnsurePrefixLast(db, root, generation, row, |row.path|, row.path);
    }
  }

  lemma OkTree(db: Db)
    requires Ok(db)
    ensures TreeState(db)
  {
    hide TreeState, RowsOk;
  }

  /** Registering another folder leaves a registered one registered, as long as equal paths mean equal rows. */
  lemma EnsureKeepsRegistered(db: Db, root: nat, generation: nat, row: FolderRow, other: FolderRow)
    requires Ok(db) && root in db.roots && db.roots[root].active <= generation
    requires Registered(db, root, generation, row)
    requires row.path == other.path ==> row == other
    ensures Registered(EnsureFolder(db, root, generation, other), root, generation, row)
  {
    hide Ok, FolderAt, EnsurePrefix, Ensured, Registered, TreeState, FindsAlike;
    if row.path == other.path {
      EnsureRegisters(db, root, generation, row);
    } else {
      var next := EnsureFolder(db, root, generation, other);
      EnsureFolderKeeps(db, root, generation, other);
      TreeFinds(db, next, root);
      LastSurvives(db, root, generation, row, other);
      RegisteredSurvives(db, next, root, generation, row);
    }
  }

  lemma TreeFinds(db: Db, next: Db, root: nat)
    requires Grows(db, next) && Ok(next)
    ensures FindsAlike(db, next, root)
  {
    hide FolderAt, RowsOk, ClosureExact, PresenceOk, PresenceNew, FindsAlike, TreeOk;
    GrowsFindsAlike(db, next, root);
  }

  /** The last folder of a registered row keeps its name and position when another row is registered. */
  ghost predicate LastAlike(db: Db, next: Db, root: nat, path: Path) {
    path != [] && FolderAt(db.folders, root, path).Some? && FolderAt(next.folders, root, path).Some? ==>
      var id := FolderAt(next.folders, root, path).value;
      id in db.folders ==>
        next.folders[id].name == db.folders[id].name && next.folders[id].position == db.folders[id].position
  }

  lemma LastSurvives(db: Db, root: nat, generation: nat, row: FolderRow, other: FolderRow)
    requires row.path != other.path
    ensures LastAlike(db, EnsureFolder(db, root, generation, other), root, row.path)
  {
    hide FolderAt, EnsurePrefix;
    if row.path != [] && FolderAt(EnsureFolder(db, root, generation, other).folders, root, row.path).Some? {
      EnsurePrefixLast(db, root, generation, other, |other.path|, row.path);
    }
  }

  lemma RegisteredSurvives(db: Db, next: Db, root: nat, generation: nat, row: FolderRow)
    requires Registered(db, root, generation, row) && FindsAlike(db, next, root) && Grows(db, next)
    requires LastAlike(db, next, root, row.path)
    ensures Registered(next, root, generation, row)
  {
    hide FolderAt;
  }
}
