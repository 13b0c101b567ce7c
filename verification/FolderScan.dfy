/**
 Registering a scanned folder: every component of its path gets a folder row, a
 presence row at the scanned generation and its rows of the closure table.
 */
module FolderScan {
  import opened Wrappers
  import opened Ordering
  import opened Tables

  datatype FolderRow = FolderRow(rootPath: string, path: Path, name: string, position: int)

  /** A private copy of the database; nothing is visible to others until it is committed. */
  class Transaction {
    var db: Db

    constructor (connection: Connection)
      ensures db == connection.db
    {
      db := connection.db;
    }

    method Commit(connection: Connection)
      modifies connection
      ensures connection.db == db
    {
      connection.db := db;
    }
  }

  function ParentAt(folders: map<nat, Folder>, root: nat, path: Path): Option<nat> {
    if |path| <= 1 then None else FolderAt(folders, root, path[..|path| - 1])
  }

  function RowId(folders: map<nat, Folder>, root: nat, path: Path): nat {
    match FolderAt(folders, root, path)
    case Some(id) => id
    case None => NextId(folders.Keys)
  }

  /** INSERT INTO folders ... ON CONFLICT DO UPDATE for the first `n` components of the row's path. */
  function UpsertFolder(folders: map<nat, Folder>, root: nat, parent: Option<nat>, row: FolderRow, n: nat)
    : map<nat, Folder>
    requires 1 <= n <= |row.path|
  {
    var path := row.path[..n];
    var target := n == |row.path|;
    match FolderAt(folders, root, path)
    case Some(id) =>
      folders[id := folders[id].(
        parent := parent,
        name := if target then row.name else folders[id].name,
        position := if target then row.position else folders[id].position)]
    case None =>
      folders[NextId(folders.Keys) := Folder(root, parent, path,
        if target then row.name else row.path[n - 1],
        if target then row.position else 0)]
  }

  /** One closure row for `folder` per row of its parent, one step deeper. */
  function Inherited(rows: map<Link, nat>, folder: nat, parent: nat): (r: map<Link, nat>)
    ensures forall k :: k in r <==> k.descendant == folder && Link(k.ancestor, parent) in rows
    ensures forall k :: k in r ==> r[k] == rows[Link(k.ancestor, parent)] + 1
  {
    var r := map l | l in rows && l.descendant == parent :: Link(l.ancestor, folder) := rows[l] + 1;
    assert forall a :: Link(a, parent) in rows ==> Link(Link(a, parent).ancestor, folder) in r;
    r
  }

  /** INSERT OR IGNORE of the self row, then of one row per ancestor of the parent. */
  function LinkUp(closure: map<Link, nat>, folder: nat, parent: Option<nat>): map<Link, nat> {
    var own := if Link(folder, folder) in closure then closure else closure[Link(folder, folder) := 0];
    match parent
    case None => own
    case Some(p) => Inherited(own, folder, p) + own
  }

  function EnsureStep(db: Db, root: nat, generation: nat, row: FolderRow, n: nat): Db
    requires 1 <= n <= |row.path|
  {
    var parent := ParentAt(db.folders, root, row.path[..n]);
    var id := RowId(db.folders, root, row.path[..n]);
    db.(folders := UpsertFolder(db.folders, root, parent, row, n),
        presence := db.presence + {Presence(id, generation)},
        closure := LinkUp(db.closure, id, parent))
  }

  function EnsurePrefix(db: Db, root: nat, generation: nat, row: FolderRow, n: nat): Db
    requires n <= |row.path|
  {
    if n == 0 then db
    else EnsureStep(EnsurePrefix(db, root, generation, row, n - 1), root, generation, row, n)
  }

  function EnsureFolder(db: Db, root: nat, generation: nat, row: FolderRow): Db {
    EnsurePrefix(db, root, generation, row, |row.path|)
  }

  // ---- lookups after a step ---------------------------------------------------

  lemma FolderAtAgrees(left: map<nat, Folder>, right: map<nat, Folder>, root: nat, path: Path)
    requires forall id :: id in FolderIds(left, root, path) <==> id in FolderIds(right, root, path)
    ensures FolderAt(left, root, path) == FolderAt(right, root, path)
  {
    assert FolderIds(left, root, path) == FolderIds(right, root, path);
  }

  /** `next` is `folders` with row `id` standing at (root, path) under `parent`. */
  ghost predicate Placed(folders: map<nat, Folder>, next: map<nat, Folder>, id: nat,
                         root: nat, path: Path, parent: Option<nat>)
  {
    && next.Keys == folders.Keys + {id}
    && (forall f :: f in folders && f != id ==> next[f] == folders[f])
    && next[id].root == root && next[id].path == path && next[id].parent == parent
    && (if id in folders then folders[id].root == root && folders[id].path == path
        else FolderIds(folders, root, path) == {})
  }

  lemma UpsertPlaces(folders: map<nat, Folder>, root: nat, parent: Option<nat>, row: FolderRow, n: nat)
    requires 1 <= n <= |row.path|
    ensures Placed(folders, UpsertFolder(folders, root, parent, row, n),
                   RowId(folders, root, row.path[..n]), root, row.path[..n], parent)
  {}

  lemma PlacedLookups(folders: map<nat, Folder>, next: map<nat, Folder>, id: nat,
                      root: nat, path: Path, parent: Option<nat>)
    requires Placed(folders, next, id, root, path, parent)
    requires id in folders ==> FolderAt(folders, root, path) == Some(id)
    ensures FolderAt(next, root, path) == Some(id)
    ensures forall r, p :: r != root || p != path ==> FolderAt(next, r, p) == FolderAt(folders, r, p)
  {
    forall r, p | r != root || p != path ensures FolderAt(next, r, p) == FolderAt(folders, r, p) {
      FolderAtAgrees(next, folders, r, p);
    }
    if id in folders {
      FolderAtAgrees(next, folders, root, path);
    } else {
      assert FolderIds(next, root, path) == {id} by {
        forall f | f in FolderIds(next, root, path) ensures f == id {
          assert f == id || f in FolderIds(folders, root, path);
        }
      }
    }
  }

  lemma StepFinds(db: Db, root: nat, generation: nat, row: FolderRow, n: nat)
    requires 1 <= n <= |row.path|
    ensures FolderAt(EnsureStep(db, root, generation, row, n).folders, root, row.path[..n])
         == Some(RowId(db.folders, root, row.path[..n]))
  {
    var path := row.path[..n];
    var parent := ParentAt(db.folders, root, path);
    UpsertPlaces(db.folders, root, parent, row, n);
    PlacedLookups(db.folders, EnsureStep(db, root, generation, row, n).folders,
                  RowId(db.folders, root, path), root, path, parent);
  }

  /** The loop of the scan: components from the left, carrying the parent's row id. */
  method EnsureScanFolder(tx: Transaction, root: nat, generation: nat, row: FolderRow)
    returns (r: Result<nat, LibraryError>)
    modifies tx
    ensures row.path == [] ==> r == Failure(InvalidData) && tx.db == old(tx.db)
    ensures row.path != [] ==>
      && tx.db == EnsureFolder(old(tx.db), root, generation, row)
      && r.Success? && FolderAt(tx.db.folders, root, row.path) == Some(r.value)
  {
    hide FolderAt, UpsertFolder, LinkUp, RowId;
    var parentId: Option<nat> := None;
    var folderId: Option<nat> := None;
    ghost var start := tx.db;
    for index := 0 to |row.path|
      invariant tx.db == EnsurePrefix(start, root, generation, row, index)
      invariant index == 0 ==> parentId == None && folderId == None
      invariant index > 0 ==> folderId == parentId == FolderAt(tx.db.folders, root, row.path[..index])
      invariant index > 0 ==> folderId.Some?
    {
      var relative := row.path[..index + 1];
      var before := tx.db.folders;
      assert parentId == ParentAt(before, root, relative) by {
        assert relative[..index] == row.path[..index];
      }
      StepFinds(tx.db, root, generation, row, index + 1);
      var currentId := RowId(before, root, relative);
      tx.db := tx.db.(
        folders := UpsertFolder(before, root, parentId, row, index + 1),
        presence := tx.db.presence + {Presence(currentId, generation)},
        closure := LinkUp(tx.db.closure, currentId, parentId));
      assert tx.db == EnsurePrefix(start, root, generation, row, index + 1);
      parentId := Some(currentId);
      folderId := Some(currentId);
    }
    if folderId.None? {
      return Failure(InvalidData);
    }
    assert row.path[..|row.path|] == row.path;
    return Success(folderId.value);
  }

  // ---- the tree the folder rows form ------------------------------------------

  lemma {:induction false} PrefixFolderExists(folders: map<nat, Folder>, d: nat, n: nat)
    requires TreeOk(folders)
    requires d in folders && 1 <= n <= |folders[d].path|
    ensures FolderAt(folders, folders[d].root, folders[d].path[..n]).Some?
    decreases |folders[d].path|
  {
    assert ParentOk(folders, d);
    if n == |folders[d].path| {
      assert folders[d].path[..n] == folders[d].path;
      assert d in FolderIds(folders, folders[d].root, folders[d].path);
    } else {
      var p := folders[d].parent.value;
      PrefixFolderExists(folders, p, n);
      assert folders[p].path[..n] == folders[d].path[..n];
    }
  }

  /** What a scan adds to the tree; everything outside folders, presence and closure stays. */
  ghost predicate Grows(db: Db, next: Db) {
    && next == db.(folders := next.folders, presence := next.presence, closure := next.closure)
    && (forall f :: f in db.folders ==>
          && f in next.folders
          && next.folders[f].root == db.folders[f].root
          && next.folders[f].parent == db.folders[f].parent
          && next.folders[f].path == db.folders[f].path)
    && db.presence <= next.presence
  }

  lemma GrowsTransitive(a: Db, b: Db, c: Db)
    requires Grows(a, b) && Grows(b, c)
    ensures Grows(a, c)
  {}

  /** The parent row a folder at `path` has to point to. */
  ghost predicate ParentFor(folders: map<nat, Folder>, root: nat, path: Path, parent: Option<nat>) {
    && path != []
    && if |path| == 1 then parent.None?
       else parent.Some? && parent.value in folders && folders[parent.value].root == root
            && folders[parent.value].path == path[..|path| - 1]
  }

  lemma PlacedUnique(folders: map<nat, Folder>, next: map<nat, Folder>, id: nat,
                     root: nat, path: Path, parent: Option<nat>)
    requires TreeOk(folders) && Placed(folders, next, id, root, path, parent)
    ensures UniqueFolders(next)
  {
    forall a, b | a in next && b in next && next[a].root == next[b].root && next[a].path == next[b].path
      ensures a == b
    {
      if id !in folders {
        assert a == id || (a in folders && a !in FolderIds(folders, root, path));
        assert b == id || (b in folders && b !in FolderIds(folders, root, path));
      }
    }
  }

  lemma PlacedTree(folders: map<nat, Folder>, next: map<nat, Folder>, id: nat,
                   root: nat, path: Path, parent: Option<nat>)
    requires TreeOk(folders) && Placed(folders, next, id, root, path, parent)
    requires ParentFor(folders, root, path, parent)
    ensures TreeOk(next)
    ensures id in folders ==> folders[id].parent == parent
  {
    PlacedUnique(folders, next, id, root, path, parent);
    if id in folders {
      assert ParentOk(folders, id);
    }
    forall f | f in next ensures ParentOk(next, f) {
      if f in folders {
        assert ParentOk(folders, f);
      }
    }
  }

  /** A new folder has nothing below it yet. */
  lemma NewFolderIsLeaf(folders: map<nat, Folder>, root: nat, path: Path, d: nat)
    requires TreeOk(folders) && path != [] && FolderIds(folders, root, path) == {}
    requires d in folders && folders[d].root == root
    ensures !(path <= folders[d].path)
  {
    if path <= folders[d].path {
      assert folders[d].path[..|path|] == path;
      PrefixFolderExists(folders, d, |path|);
    }
  }

  /** The ancestors of a new folder are those of its parent. */
  lemma AncestorsThroughParent(folders: map<nat, Folder>, root: nat, path: Path, parent: Option<nat>, a: nat)
    requires TreeOk(folders) && ParentFor(folders, root, path, parent)
    requires a in folders && folders[a].root == root && folders[a].path != path
    ensures folders[a].path <= path <==> (parent.Some? && folders[a].path <= folders[parent.value].path)
  {
    assert ParentOk(folders, a);
    var up := folders[a].path;
    if up <= path {
      assert up == path[..|up|];
      assert up == path[..|path| - 1][..|up|];
    }
  }

  lemma LinkUpRows(closure: map<Link, nat>, id: nat, parent: Option<nat>, a: nat, d: nat)
    requires parent != Some(id)
    ensures Link(a, d) in LinkUp(closure, id, parent)
      <==> (Link(a, d) in closure || (d == id && (a == id || (parent.Some? && Link(a, parent.value) in closure))))
    ensures Link(a, d) in closure ==> LinkUp(closure, id, parent)[Link(a, d)] == closure[Link(a, d)]
    ensures Link(a, d) in LinkUp(closure, id, parent) && Link(a, d) !in closure ==>
      LinkUp(closure, id, parent)[Link(a, d)] == if a == id then 0 else closure[Link(a, parent.value)] + 1
  {}

  lemma PlacedClosureRow(folders: map<nat, Folder>, next: map<nat, Folder>, closure: map<Link, nat>, id: nat,
                         root: nat, path: Path, parent: Option<nat>, a: nat, d: nat)
    requires TreeOk(folders) && ClosureExact(folders, closure)
    requires Placed(folders, next, id, root, path, parent) && ParentFor(folders, root, path, parent)
    ensures var linked := LinkUp(closure, id, parent);
      && (Link(a, d) in linked <==> AncestorOrSelf(next, a, d))
      && (Link(a, d) in linked ==> linked[Link(a, d)] == |next[d].path| - |next[a].path|)
  {
    assert parent != Some(id) by {
      assert id in folders ==> folders[id].path != path[..|path| - 1];
    }
    LinkUpRows(closure, id, parent, a, d);
    assert Link(a, d) in closure <==> AncestorOrSelf(folders, a, d);
    if d == id && a != id && a in folders && folders[a].root == root {
      assert a !in FolderIds(folders, root, path);
      if folders[a].path != path {
        AncestorsThroughParent(folders, root, path, parent, a);
        assert parent.Some? ==> (Link(a, parent.value) in closure <==> AncestorOrSelf(folders, a, parent.value));
      }
    } else if a == id && d != id && d in folders && folders[d].root == root && id !in folders {
      NewFolderIsLeaf(folders, root, path, d);
    }
  }

  lemma PlacedClosure(folders: map<nat, Folder>, next: map<nat, Folder>, closure: map<Link, nat>, id: nat,
                      root: nat, path: Path, parent: Option<nat>)
    requires TreeOk(folders) && ClosureExact(folders, closure)
    requires Placed(folders, next, id, root, path, parent) && ParentFor(folders, root, path, parent)
    ensures ClosureExact(next, LinkUp(closure, id, parent))
  {
    forall a, d {
      PlacedClosureRow(folders, next, closure, id, root, path, parent, a, d);
    }
  }

  ghost predicate StepReady(db: Db, root: nat, generation: nat, path: Path, parent: Option<nat>) {
    && TreeState(db)
    && root in db.roots && db.roots[root].active <= generation
    && ParentFor(db.folders, root, path, parent)
    && (parent.Some? ==> Presence(parent.value, generation) in db.presence)
  }

  lemma PlacedPresence(folders: map<nat, Folder>, next: map<nat, Folder>, presence: set<Presence>, id: nat,
                       generation: nat, root: nat, path: Path, parent: Option<nat>)
    requires TreeOk(folders) && PresenceOk(folders, presence)
    requires Placed(folders, next, id, root, path, parent) && ParentFor(folders, root, path, parent)
    requires parent.Some? ==> Presence(parent.value, generation) in presence
    ensures PresenceOk(next, presence + {Presence(id, generation)})
  {
    var staged := presence + {Presence(id, generation)};
    if id in folders { assert ParentOk(folders, id); }
    forall p | p in staged ensures ParentPresent(next, staged, p) {
      if p in presence { assert ParentPresent(folders, presence, p); }
    }
  }

  lemma PlacedState(db: Db, next: Db, root: nat, generation: nat, path: Path, parent: Option<nat>, id: nat)
    requires StepReady(db, root, generation, path, parent)
    requires Placed(db.folders, next.folders, id, root, path, parent)
    requires next == db.(folders := next.folders, closure := LinkUp(db.closure, id, parent),
                         presence := db.presence + {Presence(id, generation)})
    ensures Grows(db, next) && TreeState(next)
  {
    hide TreeOk, ClosureExact, LinkUp;
    PlacedTree(db.folders, next.folders, id, root, path, parent);
    PlacedClosure(db.folders, next.folders, db.closure, id, root, path, parent);
    PlacedPresence(db.folders, next.folders, db.presence, id, generation, root, path, parent);
  }

  /** The row ids of the first `n` folders on the path. */
  ghost function PathIds(folders: map<nat, Folder>, root: nat, path: Path, n: nat): set<nat>
    requires n <= |path|
  {
    if n == 0 then {}
    else
      PathIds(folders, root, path, n - 1) +
      match FolderAt(folders, root, path[..n]) { case Some(id) => {id} case None => {} }
  }

  lemma {:induction false} PathIdsMember(folders: map<nat, Folder>, root: nat, path: Path, n: nat, k: nat)
    requires 1 <= k <= n <= |path| && FolderAt(folders, root, path[..k]).Some?
    ensures FolderAt(folders, root, path[..k]).value in PathIds(folders, root, path, n)
  {
    if k < n {
      PathIdsMember(folders, root, path, n - 1, k);
    }
  }

  /** Every member of the set stands at a prefix of the path. */
  lemma {:induction false} PathIdsSound(folders: map<nat, Folder>, root: nat, path: Path, n: nat, id: nat)
    requires n <= |path| && id in PathIds(folders, root, path, n)
    ensures id in folders && folders[id].root == root && folders[id].path <= path[..n]
  {
    if id !in PathIds(folders, root, path, n - 1) {
      assert Some(id) == FolderAt(folders, root, path[..n]);
    } else {
      PathIdsSound(folders, root, path, n - 1, id);
    }
  }

  ghost function PresentAt(ids: set<nat>, generation: nat): set<Presence> {
    set f | f in ids :: Presence(f, generation)
  }

  /** What registering the first `n` components adds: exactly their rows, present at the generation. */
  ghost predicate Ensured(db: Db, next: Db, root: nat, generation: nat, path: Path, n: nat)
    requires n <= |path|
  {
    && (forall k :: 1 <= k <= n ==> FolderAt(next.folders, root, path[..k]).Some?)
    && next.folders.Keys == db.folders.Keys + PathIds(next.folders, root, path, n)
    && next.presence == db.presence + PresentAt(PathIds(next.folders, root, path, n), generation)
  }

  lemma {:induction false} PathIdsAgree(prior: map<nat, Folder>, next: map<nat, Folder>, root: nat, path: Path, n: nat)
    requires n <= |path|
    requires forall k :: 1 <= k <= n ==> FolderAt(next, root, path[..k]) == FolderAt(prior, root, path[..k])
    ensures PathIds(next, root, path, n) == PathIds(prior, root, path, n)
  {
    if n > 0 {
      PathIdsAgree(prior, next, root, path, n - 1);
    }
  }

  lemma StepAdds(db: Db, root: nat, generation: nat, row: FolderRow, n: nat)
    requires 1 <= n <= |row.path|
    ensures var next := EnsureStep(db, root, generation, row, n);
            var id := RowId(db.folders, root, row.path[..n]);
      && next.folders.Keys == db.folders.Keys + {id}
      && next.presence == db.presence + {Presence(id, generation)}
      && PathIds(next.folders, root, row.path, n) == PathIds(db.folders, root, row.path, n - 1) + {id}
      && FolderAt(next.folders, root, row.path[..n]) == Some(id)
      && (forall k :: 1 <= k < n ==>
            FolderAt(next.folders, root, row.path[..k]) == FolderAt(db.folders, root, row.path[..k]))
  {
    var path := row.path[..n];
    var parent := ParentAt(db.folders, root, path);
    var next := EnsureStep(db, root, generation, row, n).folders;
    var id := RowId(db.folders, root, path);
    UpsertPlaces(db.folders, root, parent, row, n);
    PlacedLookups(db.folders, next, id, root, path, parent);
    forall k | 1 <= k < n ensures FolderAt(next, root, row.path[..k]) == FolderAt(db.folders, root, row.path[..k]) {
      assert |row.path[..k]| != |row.path[..n]|;
    }
    PathIdsAgree(db.folders, next, root, row.path, n - 1);
  }

  lemma {:induction false} EnsurePrefixAdds(db: Db, root: nat, generation: nat, row: FolderRow, n: nat)
    requires n <= |row.path|
    ensures Ensured(db, EnsurePrefix(db, root, generation, row, n), root, generation, row.path, n)
  {
    hide EnsureStep, FolderAt, RowId;
    if n > 0 {
      var prior := EnsurePrefix(db, root, generation, row, n - 1);
      var next := EnsureStep(prior, root, generation, row, n);
      EnsurePrefixAdds(db, root, generation, row, n - 1);
      StepAdds(prior, root, generation, row, n);
      EnsuredStep(db, prior, next, root, generation, row.path, n, RowId(prior.folders, root, row.path[..n]));
    }
  }

  lemma EnsuredStep(db: Db, prior: Db, next: Db, root: nat, generation: nat, path: Path, n: nat, id: nat)
    requires 1 <= n <= |path| && Ensured(db, prior, root, generation, path, n - 1)
    requires next.folders.Keys == prior.folders.Keys + {id}
    requires next.presence == prior.presence + {Presence(id, generation)}
    requires PathIds(next.folders, root, path, n) == PathIds(prior.folders, root, path, n - 1) + {id}
    requires FolderAt(next.folders, root, path[..n]) == Some(id)
    requires forall k :: 1 <= k < n ==>
      FolderAt(next.folders, root, path[..k]) == FolderAt(prior.folders, root, path[..k])
    ensures Ensured(db, next, root, generation, path, n)
  {
    hide FolderAt, PathIds;
  }

  lemma StepKeeps(db: Db, root: nat, generation: nat, row: FolderRow, n: nat)
    requires 1 <= n <= |row.path|
    requires StepReady(db, root, generation, row.path[..n], ParentAt(db.folders, root, row.path[..n]))
    ensures var next := EnsureStep(db, root, generation, row, n);
      Grows(db, next) && TreeState(next) && next.roots == db.roots
  {
    hide ParentAt, UpsertFolder, LinkUp, RowId, TreeState, StepReady;
    var path := row.path[..n];
    var parent := ParentAt(db.folders, root, path);
    var id := RowId(db.folders, root, path);
    UpsertPlaces(db.folders, root, parent, row, n);
    PlacedState(db, EnsureStep(db, root, generation, row, n), root, generation, path, parent, id);
  }

  lemma {:induction false} EnsurePrefixKeeps(db: Db, root: nat, generation: nat, row: FolderRow, n: nat)
    requires n <= |row.path|
    requires TreeState(db) && root in db.roots && db.roots[root].active <= generation
    ensures var next := EnsurePrefix(db, root, generation, row, n);
      Grows(db, next) && TreeState(next) && next.roots == db.roots
  {
    hide EnsureStep, TreeState, StepReady;
    if n > 0 {
      var prior := EnsurePrefix(db, root, generation, row, n - 1);
      EnsurePrefixKeeps(db, root, generation, row, n - 1);
      EnsurePrefixReady(db, root, generation, row, n);
      StepKeeps(prior, root, generation, row, n);
      GrowsTransitive(db, prior, EnsureStep(prior, root, generation, row, n));
    }
  }

  lemma EnsurePrefixReady(db: Db, root: nat, generation: nat, row: FolderRow, n: nat)
    requires 1 <= n <= |row.path|
    requires var prior := EnsurePrefix(db, root, generation, row, n - 1);
      && TreeState(prior) && root in prior.roots && prior.roots[root].active <= generation
    ensures var prior := EnsurePrefix(db, root, generation, row, n - 1);
      StepReady(prior, root, generation, row.path[..n], ParentAt(prior.folders, root, row.path[..n]))
  {
    hide EnsureStep, EnsurePrefix, FolderAt, TreeState, PathIds;
    assert row.path[..n][..n - 1] == row.path[..n - 1];
    EnsurePrefixAdds(db, root, generation, row, n - 1);
    if n > 1 {
      var prior := EnsurePrefix(db, root, generation, row, n - 1);
      PathIdsMember(prior.folders, root, row.path, n - 1, n - 1);
    }
  }

  /** The rest of the database does not notice that the tree has grown. */
  lemma GrowsOk(db: Db, next: Db)
    requires Ok(db) && Grows(db, next) && TreeState(next)
    ensures Ok(next)
  {
    hide TreeState, RootsOk, SoundsOk, TabsOk, LegacyOk, OwnersOk;
  }

  /**
   Registering a folder keeps the invariant, adds no folder and no presence row outside
   its own path, and leaves every folder of the path present at the scanned generation.
   */
  lemma EnsureFolderKeeps(db: Db, root: nat, generation: nat, row: FolderRow)
    requires Ok(db) && root in db.roots && db.roots[root].active <= generation
    ensures var next := EnsureFolder(db, root, generation, row);
      Ok(next) && Grows(db, next) && Ensured(db, next, root, generation, row.path, |row.path|)
  {
    hide EnsurePrefix, Ensured, Grows;
    EnsurePrefixKeeps(db, root, generation, row, |row.path|);
    EnsurePrefixAdds(db, root, generation, row, |row.path|);
    GrowsOk(db, EnsureFolder(db, root, generation, row));
  }

  // ---- the closure table is the parent walk -----------------------------------

  /** The folder reached from `d` by following `steps` parent links. */
  function Climb(folders: map<nat, Folder>, d: nat, steps: nat): Option<nat>
    decreases steps
  {
    if d !in folders then None
    else if steps == 0 then Some(d)
    else match folders[d].parent
         case None => None
         case Some(p) => Climb(folders, p, steps - 1)
  }

  lemma {:induction false} ClimbPath(folders: map<nat, Folder>, d: nat, steps: nat)
    requires TreeOk(folders)
    requires d in folders
    ensures Climb(folders, d, steps).Some? <==> steps < |folders[d].path|
    ensures Climb(folders, d, steps).Some? ==>
      var a := Climb(folders, d, steps).value;
      && a in folders && folders[a].root == folders[d].root
      && folders[a].path == folders[d].path[..|folders[d].path| - steps]
    decreases steps
  {
    assert ParentOk(folders, d);
    if steps > 0 && folders[d].parent.Some? {
      ClimbPath(folders, folders[d].parent.value, steps - 1);
    }
  }

  /** A closure row (a, d, depth) exists exactly when walking `depth` parent links up from d reaches a. */
  lemma ClosureIsParentWalk(db: Db, a: nat, d: nat, depth: nat)
    requires TreeOk(db.folders) && ClosureExact(db.folders, db.closure)
    ensures (Link(a, d) in db.closure && db.closure[Link(a, d)] == depth)
      <==> Climb(db.folders, d, depth) == Some(a)
  {
    if d in db.folders {
      ClimbPath(db.folders, d, depth);
      if Link(a, d) in db.closure && db.closure[Link(a, d)] == depth {
        assert AncestorOrSelf(db.folders, a, d);
        assert ParentOk(db.folders, a);
        assert db.folders[a].path == db.folders[d].path[..|db.folders[d].path| - depth];
      }
      if Climb(db.folders, d, depth) == Some(a) {
        assert AncestorOrSelf(db.folders, a, d);
      }
    }
  }
}
