/**
 The library database: one field per SQL table, keyed the way the schema keys it,
 with row ids for the tables whose primary key is an integer. A folder's relative
 path is the sequence of its components. The invariant `Ok` collects what the
 schema declares (unique columns, foreign keys) and what the scan code maintains
 beyond it: parent links that agree with paths, an exact closure table, and rows
 that never belong to a generation older than the active one.
 */
module Tables {
  import opened Wrappers
  import opened Ordering

  type Path = seq<string>

  /** The largest number a column can hold. */
  const I64_MAX: nat := 0x7FFF_FFFF_FFFF_FFFF

  /** The most rows one batch may write. */
  const MAX_BATCH_ROWS: nat := 512

  /** The largest volume a sound may have. */
  const MAX_VOLUME: nat := 100

  datatype LibraryError = InvalidData | Database

  datatype Root = Root(path: string, position: int, active: nat)

  datatype Folder = Folder(root: nat, parent: Option<nat>, path: Path, name: string, position: int)

  datatype Presence = Presence(folder: nat, generation: nat)

  datatype Link = Link(ancestor: nat, descendant: nat)

  /** The columns of a sound that no scan or listing asks about; `loudness` stands for the analysis. */
  datatype Details = Details(name: string, sourcePath: Option<string>, duration: Option<nat>, volume: nat,
                             enabled: bool, loudness: string)

  datatype Sound = Sound(publicId: string, searchName: string, path: string, position: int, details: Details,
                         standalone: bool)

  datatype LocationKey = LocationKey(sound: nat, root: nat, generation: nat)

  datatype Location = Location(folder: Option<nat>, relativePath: string)

  datatype Tab = Tab(publicId: string, name: string, position: int)

  datatype Member = Member(tab: nat, sound: nat)

  datatype LegacyTab = LegacyTab(publicId: string, rootPath: string, path: Path, name: string, position: int)

  datatype Pref = Pref(displayName: Option<string>, siblingPosition: Option<int>, expanded: bool, hidden: bool)

  datatype Override = Override(folder: nat, sound: nat)

  datatype Action = Include | Exclude

  datatype Owner = SoundOwner(sound: nat) | ControlOwner(action: string) | TabOwner(tab: string)

  /** A row is active exactly when it has a normalized chord, as the table's CHECK demands. */
  datatype Binding = Binding(owner: Owner, scope: Option<string>, accelerator: string,
                             normalized: Option<string>, issue: Option<string>)

  datatype Db = Db(
    roots: map<nat, Root>,
    scans: map<string, nat>,
    folders: map<nat, Folder>,
    presence: set<Presence>,
    closure: map<Link, nat>,
    sounds: map<nat, Sound>,
    locations: map<LocationKey, Location>,
    tabs: map<nat, Tab>,
    memberships: map<Member, int>,
    prefs: map<nat, Pref>,
    overrides: map<Override, Action>,
    legacyTabs: map<nat, LegacyTab>,
    legacyMemberships: map<Member, int>,
    bindings: map<string, Binding>)

  /** The open database. A transaction works on a private copy of `db` and commits by assigning it. */
  class Connection {
    var db: Db

    constructor (db: Db)
      ensures this.db == db
    {
      this.db := db;
    }
  }

  // ---- row ids and lookups -------------------------------------------------

  predicate IsMax(m: nat, keys: set<nat>) {
    m in keys && forall k | k in keys :: k <= m
  }

  predicate IsMin(m: nat, keys: set<nat>) {
    m in keys && forall k | k in keys :: m <= k
  }

  lemma {:induction false} MaxExists(keys: set<nat>)
    requires keys != {}
    ensures exists m :: IsMax(m, keys)
  {
    var x :| x in keys;
    var rest := keys - {x};
    assert forall k | k in keys :: k == x || k in rest;
    if rest == {} {
      assert IsMax(x, keys);
    } else {
      MaxExists(rest);
      var m: nat :| IsMax(m, rest);
      assert IsMax(if x < m then m else x, keys);
    }
  }

  /** The row id SQLite gives the next inserted row: one more than the largest. */
  function NextId(keys: set<nat>): (id: nat)
    ensures forall k :: k in keys ==> k < id
    ensures 0 < id
  {
    if keys == {} then 1
    else
      MaxExists(keys);
      var m: nat :| IsMax(m, keys);
      m + 1
  }

  lemma {:induction false} MinExists(keys: set<nat>)
    requires keys != {}
    ensures exists m :: IsMin(m, keys)
  {
    var x :| x in keys;
    var rest := keys - {x};
    assert forall k | k in keys :: k == x || k in rest;
    if rest == {} {
      assert IsMin(x, keys);
    } else {
      MinExists(rest);
      var m: nat :| IsMin(m, rest);
      assert IsMin(if m < x then m else x, keys);
    }
  }

  /** The row a single-row query returns: the smallest row id, if any row matches. */
  function First(ids: set<nat>): (r: Option<nat>)
    ensures r.None? <==> ids == {}
    ensures r.Some? ==> r.value in ids
  {
    if ids == {} then None
    else
      MinExists(ids);
      var m: nat :| IsMin(m, ids);
      Some(m)
  }

  /** The row whose upsert comes last when rows are visited in row id order. */
  function Last(ids: set<nat>): (r: Option<nat>)
    ensures r.None? <==> ids == {}
    ensures r.Some? ==> r.value in ids
  {
    if ids == {} then None
    else
      MaxExists(ids);
      var m: nat :| IsMax(m, ids);
      Some(m)
  }

  // A lookup by unique columns answers None exactly when the set of matching ids is empty.

  function RootIds(roots: map<nat, Root>, path: string): set<nat> {
    set id | id in roots && roots[id].path == path
  }

  function RootAt(roots: map<nat, Root>, path: string): (r: Option<nat>)
    ensures r.Some? ==> r.value in roots && roots[r.value].path == path
  {
    First(RootIds(roots, path))
  }

  function FolderIds(folders: map<nat, Folder>, root: nat, path: Path): set<nat> {
    set id | id in folders && folders[id].root == root && folders[id].path == path
  }

  function FolderAt(folders: map<nat, Folder>, root: nat, path: Path): (r: Option<nat>)
    ensures r.Some? ==> r.value in folders && folders[r.value].root == root && folders[r.value].path == path
  {
    First(FolderIds(folders, root, path))
  }

  function SoundIdsAt(sounds: map<nat, Sound>, path: string): set<nat> {
    set id | id in sounds && sounds[id].path == path
  }

  function SoundAt(sounds: map<nat, Sound>, path: string): (r: Option<nat>)
    ensures r.Some? ==> r.value in sounds && sounds[r.value].path == path
  {
    First(SoundIdsAt(sounds, path))
  }

  function SoundIdsNamed(sounds: map<nat, Sound>, publicId: string): set<nat> {
    set id | id in sounds && sounds[id].publicId == publicId
  }

  function SoundNamed(sounds: map<nat, Sound>, publicId: string): (r: Option<nat>)
    ensures r.Some? ==> r.value in sounds && sounds[r.value].publicId == publicId
  {
    First(SoundIdsNamed(sounds, publicId))
  }

  function TabIds(tabs: map<nat, Tab>, publicId: string): set<nat> {
    set id | id in tabs && tabs[id].publicId == publicId
  }

  function TabNamed(tabs: map<nat, Tab>, publicId: string): (r: Option<nat>)
    ensures r.Some? ==> r.value in tabs && tabs[r.value].publicId == publicId
  {
    First(TabIds(tabs, publicId))
  }

  // ---- what the schema declares and the scans maintain ----------------------
  // Each predicate names the tables it speaks of.

  ghost predicate UniqueRoots(roots: map<nat, Root>) {
    forall a, b :: a in roots && b in roots && roots[a].path == roots[b].path ==> a == b
  }

  ghost predicate RootsOk(roots: map<nat, Root>, scans: map<string, nat>) {
    && UniqueRoots(roots)
    && (forall path :: path in scans ==> RootAt(roots, path).Some?)
    && (forall r :: r in roots && roots[r].path in scans ==> roots[r].active < scans[roots[r].path])
  }

  /** The parent link of a folder agrees with its path. */
  ghost predicate ParentOk(folders: map<nat, Folder>, f: nat)
    requires f in folders
  {
    var folder := folders[f];
    && folder.path != []
    && if |folder.path| == 1 then folder.parent.None?
       else
         && folder.parent.Some?
         && folder.parent.value in folders
         && folders[folder.parent.value].root == folder.root
         && folders[folder.parent.value].path == folder.path[..|folder.path| - 1]
  }

  ghost predicate UniqueFolders(folders: map<nat, Folder>) {
    forall a, b :: a in folders && b in folders
      && folders[a].root == folders[b].root && folders[a].path == folders[b].path
      ==> a == b
  }

  ghost predicate TreeOk(folders: map<nat, Folder>) {
    UniqueFolders(folders) && forall f {:trigger ParentOk(folders, f)} :: f in folders ==> ParentOk(folders, f)
  }

  ghost predicate FolderRootsOk(folders: map<nat, Folder>, roots: map<nat, Root>) {
    forall f :: f in folders ==> folders[f].root in roots
  }

  /** `a` is `d` or one of the folders above it, judged by paths alone. */
  predicate AncestorOrSelf(folders: map<nat, Folder>, a: nat, d: nat) {
    && a in folders && d in folders
    && folders[a].root == folders[d].root
    && folders[a].path <= folders[d].path
  }

  /** The closure table holds exactly the ancestor pairs, each with its path-length difference. */
  ghost predicate ClosureExact(folders: map<nat, Folder>, closure: map<Link, nat>) {
    && (forall a, d :: Link(a, d) in closure <==> AncestorOrSelf(folders, a, d))
    && (forall a, d :: Link(a, d) in closure ==> closure[Link(a, d)] == |folders[d].path| - |folders[a].path|)
  }

  /** A folder present at a generation has its parent present there too. */
  ghost predicate ParentPresent(folders: map<nat, Folder>, presence: set<Presence>, p: Presence)
    requires p.folder in folders
  {
    match folders[p.folder].parent
    case None => true
    case Some(parent) => Presence(parent, p.generation) in presence
  }

  ghost predicate PresenceOk(folders: map<nat, Folder>, presence: set<Presence>) {
    && (forall p :: p in presence ==> p.folder in folders)
    && (forall p {:trigger ParentPresent(folders, presence, p)} :: p in presence ==>
         ParentPresent(folders, presence, p))
  }

  /** No presence row is older than the active generation of its root. */
  ghost predicate PresenceNew(folders: map<nat, Folder>, presence: set<Presence>, roots: map<nat, Root>) {
    forall p :: p in presence && p.folder in folders && folders[p.folder].root in roots
      ==> roots[folders[p.folder].root].active <= p.generation
  }

  ghost predicate SoundsOk(sounds: map<nat, Sound>) {
    && (forall a, b :: a in sounds && b in sounds && sounds[a].publicId == sounds[b].publicId ==> a == b)
    && (forall a, b :: a in sounds && b in sounds && sounds[a].path == sounds[b].path ==> a == b)
  }

  ghost predicate LocationsOk(locations: map<LocationKey, Location>, sounds: map<nat, Sound>,
                              roots: map<nat, Root>, folders: map<nat, Folder>) {
    && (forall k :: k in locations
          ==> k.sound in sounds && k.root in roots && roots[k.root].active <= k.generation)
    && (forall k :: k in locations && locations[k].folder.Some?
          ==> locations[k].folder.value in folders && folders[locations[k].folder.value].root == k.root)
  }

  ghost predicate TabsOk(tabs: map<nat, Tab>, memberships: map<Member, int>, sounds: map<nat, Sound>) {
    && (forall a, b :: a in tabs && b in tabs && tabs[a].publicId == tabs[b].publicId ==> a == b)
    && (forall m :: m in memberships ==> m.tab in tabs && m.sound in sounds)
  }

  ghost predicate LegacyOk(legacyTabs: map<nat, LegacyTab>, memberships: map<Member, int>, sounds: map<nat, Sound>) {
    && (forall a, b :: a in legacyTabs && b in legacyTabs && legacyTabs[a].publicId == legacyTabs[b].publicId ==>
         a == b)
    && (forall m :: m in memberships ==> m.tab in legacyTabs && m.sound in sounds)
  }

  ghost predicate CustomOk(prefs: map<nat, Pref>, overrides: map<Override, Action>,
                           folders: map<nat, Folder>, sounds: map<nat, Sound>) {
    && (forall f :: f in prefs ==> f in folders)
    && (forall o :: o in overrides ==> o.folder in folders && o.sound in sounds)
  }

  ghost predicate OwnersOk(bindings: map<string, Binding>, sounds: map<nat, Sound>) {
    forall b :: b in bindings && bindings[b].owner.SoundOwner? ==> bindings[b].owner.sound in sounds
  }

  ghost predicate TreeState(db: Db) {
    && TreeOk(db.folders) && FolderRootsOk(db.folders, db.roots) && ClosureExact(db.folders, db.closure)
    && PresenceOk(db.folders, db.presence) && PresenceNew(db.folders, db.presence, db.roots)
  }

  ghost predicate RowsOk(db: Db) {
    && RootsOk(db.roots, db.scans) && SoundsOk(db.sounds)
    && LocationsOk(db.locations, db.sounds, db.roots, db.folders)
    && TabsOk(db.tabs, db.memberships, db.sounds)
    && LegacyOk(db.legacyTabs, db.legacyMemberships, db.sounds)
    && CustomOk(db.prefs, db.overrides, db.folders, db.sounds)
    && OwnersOk(db.bindings, db.sounds)
  }

  ghost predicate Ok(db: Db) {
    TreeState(db) && RowsOk(db)
  }

  lemma OkSounds(db: Db)
    requires Ok(db)
    ensures SoundsOk(db.sounds)
  {
    hide TreeState, RootsOk, LocationsOk, TabsOk, LegacyOk, CustomOk, OwnersOk, SoundsOk;
  }

  lemma OkRoots(db: Db)
    requires Ok(db)
    ensures RootsOk(db.roots, db.scans)
  {
    hide TreeState, RootsOk, SoundsOk, LocationsOk, TabsOk, LegacyOk, CustomOk, OwnersOk;
  }

  // ---- what the queries see --------------------------------------------------

  /** The folder itself or a folder above it is hidden. */
  predicate HiddenFolder(db: Db, f: nat) {
    exists l :: l in db.closure && l.descendant == f && l.ancestor in db.prefs && db.prefs[l.ancestor].hidden
  }

  /** A location of the active generation that no hidden folder covers. */
  predicate Shown(db: Db, k: LocationKey)
    requires k in db.locations
  {
    && k.root in db.roots
    && k.generation == db.roots[k.root].active
    && (db.locations[k].folder.Some? ==> !HiddenFolder(db, db.locations[k].folder.value))
  }

  /** Live by a manual membership or by an active location: the rows half of the live filter. */
  predicate LiveByRows(db: Db, s: nat) {
    || (exists m :: m in db.memberships && m.sound == s)
    || (exists k :: k in db.locations && k.sound == s && Shown(db, k))
  }

  predicate Live(db: Db, s: nat) {
    s in db.sounds && (db.sounds[s].standalone || LiveByRows(db, s))
  }

  /** Sounds located in folder `f`, or anywhere below it, at generation `g`. */
  function Physical(db: Db, f: nat, g: nat): set<nat> {
    set k | k in db.locations && f in db.folders && k.root == db.folders[f].root && k.generation == g
            && db.locations[k].folder.Some? && Link(f, db.locations[k].folder.value) in db.closure
      :: k.sound
  }

  function Overridden(db: Db, f: nat, action: Action): set<nat> {
    set o | o in db.overrides && o.folder == f && db.overrides[o] == action :: o.sound
  }

  /** Physical sounds, plus includes, minus excludes. */
  function Effective(db: Db, f: nat, g: nat): set<nat> {
    Physical(db, f, g) + Overridden(db, f, Include) - Overridden(db, f, Exclude)
  }

  function SoundKey(sounds: map<nat, Sound>, s: nat): Key
    requires s in sounds
  {
    Key(sounds[s].position, Text(sounds[s].publicId))
  }
}
