/**
 The sound listings of the three scopes, and the four queries over them: how many sounds,
 one page, the index of a sound, and the sound at a distance from an index. The search text
 is an arbitrary predicate on the search name.
 */
module Listings {
  import opened Wrappers
  import opened Ordering
  import opened Tables
  import opened FolderScan
  import opened RootScan
  import opened Staging
  import opened Standalone

  const PAGE_SIZE: nat := 256
  const USIZE_MAX: nat := 0xFFFF_FFFF_FFFF_FFFF

  datatype Scope = General | ManualTab(publicId: string) | FolderScope(rootPath: string, path: Path)

  type Search = string -> bool

  /** The folder a folder scope names, if it is present at its root's active generation. */
  function SelectedFolder(db: Db, rootPath: string, path: Path): Option<nat> {
    match RootAt(db.roots, rootPath)
    case None => None
    case Some(root) =>
      match FolderAt(db.folders, root, path)
      case None => None
      case Some(f) => if Presence(f, db.roots[root].active) in db.presence then Some(f) else None
  }

  function FolderKeys(db: Db, f: nat, generation: nat, q: Search): map<nat, Key> {
    map s | s in Effective(db, f, generation) && s in db.sounds && q(db.sounds[s].searchName) :: SoundKey(db.sounds, s)
  }

  function TabKeys(db: Db, t: nat, q: Search): map<nat, Key> {
    map s | s in db.sounds && Member(t, s) in db.memberships && q(db.sounds[s].searchName)
      :: Key(db.memberships[Member(t, s)], Text(db.sounds[s].publicId))
  }

  /** The rows of a scope that match the search, each with the key its listing is ordered by. */
  function ScopeKeys(db: Db, scope: Scope, q: Search): map<nat, Key> {
    match scope
    case General =>
      map s | s in db.sounds && Live(db, s) && q(db.sounds[s].searchName) :: SoundKey(db.sounds, s)
    case ManualTab(publicId) =>
      (match TabNamed(db.tabs, publicId)
       case None => map[]
       case Some(t) => TabKeys(db, t, q))
    case FolderScope(rootPath, path) =>
      (match SelectedFolder(db, rootPath, path)
       case None => map[]
       case Some(f) => FolderKeys(db, f, db.roots[RootAt(db.roots, rootPath).value].active, q))
  }

  lemma ScopeKeysDistinct(db: Db, scope: Scope, q: Search)
    requires SoundsOk(db.sounds)
    ensures Distinct(ScopeKeys(db, scope, q))
    ensures forall s :: s in ScopeKeys(db, scope, q) ==>
      s in db.sounds && ScopeKeys(db, scope, q)[s].tie == Text(db.sounds[s].publicId)
  {
    hide Live, Effective, SelectedFolder, TabNamed;
  }

  /** The whole listing of a scope: ORDER BY position, public id. */
  function Listing(db: Db, scope: Scope, q: Search): seq<nat>
    requires SoundsOk(db.sounds)
  {
    ScopeKeysDistinct(db, scope, q);
    Sort(ScopeKeys(db, scope, q))
  }

  /** SELECT COUNT(*) over the same rows. */
  function CountSounds(db: Db, scope: Scope, q: Search): nat {
    |ScopeKeys(db, scope, q)|
  }

  function Min(a: nat, b: nat): nat {
    if a < b then a else b
  }

  /** LIMIT n OFFSET k. */
  function Window<T>(rows: seq<T>, offset: nat, limit: nat): seq<T> {
    rows[Min(offset, |rows|)..Min(offset + limit, |rows|)]
  }

  function LoadPage(db: Db, scope: Scope, q: Search, page: nat): Result<seq<nat>, LibraryError>
    requires SoundsOk(db.sounds)
  {
    if page * PAGE_SIZE > I64_MAX then Failure(InvalidData)
    else Success(Window(Listing(db, scope, q), page * PAGE_SIZE, PAGE_SIZE))
  }

  /** Counts the rows with a smaller key than the anchor row, if the anchor is listed at all. */
  function LoadSoundPosition(db: Db, scope: Scope, q: Search, publicId: string): Option<nat> {
    var keys := ScopeKeys(db, scope, q);
    match First(set s | s in keys && keys[s].tie == Text(publicId))
    case None => None
    case Some(anchor) => Some(|Before(keys, anchor)|)
  }

  function LoadSoundAt(db: Db, scope: Scope, q: Search, position: nat): Result<Option<nat>, LibraryError>
    requires SoundsOk(db.sounds)
  {
    if position > I64_MAX then Failure(InvalidData)
    else
      var row := Window(Listing(db, scope, q), position, 1);
      Success(if row == [] then None else Some(row[0]))
  }

  function LoadAdjacentSound(db: Db, scope: Scope, q: Search, position: nat, offset: int)
    : Result<Option<nat>, LibraryError>
    requires SoundsOk(db.sounds)
  {
    if offset < 0 then
      if position < -offset then Success(None) else LoadSoundAt(db, scope, q, position + offset)
    else
      if position + offset > USIZE_MAX then Success(None) else LoadSoundAt(db, scope, q, position + offset)
  }

  // ---- the queries agree ---------------------------------------------------------------

  lemma WindowExtends<T>(rows: seq<T>, offset: nat, limit: nat)
    ensures rows[..Min(offset + limit, |rows|)] == rows[..Min(offset, |rows|)] + Window(rows, offset, limit)
  {}

  /** The first `n` pages, one after the other. */
  function Pages(db: Db, scope: Scope, q: Search, n: nat): seq<nat>
    requires SoundsOk(db.sounds) && n * PAGE_SIZE <= I64_MAX
  {
    if n == 0 then [] else Pages(db, scope, q, n - 1) + LoadPage(db, scope, q, n - 1).value
  }

  /** Pages never overlap and never skip: together they are the listing, whose length is the count. */
  lemma {:induction false} PagesAreListing(db: Db, scope: Scope, q: Search, n: nat)
    requires SoundsOk(db.sounds) && n * 256 <= I64_MAX
    ensures Pages(db, scope, q, n) == Listing(db, scope, q)[..Min(n * 256, CountSounds(db, scope, q))]
    ensures CountSounds(db, scope, q) <= n * 256 ==> Pages(db, scope, q, n) == Listing(db, scope, q)
    ensures |Listing(db, scope, q)| == CountSounds(db, scope, q)
  {
    hide ScopeKeys, Sort, Window;
    var rows := Listing(db, scope, q);
    ScopeKeysDistinct(db, scope, q);
    if n > 0 {
      PagesAreListing(db, scope, q, n - 1);
      WindowExtends(rows, (n - 1) * 256, 256);
    }
  }

  /** The rank query answers exactly the index of the sound in the listing, and None off the list. */
  lemma PositionIsIndex(db: Db, scope: Scope, q: Search, publicId: string, i: nat)
    requires SoundsOk(db.sounds)
    ensures LoadSoundPosition(db, scope, q, publicId) == Some(i)
      <==> (i < |Listing(db, scope, q)| && Listing(db, scope, q)[i] in db.sounds
            && db.sounds[Listing(db, scope, q)[i]].publicId == publicId)
  {
    hide ScopeKeys, Sort, Before, Less, Distinct;
    var keys := ScopeKeys(db, scope, q);
    var rows := Listing(db, scope, q);
    ScopeKeysDistinct(db, scope, q);
    var anchors := set s | s in keys && keys[s].tie == Text(publicId);
    if i < |rows| {
      SortRank(keys, i);
      if db.sounds[rows[i]].publicId == publicId {
        assert rows[i] in anchors;
        assert First(anchors).value in anchors;
        assert First(anchors).value == rows[i];
      }
    }
    if First(anchors).Some? {
      var anchor := First(anchors).value;
      RankMonotone(keys, anchor, anchor);
    }
  }

  /** Stepping k rows from index i lands on row i + k, or on nothing beyond either end. */
  lemma AdjacentIsOffset(db: Db, scope: Scope, q: Search, i: nat, k: int)
    requires SoundsOk(db.sounds) && i <= USIZE_MAX
    ensures var rows := Listing(db, scope, q);
      LoadAdjacentSound(db, scope, q, i, k) ==
        if I64_MAX < i + k <= USIZE_MAX then Failure(InvalidData)
        else Success(if 0 <= i + k < |rows| && i + k <= I64_MAX then Some(rows[i + k]) else None)
  {
    hide ScopeKeys, Sort, Listing;
  }

  /**
   All four queries describe one list: a listed sound's neighbour lookup at its own index
   finds it again, on page index / 256 at offset index % 256.
   */
  lemma QueriesAgree(db: Db, scope: Scope, q: Search, s: nat)
    requires SoundsOk(db.sounds) && CountSounds(db, scope, q) <= I64_MAX
    requires s in ScopeKeys(db, scope, q)
    ensures s in db.sounds && LoadSoundPosition(db, scope, q, db.sounds[s].publicId).Some?
    ensures var i := LoadSoundPosition(db, scope, q, db.sounds[s].publicId).value;
      && i < CountSounds(db, scope, q)
      && LoadAdjacentSound(db, scope, q, i, 0) == Success(Some(s))
      && LoadPage(db, scope, q, i / 256).Success?
      && i % 256 < |LoadPage(db, scope, q, i / 256).value|
      && LoadPage(db, scope, q, i / 256).value[i % 256] == s
  {
    hide ScopeKeys, Sort, LoadSoundPosition, LoadAdjacentSound, Listing, Window;
    var i := Rank(ScopeKeys(db, scope, q), s);
    ScopeKeysDistinct(db, scope, q);
    ListedAtRank(db, scope, q, s);
    PositionIsIndex(db, scope, q, db.sounds[s].publicId, i);
    AdjacentIsOffset(db, scope, q, i, 0);
    PageHolds(Listing(db, scope, q), i);
  }

  lemma ListedAtRank(db: Db, scope: Scope, q: Search, s: nat)
    requires SoundsOk(db.sounds) && s in ScopeKeys(db, scope, q)
    ensures var i := Rank(ScopeKeys(db, scope, q), s);
      i < |Listing(db, scope, q)| == CountSounds(db, scope, q) && Listing(db, scope, q)[i] == s
  {
    hide ScopeKeys, Sort;
    ScopeKeysDistinct(db, scope, q);
    RankMonotone(ScopeKeys(db, scope, q), s, s);
  }

  /** Row `i` is on page `i / 256`, at place `i % 256`. */
  lemma PageHolds<T>(rows: seq<T>, i: nat)
    requires i < |rows|
    ensures (i / PAGE_SIZE) * PAGE_SIZE <= i
    ensures var page := Window(rows, (i / PAGE_SIZE) * PAGE_SIZE, PAGE_SIZE);
      i % PAGE_SIZE < |page| && page[i % PAGE_SIZE] == rows[i]
  {
    assert i == (i / PAGE_SIZE) * PAGE_SIZE + i % PAGE_SIZE;
  }

  // ---- staging does not move a listing -----------------------------------------------------

  lemma SameSelectedFolder(db: Db, next: Db, rootPath: string, path: Path)
    requires Ok(db) && Ok(next) && SameView(db, next)
    ensures RootAt(db.roots, rootPath).Some? ==> RootAt(next.roots, rootPath) == RootAt(db.roots, rootPath)
    ensures SelectedFolder(next, rootPath, path) == SelectedFolder(db, rootPath, path)
  {
    hide Ok, SameView, OnShow, FolderAt, RootAt;
    forall f: nat
      ensures SelectedFolder(db, rootPath, path) == Some(f) <==> SelectedFolder(next, rootPath, path) == Some(f)
    {
      SelectedExactly(db, rootPath, path, f);
      SelectedExactly(next, rootPath, path, f);
      SameOnShow(db, next, f);
    }
    if RootAt(db.roots, rootPath).Some? { SameRootAt(db, next, rootPath); }
  }

  /** The folder a scope names is the one on show with that root and path, if there is one. */
  lemma SelectedExactly(db: Db, rootPath: string, path: Path, f: nat)
    requires Ok(db)
    ensures SelectedFolder(db, rootPath, path) == Some(f) <==>
      OnShow(db, f) && db.roots[db.folders[f].root].path == rootPath && db.folders[f].path == path
  {
    hide ClosureExact, PresenceOk, PresenceNew, SoundsOk, LocationsOk, TabsOk, LegacyOk, CustomOk, OwnersOk;
    if f in db.folders && db.folders[f].root in db.roots {
      assert db.folders[f].root in RootIds(db.roots, db.roots[db.folders[f].root].path);
      assert f in FolderIds(db.folders, db.folders[f].root, db.folders[f].path);
    }
  }

  lemma SameOnShow(db: Db, next: Db, f: nat)
    requires SameView(db, next)
    ensures OnShow(next, f) <==> OnShow(db, f)
    ensures OnShow(db, f) ==>
      && next.folders[f].path == db.folders[f].path && next.folders[f].root == db.folders[f].root
      && next.roots[next.folders[f].root].path == db.roots[db.folders[f].root].path
  {
    hide LiveByRows, Effective, StagesSounds;
  }

  lemma SameRootAt(db: Db, next: Db, rootPath: string)
    requires Ok(next) && SameView(db, next) && RootAt(db.roots, rootPath).Some?
    ensures RootAt(next.roots, rootPath) == RootAt(db.roots, rootPath)
  {
    hide TreeState, SoundsOk, LocationsOk, TabsOk, LegacyOk, CustomOk, OwnersOk, LiveByRows, Effective, OnShow,
         StagesTree, StagesSounds;
    RootAtFinds(next.roots, RootAt(db.roots, rootPath).value);
  }

  /** Manual-tab and folder listings survive a staging run untouched, under every search. */
  lemma StagingKeepsListings(db: Db, steps: seq<Staging>, scope: Scope, q: Search)
    requires Ok(db) && scope != General
    ensures var next := Run(db, steps);
      Ok(next) && Listing(next, scope, q) == Listing(db, scope, q)
  {
    hide Run, SameView;
    StagingInvisible(db, steps);
    SameKeys(db, Run(db, steps), scope, q);
  }

  lemma SameKeys(db: Db, next: Db, scope: Scope, q: Search)
    requires Ok(db) && Ok(next) && SameView(db, next) && scope != General
    ensures ScopeKeys(next, scope, q) == ScopeKeys(db, scope, q)
  {
    hide Ok, SameView, TabKeys, FolderKeys;
    match scope {
      case ManualTab(publicId) =>
        SameTabKeys(db, next, publicId, q);
      case FolderScope(rootPath, path) =>
        SameSelectedFolder(db, next, rootPath, path);
        if SelectedFolder(db, rootPath, path).Some? {
          SelectedOnShow(db, rootPath, path);
          SameFolderKeysAt(db, next, SelectedFolder(db, rootPath, path).value, q);
        }
    }
  }

  lemma SameTabKeys(db: Db, next: Db, publicId: string, q: Search)
    requires Ok(db) && SameView(db, next)
    ensures next.tabs == db.tabs
    ensures TabNamed(db.tabs, publicId).Some? ==>
      var t := TabNamed(db.tabs, publicId).value;
      TabKeys(next, t, q) == TabKeys(db, t, q)
  {
    hide TreeState, RootsOk, LocationsOk, SoundsOk, LegacyOk, CustomOk, OwnersOk, LiveByRows, OnShow, Effective;
  }

  lemma SameFolderKeysAt(db: Db, next: Db, f: nat, q: Search)
    requires Ok(db) && SameView(db, next) && OnShow(db, f)
    ensures var root := db.folders[f].root;
      && root in db.roots && root in next.roots && next.roots[root].active == db.roots[root].active
      && FolderKeys(next, f, next.roots[root].active, q) == FolderKeys(db, f, db.roots[root].active, q)
  {
    hide TreeState, RootsOk, LocationsOk, SoundsOk, TabsOk, LegacyOk, CustomOk, OwnersOk, LiveByRows, Effective,
         FolderKeys;
    SameFolderKeys(db, next, f, q);
  }

  lemma SelectedOnShow(db: Db, rootPath: string, path: Path)
    requires SelectedFolder(db, rootPath, path).Some?
    ensures var f := SelectedFolder(db, rootPath, path).value;
      RootAt(db.roots, rootPath).Some? && OnShow(db, f) && db.folders[f].root == RootAt(db.roots, rootPath).value
  {}

  lemma SameFolderKeys(db: Db, next: Db, f: nat, q: Search)
    requires SameView(db, next) && OnShow(db, f)
    requires LocationsOk(db.locations, db.sounds, db.roots, db.folders)
    requires CustomOk(db.prefs, db.overrides, db.folders, db.sounds)
    ensures var active := db.roots[db.folders[f].root].active;
      FolderKeys(next, f, active, q) == FolderKeys(db, f, active, q)
  {
    hide LiveByRows, Effective, LocationsOk, CustomOk, StagesTree;
    EffectiveSounds(db, f, db.roots[db.folders[f].root].active);
  }

  lemma EffectiveSounds(db: Db, f: nat, active: nat)
    requires LocationsOk(db.locations, db.sounds, db.roots, db.folders)
    requires CustomOk(db.prefs, db.overrides, db.folders, db.sounds)
    ensures forall s :: s in Effective(db, f, active) ==> s in db.sounds
  {}

  /** Exactly the rows that are kept are left, with their keys. */
  ghost predicate Narrows(db: Db, steps: seq<Staging>, before: map<nat, Key>, after: map<nat, Key>) {
    && (forall s :: s in after <==> s in before && Kept(db, steps, s))
    && (forall s :: s in after ==> after[s] == before[s])
  }

  /**
   The general listing over a staging run: the same rows in the same places, but for the sounds that
   only their standalone flag kept there and that an applied batch has named. No staged row is listed.
   */
  lemma StagingKeepsLive(db: Db, steps: seq<Staging>, q: Search)
    requires Ok(db)
    ensures Ok(Run(db, steps))
    ensures Narrows(db, steps, ScopeKeys(db, General, q), ScopeKeys(Run(db, steps), General, q))
  {
    hide Run, Live, LiveByRows, Ok, Kept, SameView;
    StagingInvisible(db, steps);
    forall s
      ensures Live(Run(db, steps), s) <==> Live(db, s) && Kept(db, steps, s)
      ensures Live(db, s) ==>
        && s in db.sounds && s in Run(db, steps).sounds
        && Run(db, steps).sounds[s].(standalone := false) == db.sounds[s].(standalone := false)
    {
      RunLiveExactly(db, steps, s);
      if Live(db, s) { SameSound(db, Run(db, steps), s); }
    }
  }

  lemma SameSound(db: Db, next: Db, s: nat)
    requires SameView(db, next) && Live(db, s)
    ensures s in db.sounds && s in next.sounds
    ensures next.sounds[s].(standalone := false) == db.sounds[s].(standalone := false)
  {
    hide LiveByRows, OnShow, Effective, StagesTree;
  }
}
