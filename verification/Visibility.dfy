/**
 What a user sees, told without the closure table and without sorting: which sounds are live, which a
 folder shows, and what a listing holds in which order.
 */
module Visibility {
  import opened Wrappers
  import opened Ordering
  import opened Tables
  import opened RootScan
  import opened Staging
  import opened Listings
  import opened Conversion

  // ---- live sounds and folder sounds ------------------------------------------------------------------

  /** A hidden folder is this one or lies above it. */
  ghost predicate Covered(db: Db, f: nat) {
    exists a :: a in db.folders && f in db.folders && db.folders[a].root == db.folders[f].root
      && db.folders[a].path <= db.folders[f].path && a in db.prefs && db.prefs[a].hidden
  }

  lemma CoveredIsHidden(db: Db, f: nat)
    requires ClosureExact(db.folders, db.closure)
    ensures HiddenFolder(db, f) <==> Covered(db, f)
  {
    if HiddenFolder(db, f) {
      var l :| l in db.closure && l.descendant == f && l.ancestor in db.prefs && db.prefs[l.ancestor].hidden;
      assert l == Link(l.ancestor, f);
    }
    if Covered(db, f) {
      var a :| a in db.folders && db.folders[a].root == db.folders[f].root
        && db.folders[a].path <= db.folders[f].path && a in db.prefs && db.prefs[a].hidden;
      assert AncestorOrSelf(db.folders, a, f);
      assert Link(a, f).descendant == f && Link(a, f).ancestor == a && Link(a, f) in db.closure;
    }
  }

  /**
   A sound is live when it is standalone, has a place in a manual tab, or lies under some root at its
   active generation, outside every hidden folder.
   */
  lemma LiveExactly(db: Db, s: nat)
    requires Ok(db)
    ensures Live(db, s) <==>
      s in db.sounds
      && (|| db.sounds[s].standalone
          || (exists t :: Member(t, s) in db.memberships)
          || (exists root, g :: root in db.roots && g == db.roots[root].active
                && LocationKey(s, root, g) in db.locations
                && (db.locations[LocationKey(s, root, g)].folder.Some? ==>
                      !Covered(db, db.locations[LocationKey(s, root, g)].folder.value))))
  {
    hide TreeOk, FolderRootsOk, PresenceOk, PresenceNew, RowsOk, Covered, HiddenFolder;
    forall f ensures HiddenFolder(db, f) <==> Covered(db, f) { CoveredIsHidden(db, f); }
    if t :| Member(t, s) in db.memberships {
      assert Member(t, s).sound == s;
    }
    if m :| m in db.memberships && m.sound == s {
      assert Member(m.tab, s) == m;
    }
    forall k | k in db.locations && k.sound == s ensures LocationKey(s, k.root, k.generation) == k {}
    forall root, g | LocationKey(s, root, g) in db.locations
      ensures var k := LocationKey(s, root, g); k.sound == s && k.root == root && k.generation == g {}
  }

  /** A folder shows the sounds located in it or below it, and those included, but none excluded. */
  lemma EffectiveExactly(db: Db, f: nat, generation: nat, s: nat)
    requires Ok(db) && f in db.folders
    ensures s in Effective(db, f, generation) <==>
      && (|| Below(db, f, generation, s)
          || (Override(f, s) in db.overrides && db.overrides[Override(f, s)] == Include))
      && !(Override(f, s) in db.overrides && db.overrides[Override(f, s)] == Exclude)
  {
    hide TreeOk, PresenceOk, PresenceNew, RootsOk, SoundsOk, TabsOk, LegacyOk, CustomOk, OwnersOk, Overridden;
    OverriddenIs(db, f, Include, s);
    OverriddenIs(db, f, Exclude, s);
    BelowIs(db, f, generation, s);
  }

  ghost predicate Below(db: Db, f: nat, generation: nat, s: nat)
    requires f in db.folders
  {
    exists d, k :: d in db.folders && db.folders[f].path <= db.folders[d].path
      && k == LocationKey(s, db.folders[f].root, generation) && k in db.locations && db.locations[k].folder == Some(d)
  }

  lemma OverriddenIs(db: Db, f: nat, action: Action, s: nat)
    ensures s in Overridden(db, f, action)
       <==> (Override(f, s) in db.overrides && db.overrides[Override(f, s)] == action)
  {
    assert Override(f, s).folder == f;
  }

  lemma BelowIs(db: Db, f: nat, generation: nat, s: nat)
    requires f in db.folders && ClosureExact(db.folders, db.closure)
    requires LocationsOk(db.locations, db.sounds, db.roots, db.folders)
    ensures s in Physical(db, f, generation) <==> Below(db, f, generation, s)
  {
    var k := LocationKey(s, db.folders[f].root, generation);
    assert k.sound == s && k.root == db.folders[f].root && k.generation == generation;
    if k in db.locations && db.locations[k].folder.Some? {
      var d := db.locations[k].folder.value;
      assert Link(f, d) in db.closure <==> AncestorOrSelf(db.folders, f, d);
    }
    if s in Physical(db, f, generation) {
      var j :| j in db.locations && j.root == db.folders[f].root && j.generation == generation
        && db.locations[j].folder.Some? && Link(f, db.locations[j].folder.value) in db.closure && j.sound == s;
      assert j == k;
    }
  }

  // ---- listings -------------------------------------------------------------------------------------------

  /** The rows of a scope, whatever is searched for. */
  ghost predicate InScope(db: Db, scope: Scope, s: nat) {
    match scope
    case General => Live(db, s)
    case ManualTab(publicId) =>
      s in db.sounds && exists t :: t in db.tabs && db.tabs[t].publicId == publicId && Member(t, s) in db.memberships
    case FolderScope(rootPath, path) =>
      exists f :: OnShow(db, f) && db.roots[db.folders[f].root].path == rootPath && db.folders[f].path == path
        && s in Effective(db, f, db.roots[db.folders[f].root].active)
  }

  /** By position, then by public id; a manual tab has positions of its own. */
  ghost predicate Precedes(db: Db, scope: Scope, a: nat, b: nat)
    requires a in db.sounds && b in db.sounds
  {
    var tie := ComesFirst(db.sounds[a].publicId, db.sounds[b].publicId);
    match scope
    case ManualTab(publicId) =>
      exists t :: t in db.tabs && db.tabs[t].publicId == publicId
        && Member(t, a) in db.memberships && Member(t, b) in db.memberships
        && (|| db.memberships[Member(t, a)] < db.memberships[Member(t, b)]
            || (db.memberships[Member(t, a)] == db.memberships[Member(t, b)] && tie))
    case _ =>
      db.sounds[a].position < db.sounds[b].position || (db.sounds[a].position == db.sounds[b].position && tie)
  }

  lemma FolderSounds(db: Db, f: nat, active: nat)
    requires Ok(db)
    ensures forall s :: s in Effective(db, f, active) ==> s in db.sounds
  {
    hide TreeState, RootsOk, SoundsOk, TabsOk, LegacyOk, OwnersOk;
    EffectiveSounds(db, f, active);
  }

  lemma TabIs(db: Db, publicId: string, t: nat)
    requires Ok(db) && t in db.tabs && db.tabs[t].publicId == publicId
    ensures TabNamed(db.tabs, publicId) == Some(t)
  {
    hide TreeState, RootsOk, SoundsOk, LocationsOk, LegacyOk, CustomOk, OwnersOk;
    assert t in TabIds(db.tabs, publicId);
  }

  lemma KeysAre(db: Db, scope: Scope, q: Search, s: nat)
    requires Ok(db)
    ensures s in ScopeKeys(db, scope, q) <==> InScope(db, scope, s) && s in db.sounds && q(db.sounds[s].searchName)
  {
    hide Ok, Live, Effective, TabNamed, SelectedFolder;
    match scope {
      case General => LiveIsThere(db, s);
      case ManualTab(publicId) =>
        forall t | t in db.tabs && db.tabs[t].publicId == publicId ensures TabNamed(db.tabs, publicId) == Some(t) {
          TabIs(db, publicId, t);
        }
        NamedTab(db.tabs, publicId);
      case FolderScope(rootPath, path) =>
        forall f: nat
          ensures SelectedFolder(db, rootPath, path) == Some(f) <==>
            OnShow(db, f) && db.roots[db.folders[f].root].path == rootPath && db.folders[f].path == path
        {
          SelectedExactly(db, rootPath, path, f);
        }
        if SelectedFolder(db, rootPath, path).Some? {
          var f := SelectedFolder(db, rootPath, path).value;
          SelectedOnShow(db, rootPath, path);
          FolderSounds(db, f, db.roots[db.folders[f].root].active);
        }
    }
  }

  lemma NamedTab(tabs: map<nat, Tab>, publicId: string)
    ensures TabNamed(tabs, publicId).Some? ==>
      TabNamed(tabs, publicId).value in tabs && tabs[TabNamed(tabs, publicId).value].publicId == publicId
  {}

  lemma LiveIsThere(db: Db, s: nat)
    ensures Live(db, s) ==> s in db.sounds
  {}

  lemma KeysPrecede(db: Db, scope: Scope, q: Search, a: nat, b: nat)
    requires Ok(db) && a in ScopeKeys(db, scope, q) && b in ScopeKeys(db, scope, q)
    requires Less(ScopeKeys(db, scope, q)[a], ScopeKeys(db, scope, q)[b])
    ensures a in db.sounds && b in db.sounds && Precedes(db, scope, a, b)
  {
    hide Ok, Live, Effective, SelectedFolder, TabNamed, ComesFirst, TextLess;
    TextLessExactly(ScopeKeys(db, scope, q)[a].tie.text, ScopeKeys(db, scope, q)[b].tie.text);
    if scope.ManualTab? { NamedTab(db.tabs, scope.publicId); }
  }

  /**
   A listing holds each row of its scope that matches the search once, and nothing else, by position
   and then by public id.
   */
  lemma ListingExactly(db: Db, scope: Scope, q: Search)
    requires Ok(db)
    ensures SoundsOk(db.sounds)
    ensures var rows := Listing(db, scope, q);
      && (forall s :: s in rows <==> InScope(db, scope, s) && s in db.sounds && q(db.sounds[s].searchName))
      && (forall i, j :: 0 <= i < j < |rows| ==>
            rows[i] != rows[j] && rows[i] in db.sounds && rows[j] in db.sounds
            && Precedes(db, scope, rows[i], rows[j]))
  {
    hide Ok, ScopeKeys, Sort, InScope, Precedes;
    OkSounds(db);
    ScopeKeysDistinct(db, scope, q);
    var keys, rows := ScopeKeys(db, scope, q), Listing(db, scope, q);
    SortAscends(keys);
    SortElements(keys);
    AscendingDistinct(rows, keys);
    forall s ensures s in rows <==> InScope(db, scope, s) && s in db.sounds && q(db.sounds[s].searchName) {
      assert s in rows <==> s in Elements(rows);
      KeysAre(db, scope, q, s);
    }
    forall i, j | 0 <= i < j < |rows|
      ensures rows[i] in db.sounds && rows[j] in db.sounds && Precedes(db, scope, rows[i], rows[j])
    {
      KeysPrecede(db, scope, q, rows[i], rows[j]);
    }
  }

  // ---- searching ------------------------------------------------------------------------------------------

  /** The rows whose search name matches, in their order. */
  function Matching(sounds: map<nat, Sound>, rows: seq<nat>, q: Search): seq<nat>
    decreases |rows|
  {
    if rows == [] then []
    else
      var last := rows[|rows| - 1];
      Matching(sounds, rows[..|rows| - 1], q) + if last in sounds && q(sounds[last].searchName) then [last] else []
  }

  lemma {:induction false} MatchingRows(sounds: map<nat, Sound>, rows: seq<nat>, q: Search, keys: map<nat, Key>)
    requires Ascending(rows, keys)
    ensures var picked := Matching(sounds, rows, q);
      && Ascending(picked, keys)
      && (forall s :: s in picked <==> s in rows && s in sounds && q(sounds[s].searchName))
    decreases |rows|
  {
    if rows != [] {
      var front, last := rows[..|rows| - 1], rows[|rows| - 1];
      assert rows == front + [last];
      MatchingRows(sounds, front, q, keys);
      var picked := Matching(sounds, front, q);
      forall i | 0 <= i < |picked| ensures Less(keys[picked[i]], keys[last]) {
        assert picked[i] in front;
        var k :| 0 <= k < |front| && front[k] == picked[i];
        assert rows[k] == picked[i] && rows[|rows| - 1] == last;
      }
    }
  }

  lemma SameOrder(rows: seq<nat>, keys: map<nat, Key>, narrow: map<nat, Key>)
    requires Ascending(rows, keys) && (forall s :: s in rows <==> s in narrow)
    requires forall s :: s in narrow ==> s in keys && narrow[s] == keys[s]
    ensures Ascending(rows, narrow) && Elements(rows) == narrow.Keys
  {
    forall i | 0 <= i < |rows| ensures rows[i] in narrow { assert rows[i] in rows; }
  }

  lemma KeysNarrow(db: Db, scope: Scope, q: Search)
    ensures var all, narrow := ScopeKeys(db, scope, EVERYTHING), ScopeKeys(db, scope, q);
      && (forall s :: s in narrow <==> s in all && s in db.sounds && q(db.sounds[s].searchName))
      && (forall s :: s in narrow ==> narrow[s] == all[s])
  {
    hide Live, Effective, SelectedFolder, TabNamed;
  }

  /** In every scope a search leaves out the rows whose search name does not match, and keeps the others in order. */
  lemma SearchNarrows(db: Db, scope: Scope, q: Search)
    requires SoundsOk(db.sounds)
    ensures Listing(db, scope, q) == Matching(db.sounds, Listing(db, scope, EVERYTHING), q)
  {
    hide ScopeKeys, Sort, Matching, SoundsOk;
    var all, narrow := ScopeKeys(db, scope, EVERYTHING), ScopeKeys(db, scope, q);
    var rows := Listing(db, scope, EVERYTHING);
    KeysNarrow(db, scope, q);
    ScopeKeysDistinct(db, scope, EVERYTHING);
    ScopeKeysDistinct(db, scope, q);
    SortAscends(all);
    SortElements(all);
    MatchingRows(db.sounds, rows, q, all);
    var picked := Matching(db.sounds, rows, q);
    forall s ensures s in picked <==> s in narrow { assert s in rows <==> s in Elements(rows); }
    SameOrder(picked, all, narrow);
    SortUnique(picked, narrow);
  }
}
