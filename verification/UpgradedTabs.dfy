/**
 Folder tabs between an upgrade and the first scan. The upgrade makes every legacy folder tab a
 manual tab as well, so that it can be listed at once; the first finish of its root leaves that
 listing as it is.
 */
module UpgradedTabs {
  import opened Wrappers
  import opened Ordering
  import opened Tables
  import opened RootScan
  import opened Listings
  import opened Legacy
  import opened Finish
  import opened FinishEffects

  function LegacyIdsWith(db: Db, publicId: string): set<nat> {
    set l | l in db.legacyTabs && db.legacyTabs[l].publicId == publicId
  }

  function LegacyWith(db: Db, publicId: string): (r: Option<nat>)
    ensures r.Some? ==> r.value in db.legacyTabs && db.legacyTabs[r.value].publicId == publicId
  {
    First(LegacyIdsWith(db, publicId))
  }

  /** INSERT OR IGNORE: a legacy tab's members join the manual tab of its id, which keeps the ones it has. */
  function FinalizeMemberships(db: Db, tabs: map<nat, Tab>): map<Member, int> {
    (map t, s | t in tabs && s in db.sounds && LegacyWith(db, tabs[t].publicId).Some?
                && Member(LegacyWith(db, tabs[t].publicId).value, s) in db.legacyMemberships
       :: Member(t, s) := db.legacyMemberships[Member(LegacyWith(db, tabs[t].publicId).value, s)])
    + db.memberships
  }

  /** The library as the upgrade leaves it. */
  function Upgraded(imported: Db): Db {
    var tabs := FinalizeTabs(imported);
    imported.(tabs := tabs, memberships := FinalizeMemberships(imported, tabs))
  }

  lemma LegacyWithIs(db: Db, l: nat)
    requires LegacyOk(db.legacyTabs, db.legacyMemberships, db.sounds) && l in db.legacyTabs
    ensures LegacyWith(db, db.legacyTabs[l].publicId) == Some(l)
  {
    assert l in LegacyIdsWith(db, db.legacyTabs[l].publicId);
  }

  /** Which manual tab stands for a legacy tab: the one it had, unchanged, or a new one with its name and position. */
  lemma FinalizeExact(db: Db, l: nat)
    requires TabsOk(db.tabs, db.memberships, db.sounds)
    requires LegacyOk(db.legacyTabs, db.legacyMemberships, db.sounds) && l in db.legacyTabs
    ensures var tabs, tab := FinalizeTabs(db), db.legacyTabs[l];
            var made := TabNamed(tabs, tab.publicId);
      && made.Some?
      && (forall t :: t in db.tabs ==> t in tabs && tabs[t] == db.tabs[t])
      && (TabNamed(db.tabs, tab.publicId).None? ==>
            made.value !in db.tabs && tabs[made.value] == Tab(tab.publicId, tab.name, tab.position))
      && (forall t, u :: t in tabs && u in tabs && tabs[t].publicId == tabs[u].publicId ==> t == u)
  {
    hide Sort, TabNamed;
    FinalizeCoversLegacy(db, l);
    forall t, u | t in FinalizeTabs(db) && u in FinalizeTabs(db)
      && FinalizeTabs(db)[t].publicId == FinalizeTabs(db)[u].publicId
      ensures t == u
    {
      FinalizedDiffer(db, t, u);
    }
    var made := TabNamed(FinalizeTabs(db), db.legacyTabs[l].publicId).value;
    if TabNamed(db.tabs, db.legacyTabs[l].publicId).None? {
      NotNamed(db.tabs, db.legacyTabs[l].publicId);
      var k := FinalizedFrom(db, made);
    }
  }

  lemma NotNamed(tabs: map<nat, Tab>, publicId: string)
    requires TabNamed(tabs, publicId).None?
    ensures forall t :: t in tabs ==> tabs[t].publicId != publicId
  {
    forall t | t in tabs ensures tabs[t].publicId != publicId { assert t !in TabIds(tabs, publicId); }
  }

  /** A new tab copies a legacy tab that had no manual tab. */
  lemma FinalizedFrom(db: Db, t: nat) returns (l: nat)
    requires t in FinalizeTabs(db) && t !in db.tabs
    ensures l in db.legacyTabs && TabNamed(db.tabs, db.legacyTabs[l].publicId).None?
    ensures FinalizeTabs(db)[t] == Tab(db.legacyTabs[l].publicId, db.legacyTabs[l].name, db.legacyTabs[l].position)
    ensures NextId(db.tabs.Keys) <= t < NextId(db.tabs.Keys) + |Sort(FinalizedKeys(db))|
    ensures l == Sort(FinalizedKeys(db))[t - NextId(db.tabs.Keys)]
  {
    hide Sort, TabNamed;
    SortElements(FinalizedKeys(db));
    l := Sort(FinalizedKeys(db))[t - NextId(db.tabs.Keys)];
    assert l in Elements(Sort(FinalizedKeys(db)));
  }

  lemma FinalizedDiffer(db: Db, t: nat, u: nat)
    requires TabsOk(db.tabs, db.memberships, db.sounds)
    requires LegacyOk(db.legacyTabs, db.legacyMemberships, db.sounds)
    requires t in FinalizeTabs(db) && u in FinalizeTabs(db)
    requires FinalizeTabs(db)[t].publicId == FinalizeTabs(db)[u].publicId
    ensures t == u
  {
    hide Sort, TabNamed;
    var tabs := FinalizeTabs(db);
    forall x | x in db.tabs ensures tabs[x] == db.tabs[x] {}
    if t !in db.tabs {
      var l := FinalizedFrom(db, t);
      NotNamed(db.tabs, db.legacyTabs[l].publicId);
      var k := FinalizedFrom(db, u);
      SortAscends(FinalizedKeys(db));
      AscendingDistinct(Sort(FinalizedKeys(db)), FinalizedKeys(db));
    } else if u !in db.tabs {
      var k := FinalizedFrom(db, u);
      NotNamed(db.tabs, db.legacyTabs[k].publicId);
    }
  }

  /** The members of a tab that the upgrade makes are the legacy tab's, at their positions. */
  lemma UpgradedMembers(imported: Db, l: nat, t: nat)
    requires TabsOk(imported.tabs, imported.memberships, imported.sounds)
    requires LegacyOk(imported.legacyTabs, imported.legacyMemberships, imported.sounds) && l in imported.legacyTabs
    requires t in FinalizeTabs(imported) && t !in imported.tabs
    requires FinalizeTabs(imported)[t].publicId == imported.legacyTabs[l].publicId
    ensures var db := Upgraded(imported);
      SameMembers(db, db.memberships, t, l)
  {
    hide FinalizeTabs, LegacyWith;
    LegacyWithIs(imported, l);
  }

  /**
   From the upgrade to the first finished scan a folder tab's listing stays what the legacy tab was,
   its members in their positions, under every search, whether or not a manual tab of its own follows.
   */
  lemma UpgradedTabStays(imported: Db, path: string, generation: nat, l: nat, q: Search)
    requires Ok(imported) && l in imported.legacyTabs && imported.legacyTabs[l].rootPath == path
    requires TabNamed(imported.tabs, imported.legacyTabs[l].publicId).None?
    requires var db := Upgraded(imported);
      Ok(db) && Verified(db, path, generation) && FinishScan(db, path, generation).Success?
    ensures var db := Upgraded(imported);
            var next := FinishScan(db, path, generation).value;
            var scope := ManualTab(imported.legacyTabs[l].publicId);
      && SoundsOk(next.sounds) && Listing(next, scope, q) == Listing(db, scope, q)
      && ScopeKeys(db, scope, q) == LegacyKeys(db, l, q)
  {
    hide Ok, FinishScan, FinalizeTabs, FinalizeMemberships, Sort, TabNamed, ScopeKeys, Merged, LegacyKeys, Upgraded;
    var db := Upgraded(imported);
    var next := FinishScan(db, path, generation).value;
    var publicId := imported.legacyTabs[l].publicId;
    ImportedOk(imported);
    UpgradedFrame(imported);
    FinalizeExact(imported, l);
    NamedIs(db.tabs, publicId);
    var t := TabNamed(db.tabs, publicId).value;
    UpgradedMembers(imported, l, t);
    FinishMergesTab(db, path, generation, t, l);
    FinishKeeps(db, path, generation);
    ImportedOk(next);
    ImportedOk(db);
    NamedOnly(next.tabs, t);
    TabRows(db, publicId, t, l, q);
    MergedAll(db, next, t, l);
    SameTabRows(db, next, publicId, t, q);
    OkSounds(next);
    OkSounds(db);
  }

  /** A legacy tab's members, with the keys its listing was ordered by. */
  function LegacyKeys(db: Db, l: nat, q: Search): map<nat, Key> {
    map s | s in db.sounds && Member(l, s) in db.legacyMemberships && q(db.sounds[s].searchName)
      :: Key(db.legacyMemberships[Member(l, s)], Text(db.sounds[s].publicId))
  }

  lemma UpgradedFrame(imported: Db)
    ensures var db := Upgraded(imported);
      db == imported.(tabs := FinalizeTabs(imported), memberships := db.memberships)
  {
    hide FinalizeTabs, FinalizeMemberships;
  }

  /** The tab's members are exactly the legacy tab's, at the same positions. */
  ghost predicate SameMembers(db: Db, memberships: map<Member, int>, t: nat, l: nat) {
    && (forall s :: Member(t, s) in memberships <==> Member(l, s) in db.legacyMemberships)
    && (forall s :: Member(t, s) in memberships ==>
          memberships[Member(t, s)] == db.legacyMemberships[Member(l, s)])
  }

  lemma MergedAll(db: Db, next: Db, t: nat, l: nat)
    requires SameMembers(db, db.memberships, t, l) && Merged(db, next.memberships, t, l)
    ensures SameMembers(db, next.memberships, t, l)
  {}

  lemma TabRows(db: Db, publicId: string, t: nat, l: nat, q: Search)
    requires TabNamed(db.tabs, publicId) == Some(t) && SameMembers(db, db.memberships, t, l)
    ensures ScopeKeys(db, ManualTab(publicId), q) == LegacyKeys(db, l, q)
  {
    hide TabNamed;
  }

  lemma SameTabRows(db: Db, next: Db, publicId: string, t: nat, q: Search)
    requires TabNamed(db.tabs, publicId) == TabNamed(next.tabs, publicId) == Some(t) && next.sounds == db.sounds
    requires exists l :: SameMembers(db, db.memberships, t, l) && SameMembers(db, next.memberships, t, l)
    ensures ScopeKeys(next, ManualTab(publicId), q) == ScopeKeys(db, ManualTab(publicId), q)
  {
    hide TabNamed;
  }

  lemma ImportedOk(db: Db)
    requires Ok(db)
    ensures TabsOk(db.tabs, db.memberships, db.sounds)
    ensures LegacyOk(db.legacyTabs, db.legacyMemberships, db.sounds)
  {
    hide TreeState, RootsOk, SoundsOk, LocationsOk, CustomOk, OwnersOk, TabsOk, LegacyOk;
  }

  lemma NamedIs(tabs: map<nat, Tab>, publicId: string)
    requires TabNamed(tabs, publicId).Some?
    ensures TabNamed(tabs, publicId).value in tabs && tabs[TabNamed(tabs, publicId).value].publicId == publicId
  {}

  lemma NamedOnly(tabs: map<nat, Tab>, t: nat)
    requires t in tabs
    requires forall a, b :: a in tabs && b in tabs && tabs[a].publicId == tabs[b].publicId ==> a == b
    ensures TabNamed(tabs, tabs[t].publicId) == Some(t)
  {
    assert t in TabIds(tabs, tabs[t].publicId);
  }
}
