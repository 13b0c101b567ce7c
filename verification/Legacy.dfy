/**
 What the first finished scan of a root does with the folder tabs a pre-upgrade library had.
 A tab whose folder is present becomes preferences and sparse overrides on that folder; a tab
 whose folder is gone becomes a manual tab.
 */
module Legacy {
  import opened Wrappers
  import opened Ordering
  import opened Tables

  function LegacyOf(db: Db, path: string): set<nat> {
    set t | t in db.legacyTabs && db.legacyTabs[t].rootPath == path
  }

  /** The folder a legacy tab of root `path` turns into, if the new generation has it. */
  function Target(db: Db, path: string, generation: nat, t: nat): Option<nat> {
    if t !in LegacyOf(db, path) then None
    else match RootAt(db.roots, path)
         case None => None
         case Some(root) =>
           match FolderAt(db.folders, root, db.legacyTabs[t].path)
           case None => None
           case Some(f) => if Presence(f, generation) in db.presence then Some(f) else None
  }

  /** The legacy tabs that turn into folder `f`. */
  function TabsFor(db: Db, path: string, generation: nat, f: nat): set<nat> {
    set t | t in db.legacyTabs && Target(db, path, generation, t) == Some(f)
  }

  function Targets(db: Db, path: string, generation: nat): set<nat> {
    set f | f in db.folders && TabsFor(db, path, generation, f) != {}
  }

  function LegacyPref(db: Db, path: string, generation: nat, f: nat): Pref
    requires f in Targets(db, path, generation)
  {
    var tab := db.legacyTabs[Last(TabsFor(db, path, generation, f)).value];
    if f in db.prefs then db.prefs[f].(displayName := Some(tab.name), siblingPosition := Some(tab.position))
    else Pref(Some(tab.name), Some(tab.position), false, false)
  }

  function ReconcilePrefs(db: Db, path: string, generation: nat): map<nat, Pref> {
    db.prefs + map f | f in Targets(db, path, generation) :: LegacyPref(db, path, generation, f)
  }

  /** Members of some tab of `f` that are not physically below it. */
  function Missing(db: Db, path: string, generation: nat, f: nat): set<nat> {
    set m | m in db.legacyMemberships && m.tab in TabsFor(db, path, generation, f)
            && m.sound !in Physical(db, f, generation) :: m.sound
  }

  /** Sounds physically below `f` that some tab of `f` does not have. */
  function Surplus(db: Db, path: string, generation: nat, f: nat): set<nat> {
    set s | s in Physical(db, f, generation)
            && exists t :: t in TabsFor(db, path, generation, f) && Member(t, s) !in db.legacyMemberships
  }

  function ReconcileOverrides(db: Db, path: string, generation: nat): map<Override, Action> {
    var targets := Targets(db, path, generation);
    db.overrides
    + (map f, s | f in targets && s in Missing(db, path, generation, f) :: Override(f, s) := Include)
    + (map f, s | f in targets && s in Surplus(db, path, generation, f) :: Override(f, s) := Exclude)
  }

  /** Legacy tabs without a folder in the new generation, in row id order. */
  function AbsentKeys(db: Db, path: string, generation: nat): map<nat, Key> {
    map t | t in LegacyOf(db, path) && Target(db, path, generation, t).None? :: Key(0, Id(t))
  }

  function Absent(db: Db, path: string, generation: nat): seq<nat> {
    Sort(AbsentKeys(db, path, generation))
  }

  /** The plain insert aborts when a manual tab already has the public id. */
  predicate AbsentTaken(db: Db, path: string, generation: nat) {
    exists t :: t in AbsentKeys(db, path, generation) && t in db.legacyTabs
      && TabNamed(db.tabs, db.legacyTabs[t].publicId).Some?
  }

  lemma AbsentRows(db: Db, path: string, generation: nat)
    ensures Elements(Absent(db, path, generation)) == AbsentKeys(db, path, generation).Keys
    ensures Ascending(Absent(db, path, generation), AbsentKeys(db, path, generation))
    ensures forall i :: 0 <= i < |Absent(db, path, generation)| ==>
      Absent(db, path, generation)[i] in LegacyOf(db, path) && Absent(db, path, generation)[i] in db.legacyTabs
  {
    hide Target;
    SortElements(AbsentKeys(db, path, generation));
    SortAscends(AbsentKeys(db, path, generation));
  }

  function AbsentTab(db: Db, path: string, generation: nat, i: nat): Tab
    requires i < |Absent(db, path, generation)|
  {
    AbsentRows(db, path, generation);
    var tab := db.legacyTabs[Absent(db, path, generation)[i]];
    Tab(tab.publicId, tab.name, tab.position)
  }

  /** The tabs inserted for absent folders get consecutive row ids. */
  function AbsentTabAt(db: Db, path: string, generation: nat, id: nat): Tab
    requires NextId(db.tabs.Keys) <= id < NextId(db.tabs.Keys) + |Absent(db, path, generation)|
  {
    AbsentTab(db, path, generation, id - NextId(db.tabs.Keys))
  }

  function ReconcileTabs(db: Db, path: string, generation: nat): map<nat, Tab> {
    db.tabs + map t: nat | NextId(db.tabs.Keys) <= t < NextId(db.tabs.Keys) + |Absent(db, path, generation)|
                :: AbsentTabAt(db, path, generation, t)
  }

  function LegacyIds(db: Db, path: string, publicId: string): set<nat> {
    set t | t in db.legacyTabs && db.legacyTabs[t].rootPath == path && db.legacyTabs[t].publicId == publicId
  }

  function LegacyNamed(db: Db, path: string, publicId: string): (r: Option<nat>)
    ensures r.Some? ==> r.value in db.legacyTabs && db.legacyTabs[r.value].publicId == publicId
  {
    First(LegacyIds(db, path, publicId))
  }

  /** Memberships go to whichever manual tab now has the legacy tab's public id. */
  function ReconcileMemberships(db: Db, path: string, tabs: map<nat, Tab>): map<Member, int> {
    db.memberships
    + map t, s | t in tabs && s in db.sounds && LegacyNamed(db, path, tabs[t].publicId).Some?
                 && Member(LegacyNamed(db, path, tabs[t].publicId).value, s) in db.legacyMemberships
        :: Member(t, s) := db.legacyMemberships[Member(LegacyNamed(db, path, tabs[t].publicId).value, s)]
  }

  function Reconcile(db: Db, path: string, generation: nat): Result<Db, LibraryError> {
    if AbsentTaken(db, path, generation) then Failure(Database)
    else
      var tabs := ReconcileTabs(db, path, generation);
      Success(db.(
        prefs := ReconcilePrefs(db, path, generation),
        overrides := ReconcileOverrides(db, path, generation),
        tabs := tabs,
        memberships := ReconcileMemberships(db, path, tabs),
        legacyTabs := map t | t in db.legacyTabs && t !in LegacyOf(db, path) :: db.legacyTabs[t],
        legacyMemberships := map m | m in db.legacyMemberships
          && m.tab !in LegacyOf(db, path) :: db.legacyMemberships[m]))
  }

  // ---- the invariant survives -------------------------------------------------------------

  lemma ReconcileTabsUnique(db: Db, path: string, generation: nat)
    requires LegacyOk(db.legacyTabs, db.legacyMemberships, db.sounds)
    requires TabsOk(db.tabs, db.memberships, db.sounds) && !AbsentTaken(db, path, generation)
    ensures var tabs := ReconcileTabs(db, path, generation);
      && (forall a, b :: a in tabs && b in tabs && tabs[a].publicId == tabs[b].publicId ==> a == b)
      && (forall t :: t in db.tabs ==> t in tabs && tabs[t] == db.tabs[t])
  {
    hide Target, Absent, AbsentTabAt, AbsentTaken;
    var base := NextId(db.tabs.Keys);
    var tabs := ReconcileTabs(db, path, generation);
    forall a, b | a in tabs && b in tabs && tabs[a].publicId == tabs[b].publicId ensures a == b {
      if base <= a && base <= b {
        AbsentTabsDiffer(db, path, generation, a, b);
      } else if base <= a {
        AbsentTabIsNew(db, path, generation, a, b);
      } else if base <= b {
        AbsentTabIsNew(db, path, generation, b, a);
      }
    }
  }

  lemma AbsentTabsDiffer(db: Db, path: string, generation: nat, a: nat, b: nat)
    requires LegacyOk(db.legacyTabs, db.legacyMemberships, db.sounds)
    requires NextId(db.tabs.Keys) <= a < NextId(db.tabs.Keys) + |Absent(db, path, generation)|
    requires NextId(db.tabs.Keys) <= b < NextId(db.tabs.Keys) + |Absent(db, path, generation)|
    requires AbsentTabAt(db, path, generation, a).publicId == AbsentTabAt(db, path, generation, b).publicId
    ensures a == b
  {
    hide Target, Absent, AbsentKeys, Ascending;
    AbsentRows(db, path, generation);
    AscendingDistinct(Absent(db, path, generation), AbsentKeys(db, path, generation));
  }

  lemma AbsentTabIsNew(db: Db, path: string, generation: nat, id: nat, t: nat)
    requires NextId(db.tabs.Keys) <= id < NextId(db.tabs.Keys) + |Absent(db, path, generation)|
    requires !AbsentTaken(db, path, generation) && t in db.tabs
    ensures db.tabs[t].publicId != AbsentTabAt(db, path, generation, id).publicId
  {
    hide Target, Absent;
    AbsentRows(db, path, generation);
    var row := Absent(db, path, generation)[id - NextId(db.tabs.Keys)];
    assert row in Elements(Absent(db, path, generation));
    assert TabNamed(db.tabs, db.legacyTabs[row].publicId).None?;
    assert t !in TabIds(db.tabs, db.legacyTabs[row].publicId);
  }

  lemma PhysicalSounds(db: Db, f: nat, g: nat)
    requires LocationsOk(db.locations, db.sounds, db.roots, db.folders)
    ensures Physical(db, f, g) <= db.sounds.Keys
  {}

  /** Where an override of the reconciled table comes from. */
  lemma OverrideRows(db: Db, path: string, generation: nat, o: Override)
    requires o in ReconcileOverrides(db, path, generation)
    ensures o in db.overrides || (o.folder in Targets(db, path, generation)
      && (o.sound in Missing(db, path, generation, o.folder) || o.sound in Surplus(db, path, generation, o.folder)))
  {
    hide Targets, Missing, Surplus;
  }

  lemma ReconcileCustom(db: Db, path: string, generation: nat)
    requires LegacyOk(db.legacyTabs, db.legacyMemberships, db.sounds)
    requires LocationsOk(db.locations, db.sounds, db.roots, db.folders)
    requires CustomOk(db.prefs, db.overrides, db.folders, db.sounds)
    ensures CustomOk(ReconcilePrefs(db, path, generation), ReconcileOverrides(db, path, generation), db.folders,
      db.sounds)
  {
    hide Physical, TabsFor, LocationsOk, ReconcileOverrides, LegacyPref;
    forall o | o in ReconcileOverrides(db, path, generation) ensures o.folder in db.folders && o.sound in db.sounds {
      OverrideRows(db, path, generation, o);
      PhysicalSounds(db, o.folder, generation);
    }
  }

  lemma ReconcileMembershipsOk(db: Db, path: string, tabs: map<nat, Tab>)
    requires TabsOk(db.tabs, db.memberships, db.sounds)
    requires forall t :: t in db.tabs ==> t in tabs
    ensures forall m :: m in ReconcileMemberships(db, path, tabs) ==> m.tab in tabs && m.sound in db.sounds
  {
    hide LegacyNamed;
  }

  lemma ReconcileKeeps(db: Db, path: string, generation: nat)
    requires Ok(db) && Reconcile(db, path, generation).Success?
    ensures var next := Reconcile(db, path, generation).value;
      && Ok(next)
      && next == db.(prefs := next.prefs, overrides := next.overrides, tabs := next.tabs,
                     memberships := next.memberships, legacyTabs := next.legacyTabs,
                     legacyMemberships := next.legacyMemberships)
  {
    hide TreeOk, FolderRootsOk, ClosureExact, PresenceOk, PresenceNew, RootsOk, LocationsOk, SoundsOk, CustomOk,
         OwnersOk,
         AbsentTaken, ReconcilePrefs, ReconcileOverrides, ReconcileTabs, ReconcileMemberships;
    ReconcileTabsUnique(db, path, generation);
    ReconcileMembershipsOk(db, path, ReconcileTabs(db, path, generation));
    ReconcileCustom(db, path, generation);
  }

  // ---- a present folder shows what its tab had ------------------------------------------------

  function MembersOf(db: Db, t: nat): set<nat> {
    set m | m in db.legacyMemberships && m.tab == t :: m.sound
  }

  /**
   What the legacy tabs of folder `f` ask of it: of the sounds below it those that every tab has, of
   the others those that some tab has. For a single tab these are its members.
   */
  predicate Wanted(db: Db, path: string, generation: nat, f: nat, s: nat) {
    if s in Physical(db, f, generation) then
      forall t :: t in TabsFor(db, path, generation, f) ==> Member(t, s) in db.legacyMemberships
    else
      exists t :: t in TabsFor(db, path, generation, f) && Member(t, s) in db.legacyMemberships
  }

  /** No earlier override hides a wanted sound below the folder or adds an unwanted one from elsewhere. */
  ghost predicate OverridesAgree(db: Db, path: string, generation: nat, f: nat) {
    forall s :: Override(f, s) in db.overrides && (s in Physical(db, f, generation) <==>
      Wanted(db, path, generation, f, s)) ==>
      db.overrides[Override(f, s)] == if s in Physical(db, f, generation) then Include else Exclude
  }

  lemma SoleTab(db: Db, path: string, generation: nat, f: nat, t: nat, s: nat)
    requires TabsFor(db, path, generation, f) == {t}
    ensures Wanted(db, path, generation, f, s) <==> s in MembersOf(db, t)
  {
    hide TabsFor, Physical;
    assert Member(t, s).tab == t && t in TabsFor(db, path, generation, f);
  }

  lemma MissingMeans(db: Db, path: string, generation: nat, f: nat, s: nat)
    ensures s in Missing(db, path, generation, f) <==>
      s !in Physical(db, f, generation) && Wanted(db, path, generation, f, s)
  {
    hide TabsFor, Physical;
    forall t | t in TabsFor(db, path, generation, f) && Member(t, s) in db.legacyMemberships
      && s !in Physical(db, f, generation)
      ensures s in Missing(db, path, generation, f)
    {
      assert Member(t, s).tab == t && Member(t, s).sound == s;
    }
  }

  lemma SurplusMeans(db: Db, path: string, generation: nat, f: nat, s: nat)
    ensures s in Surplus(db, path, generation, f) <==>
      s in Physical(db, f, generation) && !Wanted(db, path, generation, f, s)
  {
    hide TabsFor, Physical;
  }

  /** The override the reconciled folder holds for a sound, told by where the sound was. */
  lemma OverrideAfter(db: Db, path: string, generation: nat, f: nat, s: nat)
    requires f in Targets(db, path, generation)
    ensures var next := ReconcileOverrides(db, path, generation);
            var wanted := Wanted(db, path, generation, f, s);
            var physical := s in Physical(db, f, generation);
      if wanted && !physical then Override(f, s) in next && next[Override(f, s)] == Include
      else if physical && !wanted then Override(f, s) in next && next[Override(f, s)] == Exclude
      else (Override(f, s) in next <==> Override(f, s) in db.overrides)
           && (Override(f, s) in next ==> next[Override(f, s)] == db.overrides[Override(f, s)])
  {
    hide TabsFor, Physical, Missing, Surplus, Wanted, Targets;
    MissingMeans(db, path, generation, f, s);
    SurplusMeans(db, path, generation, f, s);
  }

  /**
   The reconciled folder's effective sounds are exactly what its legacy tabs ask for, if and only if
   the overrides the folder already had agree; with no earlier overrides they always do.
   */
  lemma ReconcilePreservesMembership(db: Db, path: string, generation: nat, f: nat)
    requires Reconcile(db, path, generation).Success? && f in Targets(db, path, generation)
    ensures var next := Reconcile(db, path, generation).value;
      && ((forall s :: s in Effective(next, f, generation) <==> Wanted(db, path, generation, f, s))
            <==> OverridesAgree(db, path, generation, f))
      && ((forall o :: o in db.overrides ==> o.folder != f) ==> OverridesAgree(db, path, generation, f))
  {
    hide AbsentTaken, Targets, TabsFor, Physical, Wanted, Effective, ReconcilePrefs, ReconcileTabs,
         ReconcileMemberships, ReconcileOverrides;
    var next := Reconcile(db, path, generation).value;
    assert Physical(next, f, generation) == Physical(db, f, generation) by { SamePhysical(db, next, f, generation); }
    forall s ensures s in Effective(next, f, generation) <==> EffectiveAfter(db, path, generation, f, s) {
      OverrideAfter(db, path, generation, f, s);
      EffectiveBy(next, f, generation, s);
    }
    forall s ensures s in Effective(next, f, generation) <==> EffectiveAfter(db, path, generation, f, s) {}
  }

  lemma SamePhysical(db: Db, next: Db, f: nat, generation: nat)
    requires next.folders == db.folders && next.closure == db.closure && next.locations == db.locations
    ensures Physical(next, f, generation) == Physical(db, f, generation)
  {}

  lemma EffectiveBy(db: Db, f: nat, generation: nat, s: nat)
    ensures s in Effective(db, f, generation) <==>
      (s in Physical(db, f, generation) || (Override(f, s) in db.overrides && db.overrides[Override(f, s)] == Include))
      && !(Override(f, s) in db.overrides && db.overrides[Override(f, s)] == Exclude)
  {
    hide Physical;
    forall action
      ensures s in Overridden(db, f, action)
         <==> (Override(f, s) in db.overrides && db.overrides[Override(f, s)] == action)
    {
      assert Override(f, s).folder == f;
    }
  }

  ghost predicate EffectiveAfter(db: Db, path: string, generation: nat, f: nat, s: nat) {
    var held := Override(f, s) in db.overrides;
    if Wanted(db, path, generation, f, s) then
      s !in Physical(db, f, generation) || !(held && db.overrides[Override(f, s)] == Exclude)
    else
      s !in Physical(db, f, generation) && held && db.overrides[Override(f, s)] == Include
  }

  // ---- a vanished folder becomes a manual tab ---------------------------------------------------

  /** The legacy tab's manual tab has its public id, name and position, and its memberships as they were. */
  lemma AbsentBecomesManual(db: Db, path: string, generation: nat, t: nat)
    requires Ok(db) && Reconcile(db, path, generation).Success?
    requires t in AbsentKeys(db, path, generation)
    ensures t in db.legacyTabs
    ensures var next := Reconcile(db, path, generation).value;
            var made := TabNamed(next.tabs, db.legacyTabs[t].publicId);
      && made.Some? && made.value !in db.tabs
      && next.tabs[made.value] == Tab(db.legacyTabs[t].publicId, db.legacyTabs[t].name, db.legacyTabs[t].position)
      && (forall s :: Member(made.value, s) in next.memberships <==> Member(t, s) in db.legacyMemberships)
      && (forall s :: Member(t, s) in db.legacyMemberships
            ==> next.memberships[Member(made.value, s)] == db.legacyMemberships[Member(t, s)])
  {
    hide TreeState, RootsOk, SoundsOk, LocationsOk, CustomOk, OwnersOk,
         Target, AbsentTaken, ReconcilePrefs, ReconcileOverrides, ReconcileTabs, Absent;
    var next := Reconcile(db, path, generation).value;
    ReconcileTabsUnique(db, path, generation);
    var made := AbsentTabId(db, path, generation, t);
    assert made in TabIds(next.tabs, db.legacyTabs[t].publicId);
    LegacyNamedIs(db, path, t);
  }

  lemma LegacyNamedIs(db: Db, path: string, t: nat)
    requires LegacyOk(db.legacyTabs, db.legacyMemberships, db.sounds) && t in LegacyOf(db, path)
    ensures LegacyNamed(db, path, db.legacyTabs[t].publicId) == Some(t)
  {
    assert t in LegacyIds(db, path, db.legacyTabs[t].publicId);
  }

  lemma AbsentTabId(db: Db, path: string, generation: nat, t: nat) returns (made: nat)
    requires t in AbsentKeys(db, path, generation)
    ensures t in db.legacyTabs && t in LegacyOf(db, path) && made !in db.tabs
    ensures var tabs := ReconcileTabs(db, path, generation);
      made in tabs && tabs[made] == Tab(db.legacyTabs[t].publicId, db.legacyTabs[t].name, db.legacyTabs[t].position)
  {
    hide Target, Absent;
    AbsentRows(db, path, generation);
    var rows := Absent(db, path, generation);
    assert t in Elements(rows);
    var i :| 0 <= i < |rows| && rows[i] == t;
    made := NextId(db.tabs.Keys) + i;
    assert ReconcileTabs(db, path, generation)[made] == AbsentTabAt(db, path, generation, made);
  }
}
