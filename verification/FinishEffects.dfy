/**
 What else a finish does: it takes over the legacy tabs of its root once and for all, leaves other
 folders' preferences and overrides alone, and takes hotkeys away from sounds that are gone.
 */
module FinishEffects {
  import opened Wrappers
  import opened Ordering
  import opened Tables
  import opened FolderScan
  import opened RootScan
  import opened Cascade
  import opened Listings
  import opened Legacy
  import opened Conversion
  import opened Finish

  // ---- legacy tabs ----------------------------------------------------------------------------------

  /** Without a legacy tab of the root, no folder takes one over and none is left without a folder. */
  lemma NoTargets(db: Db, path: string, generation: nat)
    requires LegacyOf(db, path) == {}
    ensures Targets(db, path, generation) == {} && AbsentKeys(db, path, generation) == map[]
  {
    forall f | f in db.folders ensures TabsFor(db, path, generation, f) == {} {}
  }

  lemma NothingAbsent(db: Db, path: string, generation: nat)
    requires AbsentKeys(db, path, generation) == map[]
    ensures !AbsentTaken(db, path, generation) && ReconcileTabs(db, path, generation) == db.tabs
  {
    hide AbsentKeys;
    assert |Absent(db, path, generation)| == 0;
  }

  /** Reconciling leaves a folder that takes over no legacy tab alone. */
  lemma UntargetedRow(db: Db, path: string, generation: nat, f: nat, s: nat)
    requires f !in Targets(db, path, generation)
    ensures var next := ReconcileOverrides(db, path, generation);
      && (Override(f, s) in next <==> Override(f, s) in db.overrides)
      && (Override(f, s) in db.overrides ==> next[Override(f, s)] == db.overrides[Override(f, s)])
    ensures var next := ReconcilePrefs(db, path, generation);
      (f in next <==> f in db.prefs) && (f in db.prefs ==> next[f] == db.prefs[f])
  {
    hide Targets, Missing, Surplus;
  }

  lemma NoOverrides(db: Db, path: string, generation: nat)
    requires Targets(db, path, generation) == {}
    ensures ReconcileOverrides(db, path, generation) == db.overrides && ReconcilePrefs(db, path, generation) == db.prefs
  {
    hide Targets, ReconcileOverrides, ReconcilePrefs;
    var overrides, prefs := ReconcileOverrides(db, path, generation), ReconcilePrefs(db, path, generation);
    forall o ensures o in overrides <==> o in db.overrides
      ensures o in db.overrides ==> o in overrides && overrides[o] == db.overrides[o]
    {
      UntargetedRow(db, path, generation, o.folder, o.sound);
    }
    forall f ensures f in prefs <==> f in db.prefs
      ensures f in db.prefs ==> f in prefs && prefs[f] == db.prefs[f]
    {
      UntargetedRow(db, path, generation, f, 0);
    }
  }

  lemma NoLegacyNames(db: Db, path: string, publicId: string)
    requires LegacyOf(db, path) == {}
    ensures LegacyNamed(db, path, publicId).None?
  {
    forall t | t in LegacyIds(db, path, publicId) ensures t in LegacyOf(db, path) {}
  }

  /** Where a membership of the reconciled table comes from. */
  lemma MembershipRow(db: Db, path: string, tabs: map<nat, Tab>, m: Member)
    ensures var next := ReconcileMemberships(db, path, tabs);
            var moved := m.tab in tabs && LegacyNamed(db, path, tabs[m.tab].publicId).Some?;
      && (m in next ==> m in db.memberships || moved)
      && (m in db.memberships ==> m in next && (moved || next[m] == db.memberships[m]))
  {
    hide LegacyNamed;
  }

  /** A manual tab's memberships, merged with those of a legacy tab that has its public id. */
  lemma MergedRows(db: Db, path: string, tabs: map<nat, Tab>, t: nat, l: nat)
    requires t in tabs && LegacyNamed(db, path, tabs[t].publicId) == Some(l)
    requires LegacyOk(db.legacyTabs, db.legacyMemberships, db.sounds)
    ensures Merged(db, ReconcileMemberships(db, path, tabs), t, l)
  {
    hide LegacyNamed, ReconcileMemberships, LegacyOk;
    forall s { MergedRow(db, path, tabs, t, l, s); }
  }

  lemma MergedRow(db: Db, path: string, tabs: map<nat, Tab>, t: nat, l: nat, s: nat)
    requires t in tabs && LegacyNamed(db, path, tabs[t].publicId) == Some(l)
    requires LegacyOk(db.legacyTabs, db.legacyMemberships, db.sounds)
    ensures var next := ReconcileMemberships(db, path, tabs);
      && (Member(t, s) in next <==> Member(t, s) in db.memberships || Member(l, s) in db.legacyMemberships)
      && (Member(l, s) in db.legacyMemberships ==> next[Member(t, s)] == db.legacyMemberships[Member(l, s)])
      && (Member(t, s) in db.memberships && Member(l, s) !in db.legacyMemberships ==>
            next[Member(t, s)] == db.memberships[Member(t, s)])
  {
    hide LegacyNamed;
  }

  /** Tab `t` has its old members and legacy tab `l`'s: these at the legacy positions, the others at their own. */
  ghost predicate Merged(db: Db, next: map<Member, int>, t: nat, l: nat) {
    && (forall s :: Member(t, s) in next <==> Member(t, s) in db.memberships || Member(l, s) in db.legacyMemberships)
    && (forall s :: Member(l, s) in db.legacyMemberships ==>
          next[Member(t, s)] == db.legacyMemberships[Member(l, s)])
    && (forall s :: Member(t, s) in db.memberships && Member(l, s) !in db.legacyMemberships ==>
          next[Member(t, s)] == db.memberships[Member(t, s)])
  }

  lemma NoMemberships(db: Db, path: string)
    requires LegacyOf(db, path) == {}
    ensures ReconcileMemberships(db, path, db.tabs) == db.memberships
  {
    hide LegacyNamed, ReconcileMemberships, LegacyOf;
    var next := ReconcileMemberships(db, path, db.tabs);
    forall m ensures m in next <==> m in db.memberships
      ensures m in db.memberships ==> m in next && next[m] == db.memberships[m]
    {
      MembershipRow(db, path, db.tabs, m);
      if m.tab in db.tabs { NoLegacyNames(db, path, db.tabs[m.tab].publicId); }
    }
  }

  lemma NoLegacyTabs(db: Db, path: string, generation: nat)
    requires LegacyOf(db, path) == {}
    ensures Reconcile(db, path, generation) == Success(db)
  {
    hide AbsentTaken, ReconcilePrefs, ReconcileOverrides, ReconcileTabs, ReconcileMemberships, Targets, AbsentKeys;
    NoTargets(db, path, generation);
    NothingAbsent(db, path, generation);
    NoOverrides(db, path, generation);
    NoMemberships(db, path);
    var next := Reconcile(db, path, generation).value;
    assert next.legacyTabs == db.legacyTabs && next.legacyMemberships == db.legacyMemberships;
  }

  /** Reconciling settles the root's legacy tabs for good: doing it again, at any generation, changes nothing. */
  lemma ReconcileOnce(db: Db, path: string, first: nat, later: nat)
    requires Ok(db) && Reconcile(db, path, first).Success?
    ensures var next := Reconcile(db, path, first).value;
      Ok(next) && Reconcile(next, path, later) == Success(next)
  {
    hide Ok, Reconcile;
    ReconcileKeeps(db, path, first);
    var next := Reconcile(db, path, first).value;
    assert LegacyOf(next, path) == {} by { LegacyGone(db, path, first); }
    NoLegacyTabs(next, path, later);
  }

  lemma LegacyGone(db: Db, path: string, generation: nat)
    requires Reconcile(db, path, generation).Success?
    ensures LegacyOf(Reconcile(db, path, generation).value, path) == {}
  {
    hide AbsentTaken, ReconcilePrefs, ReconcileOverrides, ReconcileTabs, ReconcileMemberships;
  }

  /** The folder goes by the tab's name and position and is as hidden and as expanded as it was. */
  ghost predicate TakesOver(db: Db, next: Db, f: nat, t: nat) {
    && t in db.legacyTabs && f in next.prefs
    && next.prefs[f].displayName == Some(db.legacyTabs[t].name)
    && next.prefs[f].siblingPosition == Some(db.legacyTabs[t].position)
    && next.prefs[f].hidden == (f in db.prefs && db.prefs[f].hidden)
    && next.prefs[f].expanded == (f in db.prefs && db.prefs[f].expanded)
  }

  lemma TakesOverLast(db: Db, path: string, generation: nat, f: nat)
    requires Reconcile(db, path, generation).Success? && f in db.folders && TabsFor(db, path, generation, f) != {}
    ensures TakesOver(db, Reconcile(db, path, generation).value, f, Last(TabsFor(db, path, generation, f)).value)
  {
    hide AbsentTaken, ReconcileOverrides, ReconcileTabs, ReconcileMemberships, Target;
    assert f in Targets(db, path, generation);
  }

  /** A folder's preference and overrides after the reconcile half of a finish. */
  lemma ReconciledCustom(db: Db, path: string, generation: nat, f: nat)
    requires Reconcile(db, path, generation).Success? && f in db.folders
    ensures var next := Reconcile(db, path, generation).value;
      && (TabsFor(db, path, generation, f) == {} ==>
            && (f in next.prefs <==> f in db.prefs) && (f in db.prefs ==> next.prefs[f] == db.prefs[f])
            && (forall s :: Override(f, s) in next.overrides <==> Override(f, s) in db.overrides)
            && (forall s :: Override(f, s) in db.overrides ==>
                 next.overrides[Override(f, s)] == db.overrides[Override(f, s)]))
      && (TabsFor(db, path, generation, f) != {} ==>
            exists t :: t in TabsFor(db, path, generation, f) && TakesOver(db, next, f, t))
  {
    hide AbsentTaken, Missing, Surplus, ReconcileTabs, ReconcileMemberships, TabsFor, ReconcileOverrides;
    if TabsFor(db, path, generation, f) == {} {
      forall s { UntargetedRow(db, path, generation, f, s); }
    } else {
      TakesOverLast(db, path, generation, f);
    }
  }

  /**
   A folder that survives a finish keeps its preference and overrides, unless it takes over a
   legacy tab; then it gets the tab's name and position and stays as hidden or shown as it was.
   */
  lemma FinishCustom(db: Db, path: string, generation: nat, f: nat)
    requires Ok(db) && Verified(db, path, generation) && FinishScan(db, path, generation).Success?
    requires f in FinishScan(db, path, generation).value.folders
    ensures f in db.folders
    ensures var next := FinishScan(db, path, generation).value;
      && (TabsFor(db, path, generation, f) == {} ==>
            && (f in next.prefs <==> f in db.prefs) && (f in db.prefs ==> next.prefs[f] == db.prefs[f])
            && (forall s :: Override(f, s) in next.overrides <==> Override(f, s) in db.overrides)
            && (forall s :: Override(f, s) in db.overrides ==>
                 next.overrides[Override(f, s)] == db.overrides[Override(f, s)]))
      && (TabsFor(db, path, generation, f) != {} ==>
            exists t :: t in TabsFor(db, path, generation, f) && TakesOver(db, next, f, t))
  {
    hide Ok, FinishScan, Reconcile, Convert, Activate, TabsFor;
    var root, reconciled, converted := FinishStages(db, path, generation);
    ActivateRows(converted, root, generation);
    var activated := Activate(converted, root, generation);
    assert f in activated.folders;
    ReconciledCustom(db, path, generation, f);
  }

  // ---- manual tabs -------------------------------------------------------------------------------------

  /** A manual tab that owns no legacy tab's id comes through a finish with exactly its members. */
  lemma FinishKeepsTab(db: Db, path: string, generation: nat, t: nat)
    requires Ok(db) && Verified(db, path, generation) && FinishScan(db, path, generation).Success?
    requires t in db.tabs && LegacyNamed(db, path, db.tabs[t].publicId).None?
    ensures var next := FinishScan(db, path, generation).value;
      && t in next.tabs && next.tabs[t] == db.tabs[t]
      && (forall s :: Member(t, s) in next.memberships <==> Member(t, s) in db.memberships)
      && (forall s :: Member(t, s) in db.memberships ==>
            next.memberships[Member(t, s)] == db.memberships[Member(t, s)])
  {
    hide Ok, FinishScan, Reconcile, Convert, Activate, LegacyNamed;
    var next := FinishScan(db, path, generation).value;
    var root, reconciled, converted := FinishStages(db, path, generation);
    ReconcileKeepsTab(db, path, generation, t);
    ConvertAdds(reconciled, root, db.roots[root].active, generation);
    FinishTabs(db, path, generation, root, reconciled, converted, next);
  }

  /**
   A manual tab that was there before and has the id of a legacy tab of the root, its folder being
   present, takes in the legacy tab's members: they stand at the legacy tab's positions, all other
   members where they stood.
   */
  lemma FinishMergesTab(db: Db, path: string, generation: nat, t: nat, l: nat)
    requires Ok(db) && Verified(db, path, generation) && FinishScan(db, path, generation).Success?
    requires t in db.tabs && l in db.legacyTabs && db.legacyTabs[l].rootPath == path
    requires db.legacyTabs[l].publicId == db.tabs[t].publicId
    ensures var next := FinishScan(db, path, generation).value;
      && t in next.tabs && next.tabs[t] == db.tabs[t] && next.sounds == db.sounds
      && Merged(db, next.memberships, t, l)
  {
    hide Ok, FinishScan, Reconcile, Convert, Activate;
    var next := FinishScan(db, path, generation).value;
    var root, reconciled, converted := FinishStages(db, path, generation);
    ReconcileMerges(db, path, generation, t, l);
    ConvertAdds(reconciled, root, db.roots[root].active, generation);
    FinishTabs(db, path, generation, root, reconciled, converted, next);
  }

  lemma ReconcileMerges(db: Db, path: string, generation: nat, t: nat, l: nat)
    requires Ok(db) && Reconcile(db, path, generation).Success?
    requires t in db.tabs && l in db.legacyTabs && db.legacyTabs[l].rootPath == path
    requires db.legacyTabs[l].publicId == db.tabs[t].publicId
    ensures var next := Reconcile(db, path, generation).value;
      && t in next.tabs && next.tabs[t] == db.tabs[t]
      && Merged(db, next.memberships, t, l)
  {
    hide TreeState, RootsOk, LocationsOk, CustomOk, OwnersOk, AbsentTaken, ReconcilePrefs, ReconcileOverrides,
         ReconcileMemberships, LegacyNamed, Absent;
    var tabs := ReconcileTabs(db, path, generation);
    assert t in tabs && tabs[t] == db.tabs[t];
    LegacyNamedIs(db, path, l);
    MergedRows(db, path, tabs, t, l);
  }

  lemma ReconcileKeepsTab(db: Db, path: string, generation: nat, t: nat)
    requires Reconcile(db, path, generation).Success?
    requires t in db.tabs && LegacyNamed(db, path, db.tabs[t].publicId).None?
    ensures var next := Reconcile(db, path, generation).value;
      && t in next.tabs && next.tabs[t] == db.tabs[t]
      && (forall s :: Member(t, s) in next.memberships <==> Member(t, s) in db.memberships)
      && (forall s :: Member(t, s) in db.memberships ==>
            next.memberships[Member(t, s)] == db.memberships[Member(t, s)])
  {
    hide AbsentTaken, ReconcilePrefs, ReconcileOverrides, ReconcileMemberships, LegacyNamed, Absent;
    var tabs := ReconcileTabs(db, path, generation);
    assert t in tabs && tabs[t] == db.tabs[t];
    forall s ensures Member(t, s) in ReconcileMemberships(db, path, tabs) <==> Member(t, s) in db.memberships
      ensures Member(t, s) in db.memberships ==>
        ReconcileMemberships(db, path, tabs)[Member(t, s)] == db.memberships[Member(t, s)]
    {
      MembershipRow(db, path, tabs, Member(t, s));
    }
  }

  /** The name a folder goes by. */
  function NameOf(db: Db, f: nat): string
    requires f in db.folders
  {
    if f in db.prefs && db.prefs[f].displayName.Some? then db.prefs[f].displayName.value else db.folders[f].name
  }

  lemma NextPositionIsLast(tabs: map<nat, Tab>, t: nat)
    requires t in tabs
    ensures tabs[t].position < NextPosition(tabs)
  {}

  /** A converted folder's tab goes by the folder's name and comes after every tab there was. */
  lemma ConvertedTabPlace(db: Db, root: nat, active: nat, generation: nat, f: nat)
    requires Ok(db) && Convert(db, root, active, generation).Success? && f in Disappearing(db, root, active, generation)
    ensures f in db.folders
    ensures var next := Convert(db, root, active, generation).value;
            var made := TabNamed(next.tabs, ConvertedId(f, generation));
      && made.Some? && made.value !in db.tabs && next.tabs[made.value].name == NameOf(db, f)
      && (forall t :: t in db.tabs ==> db.tabs[t].position < next.tabs[made.value].position)
  {
    hide Ok, Sort, ConvertedId, ConvertedMemberships, NextPosition, Customised, ConversionTaken;
    var next := Convert(db, root, active, generation).value;
    ConvertKeeps(db, root, active, generation);
    var id := ConvertedFrom(db, root, active, generation, f);
    ConvertedLookup(next, id, ConvertedId(f, generation));
    assert next.tabs[id] == ConvertedTabAt(db, root, active, generation, id);
    forall t | t in db.tabs ensures db.tabs[t].position < NextPosition(db.tabs) {
      NextPositionIsLast(db.tabs, t);
    }
  }

  // ---- hotkeys -----------------------------------------------------------------------------------------

  /** The sound is not live and has no location left, in any generation. */
  ghost predicate Gone(db: Db, s: nat) {
    !Live(db, s) && forall k :: k in db.locations ==> k.sound != s
  }

  /** A row as demoting leaves it. */
  ghost function Demoted(row: Binding): Binding {
    row.(normalized := None, issue := Some("sound is no longer in the active library"))
  }

  lemma ActivateBindings(db: Db, root: nat, generation: nat)
    requires root in db.roots
    ensures Activate(db, root, generation).bindings == db.bindings
  {}

  lemma GoneIgnores(db: Db, path: string, bindings: map<string, Binding>, s: nat)
    ensures Gone(db.(scans := db.scans - {path}, bindings := bindings), s) <==> Gone(db, s)
  {
    var next := db.(scans := db.scans - {path}, bindings := bindings);
    forall k | k in db.locations ensures Shown(next, k) <==> Shown(db, k) {
      forall f ensures HiddenFolder(next, f) <==> HiddenFolder(db, f) {}
    }
  }

  /**
   A finish takes a hotkey away exactly when its sound is gone afterwards, keeping the row and its
   chord's spelling for repair; every other row of the hotkey table is untouched.
   */
  lemma FinishDemotes(db: Db, path: string, generation: nat)
    requires Ok(db) && Verified(db, path, generation) && FinishScan(db, path, generation).Success?
    ensures var next := FinishScan(db, path, generation).value;
      && next.bindings.Keys == db.bindings.Keys
      && (forall b :: b in db.bindings ==>
            next.bindings[b] ==
              if db.bindings[b].normalized.Some? && db.bindings[b].owner.SoundOwner?
                && Gone(next, db.bindings[b].owner.sound)
              then Demoted(db.bindings[b]) else db.bindings[b])
  {
    hide Ok, FinishScan, Reconcile, Convert, Activate, Live;
    var root, reconciled, converted := FinishStages(db, path, generation);
    var activated := Activate(converted, root, generation);
    ActivateBindings(converted, root, generation);
    var demoted := Demote(activated);
    forall s ensures Gone(FinishScan(db, path, generation).value, s) <==> Gone(activated, s) {
      GoneIgnores(activated, path, demoted.bindings, s);
    }
  }

  // ---- a small library ------------------------------------------------------------------------------------

  const PLAIN: Details := Details("s", None, None, MAX_VOLUME, true, "")

  /** One root with a customised folder holding one sound, and a new scan that has not seen the folder. */
  function OneFolder(): Db {
    Db(map[1 := Root("/music", 0, 1)], map["/music" := 2], map[1 := Folder(1, None, ["a"], "a", 0)],
       {Presence(1, 1)}, map[Link(1, 1) := 0], map[1 := Sound("s", "s", "/music/a/s.ogg", 0, PLAIN, false)],
       map[LocationKey(1, 1, 1) := Location(Some(1), "a/s.ogg")], map[], map[],
         map[1 := Pref(None, None, false, false)],
       map[], map[], map[], map[])
  }

  lemma OneFolderTree()
    ensures TreeState(OneFolder())
  {
    var db := OneFolder();
    assert ParentOk(db.folders, 1);
    assert ParentPresent(db.folders, db.presence, Presence(1, 1));
  }

  lemma OneFolderRoots()
    ensures RootAt(OneFolder().roots, "/music") == Some(1)
  {
    assert 1 in RootIds(OneFolder().roots, "/music");
  }

  lemma OneFolderOk()
    ensures Ok(OneFolder()) && Verified(OneFolder(), "/music", 2)
  {
    hide TreeState, RootAt;
    OneFolderTree();
    OneFolderRoots();
    assert forall path :: path in OneFolder().scans ==> path == "/music";
  }

  lemma OneFolderSelected()
    ensures SelectedFolder(OneFolder(), "/music", ["a"]) == Some(1)
  {
    hide RootAt;
    OneFolderRoots();
    assert 1 in FolderIds(OneFolder().folders, 1, ["a"]);
  }

  lemma OneFolderFinishes()
    ensures FinishScan(OneFolder(), "/music", 2).Success?
  {
    hide Ok, FinishScan, Reconcile, RootAt, OneFolder;
    OneFolderOk();
    OneFolderRoots();
    FinishFailsExactly(OneFolder(), "/music", 2);
    assert OneFolder().legacyTabs == map[] && OneFolder().tabs == map[] by { OneFolderTables(); }
    NoLegacyTabs(OneFolder(), "/music", 2);
    assert TabIds(OneFolder().tabs, "") == {};
    forall publicId ensures TabNamed(OneFolder().tabs, publicId).None? {
      assert TabIds(OneFolder().tabs, publicId) == {};
    }
  }

  lemma OneFolderTables()
    ensures OneFolder().legacyTabs == map[] && OneFolder().tabs == map[]
  {}

  /** Conversion does happen: on this library the finish succeeds and the selected folder is customised and gone. */
  lemma OneFolderConverts()
    ensures var db := OneFolder();
      && Ok(db) && Verified(db, "/music", 2) && FinishScan(db, "/music", 2).Success?
      && SelectedFolder(db, "/music", ["a"]) == Some(1)
      && Presence(1, 2) !in db.presence && Customised(db, 1)
  {
    hide Ok, FinishScan, SelectedFolder;
    OneFolderOk();
    OneFolderSelected();
    OneFolderFinishes();
    assert 1 in OneFolder().prefs;
  }
}
