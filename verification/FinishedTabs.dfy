/**
 The manual tabs after a finish: where each of them comes from, and what a customised folder that is
 gone leaves behind.
 */
module FinishedTabs {
  import opened Wrappers
  import opened Ordering
  import opened Tables
  import opened FolderScan
  import opened RootScan
  import opened Listings
  import opened Legacy
  import opened Conversion
  import opened Finish
  import opened FinishEffects

  /** The root has a folder at this path, present at the generation. */
  ghost predicate FolderThere(db: Db, rootPath: string, path: Path, generation: nat) {
    exists f :: f in db.folders && db.folders[f].root in db.roots && db.roots[db.folders[f].root].path == rootPath
      && db.folders[f].path == path && Presence(f, generation) in db.presence
  }

  lemma TargetIs(db: Db, path: string, generation: nat, l: nat)
    requires Ok(db) && l in db.legacyTabs && db.legacyTabs[l].rootPath == path
    ensures Target(db, path, generation, l).Some? <==> FolderThere(db, path, db.legacyTabs[l].path, generation)
  {
    hide ClosureExact, PresenceOk, PresenceNew, SoundsOk, LocationsOk, TabsOk, LegacyOk, CustomOk, OwnersOk;
    if FolderThere(db, path, db.legacyTabs[l].path, generation) {
      var f :| f in db.folders && db.folders[f].root in db.roots && db.roots[db.folders[f].root].path == path
        && db.folders[f].path == db.legacyTabs[l].path && Presence(f, generation) in db.presence;
      assert db.folders[f].root in RootIds(db.roots, path);
      assert f in FolderIds(db.folders, db.folders[f].root, db.legacyTabs[l].path);
    }
  }

  /** The tab takes the place of a legacy tab whose folder is gone. */
  ghost predicate FromLegacy(db: Db, path: string, generation: nat, tab: Tab) {
    exists l :: l in db.legacyTabs && db.legacyTabs[l].rootPath == path
      && !FolderThere(db, path, db.legacyTabs[l].path, generation)
      && tab == Tab(db.legacyTabs[l].publicId, db.legacyTabs[l].name, db.legacyTabs[l].position)
  }

  /** The folder was on show, carries a preference or an override, and is missing from the new generation. */
  ghost predicate Leaves(db: Db, root: nat, generation: nat, f: nat) {
    && f in db.folders && db.folders[f].root == root && root in db.roots
    && Presence(f, db.roots[root].active) in db.presence && Presence(f, generation) !in db.presence
    && (f in db.prefs || exists o :: o in db.overrides && o.folder == f)
  }

  ghost predicate FromFolder(db: Db, root: nat, generation: nat, tab: Tab) {
    exists f :: Leaves(db, root, generation, f)
      && tab.publicId == "converted-folder-" + Decimal(f) + "-" + Decimal(generation) && tab.name == NameOf(db, f)
  }

  lemma LeavesIs(db: Db, reconciled: Db, path: string, root: nat, generation: nat, f: nat)
    requires root in db.roots && Reconcile(db, path, generation) == Success(reconciled)
    ensures f in Disappearing(reconciled, root, db.roots[root].active, generation) <==> Leaves(db, root, generation, f)
    ensures Leaves(db, root, generation, f) ==> f in reconciled.folders && NameOf(reconciled, f) == NameOf(db, f)
  {
    hide Reconcile, Customised;
    ReconcileSucceeds(db, path, generation);
    ReconcileTree(db, path, generation);
    if f in db.folders && Presence(f, generation) !in db.presence {
      ReconcileLeavesAbsent(db, path, generation, f);
      CustomisedIs(db, f);
      SameCustomised(db, reconciled, f);
      SameCustomised(reconciled, db, f);
    }
  }

  lemma ReconciledTab(db: Db, path: string, generation: nat, t: nat)
    requires Ok(db) && t in ReconcileTabs(db, path, generation)
    ensures (t in db.tabs && ReconcileTabs(db, path, generation)[t] == db.tabs[t])
         || FromLegacy(db, path, generation, ReconcileTabs(db, path, generation)[t])
  {
    hide Ok, Absent, Target, FolderThere;
    if t !in db.tabs {
      AbsentRows(db, path, generation);
      var rows := Absent(db, path, generation);
      var l := rows[t - NextId(db.tabs.Keys)];
      assert l in Elements(rows);
      TargetIs(db, path, generation, l);
    }
  }

  lemma ConvertedTabIs(db: Db, root: nat, active: nat, generation: nat, t: nat)
    requires t in ConvertedTabs(db, root, active, generation)
    ensures var f := SourceOf(db, root, active, generation, t);
            var tab := ConvertedTabs(db, root, active, generation)[t];
      && f in Disappearing(db, root, active, generation) && tab.name == NameOf(db, f)
      && tab.publicId == "converted-folder-" + Decimal(f) + "-" + Decimal(generation)
  {
    hide Disappearing, Converted;
    ConvertedRows(db, root, active, generation);
    var rows := Converted(db, root, active, generation);
    assert rows[t - NextId(db.tabs.Keys)] in Elements(rows);
  }

  /**
   Where every manual tab after a finish comes from: it was there before, unchanged; or it stands for a
   legacy tab of the root whose folder is gone; or for a customised folder that is.
   */
  lemma TabAfterFinish(db: Db, path: string, generation: nat, t: nat)
    requires Ok(db) && Verified(db, path, generation) && FinishScan(db, path, generation).Success?
    requires t in FinishScan(db, path, generation).value.tabs
    ensures RootAt(db.roots, path).Some?
    ensures var tab := FinishScan(db, path, generation).value.tabs[t];
      || (t in db.tabs && tab == db.tabs[t])
      || FromLegacy(db, path, generation, tab)
      || FromFolder(db, RootAt(db.roots, path).value, generation, tab)
  {
    hide Ok, FinishScan, Reconcile, Activate, Convert, ConvertedTabs, ReconcileTabs, FromLegacy, FromFolder, RootAt,
         Disappearing, Decimal, Demote;
    var next := FinishScan(db, path, generation).value;
    var root, reconciled, converted := FinishStages(db, path, generation);
    var active := db.roots[root].active;
    FinishTabs(db, path, generation, root, reconciled, converted, next);
    ReconciledTabsAre(db, path, generation);
    ConvertedTabsAre(reconciled, root, active, generation);
    if t in ConvertedTabs(reconciled, root, active, generation) {
      ConvertedOrigin(db, reconciled, path, root, generation, t);
    } else {
      ReconciledTab(db, path, generation, t);
    }
  }

  lemma FromFolderBy(db: Db, root: nat, generation: nat, f: nat, tab: Tab)
    requires Leaves(db, root, generation, f) && tab.name == NameOf(db, f)
    requires tab.publicId == "converted-folder-" + Decimal(f) + "-" + Decimal(generation)
    ensures FromFolder(db, root, generation, tab)
  {
    hide Decimal;
  }

  lemma ConvertedOrigin(db: Db, reconciled: Db, path: string, root: nat, generation: nat, t: nat)
    requires root in db.roots && Reconcile(db, path, generation) == Success(reconciled)
    requires t in ConvertedTabs(reconciled, root, db.roots[root].active, generation)
    ensures FromFolder(db, root, generation, ConvertedTabs(reconciled, root, db.roots[root].active, generation)[t])
  {
    hide Reconcile, Disappearing, Converted, ConvertedTabAt, FromFolder, Leaves, Decimal;
    var active := db.roots[root].active;
    ConvertedTabIs(reconciled, root, active, generation, t);
    var f := SourceOf(reconciled, root, active, generation, t);
    LeavesIs(db, reconciled, path, root, generation, f);
    FromFolderBy(db, root, generation, f, ConvertedTabs(reconciled, root, active, generation)[t]);
  }

  lemma ConvertedTabsAre(db: Db, root: nat, active: nat, generation: nat)
    requires Convert(db, root, active, generation).Success?
    ensures Convert(db, root, active, generation).value.tabs == db.tabs + ConvertedTabs(db, root, active, generation)
  {}

  lemma ReconciledTabsAre(db: Db, path: string, generation: nat)
    requires Reconcile(db, path, generation).Success?
    ensures Reconcile(db, path, generation).value.tabs == ReconcileTabs(db, path, generation)
  {}

  /**
   A customised folder that is gone leaves a new manual tab: by its own name, after every tab there was,
   with exactly the sounds the folder showed.
   */
  lemma FolderLeavesTab(db: Db, path: string, generation: nat, f: nat) returns (made: nat)
    requires Ok(db) && Verified(db, path, generation) && FinishScan(db, path, generation).Success?
    requires RootAt(db.roots, path).Some? && Leaves(db, RootAt(db.roots, path).value, generation, f)
    ensures var next := FinishScan(db, path, generation).value;
            var root := RootAt(db.roots, path).value;
      && made in next.tabs && made !in db.tabs && next.tabs[made].name == NameOf(db, f)
      && next.tabs[made].publicId == "converted-folder-" + Decimal(f) + "-" + Decimal(generation)
      && (forall t :: t in db.tabs ==> db.tabs[t].position < next.tabs[made].position)
      && (forall s :: Member(made, s) in next.memberships <==> s in Effective(db, f, db.roots[root].active))
  {
    hide Ok, FinishScan, Reconcile, Activate, Leaves, Effective, Convert, RootAt, ConvertedId, Decimal, Disappearing,
         ConvertedTabs, FolderKeys;
    var next := FinishScan(db, path, generation).value;
    var root, reconciled, converted := FinishStages(db, path, generation);
    var active := db.roots[root].active;
    LeavesIs(db, reconciled, path, root, generation, f);
    FinishTabs(db, path, generation, root, reconciled, converted, next);
    ConvertedTabPlace(reconciled, root, active, generation, f);
    made := ConvertedFrom(reconciled, root, active, generation, f);
    ConvertedTabIs(reconciled, root, active, generation, made);
    ConvertedIn(reconciled, root, active, generation, made);
    ConvertKeeps(reconciled, root, active, generation);
    ConvertedLookup(converted, made, ConvertedId(f, generation));
    ReconciledTabsAre(db, path, generation);
    ReconcileTabsGrow(db, path, generation);
    FolderGone(db, reconciled, path, root, generation, f);
    forall s ensures Member(made, s) in next.memberships <==> s in Effective(db, f, active) {
      TabsOf(reconciled);
      ConvertedMembers(reconciled, root, active, generation, made, s);
      ShownRows(db, reconciled, f, active, s);
    }
  }

  lemma ConvertedIn(db: Db, root: nat, active: nat, generation: nat, t: nat)
    requires Convert(db, root, active, generation).Success? && t in ConvertedTabs(db, root, active, generation)
    ensures var next := Convert(db, root, active, generation).value;
      t in next.tabs && next.tabs[t] == ConvertedTabs(db, root, active, generation)[t] && t !in db.tabs
  {
    hide ConvertedMemberships, Converted, ConvertedTabAt, ConversionTaken;
  }

  lemma ReconcileTabsGrow(db: Db, path: string, generation: nat)
    ensures forall t :: t in db.tabs ==>
      t in ReconcileTabs(db, path, generation) && ReconcileTabs(db, path, generation)[t] == db.tabs[t]
  {
    hide Absent, AbsentTabAt;
  }

  lemma TabsOf(db: Db)
    requires Ok(db)
    ensures TabsOk(db.tabs, db.memberships, db.sounds)
  {
    hide TreeState, RootsOk, SoundsOk, LocationsOk, LegacyOk, CustomOk, OwnersOk, TabsOk;
  }

  lemma FolderGone(db: Db, reconciled: Db, path: string, root: nat, generation: nat, f: nat)
    requires Ok(db) && Leaves(db, root, generation, f) && Reconcile(db, path, generation) == Success(reconciled)
    ensures Effective(reconciled, f, db.roots[root].active) == Effective(db, f, db.roots[root].active)
    ensures reconciled.sounds == db.sounds
    ensures forall s :: s in Effective(db, f, db.roots[root].active) ==> s in db.sounds
  {
    hide Ok, Reconcile, Effective;
    ReconcileLeavesAbsent(db, path, generation, f);
    ReconcileKeeps(db, path, generation);
    SameEffective(db, reconciled, f, db.roots[root].active);
    FolderSoundsOf(db, f, db.roots[root].active);
  }

  lemma FolderSoundsOf(db: Db, f: nat, active: nat)
    requires Ok(db)
    ensures forall s :: s in Effective(db, f, active) ==> s in db.sounds
  {
    hide TreeState, RootsOk, SoundsOk, TabsOk, LegacyOk, OwnersOk;
    EffectiveSounds(db, f, active);
  }

  lemma ShownRows(db: Db, reconciled: Db, f: nat, active: nat, s: nat)
    requires reconciled.sounds == db.sounds && Effective(reconciled, f, active) == Effective(db, f, active)
    requires s in Effective(db, f, active) ==> s in db.sounds
    ensures s in FolderKeys(reconciled, f, active, EVERYTHING) <==> s in Effective(db, f, active)
  {
    hide Effective;
  }

  // ---- when a finish is refused ---------------------------------------------------------------------------

  /** A legacy tab of the root whose folder the new generation lacks. */
  ghost predicate Homeless(db: Db, path: string, generation: nat, l: nat) {
    && l in db.legacyTabs && db.legacyTabs[l].rootPath == path
    && !FolderThere(db, path, db.legacyTabs[l].path, generation)
  }

  /** Some manual tab has this id. */
  ghost predicate Held(tabs: map<nat, Tab>, publicId: string) {
    exists t :: t in tabs && tabs[t].publicId == publicId
  }

  lemma HeldIs(tabs: map<nat, Tab>, publicId: string)
    ensures TabNamed(tabs, publicId).Some? <==> Held(tabs, publicId)
  {
    if t :| t in tabs && tabs[t].publicId == publicId { assert t in TabIds(tabs, publicId); }
  }

  lemma HomelessIs(db: Db, path: string, generation: nat, l: nat)
    requires Ok(db)
    ensures l in AbsentKeys(db, path, generation) <==> Homeless(db, path, generation, l)
  {
    hide Ok, Target, FolderThere;
    if l in db.legacyTabs && db.legacyTabs[l].rootPath == path { TargetIs(db, path, generation, l); }
  }

  lemma LeavesNow(db: Db, root: nat, generation: nat, f: nat)
    requires root in db.roots
    ensures f in Disappearing(db, root, db.roots[root].active, generation) <==> Leaves(db, root, generation, f)
  {
    hide Customised;
    CustomisedIs(db, f);
  }

  /** The id of the tab a folder leaves is held by a manual tab or wanted for a homeless legacy tab. */
  ghost predicate Contended(db: Db, path: string, generation: nat, publicId: string) {
    Held(db.tabs, publicId)
    || exists l :: Homeless(db, path, generation, l) && db.legacyTabs[l].publicId == publicId
  }

  /**
   Exactly when a verified finish is refused, read off the tables before it: a manual tab has the id of a
   legacy tab whose folder is gone, or the id that the tab of a customised folder that is gone will get
   is held or wanted already.
   */
  lemma FinishRefusedExactly(db: Db, path: string, generation: nat)
    requires Ok(db) && Verified(db, path, generation)
    ensures FinishScan(db, path, generation).Failure? <==>
      || (exists l :: Homeless(db, path, generation, l) && Held(db.tabs, db.legacyTabs[l].publicId))
      || (exists root, f :: root in db.roots && db.roots[root].path == path && Leaves(db, root, generation, f)
            && Contended(db, path, generation, "converted-folder-" + Decimal(f) + "-" + Decimal(generation)))
  {
    hide Ok, Homeless, Held, Leaves, Decimal, ConvertedId, AbsentKeys, Disappearing, TabNamed, FinishScan, RootAt;
    FinishFailsExactly(db, path, generation);
    var root := RootAt(db.roots, path).value;
    SoleRoot(db, path, root);
    forall l ensures l in AbsentKeys(db, path, generation) <==> Homeless(db, path, generation, l) {
      HomelessIs(db, path, generation, l);
    }
    forall l ensures Homeless(db, path, generation, l) ==> l in db.legacyTabs {
      HomelessThere(db, path, generation, l);
    }
    forall id ensures TabNamed(db.tabs, id).Some? <==> Held(db.tabs, id) { HeldIs(db.tabs, id); }
    forall f
      ensures f in Disappearing(db, root, db.roots[root].active, generation) <==> Leaves(db, root, generation, f)
      ensures ConvertedId(f, generation) == "converted-folder-" + Decimal(f) + "-" + Decimal(generation)
    {
      LeavesNow(db, root, generation, f);
      ConvertedIdIs(f, generation);
    }
  }

  lemma HomelessThere(db: Db, path: string, generation: nat, l: nat)
    ensures Homeless(db, path, generation, l) ==> l in db.legacyTabs
  {}

  lemma SoleRoot(db: Db, path: string, root: nat)
    requires Ok(db) && RootAt(db.roots, path) == Some(root)
    ensures root in db.roots && db.roots[root].path == path
    ensures forall r :: r in db.roots && db.roots[r].path == path ==> r == root
  {
    hide TreeState, SoundsOk, LocationsOk, TabsOk, LegacyOk, CustomOk, OwnersOk;
  }

  // ---- legacy rows and positions -----------------------------------------------------------------------------

  /** A finish takes the root's own legacy tabs and their members, and leaves those of other roots. */
  lemma LegacyAfterFinish(db: Db, path: string, generation: nat)
    requires Ok(db) && Verified(db, path, generation) && FinishScan(db, path, generation).Success?
    ensures var next := FinishScan(db, path, generation).value;
      && (forall l :: l in next.legacyTabs <==> l in db.legacyTabs && db.legacyTabs[l].rootPath != path)
      && (forall l :: l in next.legacyTabs ==> next.legacyTabs[l] == db.legacyTabs[l])
      && (forall m :: m in next.legacyMemberships <==>
            m in db.legacyMemberships && m.tab in db.legacyTabs && db.legacyTabs[m.tab].rootPath != path)
      && (forall m :: m in next.legacyMemberships ==> next.legacyMemberships[m] == db.legacyMemberships[m])
  {
    hide TreeState, RootsOk, SoundsOk, LocationsOk, TabsOk, CustomOk, OwnersOk, FinishScan, Convert, Activate, Demote,
         ReconcilePrefs, ReconcileOverrides, ReconcileTabs, ReconcileMemberships, AbsentTaken;
    var next := FinishScan(db, path, generation).value;
    var root, reconciled, converted := FinishStages(db, path, generation);
    ActivateLegacy(converted, root, generation);
  }

  lemma ActivateLegacy(db: Db, root: nat, generation: nat)
    requires root in db.roots
    ensures var next := Demote(Activate(db, root, generation));
      next.legacyTabs == db.legacyTabs && next.legacyMemberships == db.legacyMemberships
  {}

  /** The position after the last tab, or 0 when there is none. */
  lemma NextPositionExactly(tabs: map<nat, Tab>)
    ensures tabs == map[] ==> NextPosition(tabs) == 0
    ensures tabs != map[] ==>
      && (exists t :: t in tabs && tabs[t].position + 1 == NextPosition(tabs))
      && (forall t :: t in tabs ==> tabs[t].position < NextPosition(tabs))
  {}

  /** The tabs of folders that leave at one finish stand in the order of the folders' row ids, without a gap. */
  lemma ConvertedInOrder(db: Db, root: nat, active: nat, generation: nat, a: nat, b: nat)
    requires a in ConvertedTabs(db, root, active, generation) && b in ConvertedTabs(db, root, active, generation)
    ensures var tabs := ConvertedTabs(db, root, active, generation);
      && tabs[b].position - tabs[a].position == b - a
      && (SourceOf(db, root, active, generation, a) < SourceOf(db, root, active, generation, b) <==> a < b)
      && (a == NextId(db.tabs.Keys) ==> tabs[a].position == NextPosition(db.tabs))
  {
    hide Disappearing, NextPosition, Converted, ConvertedId, Ascending;
    RowsById(db, root, active, generation);
  }

  lemma RowsById(db: Db, root: nat, active: nat, generation: nat)
    ensures var rows := Converted(db, root, active, generation);
      forall i, j :: 0 <= i < |rows| && 0 <= j < |rows| ==> (rows[i] < rows[j] <==> i < j)
  {
    hide Disappearing, Ascending;
    ConvertedRows(db, root, active, generation);
    KeysById(db, root, active, generation);
    OrderedById(Converted(db, root, active, generation), Disappearing(db, root, active, generation));
  }

  /** Rows sorted by their ids alone. */
  lemma OrderedById(rows: seq<nat>, keys: map<nat, Key>)
    requires Elements(rows) == keys.Keys && Ascending(rows, keys)
    requires forall f :: f in keys ==> keys[f] == Key(0, Id(f))
    ensures forall i, j :: 0 <= i < |rows| && 0 <= j < |rows| ==> (rows[i] < rows[j] <==> i < j)
  {
    forall i, j | 0 <= i < |rows| && 0 <= j < |rows| ensures rows[i] < rows[j] <==> i < j {
      assert rows[i] in Elements(rows) && rows[j] in Elements(rows);
      if i < j { assert Less(keys[rows[i]], keys[rows[j]]); }
      if j < i { assert Less(keys[rows[j]], keys[rows[i]]); }
    }
  }

  lemma KeysById(db: Db, root: nat, active: nat, generation: nat)
    ensures var keys := Disappearing(db, root, active, generation);
      forall f :: f in keys ==> keys[f] == Key(0, Id(f))
  {
    hide Customised;
  }

  /** The tabs made for legacy tabs without a folder get their row ids in the order of the legacy ones. */
  lemma AbsentInOrder(db: Db, path: string, generation: nat, a: nat, b: nat) returns (k: nat, l: nat)
    requires a in ReconcileTabs(db, path, generation) && b in ReconcileTabs(db, path, generation)
    requires a !in db.tabs && b !in db.tabs
    ensures var tabs := ReconcileTabs(db, path, generation);
      && k in db.legacyTabs && db.legacyTabs[k].publicId == tabs[a].publicId && db.legacyTabs[k].rootPath == path
      && l in db.legacyTabs && db.legacyTabs[l].publicId == tabs[b].publicId && db.legacyTabs[l].rootPath == path
      && (k < l <==> a < b)
  {
    hide Target, Absent, Ascending;
    AbsentRows(db, path, generation);
    AbsentById(db, path, generation);
    var rows := Absent(db, path, generation);
    k, l := rows[a - NextId(db.tabs.Keys)], rows[b - NextId(db.tabs.Keys)];
  }

  lemma AbsentById(db: Db, path: string, generation: nat)
    ensures var rows := Absent(db, path, generation);
      forall i, j :: 0 <= i < |rows| && 0 <= j < |rows| ==> (rows[i] < rows[j] <==> i < j)
  {
    hide Target, Ascending;
    AbsentRows(db, path, generation);
    OrderedById(Absent(db, path, generation), AbsentKeys(db, path, generation));
  }
}
