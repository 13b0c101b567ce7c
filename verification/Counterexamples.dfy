/**
 Small libraries on which properties one might expect fail. Each one is an instance of a theorem
 that says exactly when the property holds.
 */
module Counterexamples {
  import opened Wrappers
  import opened Ordering
  import opened Tables
  import opened FolderScan
  import opened RootScan
  import opened Cascade
  import opened Staging
  import opened ScanBatch
  import opened ScanVisit
  import opened Standalone
  import opened Legacy
  import opened Conversion
  import opened Finish
  import opened FinishEffects
  import opened ScanFiles
  import opened Labels
  import opened ScanRuns
  import Refresh

  // ---- a batch renames a folder on show, and its cancel does not rename it back ------------------------

  const RENAME: seq<FolderRow> := [FolderRow("/music", ["a"], "renamed", 5)]

  lemma RenamedAndCancelled()
    ensures var end := Run(OneFolder(), [Batch("/music", 2, RENAME, []), Cancel("/music", 2)]);
      && OnShow(OneFolder(), 1) && OneFolder().folders[1] == Folder(1, None, ["a"], "a", 0)
      && 1 in end.folders && end.folders[1].name == "renamed" && end.folders[1].position == 5
  {
    hide Ok, ApplyBatch, CancelScan, RootAt, LabelKept, SameLabels;
    var db := OneFolder();
    OneFolderOk();
    OneFolderRoots();
    RenameApplies(db);
    var next := ApplyBatch(db, "/music", 2, RENAME, []).value;
    BatchLabelsExactly(db, "/music", 2, RENAME, []);
    assert LastRow(RENAME, 1, ["a"]) == Some(RENAME[0]);
    assert Verified(next, "/music", 2) by { ApplyBatchStages(db, "/music", 2, RENAME, []); }
    TwoSteps(db, Batch("/music", 2, RENAME, []), Cancel("/music", 2));
  }

  lemma RenameApplies(db: Db)
    requires Verified(db, "/music", 2) && RootAt(db.roots, "/music").Some?
    ensures ApplyBatch(db, "/music", 2, RENAME, []).Success?
  {
    hide EnsureFolder, RootAt;
    var root := RootAt(db.roots, "/music").value;
    assert PutFolders(db, root, "/music", 2, RENAME, 0) == Success(db);
  }

  lemma TwoSteps(db: Db, first: Staging, second: Staging)
    ensures Run(db, [first, second]) == Perform(Perform(db, first), second)
  {
    hide Perform;
    assert [first, second][1..] == [second];
    assert Run(Perform(db, first), [second]) == Run(Perform(Perform(db, first), second), []);
  }

  // ---- a begin brings a removed root back, and its cancel does not remove it again ---------------------

  /** In any library: a root is removed, a refresh that had listed it before begins its scan and cancels it. */
  lemma RemovedRootReturns(db: Db, path: string, position: int)
    requires Ok(db)
    ensures RootRow(RemoveRoot(db, path).roots, path) == None
    ensures var end := Run(RemoveRoot(db, path), [Begin(path, position), Cancel(path, 1)]);
      path !in end.scans && RootRow(end.roots, path) == Some(Root(path, position, 0))
  {
    hide Ok, RemoveRoot, BeginScan, CancelScan, RootAt;
    var removed := RemoveRoot(db, path);
    RemoveRootExact(db, path);
    BeginAnew(removed, path, position);
    BeginScanFresh(removed, path, position);
    BeginPositionExactly(removed, path, position);
    TwoSteps(removed, Begin(path, position), Cancel(path, 1));
    Refresh.CancelEnds(BeginScan(removed, path, position).0, path, 1);
  }

  // ---- a batch hides a live standalone sound -------------------------------------------------------------

  /** The library of one folder, with a sound of its own beside it. */
  function WithStandalone(): Db {
    OneFolder().(sounds := OneFolder().sounds[2 := Sound("t", "t", "/music/t.ogg", 1, PLAIN, true)])
  }

  const SCANNED: seq<SoundRow> := [SoundRow("t", "t", "/music/t.ogg", 0, PLAIN, [LocationRow("/music", None, "t.ogg")])]

  lemma WithStandaloneOk()
    ensures Ok(WithStandalone()) && Verified(WithStandalone(), "/music", 2)
    ensures Live(WithStandalone(), 2) && !LiveByRows(WithStandalone(), 2)
  {
    hide Ok, HiddenFolder;
    OneFolderOk();
    assert SoundsOk(WithStandalone().sounds);
    MoreSounds(OneFolder(), WithStandalone().sounds);
  }

  lemma ScannedApplies()
    ensures ApplyBatch(WithStandalone(), "/music", 2, [], SCANNED).Success?
  {
    hide Ok, ApplyBatch;
    var db := WithStandalone();
    WithStandaloneOk();
    BatchFails(db, "/music", 2, [], SCANNED);
    assert 2 in SoundIdsAt(db.sounds, SCANNED[0].path);
    assert !Inserts(db.sounds, SCANNED, 0);
  }

  /** The sound is live; scanning it and cancelling the scan leaves it hidden. */
  lemma HiddenAndCancelled()
    ensures ApplyBatch(WithStandalone(), "/music", 2, [], SCANNED).Success?
    ensures var next := ApplyBatch(WithStandalone(), "/music", 2, [], SCANNED).value;
      Live(WithStandalone(), 2) && !Live(next, 2) && !Live(CancelScan(next, "/music", 2), 2)
  {
    hide Ok, ApplyBatch, CancelScan, Live, LiveByRows;
    WithStandaloneOk();
    ScannedApplies();
    assert SCANNED[0].path == WithStandalone().sounds[2].path;
    BatchHidesExactly(WithStandalone(), "/music", 2, [], SCANNED, 2);
  }

  // ---- a refresh that was cancelled completes, and empties a root ---------------------------------------

  /**
   A refresh of one root whose walk yields one file, cancelled just as that file is being probed. The
   visit ends unnoticed with nothing pushed, and the finish leaves the root without any location.
   */
  lemma CancelledRefreshErases(db: Db, path: string, position: int, file: File)
    requires Ok(db)
    ensures VisitAll([Some(file)], 2).noticed == false && VisitAll([Some(file)], 2).pushed == 0
    ensures Audio([Some(file)], 1) == [file]
    ensures var (begun, generation) := BeginScan(db, path, position);
      && RootAt(begun.roots, path).Some?
      && (FinishScan(begun, path, generation).Success? ==>
            forall k :: k in FinishScan(begun, path, generation).value.locations ==>
              k.root != RootAt(begun.roots, path).value)
  {
    hide Ok, BeginScan, FinishScan, RootAt, Audio, VisitAll;
    UnnoticedCancel(file);
    var (begun, generation) := BeginScan(db, path, position);
    BeginScanFresh(db, path, position);
    if FinishScan(begun, path, generation).Success? {
      FinishRows(begun, path, generation);
    }
  }

  // ---- a verified finish fails -----------------------------------------------------------------------------

  /** As an upgrade leaves a library whose one legacy tab has lost its folder. */
  function LostFolder(): Db {
    Db(map[1 := Root("/music", 0, 0)], map["/music" := 1], map[], {}, map[], map[], map[],
       map[1 := Tab("t", "Gone", 0)], map[], map[], map[], map[1 := LegacyTab("t", "/music", ["gone"], "Gone", 0)],
         map[],
       map[])
  }

  lemma FinishRefused()
    ensures Ok(LostFolder()) && Verified(LostFolder(), "/music", 1)
    ensures FinishScan(LostFolder(), "/music", 1).Failure?
  {
    hide FinishScan, ConvertedTaken;
    var db := LostFolder();
    assert 1 in RootIds(db.roots, "/music");
    assert forall path :: path in db.scans ==> path == "/music";
    assert Ok(db);
    assert Target(db, "/music", 1, 1).None?;
    assert 1 in AbsentKeys(db, "/music", 1);
    assert 1 in TabIds(db.tabs, "t");
    FinishFailsExactly(db, "/music", 1);
  }

  // ---- an earlier override wins over the legacy tab -----------------------------------------------------------

  /** A folder scanned anew, the legacy tab it takes over, and an override that excludes the tab's one sound. */
  function Overruled(): Db {
    Db(map[1 := Root("/music", 0, 1)], map["/music" := 2], map[1 := Folder(1, None, ["a"], "a", 0)],
       {Presence(1, 1), Presence(1, 2)}, map[Link(1, 1) := 0],
       map[1 := Sound("s", "s", "/music/a/s.ogg", 0, PLAIN, false)],
       map[LocationKey(1, 1, 2) := Location(Some(1), "a/s.ogg")], map[], map[], map[], map[Override(1, 1) := Exclude],
       map[1 := LegacyTab("t", "/music", ["a"], "A", 0)], map[Member(1, 1) := 0], map[])
  }

  lemma OverruledTree()
    ensures TreeState(Overruled())
  {
    var db := Overruled();
    assert ParentOk(db.folders, 1);
    assert ParentPresent(db.folders, db.presence, Presence(1, 1))
      && ParentPresent(db.folders, db.presence, Presence(1, 2));
  }

  lemma OverruledRoots()
    ensures RootAt(Overruled().roots, "/music") == Some(1)
  {
    assert 1 in RootIds(Overruled().roots, "/music");
  }

  lemma OverruledOk()
    ensures Ok(Overruled()) && Verified(Overruled(), "/music", 2) && StagedPresent(Overruled())
    ensures RootAt(Overruled().roots, "/music") == Some(1)
  {
    hide TreeState, RootAt, LocationsOk, StagedPresent, SoundsOk, TabsOk, LegacyOk, CustomOk, OwnersOk;
    OverruledTree();
    OverruledRoots();
    OverruledRows();
    OverruledCustom();
    assert forall path :: path in Overruled().scans ==> path == "/music";
  }

  lemma OverruledRows()
    ensures var db := Overruled();
      StagedPresent(db) && SoundsOk(db.sounds) && LocationsOk(db.locations, db.sounds, db.roots, db.folders)
  {}

  lemma OverruledCustom()
    ensures var db := Overruled();
      && TabsOk(db.tabs, db.memberships, db.sounds) && LegacyOk(db.legacyTabs, db.legacyMemberships, db.sounds)
      && CustomOk(db.prefs, db.overrides, db.folders, db.sounds) && OwnersOk(db.bindings, db.sounds)
  {}

  lemma OverruledTabs()
    ensures TabsFor(Overruled(), "/music", 2, 1) == {1} && 1 in Targets(Overruled(), "/music", 2)
    ensures !AbsentTaken(Overruled(), "/music", 2)
  {
    var db := Overruled();
    hide RootAt;
    OverruledOk();
    assert 1 in FolderIds(db.folders, 1, ["a"]);
    assert Target(db, "/music", 2, 1) == Some(1);
  }

  lemma OverruledFinishes()
    ensures FinishScan(Overruled(), "/music", 2).Success?
  {
    hide Ok, FinishScan, RootAt, AbsentTaken;
    OverruledOk();
    OverruledTabs();
    FinishFailsExactly(Overruled(), "/music", 2);
    assert Disappearing(Overruled(), 1, 1, 2) == map[];
  }

  /** The tab has the sound, the folder has it too, and after the finish the folder does not show it. */
  lemma OverrideWins(db: Db, next: Db)
    requires db == Overruled() && FinishScan(db, "/music", 2) == Success(next)
    ensures MembersOf(db, 1) == {1} && 1 in Physical(db, 1, 2)
    ensures Effective(next, 1, 2) != MembersOf(db, 1)
  {
    hide Ok, FinishScan, Effective, RootAt, Targets, TabsFor;
    OverruledOk();
    OverruledTabs();
    assert Member(1, 1) in db.legacyMemberships && Member(1, 1).tab == 1;
    assert LocationKey(1, 1, 2) in db.locations && Link(1, 1) in db.closure;
    assert Wanted(db, "/music", 2, 1, 1) by { SoleTab(db, "/music", 2, 1, 1, 1); }
    assert !OverridesAgree(db, "/music", 2, 1);
    FinishPreservesMembership(db, "/music", 2, 1);
  }
}
