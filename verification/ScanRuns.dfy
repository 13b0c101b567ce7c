/**
 Every database the scan interface can reach: any interleaving of begins, batches, cancels,
 finishes and root removals, for any roots, with stale generations and malformed batches allowed.
 */
module ScanRuns {
  import opened Wrappers
  import opened Ordering
  import opened Tables
  import opened FolderScan
  import opened RootScan
  import opened Cascade
  import opened Staging
  import opened Finish
  import Refresh

  datatype Call = Stage(step: Staging) | End(path: string, generation: nat) | Remove(path: string)

  /** A refused call changes nothing. */
  function After(db: Db, call: Call): Db {
    match call
    case Stage(step) => Perform(db, step)
    case End(path, generation) =>
      if !Verified(db, path, generation) then db
      else (match FinishScan(db, path, generation) case Success(next) => next case Failure(_) => db)
    case Remove(path) => RemoveRoot(db, path)
  }

  function AfterAll(db: Db, calls: seq<Call>): Db
    decreases |calls|
  {
    if calls == [] then db else AfterAll(After(db, calls[0]), calls[1..])
  }

  const EMPTY: Db := Db(map[], map[], map[], {}, map[], map[], map[], map[], map[], map[], map[], map[], map[], map[])

  lemma AfterKeeps(db: Db, call: Call)
    requires Ok(db)
    ensures Ok(After(db, call))
  {
    hide Ok, Perform, FinishScan, RemoveRoot, SameView;
    match call {
      case Stage(step) => PerformInvisible(db, step);
      case End(path, generation) =>
        if Verified(db, path, generation) && FinishScan(db, path, generation).Success? {
          FinishKeeps(db, path, generation);
        }
      case Remove(path) => RemoveRootExact(db, path);
    }
  }

  lemma {:induction false} RunKeeps(db: Db, calls: seq<Call>)
    requires Ok(db)
    ensures Ok(AfterAll(db, calls))
    decreases |calls|
  {
    hide Ok, After;
    if calls != [] {
      AfterKeeps(db, calls[0]);
      RunKeeps(After(db, calls[0]), calls[1..]);
    }
  }

  lemma EmptyOk()
    ensures Ok(EMPTY)
  {}

  /**
   The closure table is exact in every reachable state: it has a row for folders a and d at a
   depth exactly when following that many parent links from d leads to a. So inherited hiding is
   some hidden folder on the parent walk, and a folder present at a generation has its whole
   parent walk present there.
   */
  lemma ReachableClosure(calls: seq<Call>, a: nat, d: nat, depth: nat, generation: nat)
    ensures var db := AfterAll(EMPTY, calls);
      && (Link(a, d) in db.closure && db.closure[Link(a, d)] == depth <==> Climb(db.folders, d, depth) == Some(a))
      && (Presence(d, generation) in db.presence && Climb(db.folders, d, depth) == Some(a) ==>
            Presence(a, generation) in db.presence)
      && (HiddenFolder(db, d) <==> exists steps: nat, up: nat :: Climb(db.folders, d, steps) == Some(up)
                                     && up in db.prefs && db.prefs[up].hidden)
  {
    hide Ok, Climb;
    EmptyOk();
    RunKeeps(EMPTY, calls);
    var db := AfterAll(EMPTY, calls);
    OkClosure(db);
    ClosureIsParentWalk(db, a, d, depth);
    PresentAbove(db, d, depth, generation);
    HiddenIsWalk(db, d);
  }

  lemma OkClosure(db: Db)
    requires Ok(db)
    ensures TreeOk(db.folders) && ClosureExact(db.folders, db.closure) && PresenceOk(db.folders, db.presence)
  {
    hide TreeOk, ClosureExact, PresenceOk, RowsOk;
  }

  /** Presence is closed under the parent walk. */
  lemma {:induction false} PresentAbove(db: Db, d: nat, steps: nat, generation: nat)
    requires TreeOk(db.folders) && PresenceOk(db.folders, db.presence)
    ensures Presence(d, generation) in db.presence && Climb(db.folders, d, steps).Some? ==>
      Presence(Climb(db.folders, d, steps).value, generation) in db.presence
    decreases steps
  {
    if d in db.folders && steps > 0 && db.folders[d].parent.Some? && Presence(d, generation) in db.presence {
      assert ParentPresent(db.folders, db.presence, Presence(d, generation));
      PresentAbove(db, db.folders[d].parent.value, steps - 1, generation);
    }
  }

  lemma HiddenIsWalk(db: Db, d: nat)
    requires TreeOk(db.folders) && ClosureExact(db.folders, db.closure)
    ensures HiddenFolder(db, d) <==>
      exists steps: nat, up: nat :: Climb(db.folders, d, steps) == Some(up) && up in db.prefs && db.prefs[up].hidden
  {
    hide TreeOk, ClosureExact, Climb;
    forall a: nat, steps: nat ensures Link(a, d) in db.closure && db.closure[Link(a, d)] == steps <==>
      Climb(db.folders, d, steps) == Some(a) {
      ClosureIsParentWalk(db, a, d, steps);
    }
    if HiddenFolder(db, d) {
      var l :| l in db.closure && l.descendant == d && l.ancestor in db.prefs && db.prefs[l.ancestor].hidden;
      assert l == Link(l.ancestor, d);
      assert Climb(db.folders, d, db.closure[l]) == Some(l.ancestor);
    }
  }

  // ---- superseded scanners ---------------------------------------------------------------------------

  /** The call is not a begin, cancel or finish of this root's scan, nor its removal. */
  predicate Apart(call: Call, path: string) {
    match call
    case Stage(Begin(p, _)) => p != path
    case Stage(Batch(_, _, _, _)) => true
    case Stage(Cancel(p, _)) => p != path
    case End(p, _) => p != path
    case Remove(p) => p != path
  }

  /** A scan in progress whose generation was the next one when it was handed out. */
  ghost predicate Tracked(db: Db, path: string, root: nat, generation: nat) {
    && RootAt(db.roots, path) == Some(root) && Verified(db, path, generation)
    && 1 <= generation && generation - 1 in Generations(db, root)
    && (forall g :: g in Generations(db, root) ==> g <= generation)
  }

  lemma BeginTracks(db: Db, path: string, position: int)
    requires Ok(db)
    ensures var (begun, generation) := BeginScan(db, path, position);
      && Ok(begun) && RootAt(begun.roots, path).Some?
      && Tracked(begun, path, RootAt(begun.roots, path).value, generation)
  {
    hide Ok, BeginScan, Generations;
    BeginScanFresh(db, path, position);
    FreshGeneration(db, path, position);
  }

  /** The other rows of the root decide: another begin hands the generation out again unless it has a row. */
  lemma TrackedAgain(db: Db, path: string, root: nat, generation: nat, again: int)
    requires Ok(db) && Tracked(db, path, root, generation)
    ensures Verified(BeginScan(db, path, again).0, path, generation) <==> !HasRows(db, root, generation)
  {
    hide Ok, HasRows, BeginScan, Generations, RootAt;
    BeginAgain(db, path, root, again);
    GenerationsMember(db, root, generation);
    ActiveBelow(db, path, root, generation);
    if HasRows(db, root, generation) {
      NextIdIs(Generations(db, root), generation);
    } else {
      NextIdIs(Generations(db, root), generation - 1);
    }
  }

  lemma ActiveBelow(db: Db, path: string, root: nat, generation: nat)
    requires Ok(db) && RootAt(db.roots, path) == Some(root) && Verified(db, path, generation)
    ensures root in db.roots && db.roots[root].active < generation
  {
    hide TreeState, SoundsOk, LocationsOk, TabsOk, LegacyOk, CustomOk, OwnersOk, RootAt;
  }

  /** Nothing of the root has changed but rows of this generation. */
  lemma TrackedBy(db: Db, next: Db, path: string, root: nat, generation: nat)
    requires Ok(db) && Tracked(db, path, root, generation)
    requires RootAt(next.roots, path) == Some(root) && Verified(next, path, generation)
    requires root in db.roots && next.roots[root].active == db.roots[root].active
    requires forall g :: g != generation ==> (HasRows(next, root, g) <==> HasRows(db, root, g))
    ensures Tracked(next, path, root, generation)
  {
    hide Ok, HasRows, Generations, RootAt;
    forall g: nat ensures g in Generations(next, root) ==> g <= generation
      ensures g == generation - 1 ==> g in Generations(next, root)
    {
      GenerationsMember(db, root, g);
      GenerationsMember(next, root, g);
    }
  }

  /** Rows of another root are staged: this root's rows stay as they are. */
  lemma OtherRows(db: Db, next: Db, other: nat, generation: nat, root: nat, g: nat)
    requires Ok(db) && Ok(next) && Stages(db, next, other, generation) && other != root
    ensures HasRows(next, root, g) <==> HasRows(db, root, g)
  {
    hide TreeOk, FolderRootsOk, ClosureExact, PresenceNew, RowsOk, StagesSounds;
    forall p: Presence | p.generation == g && p.folder in next.folders && next.folders[p.folder].root == root
      ensures p in next.presence <==> p in db.presence {}
    forall k: LocationKey | k.root == root && k.generation == g ensures k in next.locations <==> k in db.locations {}
  }

  lemma BatchTracks(db: Db, path: string, root: nat, generation: nat, p: string, g: nat,
                    folders: seq<FolderRow>, sounds: seq<SoundRow>)
    requires Ok(db) && Tracked(db, path, root, generation) && ApplyBatch(db, p, g, folders, sounds).Success?
    ensures Tracked(ApplyBatch(db, p, g, folders, sounds).value, path, root, generation)
  {
    hide Ok, Generations, HasRows, RootAt, StagesTree, StagesPresence, StagesSounds, StagesLocations, PutFolders,
         PutSounds;
    var next := ApplyBatch(db, p, g, folders, sounds).value;
    ApplyBatchStages(db, p, g, folders, sounds);
    var other := RootAt(db.roots, p).value;
    ActiveBelow(db, path, root, generation);
    forall h | h != generation ensures HasRows(next, root, h) <==> HasRows(db, root, h) {
      if other == root { StagedRows(db, next, root, g, h); } else { OtherRows(db, next, other, g, root, h); }
    }
    TrackedBy(db, next, path, root, generation);
  }

  lemma CancelTracks(db: Db, path: string, root: nat, generation: nat, p: string, g: nat)
    requires Ok(db) && Tracked(db, path, root, generation) && p != path && Verified(db, p, g)
    ensures Tracked(CancelScan(db, p, g), path, root, generation)
  {
    hide TreeState, SoundsOk, LocationsOk, TabsOk, LegacyOk, CustomOk, OwnersOk, Generations, HasRows, RootAt,
         CancelScan,
         StagesTree, StagesPresence, StagesSounds, StagesLocations;
    var unlocked, next := db.(scans := db.scans - {p}), CancelScan(db, p, g);
    CancelStages(db, p, g);
    UnlockSameView(db, p);
    ActiveBelow(db, path, root, generation);
    forall h ensures HasRows(next, root, h) <==> HasRows(db, root, h) {
      OtherRows(unlocked, next, RootAt(db.roots, p).value, g, root, h);
      assert HasRows(unlocked, root, h) <==> HasRows(db, root, h) by { RowsIgnoreScans(db, unlocked.scans, root, h); }
    }
    TrackedBy(db, next, path, root, generation);
  }

  lemma RowsIgnoreScans(db: Db, scans: map<string, nat>, root: nat, g: nat)
    ensures HasRows(db.(scans := scans), root, g) <==> HasRows(db, root, g)
  {}

  lemma BeginKeepsTrack(db: Db, path: string, root: nat, generation: nat, p: string, position: int)
    requires Ok(db) && Tracked(db, path, root, generation) && p != path
    ensures Tracked(BeginScan(db, p, position).0, path, root, generation)
  {
    hide Ok, Generations, HasRows, RootAt, BeginScan;
    var next := BeginScan(db, p, position).0;
    ActiveBelow(db, path, root, generation);
    Refresh.BeginFrameRoots(db, p, position, path);
    Refresh.BeginTables(db, p, position);
    forall h ensures HasRows(next, root, h) <==> HasRows(db, root, h) {
      RowsIgnoreRoots(db, next.roots, root, h);
      RowsIgnoreScans(db.(roots := next.roots), next.scans, root, h);
    }
    TrackedBy(db, next, path, root, generation);
  }

  lemma FinishTracks(db: Db, path: string, root: nat, generation: nat, p: string, g: nat)
    requires Ok(db) && Tracked(db, path, root, generation) && p != path
    requires Verified(db, p, g) && FinishScan(db, p, g).Success?
    ensures Tracked(FinishScan(db, p, g).value, path, root, generation)
  {
    hide Ok, Generations, HasRows, RootAt, FinishScan;
    var next := FinishScan(db, p, g).value;
    ActiveBelow(db, path, root, generation);
    Refresh.FinishedRoots(db, p, g, path);
    Refresh.FinishScans(db, p, g);
    forall h ensures HasRows(next, root, h) <==> HasRows(db, root, h) { FinishOtherRows(db, p, g, root, h); }
    TrackedBy(db, next, path, root, generation);
  }

  lemma FinishOtherRows(db: Db, p: string, g: nat, root: nat, h: nat)
    requires Ok(db) && Verified(db, p, g) && FinishScan(db, p, g).Success? && RootAt(db.roots, p) != Some(root)
    ensures HasRows(FinishScan(db, p, g).value, root, h) <==> HasRows(db, root, h)
  {
    hide TreeOk, FolderRootsOk, ClosureExact, PresenceNew, RootsOk, SoundsOk, TabsOk, LegacyOk, CustomOk, OwnersOk,
         FinishScan, RootAt;
    FinishRows(db, p, g);
  }

  lemma RemoveTracks(db: Db, path: string, root: nat, generation: nat, p: string)
    requires Ok(db) && Tracked(db, path, root, generation) && p != path
    ensures Tracked(RemoveRoot(db, p), path, root, generation)
  {
    hide Ok, Generations, HasRows, RemoveRoot, RootAt;
    var next := RemoveRoot(db, p);
    ActiveBelow(db, path, root, generation);
    RemoveRootExact(db, p);
    RemoveRootCascades(db, p);
    assert root in next.roots && next.roots[root] == db.roots[root] by { SurvivingRoot(db, next, root); }
    assert RootAt(next.roots, path) == Some(root) by { RootStays(next, root); }
    forall h ensures HasRows(next, root, h) <==> HasRows(db, root, h) { RemoveOtherRows(db, p, root, h); }
    TrackedBy(db, next, path, root, generation);
  }

  lemma SurvivingRoot(db: Db, next: Db, root: nat)
    requires RowsSurvive(db, next) && root in next.roots
    ensures next.roots[root] == db.roots[root]
  {}

  lemma RootStays(db: Db, root: nat)
    requires Ok(db) && root in db.roots
    ensures RootAt(db.roots, db.roots[root].path) == Some(root)
  {
    hide TreeState, SoundsOk, LocationsOk, TabsOk, LegacyOk, CustomOk, OwnersOk, RootAt;
    RootAtFinds(db.roots, root);
  }

  lemma RemoveOtherRows(db: Db, p: string, root: nat, h: nat)
    requires Ok(db) && root in db.roots && db.roots[root].path != p
    ensures HasRows(RemoveRoot(db, p), root, h) <==> HasRows(db, root, h)
  {
    hide Ok, RemoveRoot, PrefsSurvive, OverridesSurvive, ClosureSurvives, MembersSurvive, BindingsSurvive;
    RemoveRootExact(db, p);
    RemoveRootCascades(db, p);
  }

  lemma AfterTracks(db: Db, call: Call, path: string, root: nat, generation: nat)
    requires Ok(db) && Tracked(db, path, root, generation) && Apart(call, path)
    ensures Ok(After(db, call)) && Tracked(After(db, call), path, root, generation)
  {
    hide Ok, Tracked, ApplyBatch, CancelScan, BeginScan, FinishScan, RemoveRoot;
    AfterKeeps(db, call);
    match call {
      case Stage(Begin(p, position)) => BeginKeepsTrack(db, path, root, generation, p, position);
      case Stage(Batch(p, g, folders, sounds)) =>
        if ApplyBatch(db, p, g, folders, sounds).Success? {
          BatchTracks(db, path, root, generation, p, g, folders, sounds);
        }
      case Stage(Cancel(p, g)) =>
        if Verified(db, p, g) { CancelTracks(db, path, root, generation, p, g); }
      case End(p, g) =>
        if Verified(db, p, g) && FinishScan(db, p, g).Success? { FinishTracks(db, path, root, generation, p, g); }
      case Remove(p) => RemoveTracks(db, path, root, generation, p);
    }
  }

  lemma {:induction false} RunTracks(db: Db, calls: seq<Call>, path: string, root: nat, generation: nat)
    requires Ok(db) && Tracked(db, path, root, generation) && forall i :: 0 <= i < |calls| ==> Apart(calls[i], path)
    ensures Ok(AfterAll(db, calls)) && Tracked(AfterAll(db, calls), path, root, generation)
    decreases |calls|
  {
    hide Ok, Tracked, After;
    if calls != [] {
      AfterTracks(db, calls[0], path, root, generation);
      RunTracks(After(db, calls[0]), calls[1..], path, root, generation);
    }
  }

  /** The generation follows the root's largest; a root that is gone starts at 1 again. */
  ghost predicate Follows(db: Db, path: string, generation: nat) {
    match RootAt(db.roots, path)
    case None => generation == 1
    case Some(root) =>
      && 1 <= generation && Used(db, root, generation - 1)
      && forall g: nat :: Used(db, root, g) ==> g <= generation - 1
  }

  /** The root's active generation, or that of one of its presence rows or locations. */
  ghost predicate Used(db: Db, root: nat, generation: nat)
    requires root in db.roots
  {
    generation == db.roots[root].active || HasRows(db, root, generation)
  }

  lemma NextIdExactly(keys: set<nat>, id: nat)
    requires keys != {}
    ensures id == NextId(keys) <==> 1 <= id && IsMax(id - 1, keys)
  {
    NextIdMember(keys);
  }

  /** Which generation a begin hands out, in any state. */
  lemma BeginFollows(db: Db, path: string, position: int, generation: nat)
    requires Ok(db)
    ensures Verified(BeginScan(db, path, position).0, path, generation) <==> Follows(db, path, generation)
  {
    hide Ok, Generations, BeginScan, RootAt, HasRows;
    if RootAt(db.roots, path).Some? {
      var root := RootAt(db.roots, path).value;
      BeginAgain(db, path, root, position);
      assert db.roots[root].active in Generations(db, root) by { GenerationsMember(db, root, db.roots[root].active); }
      NextIdExactly(Generations(db, root), generation);
      forall g: nat ensures g in Generations(db, root) <==> Used(db, root, g) { GenerationsMember(db, root, g); }
    } else {
      BeginAnew(db, path, position);
    }
  }

  /** A path that is no root becomes one without rows, and its scan is the first. */
  lemma BeginAnew(db: Db, path: string, position: int)
    requires Ok(db) && RootAt(db.roots, path).None?
    ensures BeginScan(db, path, position).1 == 1
    ensures Verified(BeginScan(db, path, position).0, path, 1)
  {
    hide TreeOk, ClosureExact, PresenceOk, PresenceNew, SoundsOk, TabsOk, LegacyOk, CustomOk, OwnersOk, RootsOk, RootAt;
    var root := NextId(db.roots.Keys);
    var roots := db.roots[root := Root(path, position, 0)];
    assert root !in db.roots;
    assert Generations(db.(roots := roots), root) == {0};
    NextIdExactly({0}, 1);
  }

  /**
   When a second begin turns the first scanner away. Whatever calls fall between the two begins, of
   this root or others, the second begin hands the same generation out again if and only if it
   follows the root's largest one then, or the root is gone and it is 1.
   */
  lemma SupersededOverRuns(db: Db, path: string, position: int, calls: seq<Call>, again: int)
    requires Ok(db)
    ensures var (begun, generation) := BeginScan(db, path, position);
            var end := AfterAll(begun, calls);
      Ok(end) && (Verified(BeginScan(end, path, again).0, path, generation) <==> Follows(end, path, generation))
  {
    hide Ok, AfterAll, BeginScan, Follows;
    var (begun, generation) := BeginScan(db, path, position);
    BeginScanFresh(db, path, position);
    RunKeeps(begun, calls);
    BeginFollows(AfterAll(begun, calls), path, again, generation);
  }

  lemma BegunTracks(db: Db, path: string, position: int, calls: seq<Call>)
    requires Ok(db) && forall i :: 0 <= i < |calls| ==> Apart(calls[i], path)
    ensures var (begun, generation) := BeginScan(db, path, position);
            var end := AfterAll(begun, calls);
      && RootAt(begun.roots, path).Some? && Ok(end)
      && Tracked(end, path, RootAt(begun.roots, path).value, generation)
  {
    hide Ok, Tracked, AfterAll, BeginScan, RootAt;
    var (begun, generation) := BeginScan(db, path, position);
    BeginTracks(db, path, position);
    RunTracks(begun, calls, path, RootAt(begun.roots, path).value, generation);
  }

  /**
   While the scan goes on, however batches of either scan and calls for other roots, removals and
   finishes included, fall between the two begins, the first scanner is turned away if and only if
   some row of the root carries its generation.
   */
  lemma RivalsByRows(db: Db, path: string, position: int, calls: seq<Call>, again: int)
    requires Ok(db) && forall i :: 0 <= i < |calls| ==> Apart(calls[i], path)
    ensures var (begun, generation) := BeginScan(db, path, position);
            var end := AfterAll(begun, calls);
      && RootAt(begun.roots, path).Some?
      && var root := RootAt(begun.roots, path).value;
         Verified(BeginScan(end, path, again).0, path, generation) <==> !HasRows(end, root, generation)
  {
    hide Ok, Tracked, AfterAll, BeginScan, HasRows, RootAt;
    var (begun, generation) := BeginScan(db, path, position);
    BegunTracks(db, path, position, calls);
    TrackedAgain(AfterAll(begun, calls), path, RootAt(begun.roots, path).value, generation, again);
  }

  /**
   After the scan has ended, a new begin hands its generation out again always if it was cancelled,
   never if it was finished, and if the root was removed exactly when it was the root's first scan.
   */
  lemma EndedReissues(db: Db, path: string, position: int, calls: seq<Call>, again: int)
    requires Ok(db) && forall i :: 0 <= i < |calls| ==> Apart(calls[i], path)
    ensures var (begun, generation) := BeginScan(db, path, position);
            var end := AfterAll(begun, calls);
      && Verified(end, path, generation)
      && Verified(BeginScan(CancelScan(end, path, generation), path, again).0, path, generation)
      && (FinishScan(end, path, generation).Success? ==>
            !Verified(BeginScan(FinishScan(end, path, generation).value, path, again).0, path, generation))
      && (Verified(BeginScan(RemoveRoot(end, path), path, again).0, path, generation) <==> generation == 1)
  {
    hide Ok, Tracked, AfterAll, BeginScan, HasRows, RootAt, CancelScan, FinishScan, RemoveRoot;
    var (begun, generation) := BeginScan(db, path, position);
    BegunTracks(db, path, position, calls);
    var end, root := AfterAll(begun, calls), RootAt(begun.roots, path).value;
    assert Verified(end, path, generation) by { TrackedVerified(end, path, root, generation); }
    CancelledFollows(end, path, root, generation, again);
    if FinishScan(end, path, generation).Success? { FinishedFollows(end, path, root, generation, again); }
    RemovedFollows(end, path, generation, again);
  }

  lemma TrackedVerified(db: Db, path: string, root: nat, generation: nat)
    requires Tracked(db, path, root, generation)
    ensures Verified(db, path, generation) && RootAt(db.roots, path) == Some(root)
  {}

  lemma CancelledFollows(db: Db, path: string, root: nat, generation: nat, again: int)
    requires Ok(db) && Tracked(db, path, root, generation)
    ensures Verified(BeginScan(CancelScan(db, path, generation), path, again).0, path, generation)
  {
    hide Ok, Generations, HasRows, RootAt, BeginScan, CancelScan;
    var next := CancelScan(db, path, generation);
    CancelSameView(db, path, generation);
    ActiveBelow(db, path, root, generation);
    Refresh.CancelEnds(db, path, generation);
    forall g: nat ensures g in Generations(next, root) <==> g in Generations(db, root) && g != generation {
      GenerationsMember(db, root, g);
      GenerationsMember(next, root, g);
      CancelledRows(db, path, root, generation, g);
    }
    forall g: nat ensures g in Generations(next, root) <==> Used(next, root, g) { GenerationsMember(next, root, g); }
    BeginFollows(next, path, again, generation);
  }

  lemma CancelledRows(db: Db, path: string, root: nat, generation: nat, g: nat)
    requires Ok(db) && Verified(db, path, generation) && RootAt(db.roots, path) == Some(root)
    ensures HasRows(CancelScan(db, path, generation), root, g) <==> HasRows(db, root, g) && g != generation
  {
    hide Ok, RootAt, HasRows, CancelScan, Stages;
    var unlocked, next := db.(scans := db.scans - {path}), CancelScan(db, path, generation);
    CancelStages(db, path, generation);
    UnlockSameView(db, path);
    RowsIgnoreScans(db, unlocked.scans, root, g);
    if g != generation {
      StagedRows(unlocked, next, root, generation, g);
    } else {
      NoneLeft(db, path, root, generation);
    }
  }

  lemma NoneLeft(db: Db, path: string, root: nat, generation: nat)
    requires RootAt(db.roots, path) == Some(root)
    ensures !HasRows(CancelScan(db, path, generation), root, generation)
  {
    hide RootAt;
  }

  lemma FinishedFollows(db: Db, path: string, root: nat, generation: nat, again: int)
    requires Ok(db) && Tracked(db, path, root, generation) && FinishScan(db, path, generation).Success?
    ensures !Verified(BeginScan(FinishScan(db, path, generation).value, path, again).0, path, generation)
  {
    hide Ok, Generations, HasRows, RootAt, BeginScan, FinishScan;
    var next := FinishScan(db, path, generation).value;
    FinishKeeps(db, path, generation);
    RootStays(next, root);
    assert Used(next, root, generation);
    BeginFollows(next, path, again, generation);
  }

  lemma RemovedFollows(db: Db, path: string, generation: nat, again: int)
    requires Ok(db)
    ensures Verified(BeginScan(RemoveRoot(db, path), path, again).0, path, generation) <==> generation == 1
  {
    hide Ok, RemoveRoot, BeginScan;
    RemoveRootExact(db, path);
    BeginFollows(RemoveRoot(db, path), path, again, generation);
  }

  /** So a stale scanner is not always turned away: two begins in a row hand out the same generation. */
  lemma StaleScannerAccepted(db: Db, path: string, position: int, again: int)
    requires Ok(db)
    ensures var (begun, generation) := BeginScan(db, path, position);
      BeginScan(begun, path, again).1 == generation && Verified(BeginScan(begun, path, again).0, path, generation)
  {
    hide Ok, BeginScan, HasRows;
    var (begun, generation) := BeginScan(db, path, position);
    BeginScanFresh(db, path, position);
    NoRows(begun, RootAt(begun.roots, path).value, generation);
    assert AfterAll(begun, []) == begun;
    RivalsByRows(db, path, position, [], again);
    BeginScanFresh(begun, path, again);
  }
}
