/**
 Live sounds while scans are in progress. A scanned sound stops being standalone at once, and
 cancelling the scan does not give the flag back; nothing else hides a sound, and nothing reveals one.
 */
module Standalone {
  import opened Wrappers
  import opened Ordering
  import opened Tables
  import opened FolderScan
  import opened RootScan
  import opened Staging

  /** None of the first `n` rows is for the sound's file. */
  ghost predicate Untouched(rows: seq<SoundRow>, n: nat, path: string)
    requires n <= |rows|
  {
    forall i :: 0 <= i < n ==> rows[i].path != path
  }

  lemma InsertClears(db: Db, root: nat, path: string, generation: nat, row: SoundRow, s: nat)
    requires SoundsOk(db.sounds) && s in db.sounds && InsertSound(db, root, path, generation, row).Success?
    ensures var next := InsertSound(db, root, path, generation, row).value;
      && SoundsOk(next.sounds) && s in next.sounds && next.sounds[s].path == db.sounds[s].path
      && (next.sounds[s].standalone <==> db.sounds[s].standalone && row.path != db.sounds[s].path)
  {
    hide PutSound;
    PutSoundUnique(db.sounds, row);
    var (sounds, id) := PutSound(db.sounds, row).value;
    PutLocationsSounds(db.(sounds := sounds), id, root, path, generation, row.locations, |row.locations|);
  }

  lemma {:induction false} PutLocationsSounds(db: Db, sound: nat, root: nat, path: string, generation: nat,
                                              rows: seq<LocationRow>, n: nat)
    requires n <= |rows| && PutLocations(db, sound, root, path, generation, rows, n).Success?
    ensures PutLocations(db, sound, root, path, generation, rows, n).value.sounds == db.sounds
  {
    hide FolderAt;
    if n > 0 { PutLocationsSounds(db, sound, root, path, generation, rows, n - 1); }
  }

  lemma {:induction false} PutSoundsClear(db: Db, root: nat, path: string, generation: nat, rows: seq<SoundRow>,
                                          n: nat, s: nat)
    requires SoundsOk(db.sounds) && s in db.sounds && n <= |rows|
    requires PutSounds(db, root, path, generation, rows, n).Success?
    ensures var next := PutSounds(db, root, path, generation, rows, n).value;
      && SoundsOk(next.sounds) && s in next.sounds && next.sounds[s].path == db.sounds[s].path
      && (next.sounds[s].standalone <==> db.sounds[s].standalone && Untouched(rows, n, db.sounds[s].path))
  {
    hide SoundsOk, InsertSound;
    if n > 0 {
      PutSoundsClear(db, root, path, generation, rows, n - 1, s);
      InsertClears(PutSounds(db, root, path, generation, rows, n - 1).value, root, path, generation, rows[n - 1], s);
    }
  }

  /**
   When a batch hides a live sound. After a batch, and still after cancelling its scan, a sound
   that was live is live if and only if a membership or a shown location keeps it or the batch did
   not name its file: a sound live by its standalone flag alone is lost by scanning it.
   */
  lemma BatchHidesExactly(db: Db, path: string, generation: nat, folders: seq<FolderRow>, sounds: seq<SoundRow>, s: nat)
    requires Ok(db) && Live(db, s) && ApplyBatch(db, path, generation, folders, sounds).Success?
    ensures var next := ApplyBatch(db, path, generation, folders, sounds).value;
            var kept := LiveByRows(db, s) || Untouched(sounds, |sounds|, db.sounds[s].path);
      && Verified(next, path, generation)
      && (Live(next, s) <==> kept)
      && (Live(CancelScan(next, path, generation), s) <==> kept)
  {
    hide Ok, LiveByRows, PutFolders, PutSounds, Stages, CancelScan, SameView, Untouched;
    var next := ApplyBatch(db, path, generation, folders, sounds).value;
    ApplyBatchStages(db, path, generation, folders, sounds);
    var root := RootAt(db.roots, path).value;
    StagedSameView(db, next, root, generation);
    StagedScans(db, next, root, generation);
    CancelSameView(next, path, generation);
    CancelStages(next, path, generation);
    var tree := PutFolders(db, root, path, generation, folders, |folders|).value;
    PutFoldersStages(db, root, path, generation, folders, |folders|);
    OkSounds(tree);
    PutSoundsClear(tree, root, path, generation, sounds, |sounds|, s);
    SameRows(db, next, s);
    SameRows(next, CancelScan(next, path, generation), s);
  }

  lemma StagedScans(db: Db, next: Db, root: nat, generation: nat)
    requires Stages(db, next, root, generation)
    ensures next.scans == db.scans
  {}

  lemma SameRows(db: Db, next: Db, s: nat)
    requires SameView(db, next)
    ensures LiveByRows(next, s) <==> LiveByRows(db, s)
  {
    hide LiveByRows, OnShow, Effective, StagesTree, StagesSounds;
  }

  // ---- whole runs -------------------------------------------------------------------------------------

  /** The step is a batch that is applied and has a row for the file. */
  ghost predicate Names(db: Db, step: Staging, path: string) {
    && step.Batch? && ApplyBatch(db, step.path, step.generation, step.folders, step.sounds).Success?
    && !Untouched(step.sounds, |step.sounds|, path)
  }

  /** Some applied batch of the run has a row for the file. */
  ghost predicate NamedBy(db: Db, steps: seq<Staging>, path: string)
    decreases |steps|
  {
    steps != [] && (Names(db, steps[0], path) || NamedBy(Perform(db, steps[0]), steps[1..], path))
  }

  lemma BatchFlag(db: Db, path: string, generation: nat, folders: seq<FolderRow>, sounds: seq<SoundRow>, s: nat)
    requires Ok(db) && s in db.sounds && ApplyBatch(db, path, generation, folders, sounds).Success?
    ensures var next := ApplyBatch(db, path, generation, folders, sounds).value;
      && s in next.sounds && next.sounds[s].path == db.sounds[s].path
      && (next.sounds[s].standalone <==>
            db.sounds[s].standalone && Untouched(sounds, |sounds|, db.sounds[s].path))
  {
    hide Ok, PutFolders, PutSounds, Stages, Untouched;
    ApplyBatchStages(db, path, generation, folders, sounds);
    var root := RootAt(db.roots, path).value;
    var tree := PutFolders(db, root, path, generation, folders, |folders|).value;
    PutFoldersStages(db, root, path, generation, folders, |folders|);
    OkSounds(tree);
    PutSoundsClear(tree, root, path, generation, sounds, |sounds|, s);
  }

  lemma StepFlag(db: Db, step: Staging, s: nat)
    requires Ok(db) && s in db.sounds
    ensures var next := Perform(db, step);
      && s in next.sounds && next.sounds[s].path == db.sounds[s].path
      && (next.sounds[s].standalone <==> db.sounds[s].standalone && !Names(db, step, db.sounds[s].path))
  {
    hide Ok, ApplyBatch, BeginScan, CancelScan, Untouched;
    match step {
      case Begin(path, position) => BeginSounds(db, path, position);
      case Batch(path, generation, folders, sounds) =>
        if ApplyBatch(db, path, generation, folders, sounds).Success? {
          BatchFlag(db, path, generation, folders, sounds, s);
        }
      case Cancel(path, generation) => CancelSounds(db, path, generation);
    }
  }

  lemma BeginSounds(db: Db, path: string, position: int)
    ensures BeginScan(db, path, position).0.sounds == db.sounds
  {}

  lemma CancelSounds(db: Db, path: string, generation: nat)
    ensures CancelScan(db, path, generation).sounds == db.sounds
  {}

  lemma {:induction false} RunFlag(db: Db, steps: seq<Staging>, s: nat)
    requires Ok(db) && s in db.sounds
    ensures var next := Run(db, steps);
      && s in next.sounds && next.sounds[s].path == db.sounds[s].path
      && (next.sounds[s].standalone <==> db.sounds[s].standalone && !NamedBy(db, steps, db.sounds[s].path))
    decreases |steps|
  {
    hide Ok, Perform, SameView, Names;
    if steps != [] {
      StepFlag(db, steps[0], s);
      PerformInvisible(db, steps[0]);
      RunFlag(Perform(db, steps[0]), steps[1..], s);
    }
  }

  /** A membership or a shown location keeps the sound, or no applied batch of the run names its file. */
  ghost predicate Kept(db: Db, steps: seq<Staging>, s: nat) {
    s in db.sounds && (LiveByRows(db, s) || !NamedBy(db, steps, db.sounds[s].path))
  }

  /**
   What a run of staging steps hides, and that it reveals nothing: a sound is live afterwards if and
   only if it was live before and a membership or a shown location keeps it or no applied batch named
   its file. In particular no sound that a scan has just inserted is live before the scan finishes.
   */
  lemma RunLiveExactly(db: Db, steps: seq<Staging>, s: nat)
    requires Ok(db)
    ensures Live(Run(db, steps), s) <==> Live(db, s) && Kept(db, steps, s)
  {
    hide Ok, LiveByRows, Run, NamedBy, SameView;
    StagingInvisible(db, steps);
    SameRows(db, Run(db, steps), s);
    if s in db.sounds {
      RunFlag(db, steps, s);
    } else {
      NotLive(db, s);
      NewFlag(db, Run(db, steps), s);
    }
  }

  /** Rows keep no sound live that is not in the table. */
  lemma NotLive(db: Db, s: nat)
    requires Ok(db) && s !in db.sounds
    ensures !LiveByRows(db, s)
  {
    hide TreeState, RootsOk, SoundsOk, LegacyOk, CustomOk, OwnersOk, Shown;
  }

  lemma NewFlag(db: Db, next: Db, s: nat)
    requires SameView(db, next) && s !in db.sounds
    ensures s in next.sounds ==> !next.sounds[s].standalone
  {
    hide LiveByRows, OnShow, Effective, StagesTree;
  }
}
