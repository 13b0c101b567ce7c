/**
 A refresh of the whole library: one scan per root, every visited file pushed through the
 row-bounded batches, then all scans finished, or all of them cancelled.
 */
module Refresh {
  import opened Wrappers
  import opened Ordering
  import opened Tables
  import opened FolderScan
  import opened RootScan
  import opened Cascade
  import opened Staging
  import opened Standalone
  import opened ScanOrder
  import opened ScanBatch
  import opened ScanVisit
  import opened ScanFiles
  import opened Legacy
  import opened Conversion
  import opened Finish

  // ---- which roots, in which order -----------------------------------------------------------------

  /** The first occurrence of every root. */
  function Deduplicated(folders: seq<string>, n: nat): seq<string>
    requires n <= |folders|
  {
    if n == 0 then []
    else
      var prior := Deduplicated(folders, n - 1);
      if folders[n - 1] in prior then prior else prior + [folders[n - 1]]
  }

  lemma {:induction false} DeduplicatedSame(folders: seq<string>, n: nat)
    requires n <= |folders|
    ensures forall r :: r in Deduplicated(folders, n) <==> r in folders[..n]
  {
    if n > 0 {
      DeduplicatedSame(folders, n - 1);
      assert folders[..n] == folders[..n - 1] + [folders[n - 1]];
    }
  }

  /**
   Each root once, in the order in which the roots first come: after any number of folders the list
   holds exactly those seen so far, and it only grows at its end.
   */
  lemma {:induction false} DeduplicatedExactly(folders: seq<string>, m: nat, n: nat)
    requires m <= n <= |folders|
    ensures Deduplicated(folders, m) <= Deduplicated(folders, n)
    ensures forall r :: r in Deduplicated(folders, m) <==> r in folders[..m]
    ensures forall i, j :: 0 <= i < j < |Deduplicated(folders, n)| ==>
      Deduplicated(folders, n)[i] != Deduplicated(folders, n)[j]
    decreases n
  {
    DeduplicatedSame(folders, m);
    if m < n {
      DeduplicatedExactly(folders, m, n - 1);
    } else if n > 0 {
      DeduplicatedExactly(folders, n - 1, n - 1);
    }
  }

  function RootKeys(generations: map<string, nat>): map<string, Key> {
    map r | r in generations :: Key(0, Text(r))
  }

  /** The started scans in the order their map is walked: by root path. */
  function Order(generations: map<string, nat>): (order: seq<string>)
    ensures forall r :: r in order <==> r in generations
    ensures forall i, j :: 0 <= i < j < |order| ==> order[i] != order[j] && TextLess(order[i], order[j])
  {
    RootsSorted(generations);
    Sort(RootKeys(generations))
  }

  lemma RootsSorted(generations: map<string, nat>)
    ensures Distinct(RootKeys(generations))
    ensures var order := Sort(RootKeys(generations));
      && (forall r :: r in order <==> r in generations)
      && (forall i, j :: 0 <= i < j < |order| ==> order[i] != order[j] && TextLess(order[i], order[j]))
  {
    hide Sort, Ascending, TextLess;
    var keys := RootKeys(generations);
    SortElements(keys);
    SortAscends(keys);
    AscendingDistinct(Sort(keys), keys);
    assert forall r :: r in Sort(keys) <==> r in Elements(Sort(keys));
    AscendingTexts(Sort(keys), keys);
  }

  /** Rows sorted by their own text. */
  lemma AscendingTexts(rows: seq<string>, keys: map<string, Key>)
    requires Ascending(rows, keys) && forall r :: r in keys ==> keys[r] == Key(0, Text(r))
    ensures forall i, j :: 0 <= i < j < |rows| ==> TextLess(rows[i], rows[j])
  {
    hide TextLess;
  }

  // ---- begin -----------------------------------------------------------------------------------------

  function BeginEach(db: Db, roots: seq<string>, n: nat): (Db, map<string, nat>)
    requires n <= |roots|
  {
    if n == 0 then (db, map[])
    else
      var (prior, generations) := BeginEach(db, roots, n - 1);
      var (next, generation) := BeginScan(prior, roots[n - 1], n - 1);
      (next, generations[roots[n - 1] := generation])
  }

  /** Beginning another root's scan leaves a root's id and active generation alone. */
  lemma BeginFrameRoots(db: Db, path: string, position: int, other: string)
    requires Ok(db) && other != path && RootAt(db.roots, other).Some?
    ensures var next := BeginScan(db, path, position).0;
      && RootAt(next.roots, other) == RootAt(db.roots, other)
      && next.roots[RootAt(db.roots, other).value].active == db.roots[RootAt(db.roots, other).value].active
      && (other in db.scans ==> other in next.scans && next.scans[other] == db.scans[other])
  {
    hide TreeState, SoundsOk, LocationsOk, TabsOk, LegacyOk, CustomOk, OwnersOk, Generations, RootAt, UpsertRoot;
    UpsertedRoots(db, path, position);
    assert BeginScan(db, path, position).0.roots == UpsertRoot(db.roots, path, position).0;
    RootAtFinds(UpsertRoot(db.roots, path, position).0, RootAt(db.roots, other).value);
  }

  lemma StagedNothing(db: Db, path: string, root: nat, generation: nat, files: seq<File>)
    requires forall k :: k in db.locations && k.root == root ==> k.generation != generation
    requires forall f :: !PresentIn(db, f, root, generation)
    ensures StagedExactly(db, path, root, generation, files, 0)
  {}

  lemma BeginOne(db: Db, generations: map<string, nat>, path: string, position: int, files: seq<File>)
    requires Ok(db) && Begun(db, generations) && AllStaged(db, generations, files, 0)
    ensures var (next, generation) := BeginScan(db, path, position);
      && Ok(next) && Begun(next, generations[path := generation]) && SameView(db, next)
      && next == db.(roots := next.roots, scans := next.scans)
      && AllStaged(next, generations[path := generation], files, 0)
      && (StagedPresent(db) ==> StagedPresent(next))
  {
    hide Ok, BeginScan, SameView, RootAt;
    var (next, generation) := BeginScan(db, path, position);
    BeginScanFresh(db, path, position);
    BeginSameView(db, path, position);
    BeginTables(db, path, position);
    forall r | r in generations && r != path
      ensures RootAt(next.roots, r) == RootAt(db.roots, r) && Verified(next, r, generations[r])
        && next.roots[RootAt(db.roots, r).value].active < generations[r]
        && StagedExactly(next, r, RootAt(next.roots, r).value, generations[r], files, 0)
    {
      BeginFrameRoots(db, path, position, r);
      StagedNothing(next, r, RootAt(next.roots, r).value, generations[r], files);
    }
    StagedNothing(next, path, RootAt(next.roots, path).value, generation, files);
  }

  lemma BeginTables(db: Db, path: string, position: int)
    ensures var next := BeginScan(db, path, position).0;
      next == db.(roots := next.roots, scans := next.scans)
  {}

  lemma {:induction false} BeginEachBegins(db: Db, roots: seq<string>, n: nat, files: seq<File>)
    requires Ok(db) && n <= |roots|
    ensures var (next, generations) := BeginEach(db, roots, n);
      && Ok(next) && Begun(next, generations) && SameView(db, next)
      && next == db.(roots := next.roots, scans := next.scans)
      && AllStaged(next, generations, files, 0)
      && (StagedPresent(db) ==> StagedPresent(next))
      && (forall r :: r in generations <==> r in roots[..n])
  {
    hide Ok, BeginScan, SameView, RootAt, Begun, AllStaged, StagedPresent;
    if n == 0 {
      SameViewSelf(db);
      assert Begun(db, map[]) && AllStaged(db, map[], files, 0) by { NothingBegun(db, files); }
    } else {
      var (prior, generations) := BeginEach(db, roots, n - 1);
      BeginEachBegins(db, roots, n - 1, files);
      BeginOne(prior, generations, roots[n - 1], n - 1, files);
      SameViewTransitive(db, prior, BeginEach(db, roots, n).0);
      assert roots[..n] == roots[..n - 1] + [roots[n - 1]];
    }
  }

  /** The path's last place among the first `n`. */
  function PlaceIn(order: seq<string>, n: nat, path: string): Option<nat>
    requires n <= |order|
  {
    if n == 0 then None else if order[n - 1] == path then Some(n - 1) else PlaceIn(order, n - 1, path)
  }

  /**
   The roots listing after a scan of each of the first `n` roots has begun: they have their places in
   that order, inserted if need be, and every other row is as it was.
   */
  ghost predicate RootsListed(roots: map<nat, Root>, next: map<nat, Root>, order: seq<string>, n: nat)
    requires n <= |order|
  {
    forall path :: RootRow(next, path) == ListedRow(roots, order, n, path)
  }

  function ListedRow(roots: map<nat, Root>, order: seq<string>, n: nat, path: string): Option<Root>
    requires n <= |order|
  {
    match PlaceIn(order, n, path)
    case None => RootRow(roots, path)
    case Some(place) => Some(Root(path, place, ActiveOf(roots, path)))
  }

  lemma {:induction false} BeginEachLists(db: Db, roots: seq<string>, n: nat)
    requires Ok(db) && n <= |roots|
    ensures RootsListed(db.roots, BeginEach(db, roots, n).0.roots, roots, n)
  {
    hide Ok, BeginScan, SameView, RootRow, Begun, AllStaged, StagedPresent;
    if n > 0 {
      var prior := BeginEach(db, roots, n - 1).0;
      BeginEachBegins(db, roots, n - 1, []);
      BeginEachLists(db, roots, n - 1);
      forall path ensures RootRow(BeginEach(db, roots, n).0.roots, path) == ListedRow(db.roots, roots, n, path) {
        OkRoots(prior);
        BeginRow(prior, roots[n - 1], n - 1, path);
      }
    }
  }

  lemma NothingBegun(db: Db, files: seq<File>)
    ensures Begun(db, map[]) && AllStaged(db, map[], files, 0)
  {}

  // ---- visit -----------------------------------------------------------------------------------------

  /** Nothing a user sees has changed and every scan is still in progress. */
  ghost predicate Quiet(start: Db, db: Db) {
    Ok(db) && SameView(start, db) && db.scans == start.scans && db.roots == start.roots
  }

  lemma ScanEachQuiet(start: Db, generations: map<string, nat>, files: seq<File>, n: nat)
    requires n <= |files| && Ok(start) && Begun(start, generations)
    requires ScanEach(start, generations, files, n).Success?
    ensures Quiet(start, ScanEach(start, generations, files, n).value)
  {
    hide Ok, SameView, Begun, ScanEach, StagedPresent, DistinctPaths, AllStaged;
    ScanEachExact(start, generations, files, n);
  }

  lemma QuietBegun(start: Db, db: Db, generations: map<string, nat>)
    requires Quiet(start, db) && Begun(start, generations)
    ensures Begun(db, generations)
  {
    hide Ok, SameView, RootAt;
  }

  lemma BegunVerified(db: Db, generations: map<string, nat>, r: string)
    requires Begun(db, generations) && r in generations
    ensures Verified(db, r, generations[r])
  {
    hide RootAt;
  }

  /** Between two files: the database holds a prefix of the files, and with the batch applied all of them. */
  ghost predicate Visiting(start: Db, db: Db, generations: map<string, nat>, files: seq<File>, n: nat, flushed: nat,
                           root: string, generation: nat, settled: Result<Db, LibraryError>)
    requires flushed <= n <= |files|
  {
    && ScanEach(start, generations, files, flushed) == Success(db)
    && (if root in generations then generation == generations[root] else settled == Success(db))
    && match ScanEach(start, generations, files, n)
       case Failure(_) => settled.Failure?
       case Success(scanned) => settled == Success(scanned)
  }

  /** The flag has been read as often as the visit says, or both are past the alarm. */
  ghost predicate InStep(flag: Flag, v: Visit)
    reads flag
  {
    flag.clock == v.clock || (flag.alarm <= flag.clock && flag.alarm <= v.clock)
  }

  /** Pushes one probed file, after the batch of another root has been flushed. */
  method PushOne(c: Connection, generations: map<string, nat>, batch: StoreScanBatch, file: File, position: nat,
                 ghost start: Db, ghost files: seq<File>, ghost before: nat)
    returns (failed: Option<LibraryError>, ghost flushed: nat)
    requires Ok(start) && Begun(start, generations) && "" !in generations && batch.Valid()
    requires position < |files| && file == files[position] && before <= position
    requires Visiting(start, c.db, generations, files, position, before, batch.root, batch.generation,
      batch.Settled(c.db))
    modifies c, batch
    ensures flushed <= position
    ensures failed.None? ==>
      && batch.Valid()
      && Visiting(start, c.db, generations, files, position + 1, flushed, batch.root, batch.generation,
        batch.Settled(c.db))
    ensures failed.Some? ==>
      && ScanEach(start, generations, files, position + 1).Failure?
      && ScanEach(start, generations, files, flushed) == Success(c.db)
  {
    hide Ok, SameView, Begun, SettledBy, ScanEach, RootAt, Plain, Anchored, FolderRows, SoundRows, ScanFile;
    flushed := before;
    ScanNext(start, generations, files, position);
    if file.root !in generations {
      return Some(InvalidData), flushed;
    }
    var generation := generations[file.root];
    if batch.root != file.root {
      failed := batch.Flush(c);
      if failed.Some? {
        return failed, flushed;
      }
      flushed := position;
      batch.ResetFor(file.root, generation);
      SettledNone(c.db, batch.root, batch.generation);
    }
    ScanEachQuiet(start, generations, files, flushed);
    QuietBegun(start, c.db, generations);
    BegunVerified(c.db, generations, file.root);
    if batch.Settled(c.db).Success? {
      ScanEachQuiet(start, generations, files, position);
    }
    ghost var unpushed := c.db;
    failed := batch.PushFile(c, file, position);
    flushed := if c.db == unpushed then flushed else position;
  }

  /** Probes the pending files; those whose probe the flag overtakes are left out. */
  method BuildBatch(pending: seq<File>, flag: Flag) returns (built: seq<File>)
    modifies flag
    ensures built == pending[..Probed(|pending|, old(flag.clock), flag.alarm)]
    ensures old(flag.clock) + 2 * |pending| <= flag.alarm ==> flag.clock == old(flag.clock) + 2 * |pending|
    ensures flag.alarm < old(flag.clock) + 2 * |pending| ==> flag.alarm <= flag.clock
  {
    built := [];
    for index := 0 to |pending|
      invariant built == pending[..Probed(index, old(flag.clock), flag.alarm)]
      invariant old(flag.clock) + 2 * index <= flag.alarm ==> flag.clock == old(flag.clock) + 2 * index
      invariant flag.alarm < old(flag.clock) + 2 * index ==> flag.alarm <= flag.clock
    {
      var raised := flag.Load();
      if !raised {
        raised := flag.Load();
        if !raised {
          built := built + [pending[index]];
        }
      }
    }
  }

  /** Probes the pending files and pushes those built, until the flag is up or a push fails. */
  method ProcessPending(c: Connection, generations: map<string, nat>, batch: StoreScanBatch, flag: Flag,
                        pending: seq<File>, position: nat, ghost start: Db, ghost files: seq<File>, ghost v: Visit,
                        ghost before: nat)
    returns (r: Option<LibraryError>, next: nat, ghost flushed: nat)
    requires Ok(start) && Begun(start, generations) && "" !in generations && batch.Valid()
    requires InStep(flag, v) && !v.noticed && v.pushed == position && v.pending == |pending|
    requires before <= position && position + |pending| <= |files|
    requires pending == files[position..position + |pending|]
    requires Visiting(start, c.db, generations, files, position, before, batch.root, batch.generation,
      batch.Settled(c.db))
    modifies c, batch, flag
    ensures flushed <= Process(v, flag.alarm).pushed <= |files|
    ensures r.None? ==>
      && batch.Valid() && InStep(flag, Process(v, flag.alarm)) && next == Process(v, flag.alarm).pushed
      && !Process(v, flag.alarm).noticed
      && Visiting(start, c.db, generations, files, next, flushed, batch.root, batch.generation, batch.Settled(c.db))
    ensures r.Some? ==>
      && (Process(v, flag.alarm).noticed
          || ScanEach(start, generations, files, Process(v, flag.alarm).pushed).Failure?)
      && ScanEach(start, generations, files, flushed) == Success(c.db)
  {
    hide Ok, SameView, Begun, SettledBy, ScanEach, RootAt, Plain, Anchored, FolderRows, SoundRows, ScanFile, Process;
    ghost var clock, end := flag.clock, Process(v, flag.alarm);
    ProcessStep(flag, v);
    var built := BuildBatch(pending, flag);
    ghost var probed := flag.clock;
    next, flushed := position, before;
    for index := 0 to |built|
      invariant batch.Valid() && next == position + index && flushed <= next <= end.pushed
      invariant flag.clock == probed + index && (0 < index ==> probed + index <= flag.alarm)
      invariant Visiting(start, c.db, generations, files, next, flushed, batch.root, batch.generation,
        batch.Settled(c.db))
    {
      var raised := flag.Load();
      if raised {
        return Some(InvalidData), next, flushed;
      }
      assert built[index] == files[next];
      r, flushed := PushOne(c, generations, batch, built[index], next, start, files, flushed);
      if r.Some? {
        ScanEachStops(start, generations, files, next + 1, end.pushed);
        return r, next, flushed;
      }
      next := next + 1;
    }
    return None, next, flushed;
  }

  /** What the readings of the flag come to. */
  lemma ProcessStep(flag: Flag, v: Visit)
    requires InStep(flag, v) && !v.noticed
    ensures var next, kept := Process(v, flag.alarm), Probed(v.pending, flag.clock, flag.alarm);
      && v.pushed <= next.pushed <= v.pushed + v.pending
      && kept <= v.pending
      && (flag.clock + 3 * v.pending <= flag.alarm ==>
            !next.noticed && next.pushed == v.pushed + v.pending && kept == v.pending
            && (next.clock == flag.clock + 3 * v.pending
                || (flag.alarm <= flag.clock + 3 * v.pending && flag.alarm <= next.clock)))
      && (flag.alarm < flag.clock + 3 * v.pending || flag.alarm < flag.clock ==> flag.alarm <= next.clock)
      && (flag.alarm < flag.clock + 3 * v.pending ==>
            && (next.noticed <==> 0 < kept)
            && (flag.clock + 2 * v.pending <= flag.alarm ==>
                  kept == v.pending && next.pushed == v.pushed + (flag.alarm - flag.clock - 2 * v.pending))
            && (flag.alarm < flag.clock + 2 * v.pending ==> next.pushed == v.pushed))
  {}

  /**
   The visitor. It fails exactly when a cancellation is noticed or a file it gets to cannot be scanned;
   the database always holds a prefix of the files as if scanned one by one, and on success all those
   that the visit pushes.
   */
  method VisitFiles(c: Connection, generations: map<string, nat>, walk: seq<Entry>, flag: Flag)
    returns (r: Option<LibraryError>, ghost flushed: nat)
    requires Ok(c.db) && Begun(c.db, generations) && "" !in generations
    requires flag.clock == 1
    modifies c, flag
    ensures var files, v := Audio(walk, |walk|), VisitAll(walk, flag.alarm);
      && flushed <= v.pushed <= |files|
      && ScanEach(old(c.db), generations, files, flushed) == Success(c.db)
      && (r == None <==> !v.noticed && ScanEach(old(c.db), generations, files, v.pushed).Success?)
      && (r == None ==> flushed == v.pushed)
  {
    hide Ok, SameView, Begun, SettledBy, ScanEach, RootAt, Plain, Anchored, FolderRows, SoundRows, ScanFile, Process,
         Audio, Walked;
    ghost var start, files := c.db, Audio(walk, |walk|);
    var batch := new StoreScanBatch();
    ScanNone(start, generations, files);
    SettledNone(c.db, batch.root, batch.generation);
    WalkedNone(walk, flag.alarm);
    flushed := 0;
    var pending, position, noticed, index := [], 0, false, 0;
    while index < |walk| && !noticed
      invariant batch.Valid() && fresh(batch) && index <= |walk| && flushed <= position
      invariant Holds(walk, index, Walked(walk, index, flag.alarm), flag, pending, position, noticed)
      invariant Visiting(start, c.db, generations, files, position, flushed, batch.root, batch.generation,
        batch.Settled(c.db))
    {
      ghost var v := Walked(walk, index, flag.alarm);
      WalkedFits(walk, index, flag.alarm);
      WalkedNext(walk, index, flag.alarm);
      AudioNext(walk, index);
      noticed := flag.Load();
      if !noticed && walk[index].Some? {
        pending := pending + [walk[index].value];
        if |pending| >= METADATA_BATCH {
          r, position, flushed := ProcessPending(c, generations, batch, flag, pending, position, start, files,
                                                 Visit(v.clock + 1, |pending|, position, false), flushed);
          if r.Some? {
            VisitFails(start, generations, walk, index + 1, flag.alarm);
            return;
          }
          pending := [];
        }
      }
      index := index + 1;
    }
    VisitEnds(walk, index, flag.alarm);
    if !noticed {
      r, position, flushed := ProcessPending(c, generations, batch, flag, pending, position, start, files,
                                             Walked(walk, index, flag.alarm), flushed);
      if r.Some? {
        return;
      }
    }
    r := batch.Flush(c);
    flushed := if r.None? then position else flushed;
    r := if noticed then Some(InvalidData) else r;
  }

  lemma WalkedNone(walk: seq<Entry>, alarm: nat)
    ensures Walked(walk, 0, alarm) == Visit(1, 0, 0, false)
  {}

  lemma WalkedNext(walk: seq<Entry>, n: nat, alarm: nat)
    requires n < |walk| && !Walked(walk, n, alarm).noticed
    ensures var v, next := Walked(walk, n, alarm), Walked(walk, n + 1, alarm);
      if alarm <= v.clock then next == Visit(v.clock + 1, v.pending, v.pushed, true)
      else if walk[n].None? then next == Visit(v.clock + 1, v.pending, v.pushed, false)
      else if v.pending + 1 < METADATA_BATCH then next == Visit(v.clock + 1, v.pending + 1, v.pushed, false)
      else next == Process(Visit(v.clock + 1, v.pending + 1, v.pushed, false), alarm) && next.pending == 0
  {}

  /** The visitor's variables are those of the visit. */
  ghost predicate Holds(walk: seq<Entry>, index: nat, v: Visit, flag: Flag, pending: seq<File>, position: nat,
                        noticed: bool)
    reads flag
  {
    && InStep(flag, v) && v.pending == |pending| && v.pushed == position && v.noticed == noticed
    && position + |pending| <= |Audio(walk, |walk|)|
    && pending == Audio(walk, |walk|)[position..position + |pending|]
  }

  /** Until the flag is up every file is pushed or pending. */
  lemma {:induction false} WalkedFits(walk: seq<Entry>, n: nat, alarm: nat)
    requires n <= |walk|
    ensures var v := Walked(walk, n, alarm); v.clock < alarm && !v.noticed ==> v.pushed + v.pending == |Audio(walk, n)|
  {
    if n > 0 { WalkedFits(walk, n - 1, alarm); }
  }

  lemma {:induction false} AudioPrefix(walk: seq<Entry>, n: nat, m: nat)
    requires n <= m <= |walk|
    ensures Audio(walk, n) <= Audio(walk, m)
    decreases m
  {
    if n < m { AudioPrefix(walk, n, m - 1); }
  }

  lemma AudioNext(walk: seq<Entry>, n: nat)
    requires n < |walk|
    ensures walk[n].Some? ==>
      |Audio(walk, n)| < |Audio(walk, |walk|)| && Audio(walk, |walk|)[|Audio(walk, n)|] == walk[n].value
  {
    AudioPrefix(walk, n + 1, |walk|);
  }

  /** A push that fails within the visit fails the visit. */
  lemma VisitFails(start: Db, generations: map<string, nat>, walk: seq<Entry>, n: nat, alarm: nat)
    requires n <= |walk|
    ensures var files, v, end := Audio(walk, |walk|), Walked(walk, n, alarm), VisitAll(walk, alarm);
      && v.pushed <= end.pushed <= |files|
      && (v.noticed ==> end.noticed)
      && (ScanEach(start, generations, files, v.pushed).Failure? ==>
            ScanEach(start, generations, files, end.pushed).Failure?)
  {
    hide ScanEach, Audio, Process, Advance;
    VisitedFits(walk, alarm);
    PushedGrows(walk, n, alarm);
    var files, v, end := Audio(walk, |walk|), Walked(walk, n, alarm), VisitAll(walk, alarm);
    if ScanEach(start, generations, files, v.pushed).Failure? {
      ScanEachStops(start, generations, files, v.pushed, end.pushed);
    }
  }

  lemma VisitedFits(walk: seq<Entry>, alarm: nat)
    ensures VisitAll(walk, alarm).pushed <= |Audio(walk, |walk|)|
  {
    PushedBound(walk, |walk|, alarm);
  }

  /** A visit that notices the flag on the walk goes no further. */
  lemma {:induction false} VisitEnds(walk: seq<Entry>, n: nat, alarm: nat)
    requires n <= |walk|
    ensures VisitAll(walk, alarm).pushed <= |Audio(walk, |walk|)|
    ensures Walked(walk, n, alarm).noticed ==> VisitAll(walk, alarm) == Walked(walk, n, alarm)
    decreases |walk| - n
  {
    VisitedFits(walk, alarm);
    if n < |walk| && Walked(walk, n, alarm).noticed { VisitEnds(walk, n + 1, alarm); }
  }

  lemma ScanNone(db: Db, generations: map<string, nat>, files: seq<File>)
    ensures ScanEach(db, generations, files, 0) == Success(db)
  {}

  lemma SettledNone(db: Db, path: string, generation: nat)
    ensures SettledBy(db, path, generation, [], []) == Success(db)
  {}

  lemma ScanNext(db: Db, generations: map<string, nat>, files: seq<File>, n: nat)
    requires n < |files|
    ensures ScanEach(db, generations, files, n + 1) ==
      match ScanEach(db, generations, files, n)
      case Failure(e) => Failure(e)
      case Success(prior) => ScanOne(prior, generations, files[n], n)
  {
    hide ScanOne;
  }

  // ---- cancel ----------------------------------------------------------------------------------------

  /** Cancelling every started scan: nothing on show changes and none of the scans is left. */
  method CancelAll(c: Connection, generations: map<string, nat>)
    requires Ok(c.db) && forall r :: r in generations ==> Verified(c.db, r, generations[r])
    modifies c
    ensures Ok(c.db) && SameView(old(c.db), c.db) && (old(StagedPresent(c.db)) ==> StagedPresent(c.db))
    ensures c.db.folders == old(c.db.folders) && c.db.sounds == old(c.db.sounds) && c.db.roots == old(c.db.roots)
    ensures forall r :: r in generations ==> r !in c.db.scans
  {
    hide Ok, SameView, CancelScan, Order, RootAt, StagedPresent;
    var order := Order(generations);
    SameViewSelf(c.db);
    for index := 0 to |order|
      invariant Ok(c.db) && SameView(old(c.db), c.db) && (old(StagedPresent(c.db)) ==> StagedPresent(c.db))
      invariant c.db.folders == old(c.db.folders) && c.db.sounds == old(c.db.sounds)
      invariant c.db.roots == old(c.db.roots)
      invariant forall i :: 0 <= i < index ==> order[i] !in c.db.scans
      invariant forall i :: index <= i < |order| ==> Verified(c.db, order[i], generations[order[i]])
    {
      CancelOne(c, old(c.db), order[index], generations[order[index]]);
    }
  }

  method CancelOne(c: Connection, ghost start: Db, path: string, generation: nat)
    requires Ok(c.db) && SameView(start, c.db) && Verified(c.db, path, generation)
    modifies c
    ensures Ok(c.db) && SameView(start, c.db) && c.db.scans == old(c.db.scans) - {path}
    ensures c.db.folders == old(c.db.folders) && c.db.sounds == old(c.db.sounds) && c.db.roots == old(c.db.roots)
    ensures old(StagedPresent(c.db)) ==> StagedPresent(c.db)
  {
    hide Ok, SameView, CancelScan, RootAt, StagedPresent;
    if StagedPresent(c.db) {
      CancelPresent(c.db, path, generation);
    }
    CancelSameView(c.db, path, generation);
    CancelEnds(c.db, path, generation);
    var cancelled := CancelRootScan(c, path, generation);
    SameViewTransitive(start, old(c.db), c.db);
  }

  lemma CancelEnds(db: Db, path: string, generation: nat)
    requires Ok(db) && Verified(db, path, generation)
    ensures RootAt(db.roots, path).Some? && CancelScan(db, path, generation).scans == db.scans - {path}
    ensures var next := CancelScan(db, path, generation);
      next.folders == db.folders && next.sounds == db.sounds && next.roots == db.roots
  {
    hide TreeState, SoundsOk, LocationsOk, TabsOk, LegacyOk, CustomOk, OwnersOk, RootAt;
  }

  /** A cancel drops a presence row only along with the locations that rely on it. */
  lemma CancelPresent(db: Db, path: string, generation: nat)
    requires Ok(db) && StagedPresent(db)
    ensures StagedPresent(CancelScan(db, path, generation))
  {
    hide TreeState, RootsOk, SoundsOk, TabsOk, LegacyOk, CustomOk, OwnersOk, RootAt;
  }

  // ---- finish ----------------------------------------------------------------------------------------

  /**
   The root's active locations are exactly its visited files, each in its own folder; every folder
   row left is on the way to a visited file, and no row of another generation is left.
   */
  ghost predicate RootExact(db: Db, path: string, generation: nat, files: seq<File>) {
    && RootAt(db.roots, path).Some?
    && var root := RootAt(db.roots, path).value;
    && db.roots[root].active == generation
    && StagedExactly(db, path, root, generation, files, |files|)
    && (forall k :: k in db.locations && k.root == root ==> k.generation == generation)
    && (forall f :: f in db.folders && db.folders[f].root == root ==> PresentIn(db, f, root, generation))
    && (forall p :: p in db.presence && p.folder in db.folders && db.folders[p.folder].root == root
          ==> p.generation == generation)
  }

  /** A finish keeps the folders found at a generation that survives it. */
  lemma FoundKept(db: Db, next: Db, root: nat, path: Path)
    requires Ok(next) && FolderAt(db.folders, root, path).Some?
    requires var f := FolderAt(db.folders, root, path).value; f in next.folders && next.folders[f] == db.folders[f]
    ensures FolderAt(next.folders, root, path) == FolderAt(db.folders, root, path)
  {
    hide RowsOk, ClosureExact, PresenceOk, PresenceNew;
    assert FolderAt(db.folders, root, path).value in FolderIds(next.folders, root, path);
  }

  ghost predicate SameLocationsAt(db: Db, next: Db, root: nat, generation: nat) {
    forall s :: var k := LocationKey(s, root, generation);
      (k in db.locations <==> k in next.locations) && (k in db.locations ==> next.locations[k] == db.locations[k])
  }

  lemma LocatedKept(db: Db, next: Db, root: nat, generation: nat, file: File)
    requires Ok(next) && Located(db, root, generation, file) && next.sounds == db.sounds
    requires forall f :: PresentIn(db, f, root, generation) ==>
      PresentIn(next, f, root, generation) && next.folders[f] == db.folders[f]
    requires SameLocationsAt(db, next, root, generation)
    ensures Located(next, root, generation, file)
  {
    hide Ok, SoundAt, FolderAt;
    if file.folder != [] {
      var f := FolderAt(db.folders, root, file.folder).value;
      assert PresentIn(db, f, root, generation);
      FoundKept(db, next, root, file.folder);
    }
  }

  lemma StagedKept(db: Db, next: Db, path: string, root: nat, generation: nat, files: seq<File>)
    requires Ok(next) && StagedExactly(db, path, root, generation, files, |files|) && next.sounds == db.sounds
    requires forall f :: PresentIn(db, f, root, generation) <==> PresentIn(next, f, root, generation)
    requires forall f :: PresentIn(db, f, root, generation) && PresentIn(next, f, root, generation) ==>
      next.folders[f] == db.folders[f]
    requires SameLocationsAt(db, next, root, generation)
    ensures StagedExactly(next, path, root, generation, files, |files|)
  {
    hide Ok, Located, Visited, PresentIn;
    forall i | 0 <= i < |files| && files[i].root == path ensures Located(next, root, generation, files[i]) {
      LocatedKept(db, next, root, generation, files[i]);
    }
  }

  lemma FinishedRoots(db: Db, path: string, generation: nat, other: string)
    requires Ok(db) && Verified(db, path, generation) && FinishScan(db, path, generation).Success?
    requires RootAt(db.roots, other).Some?
    ensures var next := FinishScan(db, path, generation).value;
      && RootAt(db.roots, path).Some?
      && RootAt(next.roots, other) == RootAt(db.roots, other)
      && (RootAt(db.roots, other) == RootAt(db.roots, path) <==> other == path)
      && next.roots[RootAt(db.roots, other).value].active ==
           if other == path then generation else db.roots[RootAt(db.roots, other).value].active
  {
    hide TreeState, SoundsOk, LocationsOk, TabsOk, LegacyOk, CustomOk, OwnersOk, FinishScan, RootAt;
    FinishKeeps(db, path, generation);
    RootAtFinds(FinishScan(db, path, generation).value.roots, RootAt(db.roots, other).value);
  }

  /** Finishing a scan makes its root exact. */
  lemma FinishOwn(db: Db, path: string, generation: nat, files: seq<File>)
    requires Ok(db) && Verified(db, path, generation) && FinishScan(db, path, generation).Success? && StagedPresent(db)
    requires RootAt(db.roots, path).Some?
    requires StagedExactly(db, path, RootAt(db.roots, path).value, generation, files, |files|)
    ensures RootExact(FinishScan(db, path, generation).value, path, generation, files)
  {
    hide Ok, FinishScan, RootAt, StagedPresent, Located, Visited, StagedExactly, Verified;
    var next := FinishScan(db, path, generation).value;
    var root := RootAt(db.roots, path).value;
    FinishKeeps(db, path, generation);
    FinishRows(db, path, generation);
    FinishLosesNothing(db, path, generation);
    FinishedRoots(db, path, generation, path);
    StagedKept(db, next, path, root, generation, files);
  }

  /** Finishing a scan leaves the staged and the active rows of every other root alone. */
  lemma FinishOther(db: Db, path: string, generation: nat, other: string, g: nat, files: seq<File>)
    requires Ok(db) && Verified(db, path, generation) && FinishScan(db, path, generation).Success? && StagedPresent(db)
    requires other != path && RootAt(db.roots, other).Some?
    ensures var next := FinishScan(db, path, generation).value;
            var root := RootAt(db.roots, other).value;
      && RootAt(next.roots, other) == Some(root)
      && (StagedExactly(db, other, root, g, files, |files|) ==> StagedExactly(next, other, root, g, files, |files|))
      && (RootExact(db, other, g, files) ==> RootExact(next, other, g, files))
  {
    hide Ok, FinishScan, RootAt, StagedPresent, Located, Visited, StagedExactly, Verified;
    var next := FinishScan(db, path, generation).value;
    var root := RootAt(db.roots, other).value;
    FinishKeeps(db, path, generation);
    FinishRows(db, path, generation);
    FinishLosesNothing(db, path, generation);
    FinishedRoots(db, path, generation, other);
    if StagedExactly(db, other, root, g, files, |files|) {
      StagedKept(db, next, other, root, g, files);
    }
  }

  /** The first `n` scans are finished, the others are complete and still in progress. */
  ghost predicate Halfway(db: Db, generations: map<string, nat>, order: seq<string>, n: nat, files: seq<File>)
    requires n <= |order| && forall r :: r in order ==> r in generations
  {
    && Ok(db) && StagedPresent(db)
    && (forall i :: 0 <= i < n ==> RootExact(db, order[i], generations[order[i]], files) && order[i] !in db.scans)
    && (forall i :: n <= i < |order| ==> Unfinished(db, order[i], generations[order[i]], files))
  }

  /** A complete scan that has not been finished: its generation is staged, not active. */
  ghost predicate Unfinished(db: Db, path: string, generation: nat, files: seq<File>) {
    && Verified(db, path, generation) && RootAt(db.roots, path).Some?
    && StagedExactly(db, path, RootAt(db.roots, path).value, generation, files, |files|)
  }

  lemma FinishStep(db: Db, generations: map<string, nat>, order: seq<string>, n: nat, files: seq<File>)
    requires n < |order| && forall r :: r in order ==> r in generations
    requires forall i, j :: 0 <= i < j < |order| ==> order[i] != order[j]
    requires Halfway(db, generations, order, n, files)
    requires FinishScan(db, order[n], generations[order[n]]).Success?
    ensures Halfway(FinishScan(db, order[n], generations[order[n]]).value, generations, order, n + 1, files)
  {
    hide Ok, FinishScan, RootAt, StagedPresent, StagedExactly, RootExact;
    var path, generation := order[n], generations[order[n]];
    var next := FinishScan(db, path, generation).value;
    FinishKeeps(db, path, generation);
    FinishOwn(db, path, generation, files);
    FinishLosesNothing(db, path, generation);
    FinishScans(db, path, generation);
    forall i | 0 <= i < |order| && i != n
      ensures i < n ==> RootExact(next, order[i], generations[order[i]], files) && order[i] !in next.scans
      ensures n < i ==> Unfinished(next, order[i], generations[order[i]], files)
    {
      assert order[i] != path;
      assert i < n ==> RootAt(db.roots, order[i]).Some? by {
        if i < n { ExactRoot(db, order[i], generations[order[i]], files); }
      }
      FinishOther(db, path, generation, order[i], generations[order[i]], files);
    }
  }

  lemma ExactRoot(db: Db, path: string, generation: nat, files: seq<File>)
    requires RootExact(db, path, generation, files)
    ensures RootAt(db.roots, path).Some?
  {}

  lemma FinishScans(db: Db, path: string, generation: nat)
    requires Ok(db) && FinishScan(db, path, generation).Success?
    ensures FinishScan(db, path, generation).value.scans == db.scans - {path}
  {
    hide Ok, Reconcile, Convert, Stale, DropFolders;
    var root, reconciled, converted := FinishStages(db, path, generation);
    ActivateScans(converted, root, generation);
  }

  lemma ActivateScans(db: Db, root: nat, generation: nat)
    requires root in db.roots
    ensures Activate(db, root, generation).scans == db.scans
  {}

  datatype StopReason = Refused(error: LibraryError) | Superseded

  /**
   The finish loop: it stops at the first scan that cannot be finished, because the finish fails or
   because another begin has superseded the scan meanwhile.
   */
  method FinishAll(c: Connection, generations: map<string, nat>, ghost files: seq<File>, ghost ready: bool)
    returns (done: nat, stop: Option<StopReason>)
    requires ready ==> Halfway(c.db, generations, Order(generations), 0, files)
    modifies c
    ensures done <= |Order(generations)|
    ensures ready ==> Halfway(c.db, generations, Order(generations), done, files)
    ensures stop.None? <==> done == |Order(generations)|
    ensures stop.Some? ==>
      var path := Order(generations)[done];
      match stop.value
      case Refused(e) => Verified(c.db, path, generations[path])
        && FinishScan(c.db, path, generations[path]) == Failure(e)
      case Superseded => !Verified(c.db, path, generations[path])
  {
    hide Ok, FinishScan, RootExact, StagedPresent, StagedExactly, Order;
    var order := Order(generations);
    done := 0;
    while done < |order|
      invariant done <= |order|
      invariant ready ==> Halfway(c.db, generations, order, done, files)
    {
      var path := order[done];
      ghost var before := c.db;
      var finished := FinishRootScan(c, path, generations[path]);
      if finished.Failure? {
        return done, Some(Refused(finished.error));
      }
      if !finished.value {
        return done, Some(Superseded);
      }
      if ready {
        FinishStep(before, generations, order, done, files);
      }
      done := done + 1;
    }
    return done, None;
  }

  // ---- the whole refresh -------------------------------------------------------------------------------

  datatype Outcome = Refreshed | Abandoned(error: LibraryError) | Stopped(done: nat, reason: StopReason)

  /** The refresh is given up before anything is finished. */
  ghost predicate Abandons(db: Db, folders: seq<string>, walk: seq<Entry>, alarm: nat) {
    var files, v := Audio(walk, |walk|), VisitAll(walk, alarm);
    || alarm == 0 || (exists r :: r in folders && Exhausted(db, r)) || v.noticed
    || v.pushed > |files| || FilesRefused(db.sounds, (set r | r in folders), files, v.pushed)
  }

  /** The database with a scan begun for every root, and the generations handed out. */
  function Started(db: Db, folders: seq<string>): (Db, map<string, nat>) {
    var roots := Deduplicated(folders, |folders|);
    BeginEach(db, roots, |roots|)
  }

  lemma StartedBegins(db: Db, folders: seq<string>, files: seq<File>)
    requires Ok(db)
    ensures var (next, generations) := Started(db, folders);
      && Ok(next) && Begun(next, generations) && SameView(db, next)
      && next == db.(roots := next.roots, scans := next.scans)
      && AllStaged(next, generations, files, 0)
      && (StagedPresent(db) ==> StagedPresent(next))
      && (forall r :: r in generations <==> r in folders)
      && var roots := Deduplicated(folders, |folders|);
         RootsListed(db.roots, next.roots, roots, |roots|)
  {
    hide Ok, Begun, SameView, AllStaged, StagedPresent, BeginEach, RootsListed;
    var roots := Deduplicated(folders, |folders|);
    BeginEachLists(db, roots, |roots|);
    DeduplicatedSame(folders, |folders|);
    BeginEachBegins(db, roots, |roots|, files);
    assert folders[..|folders|] == folders && roots[..|roots|] == roots;
  }

  /** The begin of some root finds no generation left to hand out. */
  predicate Overflows(db: Db, roots: seq<string>, n: nat)
    requires n <= |roots|
  {
    exists i | 0 <= i < n :: TryBegin(BeginEach(db, roots, i).0, roots[i], i).Failure?
  }

  lemma BeginKeepsExhausted(db: Db, path: string, position: int, other: string)
    requires Ok(db)
    ensures Exhausted(BeginScan(db, path, position).0, other) <==> Exhausted(db, other)
  {
    hide TreeOk, ClosureExact, PresenceOk, PresenceNew, SoundsOk, TabsOk, LegacyOk, CustomOk, OwnersOk, Generations,
         UpsertRoot;
    UpsertedRoots(db, path, position);
    var next := BeginScan(db, path, position).0;
    assert next.roots == UpsertRoot(db.roots, path, position).0;
  }

  lemma {:induction false} BegunExhausted(db: Db, roots: seq<string>, n: nat, other: string)
    requires Ok(db) && n <= |roots|
    ensures Exhausted(BeginEach(db, roots, n).0, other) <==> Exhausted(db, other)
  {
    hide Ok, BeginScan, SameView, Exhausted, Begun, AllStaged, StagedPresent;
    if n > 0 {
      BeginEachBegins(db, roots, n - 1, []);
      BegunExhausted(db, roots, n - 1, other);
      BeginKeepsExhausted(BeginEach(db, roots, n - 1).0, roots[n - 1], n - 1, other);
    }
  }

  /** The begins of these roots come to an error if and only if one of them has used up its generations. */
  lemma OverflowsExactly(db: Db, roots: seq<string>, n: nat)
    requires Ok(db) && n <= |roots|
    ensures Overflows(db, roots, n) <==> exists r :: r in roots[..n] && Exhausted(db, r)
  {
    hide Ok, BeginEach, TryBegin, Exhausted, SameView, Begun, AllStaged, StagedPresent;
    forall i | 0 <= i < n
      ensures TryBegin(BeginEach(db, roots, i).0, roots[i], i).Failure? <==> Exhausted(db, roots[i])
    {
      BeginEachBegins(db, roots, i, []);
      BegunExhausted(db, roots, i, roots[i]);
      BeginRefusedExactly(BeginEach(db, roots, i).0, roots[i], i);
    }
    assert forall i :: 0 <= i < n ==> roots[..n][i] == roots[i];
  }

  method CancelBegun(c: Connection, ghost start: Db, ghost roots: seq<string>, ghost n: nat,
                     generations: map<string, nat>)
    requires Ok(start) && n <= |roots| && (c.db, generations) == BeginEach(start, roots, n)
    modifies c
    ensures Ok(c.db) && SameView(start, c.db) && (StagedPresent(start) ==> StagedPresent(c.db))
    ensures c.db.folders == start.folders && c.db.sounds == start.sounds
    ensures RootsListed(start.roots, c.db.roots, roots, n)
    ensures forall r :: r in generations ==> r !in c.db.scans && r in roots[..n]
  {
    hide Ok, SameView, Begun, AllStaged, StagedPresent, BeginEach, RootsListed;
    BeginEachBegins(start, roots, n, []);
    BeginEachLists(start, roots, n);
    AllVerified(c.db, generations);
    CancelAll(c, generations);
    SameViewTransitive(start, old(c.db), c.db);
  }

  /** A begin that fails cancels the scans already begun; their roots stay on the list, in their new places. */
  method BeginScans(c: Connection, folders: seq<string>)
    returns (generations: map<string, nat>, failed: Option<LibraryError>, ghost begun: nat)
    requires Ok(c.db)
    modifies c
    ensures begun <= |Deduplicated(folders, |folders|)|
    ensures failed.None? ==> begun == |Deduplicated(folders, |folders|)|
    ensures RootsListed(old(c.db.roots), c.db.roots, Deduplicated(folders, |folders|), begun)
    ensures failed.Some? <==> exists r :: r in folders && old(Exhausted(c.db, r))
    ensures failed.None? ==> (c.db, generations) == Started(old(c.db), folders)
    ensures failed.Some? ==>
      && Ok(c.db) && SameView(old(c.db), c.db) && (old(StagedPresent(c.db)) ==> StagedPresent(c.db))
      && c.db.folders == old(c.db.folders) && c.db.sounds == old(c.db.sounds)
      && forall r :: r in generations ==> r !in c.db.scans
  {
    hide BeginScan, Ok, SameView, Begun, AllStaged, StagedPresent, RootsListed, BeginEach, Overflows, Exhausted;
    var roots := [];
    for index := 0 to |folders|
      invariant roots == Deduplicated(folders, index)
    {
      if folders[index] !in roots {
        roots := roots + [folders[index]];
      }
    }
    generations := map[];
    BeginNone(c.db, roots);
    OverflowsExactly(c.db, roots, |roots|);
    DeduplicatedSame(folders, |folders|);
    assert folders[..|folders|] == folders && roots[..|roots|] == roots;
    for position := 0 to |roots|
      invariant (c.db, generations) == BeginEach(old(c.db), roots, position)
      invariant !Overflows(old(c.db), roots, position)
    {
      BeginNext(old(c.db), roots, position);
      var answer := BeginRootScan(c, roots[position], position);
      if answer.Failure? {
        CancelBegun(c, old(c.db), roots, position, generations);
        return generations, Some(answer.error), position;
      }
      generations := generations[roots[position] := answer.value];
    }
    BeginEachLists(old(c.db), roots, |roots|);
    return generations, None, |roots|;
  }

  lemma BeginNone(db: Db, roots: seq<string>)
    ensures BeginEach(db, roots, 0) == (db, map[]) && !Overflows(db, roots, 0)
  {}

  lemma BeginNext(db: Db, roots: seq<string>, n: nat)
    requires n < |roots|
    ensures var (prior, generations) := BeginEach(db, roots, n);
      && BeginEach(db, roots, n + 1)
         == (BeginScan(prior, roots[n], n).0, generations[roots[n] := BeginScan(prior, roots[n], n).1])
      && (Overflows(db, roots, n + 1) <==> Overflows(db, roots, n) || TryBegin(prior, roots[n], n).Failure?)
      && (Overflows(db, roots, n + 1) ==> Overflows(db, roots, |roots|))
  {
    hide BeginScan;
  }

  lemma SameFolders(folders: map<nat, Folder>)
    ensures SameLabels(folders, folders)
  {}

  lemma ViewLabels(db: Db, next: Db)
    requires SameView(db, next) && PlainTree(db.folders) && PlainTree(next.folders)
    ensures SameLabels(db.folders, next.folders)
  {
    hide PlainTree, LiveByRows, OnShow, Effective;
    PlainLabels(db.folders, next.folders);
  }

  /** The live sounds are as before, but for those that lived by their flag alone and were scanned. */
  ghost predicate HidesOnly(db: Db, next: Db, files: seq<File>, n: nat)
    requires n <= |files|
  {
    forall s :: Live(next, s) <==> Live(db, s) && (LiveByRows(db, s) || Unvisited(files, n, db.sounds[s].path))
  }

  lemma HidesNothing(db: Db, next: Db, files: seq<File>)
    requires Ok(db) && SameView(db, next) && next.sounds == db.sounds
    ensures HidesOnly(db, next, files, 0)
  {
    hide Ok, SameView, LiveByRows;
    forall s ensures LiveByRows(next, s) <==> LiveByRows(db, s) { SameRows(db, next, s); }
  }

  lemma VisitHides(db: Db, started: Db, next: Db, generations: map<string, nat>, files: seq<File>, n: nat)
    requires Ok(db) && SameView(db, next) && started.sounds == db.sounds && n <= |files|
    requires Ok(started) && Begun(started, generations) && ScanEach(started, generations, files, n).Success?
    requires next.sounds == ScanEach(started, generations, files, n).value.sounds
    ensures HidesOnly(db, next, files, n)
  {
    hide Ok, SameView, LiveByRows, ScanEach, Begun, Unvisited;
    forall s
      ensures Live(next, s) <==> Live(db, s) && (LiveByRows(db, s) || Unvisited(files, n, db.sounds[s].path))
    {
      SameRows(db, next, s);
      if s in db.sounds {
        ScanEachFlag(started, generations, files, n, s);
      } else {
        NotLive(db, s);
        NewFlag(db, next, s);
      }
    }
  }

  lemma AllVerified(db: Db, generations: map<string, nat>)
    requires Begun(db, generations)
    ensures forall r :: r in generations ==> Verified(db, r, generations[r])
  {
    hide RootAt;
  }

  lemma ReadyToFinish(db: Db, generations: map<string, nat>, files: seq<File>)
    requires Ok(db) && Begun(db, generations) && StagedPresent(db) && AllStaged(db, generations, files, |files|)
    ensures Halfway(db, generations, Order(generations), 0, files)
  {
    hide Ok, RootAt, StagedPresent, StagedExactly, RootExact;
  }

  /**
   The refresh command over a walk of the folders, whose files come once under each root, with a
   cancellation flag.

   It is abandoned exactly when it is cancelled before it begins, some folder has used up its
   generations, a cancellation is noticed, or a file to be pushed has no scan, lies too deep, does not
   fit its columns or has the public id of another path; then everything on show is as before and no scan is left,
   but the first `begun` roots are on the list in their places, and of the first `flushed` files the
   standalone ones are hidden. When it completes, every root holds exactly the files that were pushed,
   which are all of them unless the flag went up just before the last batch was probed. When a finish
   fails, the roots before it (in path order) are exact, and it and the ones after it keep their old
   active rows and a complete scan in progress.
   */
  method RefreshSounds(c: Connection, folders: seq<string>, walk: seq<Entry>, flag: Flag)
    returns (outcome: Outcome, generations: map<string, nat>, ghost begun: nat, ghost flushed: nat)
    requires Ok(c.db) && StagedPresent(c.db) && "" !in folders && DistinctPaths(Audio(walk, |walk|)) && flag.clock == 0
    modifies c, flag
    ensures Ok(c.db) && StagedPresent(c.db)
    ensures outcome.Abandoned? <==> Abandons(old(c.db), folders, walk, flag.alarm)
    ensures !outcome.Abandoned? ==>
      generations == Started(old(c.db), folders).1 && forall r :: r in folders ==> r in generations
    ensures outcome.Abandoned? ==> SameView(old(c.db), c.db) && forall r :: r in generations ==> r !in c.db.scans
    ensures begun <= |Deduplicated(folders, |folders|)| && flushed <= |Audio(walk, |walk|)|
    ensures outcome.Abandoned? ==>
      && RootsListed(old(c.db.roots), c.db.roots, Deduplicated(folders, |folders|), begun)
      && HidesOnly(old(c.db), c.db, Audio(walk, |walk|), flushed)
    ensures outcome.Abandoned? && old(PlainTree(c.db.folders)) ==> SameLabels(old(c.db.folders), c.db.folders)
    ensures !outcome.Abandoned? ==> flushed == VisitAll(walk, flag.alarm).pushed
    ensures outcome.Refreshed? ==>
      forall r :: r in folders ==>
        && r in generations && r !in c.db.scans
        && RootExact(c.db, r, generations[r], Audio(walk, |walk|)[..flushed])
    ensures outcome.Stopped? ==>
      && outcome.done < |Order(generations)|
      && Halfway(c.db, generations, Order(generations), outcome.done, Audio(walk, |walk|)[..flushed])
      && var path := Order(generations)[outcome.done];
         FinishScan(c.db, path, generations[path]).Failure?
  {
    hide Ok, SameView, StagedPresent, Begun, AllStaged, DistinctPaths, ScanEach, FinishScan, RootExact, Process, Audio,
         Started, Order, RootAt, StagedExactly, Exhausted, Deduplicated, PlainTree, SameLabels, RootsListed, HidesOnly,
         FilesRefused;
    generations, begun, flushed := map[], 0, 0;
    ghost var files := Audio(walk, |walk|);
    StartedBegins(c.db, folders, files);
    VisitedFits(walk, flag.alarm);
    SameFolders(c.db.folders);
    NothingChanges(c.db, Deduplicated(folders, |folders|), files);
    var raised := flag.Load();
    if raised {
      return Abandoned(InvalidData), generations, 0, 0;
    }
    var overflow: Option<LibraryError>;
    generations, overflow, begun := BeginScans(c, folders);
    if overflow.Some? {
      HidesNothing(old(c.db), c.db, files);
      return Abandoned(overflow.value), generations, begun, 0;
    }
    ghost var started := c.db;
    var failed: Option<LibraryError>;
    failed, flushed := VisitFiles(c, generations, walk, flag);
    assert generations.Keys == set r | r in folders;
    ScanEachFailsExactly(started, generations, files, VisitAll(walk, flag.alarm).pushed);
    ScanEachExact(started, generations, files, flushed);
    if failed.Some? {
      AllVerified(c.db, generations);
      ghost var visited := c.db;
      CancelAll(c, generations);
      SameViewTransitive(old(c.db), started, visited);
      SameViewTransitive(old(c.db), visited, c.db);
      VisitHides(old(c.db), started, c.db, generations, files, flushed);
      if PlainTree(old(c.db.folders)) {
        ViewLabels(old(c.db), c.db);
      }
      return Abandoned(failed.value), generations, begun, flushed;
    }
    PushedStaged(started, generations, files, flushed);
    ReadyToFinish(c.db, generations, files[..flushed]);
    var done, stop := FinishAll(c, generations, files[..flushed], true);
    if stop.Some? {
      ghost var path := Order(generations)[done];
      assert Verified(c.db, path, generations[path]);
      return Stopped(done, stop.value), generations, begun, flushed;
    }
    return Refreshed, generations, begun, flushed;
  }

  lemma NothingChanges(db: Db, order: seq<string>, files: seq<File>)
    requires Ok(db)
    ensures SameView(db, db) && RootsListed(db.roots, db.roots, order, 0) && HidesOnly(db, db, files, 0)
  {
    hide Ok, SameView;
    SameViewSelf(db);
    HidesNothing(db, db, files);
  }

  /** Scanning the first files of a walk stages exactly them. */
  lemma PushedStaged(db: Db, generations: map<string, nat>, files: seq<File>, n: nat)
    requires n <= |files| && Ok(db) && Begun(db, generations) && AllStaged(db, generations, files, 0)
    requires DistinctPaths(files) && ScanEach(db, generations, files, n).Success?
    ensures var next := ScanEach(db, generations, files, n).value;
      AllStaged(next, generations, files[..n], |files[..n]|) && DistinctPaths(files[..n])
  {
    hide Ok, Begun, ScanEach, RootAt, Located;
    ScanEachExact(db, generations, files, n);
    var next := ScanEach(db, generations, files, n).value;
    forall r | r in generations && RootAt(next.roots, r).Some?
      && StagedExactly(next, r, RootAt(next.roots, r).value, generations[r], files, n)
      ensures StagedExactly(next, r, RootAt(next.roots, r).value, generations[r], files[..n], |files[..n]|)
    {
      StagedPrefix(next, r, RootAt(next.roots, r).value, generations[r], files, n);
    }
  }

  lemma StagedPrefix(db: Db, path: string, root: nat, generation: nat, files: seq<File>, n: nat)
    requires n <= |files| && StagedExactly(db, path, root, generation, files, n)
    ensures StagedExactly(db, path, root, generation, files[..n], |files[..n]|)
  {
    hide Located;
    forall p ensures Visited(path, p, files, n) <==> Visited(path, p, files[..n], |files[..n]|) {}
  }

  // ---- batch boundaries ----------------------------------------------------------------------------------

  function AllFolders(path: string, files: seq<File>, n: nat): seq<FolderRow>
    requires n <= |files|
  {
    if n == 0 then [] else WithFolder(path, AllFolders(path, files, n - 1), files[n - 1].folder)
  }

  function AllSounds(path: string, files: seq<File>, n: nat): seq<SoundRow>
    requires n <= |files|
  {
    if n == 0 then [] else AllSounds(path, files, n - 1) + [SoundOf(path, files[n - 1], n - 1)]
  }

  lemma {:induction false} AllPlain(path: string, files: seq<File>, n: nat)
    requires n <= |files|
    ensures Plain(path, AllFolders(path, files, n))
    ensures Anchored(path, AllFolders(path, files, n), AllSounds(path, files, n))
  {
    hide Plain, Anchored, SoundOf, WithFolder;
    if n == 0 {
      EmptyPending(path);
    } else {
      AllPlain(path, files, n - 1);
      PushAnchored(path, AllFolders(path, files, n - 1), AllSounds(path, files, n - 1), files[n - 1], n - 1);
    }
  }

  /**
   Batch boundaries do not matter: one unbounded batch with every folder and every sound of a root
   leaves the same database as the row-bounded batches, or fails when they do.
   */
  lemma {:induction false} OneBatchIsAll(db: Db, path: string, generations: map<string, nat>, files: seq<File>, n: nat)
    requires Ok(db) && Begun(db, generations) && path in generations && n <= |files|
    requires forall i :: 0 <= i < n ==> files[i].root == path && 2 + |files[i].folder| <= MAX_BATCH_ROWS
    ensures match ScanEach(db, generations, files, n)
      case Success(next) =>
        SettledBy(db, path, generations[path], AllFolders(path, files, n), AllSounds(path, files, n)) == Success(next)
      case Failure(_) =>
        SettledBy(db, path, generations[path], AllFolders(path, files, n), AllSounds(path, files, n)).Failure?
  {
    hide Ok, Begun, SettledBy, Plain, Anchored, SoundOf, WithFolder, ScanFile, RootAt, Verified;
    if n == 0 {
      SettledNone(db, path, generations[path]);
    } else {
      var folders, sounds := AllFolders(path, files, n - 1), AllSounds(path, files, n - 1);
      OneBatchIsAll(db, path, generations, files, n - 1);
      BegunVerified(db, generations, path);
      AllPlain(path, files, n - 1);
      AllPlain(path, files, n);
      if SettledBy(db, path, generations[path], folders, sounds).Success? {
        PushSettles(db, path, generations[path], folders, sounds, files[n - 1], n - 1);
        ScanEachQuiet(db, generations, files, n - 1);
      } else {
        FailureStays(db, path, generations[path], folders, sounds, AllFolders(path, files, n),
          SoundOf(path, files[n - 1], n - 1));
      }
    }
  }
}
