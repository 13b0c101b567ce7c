/**
 What every run of the upgrade keeps, whatever errors, kills and power losses fall between its
 steps: the original settings are never lost, nothing half done is ever published, every start
 knows what to do, and an undisturbed run completes with the same settings.
 */
module UpgradeSafety {
  import opened Wrappers
  import opened Tables
  import opened Disk
  import opened Upgrade
  import opened ImportOrder

  // ---- the directories a crash may leave ----------------------------------------------------------

  /** The file's contents are on the disk. */
  ghost predicate Holds(inodes: map<nat, Inode>, dir: Directory, name: Name, content: Content) {
    name in dir && dir[name] in inodes && inodes[dir[name]] == Inode(content, true)
  }

  /**
   The import takes the whole document: it names a legacy version and has settings that the ladder
   takes, its sounds fit the table and their hotkeys the batches, and the rest is taken too.
   */
  ghost predicate Importable(t: Tools, doc: Doc) {
    && doc.version.Some? && doc.version.value <= 7 && doc.settings.Some?
    && t.migrate(doc.settings.value, doc.version.value).Some?
    && Fits(doc.sounds) && Aligned(doc.sounds, |doc.sounds|) && t.importsRest(doc)
  }

  lemma ImportableIs(t: Tools, doc: Doc)
    ensures Importable(t, doc) <==> ImportedSettings(t, doc).Some? && Imports(t, doc)
  {
    hide Fits, Aligned;
  }

  /** The import takes the document and hands over these settings. */
  ghost predicate Accepts(t: Tools, doc: Doc, settings: string) {
    Importable(t, doc) && ImportedSettings(t, doc) == Some(settings)
  }

  ghost function Upgraded(t: Tools, doc: Doc): Content
    requires Importable(t, doc)
  {
    ConfigDoc(Doc(Some(8), Some(Written(t.withoutHotkeys(t.migrate(doc.settings.value, doc.version.value).value))), [],
                  ""))
  }

  lemma AcceptsIs(t: Tools, doc: Doc, settings: string)
    requires Accepts(t, doc, settings)
    ensures NewConfig(settings) == Upgraded(t, doc)
  {
    hide Fits, Aligned;
  }

  ghost function Finished(doc: Doc): Content {
    Library(Some(doc), true, true, true)
  }

  /**
   A safe directory: config.json is the original or, once the library is published, the upgraded
   one; the library is published complete and only over a backup; the backup is the original.
   */
  ghost predicate Safe(t: Tools, doc: Doc, inodes: map<nat, Inode>, dir: Directory) {
    && (forall n :: n in dir ==> dir[n] in inodes)
    && (Holds(inodes, dir, ConfigFile, ConfigDoc(doc))
        || (LibraryFile in dir && Importable(t, doc) && Holds(inodes, dir, ConfigFile, Upgraded(t, doc))))
    && (BackupFile in dir ==> Holds(inodes, dir, BackupFile, ConfigDoc(doc)))
    && (LibraryFile in dir ==>
          Holds(inodes, dir, LibraryFile, Finished(doc)) && BackupFile in dir && Importable(t, doc))
  }

  /** Every directory a crash could leave is safe. */
  ghost predicate DiskSafe(t: Tools, doc: Doc, disk: Disk) {
    forall k :: 0 <= k <= |disk.journal| ==> Safe(t, doc, disk.inodes, DirAfter(disk, k))
  }

  lemma NowSafe(t: Tools, doc: Doc, disk: Disk)
    requires DiskSafe(t, doc, disk)
    ensures Safe(t, doc, disk.inodes, Dir(disk))
  {
    hide Safe;
    WholeJournal(disk);
    assert Safe(t, doc, disk.inodes, DirAfter(disk, |disk.journal|));
  }

  lemma PerformSafe(t: Tools, doc: Doc, disk: Disk, op: DirOp)
    requires DiskSafe(t, doc, disk) && Safe(t, doc, disk.inodes, Apply(Dir(disk), op))
    ensures DiskSafe(t, doc, Perform(disk, op)) && Dir(Perform(disk, op)) == Apply(Dir(disk), op)
  {
    hide Safe, DirAfter, Dir, Apply;
    PerformDir(disk, op);
    forall k | 0 <= k <= |disk.journal| + 1 ensures Safe(t, doc, disk.inodes, DirAfter(Perform(disk, op), k)) {
      assert k <= |disk.journal| ==> Safe(t, doc, disk.inodes, DirAfter(disk, k));
    }
  }

  lemma SyncDirSafe(t: Tools, doc: Doc, disk: Disk)
    requires DiskSafe(t, doc, disk)
    ensures DiskSafe(t, doc, SyncDir(disk)) && Dir(SyncDir(disk)) == Dir(disk)
  {
    hide Safe, Dir;
    NowSafe(t, doc, disk);
    WholeJournal(disk);
    forall k | 0 <= k <= |SyncDir(disk).journal| ensures Safe(t, doc, disk.inodes, DirAfter(SyncDir(disk), k)) {}
  }

  /** Inodes that are not synced are not published, so they may change; new ones may appear. */
  ghost predicate Spares(inodes: map<nat, Inode>, next: map<nat, Inode>) {
    forall i :: i in inodes ==> i in next && (inodes[i].synced ==> next[i] == inodes[i])
  }

  lemma SparesSafe(t: Tools, doc: Doc, disk: Disk, inodes: map<nat, Inode>)
    requires DiskSafe(t, doc, disk) && Spares(disk.inodes, inodes)
    ensures DiskSafe(t, doc, disk.(inodes := inodes)) && Dir(disk.(inodes := inodes)) == Dir(disk)
  {
    hide Importable;
    var next := disk.(inodes := inodes);
    forall k | 0 <= k <= |next.journal| ensures Safe(t, doc, inodes, DirAfter(next, k)) {
      assert DirAfter(next, k) == DirAfter(disk, k);
      assert Safe(t, doc, disk.inodes, DirAfter(disk, k));
    }
  }

  predicate Scratch(name: Name) {
    name == BackupCandidate || name == LibraryCandidate || name == ConfigTemp
  }

  /** The published names stand for the same files. */
  ghost predicate SamePublished(dir: Directory, next: Directory) {
    forall n: Name :: !Scratch(n) ==> (n in dir <==> n in next) && (n in dir ==> next[n] == dir[n])
  }

  lemma ScratchSafe(t: Tools, doc: Doc, inodes: map<nat, Inode>, dir: Directory, next: Directory)
    requires Safe(t, doc, inodes, dir) && SamePublished(dir, next)
    requires forall n :: n in next ==> next[n] in inodes
    ensures Safe(t, doc, inodes, next)
  {
    hide Importable;
  }

  lemma CreateSafe(t: Tools, doc: Doc, disk: Disk, name: Name, content: Content)
    requires DiskSafe(t, doc, disk) && Scratch(name)
    ensures var next := Create(disk, name, content);
      && DiskSafe(t, doc, next) && SamePublished(Dir(disk), Dir(next)) && Spares(disk.inodes, next.inodes)
      && name in Dir(next) && Dir(next)[name] in next.inodes && next.inodes[Dir(next)[name]] == Inode(content, false)
  {
    hide Safe, Dir, DirAfter, DiskSafe;
    var id := NewInode(disk);
    var grown := disk.(inodes := disk.inodes[id := Inode(content, false)]);
    SparesSafe(t, doc, disk, grown.inodes);
    NowSafe(t, doc, grown);
    SafeInodes(t, doc, grown.inodes, Dir(grown));
    ScratchSafe(t, doc, grown.inodes, Dir(grown), Apply(Dir(grown), Bind(name, id)));
    PerformSafe(t, doc, grown, Bind(name, id));
  }

  lemma SafeInodes(t: Tools, doc: Doc, inodes: map<nat, Inode>, dir: Directory)
    requires Safe(t, doc, inodes, dir)
    ensures forall n :: n in dir ==> dir[n] in inodes
  {}

  lemma RemoveSafe(t: Tools, doc: Doc, disk: Disk, name: Name)
    requires DiskSafe(t, doc, disk) && Scratch(name)
    ensures var next := Remove(disk, name);
      DiskSafe(t, doc, next) && SamePublished(Dir(disk), Dir(next)) && next.inodes == disk.inodes
  {
    hide Safe, Dir, DirAfter, DiskSafe;
    if name in Dir(disk) {
      NowSafe(t, doc, disk);
      SafeInodes(t, doc, disk.inodes, Dir(disk));
      ScratchSafe(t, doc, disk.inodes, Dir(disk), Apply(Dir(disk), Unbind(name)));
      PerformSafe(t, doc, disk, Unbind(name));
    }
  }

  lemma RemoveStaleSafe(t: Tools, doc: Doc, disk: Disk, name: Name)
    requires DiskSafe(t, doc, disk) && Scratch(name)
    ensures var next := RemoveStale(disk, name);
      DiskSafe(t, doc, next) && SamePublished(Dir(disk), Dir(next)) && next.inodes == disk.inodes
  {
    hide Safe, Dir, DirAfter, DiskSafe;
    RemoveSafe(t, doc, disk, name);
    SyncDirSafe(t, doc, Remove(disk, name));
  }

  /** An unsynced file is a scratch file, and finishing it changes no published one. */
  lemma RewriteSafe(t: Tools, doc: Doc, disk: Disk, name: Name, inode: Inode)
    requires DiskSafe(t, doc, disk) && name in Dir(disk) && Dir(disk)[name] in disk.inodes
    requires !disk.inodes[Dir(disk)[name]].synced
    ensures var next := Rewrite(disk, name, inode);
      && DiskSafe(t, doc, next) && Dir(next) == Dir(disk) && Spares(disk.inodes, next.inodes)
      && Dir(next)[name] in next.inodes && next.inodes[Dir(next)[name]] == inode
  {
    hide DiskSafe, Dir;
    SparesSafe(t, doc, disk, Rewrite(disk, name, inode).inodes);
  }

  lemma CrashSafe(t: Tools, doc: Doc, disk: Disk, kept: nat, found: map<nat, Content>)
    requires DiskSafe(t, doc, disk) && kept <= |disk.journal|
    ensures DiskSafe(t, doc, Crash(disk, kept, found))
  {
    hide DirAfter;
    var next := Crash(disk, kept, found);
    assert Safe(t, doc, disk.inodes, DirAfter(disk, kept));
    CrashedSafe(t, doc, disk.inodes, next.inodes, DirAfter(disk, kept));
    WholeJournal(next);
    assert DirAfter(next, 0) == DirAfter(disk, kept) by { assert Dir(next) == next.durable; }
  }

  lemma CrashedSafe(t: Tools, doc: Doc, inodes: map<nat, Inode>, next: map<nat, Inode>, dir: Directory)
    requires Safe(t, doc, inodes, dir) && Spares(inodes, next)
    ensures Safe(t, doc, next, dir)
  {
    hide Importable;
  }

  // ---- what each phase knows -------------------------------------------------------------------------

  ghost predicate ConfigIs(disk: Disk, content: Content) {
    Holds(disk.inodes, Dir(disk), ConfigFile, content)
  }

  /** The scratch file holds this, synced or not. */
  ghost predicate ScratchHolds(disk: Disk, name: Name, inode: Inode) {
    name in Dir(disk) && Dir(disk)[name] in disk.inodes && disk.inodes[Dir(disk)[name]] == inode
  }

  /** Facts that hold on the way, phase by phase. */
  ghost predicate PhaseKnows(t: Tools, doc: Doc, m: Machine) {
    var original := ConfigIs(m.disk, ConfigDoc(doc));
    var backed := BackupFile in Dir(m.disk);
    var published := LibraryFile in Dir(m.disk);
    match m.phase
    case Off | Refused => true
    case Recovering | CreateLibrary(_) | MarkReady(_) | SyncNewLibrary(_) => false
    case Done => published && Importable(t, doc) && ConfigIs(m.disk, Upgraded(t, doc))
    case Asking | Checking => original && !published
    case CopyBackup(e) => original && !published && e == ConfigDoc(doc)
    case SyncBackup(e) =>
      original && !published && e == ConfigDoc(doc) && ScratchHolds(m.disk, BackupCandidate, Inode(e, false))
    case PublishBackup(e) =>
      original && !published && e == ConfigDoc(doc) && ScratchHolds(m.disk, BackupCandidate, Inode(e, true))
    case SyncBackupDir(e) => original && !published && backed && e == ConfigDoc(doc)
    case Import(e) => original && !published && backed && e == ConfigDoc(doc)
    case Finalize(e, s) =>
      && original && !published && backed && e == ConfigDoc(doc) && Accepts(t, doc, s)
      && ScratchHolds(m.disk, LibraryCandidate, Inode(Library(None, true, false, true), false))
    case PublishLibrary(e, s) =>
      && original && !published && backed && e == ConfigDoc(doc) && Accepts(t, doc, s)
      && ScratchHolds(m.disk, LibraryCandidate, Inode(Finished(doc), true))
    case SyncLibraryDir(s) => original && published && Accepts(t, doc, s)
    case Matching => original && published
    case WriteTemp(s, _) => original && published && Accepts(t, doc, s)
    case SyncTemp(_) =>
      original && published && Importable(t, doc) && ScratchHolds(m.disk, ConfigTemp, Inode(Upgraded(t, doc), false))
    case PublishConfig(_) =>
      original && published && Importable(t, doc) && ScratchHolds(m.disk, ConfigTemp, Inode(Upgraded(t, doc), true))
    case SyncConfigDir(_) | Verify(_) => published && Importable(t, doc) && ConfigIs(m.disk, Upgraded(t, doc))
  }

  ghost predicate MachineOk(t: Tools, doc: Doc, m: Machine) {
    DiskSafe(t, doc, m.disk) && PhaseKnows(t, doc, m)
  }

  // ---- one step ----------------------------------------------------------------------------------------

  /** The published files are as they were. */
  ghost predicate Undisturbed(disk: Disk, next: Disk) {
    SamePublished(Dir(disk), Dir(next)) && Spares(disk.inodes, next.inodes)
  }

  lemma StaysPut(disk: Disk, next: Disk)
    requires Undisturbed(disk, next)
    ensures forall c :: ConfigIs(disk, c) ==> ConfigIs(next, c)
    ensures BackupFile in Dir(next) <==> BackupFile in Dir(disk)
    ensures LibraryFile in Dir(next) <==> LibraryFile in Dir(disk)
  {
    hide Dir;
  }

  lemma ReadsConfig(disk: Disk, content: Content)
    requires ConfigIs(disk, content)
    ensures Read(disk, ConfigFile) == Some(content)
  {
    hide Dir;
  }

  lemma ReadsScratch(disk: Disk, name: Name, inode: Inode)
    requires ScratchHolds(disk, name, inode)
    ensures Read(disk, name) == Some(inode.content)
  {
    hide Dir;
  }

  lemma ReadsSafe(t: Tools, doc: Doc, disk: Disk)
    requires DiskSafe(t, doc, disk)
    ensures Read(disk, BackupFile) == if BackupFile in Dir(disk) then Some(ConfigDoc(doc)) else None
    ensures Read(disk, LibraryFile) == if LibraryFile in Dir(disk) then Some(Finished(doc)) else None
    ensures LibraryFile in Dir(disk) ==> BackupFile in Dir(disk) && Importable(t, doc)
    ensures
      || ConfigIs(disk, ConfigDoc(doc))
      || (LibraryFile in Dir(disk) && Importable(t, doc) && ConfigIs(disk, Upgraded(t, doc)))
  {
    hide Dir, DiskSafe, Importable;
    NowSafe(t, doc, disk);
  }

  lemma CheckingKeeps(t: Tools, doc: Doc, m: Machine)
    requires MachineOk(t, doc, m) && m.phase == Checking
    ensures MachineOk(t, doc, Go(t, m)) && Go(t, m).phase != Refused
  {
    hide Dir, DiskSafe, Safe, Read, ConfigIs, Importable, Spares, SamePublished, RemoveStale;
    ReadsConfig(m.disk, ConfigDoc(doc));
    ReadsSafe(t, doc, m.disk);
    RemoveStaleSafe(t, doc, m.disk, BackupCandidate);
    SparesSelf(m.disk.inodes);
    StaysPut(m.disk, RemoveStale(m.disk, BackupCandidate));
  }

  lemma SparesSelf(inodes: map<nat, Inode>)
    ensures Spares(inodes, inodes)
  {}

  lemma CopyBackupKeeps(t: Tools, doc: Doc, m: Machine)
    requires MachineOk(t, doc, m) && m.phase.CopyBackup?
    ensures MachineOk(t, doc, Go(t, m)) && Go(t, m).phase != Refused
  {
    hide Dir, DiskSafe, Safe, Read, ConfigIs, Importable, Spares, SamePublished, Create;
    ReadsConfig(m.disk, ConfigDoc(doc));
    CreateSafe(t, doc, m.disk, BackupCandidate, ConfigDoc(doc));
    StaysPut(m.disk, Create(m.disk, BackupCandidate, ConfigDoc(doc)));
  }

  /** Syncing a scratch file. */
  lemma SyncScratch(t: Tools, doc: Doc, disk: Disk, name: Name, content: Content)
    requires DiskSafe(t, doc, disk) && ScratchHolds(disk, name, Inode(content, false))
    ensures var next := SyncFile(disk, name);
      DiskSafe(t, doc, next) && Undisturbed(disk, next) && ScratchHolds(next, name, Inode(content, true))
  {
    hide Dir, DiskSafe, Rewrite, Spares;
    RewriteSafe(t, doc, disk, name, Inode(content, true));
  }

  lemma SyncBackupKeeps(t: Tools, doc: Doc, m: Machine)
    requires MachineOk(t, doc, m) && m.phase.SyncBackup?
    ensures MachineOk(t, doc, Go(t, m)) && Go(t, m).phase != Refused
  {
    hide Dir, DiskSafe, ConfigIs, Importable, Undisturbed, SyncFile, ScratchHolds;
    SyncScratch(t, doc, m.disk, BackupCandidate, ConfigDoc(doc));
    StaysPut(m.disk, Go(t, m).disk);
  }

  /** Publishing a synced scratch file under a name. */
  lemma PublishDir(disk: Disk, from: Name, to: Name, inode: Inode)
    requires ScratchHolds(disk, from, inode) && Scratch(from) && !Scratch(to)
    ensures var dir := Apply(Dir(disk), Rename(from, to));
      && to in dir && dir[to] == Dir(disk)[from] && dir[to] in disk.inodes && disk.inodes[dir[to]] == inode
      && (forall n: Name :: n != from && n != to ==>
           (n in dir <==> n in Dir(disk)) && (n in dir ==> dir[n] == Dir(disk)[n]))
      && from !in dir
  {
    hide Dir;
  }

  lemma PublishBackupKeeps(t: Tools, doc: Doc, m: Machine)
    requires MachineOk(t, doc, m) && m.phase.PublishBackup?
    ensures MachineOk(t, doc, Go(t, m)) && Go(t, m).phase != Refused
  {
    hide Dir, DiskSafe, Importable, Apply, Perform;
    ReadsScratch(m.disk, BackupCandidate, Inode(ConfigDoc(doc), true));
    NowSafe(t, doc, m.disk);
    PublishDir(m.disk, BackupCandidate, BackupFile, Inode(ConfigDoc(doc), true));
    PerformSafe(t, doc, m.disk, Rename(BackupCandidate, BackupFile));
    PerformInodes(m.disk, Rename(BackupCandidate, BackupFile));
  }

  lemma PerformInodes(disk: Disk, op: DirOp)
    ensures Perform(disk, op).inodes == disk.inodes
  {}

  lemma SyncDirKeeps(t: Tools, doc: Doc, m: Machine)
    requires MachineOk(t, doc, m) && (m.phase.SyncBackupDir? || m.phase.SyncLibraryDir? || m.phase.SyncConfigDir?)
    ensures MachineOk(t, doc, Go(t, m)) && Go(t, m).phase != Refused
  {
    hide Dir, DiskSafe, Importable;
    SyncDirSafe(t, doc, m.disk);
  }

  lemma ImportKeeps(t: Tools, doc: Doc, m: Machine)
    requires MachineOk(t, doc, m) && m.phase.Import?
    ensures MachineOk(t, doc, Go(t, m)) && (Importable(t, doc) ==> Go(t, m).phase != Refused)
  {
    hide Dir, DiskSafe, Safe, Read, ConfigIs, ImportedSettings, Spares, SamePublished, Create, RemoveStale, Remove;
    ImportableIs(t, doc);
    ReadsConfig(m.disk, ConfigDoc(doc));
    RemoveSafe(t, doc, m.disk, LibraryCandidate);
    RemoveStaleSafe(t, doc, m.disk, LibraryCandidate);
    var cleared := RemoveStale(m.disk, LibraryCandidate);
    SparesSelf(m.disk.inodes);
    StaysPut(m.disk, cleared);
    CreateSafe(t, doc, cleared, LibraryCandidate, Library(None, true, false, true));
    StaysPut(cleared, Create(cleared, LibraryCandidate, Library(None, true, false, true)));
  }

  lemma FinalizeKeeps(t: Tools, doc: Doc, m: Machine)
    requires MachineOk(t, doc, m) && m.phase.Finalize?
    ensures MachineOk(t, doc, Go(t, m)) && Go(t, m).phase != Refused
  {
    hide Dir, DiskSafe, ConfigIs, ImportedSettings, Spares, Rewrite;
    RewriteSafe(t, doc, m.disk, LibraryCandidate, Inode(Finished(doc), true));
    StaysPut(m.disk, Go(t, m).disk);
  }

  lemma PublishLibraryKeeps(t: Tools, doc: Doc, m: Machine)
    requires MachineOk(t, doc, m) && m.phase.PublishLibrary?
    ensures MachineOk(t, doc, Go(t, m)) && Go(t, m).phase != Refused
  {
    hide Dir, DiskSafe, ImportedSettings, Apply, Perform;
    ReadsConfig(m.disk, ConfigDoc(doc));
    NowSafe(t, doc, m.disk);
    PublishDir(m.disk, LibraryCandidate, LibraryFile, Inode(Finished(doc), true));
    PerformSafe(t, doc, m.disk, Rename(LibraryCandidate, LibraryFile));
    PerformInodes(m.disk, Rename(LibraryCandidate, LibraryFile));
  }

  /** Resume is confluent: reading the settings back gives what the import handed over. */
  lemma ResumeAgrees(t: Tools, doc: Doc)
    requires Importable(t, doc)
    ensures ResumedSettings(t, doc) == ImportedSettings(t, doc)
  {}

  lemma MatchingKeeps(t: Tools, doc: Doc, m: Machine)
    requires MachineOk(t, doc, m) && m.phase == Matching
    ensures MachineOk(t, doc, Go(t, m)) && Go(t, m).phase != Refused
  {
    hide Dir, DiskSafe, Read, ConfigIs, ImportedSettings, ResumedSettings;
    ReadsConfig(m.disk, ConfigDoc(doc));
    ReadsSafe(t, doc, m.disk);
    ImportableIs(t, doc);
    ResumeAgrees(t, doc);
  }

  lemma WriteTempKeeps(t: Tools, doc: Doc, m: Machine)
    requires MachineOk(t, doc, m) && m.phase.WriteTemp?
    ensures MachineOk(t, doc, Go(t, m)) && Go(t, m).phase != Refused
  {
    hide Dir, DiskSafe, Safe, ConfigIs, ImportedSettings, Spares, SamePublished, Create;
    AcceptsIs(t, doc, m.phase.settings);
    CreateSafe(t, doc, m.disk, ConfigTemp, Upgraded(t, doc));
    StaysPut(m.disk, Go(t, m).disk);
  }

  lemma SyncTempKeeps(t: Tools, doc: Doc, m: Machine)
    requires MachineOk(t, doc, m) && m.phase.SyncTemp?
    ensures MachineOk(t, doc, Go(t, m)) && Go(t, m).phase != Refused
  {
    hide Dir, DiskSafe, ConfigIs, ImportedSettings, Undisturbed, SyncFile, ScratchHolds;
    SyncScratch(t, doc, m.disk, ConfigTemp, Upgraded(t, doc));
    StaysPut(m.disk, Go(t, m).disk);
  }

  lemma PublishConfigKeeps(t: Tools, doc: Doc, m: Machine)
    requires MachineOk(t, doc, m) && m.phase.PublishConfig?
    ensures MachineOk(t, doc, Go(t, m)) && Go(t, m).phase != Refused
  {
    hide Dir, DiskSafe, ImportedSettings, Apply, Perform;
    NowSafe(t, doc, m.disk);
    PublishDir(m.disk, ConfigTemp, ConfigFile, Inode(Upgraded(t, doc), true));
    PerformSafe(t, doc, m.disk, Rename(ConfigTemp, ConfigFile));
    PerformInodes(m.disk, Rename(ConfigTemp, ConfigFile));
  }

  lemma VerifyKeeps(t: Tools, doc: Doc, m: Machine)
    requires MachineOk(t, doc, m) && m.phase.Verify?
    ensures MachineOk(t, doc, Go(t, m)) && Go(t, m).phase == Done
  {
    hide Dir, DiskSafe, Read, ConfigIs, ImportedSettings;
    ReadsConfig(m.disk, Upgraded(t, doc));
    ReadsSafe(t, doc, m.disk);
  }

  /** A step keeps everything, and is refused only when the original cannot be imported. */
  lemma GoKeeps(t: Tools, doc: Doc, m: Machine)
    requires MachineOk(t, doc, m)
    ensures MachineOk(t, doc, Go(t, m))
    ensures Working(m.phase) && Importable(t, doc) ==> Go(t, m).phase != Refused
  {
    match m.phase {
      case Checking => CheckingKeeps(t, doc, m);
      case CopyBackup(_) => CopyBackupKeeps(t, doc, m);
      case SyncBackup(_) => SyncBackupKeeps(t, doc, m);
      case PublishBackup(_) => PublishBackupKeeps(t, doc, m);
      case SyncBackupDir(_) => SyncDirKeeps(t, doc, m);
      case Import(_) => ImportKeeps(t, doc, m);
      case Finalize(_, _) => FinalizeKeeps(t, doc, m);
      case PublishLibrary(_, _) => PublishLibraryKeeps(t, doc, m);
      case SyncLibraryDir(_) => SyncDirKeeps(t, doc, m);
      case Matching => MatchingKeeps(t, doc, m);
      case WriteTemp(_, _) => WriteTempKeeps(t, doc, m);
      case SyncTemp(_) => SyncTempKeeps(t, doc, m);
      case PublishConfig(_) => PublishConfigKeeps(t, doc, m);
      case SyncConfigDir(_) => SyncDirKeeps(t, doc, m);
      case Verify(_) => VerifyKeeps(t, doc, m);
      case _ =>
    }
  }

  // ---- every event -------------------------------------------------------------------------------------

  /** A start on a safe disk never fails: it asks, resumes, or is done. */
  lemma StartupKnows(t: Tools, doc: Doc, disk: Disk)
    requires DiskSafe(t, doc, disk) && VersionOf(doc) <= LAST_LEGACY_SCHEMA_VERSION
    ensures Started(t, disk) == Machine(disk, Startup(t, disk)) && MachineOk(t, doc, Started(t, disk))
    ensures Startup(t, disk) == Asking || Startup(t, disk) == Matching || Startup(t, disk) == Done
  {
    hide Dir, DiskSafe, Read, ConfigIs, ImportedSettings, Imports;
    ReadsSafe(t, doc, disk);
    if ConfigIs(disk, ConfigDoc(doc)) {
      ReadsConfig(disk, ConfigDoc(doc));
    } else {
      ReadsConfig(disk, Upgraded(t, doc));
    }
  }

  lemma RefuseKeeps(t: Tools, doc: Doc, m: Machine)
    requires MachineOk(t, doc, m)
    ensures MachineOk(t, doc, Refuse(m))
  {
    hide Dir, DiskSafe, Remove, ConfigIs, ScratchHolds, ImportedSettings;
    RemoveSafe(t, doc, m.disk, BackupCandidate);
    RemoveSafe(t, doc, m.disk, LibraryCandidate);
    RemoveSafe(t, doc, m.disk, ConfigTemp);
  }

  lemma HandleKeeps(t: Tools, doc: Doc, m: Machine, event: Event)
    requires MachineOk(t, doc, m) && VersionOf(doc) <= LAST_LEGACY_SCHEMA_VERSION
    ensures MachineOk(t, doc, Handle(t, m, event))
  {
    hide DiskSafe, Dir, Go, Startup, Started, Refuse, Crash, ConfigIs, ScratchHolds, ImportedSettings, Imports;
    match event {
      case Launch => StartupKnows(t, doc, m.disk);
      case Confirm =>
      case Step => GoKeeps(t, doc, m);
      case Fail => RefuseKeeps(t, doc, m);
      case Kill =>
      case PowerLoss(kept, found) =>
        if kept <= |m.disk.journal| { CrashSafe(t, doc, m.disk, kept, found); }
    }
  }

  lemma {:induction false} RunKeeps(t: Tools, doc: Doc, m: Machine, events: seq<Event>)
    requires MachineOk(t, doc, m) && VersionOf(doc) <= LAST_LEGACY_SCHEMA_VERSION
    ensures MachineOk(t, doc, Run(t, m, events))
    decreases |events|
  {
    hide MachineOk, Handle;
    if events != [] {
      HandleKeeps(t, doc, m, events[0]);
      RunKeeps(t, doc, Handle(t, m, events[0]), events[1..]);
    }
  }

  lemma LegacySafe(t: Tools, doc: Doc)
    ensures MachineOk(t, doc, Legacy(doc))
  {
    var disk := Legacy(doc).disk;
    forall k | 0 <= k <= |disk.journal| ensures Safe(t, doc, disk.inodes, DirAfter(disk, k)) {
      assert disk.journal[..k] == [];
    }
  }

  /**
   Crash safety over whole runs. From a legacy installation, whatever errors, cancellations, kills,
   power losses and restarts follow: the original config is in config.json or in its backup; a
   library that is there at all is complete and ready; config.json is the original or, with the
   library in place, exactly what an undisturbed upgrade would have written; and the next start
   does not fail.
   */
  lemma UpgradeIsSafe(t: Tools, doc: Doc, events: seq<Event>)
    requires VersionOf(doc) <= LAST_LEGACY_SCHEMA_VERSION
    ensures var disk := Run(t, Legacy(doc), events).disk;
            var config, backup, library := Read(disk, ConfigFile), Read(disk, BackupFile), Read(disk, LibraryFile);
      && (config == Some(ConfigDoc(doc)) || backup == Some(ConfigDoc(doc)))
      && (backup.Some? ==> backup == Some(ConfigDoc(doc)))
      && (library.Some? ==> library == Some(Library(Some(doc), true, true, true)) && backup.Some?)
      && (config != Some(ConfigDoc(doc)) ==>
            && library.Some? && Importable(t, doc)
            && config.Some? && config.value.ConfigDoc? && config.value.doc.version == Some(8)
            && config.value.doc.settings
               == Some(Written(t.withoutHotkeys(t.migrate(doc.settings.value, doc.version.value).value))))
      && (Startup(t, disk) == Asking || Startup(t, disk) == Matching || Startup(t, disk) == Done)
  {
    hide MachineOk, Run, Startup, Started, Read, ConfigIs, Fits, Aligned;
    LegacySafe(t, doc);
    RunKeeps(t, doc, Legacy(doc), events);
    var m := Run(t, Legacy(doc), events);
    MachineDisk(t, doc, m);
    StartupKnows(t, doc, m.disk);
    ReadsSafe(t, doc, m.disk);
    if ConfigIs(m.disk, ConfigDoc(doc)) {
      ReadsConfig(m.disk, ConfigDoc(doc));
    } else {
      ReadsConfig(m.disk, Upgraded(t, doc));
    }
  }

  lemma MachineDisk(t: Tools, doc: Doc, m: Machine)
    requires MachineOk(t, doc, m)
    ensures DiskSafe(t, doc, m.disk)
  {
    hide DiskSafe, PhaseKnows;
  }

  /** From any phase on the way, undisturbed steps complete an importable upgrade. */
  lemma {:induction false} FinishCompletes(t: Tools, doc: Doc, m: Machine)
    requires MachineOk(t, doc, m) && Importable(t, doc) && (Working(m.phase) || m.phase == Done)
    ensures MachineOk(t, doc, Finish(t, m)) && Finish(t, m).phase == Done
    decreases Rank(m.phase)
  {
    hide MachineOk, Go, Importable;
    if Working(m.phase) {
      GoKeeps(t, doc, m);
      GoRank(t, m);
      GoesOn(t, m);
      FinishCompletes(t, doc, Go(t, m));
    }
  }

  lemma GoesOn(t: Tools, m: Machine)
    requires Working(m.phase)
    ensures Working(Go(t, m).phase) || Go(t, m).phase == Done || Go(t, m).phase == Refused
  {
    hide Read, Create, Rewrite, SyncFile, SyncDir, Perform, RemoveStale, CleanUp;
  }

  /**
   However often it was interrupted before, a start that is confirmed and then left alone ends with
   the upgraded settings and the ready library exactly when the import takes the original; otherwise
   it is refused with the original in place and no library.
   */
  lemma UpgradeCompletes(t: Tools, doc: Doc, events: seq<Event>)
    requires VersionOf(doc) <= LAST_LEGACY_SCHEMA_VERSION
    ensures var started := Run(t, Run(t, Legacy(doc), events), [Kill, Launch, Confirm]);
            var end := Finish(t, started);
            var config, library := Read(end.disk, ConfigFile), Read(end.disk, LibraryFile);
      if Importable(t, doc) then
        && end.phase == Done && library == Some(Library(Some(doc), true, true, true))
        && config.Some? && config.value.ConfigDoc? && config.value.doc.version == Some(8)
        && config.value.doc.settings
           == Some(Written(t.withoutHotkeys(t.migrate(doc.settings.value, doc.version.value).value)))
        && Read(end.disk, BackupFile) == Some(ConfigDoc(doc))
      else
        end.phase == Refused && config == Some(ConfigDoc(doc)) && library == None
  {
    hide MachineOk, Startup, Started, Read, ConfigIs, Finish, Go, Fits, Aligned;
    LegacySafe(t, doc);
    RunKeeps(t, doc, Legacy(doc), events);
    var m := Run(t, Legacy(doc), events);
    MachineDisk(t, doc, m);
    StartupKnows(t, doc, m.disk);
    Restarted(t, m);
    var started := Run(t, m, [Kill, Launch, Confirm]);
    RunKeeps(t, doc, m, [Kill, Launch, Confirm]);
    if Importable(t, doc) {
      FinishCompletes(t, doc, started);
      DoneReads(t, doc, Finish(t, started));
    } else {
      FinishEnds(t, doc, started);
      MachineDisk(t, doc, Finish(t, started));
      ReadsSafe(t, doc, Finish(t, started).disk);
      ReadsConfig(Finish(t, started).disk, ConfigDoc(doc));
      DoneImports(t, doc, Finish(t, started));
    }
  }

  /** Left alone, a machine goes through its own steps to the end; further steps do nothing. */
  lemma {:induction false} FinishIsSteps(t: Tools, m: Machine, n: nat)
    requires n >= Rank(m.phase)
    ensures Run(t, m, seq(n, _ => Step)) == Finish(t, m)
    decreases n
  {
    hide Go;
    GoRank(t, m);
    if n > 0 {
      assert seq(n, _ => Step)[1..] == seq(n - 1, _ => Step);
      GoIdle(t, m);
      FinishIsSteps(t, Go(t, m), n - 1);
    }
  }

  lemma GoIdle(t: Tools, m: Machine)
    ensures !Working(m.phase) ==> Go(t, m) == m && Rank(m.phase) == 0
    ensures Working(m.phase) ==> Rank(m.phase) > 0
  {}

  /** After a refusal the program can start again at once; it needs not end first. */
  lemma RetryIsRestart(t: Tools, m: Machine, rest: seq<Event>)
    requires m.phase == Refused
    ensures Run(t, m, [Launch] + rest) == Run(t, m, [Kill, Launch] + rest)
  {
    assert ([Launch] + rest)[1..] == rest;
    assert ([Kill, Launch] + rest)[1..] == [Launch] + rest;
  }

  /** So a document of 513 sounds, all but the first with a hotkey, is refused however often it is tried. */
  lemma MisalignedUpgrade(t: Tools, doc: Doc, events: seq<Event>)
    requires VersionOf(doc) <= LAST_LEGACY_SCHEMA_VERSION
    requires var list := doc.sounds;
      |list| == 513 && !list[0].hotkey && forall i :: 0 < i < |list| ==> list[i].hotkey
    ensures Finish(t, Run(t, Run(t, Legacy(doc), events), [Kill, Launch, Confirm])).phase == Refused
  {
    hide Run, Finish, Read;
    MisalignedImport(doc.sounds);
    UpgradeCompletes(t, doc, events);
  }

  /** From any phase on the way, undisturbed steps end in one of the two ways. */
  lemma {:induction false} FinishEnds(t: Tools, doc: Doc, m: Machine)
    requires MachineOk(t, doc, m) && (Working(m.phase) || m.phase == Done || m.phase == Refused)
    ensures MachineOk(t, doc, Finish(t, m)) && (Finish(t, m).phase == Done || Finish(t, m).phase == Refused)
    decreases Rank(m.phase)
  {
    hide MachineOk, Go, Importable;
    if Working(m.phase) {
      GoKeeps(t, doc, m);
      GoRank(t, m);
      GoesOn(t, m);
      FinishEnds(t, doc, Go(t, m));
    }
  }

  lemma DoneImports(t: Tools, doc: Doc, m: Machine)
    requires MachineOk(t, doc, m)
    ensures m.phase == Done ==> Importable(t, doc)
  {
    hide DiskSafe, ConfigIs;
  }

  lemma Restarted(t: Tools, m: Machine)
    ensures Run(t, m, [Kill, Launch, Confirm]) == Confirmed(Started(t, m.disk))
  {
    hide Started, Go, Refuse, Confirmed;
    var off := m.(phase := Off);
    assert Run(t, m, [Kill, Launch, Confirm]) == Run(t, off, [Launch, Confirm]);
    assert Run(t, off, [Launch, Confirm]) == Run(t, Started(t, m.disk), [Confirm]);
    assert Run(t, Started(t, m.disk), [Confirm]) == Run(t, Confirmed(Started(t, m.disk)), []);
  }

  lemma DoneReads(t: Tools, doc: Doc, m: Machine)
    requires MachineOk(t, doc, m) && m.phase == Done && Importable(t, doc)
    ensures Read(m.disk, ConfigFile) == Some(Upgraded(t, doc))
    ensures Read(m.disk, LibraryFile) == Some(Finished(doc)) && Read(m.disk, BackupFile) == Some(ConfigDoc(doc))
  {
    hide Dir, DiskSafe, Read, ConfigIs, ImportedSettings;
    ReadsConfig(m.disk, Upgraded(t, doc));
    ReadsSafe(t, doc, m.disk);
  }

  // ---- on any disk ------------------------------------------------------------------------------------------

  /** The disk after a config has been saved. */
  function Saved(disk: Disk, content: Content): Disk {
    SyncDir(Perform(SyncFile(Create(disk, ConfigTemp, content), ConfigTemp), Rename(ConfigTemp, ConfigFile)))
  }

  /** Creating, syncing and renaming a file makes its contents those of the new name. */
  lemma SaveReads(disk: Disk, content: Content)
    ensures Read(Saved(disk, content), ConfigFile) == Some(content)
  {
    hide Dir;
    var created := Create(disk, ConfigTemp, content);
    CreateReads(disk, ConfigTemp, content);
    var synced := SyncFile(created, ConfigTemp);
    SyncReads(created, ConfigTemp);
    var renamed := Perform(synced, Rename(ConfigTemp, ConfigFile));
    PerformDir(synced, Rename(ConfigTemp, ConfigFile));
    WholeJournal(renamed);
  }

  lemma CreateReads(disk: Disk, name: Name, content: Content)
    ensures Read(Create(disk, name, content), name) == Some(content)
  {
    hide Dir;
    var id := NewInode(disk);
    PerformDir(disk.(inodes := disk.inodes[id := Inode(content, false)]), Bind(name, id));
  }

  lemma SyncReads(disk: Disk, name: Name)
    ensures Read(SyncFile(disk, name), name) == Read(disk, name)
  {
    assert Dir(SyncFile(disk, name)) == Dir(disk);
  }

  /** Saving a config, for a resumed upgrade or a first start, ends done, whatever else is on the disk. */
  lemma SaveEnds(t: Tools, disk: Disk, settings: string, purpose: Purpose)
    requires purpose != Upgrading
    ensures Finish(t, Machine(disk, WriteTemp(settings, purpose))) == Machine(Saved(disk, NewConfig(settings)), Done)
  {
    hide Create, SyncFile, SyncDir, Perform, Read;
    SaveReads(disk, NewConfig(settings));
    var created := Create(disk, ConfigTemp, NewConfig(settings));
    var synced := SyncFile(created, ConfigTemp);
    var renamed := Perform(synced, Rename(ConfigTemp, ConfigFile));
    var verify := Machine(SyncDir(renamed), Verify(purpose));
    assert Finish(t, verify) == Finish(t, verify.(phase := Done)) == verify.(phase := Done);
    assert Finish(t, Machine(renamed, SyncConfigDir(purpose))) == Finish(t, verify);
    assert Finish(t, Machine(synced, PublishConfig(purpose))) == Finish(t, Machine(renamed, SyncConfigDir(purpose)));
    assert Finish(t, Machine(created, SyncTemp(purpose))) == Finish(t, Machine(synced, PublishConfig(purpose)));
    assert Finish(t, Machine(disk, WriteTemp(settings, purpose))) == Finish(t, Machine(created, SyncTemp(purpose)));
  }

  /** A first start that nothing interrupts ends done. */
  lemma FirstEnds(t: Tools, disk: Disk)
    requires Read(disk, LibraryFile).None?
    ensures Finish(t, Machine(disk, CreateLibrary(true))).phase == Done
  {
    hide Read, Create, Rewrite, SyncDir;
    var created := Create(disk, LibraryFile, Library(None, true, false, true));
    var ready := Rewrite(created, LibraryFile, Inode(Library(None, true, true, true), true));
    SaveEnds(t, SyncDir(ready), t.defaults, Starting);
    assert Finish(t, Machine(disk, CreateLibrary(true))) == Finish(t, Machine(created, MarkReady(true)));
    assert Finish(t, Machine(created, MarkReady(true))) == Finish(t, Machine(ready, SyncNewLibrary(true)));
    assert Finish(t, Machine(ready, SyncNewLibrary(true)))
        == Finish(t, Machine(SyncDir(ready), WriteTemp(t.defaults, Starting)));
  }

  /**
   The two files fit together. Without a config there is no library, or one that was not made by an
   upgrade; beside a legacy config, a library made from that very document, whose settings can be
   read back; beside a current config that loads, a ready library. A missing library always fits a
   config of either kind.
   */
  ghost predicate FilesFit(t: Tools, config: Option<Content>, library: Option<Content>) {
    var absent := library.None?;
    var ready := library.Some? && library.value.Library? && library.value.ready;
    match config
    case None => absent || (ready && library.value.source.None?)
    case Some(content) =>
      && content.ConfigDoc?
      && var doc := content.doc;
         if doc.version.Some? && doc.version.value > 7 then
           && doc.version.value == 8 && (absent || ready)
           && (doc.settings.Some? && (doc.settings.value.Foreign? ==> t.loads(doc.settings.value.text)))
         else
           absent || (ready && library.value.source == Some(doc) && Resumable(t, doc))
  }

  /** The settings of a legacy document, or the empty ones, can be read back. */
  ghost predicate Resumable(t: Tools, doc: Doc) {
    t.migrate(if doc.settings.Some? then doc.settings.value else Foreign("{}"),
              if doc.version.Some? then doc.version.value else 0).Some?
  }

  /** A library without the application id that a refused start nevertheless identifies. */
  ghost predicate Adopted(config: Option<Content>, library: Option<Content>) {
    && library.Some? && library.value.Library? && library.value.ready && !library.value.marked
    && (config.Some? ==>
          config.value.ConfigDoc? && (config.value.doc.version.Some? ==> config.value.doc.version.value <= 7))
  }

  /** Stamping the library changes nothing but its mark, and every name that is not the same file reads the same. */
  lemma StampOnly(disk: Disk)
    ensures var next, library := Stamp(disk), Read(disk, LibraryFile);
      && next.durable == disk.durable && next.journal == disk.journal && Dir(next) == Dir(disk)
      && (next != disk <==>
            library.Some? && library.value.Library? && library.value.ready && !library.value.marked)
      && Read(next, LibraryFile) == (if next == disk then library else Some(library.value.(marked := true)))
      && (forall n :: n in Dir(disk) && LibraryFile in Dir(disk) && Dir(disk)[n] != Dir(disk)[LibraryFile] ==>
            Read(next, n) == Read(disk, n))
      && (forall n :: n !in Dir(disk) ==> Read(next, n) == Read(disk, n))
  {
    assert Dir(Stamp(disk)) == Dir(disk);
  }

  lemma ResumableIs(t: Tools, doc: Doc)
    requires doc.version.Some? ==> doc.version.value <= 7
    ensures Resumable(t, doc) <==> ResumedSettings(t, doc).Some?
  {}

  /**
   On any disk whatsoever, a start that nothing interrupts, with the resume or the first start it may
   entail, is refused if and only if the two files do not fit together. Then no file has changed but
   for the mark of a library that had none, and that exactly when the library is ready and the config
   is missing or a legacy one.
   */
  lemma StartRefusedExactly(t: Tools, disk: Disk)
    ensures var end := Finish(t, Started(t, disk));
            var config, library := Read(disk, ConfigFile), Read(disk, LibraryFile);
      && (end.phase == Refused <==> !FilesFit(t, config, library))
      && (end.phase == Refused ==>
            && end.disk == (if Adopted(config, library) then Stamp(disk) else disk)
            && (end.disk == disk <==> !Adopted(config, library)))
  {
    hide Read, ResumedSettings, Resumable, Dir, Rewrite, Stamp;
    StampOnly(disk);
    if Read(disk, ConfigFile).Some? && Read(disk, ConfigFile).value.ConfigDoc?
      && VersionOf(Read(disk, ConfigFile).value.doc) <= 7
    {
      ResumableIs(t, Read(disk, ConfigFile).value.doc);
    }
    match Startup(t, disk) {
      case Matching =>
        var next := Go(t, Machine(disk, Matching));
        assert Finish(t, Machine(disk, Matching)) == Finish(t, next);
        if next.phase.WriteTemp? {
          SaveEnds(t, Stamp(disk), next.phase.settings, Resuming);
        }
      case CreateLibrary(_) => FirstEnds(t, disk);
      case WriteTemp(_, _) => SaveEnds(t, Stamp(disk), t.defaults, Starting);
      case _ =>
    }
  }

  /**
   On any disk: a backup is published only if the copy is the original, a library only if the config is
   still the one the import started from, and a resume writes only over the config the library was made
   from. The last look wants a current config that loads after a resume, and a ready library after an
   upgrade. Anything else is refused.
   */
  lemma StepGuards(t: Tools, m: Machine)
    ensures match m.phase
      case Checking =>
        Go(t, m).phase != Refused <==>
          && Read(m.disk, LibraryFile).None? && Read(m.disk, ConfigFile).Some?
          && (Read(m.disk, BackupFile).Some? ==> Read(m.disk, BackupFile) == Read(m.disk, ConfigFile))
      case PublishBackup(expected) => Go(t, m).phase != Refused <==> Read(m.disk, BackupCandidate) == Some(expected)
      case PublishLibrary(expected, _) => Go(t, m).phase != Refused <==> Read(m.disk, ConfigFile) == Some(expected)
      case Import(expected) =>
        Go(t, m).phase != Refused <==>
          exists doc :: Read(m.disk, ConfigFile) == Some(ConfigDoc(doc)) && Importable(t, doc)
      case Matching =>
        Go(t, m).phase != Refused <==>
          exists doc, marked, complete :: Read(m.disk, ConfigFile) == Some(ConfigDoc(doc))
            && Read(m.disk, LibraryFile) == Some(Library(Some(doc), complete, true, marked))
            && (doc.version.Some? ==> doc.version.value <= 7) && Resumable(t, doc)
      case Verify(Resuming) =>
        Go(t, m).phase != Refused <==>
          exists doc :: Read(m.disk, ConfigFile) == Some(ConfigDoc(doc)) && doc.version == Some(8)
            && doc.settings.Some? && (doc.settings.value.Foreign? ==> t.loads(doc.settings.value.text))
      case Verify(Upgrading) =>
        Go(t, m).phase != Refused <==>
          exists source, complete, marked ::
            Read(m.disk, LibraryFile) == Some(Library(source, complete, true, marked))
      case _ => true
  {
    hide Read, Importable, Resumable, ImportedSettings, ResumedSettings, Imports, Create, RemoveStale, Perform;
    match m.phase
    case Import(_) =>
      forall doc ensures Importable(t, doc) <==> ImportedSettings(t, doc).Some? && Imports(t, doc) {
        ImportableIs(t, doc);
      }
    case Matching =>
      forall doc ensures ResumedSettings(t, doc).Some? <==>
        (doc.version.Some? ==> doc.version.value <= 7) && Resumable(t, doc)
      {
        ResumedIs(t, doc);
      }
      var library := Read(m.disk, LibraryFile);
      if Identified(library) && library.value.source.Some? {
        assert library == Some(Library(Some(library.value.source.value), library.value.complete, true,
                                       library.value.marked));
      }
    case Verify(Upgrading) =>
      var library := Read(m.disk, LibraryFile);
      if Identified(library) {
        assert library == Some(Library(library.value.source, library.value.complete, true, library.value.marked));
      }
    case _ =>
  }

  /**
   What the syncs are for: after one of a directory a crash leaves every name as it is, and after one of a
   file its contents, whatever the disk makes of what was not synced.
   */
  lemma SyncsLast(t: Tools, m: Machine, kept: nat, found: map<nat, Content>)
    requires kept <= |Go(t, m).disk.journal|
    ensures var crashed := Crash(Go(t, m).disk, kept, found);
      match m.phase
      case SyncBackupDir(_) => Dir(crashed) == Dir(m.disk)
      case SyncLibraryDir(_) => Dir(crashed) == Dir(m.disk)
      case SyncNewLibrary(_) => Dir(crashed) == Dir(m.disk)
      case SyncConfigDir(_) => Dir(crashed) == Dir(m.disk)
      case SyncBackup(_) => HoldsOn(m.disk, crashed, BackupCandidate)
      case SyncTemp(_) => HoldsOn(m.disk, crashed, ConfigTemp)
      case _ => true
  {}

  /** The file a name stands for has the contents it had. */
  ghost predicate HoldsOn(disk: Disk, crashed: Disk, name: Name) {
    Read(disk, name).Some? ==>
      Dir(disk)[name] in crashed.inodes && Read(disk, name) == Some(crashed.inodes[Dir(disk)[name]].content)
  }

  lemma ResumedIs(t: Tools, doc: Doc)
    ensures ResumedSettings(t, doc).Some? <==> (doc.version.Some? ==> doc.version.value <= 7) && Resumable(t, doc)
  {}

  /** Saving a config leaves the library alone. */
  lemma SaveSpares(disk: Disk, content: Content)
    requires Read(disk, LibraryFile).Some?
    ensures Read(Saved(disk, content), LibraryFile) == Read(disk, LibraryFile)
  {
    hide Dir;
    var id := NewInode(disk);
    var created := Create(disk, ConfigTemp, content);
    PerformDir(disk.(inodes := disk.inodes[id := Inode(content, false)]), Bind(ConfigTemp, id));
    SameDir(disk, disk.inodes[id := Inode(content, false)]);
    var synced := SyncFile(created, ConfigTemp);
    SameDir(created, synced.inodes);
    PerformDir(synced, Rename(ConfigTemp, ConfigFile));
    WholeJournal(Perform(synced, Rename(ConfigTemp, ConfigFile)));
  }

  lemma SameDir(disk: Disk, inodes: map<nat, Inode>)
    ensures Dir(disk.(inodes := inodes)) == Dir(disk)
  {}

  /**
   What a start that nothing interrupts leaves when it ends done: a library that was there is marked and
   otherwise as it was; a current config is untouched; a legacy one has become the settings read back
   from it; a missing one holds the default settings.
   */
  lemma StartWrites(t: Tools, disk: Disk)
    requires Finish(t, Started(t, disk)).phase == Done
    ensures var end := Finish(t, Started(t, disk)).disk;
            var config, library := Read(disk, ConfigFile), Read(disk, LibraryFile);
      && (library.Some? ==>
            library.value.Library? && Read(end, LibraryFile) == Some(library.value.(marked := true)))
      && (match config
          case None => Read(end, ConfigFile) == Some(ConfigDoc(Doc(Some(8), Some(Written(t.defaults)), [], "")))
          case Some(content) =>
            && content.ConfigDoc?
            && (content.doc.version == Some(8) ==> end == Stamp(disk))
            && (content.doc.version != Some(8) ==>
                  Resumable(t, content.doc)
                  && Read(end, ConfigFile) == Some(ConfigDoc(Doc(Some(8), Some(Written(ReadBack(t, content.doc))), [],
                                                                 "")))))
  {
    hide Read, Resumable, ReadBack, ResumedSettings, Dir, Rewrite, Stamp;
    StampOnly(disk);
    var config := Read(disk, ConfigFile);
    match Startup(t, disk) {
      case Matching =>
        var next := Go(t, Machine(disk, Matching));
        assert Finish(t, Machine(disk, Matching)) == Finish(t, next);
        ReadBackIs(t, config.value.doc);
        ResumedIs(t, config.value.doc);
        assert next.phase.WriteTemp?;
        SaveEnds(t, Stamp(disk), next.phase.settings, Resuming);
        SaveReads(Stamp(disk), NewConfig(next.phase.settings));
        SaveSpares(Stamp(disk), NewConfig(next.phase.settings));
      case CreateLibrary(_) => FirstWrites(t, disk);
      case WriteTemp(_, _) =>
        SaveEnds(t, Stamp(disk), t.defaults, Starting);
        SaveReads(Stamp(disk), NewConfig(t.defaults));
        SaveSpares(Stamp(disk), NewConfig(t.defaults));
      case _ =>
    }
  }

  /** What the ladder makes of a legacy document's settings, or of empty ones. */
  ghost function ReadBack(t: Tools, doc: Doc): string
    requires Resumable(t, doc)
  {
    t.withoutHotkeys(t.migrate(if doc.settings.Some? then doc.settings.value else Foreign("{}"),
                               if doc.version.Some? then doc.version.value else 0).value)
  }

  lemma ReadBackIs(t: Tools, doc: Doc)
    ensures ResumedSettings(t, doc).Some? ==>
      Resumable(t, doc) && ResumedSettings(t, doc) == Some(ReadBack(t, doc))
  {}

  /** A first start that nothing interrupts writes the default settings. */
  lemma FirstWrites(t: Tools, disk: Disk)
    requires Read(disk, LibraryFile).None?
    ensures Read(Finish(t, Machine(disk, CreateLibrary(true))).disk, ConfigFile) == Some(NewConfig(t.defaults))
  {
    hide Read, Create, Rewrite, SyncDir, Saved;
    var created := Create(disk, LibraryFile, Library(None, true, false, true));
    var ready := Rewrite(created, LibraryFile, Inode(Library(None, true, true, true), true));
    SaveEnds(t, SyncDir(ready), t.defaults, Starting);
    SaveReads(SyncDir(ready), NewConfig(t.defaults));
    assert Finish(t, Machine(disk, CreateLibrary(true))) == Finish(t, Machine(created, MarkReady(true)));
    assert Finish(t, Machine(created, MarkReady(true))) == Finish(t, Machine(ready, SyncNewLibrary(true)));
    assert Finish(t, Machine(ready, SyncNewLibrary(true)))
        == Finish(t, Machine(SyncDir(ready), WriteTemp(t.defaults, Starting)));
  }

  /** What a refusal leaves behind: no scratch file of the step that failed, and all else as it was. */
  lemma RefusalCleans(m: Machine)
    ensures var next := Refuse(m).disk;
      && Refuse(m).phase == Refused && next.inodes == m.disk.inodes
      && (m.phase.CopyBackup? || m.phase.SyncBackup? || m.phase.PublishBackup? || m.phase.SyncBackupDir? ==>
            Dir(next) == Dir(m.disk) - {BackupCandidate})
      && (m.phase.Import? || m.phase.Finalize? || m.phase.PublishLibrary? || m.phase.SyncLibraryDir? ==>
            Dir(next) == Dir(m.disk) - {LibraryCandidate})
      && (m.phase.WriteTemp? || m.phase.SyncTemp? || m.phase.PublishConfig? ==>
            Dir(next) == Dir(m.disk) - {ConfigTemp})
      && (m.phase.Checking? || m.phase.Matching? || m.phase.CreateLibrary? || m.phase.MarkReady? ==> next == m.disk)
      && (m.phase.SyncNewLibrary? || m.phase.SyncConfigDir? || m.phase.Verify? ==> next == m.disk)
  {
    hide Remove, Dir;
    Removed(m.disk, BackupCandidate);
    Removed(m.disk, LibraryCandidate);
    Removed(m.disk, ConfigTemp);
  }

  lemma Removed(disk: Disk, name: Name)
    ensures Dir(Remove(disk, name)) == Dir(disk) - {name} && Remove(disk, name).inodes == disk.inodes
  {
    hide Dir;
    PerformDir(disk, Unbind(name));
  }

  /** A ready library without its mark, made by an upgrade, and no config: the start is refused, and marks it. */
  lemma RefusedAndMarked(t: Tools, doc: Doc)
    ensures var disk := Disk(map[1 := Inode(Library(Some(doc), true, true, false), true)], map[LibraryFile := 1], []);
            var end := Finish(t, Started(t, disk));
      && end.phase == Refused && Read(disk, LibraryFile) == Some(Library(Some(doc), true, true, false))
      && Read(end.disk, LibraryFile) == Some(Library(Some(doc), true, true, true))
  {
    hide FilesFit, Stamp, Finish;
    var disk := Disk(map[1 := Inode(Library(Some(doc), true, true, false), true)], map[LibraryFile := 1], []);
    assert Dir(disk) == map[LibraryFile := 1];
    assert !FilesFit(t, None, Read(disk, LibraryFile)) by { FitsNot(t, Read(disk, LibraryFile)); }
    StartRefusedExactly(t, disk);
    StampOnly(disk);
  }

  lemma FitsNot(t: Tools, library: Option<Content>)
    requires library.Some? && !Native(library)
    ensures !FilesFit(t, None, library)
  {}

  /** A migration over a library or beside a different backup is refused, and no file has changed. */
  lemma RefusalsChangeNothing(t: Tools, disk: Disk)
    ensures Read(disk, ConfigFile).Some?
         && (Read(disk, LibraryFile).Some?
             || (Read(disk, BackupFile).Some? && Read(disk, BackupFile) != Read(disk, ConfigFile)))
      ==> Finish(t, Machine(disk, Checking)) == Machine(disk, Refused)
  {
    hide Read;
    if Go(t, Machine(disk, Checking)) == Machine(disk, Refused) {
      assert Finish(t, Machine(disk, Refused)) == Machine(disk, Refused);
    }
  }
}
