/**
 The upgrade from a legacy config.json to a settings file plus a library database, and the first
 start without either, one file operation per step, with the decision every start makes. Errors,
 cancellations, kills and crashes may come between any two steps.
 */
module Upgrade {
  import opened Wrappers
  import opened Tables
  import opened Disk
  import ImportOrder

  const CURRENT_SCHEMA_VERSION: nat := 8
  const LAST_LEGACY_SCHEMA_VERSION: nat := 7

  /**
   What the upgrade does to a document, as far as it matters here: the version ladder, which may
   refuse the settings; dropping the control hotkeys that have moved to the database; whether the
   import takes the rest of the document, its folders, tabs and control hotkeys; which settings texts
   a current config loads; and the settings of a first start.
   */
  datatype Tools = Tools(migrate: (Settings, nat) -> Option<string>, withoutHotkeys: string -> string,
                         importsRest: Doc -> bool, loads: string -> bool, defaults: string)

  /** The import takes the document's rows. */
  predicate Imports(t: Tools, doc: Doc) {
    ImportOrder.Accepts(doc.sounds) && t.importsRest(doc)
  }

  /** A current config loads: it has settings, and they can be read. */
  predicate Loads(t: Tools, doc: Doc) {
    match doc.settings
    case None => false
    case Some(Written(_)) => true
    case Some(Foreign(text)) => t.loads(text)
  }

  function VersionOf(doc: Doc): nat {
    match doc.version case None => 0 case Some(v) => v
  }

  /** The settings the import hands over: both fields must be there. */
  function ImportedSettings(t: Tools, doc: Doc): Option<string> {
    if doc.version.None? || doc.version.value > LAST_LEGACY_SCHEMA_VERSION || doc.settings.None? then None
    else match t.migrate(doc.settings.value, doc.version.value)
         case None => None
         case Some(settings) => Some(t.withoutHotkeys(settings))
  }

  /** The settings a resumed upgrade reads back: missing fields have defaults. */
  function ResumedSettings(t: Tools, doc: Doc): Option<string> {
    if VersionOf(doc) > LAST_LEGACY_SCHEMA_VERSION then None
    else match t.migrate(match doc.settings { case None => Foreign("{}") case Some(s) => s }, VersionOf(doc))
         case None => None
         case Some(settings) => Some(t.withoutHotkeys(settings))
  }

  function NewConfig(settings: string): Content {
    ConfigDoc(Doc(Some(CURRENT_SCHEMA_VERSION), Some(Written(settings)), [], ""))
  }

  /** On whose behalf a config is saved. */
  datatype Purpose = Upgrading | Resuming | Starting

  /**
   The file operation a process performs next. `expected` is the checksum taken at the start; an empty
   library is created by a first start, or beside a config whose library is missing.
   */
  datatype Phase =
    | Off
    | Refused
    | Asking
    | Recovering
    | Done
    | Checking
    | CopyBackup(expected: Content)
    | SyncBackup(expected: Content)
    | PublishBackup(expected: Content)
    | SyncBackupDir(expected: Content)
    | Import(expected: Content)
    | Finalize(expected: Content, settings: string)
    | PublishLibrary(expected: Content, settings: string)
    | SyncLibraryDir(settings: string)
    | Matching
    | CreateLibrary(first: bool)
    | MarkReady(first: bool)
    | SyncNewLibrary(first: bool)
    | WriteTemp(settings: string, purpose: Purpose)
    | SyncTemp(purpose: Purpose)
    | PublishConfig(purpose: Purpose)
    | SyncConfigDir(purpose: Purpose)
    | Verify(purpose: Purpose)

  datatype Machine = Machine(disk: Disk, phase: Phase)

  /** The database opens, is marked ready and carries an identity. */
  predicate Identified(content: Option<Content>) {
    content.Some? && content.value.Library? && content.value.ready
  }

  /** An identified library that no upgrade has made. */
  predicate Native(content: Option<Content>) {
    Identified(content) && content.value.source.None?
  }

  /** Identifying a library puts the application id into a file that has none, and syncs it. */
  function Stamp(disk: Disk): Disk {
    var library := Read(disk, LibraryFile);
    if Identified(library) && !library.value.marked
    then Rewrite(disk, LibraryFile, Inode(library.value.(marked := true), true)) else disk
  }

  /** What a start decides from the two files. */
  function Startup(t: Tools, disk: Disk): Phase {
    var library := Read(disk, LibraryFile);
    match Read(disk, ConfigFile)
    case None =>
      if library.None? then CreateLibrary(true)
      else if Native(library) then WriteTemp(t.defaults, Starting)
      else Refused
    case Some(config) =>
      if !config.ConfigDoc? then Refused
      else if VersionOf(config.doc) <= LAST_LEGACY_SCHEMA_VERSION then if library.Some? then Matching else Asking
      else if VersionOf(config.doc) != CURRENT_SCHEMA_VERSION || !Loads(t, config.doc) then Refused
      else if library.None? then Recovering
      else if Identified(library) then Done
      else Refused
  }

  /** The start itself looks into the library: without a config, or beside a current one that loads. */
  predicate Inspects(t: Tools, config: Option<Content>) {
    match config
    case None => true
    case Some(content) =>
      content.ConfigDoc? && VersionOf(content.doc) == CURRENT_SCHEMA_VERSION && Loads(t, content.doc)
  }

  /** A start: what it does to the library in passing, and what it decides. */
  function Started(t: Tools, disk: Disk): Machine {
    Machine(if Inspects(t, Read(disk, ConfigFile)) then Stamp(disk) else disk, Startup(t, disk))
  }

  /** What an error at this phase removes before it is shown. */
  function CleanUp(disk: Disk, phase: Phase): Disk {
    match phase
    case CopyBackup(_) | SyncBackup(_) | PublishBackup(_) | SyncBackupDir(_) => Remove(disk, BackupCandidate)
    case Import(_) | Finalize(_, _) | PublishLibrary(_, _) | SyncLibraryDir(_) => Remove(disk, LibraryCandidate)
    case WriteTemp(_, _) | SyncTemp(_) | PublishConfig(_) => Remove(disk, ConfigTemp)
    case _ => disk
  }

  function Refuse(m: Machine): Machine {
    Machine(CleanUp(m.disk, m.phase), Refused)
  }

  // ---- the steps ------------------------------------------------------------------------------------

  function GoChecking(m: Machine): Machine {
    var config := Read(m.disk, ConfigFile);
    if Read(m.disk, LibraryFile).Some? || config.None? then Refuse(m)
    else match Read(m.disk, BackupFile)
         case Some(backup) => if backup == config.value then m.(phase := Import(backup)) else Refuse(m)
         case None => Machine(RemoveStale(m.disk, BackupCandidate), CopyBackup(config.value))
  }

  function GoCopyBackup(m: Machine, expected: Content): Machine {
    match Read(m.disk, ConfigFile)
    case None => Refuse(m)
    case Some(config) => Machine(Create(m.disk, BackupCandidate, config), SyncBackup(expected))
  }

  function GoPublishBackup(m: Machine, expected: Content): Machine {
    if Read(m.disk, BackupCandidate) != Some(expected) then Refuse(m)
    else Machine(Perform(m.disk, Rename(BackupCandidate, BackupFile)), SyncBackupDir(expected))
  }

  /** The import reads the config file anew. */
  function GoImport(t: Tools, m: Machine, expected: Content): Machine {
    match Read(m.disk, ConfigFile)
    case None => Refuse(m)
    case Some(config) =>
      if !config.ConfigDoc? || !Imports(t, config.doc) then Refuse(m)
      else match ImportedSettings(t, config.doc)
           case None => Refuse(m)
           case Some(settings) =>
             Machine(Create(RemoveStale(m.disk, LibraryCandidate), LibraryCandidate,
                            Library(None, true, false, true)),
                     Finalize(expected, settings))
  }

  /** The checksum goes in, then the ready mark, then the file is synced. */
  function GoFinalize(m: Machine, expected: Content, settings: string): Machine {
    if !expected.ConfigDoc? then Refuse(m)
    else Machine(Rewrite(m.disk, LibraryCandidate, Inode(Library(Some(expected.doc), true, true, true), true)),
                 PublishLibrary(expected, settings))
  }

  function GoPublishLibrary(m: Machine, expected: Content, settings: string): Machine {
    if Read(m.disk, ConfigFile) != Some(expected) then Refuse(m)
    else Machine(Perform(m.disk, Rename(LibraryCandidate, LibraryFile)), SyncLibraryDir(settings))
  }

  /** A restart with a legacy config and a library: the library is identified, then the checksums must match. */
  function GoMatching(t: Tools, m: Machine): Machine {
    var config, library := Read(m.disk, ConfigFile), Read(m.disk, LibraryFile);
    var stamped := m.(disk := Stamp(m.disk));
    if !Identified(library) || library.value.source.None?
      || config != Some(ConfigDoc(library.value.source.value)) then Refuse(stamped)
    else match ResumedSettings(t, config.value.doc)
         case None => Refuse(stamped)
         case Some(settings) => stamped.(phase := WriteTemp(settings, Resuming))
  }

  /** An error from here on leaves the file where it is. */
  function GoCreateLibrary(m: Machine, first: bool): Machine {
    if Read(m.disk, LibraryFile).Some? then Refuse(m)
    else Machine(Create(m.disk, LibraryFile, Library(None, true, false, true)), MarkReady(first))
  }

  function GoMarkReady(m: Machine, first: bool): Machine {
    Machine(Rewrite(m.disk, LibraryFile, Inode(Library(None, true, true, true), true)), SyncNewLibrary(first))
  }

  function GoSyncNewLibrary(t: Tools, m: Machine, first: bool): Machine {
    Machine(SyncDir(m.disk), if first then WriteTemp(t.defaults, Starting) else Done)
  }

  /** A first start takes no last look. */
  function GoVerify(t: Tools, m: Machine, purpose: Purpose): Machine {
    var config := Read(m.disk, ConfigFile);
    match purpose
    case Starting => m.(phase := Done)
    case Resuming =>
      if config.Some? && config.value.ConfigDoc? && VersionOf(config.value.doc) == CURRENT_SCHEMA_VERSION
        && Loads(t, config.value.doc)
      then m.(phase := Done) else Refuse(m)
    case Upgrading =>
      if Identified(Read(m.disk, LibraryFile)) then Machine(Stamp(m.disk), Done) else Refuse(m)
  }

  /** The next step, when nothing goes wrong from outside. */
  function Go(t: Tools, m: Machine): Machine {
    match m.phase
    case Checking => GoChecking(m)
    case CopyBackup(expected) => GoCopyBackup(m, expected)
    case SyncBackup(expected) => Machine(SyncFile(m.disk, BackupCandidate), PublishBackup(expected))
    case PublishBackup(expected) => GoPublishBackup(m, expected)
    case SyncBackupDir(expected) => Machine(SyncDir(m.disk), Import(expected))
    case Import(expected) => GoImport(t, m, expected)
    case Finalize(expected, settings) => GoFinalize(m, expected, settings)
    case PublishLibrary(expected, settings) => GoPublishLibrary(m, expected, settings)
    case SyncLibraryDir(settings) => Machine(SyncDir(m.disk), WriteTemp(settings, Upgrading))
    case Matching => GoMatching(t, m)
    case CreateLibrary(first) => GoCreateLibrary(m, first)
    case MarkReady(first) => GoMarkReady(m, first)
    case SyncNewLibrary(first) => GoSyncNewLibrary(t, m, first)
    case WriteTemp(settings, purpose) => Machine(Create(m.disk, ConfigTemp, NewConfig(settings)), SyncTemp(purpose))
    case SyncTemp(purpose) => Machine(SyncFile(m.disk, ConfigTemp), PublishConfig(purpose))
    case PublishConfig(purpose) => Machine(Perform(m.disk, Rename(ConfigTemp, ConfigFile)), SyncConfigDir(purpose))
    case SyncConfigDir(purpose) => Machine(SyncDir(m.disk), Verify(purpose))
    case Verify(purpose) => GoVerify(t, m, purpose)
    case _ => m
  }

  /** Some file operation is still to be done. */
  predicate Working(phase: Phase) {
    match phase case Off | Refused | Asking | Recovering | Done => false case _ => true
  }

  datatype Event =
    | Launch
    | Confirm
    | Step
    | Fail
    | Kill
    | PowerLoss(kept: nat, found: map<nat, Content>)

  /** A missing library is created anew only where no backup could be restored instead. */
  function Confirmed(m: Machine): Machine {
    if m.phase == Asking then m.(phase := Checking)
    else if m.phase == Recovering && Read(m.disk, BackupFile).None? then m.(phase := CreateLibrary(false))
    else m
  }

  /** Only what can happen happens; anything else is no event at all. */
  function Handle(t: Tools, m: Machine, event: Event): Machine {
    match event
    case Launch => if m.phase == Off || m.phase == Refused then Started(t, m.disk) else m
    case Confirm => Confirmed(m)
    case Step => Go(t, m)
    case Fail => if Working(m.phase) then Refuse(m) else m
    case Kill => m.(phase := Off)
    case PowerLoss(kept, found) => if kept <= |m.disk.journal| then Machine(Crash(m.disk, kept, found), Off) else m
  }

  function Run(t: Tools, m: Machine, events: seq<Event>): Machine
    decreases |events|
  {
    if events == [] then m else Run(t, Handle(t, m, events[0]), events[1..])
  }

  /** How many steps are left at most. */
  function Rank(phase: Phase): nat {
    match phase
    case Checking => 14
    case CopyBackup(_) => 13
    case SyncBackup(_) => 12
    case PublishBackup(_) => 11
    case SyncBackupDir(_) => 10
    case Import(_) => 9
    case Finalize(_, _) => 8
    case PublishLibrary(_, _) => 7
    case SyncLibraryDir(_) => 6
    case Matching => 6
    case CreateLibrary(_) => 8
    case MarkReady(_) => 7
    case SyncNewLibrary(_) => 6
    case WriteTemp(_, _) => 5
    case SyncTemp(_) => 4
    case PublishConfig(_) => 3
    case SyncConfigDir(_) => 2
    case Verify(_) => 1
    case _ => 0
  }

  lemma GoRank(t: Tools, m: Machine)
    ensures Working(m.phase) ==> Rank(Go(t, m).phase) < Rank(m.phase)
  {
    hide Read, Create, Rewrite, SyncFile, SyncDir, Perform, RemoveStale, CleanUp, Stamp, Imports;
  }

  /** The steps to the end, undisturbed. */
  function Finish(t: Tools, m: Machine): Machine
    decreases Rank(m.phase)
  {
    GoRank(t, m);
    if Working(m.phase) then Finish(t, Go(t, m)) else m
  }

  /** A legacy installation: one synced config file of a legacy version, and nothing else. */
  function Legacy(doc: Doc): Machine {
    Machine(Disk(map[1 := Inode(ConfigDoc(doc), true)], map[ConfigFile := 1], []), Off)
  }
}
