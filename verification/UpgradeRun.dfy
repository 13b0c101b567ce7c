/**
 The upgrade as the program runs it when nothing interrupts it. Each procedure performs the file
 operations of its steps in order and ends where the steps end.
 */
module UpgradeRun {
  import opened Wrappers
  import opened Tables
  import opened Disk
  import opened Upgrade
  import opened ImportOrder
  import Safety = UpgradeSafety

  class Files {
    var disk: Disk

    constructor (disk: Disk)
      ensures this.disk == disk
    {
      this.disk := disk;
    }
  }

  lemma Forward(t: Tools, m: Machine)
    requires Working(m.phase)
    ensures Finish(t, m) == Finish(t, Go(t, m))
  {
    hide Go;
  }

  lemma Halted(t: Tools, m: Machine)
    requires !Working(m.phase)
    ensures Finish(t, m) == m
  {}

  /** Copy, sync, compare, rename, sync; an existing backup must be the same file. */
  method EnsureBackup(ghost t: Tools, files: Files, expected: Content) returns (ok: bool)
    requires Read(files.disk, LibraryFile).None? && Read(files.disk, ConfigFile) == Some(expected)
    modifies files
    ensures Finish(t, Machine(old(files.disk), Checking))
         == Finish(t, Machine(files.disk, if ok then Import(expected) else Refused))
  {
    hide Finish, Read, RemoveStale, Create, SyncFile, SyncDir, Perform, Remove;
    ghost var m := Machine(files.disk, Checking);
    Forward(t, m);
    var backup := Read(files.disk, BackupFile);
    if backup.Some? {
      return backup.value == expected;
    }
    files.disk := RemoveStale(files.disk, BackupCandidate);
    m := Machine(files.disk, CopyBackup(expected));
    Forward(t, m);
    var source := Read(files.disk, ConfigFile);
    if source.None? {
      files.disk := Remove(files.disk, BackupCandidate);
      return false;
    }
    files.disk := Create(files.disk, BackupCandidate, source.value);
    m := Machine(files.disk, SyncBackup(expected));
    Forward(t, m);
    files.disk := SyncFile(files.disk, BackupCandidate);
    m := Machine(files.disk, PublishBackup(expected));
    Forward(t, m);
    if Read(files.disk, BackupCandidate) != Some(expected) {
      files.disk := Remove(files.disk, BackupCandidate);
      return false;
    }
    files.disk := Perform(files.disk, Rename(BackupCandidate, BackupFile));
    Forward(t, Machine(files.disk, SyncBackupDir(expected)));
    files.disk := SyncDir(files.disk);
    return true;
  }

  /** Builds the library under a scratch name and publishes it only when it is complete and synced. */
  method MigrateLegacyDatabase(t: Tools, files: Files) returns (settings: Option<string>)
    modifies files
    ensures Finish(t, Machine(old(files.disk), Checking))
         == Finish(t, Machine(files.disk, if settings.Some? then WriteTemp(settings.value, Upgrading) else Refused))
  {
    hide Finish, Read, RemoveStale, Create, Rewrite, SyncDir, Perform, Remove, ImportedSettings, Accepts;
    Forward(t, Machine(files.disk, Checking));
    var source := Read(files.disk, ConfigFile);
    if Read(files.disk, LibraryFile).Some? || source.None? {
      return None;
    }
    var expected := source.value;
    var backed := EnsureBackup(t, files, expected);
    if !backed {
      return None;
    }
    Forward(t, Machine(files.disk, Import(expected)));
    var imported := Read(files.disk, ConfigFile);
    if imported.None? || !imported.value.ConfigDoc? {
      files.disk := Remove(files.disk, LibraryCandidate);
      return None;
    }
    var taken := ImportSounds(imported.value.doc.sounds);
    if !taken || !t.importsRest(imported.value.doc) || ImportedSettings(t, imported.value.doc).None? {
      files.disk := Remove(files.disk, LibraryCandidate);
      return None;
    }
    settings := ImportedSettings(t, imported.value.doc);
    files.disk := RemoveStale(files.disk, LibraryCandidate);
    files.disk := Create(files.disk, LibraryCandidate, Library(None, true, false, true));
    Forward(t, Machine(files.disk, Finalize(expected, settings.value)));
    if !expected.ConfigDoc? {
      files.disk := Remove(files.disk, LibraryCandidate);
      return None;
    }
    files.disk := Rewrite(files.disk, LibraryCandidate, Inode(Library(Some(expected.doc), true, true, true), true));
    Forward(t, Machine(files.disk, PublishLibrary(expected, settings.value)));
    if Read(files.disk, ConfigFile) != Some(expected) {
      files.disk := Remove(files.disk, LibraryCandidate);
      return None;
    }
    files.disk := Perform(files.disk, Rename(LibraryCandidate, LibraryFile));
    Forward(t, Machine(files.disk, SyncLibraryDir(settings.value)));
    files.disk := SyncDir(files.disk);
  }

  /** Write a temporary file, sync it, rename it over the config, sync the directory. */
  method SaveConfig(ghost t: Tools, files: Files, settings: string, ghost purpose: Purpose)
    modifies files
    ensures Finish(t, Machine(old(files.disk), WriteTemp(settings, purpose)))
         == Finish(t, Machine(files.disk, Verify(purpose)))
    ensures Read(files.disk, ConfigFile) == Some(ConfigDoc(Doc(Some(8), Some(Written(settings)), [], "")))
  {
    hide Finish, Create, SyncFile, SyncDir, Perform, Read;
    Safety.SaveReads(files.disk, NewConfig(settings));
    Forward(t, Machine(files.disk, WriteTemp(settings, purpose)));
    files.disk := Create(files.disk, ConfigTemp, NewConfig(settings));
    Forward(t, Machine(files.disk, SyncTemp(purpose)));
    files.disk := SyncFile(files.disk, ConfigTemp);
    Forward(t, Machine(files.disk, PublishConfig(purpose)));
    files.disk := Perform(files.disk, Rename(ConfigTemp, ConfigFile));
    Forward(t, Machine(files.disk, SyncConfigDir(purpose)));
    files.disk := SyncDir(files.disk);
  }

  /** Identifies the library; one that has no application id gets it, whatever comes of the identity. */
  method DatabaseIdentity(files: Files) returns (identity: Option<Content>)
    modifies files
    ensures files.disk == Stamp(old(files.disk))
    ensures var library := Read(old(files.disk), LibraryFile);
      identity == if Identified(library) then library else None
  {
    hide Read, Rewrite;
    var library := Read(files.disk, LibraryFile);
    if library.None? || !library.value.Library? || !library.value.ready {
      return None;
    }
    if !library.value.marked {
      files.disk := Rewrite(files.disk, LibraryFile, Inode(library.value.(marked := true), true));
    }
    return library;
  }

  /** The confirmed upgrade: database first, then settings, then a last look at the database. */
  method MigrateLegacyConfig(t: Tools, files: Files) returns (ok: bool)
    modifies files
    ensures Finish(t, Machine(old(files.disk), Checking)) == Machine(files.disk, if ok then Done else Refused)
  {
    hide Finish, Read, Stamp;
    var settings := MigrateLegacyDatabase(t, files);
    if settings.None? {
      Halted(t, Machine(files.disk, Refused));
      return false;
    }
    SaveConfig(t, files, settings.value, Upgrading);
    Forward(t, Machine(files.disk, Verify(Upgrading)));
    Unidentified(files.disk);
    var identity := DatabaseIdentity(files);
    ok := identity.Some?;
    Halted(t, Machine(files.disk, if ok then Done else Refused));
  }

  lemma Unidentified(disk: Disk)
    ensures !Identified(Read(disk, LibraryFile)) ==> Stamp(disk) == disk
  {}

  /** The resumed upgrade: the config is left alone unless the library was made from it. */
  method CompleteLegacySettingsCutover(t: Tools, files: Files) returns (ok: bool)
    modifies files
    ensures Finish(t, Machine(old(files.disk), Matching)) == Machine(files.disk, if ok then Done else Refused)
  {
    hide Finish, Read, ResumedSettings, Stamp;
    ghost var start := files.disk;
    Forward(t, Machine(files.disk, Matching));
    Halted(t, Machine(Stamp(files.disk), Refused));
    var identity := DatabaseIdentity(files);
    if identity.None? || identity.value.source.None? {
      return false;
    }
    ConfigApart(start);
    var config := Read(files.disk, ConfigFile);
    if config != Some(ConfigDoc(identity.value.source.value)) {
      return false;
    }
    var settings := ResumedSettings(t, config.value.doc);
    if settings.None? {
      return false;
    }
    SaveConfig(t, files, settings.value, Resuming);
    Forward(t, Machine(files.disk, Verify(Resuming)));
    var written := Read(files.disk, ConfigFile);
    ok := written.Some? && written.value.ConfigDoc? && VersionOf(written.value.doc) == CURRENT_SCHEMA_VERSION
      && Loads(t, written.value.doc);
    Halted(t, Machine(files.disk, if ok then Done else Refused));
  }

  /** A config document is not the library's file, so identifying the library does not touch it. */
  lemma ConfigApart(disk: Disk)
    ensures forall doc :: Read(Stamp(disk), ConfigFile) == Some(ConfigDoc(doc)) <==>
                          Read(disk, ConfigFile) == Some(ConfigDoc(doc))
  {
    assert Dir(Stamp(disk)) == Dir(disk);
  }

  /** An empty library under its own name; what an error leaves of it stays there. */
  method InitializeEmptyLibrary(ghost t: Tools, files: Files, ghost first: bool) returns (ok: bool)
    modifies files
    ensures Finish(t, Machine(old(files.disk), CreateLibrary(first)))
         == Finish(t, Machine(files.disk,
                              if !ok then Refused else if first then WriteTemp(t.defaults, Starting) else Done))
    ensures ok <==> Read(old(files.disk), LibraryFile).None?
  {
    hide Finish, Read, Create, Rewrite, SyncDir;
    Forward(t, Machine(files.disk, CreateLibrary(first)));
    if Read(files.disk, LibraryFile).Some? {
      return false;
    }
    files.disk := Create(files.disk, LibraryFile, Library(None, true, false, true));
    Forward(t, Machine(files.disk, MarkReady(first)));
    files.disk := Rewrite(files.disk, LibraryFile, Inode(Library(None, true, true, true), true));
    Forward(t, Machine(files.disk, SyncNewLibrary(first)));
    files.disk := SyncDir(files.disk);
    return true;
  }

  /** The default settings, saved beside a library that is there. */
  method SaveDefaults(t: Tools, files: Files)
    modifies files
    ensures Finish(t, Machine(old(files.disk), WriteTemp(t.defaults, Starting))) == Machine(files.disk, Done)
  {
    hide Finish;
    SaveConfig(t, files, t.defaults, Starting);
    Forward(t, Machine(files.disk, Verify(Starting)));
    Halted(t, Machine(files.disk, Done));
  }

  /** A start without a config: a library of the program's own is adopted, a missing one created. */
  method StartFirst(t: Tools, files: Files) returns (decision: Phase)
    requires Read(files.disk, ConfigFile).None?
    modifies files
    ensures Machine(files.disk, decision) == Finish(t, Started(t, old(files.disk)))
  {
    hide Finish, Read, Stamp;
    Halted(t, Machine(Stamp(files.disk), Refused));
    if Read(files.disk, LibraryFile).Some? {
      var identity := DatabaseIdentity(files);
      if identity.None? || identity.value.source.Some? {
        return Refused;
      }
    } else {
      Unidentified(files.disk);
      var created := InitializeEmptyLibrary(t, files, true);
    }
    SaveDefaults(t, files);
    return Done;
  }

  /** A start: it decides, creates what a first start needs, and resumes a cutover on the spot. */
  method PrepareStartupStorage(t: Tools, files: Files) returns (decision: Phase)
    modifies files
    ensures Machine(files.disk, decision) == Finish(t, Started(t, old(files.disk)))
    ensures var config, library := Read(old(files.disk), ConfigFile), Read(old(files.disk), LibraryFile);
      && (decision == Refused <==> !Safety.FilesFit(t, config, library))
      && (decision == Refused ==>
            files.disk == if Safety.Adopted(config, library) then Stamp(old(files.disk)) else old(files.disk))
  {
    hide Finish, Read, Stamp, Loads, Safety.FilesFit, Safety.Adopted;
    ghost var start := files.disk;
    Safety.StartRefusedExactly(t, files.disk);
    if !Working(Startup(t, files.disk)) {
      Halted(t, Started(t, files.disk));
    }
    var config := Read(files.disk, ConfigFile);
    if config.None? {
      decision := StartFirst(t, files);
      return;
    }
    if !config.value.ConfigDoc? {
      return Refused;
    }
    var version := VersionOf(config.value.doc);
    if version <= LAST_LEGACY_SCHEMA_VERSION {
      if Read(files.disk, LibraryFile).None? {
        return Asking;
      }
      var ok := CompleteLegacySettingsCutover(t, files);
      return if ok then Done else Refused;
    }
    if version != CURRENT_SCHEMA_VERSION || !Loads(t, config.value.doc) {
      return Refused;
    }
    if Read(files.disk, LibraryFile).None? {
      Unidentified(files.disk);
      return Recovering;
    }
    var identity := DatabaseIdentity(files);
    return if identity.Some? then Done else Refused;
  }
}
