/**
 A first start, and the recovery of a missing library, over all runs with errors, kills, power losses
 and restarts. The settings are never published before a library of the program's own, and never
 touched when they were there. But the library is created under its own name: a start that ends
 before it is marked ready leaves one that every later start refuses.
 */
module FirstStart {
  import opened Wrappers
  import opened Tables
  import opened Disk
  import opened Upgrade
  import Safety = UpgradeSafety

  /** Where it begins: an empty directory, or one with a config whose library is missing. */
  function Initial(kept: Option<Doc>): Machine {
    match kept
    case None => Machine(Disk(map[], map[], []), Off)
    case Some(doc) => Machine(Disk(map[1 := Inode(ConfigDoc(doc), true)], map[ConfigFile := 1], []), Off)
  }

  /** A current config that loads. */
  predicate Current(t: Tools, doc: Doc) {
    doc.version == Some(8) && doc.settings.Some? && (doc.settings.value.Foreign? ==> t.loads(doc.settings.value.text))
  }

  /** The config there is in the end. */
  function Settled(t: Tools, kept: Option<Doc>): Content {
    match kept
    case None => ConfigDoc(Doc(Some(8), Some(Written(t.defaults)), [], ""))
    case Some(doc) => ConfigDoc(doc)
  }

  // ---- the directories a crash may leave ----------------------------------------------------------

  ghost predicate NativeIn(inodes: map<nat, Inode>, dir: Directory) {
    && LibraryFile in dir && dir[LibraryFile] in inodes
    && inodes[dir[LibraryFile]].synced && Native(Some(inodes[dir[LibraryFile]].content))
  }

  /**
   A config there is is the settled one; without one to begin with it comes after a synced library of
   the program's own. A library that is ready is synced.
   */
  ghost predicate Safe(t: Tools, kept: Option<Doc>, inodes: map<nat, Inode>, dir: Directory) {
    && (forall n :: n in dir ==> dir[n] in inodes)
    && BackupFile !in dir
    && (kept.Some? ==> ConfigFile in dir)
    && (ConfigFile in dir ==> Safety.Holds(inodes, dir, ConfigFile, Settled(t, kept)))
    && (kept.None? && ConfigFile in dir ==> NativeIn(inodes, dir))
    && (LibraryFile in dir && Identified(Some(inodes[dir[LibraryFile]].content)) ==> inodes[dir[LibraryFile]].synced)
  }

  ghost predicate DiskSafe(t: Tools, kept: Option<Doc>, disk: Disk) {
    forall k :: 0 <= k <= |disk.journal| ==> Safe(t, kept, disk.inodes, DirAfter(disk, k))
  }

  lemma NowSafe(t: Tools, kept: Option<Doc>, disk: Disk)
    requires DiskSafe(t, kept, disk)
    ensures Safe(t, kept, disk.inodes, Dir(disk))
  {
    hide Safe;
    WholeJournal(disk);
    assert Safe(t, kept, disk.inodes, DirAfter(disk, |disk.journal|));
  }

  lemma PerformSafe(t: Tools, kept: Option<Doc>, disk: Disk, op: DirOp)
    requires DiskSafe(t, kept, disk) && Safe(t, kept, disk.inodes, Apply(Dir(disk), op))
    ensures DiskSafe(t, kept, Perform(disk, op)) && Dir(Perform(disk, op)) == Apply(Dir(disk), op)
  {
    hide Safe, DirAfter, Dir, Apply;
    PerformDir(disk, op);
    forall k | 0 <= k <= |disk.journal| + 1 ensures Safe(t, kept, disk.inodes, DirAfter(Perform(disk, op), k)) {
      assert k <= |disk.journal| ==> Safe(t, kept, disk.inodes, DirAfter(disk, k));
    }
  }

  lemma SyncDirSafe(t: Tools, kept: Option<Doc>, disk: Disk)
    requires DiskSafe(t, kept, disk)
    ensures DiskSafe(t, kept, SyncDir(disk)) && Dir(SyncDir(disk)) == Dir(disk)
  {
    hide Safe, Dir;
    NowSafe(t, kept, disk);
    WholeJournal(disk);
    forall k | 0 <= k <= |SyncDir(disk).journal| ensures Safe(t, kept, disk.inodes, DirAfter(SyncDir(disk), k)) {}
  }

  /** Synced files stay as they are, but for a library's mark; a file that changes is synced. */
  ghost predicate Spares(inodes: map<nat, Inode>, next: map<nat, Inode>) {
    forall i :: i in inodes ==> i in next && (next[i] == inodes[i] || (next[i].synced && Improves(inodes[i], next[i])))
  }

  ghost predicate Improves(inode: Inode, next: Inode) {
    inode.synced ==>
      inode.content.Library? && inode.content.ready && next.content == inode.content.(marked := true)
  }

  lemma SparesSafe(t: Tools, kept: Option<Doc>, disk: Disk, inodes: map<nat, Inode>)
    requires DiskSafe(t, kept, disk) && Spares(disk.inodes, inodes)
    ensures DiskSafe(t, kept, disk.(inodes := inodes)) && Dir(disk.(inodes := inodes)) == Dir(disk)
  {
    var next := disk.(inodes := inodes);
    forall k | 0 <= k <= |next.journal| ensures Safe(t, kept, inodes, DirAfter(next, k)) {
      assert DirAfter(next, k) == DirAfter(disk, k);
      assert Safe(t, kept, disk.inodes, DirAfter(disk, k));
    }
  }

  lemma CrashSafe(t: Tools, kept: Option<Doc>, disk: Disk, k: nat, found: map<nat, Content>)
    requires DiskSafe(t, kept, disk) && k <= |disk.journal|
    ensures DiskSafe(t, kept, Crash(disk, k, found))
  {
    hide DirAfter;
    var next := Crash(disk, k, found);
    assert Safe(t, kept, disk.inodes, DirAfter(disk, k));
    assert Spares(disk.inodes, next.inodes);
    WholeJournal(next);
    assert DirAfter(next, 0) == DirAfter(disk, k) by { assert Dir(next) == next.durable; }
  }

  // ---- what each phase knows -----------------------------------------------------------------------

  ghost predicate LibraryIs(disk: Disk, inode: Inode) {
    Safety.ScratchHolds(disk, LibraryFile, inode)
  }

  ghost predicate PhaseKnows(t: Tools, kept: Option<Doc>, m: Machine) {
    var native := NativeIn(m.disk.inodes, Dir(m.disk));
    match m.phase
    case Off | Refused => true
    case Done => ConfigFile in Dir(m.disk) && LibraryFile in Dir(m.disk) && Identified(Read(m.disk, LibraryFile))
    case Recovering => kept.Some? && LibraryFile !in Dir(m.disk)
    case CreateLibrary(first) =>
      LibraryFile !in Dir(m.disk) && first == kept.None? && (first ==> ConfigFile !in Dir(m.disk))
    case MarkReady(first) =>
      && LibraryIs(m.disk, Inode(Library(None, true, false, true), false)) && first == kept.None?
      && (first ==> ConfigFile !in Dir(m.disk))
    case SyncNewLibrary(first) => native && first == kept.None?
    case WriteTemp(s, purpose) => native && kept.None? && s == t.defaults && purpose == Starting
    case SyncTemp(purpose) =>
      && native && kept.None? && purpose == Starting
      && Safety.ScratchHolds(m.disk, ConfigTemp, Inode(Settled(t, kept), false))
    case PublishConfig(purpose) =>
      && native && kept.None? && purpose == Starting
      && Safety.ScratchHolds(m.disk, ConfigTemp, Inode(Settled(t, kept), true))
    case SyncConfigDir(purpose) => native && kept.None? && purpose == Starting && ConfigFile in Dir(m.disk)
    case Verify(purpose) => native && kept.None? && purpose == Starting && ConfigFile in Dir(m.disk)
    case _ => false
  }

  ghost predicate MachineOk(t: Tools, kept: Option<Doc>, m: Machine) {
    DiskSafe(t, kept, m.disk) && PhaseKnows(t, kept, m)
  }

  // ---- one step ------------------------------------------------------------------------------------

  lemma CreateSafe(t: Tools, kept: Option<Doc>, disk: Disk, name: Name, content: Content)
    requires DiskSafe(t, kept, disk) && !Identified(Some(content))
    requires name == ConfigTemp || (name == LibraryFile && LibraryFile !in Dir(disk)
                                    && (kept.None? ==> ConfigFile !in Dir(disk)))
    ensures var next := Create(disk, name, content);
      && DiskSafe(t, kept, next) && Dir(next) == Dir(disk)[name := NewInode(disk)]
      && next.inodes == disk.inodes[NewInode(disk) := Inode(content, false)] && NewInode(disk) !in disk.inodes
  {
    hide Dir, DirAfter, DiskSafe;
    var id := NewInode(disk);
    assert id !in disk.inodes;
    var grown := disk.(inodes := disk.inodes[id := Inode(content, false)]);
    NowSafe(t, kept, disk);
    SparesSafe(t, kept, disk, grown.inodes);
    NowSafe(t, kept, grown);
    assert Safe(t, kept, grown.inodes, Dir(grown)[name := id]);
    PerformSafe(t, kept, grown, Bind(name, id));
  }

  lemma RewriteSafe(t: Tools, kept: Option<Doc>, disk: Disk, name: Name, content: Content)
    requires DiskSafe(t, kept, disk) && name in Dir(disk) && Dir(disk)[name] in disk.inodes
    requires Improves(disk.inodes[Dir(disk)[name]], Inode(content, true))
    ensures var next := Rewrite(disk, name, Inode(content, true));
      && DiskSafe(t, kept, next) && Dir(next) == Dir(disk)
      && next.inodes == disk.inodes[Dir(disk)[name] := Inode(content, true)]
  {
    hide Dir, DiskSafe;
    SparesSafe(t, kept, disk, Rewrite(disk, name, Inode(content, true)).inodes);
  }

  /** The mark leaves a native library native, and everything else alone. */
  lemma StampSafe(t: Tools, kept: Option<Doc>, disk: Disk)
    requires DiskSafe(t, kept, disk)
    ensures DiskSafe(t, kept, Stamp(disk)) && Dir(Stamp(disk)) == Dir(disk)
    ensures Identified(Read(disk, LibraryFile)) ==> Identified(Read(Stamp(disk), LibraryFile))
    ensures Native(Read(disk, LibraryFile)) ==> NativeIn(Stamp(disk).inodes, Dir(disk))
  {
    hide Dir, DiskSafe, Rewrite;
    NowSafe(t, kept, disk);
    var library := Read(disk, LibraryFile);
    if Identified(library) && !library.value.marked {
      RewriteSafe(t, kept, disk, LibraryFile, library.value.(marked := true));
    }
  }

  /** A start decides, and is refused only by a library that is there and does not fit. */
  lemma StartKeeps(t: Tools, kept: Option<Doc>, disk: Disk)
    requires DiskSafe(t, kept, disk) && (kept.Some? ==> Current(t, kept.value))
    ensures MachineOk(t, kept, Started(t, disk))
    ensures var config, library := Read(disk, ConfigFile), Read(disk, LibraryFile);
      Startup(t, disk) == Refused <==>
        library.Some? && !(if config.Some? then Identified(library) else Native(library))
  {
    hide Dir, DiskSafe, Stamp;
    NowSafe(t, kept, disk);
    StampSafe(t, kept, disk);
    ReadsNow(t, kept, disk);
  }

  lemma ReadsNow(t: Tools, kept: Option<Doc>, disk: Disk)
    requires DiskSafe(t, kept, disk)
    ensures Read(disk, ConfigFile) == if ConfigFile in Dir(disk) then Some(Settled(t, kept)) else None
    ensures Read(disk, LibraryFile).Some? <==> LibraryFile in Dir(disk)
    ensures Read(disk, BackupFile) == None
    ensures kept.Some? ==> ConfigFile in Dir(disk)
    ensures kept.None? && ConfigFile in Dir(disk) ==> Native(Read(disk, LibraryFile))
  {
    hide Dir, DiskSafe;
    NowSafe(t, kept, disk);
  }

  lemma CreateKeeps(t: Tools, kept: Option<Doc>, m: Machine)
    requires MachineOk(t, kept, m) && (m.phase.CreateLibrary? || m.phase.WriteTemp?)
    ensures MachineOk(t, kept, Go(t, m)) && Go(t, m).phase != Refused
  {
    hide Dir, DiskSafe, Create;
    NowSafe(t, kept, m.disk);
    if m.phase.CreateLibrary? {
      CreateSafe(t, kept, m.disk, LibraryFile, Library(None, true, false, true));
    } else {
      CreateSafe(t, kept, m.disk, ConfigTemp, NewConfig(t.defaults));
    }
  }

  lemma WriteKeeps(t: Tools, kept: Option<Doc>, m: Machine)
    requires MachineOk(t, kept, m) && (m.phase.MarkReady? || m.phase.SyncTemp?)
    ensures MachineOk(t, kept, Go(t, m)) && Go(t, m).phase != Refused
  {
    hide Dir, DiskSafe, Rewrite;
    NowSafe(t, kept, m.disk);
    if m.phase.MarkReady? {
      RewriteSafe(t, kept, m.disk, LibraryFile, Library(None, true, true, true));
    } else {
      RewriteSafe(t, kept, m.disk, ConfigTemp, Settled(t, kept));
    }
  }

  lemma PublishKeeps(t: Tools, kept: Option<Doc>, m: Machine)
    requires MachineOk(t, kept, m) && m.phase.PublishConfig?
    ensures MachineOk(t, kept, Go(t, m)) && Go(t, m).phase != Refused
  {
    hide Dir, DiskSafe, Perform;
    NowSafe(t, kept, m.disk);
    assert Safe(t, kept, m.disk.inodes, Apply(Dir(m.disk), Rename(ConfigTemp, ConfigFile)));
    PerformSafe(t, kept, m.disk, Rename(ConfigTemp, ConfigFile));
    Safety.PerformInodes(m.disk, Rename(ConfigTemp, ConfigFile));
  }

  lemma SyncKeeps(t: Tools, kept: Option<Doc>, m: Machine)
    requires MachineOk(t, kept, m) && (m.phase.SyncNewLibrary? || m.phase.SyncConfigDir? || m.phase.Verify?)
    ensures MachineOk(t, kept, Go(t, m)) && Go(t, m).phase != Refused
  {
    hide Dir, DiskSafe;
    NowSafe(t, kept, m.disk);
    SyncDirSafe(t, kept, m.disk);
  }

  /** Once under way, no step is refused. */
  lemma GoKeeps(t: Tools, kept: Option<Doc>, m: Machine)
    requires MachineOk(t, kept, m)
    ensures MachineOk(t, kept, Go(t, m)) && (Working(m.phase) ==> Go(t, m).phase != Refused)
  {
    hide DiskSafe, Dir, LibraryIs, NativeIn;
    match m.phase {
      case CreateLibrary(_) | WriteTemp(_, _) => CreateKeeps(t, kept, m);
      case MarkReady(_) | SyncTemp(_) => WriteKeeps(t, kept, m);
      case PublishConfig(_) => PublishKeeps(t, kept, m);
      case SyncNewLibrary(_) | SyncConfigDir(_) | Verify(_) => SyncKeeps(t, kept, m);
      case _ =>
    }
  }

  // ---- every event ---------------------------------------------------------------------------------

  lemma RefuseKeeps(t: Tools, kept: Option<Doc>, m: Machine)
    requires MachineOk(t, kept, m)
    ensures MachineOk(t, kept, Refuse(m))
  {
    hide Dir, DiskSafe, Perform, NativeIn;
    if ConfigTemp in Dir(m.disk) && (m.phase.WriteTemp? || m.phase.SyncTemp? || m.phase.PublishConfig?) {
      NowSafe(t, kept, m.disk);
      assert Safe(t, kept, m.disk.inodes, Apply(Dir(m.disk), Unbind(ConfigTemp))) by { Unlinked(t, kept, m.disk); }
      PerformSafe(t, kept, m.disk, Unbind(ConfigTemp));
    }
  }

  lemma Unlinked(t: Tools, kept: Option<Doc>, disk: Disk)
    requires Safe(t, kept, disk.inodes, Dir(disk))
    ensures Safe(t, kept, disk.inodes, Apply(Dir(disk), Unbind(ConfigTemp)))
  {
    hide Dir;
  }

  lemma ConfirmKeeps(t: Tools, kept: Option<Doc>, m: Machine)
    requires MachineOk(t, kept, m)
    ensures MachineOk(t, kept, Confirmed(m))
  {
    hide Dir, DiskSafe, Read;
  }

  lemma HandleKeeps(t: Tools, kept: Option<Doc>, m: Machine, event: Event)
    requires MachineOk(t, kept, m) && (kept.Some? ==> Current(t, kept.value))
    ensures MachineOk(t, kept, Handle(t, m, event))
  {
    hide DiskSafe, Dir, Go, Started, Refuse, Confirmed, Crash, Current, LibraryIs, NativeIn, Read;
    match event {
      case Launch => StartKeeps(t, kept, m.disk);
      case Confirm => ConfirmKeeps(t, kept, m);
      case Step => GoKeeps(t, kept, m);
      case Fail => RefuseKeeps(t, kept, m);
      case Kill =>
      case PowerLoss(k, found) =>
        if k <= |m.disk.journal| { CrashSafe(t, kept, m.disk, k, found); }
    }
  }

  lemma {:induction false} RunKeeps(t: Tools, kept: Option<Doc>, m: Machine, events: seq<Event>)
    requires MachineOk(t, kept, m) && (kept.Some? ==> Current(t, kept.value))
    ensures MachineOk(t, kept, Run(t, m, events))
    decreases |events|
  {
    hide MachineOk, Handle, Current;
    if events != [] {
      HandleKeeps(t, kept, m, events[0]);
      RunKeeps(t, kept, Handle(t, m, events[0]), events[1..]);
    }
  }

  lemma InitialOk(t: Tools, kept: Option<Doc>)
    ensures MachineOk(t, kept, Initial(kept))
  {
    var disk := Initial(kept).disk;
    forall k | 0 <= k <= |disk.journal| ensures Safe(t, kept, disk.inodes, DirAfter(disk, k)) {
      assert disk.journal[..k] == [];
    }
  }

  lemma MachineDisk(t: Tools, kept: Option<Doc>, m: Machine)
    requires MachineOk(t, kept, m)
    ensures DiskSafe(t, kept, m.disk)
  {
    hide DiskSafe, PhaseKnows;
  }

  /** A library that is there and makes every start refuse. */
  ghost predicate InTheWay(disk: Disk) {
    var config, library := Read(disk, ConfigFile), Read(disk, LibraryFile);
    && library.Some?
    && !(library.value.Library? && library.value.ready && (config.None? ==> library.value.source.None?))
  }

  /**
   First starts and recoveries over whole runs. Whatever errors, kills, power losses and restarts
   happen: a config that was there is untouched; one that was not holds the default settings, and
   comes only after a ready library of the program's own. The next start is refused if and only if a
   library is in the way; otherwise, confirmed and left alone, it ends with config and ready library.
   */
  lemma FirstStartExactly(t: Tools, kept: Option<Doc>, events: seq<Event>)
    requires kept.Some? ==> Current(t, kept.value)
    ensures var m := Run(t, Initial(kept), events);
            var config, library := Read(m.disk, ConfigFile), Read(m.disk, LibraryFile);
            var end := Finish(t, Run(t, m, [Kill, Launch, Confirm]));
      && (kept.Some? ==> config == Some(ConfigDoc(kept.value)))
      && (kept.None? && config.Some? ==>
            && config.value.ConfigDoc? && config.value.doc.version == Some(8)
            && config.value.doc.settings == Some(Written(t.defaults)) && Native(library))
      && (m.phase == Done ==> config.Some? && Identified(library))
      && (end.phase == Refused <==> InTheWay(m.disk))
      && (!InTheWay(m.disk) ==>
            && end.phase == Done && Identified(Read(end.disk, LibraryFile))
            && Read(end.disk, ConfigFile).Some? && Read(end.disk, ConfigFile).value.ConfigDoc?
            && var doc := Read(end.disk, ConfigFile).value.doc;
               match kept
               case None => doc.version == Some(8) && doc.settings == Some(Written(t.defaults))
               case Some(before) => doc == before)
  {
    hide MachineOk, Run, Startup, Started, Read, Finish, Go, Current, InTheWay;
    InitialOk(t, kept);
    var m := Run(t, Initial(kept), events);
    RunKeeps(t, kept, Initial(kept), events);
    MachineDisk(t, kept, m);
    ReadsNow(t, kept, m.disk);
    StartKeeps(t, kept, m.disk);
    Safety.Restarted(t, m);
    var started := Run(t, m, [Kill, Launch, Confirm]);
    RunKeeps(t, kept, m, [Kill, Launch, Confirm]);
    if m.phase == Done { DoneFacts(t, kept, m); }
    StartsWork(t, kept, m.disk);
    FinishEnds(t, kept, started);
    if !InTheWay(m.disk) { DoneFacts(t, kept, Finish(t, started)); }
  }

  lemma DoneFacts(t: Tools, kept: Option<Doc>, m: Machine)
    requires MachineOk(t, kept, m) && m.phase == Done
    ensures Read(m.disk, ConfigFile) == Some(Settled(t, kept)) && Identified(Read(m.disk, LibraryFile))
  {
    hide Dir, DiskSafe, Read;
    ReadsNow(t, kept, m.disk);
  }

  /** A start that is not refused asks to recover, works or is done. */
  lemma StartsWork(t: Tools, kept: Option<Doc>, disk: Disk)
    requires DiskSafe(t, kept, disk) && (kept.Some? ==> Current(t, kept.value))
    ensures var m := Confirmed(Started(t, disk));
      (m.phase == Refused <==> InTheWay(disk)) && (!InTheWay(disk) ==> Working(m.phase) || m.phase == Done)
  {
    hide Dir, DiskSafe, Read, Stamp;
    StartKeeps(t, kept, disk);
    ReadsNow(t, kept, disk);
    StampSafe(t, kept, disk);
    ReadsNow(t, kept, Stamp(disk));
  }

  lemma {:induction false} FinishEnds(t: Tools, kept: Option<Doc>, m: Machine)
    requires MachineOk(t, kept, m) && (Working(m.phase) || m.phase == Done || m.phase == Refused)
    ensures MachineOk(t, kept, Finish(t, m))
    ensures Finish(t, m).phase == if m.phase == Refused then Refused else Done
    decreases Rank(m.phase)
  {
    hide MachineOk, Go;
    if Working(m.phase) {
      GoKeeps(t, kept, m);
      GoRank(t, m);
      Safety.GoesOn(t, m);
      FinishEnds(t, kept, Go(t, m));
    }
  }

  // ---- a start that can never be completed ---------------------------------------------------------

  /** Only a power loss can still get an unready library out of the way: no other event changes a file. */
  lemma {:induction false} StuckForever(t: Tools, m: Machine, events: seq<Event>)
    requires m.phase == Off || m.phase == Refused
    requires Startup(t, m.disk) == Refused && !Identified(Read(m.disk, LibraryFile))
    requires forall i :: 0 <= i < |events| ==> !events[i].PowerLoss?
    ensures var end := Run(t, m, events); end.disk == m.disk && (end.phase == Off || end.phase == Refused)
    decreases |events|
  {
    hide Startup, Read;
    if events != [] {
      StuckForever(t, Handle(t, m, events[0]), events[1..]);
    }
  }

  /**
   Beside a current config and a backup a missing library is never made anew: short of a power loss,
   no start, confirmation, error or kill changes a file.
   */
  lemma {:induction false} BackupBlocks(t: Tools, m: Machine, events: seq<Event>)
    requires m.phase == Off || m.phase == Refused || m.phase == Recovering
    requires Startup(t, m.disk) == Recovering && Read(m.disk, BackupFile).Some?
    requires forall i :: 0 <= i < |events| ==> !events[i].PowerLoss?
    ensures Run(t, m, events).disk == m.disk
    decreases |events|
  {
    hide Read;
    if events != [] {
      BackupBlocks(t, Handle(t, m, events[0]), events[1..]);
    }
  }

  /** A first start that has created the library and is killed. */
  ghost function Created(): Machine {
    Machine(Create(Initial(None).disk, LibraryFile, Library(None, true, false, true)), Off)
  }

  lemma CreatedThen(t: Tools)
    ensures Handle(t, Handle(t, Handle(t, Initial(None), Launch), Step), Kill) == Created()
  {
    var start := Initial(None);
    assert Dir(start.disk) == map[];
    assert Handle(t, start, Launch).phase == CreateLibrary(true) && Handle(t, start, Launch).disk == start.disk;
  }

  lemma CreatedInTheWay()
    ensures InTheWay(Created().disk)
  {
    var start := Initial(None);
    assert Dir(start.disk) == map[];
    PerformDir(start.disk.(inodes := Created().disk.inodes), Bind(LibraryFile, NewInode(start.disk)));
  }

  /** A first start killed between creating the library and marking it ready can never be completed. */
  lemma KilledFirstStart(t: Tools, events: seq<Event>)
    requires forall i :: 0 <= i < |events| ==> !events[i].PowerLoss?
    ensures var m := Run(t, Initial(None), [Launch, Step, Kill]);
      && InTheWay(m.disk) && Run(t, m, events).disk == m.disk
      && (Run(t, m, events).phase == Off || Run(t, m, events).phase == Refused)
  {
    hide Run, InTheWay;
    var start, m := Initial(None), Created();
    ThreeEvents(t, start, Launch, Step, Kill);
    CreatedThen(t);
    CreatedInTheWay();
    StuckForever(t, m, events);
  }

  lemma ThreeEvents(t: Tools, m: Machine, a: Event, b: Event, c: Event)
    ensures Run(t, m, [a, b, c]) == Handle(t, Handle(t, Handle(t, m, a), b), c)
  {
    hide Handle;
    assert [a, b, c][1..] == [b, c] && [b, c][1..] == [c] && [c][1..] == [];
    assert Run(t, m, [a, b, c]) == Run(t, Handle(t, m, a), [b, c]);
    assert Run(t, Handle(t, m, a), [b, c]) == Run(t, Handle(t, Handle(t, m, a), b), [c]);
    assert Run(t, Handle(t, Handle(t, m, a), b), [c]) == Run(t, Handle(t, Handle(t, Handle(t, m, a), b), c), []);
  }
}
