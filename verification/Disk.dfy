/**
 A directory that survives crashes the way a journaling file system does: directory operations
 reach the disk in order, so a crash keeps a prefix of those not yet synced, and a file whose
 contents were not synced may come back holding anything.
 */
module Disk {
  import opened Wrappers
  import opened Tables
  import opened ImportOrder

  datatype Name = ConfigFile | BackupFile | LibraryFile | BackupCandidate | LibraryCandidate | ConfigTemp

  /** The settings of a config: written out by the program, which it can read back, or some other text. */
  datatype Settings = Written(value: string) | Foreign(text: string)

  /** A config.json, by what its bytes parse to; the document stands for the bytes. */
  datatype Doc = Doc(version: Option<nat>, settings: Option<Settings>, sounds: seq<LegacySound>, rest: string)

  /** `marked`: the file carries the program's application id. */
  datatype Content =
    | ConfigDoc(doc: Doc)
    | Library(source: Option<Doc>, complete: bool, ready: bool, marked: bool)
    | Garbage(noise: nat)

  datatype Inode = Inode(content: Content, synced: bool)

  datatype DirOp = Bind(name: Name, inode: nat) | Unbind(name: Name) | Rename(from: Name, to: Name)

  type Directory = map<Name, nat>

  datatype Disk = Disk(inodes: map<nat, Inode>, durable: Directory, journal: seq<DirOp>)

  function Apply(dir: Directory, op: DirOp): Directory {
    match op
    case Bind(name, inode) => dir[name := inode]
    case Unbind(name) => dir - {name}
    case Rename(from, to) => if from in dir then dir[to := dir[from]] - {from} else dir
  }

  function ApplyAll(dir: Directory, ops: seq<DirOp>): Directory {
    if ops == [] then dir else Apply(ApplyAll(dir, ops[..|ops| - 1]), ops[|ops| - 1])
  }

  /** What a running program sees. */
  function Dir(disk: Disk): Directory {
    ApplyAll(disk.durable, disk.journal)
  }

  /** What a crash leaves when `kept` operations of the journal had reached the disk. */
  function DirAfter(disk: Disk, kept: nat): Directory
    requires kept <= |disk.journal|
  {
    ApplyAll(disk.durable, disk.journal[..kept])
  }

  function Read(disk: Disk, name: Name): Option<Content> {
    if name in Dir(disk) && Dir(disk)[name] in disk.inodes then Some(disk.inodes[Dir(disk)[name]].content) else None
  }

  // ---- what programs do ---------------------------------------------------------------------------

  function Perform(disk: Disk, op: DirOp): Disk {
    disk.(journal := disk.journal + [op])
  }

  function NewInode(disk: Disk): nat {
    NextId(disk.inodes.Keys)
  }

  /** A new file with unsynced contents. */
  function Create(disk: Disk, name: Name, content: Content): Disk {
    Perform(disk.(inodes := disk.inodes[NewInode(disk) := Inode(content, false)]), Bind(name, NewInode(disk)))
  }

  /** Writes to the file a name stands for. */
  function Rewrite(disk: Disk, name: Name, inode: Inode): Disk {
    if name in Dir(disk) then disk.(inodes := disk.inodes[Dir(disk)[name] := inode]) else disk
  }

  function SyncFile(disk: Disk, name: Name): Disk {
    match Read(disk, name)
    case None => disk
    case Some(content) => Rewrite(disk, name, Inode(content, true))
  }

  function SyncDir(disk: Disk): Disk {
    disk.(durable := Dir(disk), journal := [])
  }

  function Remove(disk: Disk, name: Name): Disk {
    if name in Dir(disk) then Perform(disk, Unbind(name)) else disk
  }

  /** Candidates left by an earlier attempt go first, and stay gone. */
  function RemoveStale(disk: Disk, name: Name): Disk {
    if name in Dir(disk) then SyncDir(Remove(disk, name)) else disk
  }

  // ---- what a crash does ---------------------------------------------------------------------------

  /** Unsynced files come back holding whatever `found` says, or what they held. */
  function Crash(disk: Disk, kept: nat, found: map<nat, Content>): Disk
    requires kept <= |disk.journal|
  {
    Disk(map i | i in disk.inodes ::
           Inode(if !disk.inodes[i].synced && i in found then found[i] else disk.inodes[i].content, true),
         DirAfter(disk, kept), [])
  }

  lemma PerformDir(disk: Disk, op: DirOp)
    ensures Dir(Perform(disk, op)) == Apply(Dir(disk), op)
    ensures forall k :: 0 <= k <= |disk.journal| ==> DirAfter(Perform(disk, op), k) == DirAfter(disk, k)
    ensures DirAfter(Perform(disk, op), |disk.journal| + 1) == Apply(Dir(disk), op)
  {
    var journal := disk.journal + [op];
    assert journal[..|disk.journal|] == disk.journal;
    assert journal[..|disk.journal| + 1] == journal;
    forall k | 0 <= k <= |disk.journal| ensures journal[..k] == disk.journal[..k] {}
  }

  lemma WholeJournal(disk: Disk)
    ensures DirAfter(disk, |disk.journal|) == Dir(disk)
    ensures Dir(SyncDir(disk)) == Dir(disk) && forall k :: 0 <= k <= 0 ==> DirAfter(SyncDir(disk), k) == Dir(disk)
  {
    assert disk.journal[..|disk.journal|] == disk.journal;
  }

  /**
   What a crash may do to a file just created: bring it back holding anything while it is not synced,
   or take its name away while the directory is not. A synced file keeps its contents.
   */
  lemma CrashLoses(disk: Disk, name: Name, content: Content, noise: Content)
    ensures var made := Create(disk, name, content);
            var n := |disk.journal|;
      && n + 1 == |made.journal|
      && Read(Crash(made, n + 1, map[NewInode(disk) := noise]), name) == Some(noise)
      && Dir(Crash(made, n, map[])) == Dir(disk)
      && Read(Crash(SyncFile(made, name), n + 1, map[NewInode(disk) := noise]), name) == Some(content)
  {
    var id := NewInode(disk);
    var grown := disk.(inodes := disk.inodes[id := Inode(content, false)]);
    var made := Create(disk, name, content);
    PerformDir(grown, Bind(name, id));
    WholeJournal(disk);
    WholeJournal(made);
    assert Dir(grown) == Dir(disk);
    assert DirAfter(made, |disk.journal|) == DirAfter(grown, |disk.journal|) == DirAfter(disk, |disk.journal|);
    var synced := SyncFile(made, name);
    assert Dir(synced) == Dir(made) && DirAfter(synced, |made.journal|) == DirAfter(made, |made.journal|);
  }
}
