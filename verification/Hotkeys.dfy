/**
 The hotkey table and the three commands that edit it: a conflict check, then a commit. With
 liveness fixed, no run of commands lets a control or tab chord be shared, and with sharing off
 no two eligible bindings of a chord have meeting scopes.
 */
module Hotkeys {
  import opened Wrappers
  import opened Ordering
  import opened Tables
  import opened FolderScan

  /** A chord's canonical spelling, or None when it cannot be parsed. */
  type Canonicalizer = string -> Option<string>

  /** Canonical chords are their own canonical spelling and are never blank. */
  ghost predicate Canonical(canonicalize: Canonicalizer) {
    forall h :: canonicalize(h).Some? ==>
      canonicalize(canonicalize(h).value) == canonicalize(h) && !Blank(canonicalize(h).value)
  }

  /** The Unicode property White_Space, which trimming removes. */
  predicate IsWhite(c: char) {
    var code := c as int;
    || 0x9 <= code <= 0xD || code == 0x20 || code == 0x85 || code == 0xA0 || code == 0x1680
    || 0x2000 <= code <= 0x200A || code == 0x2028 || code == 0x2029 || code == 0x202F || code == 0x205F
      || code == 0x3000
  }

  predicate Blank(s: string) {
    forall c :: c in s ==> IsWhite(c)
  }

  // ---- rows and slots ---------------------------------------------------------------------------

  /** IFNULL(tab_scope, ''). */
  function ScopeKey(scope: Option<string>): string {
    match scope case None => "" case Some(tab) => tab
  }

  /** The unique indexes: one row per control action, per target tab, and per sound and scope. */
  predicate SameSlot(row: Binding, owner: Owner, scope: Option<string>) {
    row.owner == owner && (owner.SoundOwner? ==> ScopeKey(row.scope) == ScopeKey(scope))
  }

  ghost predicate UniqueSlots(bindings: map<string, Binding>) {
    forall a, b :: a in bindings && b in bindings && SameSlot(bindings[a], bindings[b].owner, bindings[b].scope) ==>
      a == b
  }

  /** The rows a set deletes first. */
  function Displaced(bindings: map<string, Binding>, id: string, owner: Owner, scope: Option<string>): set<string> {
    set b | b in bindings && (b == id || SameSlot(bindings[b], owner, scope))
  }

  /** An insert that would break the primary key or a unique index. */
  predicate Clashes(bindings: map<string, Binding>, id: string, owner: Owner, scope: Option<string>) {
    id in bindings || exists b :: b in bindings && SameSlot(bindings[b], owner, scope)
  }

  datatype RecordOwner = OfSound(publicId: string) | OfControl(action: string) | OfTab(tab: string)

  datatype Record = Record(bindingId: string, owner: RecordOwner, scope: Option<string>, accelerator: string,
                           normalized: Option<string>, issue: Option<string>)

  /** What the store refuses before it opens a transaction. */
  predicate Acceptable(canonicalize: Canonicalizer, record: Record) {
    && !Blank(record.bindingId) && !Blank(record.accelerator)
    && (record.normalized.Some? ==>
          !Blank(record.normalized.value) && canonicalize(record.accelerator) == record.normalized)
    && (record.normalized.None? ==> record.issue.Some? && record.issue.value != "")
    && (record.owner.OfTab? ==> record.scope.None?)
  }

  function OwnerOf(db: Db, owner: RecordOwner): Option<Owner> {
    match owner
    case OfSound(publicId) =>
      (match SoundNamed(db.sounds, publicId) case None => None case Some(s) => Some(SoundOwner(s)))
    case OfControl(action) => if Blank(action) then None else Some(ControlOwner(action))
    case OfTab(tab) => if Blank(tab) then None else Some(TabOwner(tab))
  }

  function RowOfRecord(record: Record, owner: Owner): Binding {
    Binding(owner, record.scope, record.accelerator, record.normalized,
            if record.normalized.Some? then None else record.issue)
  }

  function SetBinding(db: Db, canonicalize: Canonicalizer, record: Record): Result<Db, LibraryError> {
    if !Acceptable(canonicalize, record) then Failure(InvalidData)
    else match OwnerOf(db, record.owner)
         case None => Failure(InvalidData)
         case Some(owner) =>
           var rest := db.bindings - Displaced(db.bindings, record.bindingId, owner, record.scope);
           if Clashes(rest, record.bindingId, owner, record.scope) then Failure(Database)
           else Success(db.(bindings := rest[record.bindingId := RowOfRecord(record, owner)]))
  }

  method SetHotkeyBinding(c: Connection, canonicalize: Canonicalizer, record: Record) returns (r: Option<LibraryError>)
    modifies c
    ensures match SetBinding(old(c.db), canonicalize, record)
      case Failure(e) => r == Some(e) && c.db == old(c.db)
      case Success(next) => r == None && c.db == next
  {
    if !Acceptable(canonicalize, record) {
      return Some(InvalidData);
    }
    var tx := new Transaction(c);
    var owner := OwnerOf(tx.db, record.owner);
    if owner.None? {
      return Some(InvalidData);
    }
    var displaced := Displaced(tx.db.bindings, record.bindingId, owner.value, record.scope);
    tx.db := tx.db.(bindings := tx.db.bindings - displaced);
    if Clashes(tx.db.bindings, record.bindingId, owner.value, record.scope) {
      return Some(Database);
    }
    tx.db := tx.db.(bindings := tx.db.bindings[record.bindingId := RowOfRecord(record, owner.value)]);
    tx.Commit(c);
    return None;
  }

  method DeleteHotkeyBinding(c: Connection, id: string) returns (deleted: bool)
    modifies c
    ensures c.db == old(c.db).(bindings := old(c.db.bindings) - {id})
    ensures deleted <==> id in old(c.db.bindings)
  {
    deleted := id in c.db.bindings;
    c.db := c.db.(bindings := c.db.bindings - {id});
  }

  // ---- the conflict query ---------------------------------------------------------------------------

  /** A binding that can answer a press: a control, a tab, or a live sound. */
  predicate Eligible(db: Db, b: string)
    requires b in db.bindings
  {
    db.bindings[b].owner.SoundOwner? ==> Live(db, db.bindings[b].owner.sound)
  }

  predicate Rings(bindings: map<string, Binding>, b: string, chord: string) {
    b in bindings && bindings[b].normalized == Some(chord)
  }

  predicate ScopesMeet(a: Option<string>, b: Option<string>) {
    a.None? || b.None? || a == b
  }

  predicate Conflicting(db: Db, b: string, id: string, chord: string, mayShare: bool, scope: Option<string>) {
    && Rings(db.bindings, b, chord) && b != id && Eligible(db, b)
    && (mayShare ==> !db.bindings[b].owner.SoundOwner?)
    && ScopesMeet(db.bindings[b].scope, scope)
  }

  predicate Conflict(db: Db, id: string, chord: Option<string>, mayShare: bool, scope: Option<string>) {
    chord.Some? && exists b :: b in db.bindings && Conflicting(db, b, id, chord.value, mayShare, scope)
  }

  // ---- commands ----------------------------------------------------------------------------------------

  datatype CommandError = Unparsable | Taken | Invalid | Library(error: LibraryError) | Projection

  const CONTROL_PREFIX: string := "control:"
  const TAB_PREFIX: string := "tab-hotkey:"
  const CONTROL_ACTIONS: set<string> :=
    {"play_pause", "stop_all", "previous_sound", "next_sound", "mute_headphones", "mute_real_mic",
     "cycle_play_mode", "cycle_group_mode"}

  function ControlId(action: string): string { CONTROL_PREFIX + action }

  function TabId(tab: string): string { TAB_PREFIX + tab }

  /** The tab a press activates, if the binding id is that of a tab hotkey. */
  function TabOf(id: string): Option<string> {
    if TAB_PREFIX <= id then Some(id[|TAB_PREFIX|..]) else None
  }

  function ParseHotkey(canonicalize: Canonicalizer, hotkey: Option<string>): Result<Option<string>, CommandError> {
    match hotkey
    case None => Success(None)
    case Some(h) => (match canonicalize(h) case None => Failure(Unparsable) case Some(chord) => Success(Some(chord)))
  }

  /** The sound's row at exactly this scope. */
  function ExistingRows(db: Db, publicId: string, scope: Option<string>): set<string> {
    set b | b in db.bindings && db.bindings[b].owner.SoundOwner? && db.bindings[b].scope == scope
            && db.bindings[b].owner.sound in db.sounds && db.sounds[db.bindings[b].owner.sound].publicId == publicId
  }

  function IdKeys(ids: set<string>): map<string, Key> {
    map b | b in ids :: Key(0, Text(b))
  }

  /** The id the command works on: the existing row's, or a fresh one. */
  function SoundBindingId(db: Db, publicId: string, scope: Option<string>, newId: string): (id: string)
    ensures id == newId || id in ExistingRows(db, publicId, scope)
  {
    var ids := ExistingRows(db, publicId, scope);
    if ids == {} then newId
    else
      assert Distinct(IdKeys(ids));
      SortElements(IdKeys(ids));
      var first := Sort(IdKeys(ids))[0];
      assert first in Elements(Sort(IdKeys(ids)));
      first
  }

  datatype Command =
    | SetSound(publicId: string, hotkey: Option<string>, multi: bool, scope: Option<string>, newId: string)
    | SetControl(action: string, hotkey: Option<string>)
    | SetTab(tab: string, hotkey: Option<string>)

  /** The row a command is about: its id, owner, scope and whether sounds may share the chord. */
  datatype Target = Target(id: string, owner: RecordOwner, scope: Option<string>, mayShare: bool)

  function TargetOf(db: Db, command: Command): Result<Target, CommandError> {
    match command
    case SetSound(publicId, _, multi, scope, newId) =>
      Success(Target(SoundBindingId(db, publicId, scope, newId), OfSound(publicId), scope, multi))
    case SetControl(action, _) =>
      if action !in CONTROL_ACTIONS then Failure(Invalid)
      else Success(Target(ControlId(action), OfControl(action), None, false))
    case SetTab(tab, _) =>
      if Blank(tab) then Failure(Invalid) else Success(Target(TabId(tab), OfTab(tab), None, false))
  }

  function CommitBinding(db: Db, canonicalize: Canonicalizer, target: Target,
                         chord: Option<string>): Result<Db, CommandError> {
    match chord
    case None => Success(db.(bindings := db.bindings - {target.id}))
    case Some(h) =>
      match SetBinding(db, canonicalize, Record(target.id, target.owner, target.scope, h, Some(h), None))
      case Failure(e) => Failure(Library(e))
      case Success(next) => Success(next)
  }

  function Execute(db: Db, canonicalize: Canonicalizer, command: Command): Result<Db, CommandError> {
    match TargetOf(db, command)
    case Failure(e) => Failure(e)
    case Success(target) =>
      match ParseHotkey(canonicalize, command.hotkey)
      case Failure(e) => Failure(e)
      case Success(chord) =>
        if Conflict(db, target.id, chord, target.mayShare, target.scope) then Failure(Taken)
        else CommitBinding(db, canonicalize, target, chord)
  }

  /**
   Writes the row, then projects the table anew. The projection comes after the transaction: if it
   fails the command reports it, but the row stays written.
   */
  method CommitHotkeyBinding(c: Connection, canonicalize: Canonicalizer, target: Target, chord: Option<string>,
                             projects: bool)
    returns (r: Option<CommandError>)
    modifies c
    ensures match CommitBinding(old(c.db), canonicalize, target, chord)
      case Failure(e) => r == Some(e) && c.db == old(c.db)
      case Success(next) => r == (if projects then None else Some(Projection)) && c.db == next
  {
    hide SetBinding;
    if chord.Some? {
      var failed := SetHotkeyBinding(c, canonicalize,
        Record(target.id, target.owner, target.scope, chord.value, chord, None));
      if failed.Some? {
        return Some(Library(failed.value));
      }
    } else {
      var deleted := DeleteHotkeyBinding(c, target.id);
    }
    return if projects then None else Some(Projection);
  }

  /** A command that nothing interrupts between its check and its commit. */
  method ExecuteCommand(c: Connection, canonicalize: Canonicalizer, command: Command, projects: bool)
    returns (r: Option<CommandError>)
    modifies c
    ensures match Execute(old(c.db), canonicalize, command)
      case Failure(e) => r == Some(e) && c.db == old(c.db)
      case Success(next) => r == (if projects then None else Some(Projection)) && c.db == next
  {
    hide Conflict, CommitBinding;
    var target := TargetOf(c.db, command);
    if target.Failure? {
      return Some(target.error);
    }
    var chord := ParseHotkey(canonicalize, command.hotkey);
    if chord.Failure? {
      return Some(chord.error);
    }
    if Conflict(c.db, target.value.id, chord.value, target.value.mayShare, target.value.scope) {
      return Some(Taken);
    }
    r := CommitHotkeyBinding(c, canonicalize, target.value, chord.value, projects);
  }

  // ---- what every command keeps ------------------------------------------------------------------------

  predicate Reserved(id: string) {
    CONTROL_PREFIX <= id || TAB_PREFIX <= id
  }

  /** Row ids tell owners apart, and only sound rows have a scope. */
  ghost predicate WellNamed(bindings: map<string, Binding>) {
    forall b :: b in bindings ==>
      match bindings[b].owner
      case SoundOwner(_) => !Reserved(b) && !Blank(b)
      case ControlOwner(action) => b == ControlId(action) && bindings[b].scope.None?
      case TabOwner(tab) => b == TabId(tab) && bindings[b].scope.None?
  }

  /** A control or tab chord is shared with no other eligible binding. */
  ghost predicate Exclusive(db: Db) {
    forall a, b, chord :: Rings(db.bindings, a, chord) && Answers(db, b, chord) && a != b ==>
      db.bindings[a].owner.SoundOwner?
  }

  /** Eligible bindings of one chord have pairwise different tabs as their scopes. */
  ghost predicate NoOverlap(db: Db) {
    forall a, b, chord :: Answers(db, a, chord) && Answers(db, b, chord) && a != b
      ==> !ScopesMeet(db.bindings[a].scope, db.bindings[b].scope)
  }

  ghost predicate Answers(db: Db, b: string, chord: string) {
    Rings(db.bindings, b, chord) && Eligible(db, b)
  }

  ghost predicate TableOk(db: Db) {
    UniqueSlots(db.bindings) && WellNamed(db.bindings)
  }

  /** The fresh id of a sound command is a new one, as a random UUID is. */
  ghost predicate FreshFor(db: Db, command: Command) {
    command.SetSound? ==> command.newId !in db.bindings && !Reserved(command.newId) && !Blank(command.newId)
  }

  lemma LiveIgnoresBindings(db: Db, bindings: map<string, Binding>, s: nat)
    ensures Live(db.(bindings := bindings), s) <==> Live(db, s)
  {
    var next := db.(bindings := bindings);
    forall k | k in db.locations ensures Shown(next, k) <==> Shown(db, k) {
      forall f ensures HiddenFolder(next, f) <==> HiddenFolder(db, f) {}
    }
  }

  /** How a successful command leaves the table. */
  ghost predicate Committed(db: Db, next: Db, target: Target, owner: Owner, chord: Option<string>) {
    && next == db.(bindings := next.bindings)
    && (forall b :: b in next.bindings && b != target.id ==> b in db.bindings && next.bindings[b] == db.bindings[b])
    && (forall b :: b in db.bindings && b !in next.bindings ==>
          b == target.id || SameSlot(db.bindings[b], owner, target.scope))
    && (chord.None? ==> target.id !in next.bindings)
    && (chord.Some? ==>
          && target.id in next.bindings
          && next.bindings[target.id] == Binding(owner, target.scope, chord.value, chord, None)
          && forall b :: b in next.bindings && SameSlot(next.bindings[b], owner, target.scope) ==> b == target.id)
  }

  lemma SetCommits(db: Db, canonicalize: Canonicalizer, target: Target, owner: Owner, h: string)
    requires OwnerOf(db, target.owner) == Some(owner)
    requires CommitBinding(db, canonicalize, target, Some(h)).Success?
    ensures Committed(db, CommitBinding(db, canonicalize, target, Some(h)).value, target, owner, Some(h))
  {
    hide OwnerOf, Acceptable;
  }

  lemma DeleteCommits(db: Db, canonicalize: Canonicalizer, target: Target, owner: Owner)
    ensures Committed(db, CommitBinding(db, canonicalize, target, None).value, target, owner, None)
  {}

  /** The target's id and scope suit its owner. */
  ghost predicate Suits(target: Target, owner: Owner) {
    match owner
    case SoundOwner(_) => !Reserved(target.id) && !Blank(target.id)
    case ControlOwner(action) => target.id == ControlId(action) && target.scope.None? && !target.mayShare
    case TabOwner(tab) => target.id == TabId(tab) && target.scope.None? && !target.mayShare
  }

  lemma CommittedTable(db: Db, next: Db, target: Target, owner: Owner, chord: Option<string>)
    requires TableOk(db) && Committed(db, next, target, owner, chord) && Suits(target, owner)
    ensures TableOk(next)
  {}

  /** A press of a binding id activates a tab exactly when the row belongs to that tab's hotkey. */
  lemma PressDispatch(bindings: map<string, Binding>, b: string, tab: string)
    requires WellNamed(bindings) && b in bindings
    ensures TabOf(b) == Some(tab) <==> bindings[b].owner == TabOwner(tab)
  {
    assert forall s :: TabId(s)[|TAB_PREFIX|..] == s;
    if TabOf(b).Some? {
      assert b[0] == 't';
    }
    assert forall s :: ControlId(s)[0] == 'c';
  }

  lemma EligibleStays(db: Db, next: Db, b: string)
    requires next == db.(bindings := next.bindings) && b in db.bindings && b in next.bindings
    requires next.bindings[b] == db.bindings[b]
    ensures Eligible(next, b) <==> Eligible(db, b)
  {
    hide Live;
    if db.bindings[b].owner.SoundOwner? {
      LiveIgnoresBindings(db, next.bindings, db.bindings[b].owner.sound);
    }
  }

  lemma CommittedExclusive(db: Db, next: Db, target: Target, owner: Owner, chord: Option<string>)
    requires WellNamed(db.bindings) && Exclusive(db) && Committed(db, next, target, owner, chord)
      && Suits(target, owner)
    requires !Conflict(db, target.id, chord, target.mayShare, target.scope)
    ensures Exclusive(next)
  {
    hide Live, SameSlot;
    forall a, b, h | Rings(next.bindings, a, h) && Answers(next, b, h) && a != b
      ensures next.bindings[a].owner.SoundOwner?
    {
      if b != target.id { EligibleStays(db, next, b); }
      if a != target.id { EligibleStays(db, next, a); }
      assert a != target.id && b != target.id ==> Rings(db.bindings, a, h) && Answers(db, b, h);
      var other := if a == target.id then b else a;
      assert chord == Some(h) ==> !Conflicting(db, other, target.id, h, target.mayShare, target.scope);
    }
  }

  lemma CommittedNoOverlap(db: Db, next: Db, target: Target, owner: Owner, chord: Option<string>)
    requires NoOverlap(db) && Committed(db, next, target, owner, chord) && !target.mayShare
    requires !Conflict(db, target.id, chord, target.mayShare, target.scope)
    ensures NoOverlap(next)
  {
    hide Live, SameSlot;
    forall a, b, h | Answers(next, a, h) && Answers(next, b, h) && a != b
      ensures !ScopesMeet(next.bindings[a].scope, next.bindings[b].scope)
    {
      if b != target.id { EligibleStays(db, next, b); }
      if a != target.id { EligibleStays(db, next, a); }
      assert a != target.id && b != target.id ==> Answers(db, a, h) && Answers(db, b, h);
      var other := if a == target.id then b else a;
      assert chord == Some(h) ==> !Conflicting(db, other, target.id, h, target.mayShare, target.scope);
    }
  }

  /** The owner a command's target stands for. */
  lemma TargetOwner(db: Db, canonicalize: Canonicalizer, command: Command) returns (owner: Owner)
    requires WellNamed(db.bindings) && FreshFor(db, command) && Execute(db, canonicalize, command).Success?
    ensures TargetOf(db, command).Success?
    ensures Suits(TargetOf(db, command).value, owner)
    ensures OwnerOf(db, TargetOf(db, command).value.owner).None?
      || OwnerOf(db, TargetOf(db, command).value.owner) == Some(owner)
  {
    hide Conflict, SetBinding;
    var target := TargetOf(db, command).value;
    match command
    case SetSound(publicId, _, _, _, _) =>
      var sound := SoundNamed(db.sounds, publicId);
      owner := SoundOwner(if sound.Some? then sound.value else 0);
    case SetControl(action, _) => owner := ControlOwner(action);
    case SetTab(tab, _) => owner := TabOwner(tab);
  }

  /**
   One command. It keeps the table well formed and control and tab chords exclusive; a command
   that does not let sounds share keeps chords free of overlap. It writes one row, displaces only
   rows of the same owner and scope, and never meets a uniqueness failure.
   */
  lemma ExecuteKeeps(db: Db, canonicalize: Canonicalizer, command: Command)
    requires TableOk(db) && FreshFor(db, command)
    ensures Execute(db, canonicalize, command) != Failure(Library(Database))
    ensures Execute(db, canonicalize, command).Success? ==>
      var next := Execute(db, canonicalize, command).value;
      && next == db.(bindings := next.bindings) && TableOk(next)
      && (Exclusive(db) ==> Exclusive(next))
      && (NoOverlap(db) && !(command.SetSound? && command.multi) ==> NoOverlap(next))
  {
    hide Conflict, UniqueSlots, WellNamed, Exclusive, NoOverlap, Committed, SetBinding, OwnerOf;
    NeverClashes(db, canonicalize, command);
    if Execute(db, canonicalize, command).Success? {
      var next := Execute(db, canonicalize, command).value;
      var owner := TargetOwner(db, canonicalize, command);
      var target := TargetOf(db, command).value;
      var chord := ParseHotkey(canonicalize, command.hotkey).value;
      if chord.Some? {
        CommitHasOwner(db, canonicalize, target, chord.value);
        SetCommits(db, canonicalize, target, owner, chord.value);
      } else {
        DeleteCommits(db, canonicalize, target, owner);
      }
      assert next == db.(bindings := next.bindings) by { CommittedFrame(db, next, target, owner, chord); }
      CommittedTable(db, next, target, owner, chord);
      if Exclusive(db) { CommittedExclusive(db, next, target, owner, chord); }
      if NoOverlap(db) && !target.mayShare { CommittedNoOverlap(db, next, target, owner, chord); }
    }
  }

  lemma CommittedFrame(db: Db, next: Db, target: Target, owner: Owner, chord: Option<string>)
    requires Committed(db, next, target, owner, chord)
    ensures next == db.(bindings := next.bindings)
  {}

  lemma CommitHasOwner(db: Db, canonicalize: Canonicalizer, target: Target, h: string)
    requires CommitBinding(db, canonicalize, target, Some(h)).Success?
    ensures OwnerOf(db, target.owner).Some?
  {
    hide OwnerOf, Acceptable;
  }

  lemma NeverClashes(db: Db, canonicalize: Canonicalizer, command: Command)
    ensures Execute(db, canonicalize, command) != Failure(Library(Database))
  {
    hide Conflict, SetBinding, SoundBindingId;
    if TargetOf(db, command).Success? && ParseHotkey(canonicalize, command.hotkey).Success? {
      var target := TargetOf(db, command).value;
      var chord := ParseHotkey(canonicalize, command.hotkey).value;
      if chord.Some? {
        SetNeverClashes(db, canonicalize, Record(target.id, target.owner, target.scope, chord.value, chord, None));
      }
    }
  }

  lemma SetNeverClashes(db: Db, canonicalize: Canonicalizer, record: Record)
    ensures SetBinding(db, canonicalize, record) != Failure(Database)
  {
    hide OwnerOf, Acceptable, SameSlot;
  }

  /** The row a successful command writes, and all it removes. */
  lemma ExecuteWrites(db: Db, canonicalize: Canonicalizer, command: Command) returns (owner: Owner)
    requires TableOk(db) && FreshFor(db, command) && Execute(db, canonicalize, command).Success?
    ensures TargetOf(db, command).Success? && ParseHotkey(canonicalize, command.hotkey).Success?
    ensures var target := TargetOf(db, command).value;
      && Suits(target, owner)
      && Committed(db, Execute(db, canonicalize, command).value, target, owner,
                   ParseHotkey(canonicalize, command.hotkey).value)
  {
    hide Conflict, UniqueSlots, WellNamed, Committed, SetBinding, OwnerOf;
    owner := TargetOwner(db, canonicalize, command);
    var target := TargetOf(db, command).value;
    var chord := ParseHotkey(canonicalize, command.hotkey).value;
    if chord.Some? {
      CommitHasOwner(db, canonicalize, target, chord.value);
      SetCommits(db, canonicalize, target, owner, chord.value);
    } else {
      DeleteCommits(db, canonicalize, target, owner);
    }
  }

  /** A command is refused only for an unknown target, a chord that does not parse, or a chord in use. */
  lemma ExecuteSucceedsExactly(db: Db, canonicalize: Canonicalizer, command: Command)
    requires Canonical(canonicalize) && WellNamed(db.bindings) && FreshFor(db, command)
    ensures Execute(db, canonicalize, command).Success? <==>
      (&& TargetOf(db, command).Success?
       && ParseHotkey(canonicalize, command.hotkey).Success?
       && var target := TargetOf(db, command).value;
          var chord := ParseHotkey(canonicalize, command.hotkey).value;
          && (chord.Some? ==> OwnerOf(db, target.owner).Some?)
          && !Conflict(db, target.id, chord, target.mayShare, target.scope))
  {
    hide Conflict, SetBinding, OwnerOf, Canonical, WellNamed, FreshFor, Blank, TargetOf, ParseHotkey;
    if TargetOf(db, command).Success? && ParseHotkey(canonicalize, command.hotkey).Success? {
      var target := TargetOf(db, command).value;
      var chord := ParseHotkey(canonicalize, command.hotkey).value;
      if chord.Some? {
        TargetNotBlank(db, command);
        TargetTabs(db, command);
        ParsedChord(canonicalize, command.hotkey);
        SetAccepts(db, canonicalize, Record(target.id, target.owner, target.scope, chord.value, chord, None));
      }
    }
  }

  lemma ParsedChord(canonicalize: Canonicalizer, hotkey: Option<string>)
    requires Canonical(canonicalize) && ParseHotkey(canonicalize, hotkey).Success?
    requires ParseHotkey(canonicalize, hotkey).value.Some?
    ensures var chord := ParseHotkey(canonicalize, hotkey).value.value;
      !Blank(chord) && canonicalize(chord) == Some(chord)
  {
    hide Blank;
  }

  lemma TargetTabs(db: Db, command: Command)
    requires TargetOf(db, command).Success?
    ensures TargetOf(db, command).value.owner.OfTab? ==> TargetOf(db, command).value.scope.None?
  {}

  lemma TargetNotBlank(db: Db, command: Command)
    requires WellNamed(db.bindings) && FreshFor(db, command) && TargetOf(db, command).Success?
    ensures !Blank(TargetOf(db, command).value.id)
  {
    if command.SetControl? {
      assert 'c' in ControlId(command.action) by { assert ControlId(command.action)[0] == 'c'; }
    } else if command.SetTab? {
      assert 't' in TabId(command.tab) by { assert TabId(command.tab)[0] == 't'; }
    }
  }

  lemma SetAccepts(db: Db, canonicalize: Canonicalizer, record: Record)
    requires !Blank(record.bindingId) && record.normalized == Some(record.accelerator) && !Blank(record.accelerator)
    requires canonicalize(record.accelerator) == record.normalized && (record.owner.OfTab? ==> record.scope.None?)
    ensures SetBinding(db, canonicalize, record).Success? <==> OwnerOf(db, record.owner).Some?
  {
    hide OwnerOf, SameSlot;
  }

  /**
   The commands run on a worker pool. If two of them check before either commits, both succeed
   and a control chord is shared, although each of them alone would have refused the other.
   */
  lemma InterleavedShare(db: Db, canonicalize: Canonicalizer, first: string, second: string, chord: string)
    requires Canonical(canonicalize) && TableOk(db) && canonicalize(chord) == Some(chord)
    requires first in CONTROL_ACTIONS && second in CONTROL_ACTIONS && first != second
    requires forall b :: b in db.bindings ==> db.bindings[b].normalized != Some(chord)
    ensures var one := Target(ControlId(first), OfControl(first), None, false);
            var two := Target(ControlId(second), OfControl(second), None, false);
      && TargetOf(db, SetControl(first, Some(chord))) == Success(one)
      && TargetOf(db, SetControl(second, Some(chord))) == Success(two)
      && !Conflict(db, one.id, Some(chord), false, None) && !Conflict(db, two.id, Some(chord), false, None)
      && var committed := CommitBinding(db, canonicalize, one, Some(chord));
      && committed.Success?
      && Execute(committed.value, canonicalize, SetControl(second, Some(chord))) == Failure(Taken)
      && var both := CommitBinding(committed.value, canonicalize, two, Some(chord));
      && both.Success? && !Exclusive(both.value)
  {
    hide Live, UniqueSlots, WellNamed, Committed, SetBinding, SameSlot, Exclusive, Clashes;
    var one := Target(ControlId(first), OfControl(first), None, false);
    var two := Target(ControlId(second), OfControl(second), None, false);
    assert ControlId(first)[|CONTROL_PREFIX|..] == first && ControlId(second)[|CONTROL_PREFIX|..] == second;
    TargetNotBlank(db, SetControl(first, None));
    TargetNotBlank(db, SetControl(second, None));
    NotBlankAction(first);
    NotBlankAction(second);
    SetAccepts(db, canonicalize, Record(one.id, one.owner, None, chord, Some(chord), None));
    SetCommits(db, canonicalize, one, ControlOwner(first), chord);
    var committed := CommitBinding(db, canonicalize, one, Some(chord)).value;
    SetAccepts(committed, canonicalize, Record(two.id, two.owner, None, chord, Some(chord), None));
    SetCommits(committed, canonicalize, two, ControlOwner(second), chord);
    SharedControls(db, committed, CommitBinding(committed, canonicalize, two, Some(chord)).value, first, second, chord);
  }

  lemma NotBlankAction(action: string)
    requires action in CONTROL_ACTIONS
    ensures !Blank(action)
  {
    assert action[0] in action && !IsWhite(action[0]);
  }

  lemma SharedControls(db: Db, committed: Db, both: Db, first: string, second: string, chord: string)
    requires ControlId(first) != ControlId(second)
    requires Committed(db, committed, Target(ControlId(first), OfControl(first), None, false), ControlOwner(first),
      Some(chord))
    requires Committed(committed, both, Target(ControlId(second), OfControl(second), None, false),
      ControlOwner(second), Some(chord))
    ensures Conflicting(committed, ControlId(first), ControlId(second), chord, false, None)
    ensures !Exclusive(both)
  {
    assert committed.bindings[ControlId(first)].owner != ControlOwner(second);
    assert ControlId(first) in both.bindings;
    assert Rings(both.bindings, ControlId(first), chord) && Answers(both, ControlId(second), chord);
  }

  // ---- where it starts -------------------------------------------------------------------------------------

  const CANDIDATE: string := "valid legacy candidate"
  const DUPLICATE: string := "duplicate legacy binding"

  /** The legacy rows with a parsable chord. */
  function Candidates(bindings: map<string, Binding>, chord: string): set<string> {
    set b | b in bindings && bindings[b].issue == Some(CANDIDATE) && bindings[b].accelerator == chord
  }

  function MarkDuplicates(bindings: map<string, Binding>): map<string, Binding> {
    map b | b in bindings ::
      if bindings[b].issue == Some(CANDIDATE) && |Candidates(bindings, bindings[b].accelerator)| > 1
      then bindings[b].(issue := Some(DUPLICATE)) else bindings[b]
  }

  function ActivateUnique(bindings: map<string, Binding>): map<string, Binding> {
    map b | b in bindings ::
      if bindings[b].issue == Some(CANDIDATE) && |Candidates(bindings, bindings[b].accelerator)| == 1
      then bindings[b].(normalized := Some(bindings[b].accelerator), issue := None) else bindings[b]
  }

  /** The two updates that end the upgrade. */
  function FinalizeBindings(bindings: map<string, Binding>): map<string, Binding> {
    ActivateUnique(MarkDuplicates(bindings))
  }

  /** Some other legacy row has the same chord. */
  ghost predicate Contested(bindings: map<string, Binding>, b: string)
    requires b in bindings
  {
    exists a :: a in bindings && a != b && bindings[a].issue == Some("valid legacy candidate")
      && bindings[a].accelerator == bindings[b].accelerator
  }

  lemma ManyExactly(ids: set<string>, b: string)
    requires b in ids
    ensures |ids| > 1 <==> exists a :: a in ids && a != b
    ensures |ids| == 1 <==> ids == {b}
  {
    if |ids| > 1 {
      assert |ids - {b}| == |ids| - 1;
      var a :| a in ids - {b};
    } else {
      assert |ids - {b}| == 0;
    }
    if a :| a in ids && a != b { assert {a, b} <= ids && |ids - {a, b}| == |ids| - 2; }
  }

  lemma FinalizeRow(bindings: map<string, Binding>, b: string)
    requires b in bindings
    ensures var next := FinalizeBindings(bindings);
      && b in next
      && next[b] ==
           if bindings[b].issue != Some(CANDIDATE) then bindings[b]
           else if Contested(bindings, b) then bindings[b].(issue := Some(DUPLICATE))
           else bindings[b].(normalized := Some(bindings[b].accelerator), issue := None)
  {
    var marked := MarkDuplicates(bindings);
    if bindings[b].issue == Some(CANDIDATE) {
      var chord := bindings[b].accelerator;
      ManyExactly(Candidates(bindings, chord), b);
      if Contested(bindings, b) {
        var a :| a in bindings && a != b && bindings[a].issue == Some(CANDIDATE) && bindings[a].accelerator == chord;
        assert a in Candidates(bindings, chord);
      } else {
        assert Candidates(bindings, chord) == {b};
        assert Candidates(marked, chord) == {b};
      }
    }
  }

  /**
   The upgrade activates exactly the legacy rows whose chord no other legacy row has, so the table
   starts without any sharing at all.
   */
  lemma FinalizeStarts(db: Db)
    requires TableOk(db) && forall b :: b in db.bindings ==> db.bindings[b].normalized.None?
    ensures var next := db.(bindings := FinalizeBindings(db.bindings));
      && TableOk(next) && NoOverlap(next) && Exclusive(next)
      && next.bindings.Keys == db.bindings.Keys
      && (forall b :: b in next.bindings ==>
            (next.bindings[b].normalized.Some? <==>
               db.bindings[b].issue == Some("valid legacy candidate") && !Contested(db.bindings, b)))
      && (forall b :: b in next.bindings && next.bindings[b].normalized.Some? ==>
            next.bindings[b] == db.bindings[b].(normalized := Some(db.bindings[b].accelerator), issue := None))
      && (forall b :: b in next.bindings && next.bindings[b].normalized.None? ==>
            next.bindings[b] == if db.bindings[b].issue == Some("valid legacy candidate")
                                then db.bindings[b].(issue := Some("duplicate legacy binding")) else db.bindings[b])
  {
    hide FinalizeBindings, Live;
    var next := db.(bindings := FinalizeBindings(db.bindings));
    assert next.bindings.Keys == db.bindings.Keys by { FinalizeSameKeys(db.bindings); }
    forall b | b in db.bindings
      ensures next.bindings[b].owner == db.bindings[b].owner && next.bindings[b].scope == db.bindings[b].scope
      ensures next.bindings[b].normalized.Some? <==>
        db.bindings[b].issue == Some(CANDIDATE) && !Contested(db.bindings, b)
      ensures next.bindings[b] ==
        if db.bindings[b].issue != Some(CANDIDATE) then db.bindings[b]
        else if Contested(db.bindings, b) then db.bindings[b].(issue := Some(DUPLICATE))
        else db.bindings[b].(normalized := Some(db.bindings[b].accelerator), issue := None)
    {
      FinalizeRow(db.bindings, b);
    }
    forall a, b, chord | Rings(next.bindings, a, chord) && Rings(next.bindings, b, chord) ensures a == b {
      assert a in Candidates(db.bindings, db.bindings[b].accelerator);
    }
  }

  lemma FinalizeSameKeys(bindings: map<string, Binding>)
    ensures FinalizeBindings(bindings).Keys == bindings.Keys
  {}

  // ---- runs ----------------------------------------------------------------------------------------------

  /** A refused command changes nothing. */
  function Perform(db: Db, canonicalize: Canonicalizer, command: Command): Db {
    match Execute(db, canonicalize, command) case Success(next) => next case Failure(_) => db
  }

  function RunCommands(db: Db, canonicalize: Canonicalizer, commands: seq<Command>): Db
    decreases |commands|
  {
    if commands == [] then db else RunCommands(Perform(db, canonicalize, commands[0]), canonicalize, commands[1..])
  }

  /** Every sound command brings an id not yet in the table. */
  ghost predicate FreshRun(db: Db, canonicalize: Canonicalizer, commands: seq<Command>)
    decreases |commands|
  {
    commands != [] ==>
      FreshFor(db, commands[0]) && FreshRun(Perform(db, canonicalize, commands[0]), canonicalize, commands[1..])
  }

  ghost predicate SharingOff(commands: seq<Command>) {
    forall i :: 0 <= i < |commands| && commands[i].SetSound? ==> !commands[i].multi
  }

  /**
   Hotkey safety over runs, with liveness fixed. Whatever commands run, in whatever order: one row
   per sound and scope, control and tab; no control or tab chord shared with another eligible
   binding; and if sharing is off throughout, no two eligible bindings of a chord overlap.
   */
  lemma {:induction false} RunKeeps(db: Db, canonicalize: Canonicalizer, commands: seq<Command>)
    requires TableOk(db) && FreshRun(db, canonicalize, commands) && Exclusive(db)
    ensures var end := RunCommands(db, canonicalize, commands);
      && end == db.(bindings := end.bindings) && TableOk(end) && Exclusive(end)
      && (NoOverlap(db) && SharingOff(commands) ==> NoOverlap(end))
    decreases |commands|
  {
    hide Execute, UniqueSlots, WellNamed, Exclusive, NoOverlap, FreshFor;
    if commands != [] {
      ExecuteKeeps(db, canonicalize, commands[0]);
      RunKeeps(Perform(db, canonicalize, commands[0]), canonicalize, commands[1..]);
    }
  }
}
